/** The combinational ALU, src/cpu/alu.cpp. */
module Alu {
  import opened Words

  datatype AluFunction = ADD | AND | OR | XOR | SHL | SHR | ROL | ROR

  datatype AluResult = AluResult(value: byte, carry: bool)

  function Execute(a: byte, b: byte, fn: AluFunction, carryIn: bool): AluResult {
    match fn
    case ADD =>
      var sum := a + b + Bit(carryIn);
      AluResult(sum % 0x100, sum > 0xFF)
    case AND => AluResult(And8(a, b), false)
    case OR => AluResult(Or8(a, b), false)
    case XOR => AluResult(Xor8(a, b), false)
    case SHL => AluResult((2 * b) % 0x100, b >= 0x80)
    case SHR => AluResult(b / 2, b % 2 == 1)
    case ROL => AluResult((2 * b) % 0x100 + Bit(carryIn), b >= 0x80)
    case ROR => AluResult(b / 2 + 0x80 * Bit(carryIn), b % 2 == 1)
  }

  /** V as the core computes it: bit 7 of ~(a ^ b) & (a ^ d). */
  function Overflow(a: byte, b: byte, d: byte): bool {
    Negative(a) == Negative(b) && Negative(a) != Negative(d)
  }

  /** Addition: C is the ninth bit and V says that the signed sum leaves [-128, 127]. */
  lemma AdditionFlags(a: byte, b: byte, carry: bool)
    ensures
      var r := Execute(a, b, ADD, carry);
      && r.value + 0x100 * Bit(r.carry) == a + b + Bit(carry)
      && (Overflow(a, b, r.value) <==> !(-0x80 <= Signed(a) + Signed(b) + Bit(carry) < 0x80))
  {
    var sum := a + b + Bit(carry);
    assert sum % 0x100 == if sum > 0xFF then sum - 0x100 else sum;
  }

  /** Subtraction as addition of the complement: the value is the difference mod 256,
      C means no borrow, and V says that the signed difference leaves [-128, 127]. */
  lemma SubtractionFlags(a: byte, b: byte, carry: bool)
    ensures
      var r := Execute(a, Not8(b), ADD, carry);
      var diff := a - b - Bit(!carry);
      && r.value == diff % 0x100
      && (r.carry <==> diff >= 0)
      && (Overflow(a, Not8(b), r.value) <==> !(-0x80 <= Signed(a) - Signed(b) - Bit(!carry) < 0x80))
  {
    var sum := a + Not8(b) + Bit(carry);
    assert sum % 0x100 == if sum > 0xFF then sum - 0x100 else sum;
    assert (a - b - Bit(!carry)) % 0x100 == if sum > 0xFF then sum - 0x100 else sum;
  }
}
