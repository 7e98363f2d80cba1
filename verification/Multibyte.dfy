/** Arithmetic on little-endian byte strings by chaining the adder through its carry,
    one byte per ADC or SBC. */
module Multibyte {
  import opened Words
  import opened Alu

  function ValueOf(bs: seq<byte>): nat {
    if bs == [] then 0 else bs[0] + 0x100 * ValueOf(bs[1..])
  }

  function Pow256(n: nat): (p: nat)
    ensures p > 0
  {
    if n == 0 then 1 else 0x100 * Pow256(n - 1)
  }

  /** The final carry, at the weight of the byte past the end. */
  function CarryValue(carry: bool, n: nat): nat {
    if carry then Pow256(n) else 0
  }

  datatype Chained = Chained(bytes: seq<byte>, carry: bool)

  /** ADC over successive bytes. */
  function AddChain(xs: seq<byte>, ys: seq<byte>, carry: bool): Chained
    requires |xs| == |ys|
  {
    if xs == [] then Chained([], carry)
    else
      var r := Execute(xs[0], ys[0], ADD, carry);
      var rest := AddChain(xs[1..], ys[1..], r.carry);
      Chained([r.value] + rest.bytes, rest.carry)
  }

  /** SBC over successive bytes: the adder fed the complement. */
  function SubtractChain(xs: seq<byte>, ys: seq<byte>, carry: bool): Chained
    requires |xs| == |ys|
  {
    if xs == [] then Chained([], carry)
    else
      var r := Execute(xs[0], Not8(ys[0]), ADD, carry);
      var rest := SubtractChain(xs[1..], ys[1..], r.carry);
      Chained([r.value] + rest.bytes, rest.carry)
  }

  lemma {:induction false} ValueBound(bs: seq<byte>)
    ensures ValueOf(bs) < Pow256(|bs|)
  {
    if bs != [] {
      ValueBound(bs[1..]);
    }
  }

  /** The chained sum is the n-byte sum, its carry the overflow of the n-byte value. */
  lemma {:induction false} AddChainAdds(xs: seq<byte>, ys: seq<byte>, carry: bool)
    requires |xs| == |ys|
    ensures
      var r := AddChain(xs, ys, carry);
      && |r.bytes| == |xs|
      && ValueOf(r.bytes) + CarryValue(r.carry, |xs|) == ValueOf(xs) + ValueOf(ys) + Bit(carry)
  {
    if xs != [] {
      var r := Execute(xs[0], ys[0], ADD, carry);
      AdditionFlags(xs[0], ys[0], carry);
      AddChainAdds(xs[1..], ys[1..], r.carry);
      var rest := AddChain(xs[1..], ys[1..], r.carry);
      assert ([r.value] + rest.bytes)[1..] == rest.bytes;
    }
  }

  /** The chained difference is the n-byte difference mod 256^n. */
  lemma {:induction false} SubtractChainSubtracts(xs: seq<byte>, ys: seq<byte>, carry: bool)
    requires |xs| == |ys|
    ensures
      var r := SubtractChain(xs, ys, carry);
      && |r.bytes| == |xs|
      && ValueOf(r.bytes) == ValueOf(xs) - ValueOf(ys) - Bit(!carry) + CarryValue(!r.carry, |xs|)
  {
    if xs != [] {
      var r := Execute(xs[0], Not8(ys[0]), ADD, carry);
      SubtractionFlags(xs[0], ys[0], carry);
      SubtractChainSubtracts(xs[1..], ys[1..], r.carry);
      var rest := SubtractChain(xs[1..], ys[1..], r.carry);
      assert ([r.value] + rest.bytes)[1..] == rest.bytes;
      assert r.value == xs[0] - ys[0] - Bit(!carry) + (if r.carry then 0 else 0x100);
    }
  }

  /** The final carry of a chain: overflow of the sum, absence of a borrow. */
  lemma ChainCarry(xs: seq<byte>, ys: seq<byte>, carry: bool)
    requires |xs| == |ys|
    ensures AddChain(xs, ys, carry).carry <==> ValueOf(xs) + ValueOf(ys) + Bit(carry) >= Pow256(|xs|)
    ensures SubtractChain(xs, ys, carry).carry <==> ValueOf(xs) >= ValueOf(ys) + Bit(!carry)
  {
    AddChainAdds(xs, ys, carry);
    SubtractChainSubtracts(xs, ys, carry);
    ValueBound(xs);
    ValueBound(ys);
    ValueBound(AddChain(xs, ys, carry).bytes);
    ValueBound(SubtractChain(xs, ys, carry).bytes);
  }
}
