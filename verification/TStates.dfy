/** Where an instruction stands between T-states: the programmer-visible state it has
    reached at the start of each one, and the ALU inputs it latches. */
module TStates {
  import opened Words
  import opened FlatMemory
  import opened Instructions
  import opened Isa
  import opened Alu

  /** PC after the opcode and the operand bytes fetched before T-state `k`. */
  function FetchedPc(mode: Mode, pc: word, k: nat): word {
    if k <= 1 then Inc16(pc)
    else if k == 2 then Inc16(Inc16(pc))
    else PastOperand(mode, pc)
  }

  /** Visible state at the start of T-state `k` of an instruction that began in `s`. */
  function Partial(i: Instr, s: State, k: nat): State {
    var s1 := s.(pc := Inc16(s.pc));
    var s2 := s.(pc := Inc16(Inc16(s.pc)));
    match i
    case Operand(_, mode) => s.(pc := FetchedPc(mode, s.pc, k))
    case Branch(_, _) => if k <= 1 then s1 else s2
    case Brk =>
      if k <= 1 then s1 else if k == 2 then s2
      else if k == 3 then PushByte(s2, Hi(s2.pc))
      else if k == 4 then PushWord(s2, s2.pc)
      else BrkPushed(s)
    case Jsr =>
      if k <= 1 then s1 else if k <= 3 then s2
      else if k == 4 then PushByte(s2, Hi(s2.pc))
      else JsrPushed(s)
    case Rts =>
      if k <= 2 then s1 else if k == 3 then s1.(sp := Inc8(s.sp)) else s1.(sp := Inc8(Inc8(s.sp)))
    case Rti =>
      if k <= 2 then s1 else if k == 3 then s1.(sp := Inc8(s.sp))
      else if k == 4 then s1.(sp := Inc8(Inc8(s.sp)), p := FlagsOf(Pulled(s)))
      else s1.(sp := Inc8(Inc8(Inc8(s.sp))), p := FlagsOf(Pulled(s)))
    case Jmp => if k <= 1 then s1 else s2
    case JmpIndirect => if k <= 1 then s1 else if k == 2 then s2 else s2.(pc := Inc16(s2.pc))
    case Pull(_) => if k <= 2 then s1 else s1.(sp := Inc8(s.sp))
    case _ => s1
  }

  /** BRK from T-state to T-state: PC past the padding byte, three pushes, the vector. */
  lemma BrkStates(s: State)
    ensures
      var s1, s2, s3, s4 := Partial(Brk, s, 1), Partial(Brk, s, 2), Partial(Brk, s, 3), Partial(Brk, s, 4);
      var b := s4.(p := s4.p.(b := true));
      && s1 == s.(pc := Inc16(s.pc))
      && s2 == s1.(pc := Inc16(s1.pc))
      && s3 == PushByte(s2, Hi(s2.pc))
      && s4 == PushByte(s3, Lo(s3.pc))
      && Partial(Brk, s, 5) == PushByte(b, b.p.ToByte()).(p := b.p.(i := true))
      && Partial(Brk, s, 6) == Partial(Brk, s, 5)
      && Exec(Brk, s) == Partial(Brk, s, 6).(pc := Exec(Brk, s).pc, halted := true)
  {
    hide Flags.ToByte, Hi, Lo, Word, Inc16;
  }

  /** T-states whose commit half uses the bus. */
  predicate CommitUsesBus(i: Instr, s: State, k: nat) {
    match i
    case Operand(use, mode) => (use.Store? || use.Modify?) && k + 1 == Cycles(i, s)
    case Brk => 2 <= k <= 4
    case Jsr => 3 <= k <= 4
    case Rti => 3 <= k <= 5
    case Push(_) => k == 2
    case _ => false
  }

  /** Visible state `k` T-states into a reset that interrupted `s`. */
  function ResetPartial(s: State, k: nat): State {
    if k == 0 then s
    else
      var s1 := s.(halted := false);
      if k <= 2 then s1
      else if k == 3 then s1.(sp := Dec8(s.sp))
      else if k == 4 then s1.(sp := Dec8(Dec8(s.sp)))
      else s1.(sp := Dec8(Dec8(Dec8(s.sp))), p := s.p.(i := true))
  }

  // ---------- ALU inputs ----------

  datatype AluInputs = AluInputs(a: byte, b: byte, fn: AluFunction, carry: bool)

  function Output(x: AluInputs): AluResult { Execute(x.a, x.b, x.fn, x.carry) }

  /** The latch settings that make the ALU compute a two-operand operation. */
  predicate Combines(x: AluInputs, op: BinaryOp, s: State, v: byte) {
    match op
    case OpAdc => x == AluInputs(s.a, v, ADD, s.p.c)
    case OpSbc => x == AluInputs(s.a, Not8(v), ADD, s.p.c)
    case OpAnd => x.a == s.a && x.b == v && x.fn == AND
    case OpOra => x.a == s.a && x.b == v && x.fn == OR
    case OpEor => x.a == s.a && x.b == v && x.fn == XOR
    case OpCmp(r) => x == AluInputs(RegisterValue(s, r), Not8(v), ADD, true)
    case OpBit => x.a == s.a && x.b == v && x.fn == AND
  }

  /** ... a one-operand operation ... */
  predicate Transforms(x: AluInputs, op: UnaryOp, v: byte, carry: bool) {
    x.b == v &&
    match op
    case OpAsl => x.fn == SHL
    case OpLsr => x.fn == SHR
    case OpRol => x.fn == ROL && x.carry == carry
    case OpRor => x.fn == ROR && x.carry == carry
    case OpInc => x.fn == ADD && x.a == 1 && !x.carry
    case OpDec => x.fn == ADD && x.a == 0xFF && !x.carry
  }

  /** ... or the pass-through of a value. */
  predicate Passes(x: AluInputs, v: byte) {
    x.a == 0 && x.b == v && x.fn == OR
  }

  /** The register and flags the adder leaves. */
  function AdderResult(x: AluInputs, s: State): State {
    var out := Output(x);
    s.(a := out.value, p := s.p.WithZN(out.value).(c := out.carry, v := Overflow(x.a, x.b, out.value)))
  }

  lemma AdderAdds(x: AluInputs, s: State, v: byte)
    requires Combines(x, OpAdc, s, v)
    ensures AddWithCarry(s, v) == AdderResult(x, s)
  {
    AdditionFlags(s.a, v, s.p.c);
  }

  lemma AdderSubtracts(x: AluInputs, s: State, v: byte)
    requires Combines(x, OpSbc, s, v)
    ensures SubtractWithBorrow(s, v) == AdderResult(x, s)
  {
    SubtractionFlags(s.a, v, s.p.c);
  }

  /** Comparison is the adder with the carry forced: carry out means no borrow. */
  lemma ComparatorComputes(x: AluInputs, s: State, r: Register, v: byte)
    requires Combines(x, OpCmp(r), s, v)
    ensures
      var out := Output(x);
      Combined(OpCmp(r), s, v) == s.(p := s.p.WithZN(out.value).(c := out.carry))
  {
  }

  lemma UnaryComputes(x: AluInputs, op: UnaryOp, v: byte, p: Flags)
    requires Transforms(x, op, v, p.c)
    ensures
      var out := Output(x);
      && UnaryResult(op, v, p.c) == out.value
      && UnaryFlags(op, v, p) ==
           (if op.OpInc? || op.OpDec? then p.WithZN(out.value) else p.WithZN(out.value).(c := out.carry))
  {
    hide Flags.WithZN, UnaryResult, Output, Execute;
    ResultsAgree(x, op, v, p.c);
    if !op.OpInc? && !op.OpDec? {
      ShiftCarry(x, op, v, p.c);
    }
  }

  lemma ResultsAgree(x: AluInputs, op: UnaryOp, v: byte, carry: bool)
    requires Transforms(x, op, v, carry)
    ensures UnaryResult(op, v, carry) == Output(x).value
  {
    match op
    case OpAsl =>
    case OpLsr =>
    case OpRol => RotateLeft(v, Bit(carry));
    case OpRor => RotateRight(v, Bit(carry));
    case OpInc =>
    case OpDec =>
  }

  lemma RotateLeft(v: byte, bit: nat)
    requires bit <= 1
    ensures (2 * v + bit) % 0x100 == 2 * v % 0x100 + bit
  {
  }

  lemma RotateRight(v: byte, bit: nat)
    requires bit <= 1
    ensures (v + 0x100 * bit) / 2 == v / 2 + 0x80 * bit
  {
  }

  lemma ShiftCarry(x: AluInputs, op: UnaryOp, v: byte, carry: bool)
    requires Transforms(x, op, v, carry) && !op.OpInc? && !op.OpDec?
    ensures Output(x).carry == if op.OpAsl? || op.OpRol? then v >= 0x80 else v % 2 == 1
  {
  }

  lemma PassThrough(x: AluInputs, v: byte)
    requires Passes(x, v)
    ensures Output(x).value == v
  {
  }

  /** What each two-operand operation leaves, in terms of the ALU's output. */
  lemma ResultsOf(x: AluInputs, op: BinaryOp, s: State, v: byte)
    requires Combines(x, op, s, v)
    ensures
      var out := Output(x);
      match op
      case OpAdc => Combined(op, s, v) == AdderResult(x, s)
      case OpSbc => Combined(op, s, v) == AdderResult(x, s)
      case OpCmp(_) => Combined(op, s, v) == s.(p := s.p.WithZN(out.value).(c := out.carry))
      case OpBit =>
        Combined(op, s, v) == s.(p := s.p.(z := out.value == 0, n := x.b / 0x80 == 1, v := x.b / 0x40 % 2 == 1))
      case _ => Combined(op, s, v) == s.(a := out.value, p := s.p.WithZN(out.value))
  {
    match op
    case OpAdc => AdderAdds(x, s, v);
    case OpSbc => AdderSubtracts(x, s, v);
    case OpCmp(r) => ComparatorComputes(x, s, r, v);
    case _ =>
  }
}
