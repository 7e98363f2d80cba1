/** One-shot semantics of the instruction set: what a whole instruction does to the
    programmer-visible state, written from the manual in arithmetic terms, with no
    T-states, latches or ALU. */
module Isa {
  import opened Words
  import opened FlatMemory
  import opened Instructions
  import opened Manual

  // ---------- programmer-visible state ----------

  /** The eight bits of P; `u` is the unused bit 5. */
  datatype Flags = Flags(c: bool, z: bool, i: bool, d: bool, b: bool, u: bool, v: bool, n: bool) {

    function ToByte(): byte {
      Bit(c) + 2 * Bit(z) + 4 * Bit(i) + 8 * Bit(d) + 16 * Bit(b) + 32 * Bit(u) + 64 * Bit(v) + 128 * Bit(n)
    }

    /** Z and N follow a result; every other flag is kept. */
    function WithZN(result: byte): Flags {
      this.(z := result == 0, n := Negative(result))
    }
  }

  function FlagsOf(b: byte): Flags {
    var b1 := b / 2;
    var b2 := b1 / 2;
    var b3 := b2 / 2;
    var b4 := b3 / 2;
    var b5 := b4 / 2;
    var b6 := b5 / 2;
    var b7 := b6 / 2;
    Flags(b % 2 == 1, b1 % 2 == 1, b2 % 2 == 1, b3 % 2 == 1, b4 % 2 == 1, b5 % 2 == 1, b6 % 2 == 1, b7 % 2 == 1)
  }

  datatype State = State(a: byte, x: byte, y: byte, pc: word, sp: byte, p: Flags, halted: bool, mem: Memory)

  const RESET_VECTOR: word := 0xFFFC
  const BRK_VECTOR: word := 0xFFFE

  /** What the manual makes of an opcode byte. */
  function Decode(opcode: byte): Instr {
    InstrOf(Lookup(opcode))
  }

  // ---------- registers, flags and the stack ----------

  function RegisterValue(s: State, r: Register): byte {
    match r
    case A => s.a
    case X => s.x
    case Y => s.y
    case S => s.sp
  }

  function WithRegister(s: State, r: Register, v: byte): State {
    match r
    case A => s.(a := v)
    case X => s.(x := v)
    case Y => s.(y := v)
    case S => s.(sp := v)
  }

  function FlagValue(p: Flags, f: Flag): bool {
    match f
    case C => p.c
    case Z => p.z
    case I => p.i
    case D => p.d
    case V => p.v
    case N => p.n
  }

  function WithFlag(p: Flags, f: Flag, v: bool): Flags {
    match f
    case C => p.(c := v)
    case Z => p.(z := v)
    case I => p.(i := v)
    case D => p.(d := v)
    case V => p.(v := v)
    case N => p.(n := v)
  }

  function StackCell(sp: byte): word { 0x100 + sp }

  function PushByte(s: State, v: byte): State {
    s.(mem := s.mem.Write(StackCell(s.sp), v), sp := Dec8(s.sp))
  }

  /** Pushes a 16-bit value, high byte first. */
  function PushWord(s: State, w: word): State {
    PushByte(PushByte(s, Hi(w)), Lo(w))
  }

  // ---------- operands ----------

  function Operand1(s: State): byte { s.mem.Read(Inc16(s.pc)) }

  function Operand2(s: State): byte { s.mem.Read(Inc16(Inc16(s.pc))) }

  function OperandWord(s: State): word { Word(Operand1(s), Operand2(s)) }

  /** Little-endian pointer stored in page zero, its high byte wrapping within the page. */
  function ZeroPagePointer(m: Memory, at: byte): word {
    Word(m.Read(at), m.Read(Inc8(at)))
  }

  /** The address an indexed mode starts from, before its index register is added. */
  function IndexBase(mode: Mode, s: State): word {
    match mode
    case AbsoluteX => OperandWord(s)
    case AbsoluteY => OperandWord(s)
    case IndirectY => ZeroPagePointer(s.mem, Operand1(s))
    case _ => 0
  }

  function EffectiveAddress(mode: Mode, s: State): word {
    match mode
    case Immediate => Inc16(s.pc)
    case ZeroPage => Operand1(s)
    case ZeroPageX => (Operand1(s) + s.x) % 0x100
    case ZeroPageY => (Operand1(s) + s.y) % 0x100
    case Absolute => OperandWord(s)
    case AbsoluteX => Offset(IndexBase(mode, s), s.x)
    case AbsoluteY => Offset(IndexBase(mode, s), s.y)
    case IndirectX => ZeroPagePointer(s.mem, (Operand1(s) + s.x) % 0x100)
    case IndirectY => Offset(IndexBase(mode, s), s.y)
  }

  /** Whether adding the index carries out of the low address byte. */
  function PageCrossed(mode: Mode, s: State): bool {
    match mode
    case AbsoluteX => Lo(IndexBase(mode, s)) + s.x > 0xFF
    case AbsoluteY => Lo(IndexBase(mode, s)) + s.y > 0xFF
    case IndirectY => Lo(IndexBase(mode, s)) + s.y > 0xFF
    case _ => false
  }

  /** The address just past a memory-operand instruction. */
  function PastOperand(mode: Mode, pc: word): word {
    if mode.Absolute? || mode.AbsoluteX? || mode.AbsoluteY? then Inc16(Inc16(Inc16(pc))) else Inc16(Inc16(pc))
  }

  // ---------- arithmetic ----------

  function AddWithCarry(s: State, v: byte): State {
    var sum := s.a + v + Bit(s.p.c);
    var signed := Signed(s.a) + Signed(v) + Bit(s.p.c);
    s.(a := sum % 0x100, p := s.p.WithZN(sum % 0x100).(c := sum > 0xFF, v := !(-0x80 <= signed < 0x80)))
  }

  function SubtractWithBorrow(s: State, v: byte): State {
    var diff := s.a - v - Bit(!s.p.c);
    var signed := Signed(s.a) - Signed(v) - Bit(!s.p.c);
    s.(a := diff % 0x100, p := s.p.WithZN(diff % 0x100).(c := diff >= 0, v := !(-0x80 <= signed < 0x80)))
  }

  function Compare(p: Flags, reg: byte, v: byte): Flags {
    p.(c := reg >= v, z := reg == v, n := Negative((reg - v) % 0x100))
  }

  function WithResult(s: State, v: byte): State {
    s.(a := v, p := s.p.WithZN(v))
  }

  function Combined(op: BinaryOp, s: State, v: byte): State {
    match op
    case OpAdc => AddWithCarry(s, v)
    case OpSbc => SubtractWithBorrow(s, v)
    case OpAnd => WithResult(s, And8(s.a, v))
    case OpOra => WithResult(s, Or8(s.a, v))
    case OpEor => WithResult(s, Xor8(s.a, v))
    case OpCmp(r) => s.(p := Compare(s.p, RegisterValue(s, r), v))
    case OpBit => s.(p := s.p.(z := And8(s.a, v) == 0, n := v / 0x80 == 1, v := v / 0x40 % 2 == 1))
  }

  /** Result of a shift, rotate, increment or decrement. */
  function UnaryResult(op: UnaryOp, v: byte, carry: bool): byte {
    match op
    case OpAsl => 2 * v % 0x100
    case OpLsr => v / 2
    case OpRol => (2 * v + Bit(carry)) % 0x100
    case OpRor => (v + 0x100 * Bit(carry)) / 2
    case OpInc => Inc8(v)
    case OpDec => Dec8(v)
  }

  function UnaryFlags(op: UnaryOp, v: byte, p: Flags): Flags {
    var zn := p.WithZN(UnaryResult(op, v, p.c));
    match op
    case OpAsl => zn.(c := v >= 0x80)
    case OpRol => zn.(c := v >= 0x80)
    case OpLsr => zn.(c := v % 2 == 1)
    case OpRor => zn.(c := v % 2 == 1)
    case OpInc => zn
    case OpDec => zn
  }

  // ---------- whole instructions ----------

  function ExecOperand(use: Use, mode: Mode, s: State): State {
    var addr := EffectiveAddress(mode, s);
    var v := s.mem.Read(addr);
    var next := s.(pc := PastOperand(mode, s.pc));
    match use
    case Combine(op) => Combined(op, next, v)
    case Load(dst) => WithRegister(next, dst, v).(p := s.p.WithZN(v))
    case Store(src) => next.(mem := s.mem.Write(addr, RegisterValue(s, src)))
    case Modify(op) => next.(mem := s.mem.Write(addr, UnaryResult(op, v, s.p.c)), p := UnaryFlags(op, v, s.p))
  }

  function BranchTarget(s: State): word {
    Offset(Inc16(Inc16(s.pc)), Signed(Operand1(s)))
  }

  /** BRK up to the point where the vector is fetched: return address and status
      (with B set) pushed, I set. */
  function BrkPushed(s: State): State {
    var s1 := PushWord(s.(pc := Inc16(Inc16(s.pc)), p := s.p.(b := true)), Inc16(Inc16(s.pc)));
    PushByte(s1, s1.p.ToByte()).(p := s1.p.(i := true))
  }

  /** JSR up to the fetch of its high operand byte, which comes after the pushes. */
  function JsrPushed(s: State): State {
    PushWord(s.(pc := Inc16(Inc16(s.pc))), Inc16(Inc16(s.pc)))
  }

  function Pulled(s: State): byte { s.mem.Read(StackCell(Inc8(s.sp))) }

  function PulledSecond(s: State): byte { s.mem.Read(StackCell(Inc8(Inc8(s.sp)))) }

  function PulledThird(s: State): byte { s.mem.Read(StackCell(Inc8(Inc8(Inc8(s.sp))))) }

  /** JMP (ind) fetches the high byte from the same page as the low byte. */
  function IndirectTarget(s: State): word {
    var pointer := OperandWord(s);
    Word(s.mem.Read(pointer), s.mem.Read(Word(Inc8(Lo(pointer)), Hi(pointer))))
  }

  function Exec(i: Instr, s: State): State {
    var next := s.(pc := Inc16(s.pc));
    match i
    case Operand(use, mode) => ExecOperand(use, mode, s)
    case Accumulator(op) => next.(a := UnaryResult(op, s.a, s.p.c), p := UnaryFlags(op, s.a, s.p))
    case IncDec(op, r) =>
      var v := UnaryResult(op, RegisterValue(s, r), s.p.c);
      WithRegister(next, r, v).(p := s.p.WithZN(v))
    case Transfer(src, dst) =>
      var v := RegisterValue(s, src);
      WithRegister(next, dst, v).(p := if dst == S then s.p else s.p.WithZN(v))
    case SetFlag(f, v) => next.(p := WithFlag(s.p, f, v))
    case Branch(f, when) =>
      s.(pc := if FlagValue(s.p, f) == when then BranchTarget(s) else Inc16(Inc16(s.pc)))
    case Brk =>
      var s1 := BrkPushed(s);
      s1.(pc := Word(s1.mem.Read(BRK_VECTOR), s1.mem.Read(BRK_VECTOR + 1)), halted := true)
    case Jsr =>
      var s1 := JsrPushed(s);
      s1.(pc := Word(Operand1(s), s1.mem.Read(s1.pc)))
    case Rts => s.(pc := Inc16(Word(Pulled(s), PulledSecond(s))), sp := Inc8(Inc8(s.sp)))
    case Rti =>
      s.(p := FlagsOf(Pulled(s)), pc := Word(PulledSecond(s), PulledThird(s)), sp := Inc8(Inc8(Inc8(s.sp))))
    case Jmp => s.(pc := OperandWord(s))
    case JmpIndirect => s.(pc := IndirectTarget(s))
    case Nop => next
    case Push(status) =>
      if status then PushByte(next.(p := s.p.(b := true)), s.p.(b := true).ToByte())
      else PushByte(next, s.a)
    case Pull(status) =>
      var v := Pulled(s);
      if status then next.(sp := Inc8(s.sp), p := FlagsOf(v))
      else next.(sp := Inc8(s.sp), a := v, p := s.p.WithZN(v))
    case Unknown => next
  }

  function Opcode(s: State): byte { s.mem.Read(s.pc) }

  /** One instruction. */
  function Step(s: State): State {
    Exec(Decode(Opcode(s)), s)
  }

  /** `n` instructions, stopping early at a halt: CPU6502::run. */
  function Run(s: State, n: nat): State
    decreases n
  {
    if n == 0 || s.halted then s else Run(Step(s), n - 1)
  }

  /** The effect of a reset sequence. */
  function AfterReset(s: State): State {
    s.(pc := Word(s.mem.Read(RESET_VECTOR), s.mem.Read(RESET_VECTOR + 1)),
       sp := Dec8(Dec8(Dec8(s.sp))), p := s.p.(i := true), halted := false)
  }

  // ---------- timing ----------

  function OperandCycles(use: Use, mode: Mode, crossed: bool): nat {
    var base: nat := match mode
      case Immediate => 2
      case ZeroPage => 3
      case ZeroPageX => 4
      case ZeroPageY => 4
      case Absolute => 4
      case AbsoluteX => 4
      case AbsoluteY => 4
      case IndirectX => 6
      case IndirectY => 5;
    var indexed := mode.AbsoluteX? || mode.AbsoluteY? || mode.IndirectY?;
    match use
    case Combine(_) => base + Bit(crossed)
    case Load(_) => base + Bit(crossed)
    case Store(_) => base + Bit(indexed)
    case Modify(_) => base + Bit(indexed) + 2
  }

  /** T-states the instruction takes from state `s`. */
  function Cycles(i: Instr, s: State): nat {
    match i
    case Operand(use, mode) => OperandCycles(use, mode, PageCrossed(mode, s))
    case Branch(f, when) =>
      if FlagValue(s.p, f) != when then 2
      else if Hi(BranchTarget(s)) == Hi(Inc16(Inc16(s.pc))) then 3
      else 4
    case Brk => 7
    case Jsr => 6
    case Rts => 6
    case Rti => 6
    case Jmp => 3
    case JmpIndirect => 5
    case Push(_) => 3
    case Pull(_) => 4
    case Accumulator(_) => 2
    case IncDec(_, _) => 2
    case Transfer(_, _) => 2
    case SetFlag(_, _) => 2
    case Nop => 2
    case Unknown => 2
  }
}
