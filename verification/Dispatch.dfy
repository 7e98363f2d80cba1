/** Opcode routing: the core's switches, taken together, do for each of the 256 opcode
    bytes what the manual lists for it. */
module Dispatch {
  import opened Words
  import opened Instructions
  import opened Manual
  import opened Isa
  import opened Switches

  // ---------- the switches taken together ----------

  function KindOf(use: Use): Kind {
    match use
    case Combine(_) => Reading
    case Load(_) => Loading
    case Store(_) => Storing
    case Modify(_) => Modifying
  }

  /** The handler pair an instruction needs. */
  function HandlerFor(i: Instr): Handler {
    match i
    case Operand(use, mode) => Access(KindOf(use), mode)
    case Accumulator(_) => ShiftAccumulator
    case IncDec(_, _) => ImpliedIncDec
    case Transfer(_, _) => ImpliedTransfer
    case SetFlag(_, _) => ImpliedFlagOp
    case Branch(_, _) => Branching
    case Brk => BRK
    case Jsr => JSR
    case Rts => RTS
    case Rti => RTI
    case Jmp => JMPAbsolute
    case JmpIndirect => JMPIndirect
    case Nop => NOP
    case Push(_) => ImpliedPush
    case Pull(_) => ImpliedPull
    case Unknown => NoHandler
  }

  function ResultFor(op: BinaryOp): BinaryResult {
    match op
    case OpAdc => Arithmetic
    case OpSbc => Arithmetic
    case OpAnd => Logical
    case OpOra => Logical
    case OpEor => Logical
    case OpCmp(_) => Comparison
    case OpBit => BitTest
  }

  function FlagsFor(op: UnaryOp): UnaryFlagSet {
    if op.OpInc? || op.OpDec? then ZeroNegative else WithCarry
  }

  /** Each switch that the handlers consult gives what the instruction says. */
  predicate InnerAgree(ir: byte, i: Instr) {
    match i
    case Operand(Combine(op), _) => BinaryOpOf(ir) == Some(op) && BinaryResultOf(ir) == ResultFor(op)
    case Operand(Load(dst), _) => LoadTarget(ir) == Some(dst)
    case Operand(Store(src), _) => StoreSource(ir) == Some(src)
    case Operand(Modify(op), _) => UnaryOpOf(ir) == Some(op) && UnaryFlagsOf(ir) == FlagsFor(op)
    case Accumulator(op) => UnaryOpOf(ir) == Some(op) && UnaryFlagsOf(ir) == FlagsFor(op)
    case IncDec(op, r) => IncDecOf(ir) == Some((op, r)) && IncDecTarget(ir) == Some(r)
    case Transfer(src, dst) => TransferSource(ir) == Some(src) && TransferTarget(ir) == Some(dst)
    case SetFlag(f, v) => FlagOpOf(ir) == Some((f, v))
    case Branch(f, when) => ConditionOf(ir) == Some((f, when))
    case Push(status) => PushesStatus(ir) == status
    case Pull(status) => PullsAccumulator(ir) == !status
    case _ => true
  }

  /** Both clock halves call the pair the instruction needs, and its handlers' switches
      agree. */
  predicate SwitchesAgree(ir: byte, i: Instr) {
    CaptureSwitch(ir) == HandlerFor(i) && CommitSwitch(ir) == HandlerFor(i) && InnerAgree(ir, i)
  }

  lemma HalvesAgree(ir: byte)
    ensures CommitSwitch(ir) == CaptureSwitch(ir)
  {
  }

  predicate Routes(ir: byte, i: Instr) {
    CaptureSwitch(ir) == HandlerFor(i) && InnerAgree(ir, i)
  }

  // Every byte, by its high hex digit.

  lemma Row0(lo: nat)
    requires lo < 0x10
    ensures Routes(lo, InstrOf(RowAt(0x0, lo)))
  {
    hide Routes;
    Row0Below(0x10 - lo);
  }

  /** The same row counted from its end. */
  lemma Row0Below(up: nat)
    requires 0 < up <= 0x10
    ensures Routes(0x10 - up, InstrOf(RowAt(0x0, 0x10 - up)))
  {
  }

  lemma Row1(lo: nat)
    requires lo < 0x10
    ensures Routes(0x10 + lo, InstrOf(RowAt(0x1, lo)))
  {
  }

  lemma Row2(lo: nat)
    requires lo < 0x10
    ensures Routes(0x20 + lo, InstrOf(RowAt(0x2, lo)))
  {
  }

  lemma Row3(lo: nat)
    requires lo < 0x10
    ensures Routes(0x30 + lo, InstrOf(RowAt(0x3, lo)))
  {
  }

  lemma Row4(lo: nat)
    requires lo < 0x10
    ensures Routes(0x40 + lo, InstrOf(RowAt(0x4, lo)))
  {
  }

  lemma Row5(lo: nat)
    requires lo < 0x10
    ensures Routes(0x50 + lo, InstrOf(RowAt(0x5, lo)))
  {
  }

  lemma Row6(lo: nat)
    requires lo < 0x10
    ensures Routes(0x60 + lo, InstrOf(RowAt(0x6, lo)))
  {
  }

  lemma Row7(lo: nat)
    requires lo < 0x10
    ensures Routes(0x70 + lo, InstrOf(RowAt(0x7, lo)))
  {
  }

  lemma Row8(lo: nat)
    requires lo < 0x10
    ensures Routes(0x80 + lo, InstrOf(RowAt(0x8, lo)))
  {
  }

  lemma Row9(lo: nat)
    requires lo < 0x10
    ensures Routes(0x90 + lo, InstrOf(RowAt(0x9, lo)))
  {
  }

  lemma RowA(lo: nat)
    requires lo < 0x10
    ensures Routes(0xA0 + lo, InstrOf(RowAt(0xA, lo)))
  {
  }

  lemma RowB(lo: nat)
    requires lo < 0x10
    ensures Routes(0xB0 + lo, InstrOf(RowAt(0xB, lo)))
  {
  }

  lemma RowC(lo: nat)
    requires lo < 0x10
    ensures Routes(0xC0 + lo, InstrOf(RowAt(0xC, lo)))
  {
  }

  lemma RowD(lo: nat)
    requires lo < 0x10
    ensures Routes(0xD0 + lo, InstrOf(RowAt(0xD, lo)))
  {
  }

  lemma RowE(lo: nat)
    requires lo < 0x10
    ensures Routes(0xE0 + lo, InstrOf(RowAt(0xE, lo)))
  {
  }

  lemma RowF(lo: nat)
    requires lo < 0x10
    ensures Routes(0xF0 + lo, InstrOf(RowAt(0xF, lo)))
  {
  }

  lemma EveryRow(hi: nat, lo: nat)
    requires hi < 0x10 && lo < 0x10
    ensures Routes(0x10 * hi + lo, InstrOf(RowAt(hi, lo)))
  {
    hide Routes, RowAt;
    match hi {
      case 0x0 => Row0(lo);
      case 0x1 => Row1(lo);
      case 0x2 => Row2(lo);
      case 0x3 => Row3(lo);
      case 0x4 => Row4(lo);
      case 0x5 => Row5(lo);
      case 0x6 => Row6(lo);
      case 0x7 => Row7(lo);
      case 0x8 => Row8(lo);
      case 0x9 => Row9(lo);
      case 0xA => RowA(lo);
      case 0xB => RowB(lo);
      case 0xC => RowC(lo);
      case 0xD => RowD(lo);
      case 0xE => RowE(lo);
      case _ => RowF(lo);
    }
  }

  /** For each of the 256 bytes the switches of both clock halves and of the handlers they
      call amount to the instruction the manual lists, and for the 105 bytes it does not list
      to the defaults. */
  lemma DispatchFollowsManual(ir: byte)
    ensures SwitchesAgree(ir, Decode(ir)) && Encodable(Decode(ir))
  {
    hide CaptureSwitch, CommitSwitch, InnerAgree, RowAt;
    EveryRow(ir / 0x10, ir % 0x10);
    HalvesAgree(ir);
    ManualRows(ir);
  }

  // ---------- agreement with the manual ----------

  /** Length of the encoding in bytes (BRK's padding byte included). */
  function Length(i: Instr): nat {
    match i
    case Operand(_, mode) => if mode.Absolute? || mode.AbsoluteX? || mode.AbsoluteY? then 3 else 2
    case Branch(_, _) => 2
    case Brk => 2
    case Jsr => 3
    case Jmp => 3
    case JmpIndirect => 3
    case _ => 1
  }

  /** When the one-shot semantics charges extra cycles. */
  function PenaltyOf(i: Instr): Penalty {
    match i
    case Operand(use, mode) =>
      if (use.Combine? || use.Load?) && (mode.AbsoluteX? || mode.AbsoluteY? || mode.IndirectY?) then IfCrossed
      else Fixed
    case Branch(_, _) => IfTaken
    case _ => Fixed
  }

  /** Cycles without the penalties. */
  function BaseCycles(i: Instr): nat {
    match i
    case Operand(use, mode) => OperandCycles(use, mode, false)
    case Branch(_, _) => 2
    case Brk => 7
    case Jsr => 6
    case Rts => 6
    case Rti => 6
    case Jmp => 3
    case JmpIndirect => 5
    case Push(_) => 3
    case Pull(_) => 4
    case _ => 2
  }

  /** The other columns of a row of the manual are those of its instruction. */
  predicate RowAgrees(i: Instr, row: Option<Row>) {
    match row
    case None => i == Unknown
    case Some(r) =>
      && i == r.instr && i != Unknown && Encodable(i)
      && r.bytes == Length(i)
      && r.cycles == BaseCycles(i)
      && r.penalty == PenaltyOf(i)
  }

  lemma LowerRowsAgree(hi: nat, lo: nat)
    requires hi < 8 && lo < 0x10
    ensures RowAgrees(InstrOf(RowAt(hi, lo)), RowAt(hi, lo))
  {
  }

  lemma UpperRowsAgree(hi: nat, lo: nat)
    requires 8 <= hi < 0x10 && lo < 0x10
    ensures RowAgrees(InstrOf(RowAt(hi, lo)), RowAt(hi, lo))
  {
  }

  lemma ManualRows(opcode: byte)
    ensures RowAgrees(Decode(opcode), Lookup(opcode)) && Encodable(Decode(opcode))
  {
    if opcode < 0x80 {
      LowerRowsAgree(opcode / 0x10, opcode % 0x10);
    } else {
      UpperRowsAgree(opcode / 0x10, opcode % 0x10);
    }
  }

  /** The cycle count a row of the manual stands for, in a given state. */
  function TabulatedCycles(row: Option<Row>, s: State): nat {
    match row
    case None => 2
    case Some(r) =>
      match r.penalty
      case Fixed => r.cycles
      case IfCrossed => r.cycles + (if r.instr.Operand? then Bit(PageCrossed(r.instr.mode, s)) else 0)
      case IfTaken =>
        var taken := r.instr.Branch? && FlagValue(s.p, r.instr.test) == r.instr.when;
        var crossed := Hi(BranchTarget(s)) != Hi(Inc16(Inc16(s.pc)));
        r.cycles + Bit(taken) + Bit(taken && crossed)
  }

  lemma CyclesOfRow(i: Instr, row: Option<Row>, s: State)
    requires RowAgrees(i, row)
    ensures Cycles(i, s) == TabulatedCycles(row, s)
    ensures 2 <= Cycles(i, s) <= 7
  {
  }

  /** The manual's cycle column, its page-crossing and branch remarks included, is the
      cycle count of the one-shot semantics for every opcode in every state. */
  lemma CyclesFollowManual(opcode: byte, s: State)
    ensures Cycles(Decode(opcode), s) == TabulatedCycles(Lookup(opcode), s)
    ensures 2 <= Cycles(Decode(opcode), s) <= 7
  {
    ManualRows(opcode);
    CyclesOfRow(Decode(opcode), Lookup(opcode), s);
  }

  lemma LengthOfInstr(i: Instr, s: State)
    requires !(i.Branch? || i.Brk? || i.Jsr? || i.Rts? || i.Rti? || i.Jmp? || i.JmpIndirect?)
    ensures Exec(i, s).pc == (s.pc + Length(i)) % 0x1_0000
  {
    hide Inc16;
    NextAddresses(s.pc);
  }

  lemma NextAddresses(pc: word)
    ensures Inc16(pc) == (pc + 1) % 0x1_0000
    ensures Inc16(Inc16(pc)) == (pc + 2) % 0x1_0000
    ensures Inc16(Inc16(Inc16(pc))) == (pc + 3) % 0x1_0000
  {
  }

  /** Every instruction that does not transfer control moves PC past its own bytes, as
      the manual's byte column counts them. */
  lemma LengthFollowsManual(opcode: byte, s: State)
    requires Lookup(opcode).Some?
    requires
      var i := Decode(opcode);
      !(i.Branch? || i.Brk? || i.Jsr? || i.Rts? || i.Rti? || i.Jmp? || i.JmpIndirect?)
    ensures Exec(Decode(opcode), s).pc == (s.pc + Lookup(opcode).value.bytes) % 0x1_0000
  {
    ManualRows(opcode);
    LengthOfInstr(Decode(opcode), s);
  }

  // ---------- the handlers' default branches ----------

  /** The capture of this T-state is left to a default branch called unreachable. */
  predicate Strays(i: Instr, k: nat) {
    CaptureCases(HandlerFor(i)) < k
  }

  /** No commit handler is called in a T-state its switch has no case for. */
  lemma CommitsHaveCases(opcode: byte, s: State, k: nat)
    requires 1 <= k < Cycles(Decode(opcode), s)
    ensures k <= CommitCases(CommitSwitch(opcode))
  {
    hide CommitSwitch;
    DispatchFollowsManual(opcode);
    CasesOf(Decode(opcode), s, k);
  }

  lemma CasesOf(i: Instr, s: State, k: nat)
    requires Encodable(i) && 1 <= k < Cycles(i, s)
    ensures k <= CommitCases(HandlerFor(i))
    ensures Strays(i, k) <==>
      && i.Operand? && i.use.Store?
      && (((i.mode.AbsoluteX? || i.mode.AbsoluteY?) && k == 4) || (i.mode.IndirectY? && k == 5))
  {
  }

  /** Three opcodes, and no others, have a capture left to a default branch: STA abs,X and
      STA abs,Y in T4 and STA (ind),Y in T5, which are T-states each of them always takes. */
  lemma StrayCaptures(opcode: byte, s: State, k: nat)
    requires 1 <= k
    ensures
      k < Cycles(Decode(opcode), s) && Strays(Decode(opcode), k) <==>
        ((opcode == 0x9D || opcode == 0x99) && k == 4) || (opcode == 0x91 && k == 5)
  {
    ManualRows(opcode);
    if k < Cycles(Decode(opcode), s) {
      CasesOf(Decode(opcode), s, k);
    }
    IndexedStores(opcode / 0x10, opcode % 0x10);
  }

  lemma IndexedStores(hi: nat, lo: nat)
    requires hi < 0x10 && lo < 0x10
    ensures
      var i := InstrOf(RowAt(hi, lo));
      && (i == Operand(Store(A), AbsoluteX) <==> hi == 9 && lo == 0xD)
      && (i == Operand(Store(A), AbsoluteY) <==> hi == 9 && lo == 9)
      && (i == Operand(Store(A), IndirectY) <==> hi == 9 && lo == 1)
      && (i.Operand? && i.use.Store? && (i.mode.AbsoluteX? || i.mode.AbsoluteY? || i.mode.IndirectY?)
          ==> i.use.src == A)
  {
  }
}
