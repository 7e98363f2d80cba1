/** The cycle-stepped core, src/cpu/cpu6502.cpp. Work is latched when the clock reaches
    High (Capture...) and committed when it reaches Low (Commit...). Ghost fields record
    the state the current instruction or reset began in; the invariant says how far it
    has got. */
module Cpu6502 {
  import opened Words
  import opened FlatMemory
  import opened Instructions
  import opened Isa
  import opened Alu
  import opened TStates
  import opened Manual
  import opened Switches
  import opened Dispatch

  datatype ClockPhase = Low | LowToHigh | High | HighToLow

  function NextClockPhase(phase: ClockPhase): ClockPhase {
    match phase
    case Low => LowToHigh
    case LowToHigh => High
    case High => HighToLow
    case HighToLow => Low
  }

  function PhaseIndex(phase: ClockPhase): nat {
    match phase
    case Low => 0
    case LowToHigh => 1
    case High => 2
    case HighToLow => 3
  }

  function PhasesToHigh(phase: ClockPhase): nat {
    match phase
    case Low => 2
    case LowToHigh => 1
    case High => 4
    case HighToLow => 3
  }

  datatype Resolved = Resolved(address: word, pageCrossed: bool)

  /** indexedAddress and relativeAddress. */
  function Displaced(base: word, delta: int): Resolved
    requires -0x100 < delta < 0x100
  {
    var address := Offset(base, delta);
    Resolved(address, Hi(base) != Hi(address))
  }

  /** An index crosses a page exactly when it carries out of the low byte. */
  lemma IndexCrossesByCarry(base: word, index: byte)
    ensures Displaced(base, index).pageCrossed <==> Lo(base) + index > 0xFF
  {
  }

  lemma NextInPage(w: word)
    ensures (w + 1) % 0x100 == Inc8(Lo(w))
    ensures w < 0x100 ==> Lo(w) == w && Hi(w) == 0
  {
  }

  lemma DownThree(sp: byte)
    ensures Dec8(Dec8(Dec8(sp))) == (sp - 3) % 0x100
  {
  }

  lemma OrHighOfByte(low: byte, high: byte)
    ensures OrHigh(low, high) == Word(low, high)
  {
    assert Hi(low) == 0 && Lo(low) == low;
  }

  class CPU6502 {
    var bus: Memory
    var a: byte
    var x: byte
    var y: byte
    var pc: word
    var sp: byte
    var p: Flags
    var cpuStep: nat
    var clockPhase: ClockPhase
    var addrLatch: word
    var effAddr: word
    var pageCrossed: bool
    var ir: byte
    var branchOffset: int8
    var branchTaken: bool
    var isHalted: bool
    var resetActive: bool
    var aluA: byte
    var aluB: byte
    var aluFunction: AluFunction
    var aluCarryIn: bool
    var aluOutput: AluResult

    ghost var origin: State   // where the current instruction or reset began
    ghost var instr: Instr    // the instruction being executed
    ghost var ticks: nat      // ticks since construction
    ghost var accesses: nat   // bus accesses in the current T-state
    ghost var strayed: bool   // the last capture took a default branch that its source calls unreachable

    // ---------- abstraction ----------

    function Visible(): State
      reads `a, `x, `y, `pc, `sp, `p, `isHalted, `bus
    {
      State(a, x, y, pc, sp, p, isHalted, bus)
    }

    ghost function Inputs(): AluInputs
      reads `aluA, `aluB, `aluFunction, `aluCarryIn
    {
      AluInputs(aluA, aluB, aluFunction, aluCarryIn)
    }

    /** The condition the execution loops wait for. */
    predicate AtBoundary()
      reads this
    {
      cpuStep == 0 && clockPhase == Low
    }

    /** T-states of the work begun in `origin`, and the state it ends in. */
    ghost function Total(): nat
      reads `resetActive, `origin
    {
      if resetActive then 7 else Cycles(Decode(Opcode(origin)), origin)
    }

    ghost function Target(): State
      reads `resetActive, `origin
    {
      if resetActive then AfterReset(origin) else Step(origin)
    }

    /** The state that whatever is in progress, or is about to begin, will end in. */
    ghost function Goal(): State
      reads this
    {
      if AtBoundary() && !resetActive then Step(Visible()) else Target()
    }

    /** Ticks left until then. */
    ghost function Remaining(): int
      reads this
    {
      var total := if AtBoundary() && !resetActive then Cycles(Decode(Opcode(Visible())), Visible()) else Total();
      4 * (total - cpuStep) - PhaseIndex(clockPhase)
    }

    ghost predicate Captured()
      reads this
    {
      clockPhase == High || clockPhase == HighToLow
    }

    // ---------- what the latches hold after `c` captures ----------

    ghost predicate AddressLatched(mode: Mode, c: nat)
      reads `origin, `addrLatch, `effAddr
    {
      var s := origin;
      match mode
      case Immediate => true
      case ZeroPage => c >= 1 ==> addrLatch == EffectiveAddress(mode, s)
      case ZeroPageX => (c == 1 ==> addrLatch == Operand1(s)) && (c >= 2 ==> addrLatch == EffectiveAddress(mode, s))
      case ZeroPageY => (c == 1 ==> addrLatch == Operand1(s)) && (c >= 2 ==> addrLatch == EffectiveAddress(mode, s))
      case Absolute => (c == 1 ==> addrLatch == Operand1(s)) && (c >= 2 ==> addrLatch == EffectiveAddress(mode, s))
      case AbsoluteX => (c >= 1 ==> addrLatch == Operand1(s)) && (c >= 2 ==> effAddr == EffectiveAddress(mode, s))
      case AbsoluteY => (c >= 1 ==> addrLatch == Operand1(s)) && (c >= 2 ==> effAddr == EffectiveAddress(mode, s))
      case IndirectX =>
        var at := (Operand1(s) + s.x) % 0x100;
        && (c == 1 ==> addrLatch == Operand1(s))
        && (c >= 2 ==> addrLatch == at)
        && (c == 3 ==> effAddr == s.mem.Read(at))
        && (c >= 4 ==> effAddr == EffectiveAddress(mode, s))
      case IndirectY =>
        && (c >= 1 ==> addrLatch == Operand1(s))
        && (c == 2 ==> effAddr == s.mem.Read(Operand1(s)))
        && (c >= 3 ==> effAddr == EffectiveAddress(mode, s))
    }

    /** Loads and two-operand operations decide their extra T-state from pageCrossed. */
    ghost predicate CrossingLatched(use: Use, mode: Mode, c: nat)
      reads `origin, `pageCrossed
    {
      (use.Combine? || use.Load?) ==>
        && ((mode.AbsoluteX? || mode.AbsoluteY?) && c >= 2 ==> pageCrossed == PageCrossed(mode, origin))
        && (mode.IndirectY? && c >= 3 ==> pageCrossed == PageCrossed(mode, origin))
    }

    /** The operand reaches the ALU in the last capture, or for read-modify-write two
        T-states earlier. */
    ghost predicate OperandLatched(use: Use, mode: Mode, c: nat)
      reads `origin, `aluA, `aluB, `aluFunction, `aluCarryIn
    {
      var s := origin;
      var v := s.mem.Read(EffectiveAddress(mode, s));
      var n := OperandCycles(use, mode, PageCrossed(mode, s));
      !use.Store? && c + (if use.Modify? then 3 else 1) >= n ==> OperandInAlu(use, v)
    }

    ghost predicate OperandInAlu(use: Use, v: byte)
      reads `origin, `aluA, `aluB, `aluFunction, `aluCarryIn
    {
      match use
      case Combine(op) => Combines(Inputs(), op, origin, v)
      case Load(_) => Passes(Inputs(), v)
      case Store(_) => true
      case Modify(op) => Transforms(Inputs(), op, v, origin.p.c)
    }

    ghost predicate LatchesHold(c: nat)
      reads `origin, `instr, `cpuStep, `addrLatch, `effAddr, `pageCrossed, `branchOffset, `branchTaken
      reads `aluA, `aluB, `aluFunction, `aluCarryIn
    {
      var s := origin;
      match instr
      case Operand(use, mode) =>
        AddressLatched(mode, c) && CrossingLatched(use, mode, c) && OperandLatched(use, mode, c)
      case Accumulator(op) => c >= 1 ==> Transforms(Inputs(), op, s.a, s.p.c)
      case IncDec(op, r) => c >= 1 ==> Transforms(Inputs(), op, RegisterValue(s, r), s.p.c)
      case Transfer(src, _) => c >= 1 ==> Passes(Inputs(), RegisterValue(s, src))
      case Branch(f, when) =>
        && (c >= 1 ==> branchOffset == Signed(Operand1(s)) && branchTaken == (FlagValue(s.p, f) == when))
        && (c >= 2 ==> effAddr == BranchTarget(s) && pageCrossed == (Hi(BranchTarget(s)) != Hi(Inc16(Inc16(s.pc)))))
      case Brk =>
        && (c == 5 ==> addrLatch == BrkPushed(s).mem.Read(BRK_VECTOR))
        && (c == 6 ==> addrLatch == Exec(Brk, s).pc)
      case Jsr => (1 <= c <= 4 ==> addrLatch == Operand1(s)) && (c >= 5 ==> addrLatch == Exec(Jsr, s).pc)
      case Rts => (c == 3 ==> addrLatch == Pulled(s)) && (c >= 4 ==> addrLatch == Word(Pulled(s), PulledSecond(s)))
      case Rti => cpuStep == 5 ==> addrLatch == PulledSecond(s)
      case Jmp => (c == 1 ==> addrLatch == Operand1(s)) && (c >= 2 ==> addrLatch == OperandWord(s))
      case JmpIndirect =>
        && (c == 1 ==> addrLatch == Operand1(s))
        && (c >= 2 ==> addrLatch == OperandWord(s))
        && (c == 3 ==> effAddr == s.mem.Read(OperandWord(s)))
        && (c >= 4 ==> effAddr == IndirectTarget(s))
      case Pull(_) => c >= 3 ==> addrLatch == Pulled(s)
      case _ => true
    }

    /** In T-state `cpuStep` of `instr`, with `c` captures done. */
    ghost predicate Operating(c: nat)
      reads `origin, `instr, `cpuStep, `addrLatch, `effAddr, `pageCrossed, `branchOffset, `branchTaken
      reads `aluA, `aluB, `aluFunction, `aluCarryIn
      reads `a, `x, `y, `pc, `sp, `p, `isHalted, `bus
    {
      && 1 <= cpuStep < Cycles(instr, origin)
      && Encodable(instr)
      && Visible() == Partial(instr, origin, cpuStep)
      && LatchesHold(c)
    }

    /** What a commit half owes: the next T-state, or the finished instruction. */
    ghost predicate Advanced(k: nat)
      reads this
    {
      if k + 1 == Cycles(instr, origin) then cpuStep == 0 && Visible() == Exec(instr, origin)
      else cpuStep == k + 1 && Operating(k)
    }

    ghost predicate MayCapture()
      reads this
    {
      cpuStep >= 1 && Operating(cpuStep - 1) && accesses == 0
    }

    ghost predicate MayCommit()
      reads this
    {
      && Operating(cpuStep)
      && aluOutput == Output(Inputs())
      && accesses <= (if CommitUsesBus(instr, origin, cpuStep) then 0 else 1)
    }

    ghost predicate DidCapture()
      reads this
    {
      && LatchesHold(cpuStep)
      && accesses <= (if CommitUsesBus(instr, origin, cpuStep) then 0 else 1)
    }

    ghost predicate DidCommit(k: nat)
      reads this
    {
      Advanced(k) && accesses <= 1
    }

    /** No latch and no bus access differs from before. */
    twostate predicate UnchangedByCapture()
      reads this
    {
      && unchanged(`addrLatch, `effAddr, `pageCrossed, `branchOffset, `branchTaken)
      && unchanged(`aluA, `aluB, `aluFunction, `aluCarryIn, `accesses)
    }

    // ---------- bus ----------

    method ReadBus(addr: word) returns (v: byte)
      modifies `accesses
      ensures v == bus.Read(addr) && accesses == old(accesses) + 1
    {
      v := bus.Read(addr);
      accesses := accesses + 1;
    }

    /** One push: a bus write at SP, and SP moves down. */
    method PushToStack(v: byte)
      modifies `bus, `sp, `accesses
      ensures Visible() == PushByte(old(Visible()), v) && accesses == old(accesses) + 1
    {
      WriteBus(StackCell(sp), v);
      sp := Dec8(sp);
    }

    method WriteBus(addr: word, val: byte)
      modifies `bus, `accesses
      ensures bus == old(bus).Write(addr, val) && accesses == old(accesses) + 1
    {
      bus := bus.Write(addr, val);
      accesses := accesses + 1;
    }

    // ---------- ALU wiring ----------

    method BeginBinaryAluOp(op: BinaryOp, regValue: byte, operand: byte)
      requires regValue == if op.OpCmp? then RegisterValue(Visible(), op.reg) else a
      modifies `aluA, `aluB, `aluFunction, `aluCarryIn
      ensures Combines(Inputs(), op, Visible(), operand)
    {
      aluA := regValue;
      aluB := operand;
      aluCarryIn := p.c;
      match op {
        case OpAdc => aluFunction := ADD;
        case OpSbc => aluFunction := ADD; aluB := Not8(operand);
        case OpAnd => aluFunction := AND;
        case OpOra => aluFunction := OR;
        case OpEor => aluFunction := XOR;
        case OpCmp(_) => aluFunction := ADD; aluB := Not8(operand); aluCarryIn := true;
        case OpBit => aluFunction := AND;
      }
    }

    method ApplyBinaryAluOp(operand: byte)
      requires BinaryOpOf(ir).Some?
      modifies `aluA, `aluB, `aluFunction, `aluCarryIn
      ensures Combines(Inputs(), BinaryOpOf(ir).value, Visible(), operand)
    {
      hide BinaryOpOf;
      var op := BinaryOpOf(ir).value;
      BeginBinaryAluOp(op, if op.OpCmp? then RegisterValue(Visible(), op.reg) else a, operand);
    }

    method BeginUnaryAluOp(op: UnaryOp, value: byte)
      modifies `aluA, `aluB, `aluFunction, `aluCarryIn
      ensures Transforms(Inputs(), op, value, p.c)
    {
      aluB := value;
      match op {
        case OpAsl => aluFunction := SHL; aluCarryIn := false;
        case OpLsr => aluFunction := SHR; aluCarryIn := false;
        case OpRol => aluFunction := ROL; aluCarryIn := p.c;
        case OpRor => aluFunction := ROR; aluCarryIn := p.c;
        case OpInc => aluFunction := ADD; aluA := 0x01; aluCarryIn := false;
        case OpDec => aluFunction := ADD; aluA := 0xFF; aluCarryIn := false;
      }
    }

    method ApplyUnaryAluOp(value: byte)
      requires UnaryOpOf(ir).Some?
      modifies `aluA, `aluB, `aluFunction, `aluCarryIn
      ensures Transforms(Inputs(), UnaryOpOf(ir).value, value, p.c)
    {
      hide UnaryOpOf;
      BeginUnaryAluOp(UnaryOpOf(ir).value, value);
    }

    method PassThroughAlu(value: byte)
      modifies `aluA, `aluB, `aluFunction
      ensures Passes(Inputs(), value)
    {
      aluA := 0;
      aluB := value;
      aluFunction := OR;
    }

    method SetZN(d: byte)
      modifies `p
      ensures p == old(p).WithZN(d)
    {
      p := p.(z := d == 0);
      p := p.(n := Negative(d));
    }

    method SetRegister(r: Register, v: byte)
      modifies `a, `x, `y, `sp
      ensures Visible() == WithRegister(old(Visible()), r, v)
    {
      match r {
        case A => a := v;
        case X => x := v;
        case Y => y := v;
        case S => sp := v;
      }
    }

    /** commitBinaryAluResult's switch sees only which of four groups the opcode is in. */
    method CommitBinaryAluResult(ghost op: BinaryOp, ghost v: byte)
      requires BinaryResultOf(ir) == ResultFor(op)
      requires aluOutput == Output(Inputs()) && Combines(Inputs(), op, Visible(), v)
      modifies `a, `p
      ensures Visible() == Combined(op, old(Visible()), v)
    {
      hide BinaryResultOf, Execute, Combined, Overflow;
      ResultsOf(Inputs(), op, Visible(), v);
      match BinaryResultOf(ir) {
        case Arithmetic =>
          a := aluOutput.value;
          p := p.(c := aluOutput.carry);
          SetZN(aluOutput.value);
          p := p.(v := Overflow(aluA, aluB, aluOutput.value));
        case Logical =>
          a := aluOutput.value;
          SetZN(aluOutput.value);
        case Comparison =>
          p := p.(c := aluOutput.carry);
          SetZN(aluOutput.value);
        case BitTest =>
          p := p.(z := aluOutput.value == 0);
          p := p.(n := aluB / 0x80 == 1);
          p := p.(v := aluB / 0x40 % 2 == 1);
        case NoResult => assert false;
      }
    }

    method CommitUnaryAluFlags(ghost op: UnaryOp, ghost v: byte)
      requires UnaryFlagsOf(ir) == FlagsFor(op)
      requires aluOutput == Output(Inputs()) && Transforms(Inputs(), op, v, p.c)
      modifies `p
      ensures aluOutput.value == UnaryResult(op, v, old(p.c))
      ensures p == UnaryFlags(op, v, old(p))
    {
      hide UnaryFlagsOf;
      UnaryComputes(Inputs(), op, v, p);
      if UnaryFlagsOf(ir) == WithCarry {
        p := p.(c := aluOutput.carry);
      }
      SetZN(aluOutput.value);
    }

    // ---------- memory-operand instructions ----------

    /** `latch |= read(at) << 8` on a latch that holds a byte. */
    method CompleteWord(latch: word, at: word) returns (w: word)
      requires latch < 0x100
      modifies `accesses
      ensures w == Word(latch, bus.Read(at)) && accesses == old(accesses) + 1
    {
      var high := ReadBus(at);
      OrHighOfByte(latch, high);
      w := OrHigh(latch, high);
    }

    /** The instruction is of this family and mode, and the switches say so. */
    ghost predicate Serves(kind: Kind, mode: Mode)
      reads `ir, `instr
    {
      instr.Operand? && instr.mode == mode && KindOf(instr.use) == kind && SwitchesAgree(ir, instr)
    }

    /** What the invariant says of the programmer-visible state of such an instruction, ... */
    lemma OperandState(c: nat)
      requires Operating(c) && instr.Operand?
      ensures Visible() == origin.(pc := FetchedPc(instr.mode, origin.pc, cpuStep))
      ensures 1 <= cpuStep < OperandCycles(instr.use, instr.mode, PageCrossed(instr.mode, origin))
      ensures
        CommitUsesBus(instr, origin, cpuStep) <==>
          && (instr.use.Store? || instr.use.Modify?)
          && cpuStep + 1 == OperandCycles(instr.use, instr.mode, PageCrossed(instr.mode, origin))
    {
    }

    /** ... and of its latches. */
    lemma OperandLatches(c: nat)
      requires instr.Operand?
      ensures LatchesHold(c) <==>
        && AddressLatched(instr.mode, c)
        && CrossingLatched(instr.use, instr.mode, c)
        && OperandLatched(instr.use, instr.mode, c)
    {
    }

    /** Adds the index; only reads and loads record whether it crossed a page. */
    method ResolveIndexed(kind: Kind, base: word, index: byte)
      modifies `effAddr, `pageCrossed
      ensures effAddr == Offset(base, index)
      ensures kind.Reading? || kind.Loading? ==> pageCrossed == (Lo(base) + index > 0xFF)
    {
      var resolved := Displaced(base, index);
      IndexCrossesByCarry(base, index);
      effAddr := resolved.address;
      if kind.Reading? || kind.Loading? {
        pageCrossed := resolved.pageCrossed;
      }
    }

    /** The last capture of a read: the operand byte enters the ALU latches. */
    method LatchOperand(kind: Kind, v: byte)
      requires instr.Operand? && Serves(kind, instr.mode) && !kind.Storing? && Visible() == origin.(pc := pc)
      modifies `aluA, `aluB, `aluFunction, `aluCarryIn
      ensures OperandInAlu(instr.use, v)
    {
      hide HandlerFor, CaptureSwitch, CommitSwitch, BinaryOpOf, BinaryResultOf, UnaryOpOf, UnaryFlagsOf;
      hide LoadTarget, StoreSource;
      match kind {
        case Reading => ApplyBinaryAluOp(v);
        case Loading => PassThroughAlu(v);
        case Modifying => ApplyUnaryAluOp(v);
        case Storing => assert false;
      }
    }

    /** commitLoadResult: the register named by its switch, then Z and N. */
    method CommitLoadResult()
      requires LoadTarget(ir).Some?
      modifies `a, `x, `y, `sp, `p
      ensures
        var loaded := WithRegister(old(Visible()), LoadTarget(ir).value, aluOutput.value);
        Visible() == loaded.(p := old(p).WithZN(aluOutput.value))
    {
      hide LoadTarget;
      SetRegister(LoadTarget(ir).value, aluOutput.value);
      SetZN(aluOutput.value);
    }

    /** The last commit: the register, flags or memory cell the instruction changes. */
    method CommitOperand(kind: Kind, ghost mode: Mode, addr: word)
      requires Serves(kind, mode) && LatchesHold(cpuStep) && cpuStep + 1 == Cycles(instr, origin)
      requires Visible() == origin.(pc := PastOperand(mode, origin.pc))
      requires kind.Storing? || kind.Modifying? ==> addr == EffectiveAddress(mode, origin) && accesses == 0
      requires aluOutput == Output(Inputs()) && accesses <= 1
      modifies `a, `x, `y, `sp, `p, `bus, `accesses
      ensures Visible() == Exec(instr, origin) && accesses <= 1
    {
      hide HandlerFor, CaptureSwitch, CommitSwitch, BinaryOpOf, BinaryResultOf, UnaryOpOf, UnaryFlagsOf;
      hide LoadTarget, StoreSource;
      hide Execute;
      ghost var v := origin.mem.Read(EffectiveAddress(mode, origin));
      match kind {
        case Reading =>
          CommitBinaryAluResult(instr.use.op, v);
        case Loading =>
          PassThrough(Inputs(), v);
          CommitLoadResult();
        case Storing =>
          WriteBus(addr, RegisterValue(Visible(), StoreSource(ir).value));
        case Modifying =>
          WriteBus(addr, aluOutput.value);
          CommitUnaryAluFlags(instr.use.unary, v);
      }
    }

    method CaptureImmediate(kind: Kind)
      requires MayCapture() && Serves(kind, Immediate)
      modifies `addrLatch, `effAddr, `pageCrossed, `aluA, `aluB, `aluFunction, `aluCarryIn, `accesses
      ensures DidCapture()
    {
      var v := ReadBus(pc);
      LatchOperand(kind, v);
    }

    method CommitImmediate(kind: Kind)
      requires MayCommit() && Serves(kind, Immediate)
      modifies `a, `x, `y, `sp, `p, `pc, `bus, `accesses, `cpuStep
      ensures DidCommit(old(cpuStep))
    {
      pc := Inc16(pc);
      CommitOperand(kind, Immediate, pc);
      cpuStep := 0;
    }

    method CaptureZeroPage(kind: Kind)
      requires MayCapture() && Serves(kind, ZeroPage)
      modifies `addrLatch, `effAddr, `pageCrossed, `aluA, `aluB, `aluFunction, `aluCarryIn, `accesses
      ensures DidCapture()
    {
      hide OperandInAlu, SwitchesAgree;
      assert cpuStep <= CaptureCases(Access(kind, ZeroPage));
      match cpuStep {
        case 1 => addrLatch := ReadBus(pc);
        case 2 =>
          if !kind.Storing? {
            var v := ReadBus(addrLatch);
            LatchOperand(kind, v);
          }
        case 3 | 4 => // nothing: T-states of the unmodelled write-back
        case _ => assert false;
      }
    }

    method CommitZeroPage(kind: Kind)
      requires MayCommit() && Serves(kind, ZeroPage)
      modifies `a, `x, `y, `sp, `p, `pc, `bus, `accesses, `cpuStep
      ensures DidCommit(old(cpuStep))
    {
      hide OperandInAlu, SwitchesAgree, Exec;
      assert cpuStep <= CommitCases(Access(kind, ZeroPage));
      match cpuStep {
        case 1 => pc := Inc16(pc); cpuStep := 2;
        case 2 =>
          if kind.Modifying? {
            cpuStep := 3;
          } else {
            CommitOperand(kind, ZeroPage, addrLatch);
            cpuStep := 0;
          }
        case 3 => cpuStep := 4;
        case 4 => CommitOperand(kind, ZeroPage, addrLatch); cpuStep := 0;
        case _ => assert false;
      }
    }

    method CaptureZeroPageIndexed(kind: Kind, mode: Mode, index: byte)
      requires MayCapture() && Serves(kind, mode)
      requires (mode == ZeroPageX && index == x) || (mode == ZeroPageY && index == y)
      modifies `addrLatch, `effAddr, `pageCrossed, `aluA, `aluB, `aluFunction, `aluCarryIn, `accesses
      ensures DidCapture()
    {
      hide OperandInAlu, SwitchesAgree, LatchesHold, Partial, Memory.Read, Exec;
      OperandState(cpuStep - 1);
      OperandLatches(cpuStep - 1);
      assert cpuStep <= CaptureCases(Access(kind, mode));
      match cpuStep {
        case 1 => addrLatch := ReadBus(pc);
        case 2 => addrLatch := (addrLatch + index) % 0x100;
        case 3 =>
          if !kind.Storing? {
            var v := ReadBus(addrLatch);
            LatchOperand(kind, v);
          }
        case 4 | 5 => // nothing: T-states of the unmodelled write-back
        case _ => assert false;
      }
      OperandLatches(cpuStep);
    }

    method CommitZeroPageIndexed(kind: Kind, mode: Mode)
      requires MayCommit() && Serves(kind, mode) && (mode == ZeroPageX || mode == ZeroPageY)
      modifies `a, `x, `y, `sp, `p, `pc, `bus, `accesses, `cpuStep
      ensures DidCommit(old(cpuStep))
    {
      hide OperandInAlu, SwitchesAgree, Exec, Inc16;
      assert cpuStep <= CommitCases(Access(kind, mode));
      match cpuStep {
        case 1 => pc := Inc16(pc); cpuStep := 2;
        case 2 => cpuStep := 3;
        case 3 =>
          if kind.Modifying? {
            cpuStep := 4;
          } else {
            CommitOperand(kind, mode, addrLatch);
            cpuStep := 0;
          }
        case 4 => cpuStep := 5;
        case 5 => CommitOperand(kind, mode, addrLatch); cpuStep := 0;
        case _ => assert false;
      }
    }

    method CaptureAbsolute(kind: Kind)
      requires MayCapture() && Serves(kind, Absolute)
      modifies `addrLatch, `effAddr, `pageCrossed, `aluA, `aluB, `aluFunction, `aluCarryIn, `accesses
      ensures DidCapture()
    {
      hide OperandInAlu, SwitchesAgree, Word, Inc8, Inc16, LatchesHold, Partial, Memory.Read, Exec;
      OperandState(cpuStep - 1);
      OperandLatches(cpuStep - 1);
      assert cpuStep <= CaptureCases(Access(kind, Absolute));
      match cpuStep {
        case 1 => addrLatch := ReadBus(pc);
        case 2 => addrLatch := CompleteWord(addrLatch, pc);
        case 3 =>
          if !kind.Storing? {
            var v := ReadBus(addrLatch);
            LatchOperand(kind, v);
          }
        case 4 | 5 => // nothing: T-states of the unmodelled write-back
        case _ => assert false;
      }
      OperandLatches(cpuStep);
    }

    method CommitAbsolute(kind: Kind)
      requires MayCommit() && Serves(kind, Absolute)
      modifies `a, `x, `y, `sp, `p, `pc, `bus, `accesses, `cpuStep
      ensures DidCommit(old(cpuStep))
    {
      hide OperandInAlu, SwitchesAgree, Exec, Inc16;
      assert cpuStep <= CommitCases(Access(kind, Absolute));
      match cpuStep {
        case 1 => pc := Inc16(pc); cpuStep := 2;
        case 2 => pc := Inc16(pc); cpuStep := 3;
        case 3 =>
          if kind.Modifying? {
            cpuStep := 4;
          } else {
            CommitOperand(kind, Absolute, addrLatch);
            cpuStep := 0;
          }
        case 4 => cpuStep := 5;
        case 5 => CommitOperand(kind, Absolute, addrLatch); cpuStep := 0;
        case _ => assert false;
      }
    }

    /** The default branch of a store's capture switch: nothing is latched, and nothing needs
        to be, since the address is complete and the source register is read in the commit. */
    method BreakUncaptured()
      requires MayCapture() && instr.Operand? && instr.use.Store? && Strays(instr, cpuStep)
      modifies `strayed
      ensures DidCapture() && strayed && UnchangedByCapture()
    {
      CasesOf(instr, origin, cpuStep);
      strayed := true;
    }

    method CaptureAbsoluteIndexed(kind: Kind, mode: Mode, index: byte)
      requires MayCapture() && Serves(kind, mode) && !strayed
      requires (mode == AbsoluteX && index == x) || (mode == AbsoluteY && index == y)
      modifies `addrLatch, `effAddr, `pageCrossed, `aluA, `aluB, `aluFunction, `aluCarryIn, `accesses, `strayed
      ensures DidCapture() && strayed == (CaptureCases(Access(kind, mode)) < cpuStep)
      ensures strayed ==> UnchangedByCapture()
    {
      hide OperandInAlu, SwitchesAgree, Word, Inc8, Inc16, LatchesHold, Partial, Memory.Read, Exec, Offset, Lo;
      hide CommitUsesBus, Cycles;
      OperandState(cpuStep - 1);
      OperandLatches(cpuStep - 1);
      if CaptureCases(Access(kind, mode)) < cpuStep {
        BreakUncaptured();
        return;
      }
      match cpuStep {
        case 1 => addrLatch := ReadBus(pc);
        case 2 =>
          var base := CompleteWord(addrLatch, pc);
          ResolveIndexed(kind, base, index);
        case 3 =>
          if (kind.Reading? || kind.Loading?) && !pageCrossed {
            var v := ReadBus(effAddr);
            LatchOperand(kind, v);
          }
        case 4 =>
          if !kind.Storing? {
            var v := ReadBus(effAddr);
            LatchOperand(kind, v);
          }
        case 5 | 6 => // nothing: T-states of the unmodelled write-back
        case _ => assert false;
      }
      OperandLatches(cpuStep);
    }

    method CommitAbsoluteIndexed(kind: Kind, mode: Mode)
      requires MayCommit() && Serves(kind, mode) && (mode == AbsoluteX || mode == AbsoluteY)
      modifies `a, `x, `y, `sp, `p, `pc, `bus, `accesses, `cpuStep
      ensures DidCommit(old(cpuStep))
    {
      hide OperandInAlu, SwitchesAgree, Exec, Inc16, EffectiveAddress, PageCrossed, Memory.Read, OperandLatched;
      assert cpuStep <= CommitCases(Access(kind, mode));
      match cpuStep {
        case 1 => pc := Inc16(pc); cpuStep := 2;
        case 2 => pc := Inc16(pc); cpuStep := 3;
        case 3 =>
          if kind.Storing? || kind.Modifying? || pageCrossed {
            cpuStep := 4;
          } else {
            CommitOperand(kind, mode, effAddr);
            cpuStep := 0;
          }
        case 4 =>
          if kind.Modifying? {
            cpuStep := 5;
          } else {
            CommitOperand(kind, mode, effAddr);
            cpuStep := 0;
          }
        case 5 => cpuStep := 6;
        case 6 => CommitOperand(kind, mode, effAddr); cpuStep := 0;
        case _ => assert false;
      }
    }

    method CaptureIndirectX(kind: Kind)
      requires MayCapture() && Serves(kind, IndirectX)
      modifies `addrLatch, `effAddr, `pageCrossed, `aluA, `aluB, `aluFunction, `aluCarryIn, `accesses
      ensures DidCapture()
    {
      hide OperandInAlu, SwitchesAgree, Word, Inc8, Inc16, LatchesHold, Partial, Memory.Read, Exec;
      OperandState(cpuStep - 1);
      OperandLatches(cpuStep - 1);
      assert cpuStep <= CaptureCases(Access(kind, IndirectX));
      match cpuStep {
        case 1 => addrLatch := ReadBus(pc);
        case 2 => addrLatch := (addrLatch + x) % 0x100;
        case 3 => effAddr := ReadBus(addrLatch);
        case 4 =>
          NextInPage(addrLatch);
          effAddr := CompleteWord(effAddr, (addrLatch + 1) % 0x100);
        case 5 =>
          if !kind.Storing? {
            var v := ReadBus(effAddr);
            LatchOperand(kind, v);
          }
        case _ => assert false;
      }
      OperandLatches(cpuStep);
    }

    method CommitIndirectX(kind: Kind)
      requires MayCommit() && Serves(kind, IndirectX)
      modifies `a, `x, `y, `sp, `p, `pc, `bus, `accesses, `cpuStep
      ensures DidCommit(old(cpuStep))
    {
      hide OperandInAlu, SwitchesAgree, Exec, Inc16;
      assert cpuStep <= CommitCases(Access(kind, IndirectX));
      match cpuStep {
        case 1 => pc := Inc16(pc); cpuStep := 2;
        case 2 => cpuStep := 3;
        case 3 => cpuStep := 4;
        case 4 => cpuStep := 5;
        case 5 => CommitOperand(kind, IndirectX, effAddr); cpuStep := 0;
        case _ => assert false;
      }
    }

    method CaptureIndirectY(kind: Kind)
      requires MayCapture() && Serves(kind, IndirectY) && !strayed
      modifies `addrLatch, `effAddr, `pageCrossed, `aluA, `aluB, `aluFunction, `aluCarryIn, `accesses, `strayed
      ensures DidCapture() && strayed == (CaptureCases(Access(kind, IndirectY)) < cpuStep)
      ensures strayed ==> UnchangedByCapture()
    {
      hide OperandInAlu, SwitchesAgree, Word, Inc8, Inc16, LatchesHold, Partial, Memory.Read, Exec, Offset, Lo;
      hide CommitUsesBus, Cycles;
      OperandState(cpuStep - 1);
      OperandLatches(cpuStep - 1);
      NextInPage(addrLatch);
      if CaptureCases(Access(kind, IndirectY)) < cpuStep {
        BreakUncaptured();
        return;
      }
      match cpuStep {
        case 1 => addrLatch := ReadBus(pc);
        case 2 => effAddr := ReadBus(addrLatch);
        case 3 =>
          var base := CompleteWord(effAddr, (addrLatch + 1) % 0x100);
          ResolveIndexed(kind, base, y);
        case 4 =>
          if (kind.Reading? || kind.Loading?) && !pageCrossed {
            var v := ReadBus(effAddr);
            LatchOperand(kind, v);
          }
        case 5 =>
          if !kind.Storing? {
            var v := ReadBus(effAddr);
            LatchOperand(kind, v);
          }
        case _ => assert false;
      }
      OperandLatches(cpuStep);
    }

    method CommitIndirectY(kind: Kind)
      requires MayCommit() && Serves(kind, IndirectY)
      modifies `a, `x, `y, `sp, `p, `pc, `bus, `accesses, `cpuStep
      ensures DidCommit(old(cpuStep))
    {
      hide OperandInAlu, SwitchesAgree, Exec, Inc16;
      assert cpuStep <= CommitCases(Access(kind, IndirectY));
      match cpuStep {
        case 1 => pc := Inc16(pc); cpuStep := 2;
        case 2 => cpuStep := 3;
        case 3 => cpuStep := 4;
        case 4 =>
          if kind.Storing? || pageCrossed {
            cpuStep := 5;
          } else {
            CommitOperand(kind, IndirectY, effAddr);
            cpuStep := 0;
          }
        case 5 => CommitOperand(kind, IndirectY, effAddr); cpuStep := 0;
        case _ => assert false;
      }
    }

    // ---------- register-only instructions ----------

    method CaptureShiftAccumulator(ghost op: UnaryOp)
      requires MayCapture() && instr == Accumulator(op) && UnaryOpOf(ir) == Some(op)
      modifies `addrLatch, `effAddr, `pageCrossed, `aluA, `aluB, `aluFunction, `aluCarryIn, `accesses
      ensures DidCapture()
    {
      hide UnaryOpOf;
      ApplyUnaryAluOp(a);
    }

    method CommitShiftAccumulator(ghost op: UnaryOp)
      requires MayCommit() && instr == Accumulator(op) && UnaryFlagsOf(ir) == FlagsFor(op)
      modifies `a, `x, `y, `sp, `p, `pc, `bus, `accesses, `cpuStep
      ensures DidCommit(old(cpuStep))
    {
      hide UnaryFlagsOf, Execute;
      a := aluOutput.value;
      CommitUnaryAluFlags(op, origin.a);
      cpuStep := 0;
    }

    method CaptureImpliedIncDec(ghost op: UnaryOp, ghost r: Register)
      requires MayCapture() && instr == IncDec(op, r) && IncDecOf(ir) == Some((op, r))
      modifies `addrLatch, `effAddr, `pageCrossed, `aluA, `aluB, `aluFunction, `aluCarryIn, `accesses
      ensures DidCapture()
    {
      hide IncDecOf;
      var step := IncDecOf(ir).value;
      BeginUnaryAluOp(step.0, RegisterValue(Visible(), step.1));
    }

    method CommitImpliedIncDec(ghost op: UnaryOp, ghost r: Register)
      requires MayCommit() && instr == IncDec(op, r) && IncDecTarget(ir) == Some(r)
      modifies `a, `x, `y, `sp, `p, `pc, `bus, `accesses, `cpuStep
      ensures DidCommit(old(cpuStep))
    {
      hide Execute, Output, UnaryFlags, UnaryResult, IncDecTarget;
      UnaryComputes(Inputs(), op, RegisterValue(origin, r), origin.p);
      SetRegister(IncDecTarget(ir).value, aluOutput.value);
      SetZN(aluOutput.value);
      cpuStep := 0;
    }

    method CaptureImpliedTransfer(ghost src: Register, ghost dst: Register)
      requires MayCapture() && instr == Transfer(src, dst) && TransferSource(ir) == Some(src)
      modifies `addrLatch, `effAddr, `pageCrossed, `aluA, `aluB, `aluFunction, `aluCarryIn, `accesses
      ensures DidCapture()
    {
      hide TransferSource;
      PassThroughAlu(RegisterValue(Visible(), TransferSource(ir).value));
    }

    method CommitImpliedTransfer(ghost src: Register, ghost dst: Register)
      requires MayCommit() && instr == Transfer(src, dst) && TransferTarget(ir) == Some(dst)
      modifies `a, `x, `y, `sp, `p, `pc, `bus, `accesses, `cpuStep
      ensures DidCommit(old(cpuStep))
    {
      hide TransferTarget, Execute;
      PassThrough(Inputs(), RegisterValue(origin, src));
      var target := TransferTarget(ir).value;
      SetRegister(target, aluOutput.value);
      if target != S {
        SetZN(aluOutput.value);
      }
      cpuStep := 0;
    }

    method CaptureIdle()
      requires MayCapture() && (instr.SetFlag? || instr.Nop? || instr.Unknown?)
      modifies `addrLatch, `effAddr, `pageCrossed, `aluA, `aluB, `aluFunction, `aluCarryIn, `accesses
      ensures DidCapture()
    {
    }

    method CommitImpliedFlagOp(ghost f: Flag, ghost v: bool)
      requires MayCommit() && instr == SetFlag(f, v) && FlagOpOf(ir) == Some((f, v))
      modifies `a, `x, `y, `sp, `p, `pc, `bus, `accesses, `cpuStep
      ensures DidCommit(old(cpuStep))
    {
      hide FlagOpOf;
      var op := FlagOpOf(ir).value;
      p := WithFlag(p, op.0, op.1);
      cpuStep := 0;
    }

    method CommitNOP()
      requires MayCommit() && instr.Nop?
      modifies `a, `x, `y, `sp, `p, `pc, `bus, `accesses, `cpuStep
      ensures DidCommit(old(cpuStep))
    {
      cpuStep := 0;
    }

    /** The default of onClockLow's switch. */
    method CommitUnimplemented()
      requires MayCommit() && instr.Unknown?
      modifies `a, `x, `y, `sp, `p, `pc, `bus, `accesses, `cpuStep
      ensures DidCommit(old(cpuStep))
    {
      cpuStep := 0;
    }

    // ---------- control transfer ----------

    method CaptureBranch(ghost f: Flag, ghost when: bool)
      requires MayCapture() && instr == Branch(f, when) && ConditionOf(ir) == Some((f, when))
      modifies `addrLatch, `effAddr, `pageCrossed, `branchOffset, `branchTaken
      modifies `aluA, `aluB, `aluFunction, `aluCarryIn, `accesses
      ensures DidCapture()
    {
      hide ConditionOf;
      match cpuStep {
        case 1 =>
          var offset := ReadBus(pc);
          branchOffset := Signed(offset);
          var test := ConditionOf(ir).value;
          branchTaken := FlagValue(p, test.0) == test.1;
        case 2 =>
          var resolved := Displaced(pc, branchOffset);
          effAddr := resolved.address;
          pageCrossed := resolved.pageCrossed;
        case 3 => // nothing: the T-state that fixes the high byte up
        case _ => assert false;
      }
    }

    method CommitBranch(ghost f: Flag, ghost when: bool)
      requires MayCommit() && instr == Branch(f, when)
      modifies `a, `x, `y, `sp, `p, `pc, `bus, `accesses, `cpuStep
      ensures DidCommit(old(cpuStep))
    {
      match cpuStep {
        case 1 => pc := Inc16(pc); cpuStep := if branchTaken then 2 else 0;
        case 2 =>
          if pageCrossed {
            cpuStep := 3;
          } else {
            pc := effAddr;
            cpuStep := 0;
          }
        case 3 => pc := effAddr; cpuStep := 0;
        case _ => assert false;
      }
    }

    method CaptureBRK()
      requires MayCapture() && instr == Brk
      modifies `addrLatch, `effAddr, `pageCrossed, `aluA, `aluB, `aluFunction, `aluCarryIn, `accesses
      ensures DidCapture()
    {
      match cpuStep {
        case 1 => var _ := ReadBus(pc);
        case 5 => addrLatch := ReadBus(BRK_VECTOR);
        case 6 => addrLatch := CompleteWord(addrLatch, BRK_VECTOR + 1);
        case 2 | 3 | 4 => // nothing to latch: CommitBRK does the pushes
        case _ => assert false;
      }
    }

    method CommitBRK()
      requires MayCommit() && instr == Brk
      modifies `a, `x, `y, `sp, `p, `pc, `bus, `accesses, `cpuStep, `isHalted
      ensures DidCommit(old(cpuStep))
    {
      hide SwitchesAgree, OperandCycles, PageCrossed, BranchTarget;
      hide Flags.ToByte, Hi, Lo, Word, Inc16, PushByte, Partial, Exec, BrkPushed, Memory.Read;
      BrkStates(origin);
      match cpuStep {
        case 1 => pc := Inc16(pc); cpuStep := 2;
        case 2 =>
          PushToStack(Hi(pc));
          cpuStep := 3;
        case 3 =>
          PushToStack(Lo(pc));
          cpuStep := 4;
        case 4 =>
          p := p.(b := true);
          PushToStack(p.ToByte());
          p := p.(i := true);
          cpuStep := 5;
        case 5 => cpuStep := 6;
        case 6 =>
          pc := addrLatch;
          isHalted := true;
          cpuStep := 0;
        case _ => assert false;
      }
    }

    method CaptureJSR()
      requires MayCapture() && instr == Jsr
      modifies `addrLatch, `effAddr, `pageCrossed, `aluA, `aluB, `aluFunction, `aluCarryIn, `accesses
      ensures DidCapture()
    {
      match cpuStep {
        case 1 => addrLatch := ReadBus(pc);
        case 5 =>
          var high := ReadBus(pc);
          addrLatch := Word(Lo(addrLatch), high);
        case 2 | 3 | 4 => // nothing to latch: CommitJSR does the pushes
        case _ => assert false;
      }
    }

    method CommitJSR()
      requires MayCommit() && instr == Jsr
      modifies `a, `x, `y, `sp, `p, `pc, `bus, `accesses, `cpuStep
      ensures DidCommit(old(cpuStep))
    {
      match cpuStep {
        case 1 => pc := Inc16(pc); cpuStep := 2;
        case 2 => cpuStep := 3;
        case 3 =>
          PushToStack(Hi(pc));
          cpuStep := 4;
        case 4 =>
          PushToStack(Lo(pc));
          cpuStep := 5;
        case 5 => pc := addrLatch; cpuStep := 0;
        case _ => assert false;
      }
    }

    method CaptureRTS()
      requires MayCapture() && instr == Rts
      modifies `addrLatch, `effAddr, `pageCrossed, `aluA, `aluB, `aluFunction, `aluCarryIn, `accesses
      ensures DidCapture()
    {
      match cpuStep {
        case 3 => addrLatch := ReadBus(StackCell(sp));
        case 4 =>
          var high := ReadBus(StackCell(sp));
          addrLatch := Word(Lo(addrLatch), high);
        case 1 | 2 | 5 => // nothing to latch
        case _ => assert false;
      }
    }

    method CommitRTS()
      requires MayCommit() && instr == Rts
      modifies `a, `x, `y, `sp, `p, `pc, `bus, `accesses, `cpuStep
      ensures DidCommit(old(cpuStep))
    {
      match cpuStep {
        case 1 => cpuStep := 2;
        case 2 => sp := Inc8(sp); cpuStep := 3;
        case 3 => sp := Inc8(sp); cpuStep := 4;
        case 4 => cpuStep := 5;
        case 5 => pc := Inc16(addrLatch); cpuStep := 0;
        case _ => assert false;
      }
    }

    method CaptureJMPAbsolute()
      requires MayCapture() && instr == Jmp
      modifies `addrLatch, `effAddr, `pageCrossed, `aluA, `aluB, `aluFunction, `aluCarryIn, `accesses
      ensures DidCapture()
    {
      match cpuStep {
        case 1 => addrLatch := ReadBus(pc);
        case 2 => addrLatch := CompleteWord(addrLatch, pc);
        case _ => assert false;
      }
    }

    method CommitJMPAbsolute()
      requires MayCommit() && instr == Jmp
      modifies `a, `x, `y, `sp, `p, `pc, `bus, `accesses, `cpuStep
      ensures DidCommit(old(cpuStep))
    {
      match cpuStep {
        case 1 => pc := Inc16(pc); cpuStep := 2;
        case 2 => pc := addrLatch; cpuStep := 0;
        case _ => assert false;
      }
    }

    method CaptureJMPIndirect()
      requires MayCapture() && instr == JmpIndirect
      modifies `addrLatch, `effAddr, `pageCrossed, `aluA, `aluB, `aluFunction, `aluCarryIn, `accesses
      ensures DidCapture()
    {
      NextInPage(addrLatch);
      match cpuStep {
        case 1 => addrLatch := ReadBus(pc);
        case 2 => addrLatch := CompleteWord(addrLatch, pc);
        case 3 => effAddr := ReadBus(addrLatch);
        case 4 =>
          var highByteAddr := Word((addrLatch + 1) % 0x100, Hi(addrLatch));
          effAddr := CompleteWord(effAddr, highByteAddr);
        case _ => assert false;
      }
    }

    method CommitJMPIndirect()
      requires MayCommit() && instr == JmpIndirect
      modifies `a, `x, `y, `sp, `p, `pc, `bus, `accesses, `cpuStep
      ensures DidCommit(old(cpuStep))
    {
      match cpuStep {
        case 1 => pc := Inc16(pc); cpuStep := 2;
        case 2 => pc := Inc16(pc); cpuStep := 3;
        case 3 => cpuStep := 4;
        case 4 => pc := effAddr; cpuStep := 0;
        case _ => assert false;
      }
    }

    // ---------- stack instructions ----------

    method CaptureRTI()
      requires MayCapture() && instr == Rti
      modifies `addrLatch, `effAddr, `pageCrossed, `aluA, `aluB, `aluFunction, `aluCarryIn, `accesses
      ensures DidCapture()
    {
      if cpuStep == 1 { // in every later T-state the commit does the pulling
        var _ := ReadBus(pc);
      }
    }

    method CommitRTI()
      requires MayCommit() && instr == Rti
      modifies `a, `x, `y, `sp, `p, `pc, `bus, `accesses, `cpuStep, `addrLatch
      ensures DidCommit(old(cpuStep))
    {
      hide FlagsOf;
      match cpuStep {
        case 1 => cpuStep := 2;
        case 2 => sp := Inc8(sp); cpuStep := 3;
        case 3 =>
          var status := ReadBus(StackCell(sp));
          p := FlagsOf(status);
          sp := Inc8(sp);
          cpuStep := 4;
        case 4 =>
          addrLatch := ReadBus(StackCell(sp));
          sp := Inc8(sp);
          cpuStep := 5;
        case 5 =>
          addrLatch := CompleteWord(addrLatch, StackCell(sp));
          pc := addrLatch;
          cpuStep := 0;
        case _ => assert false;
      }
    }

    method CaptureImpliedPush(ghost status: bool)
      requires MayCapture() && instr == Push(status)
      modifies `addrLatch, `effAddr, `pageCrossed, `aluA, `aluB, `aluFunction, `aluCarryIn, `accesses
      ensures DidCapture()
    {
      match cpuStep {
        case 1 => var _ := ReadBus(pc);
        case 2 => // nothing to latch
        case _ => assert false;
      }
    }

    method CommitImpliedPush(ghost status: bool)
      requires MayCommit() && instr == Push(status) && PushesStatus(ir) == status
      modifies `a, `x, `y, `sp, `p, `pc, `bus, `accesses, `cpuStep
      ensures DidCommit(old(cpuStep))
    {
      match cpuStep {
        case 1 => cpuStep := 2;
        case 2 =>
          var value := a;
          if PushesStatus(ir) {
            p := p.(b := true);
            value := p.ToByte();
          }
          PushToStack(value);
          cpuStep := 0;
        case _ => assert false;
      }
    }

    method CaptureImpliedPull(ghost status: bool)
      requires MayCapture() && instr == Pull(status)
      modifies `addrLatch, `effAddr, `pageCrossed, `aluA, `aluB, `aluFunction, `aluCarryIn, `accesses
      ensures DidCapture()
    {
      match cpuStep {
        case 1 => var _ := ReadBus(pc);
        case 2 => // nothing to latch
        case 3 => addrLatch := ReadBus(StackCell(sp));
        case _ => assert false;
      }
    }

    method CommitImpliedPull(ghost status: bool)
      requires MayCommit() && instr == Pull(status) && PullsAccumulator(ir) == !status
      modifies `a, `x, `y, `sp, `p, `pc, `bus, `accesses, `cpuStep
      ensures DidCommit(old(cpuStep))
    {
      hide FlagsOf;
      match cpuStep {
        case 1 => cpuStep := 2;
        case 2 => sp := Inc8(sp); cpuStep := 3;
        case 3 =>
          var pulled := Lo(addrLatch);
          if PullsAccumulator(ir) {
            a := pulled;
            SetZN(pulled);
          } else {
            p := FlagsOf(pulled);
          }
          cpuStep := 0;
        case _ => assert false;
      }
    }

    // ---------- opcode fetch and reset ----------

    method CaptureOpcodeFetch()
      modifies `ir, `instr, `accesses
      ensures ir == bus.Read(pc) && instr == Decode(ir) && accesses == old(accesses) + 1
    {
      ir := ReadBus(pc);
      instr := Decode(ir);
    }

    method CommitOpcodeFetch()
      requires Visible() == origin && Encodable(instr)
      modifies `pc, `cpuStep
      ensures cpuStep == 1 && Operating(0)
    {
      pc := Inc16(pc);
      cpuStep := 1;
    }

    ghost predicate ResetStage(captured: bool)
      reads `origin, `cpuStep, `addrLatch, `a, `x, `y, `pc, `sp, `p, `isHalted, `bus
    {
      var low := origin.mem.Read(RESET_VECTOR);
      && cpuStep <= 6
      && Visible() == ResetPartial(origin, cpuStep)
      && ((cpuStep == 5 && captured) || (cpuStep == 6 && !captured) ==> addrLatch == low)
      && (cpuStep == 6 && captured ==> addrLatch == Word(low, origin.mem.Read(RESET_VECTOR + 1)))
    }

    method CaptureReset()
      requires ResetStage(false) && accesses == 0
      modifies `addrLatch, `accesses
      ensures ResetStage(true) && accesses <= 1
    {
      match cpuStep {
        case 5 => addrLatch := ReadBus(RESET_VECTOR);
        case 6 => addrLatch := CompleteWord(addrLatch, RESET_VECTOR + 1);
        case 0 | 1 => var _ := ReadBus(pc);
        case 2 | 3 | 4 => // nothing to latch: CommitReset moves SP
        case _ => assert false;
      }
    }

    method CommitReset()
      requires resetActive && ResetStage(true)
      modifies `pc, `sp, `p, `isHalted, `resetActive, `cpuStep
      ensures
        if old(cpuStep) == 6 then cpuStep == 0 && !resetActive && Visible() == AfterReset(origin)
        else cpuStep == old(cpuStep) + 1 && resetActive && ResetStage(false)
    {
      match cpuStep {
        case 0 => isHalted := false; cpuStep := 1;
        case 1 => cpuStep := 2;
        case 2 => sp := Dec8(sp); cpuStep := 3;
        case 3 => sp := Dec8(sp); cpuStep := 4;
        case 4 => sp := Dec8(sp); p := p.(i := true); cpuStep := 5;
        case 5 => cpuStep := 6;
        case 6 =>
          pc := addrLatch;
          resetActive := false;
          cpuStep := 0;
        case _ => assert false;
      }
    }

    // ---------- the clock ----------

    /** Invariant within a T-state: before or after its capture half. */
    ghost predicate Stage(captured: bool)
      reads `resetActive, `ir, `origin, `instr, `cpuStep, `addrLatch, `effAddr, `pageCrossed, `branchOffset,
            `branchTaken, `aluA, `aluB, `aluFunction, `aluCarryIn, `a, `x, `y, `pc, `sp, `p, `isHalted, `bus
    {
      if resetActive then ResetStage(captured)
      else if cpuStep == 0 then
        Visible() == origin && (captured ==> ir == Opcode(origin) && instr == Decode(ir))
      else
        && ir == Opcode(origin) && instr == Decode(ir)
        && Operating(if captured then cpuStep else cpuStep - 1)
    }

    /** A capture half leaves the bus to a commit half that needs it. */
    ghost predicate BusLeftForCommit()
      reads `resetActive, `origin, `instr, `cpuStep, `accesses
    {
      accesses <= (if !resetActive && cpuStep > 0 && CommitUsesBus(instr, origin, cpuStep) then 0 else 1)
    }

    lemma OnlyStoresStray()
      requires MayCapture()
      ensures Strays(instr, cpuStep) == (CaptureCases(HandlerFor(instr)) < cpuStep)
      ensures Strays(instr, cpuStep) ==>
        instr.Operand? && instr.use.Store? && (instr.mode.AbsoluteX? || instr.mode.AbsoluteY? || instr.mode.IndirectY?)
    {
      CasesOf(instr, origin, cpuStep);
    }

    method CaptureHandler()
      requires SwitchesAgree(ir, instr) && MayCapture() && !strayed
      modifies `addrLatch, `effAddr, `pageCrossed, `branchOffset, `branchTaken,
               `aluA, `aluB, `aluFunction, `aluCarryIn, `accesses, `strayed
      ensures DidCapture() && strayed == Strays(instr, cpuStep)
      ensures strayed ==> UnchangedByCapture()
    {
      hide CaptureSwitch, CommitSwitch, BinaryOpOf, BinaryResultOf, UnaryOpOf, UnaryFlagsOf, LoadTarget, StoreSource;
      hide IncDecOf, IncDecTarget, TransferSource, TransferTarget, FlagOpOf, ConditionOf;
      hide PushesStatus, PullsAccumulator;
      hide LatchesHold, Operating, CommitUsesBus, CaptureCases, Strays;
      OnlyStoresStray();
      match CaptureSwitch(ir) {
        case Access(kind, Immediate) => CaptureImmediate(kind);
        case Access(kind, ZeroPage) => CaptureZeroPage(kind);
        case Access(kind, ZeroPageX) => CaptureZeroPageIndexed(kind, ZeroPageX, x);
        case Access(kind, ZeroPageY) => CaptureZeroPageIndexed(kind, ZeroPageY, y);
        case Access(kind, Absolute) => CaptureAbsolute(kind);
        case Access(kind, AbsoluteX) => CaptureAbsoluteIndexed(kind, AbsoluteX, x);
        case Access(kind, AbsoluteY) => CaptureAbsoluteIndexed(kind, AbsoluteY, y);
        case Access(kind, IndirectX) => CaptureIndirectX(kind);
        case Access(kind, IndirectY) => CaptureIndirectY(kind);
        case ShiftAccumulator => CaptureShiftAccumulator(instr.op);
        case ImpliedIncDec => CaptureImpliedIncDec(instr.step, instr.reg);
        case ImpliedTransfer => CaptureImpliedTransfer(instr.src, instr.dst);
        case ImpliedFlagOp => CaptureIdle();
        case Branching => CaptureBranch(instr.test, instr.when);
        case BRK => CaptureBRK();
        case JSR => CaptureJSR();
        case RTS => CaptureRTS();
        case JMPAbsolute => CaptureJMPAbsolute();
        case JMPIndirect => CaptureJMPIndirect();
        case NOP => CaptureIdle();
        case RTI => CaptureRTI();
        case ImpliedPush => CaptureImpliedPush(instr.status);
        case ImpliedPull => CaptureImpliedPull(instr.status);
        case NoHandler => CaptureIdle();
      }
    }

    method CommitHandler()
      requires SwitchesAgree(ir, instr) && MayCommit()
      modifies `a, `x, `y, `sp, `p, `pc, `bus, `isHalted, `accesses, `cpuStep, `addrLatch
      ensures DidCommit(old(cpuStep))
    {
      hide CaptureSwitch, CommitSwitch, BinaryOpOf, BinaryResultOf, UnaryOpOf, UnaryFlagsOf, LoadTarget, StoreSource;
      hide IncDecOf, IncDecTarget, TransferSource, TransferTarget, FlagOpOf, ConditionOf;
      hide PushesStatus, PullsAccumulator;
      hide LatchesHold, Operating, CommitUsesBus, Advanced, Output;
      match CommitSwitch(ir) {
        case Access(kind, Immediate) => CommitImmediate(kind);
        case Access(kind, ZeroPage) => CommitZeroPage(kind);
        case Access(kind, ZeroPageX) => CommitZeroPageIndexed(kind, ZeroPageX);
        case Access(kind, ZeroPageY) => CommitZeroPageIndexed(kind, ZeroPageY);
        case Access(kind, Absolute) => CommitAbsolute(kind);
        case Access(kind, AbsoluteX) => CommitAbsoluteIndexed(kind, AbsoluteX);
        case Access(kind, AbsoluteY) => CommitAbsoluteIndexed(kind, AbsoluteY);
        case Access(kind, IndirectX) => CommitIndirectX(kind);
        case Access(kind, IndirectY) => CommitIndirectY(kind);
        case ShiftAccumulator => CommitShiftAccumulator(instr.op);
        case ImpliedIncDec => CommitImpliedIncDec(instr.step, instr.reg);
        case ImpliedTransfer => CommitImpliedTransfer(instr.src, instr.dst);
        case ImpliedFlagOp => CommitImpliedFlagOp(instr.flag, instr.value);
        case Branching => CommitBranch(instr.test, instr.when);
        case BRK => CommitBRK();
        case JSR => CommitJSR();
        case RTS => CommitRTS();
        case JMPAbsolute => CommitJMPAbsolute();
        case JMPIndirect => CommitJMPIndirect();
        case NOP => CommitNOP();
        case RTI => CommitRTI();
        case ImpliedPush => CommitImpliedPush(instr.status);
        case ImpliedPull => CommitImpliedPull(instr.status);
        case NoHandler => CommitUnimplemented();
      }
    }

    /** The instruction's own capture. */
    method CaptureInstruction()
      requires !resetActive && cpuStep > 0 && Stage(false) && accesses == 0
      modifies `addrLatch, `effAddr, `pageCrossed, `branchOffset, `branchTaken,
               `aluA, `aluB, `aluFunction, `aluCarryIn, `accesses, `strayed
      ensures Stage(true) && BusLeftForCommit()
      ensures strayed == Strays(instr, cpuStep)
      ensures strayed ==> UnchangedByCapture()
    {
      hide Decode, SwitchesAgree, Partial, LatchesHold, CommitUsesBus, Cycles, Strays, Visible, Opcode;
      strayed := false;
      DispatchFollowsManual(ir);
      CaptureHandler();
    }

    /** The clock reaches High. A capture handler breaks out of its switch without a case
        exactly where Strays says, and then nothing is latched and the bus is not used. */
    method OnClockHigh()
      requires Stage(false) && accesses == 0
      modifies `addrLatch, `effAddr, `pageCrossed, `branchOffset, `branchTaken,
               `aluA, `aluB, `aluFunction, `aluCarryIn, `accesses, `ir, `instr, `strayed
      ensures Stage(true) && BusLeftForCommit()
      ensures strayed == (!resetActive && cpuStep > 0 && Strays(instr, cpuStep))
      ensures strayed ==> UnchangedByCapture()
    {
      hide Decode, SwitchesAgree, Operating, LatchesHold, CommitUsesBus, Cycles, ResetStage, Strays;
      if resetActive {
        strayed := false;
        CaptureReset();
      } else if cpuStep == 0 {
        strayed := false;
        CaptureOpcodeFetch();
      } else {
        CaptureInstruction();
      }
    }

    method OnClockLow()
      requires aluOutput == Output(Inputs()) && Stage(true) && BusLeftForCommit()
      modifies `a, `x, `y, `sp, `p, `pc, `bus, `isHalted, `accesses, `cpuStep, `addrLatch, `resetActive
      ensures accesses <= 1
      ensures
        if old(cpuStep) + 1 == old(Total()) then cpuStep == 0 && !resetActive && Visible() == old(Target())
        else cpuStep == old(cpuStep) + 1 && resetActive == old(resetActive) && Stage(false)
    {
      hide Decode, SwitchesAgree, Partial, LatchesHold, CommitUsesBus, Cycles, Exec, Output, AfterReset;
      if resetActive {
        CommitReset();
        return;
      }
      DispatchFollowsManual(ir);
      CyclesFollowManual(ir, origin);
      if cpuStep == 0 {
        CommitOpcodeFetch();
        return;
      }
      CommitHandler();
    }

    /** Holds in every state the core can reach: between instructions nothing is
        required; within one, the programmer-visible state and the latches are those of
        the T-state reached. No T-state accesses the bus more than once. */
    ghost predicate Valid()
      reads this
    {
      && accesses <= 1
      && (clockPhase == LowToHigh ==> accesses == 0)
      && ((AtBoundary() && !resetActive) || Stage(Captured()))
      && (Captured() ==> BusLeftForCommit())
    }

    constructor (bus: Memory)
      ensures Valid() && AtBoundary() && !resetActive
      ensures
        Visible() == State(0, 0, 0, 0, 0, Flags(false, false, false, false, false, false, false, false), false, bus)
    {
      this.bus := bus;
      a, x, y, pc, sp := 0, 0, 0, 0, 0;
      p := Flags(false, false, false, false, false, false, false, false);
      cpuStep := 0;
      clockPhase := Low;
      addrLatch, effAddr, pageCrossed := 0, 0, false;
      ir, branchOffset, branchTaken := 0, 0, false;
      isHalted, resetActive := false, false;
      aluA, aluB, aluFunction, aluCarryIn := 0, 0, ADD, false;
      aluOutput := AluResult(0, false);
      accesses := 0;
      strayed := false;
    }

    /** The ALU settles and the clock moves one phase, capturing or committing. */
    method Settle()
      requires Stage(Captured()) && accesses <= 1
      requires (clockPhase == LowToHigh ==> accesses == 0) && (Captured() ==> BusLeftForCommit())
      modifies this
      ensures ticks == old(ticks) && accesses <= 1
      ensures (clockPhase == LowToHigh ==> accesses == 0) && (Captured() ==> BusLeftForCommit())
      ensures clockPhase == NextClockPhase(old(clockPhase))
      ensures clockPhase != Low ==> Visible() == old(Visible())
      ensures
        if clockPhase == Low && old(cpuStep) + 1 == old(Total()) then
          cpuStep == 0 && !resetActive && Visible() == old(Target())
        else
          && Stage(Captured()) && Total() == old(Total()) && Target() == old(Target())
          && resetActive == old(resetActive)
          && cpuStep == old(cpuStep) + (if clockPhase == Low then 1 else 0)
    {
      hide Stage, Step, Decode, Cycles, AfterReset, Execute, CommitUsesBus, Visible;
      aluOutput := Execute(aluA, aluB, aluFunction, aluCarryIn);
      clockPhase := NextClockPhase(clockPhase);
      match clockPhase {
        case LowToHigh => accesses := 0;
        case High => OnClockHigh();
        case HighToLow =>
        case Low => OnClockLow();
      }
    }

    /** One clock phase. The visible state moves only when the clock reaches Low, the work
        in progress keeps its goal and is one tick nearer to it, and it is reached exactly
        when the clock is back at a T0/Low boundary. */
    method Tick()
      requires Valid()
      modifies this
      ensures Valid()
      ensures ticks == old(ticks) + 1
      ensures
        match old(clockPhase)
        case Low => clockPhase == LowToHigh
        case LowToHigh => clockPhase == High
        case High => clockPhase == HighToLow
        case HighToLow => clockPhase == Low
      ensures clockPhase != Low ==> Visible() == old(Visible())
      ensures AtBoundary() <==> old(Remaining()) == 1
      ensures
        if AtBoundary() then !resetActive && Visible() == old(Goal())
        else Goal() == old(Goal()) && Remaining() == old(Remaining()) - 1
    {
      hide Step, Decode, Cycles, Operating, ResetStage, AfterReset, CommitUsesBus;
      if AtBoundary() && !resetActive {
        origin := Visible();
      }
      Settle();
      ticks := ticks + 1;
    }

    /** Calls Tick until the clock is next stable at High: a full period when it is
        already there, otherwise the phases in between. */
    method RunToClockHigh()
      requires Valid()
      modifies this
      ensures Valid() && clockPhase == High
      ensures
        ticks == old(ticks) + match old(clockPhase)
          case Low => 2
          case LowToHigh => 1
          case High => 4
          case HighToLow => 3
    {
      hide Valid, Goal, Remaining, Visible;
      Tick();
      while clockPhase != High
        invariant Valid()
        invariant ticks + (if clockPhase == High then 0 else PhasesToHigh(clockPhase)) ==
                  old(ticks) + PhasesToHigh(old(clockPhase))
        decreases if clockPhase == High then 0 else PhasesToHigh(clockPhase)
      {
        Tick();
      }
    }

    /** From any reachable state, settled or not, finishes what is in progress: one whole
        instruction when settled, and in exactly the ticks it has left. */
    method ExecuteInstruction()
      requires Valid()
      modifies this
      ensures Valid() && AtBoundary() && !resetActive
      ensures Visible() == old(Goal())
      ensures ticks == old(ticks) + old(Remaining())
      ensures ticks <= old(ticks) + 28
    {
      RemainingIsBounded();
      ghost var goal, deadline := Goal(), ticks + Remaining();
      Tick();
      while !AtBoundary()
        invariant Valid()
        invariant if AtBoundary() then !resetActive && Visible() == goal && ticks == deadline
                  else Goal() == goal && ticks + Remaining() == deadline
        decreases deadline - ticks
      {
        RemainingIsBounded();
        Tick();
      }
    }

    /** Arms the reset sequence at any point of any instruction, or of another reset. */
    method BeginReset()
      requires Valid()
      modifies `resetActive, `cpuStep, `origin
      ensures Valid() && resetActive && cpuStep == 0
      ensures Goal() == AfterReset(Visible())
      ensures Remaining() == 28 - PhaseIndex(clockPhase)
    {
      resetActive := true;
      cpuStep := 0;
      origin := Visible();
    }

    /** Reset from any reachable state: 25 to 28 ticks, by the phase it starts in. */
    method Reset()
      requires Valid()
      modifies this
      ensures Valid() && AtBoundary() && !resetActive
      ensures pc == 0x100 * bus.Read(0xFFFD) + bus.Read(0xFFFC) && sp == (old(sp) - 3) % 0x100
      ensures p == old(p).(i := true) && !isHalted
      ensures bus == old(bus) && a == old(a) && x == old(x) && y == old(y)
      ensures Visible() == AfterReset(old(Visible()))
      ensures
        ticks == old(ticks) + match old(clockPhase)
          case Low => 28
          case LowToHigh => 27
          case High => 26
          case HighToLow => 25
    {
      DownThree(sp);
      BeginReset();
      ExecuteInstruction();
    }

    /** Executes until a BRK halts the core or the budget is used up; the first
        "instruction" finishes whatever is in progress. */
    method RunInstructions(maxInstructions: nat) returns (halted: bool)
      requires Valid()
      modifies this
      ensures Valid() && halted == Visible().halted
      ensures
        if maxInstructions == 0 || old(isHalted) then Visible() == old(Visible())
        else AtBoundary() && !resetActive && Visible() == Run(old(Goal()), maxInstructions - 1)
    {
      hide Valid, Step, Remaining, Target;
      var i := 0;
      while i < maxInstructions && !isHalted
        invariant i <= maxInstructions
        invariant Valid()
        invariant i == 0 ==> Goal() == old(Goal()) && Visible() == old(Visible())
        invariant i > 0 ==> AtBoundary() && !resetActive && !old(isHalted)
        invariant i > 0 ==> Run(Visible(), maxInstructions - i) == Run(old(Goal()), maxInstructions - 1)
      {
        ExecuteInstruction();
        i := i + 1;
      }
      halted := isHalted;
    }

    /** Whatever is in progress ends within 28 ticks. */
    lemma RemainingIsBounded()
      requires Valid()
      ensures 1 <= Remaining() <= 28
    {
      CyclesFollowManual(Opcode(origin), origin);
      CyclesFollowManual(Opcode(Visible()), Visible());
    }
  }
}
