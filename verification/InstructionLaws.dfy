/** The instruction set once more, as laws over opcode bytes, memory cells and arithmetic
    alone: what a step from any state leaves in each register, flag and cell. They are stated
    without the functions that the one-shot semantics and the core are both written with. */
module InstructionLaws {
  import opened Words
  import opened FlatMemory
  import opened Instructions
  import opened Manual
  import opened Isa
  import opened TStates
  import opened Dispatch

  // ---------- the encoding ----------

  /** The instruction of opcode bits aaabbbcc. */
  function Encoding(a: nat, b: nat, c: nat): Instr
    requires a < 8 && b < 8 && c < 4
  {
    match c
    case 0 => ThirdGroup(a, b)
    case 1 => if a == 4 && b == 2 then Unknown else Operand(FirstGroupUse(a), FirstGroupMode(b))
    case 2 => SecondGroup(a, b)
    case _ => Unknown
  }

  /** cc = 01: bits aaa give the operation, ... */
  function FirstGroupUse(a: nat): Use {
    match a
    case 0 => Combine(OpOra)
    case 1 => Combine(OpAnd)
    case 2 => Combine(OpEor)
    case 3 => Combine(OpAdc)
    case 4 => Store(A)
    case 5 => Load(A)
    case 6 => Combine(OpCmp(A))
    case _ => Combine(OpSbc)
  }

  /** ... bits bbb the addressing mode. */
  function FirstGroupMode(b: nat): Mode {
    match b
    case 0 => IndirectX
    case 1 => ZeroPage
    case 2 => Immediate
    case 3 => Absolute
    case 4 => IndirectY
    case 5 => ZeroPageX
    case 6 => AbsoluteY
    case _ => AbsoluteX
  }

  /** cc = 10: shifts and steps of memory or A, STX and LDX, and six one-byte instructions. */
  function SecondGroup(a: nat, b: nat): Instr {
    match b
    case 0 => if a == 5 then Operand(Load(X), Immediate) else Unknown
    case 1 => Operand(SecondGroupUse(a), ZeroPage)
    case 2 => (
      match a
      case 0 => Accumulator(OpAsl)
      case 1 => Accumulator(OpRol)
      case 2 => Accumulator(OpLsr)
      case 3 => Accumulator(OpRor)
      case 4 => Transfer(X, A)
      case 5 => Transfer(A, X)
      case 6 => IncDec(OpDec, X)
      case _ => Nop)
    case 3 => Operand(SecondGroupUse(a), Absolute)
    case 4 => Unknown
    case 5 => Operand(SecondGroupUse(a), if a == 4 || a == 5 then ZeroPageY else ZeroPageX)
    case 6 => if a == 4 then Transfer(X, S) else if a == 5 then Transfer(S, X) else Unknown
    case _ => if a == 4 then Unknown else Operand(SecondGroupUse(a), if a == 5 then AbsoluteY else AbsoluteX)
  }

  function SecondGroupUse(a: nat): Use {
    match a
    case 0 => Modify(OpAsl)
    case 1 => Modify(OpRol)
    case 2 => Modify(OpLsr)
    case 3 => Modify(OpRor)
    case 4 => Store(X)
    case 5 => Load(X)
    case 6 => Modify(OpDec)
    case _ => Modify(OpInc)
  }

  /** cc = 00: control, the stack, flags, branches, and BIT, STY, LDY, CPY and CPX. */
  function ThirdGroup(a: nat, b: nat): Instr {
    match b
    case 0 => (
      match a
      case 0 => Brk
      case 1 => Jsr
      case 2 => Rti
      case 3 => Rts
      case 4 => Unknown
      case _ => Operand(ThirdGroupUse(a), Immediate))
    case 1 => if a == 1 || a >= 4 then Operand(ThirdGroupUse(a), ZeroPage) else Unknown
    case 2 => (
      match a
      case 0 => Push(true)
      case 1 => Pull(true)
      case 2 => Push(false)
      case 3 => Pull(false)
      case 4 => IncDec(OpDec, Y)
      case 5 => Transfer(A, Y)
      case 6 => IncDec(OpInc, Y)
      case _ => IncDec(OpInc, X))
    case 3 => (
      match a
      case 0 => Unknown
      case 2 => Jmp
      case 3 => JmpIndirect
      case _ => Operand(ThirdGroupUse(a), Absolute))
    case 4 => Branch(TestedFlag(a), a == 1 || a == 3 || a == 5 || a == 7)
    case 5 => if a == 4 || a == 5 then Operand(ThirdGroupUse(a), ZeroPageX) else Unknown
    case 6 => (
      match a
      case 0 => SetFlag(C, false)
      case 1 => SetFlag(C, true)
      case 2 => SetFlag(I, false)
      case 3 => SetFlag(I, true)
      case 4 => Transfer(Y, A)
      case 5 => SetFlag(V, false)
      case 6 => SetFlag(D, false)
      case _ => SetFlag(D, true))
    case _ => if a == 5 then Operand(Load(Y), AbsoluteX) else Unknown
  }

  function ThirdGroupUse(a: nat): Use {
    match a
    case 4 => Store(Y)
    case 5 => Load(Y)
    case 6 => Combine(OpCmp(Y))
    case 7 => Combine(OpCmp(X))
    case _ => Combine(OpBit)
  }

  /** Branches come in pairs, on clear and on set. */
  function TestedFlag(a: nat): Flag {
    if a < 2 then N else if a < 4 then V else if a < 6 then C else Z
  }

  lemma EncodedRow0(q: nat, c: nat)
    requires q < 4 && c < 4
    ensures Encoding(0, q, c) == InstrOf(RowAt(0x0, 4 * q + c))
  {
  }

  lemma EncodedRow1(q: nat, c: nat)
    requires q < 4 && c < 4
    ensures Encoding(0, 4 + q, c) == InstrOf(RowAt(0x1, 4 * q + c))
  {
  }

  lemma EncodedRow2(q: nat, c: nat)
    requires q < 4 && c < 4
    ensures Encoding(1, q, c) == InstrOf(RowAt(0x2, 4 * q + c))
  {
  }

  lemma EncodedRow3(q: nat, c: nat)
    requires q < 4 && c < 4
    ensures Encoding(1, 4 + q, c) == InstrOf(RowAt(0x3, 4 * q + c))
  {
  }

  lemma EncodedRow4(q: nat, c: nat)
    requires q < 4 && c < 4
    ensures Encoding(2, q, c) == InstrOf(RowAt(0x4, 4 * q + c))
  {
  }

  lemma EncodedRow5(q: nat, c: nat)
    requires q < 4 && c < 4
    ensures Encoding(2, 4 + q, c) == InstrOf(RowAt(0x5, 4 * q + c))
  {
  }

  lemma EncodedRow6(q: nat, c: nat)
    requires q < 4 && c < 4
    ensures Encoding(3, q, c) == InstrOf(RowAt(0x6, 4 * q + c))
  {
  }

  lemma EncodedRow7(q: nat, c: nat)
    requires q < 4 && c < 4
    ensures Encoding(3, 4 + q, c) == InstrOf(RowAt(0x7, 4 * q + c))
  {
  }

  lemma EncodedRow8(q: nat, c: nat)
    requires q < 4 && c < 4
    ensures Encoding(4, q, c) == InstrOf(RowAt(0x8, 4 * q + c))
  {
  }

  lemma EncodedRow9(q: nat, c: nat)
    requires q < 4 && c < 4
    ensures Encoding(4, 4 + q, c) == InstrOf(RowAt(0x9, 4 * q + c))
  {
  }

  lemma EncodedRowA(q: nat, c: nat)
    requires q < 4 && c < 4
    ensures Encoding(5, q, c) == InstrOf(RowAt(0xA, 4 * q + c))
  {
  }

  lemma EncodedRowB(q: nat, c: nat)
    requires q < 4 && c < 4
    ensures Encoding(5, 4 + q, c) == InstrOf(RowAt(0xB, 4 * q + c))
  {
  }

  lemma EncodedRowC(q: nat, c: nat)
    requires q < 4 && c < 4
    ensures Encoding(6, q, c) == InstrOf(RowAt(0xC, 4 * q + c))
  {
  }

  lemma EncodedRowD(q: nat, c: nat)
    requires q < 4 && c < 4
    ensures Encoding(6, 4 + q, c) == InstrOf(RowAt(0xD, 4 * q + c))
  {
  }

  lemma EncodedRowE(q: nat, c: nat)
    requires q < 4 && c < 4
    ensures Encoding(7, q, c) == InstrOf(RowAt(0xE, 4 * q + c))
  {
  }

  lemma EncodedRowF(q: nat, c: nat)
    requires q < 4 && c < 4
    ensures Encoding(7, 4 + q, c) == InstrOf(RowAt(0xF, 4 * q + c))
  {
  }

  /** The manual's table is regular: operation, mode and branch condition are fields of the
      opcode byte. */
  lemma OpcodesFollowEncoding(opcode: byte)
    ensures Decode(opcode) == Encoding(opcode / 0x20, opcode / 4 % 8, opcode % 4)
  {
    hide Encoding, RowAt;
    var hi, q, c := opcode / 0x10, opcode % 0x10 / 4, opcode % 4;
    Fields(opcode);
    match hi {
      case 0x0 => EncodedRow0(q, c);
      case 0x1 => EncodedRow1(q, c);
      case 0x2 => EncodedRow2(q, c);
      case 0x3 => EncodedRow3(q, c);
      case 0x4 => EncodedRow4(q, c);
      case 0x5 => EncodedRow5(q, c);
      case 0x6 => EncodedRow6(q, c);
      case 0x7 => EncodedRow7(q, c);
      case 0x8 => EncodedRow8(q, c);
      case 0x9 => EncodedRow9(q, c);
      case 0xA => EncodedRowA(q, c);
      case 0xB => EncodedRowB(q, c);
      case 0xC => EncodedRowC(q, c);
      case 0xD => EncodedRowD(q, c);
      case 0xE => EncodedRowE(q, c);
      case _ => EncodedRowF(q, c);
    }
  }

  lemma Fields(opcode: byte)
    ensures opcode / 0x20 == opcode / 0x10 / 2
    ensures opcode / 4 % 8 == 4 * (opcode / 0x10 % 2) + opcode % 0x10 / 4
    ensures opcode % 0x10 == 4 * (opcode % 0x10 / 4) + opcode % 4
  {
    var hi, lo := opcode / 0x10, opcode % 0x10;
    var a, b, q, c := hi / 2, hi % 2, lo / 4, lo % 4;
    DivisionUnique(opcode, 0x20, a, 0x10 * b + lo);
    DivisionUnique(opcode, 4, 8 * a + (4 * b + q), c);
    DivisionUnique(8 * a + (4 * b + q), 8, a, 4 * b + q);
  }

  // ---------- memory and addresses ----------

  /** A cell read back: RAM keeps what was written last, ROM and unmapped cells ignore it. */
  lemma MemoryLaw(m: Memory, addr: word, v: byte, x: word)
    ensures m.Write(addr, v).Read(x) == if x == addr && x in m.ram then v else m.Read(x)
    ensures x in m.ram ==> m.Read(x) == m.ram[x]
    ensures x !in m.ram && x in m.rom ==> m.Read(x) == m.rom[x]
    ensures x !in m.ram && x !in m.rom ==> m.Read(x) == 0xFF
  {
  }

  /** Where each addressing mode finds its operand. */
  lemma AddressingLaw(s: State)
    ensures
      var low, high := s.mem.Read((s.pc + 1) % 0x1_0000), s.mem.Read((s.pc + 2) % 0x1_0000);
      && EffectiveAddress(Immediate, s) == (s.pc + 1) % 0x1_0000
      && EffectiveAddress(ZeroPage, s) == low
      && EffectiveAddress(ZeroPageX, s) == (low + s.x) % 0x100
      && EffectiveAddress(ZeroPageY, s) == (low + s.y) % 0x100
      && EffectiveAddress(Absolute, s) == 0x100 * high + low
      && EffectiveAddress(AbsoluteX, s) == (0x100 * high + low + s.x) % 0x1_0000
      && EffectiveAddress(AbsoluteY, s) == (0x100 * high + low + s.y) % 0x1_0000
      && (var at := (low + s.x) % 0x100;
          EffectiveAddress(IndirectX, s) == 0x100 * s.mem.Read((at + 1) % 0x100) + s.mem.Read(at))
      && (var base := 0x100 * s.mem.Read((low + 1) % 0x100) + s.mem.Read(low);
          EffectiveAddress(IndirectY, s) == (base + s.y) % 0x1_0000)
  {
    hide Memory.Read, Inc16, Inc8, Offset, Word, ZeroPagePointer;
    NextAddresses(s.pc);
    var low, high := s.mem.Read((s.pc + 1) % 0x1_0000), s.mem.Read((s.pc + 2) % 0x1_0000);
    PointerIs(s.mem, low);
    PointerIs(s.mem, (low + s.x) % 0x100);
    IndexWraps(low, high, s.x);
    IndexWraps(low, high, s.y);
    IndexWraps(s.mem.Read(low), s.mem.Read((low + 1) % 0x100), s.y);
  }

  lemma PointerIs(m: Memory, at: byte)
    ensures ZeroPagePointer(m, at) == Word(m.Read(at), m.Read((at + 1) % 0x100))
    ensures Word(m.Read(at), m.Read((at + 1) % 0x100)) == 0x100 * m.Read((at + 1) % 0x100) + m.Read(at)
  {
    hide Memory.Read, Inc8;
    NextInPageZero(at);
  }

  lemma IndexWraps(low: byte, high: byte, index: byte)
    ensures Word(low, high) == 0x100 * high + low
    ensures Offset(Word(low, high), index) == (0x100 * high + low + index) % 0x1_0000
  {
  }

  lemma NextInPageZero(b: byte)
    ensures Inc8(b) == (b + 1) % 0x100
  {
  }

  /** An indexed operand costs an extra T-state exactly when its page is not that of the
      address before indexing. */
  lemma CrossingLaw(s: State)
    ensures
      var low, high := s.mem.Read((s.pc + 1) % 0x1_0000), s.mem.Read((s.pc + 2) % 0x1_0000);
      var base := 0x100 * s.mem.Read((low + 1) % 0x100) + s.mem.Read(low);
      && (PageCrossed(AbsoluteX, s) <==> (0x100 * high + low + s.x) / 0x100 != high)
      && (PageCrossed(AbsoluteY, s) <==> (0x100 * high + low + s.y) / 0x100 != high)
      && (PageCrossed(IndirectY, s) <==> (base + s.y) / 0x100 != base / 0x100)
  {
    hide Memory.Read, Inc16, Word, Lo, ZeroPagePointer;
    NextAddresses(s.pc);
    var low: byte, high: byte := s.mem.Read((s.pc + 1) % 0x1_0000), s.mem.Read((s.pc + 2) % 0x1_0000);
    PointerIs(s.mem, low);
    Crosses(low, high, s.x);
    Crosses(low, high, s.y);
    Crosses(s.mem.Read(low), s.mem.Read((low + 1) % 0x100), s.y);
  }

  lemma Crosses(low: byte, high: byte, index: byte)
    ensures Lo(Word(low, high)) + index > 0xFF <==> (0x100 * high + low + index) / 0x100 != high
    ensures (0x100 * high + low) / 0x100 == high
  {
  }

  lemma PastOperandIs(mode: Mode, pc: word)
    ensures
      PastOperand(mode, pc) == (pc + (if mode in {Absolute, AbsoluteX, AbsoluteY} then 3 else 2)) % 0x1_0000
  {
    hide Inc16;
    NextAddresses(pc);
  }

  // ---------- memory-operand instructions ----------

  /** LDA, LDX, LDY and STA, STX, STY, in every mode. */
  lemma LoadStoreLaw(s: State, mode: Mode)
    ensures
      var addr := EffectiveAddress(mode, s);
      var v, next := s.mem.Read(addr), (s.pc + (if mode in {Absolute, AbsoluteX, AbsoluteY} then 3 else 2)) % 0x1_0000;
      var p := s.p.(z := v == 0, n := v >= 0x80);
      && Exec(Operand(Load(A), mode), s) == s.(pc := next, a := v, p := p)
      && Exec(Operand(Load(X), mode), s) == s.(pc := next, x := v, p := p)
      && Exec(Operand(Load(Y), mode), s) == s.(pc := next, y := v, p := p)
      && Exec(Operand(Store(A), mode), s) == s.(pc := next, mem := s.mem.Write(addr, s.a))
      && Exec(Operand(Store(X), mode), s) == s.(pc := next, mem := s.mem.Write(addr, s.x))
      && Exec(Operand(Store(Y), mode), s) == s.(pc := next, mem := s.mem.Write(addr, s.y))
  {
    hide Memory.Read, Memory.Write, EffectiveAddress, PastOperand;
    PastOperandIs(mode, s.pc);
  }

  /** ADC: C, Z, V and N from the sum; D is ignored. */
  lemma AdditionLaw(s: State, mode: Mode)
    ensures
      var v := s.mem.Read(EffectiveAddress(mode, s));
      var next := (s.pc + (if mode in {Absolute, AbsoluteX, AbsoluteY} then 3 else 2)) % 0x1_0000;
      var sa: int := if s.a >= 0x80 then s.a - 0x100 else s.a;
      var sv: int := if v >= 0x80 then v - 0x100 else v;
      var sum, ssum := s.a + v + (if s.p.c then 1 else 0), sa + sv + (if s.p.c then 1 else 0);
      Exec(Operand(Combine(OpAdc), mode), s) == s.(pc := next, a := sum % 0x100,
        p := s.p.(c := sum >= 0x100, z := sum % 0x100 == 0, n := sum % 0x100 >= 0x80,
                  v := ssum < -0x80 || ssum > 0x7F))
  {
    hide Memory.Read, EffectiveAddress, PastOperand, AddWithCarry;
    PastOperandIs(mode, s.pc);
    AdditionIs(s.(pc := PastOperand(mode, s.pc)), s.mem.Read(EffectiveAddress(mode, s)));
  }

  /** SBC: C, Z, V and N from the difference; C means no borrow. */
  lemma SubtractionLaw(s: State, mode: Mode)
    ensures
      var v := s.mem.Read(EffectiveAddress(mode, s));
      var next := (s.pc + (if mode in {Absolute, AbsoluteX, AbsoluteY} then 3 else 2)) % 0x1_0000;
      var sa: int := if s.a >= 0x80 then s.a - 0x100 else s.a;
      var sv: int := if v >= 0x80 then v - 0x100 else v;
      var diff, sdiff := s.a - v - (if s.p.c then 0 else 1), sa - sv - (if s.p.c then 0 else 1);
      Exec(Operand(Combine(OpSbc), mode), s) == s.(pc := next, a := diff % 0x100,
        p := s.p.(c := diff >= 0, z := diff % 0x100 == 0, n := diff % 0x100 >= 0x80,
                  v := sdiff < -0x80 || sdiff > 0x7F))
  {
    hide Memory.Read, EffectiveAddress, PastOperand, SubtractWithBorrow;
    PastOperandIs(mode, s.pc);
    SubtractionIs(s.(pc := PastOperand(mode, s.pc)), s.mem.Read(EffectiveAddress(mode, s)));
  }

  lemma AdditionIs(s: State, v: byte)
    ensures
      var sa: int := if s.a >= 0x80 then s.a - 0x100 else s.a;
      var sv: int := if v >= 0x80 then v - 0x100 else v;
      var sum, ssum := s.a + v + (if s.p.c then 1 else 0), sa + sv + (if s.p.c then 1 else 0);
      AddWithCarry(s, v) == s.(a := sum % 0x100,
        p := s.p.(c := sum >= 0x100, z := sum % 0x100 == 0, n := sum % 0x100 >= 0x80,
                  v := ssum < -0x80 || ssum > 0x7F))
  {
  }

  lemma SubtractionIs(s: State, v: byte)
    ensures
      var sa: int := if s.a >= 0x80 then s.a - 0x100 else s.a;
      var sv: int := if v >= 0x80 then v - 0x100 else v;
      var diff, sdiff := s.a - v - (if s.p.c then 0 else 1), sa - sv - (if s.p.c then 0 else 1);
      SubtractWithBorrow(s, v) == s.(a := diff % 0x100,
        p := s.p.(c := diff >= 0, z := diff % 0x100 == 0, n := diff % 0x100 >= 0x80,
                  v := sdiff < -0x80 || sdiff > 0x7F))
  {
  }

  /** AND, ORA and EOR, bit by bit, with Z and N; BIT's three flags. */
  lemma LogicLaw(s: State, mode: Mode, k: nat)
    requires k < 8
    ensures
      var v := s.mem.Read(EffectiveAddress(mode, s));
      var next := (s.pc + (if mode in {Absolute, AbsoluteX, AbsoluteY} then 3 else 2)) % 0x1_0000;
      var x, y := s.a / Pow2(k) % 2 == 1, v / Pow2(k) % 2 == 1;
      var and, or, xor := Exec(Operand(Combine(OpAnd), mode), s), Exec(Operand(Combine(OpOra), mode), s),
                          Exec(Operand(Combine(OpEor), mode), s);
      && and == s.(pc := next, a := and.a, p := s.p.(z := and.a == 0, n := and.a >= 0x80))
      && or == s.(pc := next, a := or.a, p := s.p.(z := or.a == 0, n := or.a >= 0x80))
      && xor == s.(pc := next, a := xor.a, p := s.p.(z := xor.a == 0, n := xor.a >= 0x80))
      && (and.a / Pow2(k) % 2 == 1 <==> x && y)
      && (or.a / Pow2(k) % 2 == 1 <==> x || y)
      && (xor.a / Pow2(k) % 2 == 1 <==> x != y)
      && Exec(Operand(Combine(OpBit), mode), s) ==
           s.(pc := next, p := s.p.(z := and.a == 0, n := v >= 0x80, v := v % 0x80 >= 0x40))
  {
    hide Memory.Read, EffectiveAddress, PastOperand, And8, Or8, Xor8, Pow2, Exec;
    var v := s.mem.Read(EffectiveAddress(mode, s));
    PastOperandIs(mode, s.pc);
    BytesBitwise(s.a, v, k);
    LogicResults(s, mode);
    UpperBits(v);
  }

  lemma LogicResults(s: State, mode: Mode)
    ensures
      var v := s.mem.Read(EffectiveAddress(mode, s));
      var and, or, xor := And8(s.a, v), Or8(s.a, v), Xor8(s.a, v);
      var t := s.(pc := PastOperand(mode, s.pc));
      && Exec(Operand(Combine(OpAnd), mode), s) == t.(a := and, p := s.p.(z := and == 0, n := and >= 0x80))
      && Exec(Operand(Combine(OpOra), mode), s) == t.(a := or, p := s.p.(z := or == 0, n := or >= 0x80))
      && Exec(Operand(Combine(OpEor), mode), s) == t.(a := xor, p := s.p.(z := xor == 0, n := xor >= 0x80))
      && Exec(Operand(Combine(OpBit), mode), s) ==
           t.(p := s.p.(z := and == 0, n := v / 0x80 == 1, v := v / 0x40 % 2 == 1))
  {
    hide Memory.Read, EffectiveAddress, PastOperand, And8, Or8, Xor8;
  }

  lemma UpperBits(v: byte)
    ensures v / 0x80 == 1 <==> v >= 0x80
    ensures v / 0x40 % 2 == 1 <==> v % 0x80 >= 0x40
  {
  }

  /** CMP, CPX and CPY: the order of register and operand. */
  lemma CompareLaw(s: State, mode: Mode)
    ensures
      var v := s.mem.Read(EffectiveAddress(mode, s));
      var next := (s.pc + (if mode in {Absolute, AbsoluteX, AbsoluteY} then 3 else 2)) % 0x1_0000;
      && Exec(Operand(Combine(OpCmp(A)), mode), s) ==
           s.(pc := next, p := s.p.(c := s.a >= v, z := s.a == v, n := (s.a - v) % 0x100 >= 0x80))
      && Exec(Operand(Combine(OpCmp(X)), mode), s) ==
           s.(pc := next, p := s.p.(c := s.x >= v, z := s.x == v, n := (s.x - v) % 0x100 >= 0x80))
      && Exec(Operand(Combine(OpCmp(Y)), mode), s) ==
           s.(pc := next, p := s.p.(c := s.y >= v, z := s.y == v, n := (s.y - v) % 0x100 >= 0x80))
  {
    hide Memory.Read, EffectiveAddress, PastOperand;
    PastOperandIs(mode, s.pc);
  }

  lemma CyclicSteps(sp: byte)
    ensures Dec8(sp) == (sp - 1) % 0x100 && Dec8(Dec8(sp)) == (sp - 2) % 0x100
    ensures Dec8(Dec8(Dec8(sp))) == (sp - 3) % 0x100
    ensures Inc8(sp) == (sp + 1) % 0x100 && Inc8(Inc8(sp)) == (sp + 2) % 0x100
    ensures Inc8(Inc8(Inc8(sp))) == (sp + 3) % 0x100
  {
  }

  // ---------- shifts, rotates, steps ----------

  /** The bits move one place and the one that falls out becomes C: the nine bits of C and the
      value are shifted, or rotated. */
  lemma ShiftLaw(op: UnaryOp, v: byte, p: Flags)
    ensures
      var r, q, c := UnaryResult(op, v, p.c), UnaryFlags(op, v, p), if p.c then 1 else 0;
      && q == p.(c := q.c, z := r == 0, n := r >= 0x80)
      && (op == OpAsl ==> r + 0x100 * (if q.c then 1 else 0) == 2 * v)
      && (op == OpRol ==> r + 0x100 * (if q.c then 1 else 0) == 2 * v + c)
      && (op == OpLsr ==> 2 * r + (if q.c then 1 else 0) == v)
      && (op == OpRor ==> 2 * r + (if q.c then 1 else 0) == v + 0x100 * c)
      && (op == OpInc ==> r == (v + 1) % 0x100 && q.c == p.c)
      && (op == OpDec ==> r == (v - 1) % 0x100 && q.c == p.c)
  {
    hide UnaryResult;
    ShiftedBits(op, v, p.c);
  }

  lemma ShiftedBits(op: UnaryOp, v: byte, carry: bool)
    ensures
      var r, c := UnaryResult(op, v, carry), if carry then 1 else 0;
      && (op == OpAsl ==> r + 0x100 * (if v >= 0x80 then 1 else 0) == 2 * v)
      && (op == OpRol ==> r + 0x100 * (if v >= 0x80 then 1 else 0) == 2 * v + c)
      && (op == OpLsr ==> 2 * r + v % 2 == v)
      && (op == OpRor ==> 2 * r + v % 2 == v + 0x100 * c)
      && (op == OpInc ==> r == (v + 1) % 0x100)
      && (op == OpDec ==> r == (v - 1) % 0x100)
  {
    match op
    case OpAsl => Doubled(v, 0);
    case OpRol => Doubled(v, if carry then 1 else 0);
    case OpLsr => Halved(v, 0);
    case OpRor => Halved(v, if carry then 1 else 0);
    case OpInc => CyclicSteps(v);
    case OpDec => CyclicSteps(v);
  }

  lemma Doubled(v: byte, c: nat)
    requires c <= 1
    ensures (2 * v + c) % 0x100 + 0x100 * (if v >= 0x80 then 1 else 0) == 2 * v + c
  {
  }

  lemma Halved(v: byte, c: nat)
    requires c <= 1
    ensures 2 * ((v + 0x100 * c) / 2) + v % 2 == v + 0x100 * c
  {
  }

  /** ROR undoes ROL, and ROL undoes ROR, carry included. */
  lemma RotatesAreInverse(v: byte, p: Flags)
    ensures
      var left, right := UnaryResult(OpRol, v, p.c), UnaryResult(OpRor, v, p.c);
      && UnaryResult(OpRor, left, UnaryFlags(OpRol, v, p).c) == v
      && UnaryFlags(OpRor, left, UnaryFlags(OpRol, v, p)).c == p.c
      && UnaryResult(OpRol, right, UnaryFlags(OpRor, v, p).c) == v
      && UnaryFlags(OpRol, right, UnaryFlags(OpRor, v, p)).c == p.c
  {
    hide UnaryResult, UnaryFlags;
    var left, right := UnaryResult(OpRol, v, p.c), UnaryResult(OpRor, v, p.c);
    ShiftLaw(OpRol, v, p);
    ShiftLaw(OpRor, v, p);
    ShiftLaw(OpRor, left, UnaryFlags(OpRol, v, p));
    ShiftLaw(OpRol, right, UnaryFlags(OpRor, v, p));
  }

  /** Where the operations of ShiftLaw take effect: a cell, A, X or Y. */
  lemma ModifyLaw(s: State, op: UnaryOp, mode: Mode)
    ensures
      var addr, next := EffectiveAddress(mode, s), (s.pc + 1) % 0x1_0000;
      var v, past := s.mem.Read(addr), (s.pc + (if mode in {Absolute, AbsoluteX, AbsoluteY} then 3 else 2)) % 0x1_0000;
      && Exec(Operand(Modify(op), mode), s) ==
           s.(pc := past, mem := s.mem.Write(addr, UnaryResult(op, v, s.p.c)), p := UnaryFlags(op, v, s.p))
      && Exec(Accumulator(op), s) ==
           s.(pc := next, a := UnaryResult(op, s.a, s.p.c), p := UnaryFlags(op, s.a, s.p))
  {
    hide Memory.Read, Memory.Write, EffectiveAddress, PastOperand, UnaryResult, UnaryFlags, Inc16;
    PastOperandIs(mode, s.pc);
    NextAddresses(s.pc);
  }

  lemma StepCodes()
    ensures Decode(0xE8) == IncDec(OpInc, X) && Decode(0xC8) == IncDec(OpInc, Y)
    ensures Decode(0xCA) == IncDec(OpDec, X) && Decode(0x88) == IncDec(OpDec, Y)
  {
  }

  lemma TransferCodes()
    ensures Decode(0xAA) == Transfer(A, X) && Decode(0xA8) == Transfer(A, Y)
    ensures Decode(0x8A) == Transfer(X, A) && Decode(0x98) == Transfer(Y, A)
    ensures Decode(0xBA) == Transfer(S, X) && Decode(0x9A) == Transfer(X, S)
  {
  }

  lemma FlagCodes()
    ensures Decode(0x18) == SetFlag(C, false) && Decode(0x38) == SetFlag(C, true)
    ensures Decode(0x58) == SetFlag(I, false) && Decode(0x78) == SetFlag(I, true)
    ensures Decode(0xB8) == SetFlag(V, false)
    ensures Decode(0xD8) == SetFlag(D, false) && Decode(0xF8) == SetFlag(D, true)
  {
  }

  /** INX, INY, DEX, DEY. */
  lemma StepRegisterLaw(s: State)
    ensures
      var next, p := (s.pc + 1) % 0x1_0000, s.p;
      match s.mem.Read(s.pc)
      case 0xE8 =>
        var v := (s.x + 1) % 0x100;
        Step(s) == s.(pc := next, x := v, p := p.(z := v == 0, n := v >= 0x80))
      case 0xC8 =>
        var v := (s.y + 1) % 0x100;
        Step(s) == s.(pc := next, y := v, p := p.(z := v == 0, n := v >= 0x80))
      case 0xCA =>
        var v := (s.x - 1) % 0x100;
        Step(s) == s.(pc := next, x := v, p := p.(z := v == 0, n := v >= 0x80))
      case 0x88 =>
        var v := (s.y - 1) % 0x100;
        Step(s) == s.(pc := next, y := v, p := p.(z := v == 0, n := v >= 0x80))
      case _ => true
  {
    hide Memory.Read, Decode, Inc8, Dec8, Inc16;
    NextAddresses(s.pc);
    CyclicSteps(s.x);
    CyclicSteps(s.y);
    StepCodes();
  }

  /** TAX, TAY, TXA, TYA, TSX with Z and N; TXS without. */
  lemma TransferLaw(s: State)
    ensures
      var next, p := (s.pc + 1) % 0x1_0000, s.p;
      match s.mem.Read(s.pc)
      case 0xAA => Step(s) == s.(pc := next, x := s.a, p := p.(z := s.a == 0, n := s.a >= 0x80))
      case 0xA8 => Step(s) == s.(pc := next, y := s.a, p := p.(z := s.a == 0, n := s.a >= 0x80))
      case 0x8A => Step(s) == s.(pc := next, a := s.x, p := p.(z := s.x == 0, n := s.x >= 0x80))
      case 0x98 => Step(s) == s.(pc := next, a := s.y, p := p.(z := s.y == 0, n := s.y >= 0x80))
      case 0xBA => Step(s) == s.(pc := next, x := s.sp, p := p.(z := s.sp == 0, n := s.sp >= 0x80))
      case 0x9A => Step(s) == s.(pc := next, sp := s.x)
      case _ => true
  {
    hide Memory.Read, Decode, Inc16;
    NextAddresses(s.pc);
    TransferCodes();
  }

  lemma SetFlagIs(s: State, f: Flag, v: bool)
    ensures Exec(SetFlag(f, v), s) == s.(pc := (s.pc + 1) % 0x1_0000, p := WithFlag(s.p, f, v))
  {
    hide WithFlag, Inc16;
    NextAddresses(s.pc);
  }

  /** CLC, SEC, CLI, SEI, CLV, CLD, SED. */
  lemma FlagLaw(s: State)
    ensures
      var next, p := (s.pc + 1) % 0x1_0000, s.p;
      match s.mem.Read(s.pc)
      case 0x18 => Step(s) == s.(pc := next, p := p.(c := false))
      case 0x38 => Step(s) == s.(pc := next, p := p.(c := true))
      case 0x58 => Step(s) == s.(pc := next, p := p.(i := false))
      case 0x78 => Step(s) == s.(pc := next, p := p.(i := true))
      case 0xB8 => Step(s) == s.(pc := next, p := p.(v := false))
      case 0xD8 => Step(s) == s.(pc := next, p := p.(d := false))
      case 0xF8 => Step(s) == s.(pc := next, p := p.(d := true))
      case _ => true
  {
    hide Memory.Read, Decode, Exec;
    FlagCodes();
    if Decode(Opcode(s)).SetFlag? {
      SetFlagIs(s, Decode(Opcode(s)).flag, Decode(Opcode(s)).value);
    }
  }

  // ---------- control ----------

  lemma BranchCodes()
    ensures Decode(0x10) == Branch(N, false) && Decode(0x30) == Branch(N, true)
    ensures Decode(0x50) == Branch(V, false) && Decode(0x70) == Branch(V, true)
    ensures Decode(0x90) == Branch(C, false) && Decode(0xB0) == Branch(C, true)
    ensures Decode(0xD0) == Branch(Z, false) && Decode(0xF0) == Branch(Z, true)
  {
  }

  /** BPL, BMI, BVC, BVS, BCC, BCS, BNE, BEQ, forward and backward: the flag each one reads,
      where it goes, and its T-states. */
  lemma BranchLaw(s: State)
    requires s.mem.Read(s.pc) in {0x10, 0x30, 0x50, 0x70, 0x90, 0xB0, 0xD0, 0xF0}
    ensures
      var opcode, operand := s.mem.Read(s.pc), s.mem.Read((s.pc + 1) % 0x1_0000);
      var d: int := if operand >= 0x80 then operand - 0x100 else operand;
      var taken := match opcode
        case 0x10 => !s.p.n
        case 0x30 => s.p.n
        case 0x50 => !s.p.v
        case 0x70 => s.p.v
        case 0x90 => !s.p.c
        case 0xB0 => s.p.c
        case 0xD0 => !s.p.z
        case _ => s.p.z;
      var next, target := (s.pc + 2) % 0x1_0000, (s.pc + 2 + d) % 0x1_0000;
      && Step(s) == s.(pc := if taken then target else next)
      && Cycles(Decode(opcode), s) ==
           (if !taken then 2 else if target / 0x100 == next / 0x100 then 3 else 4)
  {
    hide Memory.Read, Decode, Inc16, Offset, Signed;
    BranchCodes();
    NextAddresses(s.pc);
    BranchArithmetic(s.pc, s.mem.Read((s.pc + 1) % 0x1_0000));
  }

  lemma BranchArithmetic(pc: word, operand: byte)
    ensures
      Offset((pc + 2) % 0x1_0000, Signed(operand)) ==
        (pc + 2 + (if operand >= 0x80 then operand - 0x100 else operand)) % 0x1_0000
  {
  }

  lemma ControlCodes()
    ensures Decode(0x00) == Brk && Decode(0x20) == Jsr && Decode(0x40) == Rti && Decode(0x60) == Rts
    ensures Decode(0x4C) == Jmp && Decode(0x6C) == JmpIndirect && Decode(0xEA) == Nop
    ensures Decode(0x08) == Push(true) && Decode(0x48) == Push(false)
    ensures Decode(0x28) == Pull(true) && Decode(0x68) == Pull(false)
  {
  }

  /** JMP, and JMP (ind), whose pointer does not leave its page; NOP. */
  lemma JumpLaw(s: State)
    ensures
      var low, high := s.mem.Read((s.pc + 1) % 0x1_0000), s.mem.Read((s.pc + 2) % 0x1_0000);
      match s.mem.Read(s.pc)
      case 0x4C => Step(s) == s.(pc := 0x100 * high + low)
      case 0x6C =>
        var first, second := s.mem.Read(0x100 * high + low), s.mem.Read(0x100 * high + (low + 1) % 0x100);
        Step(s) == s.(pc := 0x100 * second + first)
      case 0xEA => Step(s) == s.(pc := (s.pc + 1) % 0x1_0000)
      case _ => true
  {
    hide Memory.Read, Decode, Inc16, OperandWord, IndirectTarget;
    ControlCodes();
    NextAddresses(s.pc);
    TargetsAre(s);
  }

  lemma TargetsAre(s: State)
    ensures
      var low, high := s.mem.Read((s.pc + 1) % 0x1_0000), s.mem.Read((s.pc + 2) % 0x1_0000);
      && OperandWord(s) == 0x100 * high + low
      && IndirectTarget(s) ==
           0x100 * s.mem.Read(0x100 * high + (low + 1) % 0x100) + s.mem.Read(0x100 * high + low)
  {
    hide Memory.Read, Inc16, Inc8, Lo, Hi, Word;
    NextAddresses(s.pc);
    var low, high := s.mem.Read((s.pc + 1) % 0x1_0000), s.mem.Read((s.pc + 2) % 0x1_0000);
    NextInPage(low, high);
    NextInPage(s.mem.Read(OperandWord(s)), s.mem.Read(Word(Inc8(low), high)));
  }

  lemma NextInPage(low: byte, high: byte)
    ensures Word(low, high) == 0x100 * high + low && Lo(Word(low, high)) == low && Hi(Word(low, high)) == high
    ensures Word(Inc8(low), high) == 0x100 * high + (low + 1) % 0x100
  {
  }

  /** A byte the manual does not list moves PC past it and does nothing else. */
  lemma UnlistedLaw(s: State)
    requires Lookup(s.mem.Read(s.pc)).None?
    ensures Step(s) == s.(pc := (s.pc + 1) % 0x1_0000)
    ensures Cycles(Decode(s.mem.Read(s.pc)), s) == 2
  {
    hide Memory.Read, Lookup, Inc16;
    NextAddresses(s.pc);
  }

  /** JSR: the address of its last byte goes to $0100 + SP, high byte first, before the high
      byte of the target is read. */
  lemma CallLaw(s: State)
    requires s.mem.Read(s.pc) == 0x20
    ensures
      var last := (s.pc + 2) % 0x1_0000;
      var mem := s.mem.Write(0x100 + s.sp, last / 0x100).Write(0x100 + (s.sp - 1) % 0x100, last % 0x100);
      Step(s) == s.(mem := mem, sp := (s.sp - 2) % 0x100,
                    pc := 0x100 * mem.Read(last) + s.mem.Read((s.pc + 1) % 0x1_0000))
  {
    hide Memory.Read, Memory.Write, Decode, Inc16;
    ControlCodes();
    NextAddresses(s.pc);
    CyclicSteps(s.sp);
  }

  /** RTS: one past the word above SP. */
  lemma ReturnLaw(s: State)
    requires s.mem.Read(s.pc) == 0x60
    ensures
      var low, high := s.mem.Read(0x100 + (s.sp + 1) % 0x100), s.mem.Read(0x100 + (s.sp + 2) % 0x100);
      Step(s) == s.(pc := (0x100 * high + low + 1) % 0x1_0000, sp := (s.sp + 2) % 0x100)
  {
    hide Memory.Read, Decode, Inc8;
    ControlCodes();
    CyclicSteps(s.sp);
  }

  /** PHA, PLA, PHP, PLP. P has C, Z, I, D, B, the unused bit, V and N from bit 0 up; PHP sets
      B, in P as well. */
  lemma StackLaw(s: State)
    ensures
      var next, top := (s.pc + 1) % 0x1_0000, 0x100 + s.sp;
      var pulled := s.mem.Read(0x100 + (s.sp + 1) % 0x100);
      match s.mem.Read(s.pc)
      case 0x48 => Step(s) == s.(pc := next, sp := (s.sp - 1) % 0x100, mem := s.mem.Write(top, s.a))
      case 0x68 =>
        Step(s) == s.(pc := next, sp := (s.sp + 1) % 0x100, a := pulled,
                      p := s.p.(z := pulled == 0, n := pulled >= 0x80))
      case 0x08 =>
        var status := (if s.p.c then 1 else 0) + (if s.p.z then 2 else 0) + (if s.p.i then 4 else 0)
          + (if s.p.d then 8 else 0) + 16 + (if s.p.u then 32 else 0) + (if s.p.v then 64 else 0)
          + (if s.p.n then 128 else 0);
        Step(s) == s.(pc := next, sp := (s.sp - 1) % 0x100, p := s.p.(b := true), mem := s.mem.Write(top, status))
      case 0x28 => Step(s) == s.(pc := next, sp := (s.sp + 1) % 0x100, p := StatusBits(pulled))
      case _ => true
  {
    hide Memory.Read, Memory.Write, Decode, Inc16, Inc8, Dec8, FlagsOf;
    ControlCodes();
    NextAddresses(s.pc);
    CyclicSteps(s.sp);
    PulledBits(s.mem.Read(0x100 + (s.sp + 1) % 0x100));
  }

  /** P with each flag in its bit. */
  function StatusBits(b: byte): Flags {
    Flags(b % 2 == 1, b / 2 % 2 == 1, b / 4 % 2 == 1, b / 8 % 2 == 1, b / 16 % 2 == 1, b / 32 % 2 == 1,
          b / 64 % 2 == 1, b / 128 == 1)
  }

  lemma PulledBits(b: byte)
    ensures FlagsOf(b) == StatusBits(b)
  {
    assert b / 2 / 2 == b / 4 by { LowBitFirst(b, 2); }
    assert b / 4 / 2 == b / 8 by { LowBitFirst(b, 4); LowBitFirst(b / 2, 2); }
    EighthsHalved(b / 8);
    assert b / 8 / 2 == b / 16 && b / 8 / 4 == b / 32 && b / 8 / 8 == b / 64 && b / 8 / 16 == b / 128;
  }

  lemma EighthsHalved(n: nat)
    ensures n / 2 / 2 == n / 4 && n / 2 / 2 / 2 == n / 8 && n / 2 / 2 / 2 / 2 == n / 16
  {
    LowBitFirst(n, 2);
    LowBitFirst(n, 4);
    LowBitFirst(n, 8);
    LowBitFirst(n / 2, 2);
    LowBitFirst(n / 2, 4);
    LowBitFirst(n / 2 / 2, 2);
  }

  /** BRK: the address past its padding byte and P with B set go on the stack; I is set, the
      core halts, and PC comes from $FFFE. */
  lemma BreakLaw(s: State)
    requires s.mem.Read(s.pc) == 0x00
    ensures
      var next, status := (s.pc + 2) % 0x1_0000, s.p.(b := true).ToByte();
      var mem := s.mem.Write(0x100 + s.sp, next / 0x100).Write(0x100 + (s.sp - 1) % 0x100, next % 0x100)
        .Write(0x100 + (s.sp - 2) % 0x100, status);
      Step(s) == s.(mem := mem, sp := (s.sp - 3) % 0x100, p := s.p.(b := true, i := true), halted := true,
                    pc := 0x100 * mem.Read(0xFFFF) + mem.Read(0xFFFE))
  {
    hide Memory.Read, Memory.Write, Decode, Inc16, Dec8, Flags.ToByte;
    ControlCodes();
    NextAddresses(s.pc);
    CyclicSteps(s.sp);
  }

  /** RTI: P and PC from the three cells above SP. */
  lemma InterruptReturnLaw(s: State)
    requires s.mem.Read(s.pc) == 0x40
    ensures
      var first, second, third := s.mem.Read(0x100 + (s.sp + 1) % 0x100), s.mem.Read(0x100 + (s.sp + 2) % 0x100),
                                  s.mem.Read(0x100 + (s.sp + 3) % 0x100);
      Step(s) == s.(sp := (s.sp + 3) % 0x100, p := StatusBits(first), pc := 0x100 * third + second)
  {
    hide Memory.Read, Decode, Inc8, FlagsOf;
    ControlCodes();
    CyclicSteps(s.sp);
    PulledBits(s.mem.Read(0x100 + (s.sp + 1) % 0x100));
  }

  /** A reset: PC from $FFFC, SP down by three, I set, halt cleared, nothing else. */
  lemma ResetLaw(s: State)
    ensures
      AfterReset(s) == s.(pc := 0x100 * s.mem.Read(0xFFFD) + s.mem.Read(0xFFFC), sp := (s.sp - 3) % 0x100,
                          p := s.p.(i := true), halted := false)
  {
    hide Memory.Read, Dec8;
    CyclicSteps(s.sp);
  }

  // ---------- T-states ----------

  /** How far PC has moved at the start of T-state `k`. */
  function Fetched(i: Instr, k: nat): nat {
    match i
    case Operand(_, mode) => if k >= 3 && mode in {Absolute, AbsoluteX, AbsoluteY} then 3 else if k >= 2 then 2 else 1
    case Branch(_, _) => if k >= 2 then 2 else 1
    case Brk => if k >= 2 then 2 else 1
    case Jsr => if k >= 2 then 2 else 1
    case Jmp => if k >= 2 then 2 else 1
    case JmpIndirect => if k >= 3 then 3 else if k >= 2 then 2 else 1
    case _ => 1
  }

  /** How far SP has moved: down for pushes, up for pulls. */
  function Moved(i: Instr, k: nat): int {
    match i
    case Brk => if k <= 2 then 0 else if k == 3 then -1 else if k == 4 then -2 else -3
    case Jsr => if k <= 3 then 0 else if k == 4 then -1 else -2
    case Rts => if k <= 2 then 0 else if k == 3 then 1 else 2
    case Rti => if k <= 2 then 0 else if k == 3 then 1 else if k == 4 then 2 else 3
    case Pull(_) => if k <= 2 then 0 else 1
    case _ => 0
  }

  /** What a T-state begins with: PC and SP have moved so far, only BRK and JSR have written,
      RTI has P from T4 on and BRK its flags from T5 on; A, X and Y wait for the last commit. */
  lemma TStateLaw(i: Instr, s: State, k: nat)
    requires 1 <= k < Cycles(i, s)
    ensures
      var t := Partial(i, s, k);
      && t.pc == (s.pc + Fetched(i, k)) % 0x1_0000
      && t.sp == (s.sp + Moved(i, k)) % 0x100
      && t.a == s.a && t.x == s.x && t.y == s.y && t.halted == s.halted
      && (!(i.Brk? && k >= 3) && !(i.Jsr? && k >= 4) ==> t.mem == s.mem)
      && t.p == (if i.Rti? && k >= 4 then StatusBits(s.mem.Read(0x100 + (s.sp + 1) % 0x100))
                 else if i.Brk? && k >= 5 then s.p.(b := true, i := true)
                 else s.p)
  {
    hide Memory.Read, Memory.Write, Inc16, Inc8, Dec8, FlagsOf, Flags.ToByte, PageCrossed, BranchTarget;
    NextAddresses(s.pc);
    CyclicSteps(s.sp);
    PulledBits(s.mem.Read(0x100 + (s.sp + 1) % 0x100));
  }

  /** The same for a reset: SP moves in T2 to T4, with no write, then I is set. */
  lemma ResetTStateLaw(s: State, k: nat)
    requires 1 <= k < 7
    ensures
      ResetPartial(s, k) == s.(halted := false, p := if k >= 5 then s.p.(i := true) else s.p,
        sp := if k <= 2 then s.sp else if k == 3 then (s.sp - 1) % 0x100 else if k == 4 then (s.sp - 2) % 0x100
              else (s.sp - 3) % 0x100)
  {
    hide Dec8;
    CyclicSteps(s.sp);
  }

  // ---------- runs ----------

  /** A run is its steps one after the other, up to the first halt and no further. */
  lemma {:induction false} RunLaw(s: State, n: nat)
    ensures Run(s, 0) == s
    ensures Run(s, n + 1) == if Run(s, n).halted then Run(s, n) else Step(Run(s, n))
    decreases n
  {
    hide Step;
    if n > 0 && !s.halted {
      RunLaw(Step(s), n - 1);
    }
  }
}
