/** DISPATCH as the bytes in ROM, run on the instruction set of module Isa: the routine that
    its tail jump enters, for every line, is the one that the grammar of module Commands names. */
module DispatchBytes {
  import opened Words
  import opened FlatMemory
  import opened Instructions
  import opened Manual
  import opened Isa
  import opened FirmwareBytes
  import HexText
  import LineEditor
  import Commands

  // ---------- the code ----------

  /** DISPATCH ($C800), line by line, up to its error line at $C888. */
  ghost predicate DispatchLoaded(mem: Memory) {
    && Loaded(mem, 0xC800, [0xA5, 0x41])                // LDA LINEPOS
    && Loaded(mem, 0xC802, [0xC5, 0x40, 0x90, 0x03])    // CMP LINELEN, BCC NOTEND
    && Loaded(mem, 0xC806, [0x4C, 0x00, 0xCA])          // JMP PEEK
    && Loaded(mem, 0xC809, [0xA6, 0x41])                // NOTEND: LDX LINEPOS
    && Loaded(mem, 0xC80B, [0xB5, 0x00])                // LDA $00,X
    && Loaded(mem, 0xC80D, [0xC9, 0x2E, 0xF0, 0x0B])    // CMP, BEQ DOLIST
    && Loaded(mem, 0xC811, [0xC9, 0x3A, 0xF0, 0x4D])    // CMP, BEQ DOPOKE
    && Loaded(mem, 0xC815, [0xC9, 0x20, 0xF0, 0x4E])    // CMP, BEQ MAYBERUN
    && Loaded(mem, 0xC819, [0x4C, 0x88, 0xC8])          // JMP ERROR
    && RangeLoaded(mem)
    && Loaded(mem, 0xC862, [0xE6, 0x41])                // DOPOKE: INC LINEPOS
    && Loaded(mem, 0xC864, [0x4C, 0x00, 0xCC])          // JMP POKE
    && LettersLoaded(mem)
  }

  /** DOLIST. */
  ghost predicate RangeLoaded(mem: Memory) {
    && Loaded(mem, 0xC81C, [0xE6, 0x41])                // INC LINEPOS
    && Loaded(mem, 0xC81E, [0xA5, 0xF0, 0x85, 0xF2])
    && Loaded(mem, 0xC822, [0xA5, 0xF1, 0x85, 0xF3])
    && Loaded(mem, 0xC826, [0x20, 0x00, 0xC5])          // JSR PARSE_ADDR
    && Loaded(mem, 0xC829, [0xB0, 0x5D])                // BCS ERROR
    && Loaded(mem, 0xC82B, [0xA5, 0xF0, 0x85, 0xF5])
    && Loaded(mem, 0xC82F, [0xA5, 0xF1, 0x85, 0xF6])
    && Loaded(mem, 0xC833, [0xA5, 0xF2, 0x85, 0xF0])
    && Loaded(mem, 0xC837, [0xA5, 0xF3, 0x85, 0xF1])
    && Loaded(mem, 0xC83B, [0xA5, 0xF5, 0x85, 0xF2])
    && Loaded(mem, 0xC83F, [0xA5, 0xF6, 0x85, 0xF3])
    && TailLoaded(mem)
  }

  /** DOLIST after the second address. */
  ghost predicate TailLoaded(mem: Memory) {
    && Loaded(mem, 0xC843, [0xA5, 0x41])                // LDA LINEPOS
    && Loaded(mem, 0xC845, [0xC5, 0x40, 0x90, 0x03])    // CMP LINELEN, BCC
    && Loaded(mem, 0xC849, [0x4C, 0x00, 0xCB])          // JMP LIST
    && Loaded(mem, 0xC84C, [0xA6, 0x41])                // LDX LINEPOS
    && Loaded(mem, 0xC84E, [0xB5, 0x00])                // LDA $00,X
    && Loaded(mem, 0xC850, [0xC9, 0x20, 0xD0, 0x34])    // CMP, BNE ERROR
    && Loaded(mem, 0xC854, [0xE8])                      // INX
    && Loaded(mem, 0xC855, [0xE4, 0x40, 0xB0, 0x2F])    // CPX LINELEN, BCS ERROR
    && Loaded(mem, 0xC859, [0xB5, 0x00])                // LDA $00,X
    && Loaded(mem, 0xC85B, [0xC9, 0x53, 0xD0, 0x29])    // CMP, BNE ERROR
    && Loaded(mem, 0xC85F, [0x4C, 0x00, 0xD0])          // JMP SAVE
  }

  /** MAYBERUN. */
  ghost predicate LettersLoaded(mem: Memory) {
    && Loaded(mem, 0xC867, [0xA6, 0x41])                // LDX LINEPOS
    && Loaded(mem, 0xC869, [0xE8])                      // INX
    && Loaded(mem, 0xC86A, [0xE4, 0x40, 0xB0, 0x1A])    // CPX LINELEN, BCS ERROR
    && Loaded(mem, 0xC86E, [0xB5, 0x00])                // LDA $00,X
    && Loaded(mem, 0xC870, [0xC9, 0x52, 0xF0, 0x0B])    // CMP, BEQ DORUN
    && Loaded(mem, 0xC874, [0xC9, 0x4C, 0xF0, 0x0A])    // CMP, BEQ DOLOAD
    && Loaded(mem, 0xC878, [0xC9, 0x57, 0xF0, 0x09])    // CMP, BEQ DOREWIND
    && Loaded(mem, 0xC87C, [0x4C, 0x88, 0xC8])          // JMP ERROR
    && Loaded(mem, 0xC87F, [0x4C, 0x00, 0xCD])          // DORUN: JMP RUN
    && Loaded(mem, 0xC882, [0x4C, 0x00, 0xD1])          // DOLOAD: JMP LOAD
    && Loaded(mem, 0xC885, [0x4C, 0x00, 0xD2])          // DOREWIND: JMP REWIND
  }

  lemma Opcodes()
    ensures Decode(0xA5) == Operand(Load(A), ZeroPage) && Decode(0xB5) == Operand(Load(A), ZeroPageX)
    ensures Decode(0xA6) == Operand(Load(X), ZeroPage) && Decode(0x85) == Operand(Store(A), ZeroPage)
    ensures Decode(0xC5) == Operand(Combine(OpCmp(A)), ZeroPage)
    ensures Decode(0xE4) == Operand(Combine(OpCmp(X)), ZeroPage)
    ensures Decode(0xE6) == Operand(Modify(OpInc), ZeroPage) && Decode(0xE8) == IncDec(OpInc, X)
    ensures Decode(0xF0) == Branch(Z, true) && Decode(0xD0) == Branch(Z, false)
    ensures Decode(0x20) == Jsr
  {
  }

  // ---------- runs ----------

  ghost predicate Reaches(s: State, r: State) {
    exists n: nat :: Run(s, n) == r
  }

  lemma ReachesStep(s: State)
    requires !s.halted
    ensures Reaches(s, Step(s))
  {
    hide Step;
    assert Run(Step(s), 0) == Step(s);
    assert Run(s, 1) == Step(s);
  }

  lemma ReachesSelf(s: State)
    ensures Reaches(s, s)
  {
    assert Run(s, 0) == s;
  }

  lemma ReachesThen(s: State, m: State, r: State)
    requires Reaches(s, m) && Reaches(m, r)
    ensures Reaches(s, r)
  {
    hide Run;
    var i :| Run(s, i) == m;
    var j :| Run(m, j) == r;
    RunInTwo(s, i, j);
  }

  /** Nothing but A, X, the flags and PC differs. */
  predicate Same(s: State, r: State) {
    r == s.(a := r.a, x := r.x, p := r.p, pc := r.pc)
  }

  // ---------- blocks ----------

  /** LDA zp. */
  lemma LoadA(s: State, at: byte) returns (r: State)
    requires !s.halted && s.pc < 0xFE00 && Loaded(s.mem, s.pc, [0xA5, at])
    ensures Reaches(s, r) && r == s.(a := s.mem.Read(at), p := r.p, pc := s.pc + 2)
  {
    hide Decode, Run, Loaded, Memory.Read;
    Opcodes();
    FiveBytes(s.mem, s.pc, [0xA5, at]);
    ReachesStep(s);
    r := Step(s);
  }

  /** LDA zp,X. */
  lemma LoadIndexed(s: State, at: byte) returns (r: State)
    requires !s.halted && s.pc < 0xFE00 && Loaded(s.mem, s.pc, [0xB5, at])
    ensures Reaches(s, r) && r == s.(a := s.mem.Read((at + s.x) % 0x100), p := r.p, pc := s.pc + 2)
  {
    hide Decode, Run, Loaded, Memory.Read;
    Opcodes();
    FiveBytes(s.mem, s.pc, [0xB5, at]);
    ReachesStep(s);
    r := Step(s);
  }

  /** LDX zp. */
  lemma LoadX(s: State, at: byte) returns (r: State)
    requires !s.halted && s.pc < 0xFE00 && Loaded(s.mem, s.pc, [0xA6, at])
    ensures Reaches(s, r) && r == s.(x := s.mem.Read(at), p := r.p, pc := s.pc + 2)
  {
    hide Decode, Run, Loaded, Memory.Read;
    Opcodes();
    FiveBytes(s.mem, s.pc, [0xA6, at]);
    ReachesStep(s);
    r := Step(s);
  }

  /** INX. */
  lemma IncrementX(s: State) returns (r: State)
    requires !s.halted && s.pc < 0xFE00 && Loaded(s.mem, s.pc, [0xE8])
    ensures Reaches(s, r) && r == s.(x := (s.x + 1) % 0x100, p := r.p, pc := s.pc + 1)
  {
    hide Decode, Run, Loaded, Memory.Read;
    Opcodes();
    FiveBytes(s.mem, s.pc, [0xE8]);
    ReachesStep(s);
    r := Step(s);
  }

  /** CMP #v and a forward BEQ (`when` true) or BNE. */
  lemma CompareThen(s: State, v: byte, when: bool, ahead: byte) returns (r: State)
    requires !s.halted && s.pc < 0xFE00 && ahead < 0x80
    requires Loaded(s.mem, s.pc, [0xC9, v, if when then 0xF0 else 0xD0, ahead])
    ensures Reaches(s, r) && r == s.(p := r.p, pc := if (s.a == v) == when then s.pc + 4 + ahead else s.pc + 4)
  {
    hide Decode, Run, Loaded, Memory.Read, Step;
    FiveBytes(s.mem, s.pc, [0xC9, v, if when then 0xF0 else 0xD0, ahead]);
    StepCompare(s, v);
    var m := Step(s);
    ReachesStep(s);
    StepZeroBranch(m, when, ahead);
    ReachesStep(m);
    r := Step(m);
    ReachesThen(s, m, r);
  }

  /** A forward BEQ or BNE. */
  lemma StepZeroBranch(s: State, when: bool, ahead: byte)
    requires s.pc < 0xFF00 && ahead < 0x80
    requires s.mem.Read(s.pc) == (if when then 0xF0 else 0xD0) && s.mem.Read(s.pc + 1) == ahead
    ensures Step(s) == s.(pc := if s.p.z == when then s.pc + 2 + ahead else s.pc + 2)
  {
    hide Decode;
    Opcodes();
  }

  /** CMP zp or CPX zp, and a forward BCC (`when` false) or BCS. */
  lemma CompareCellThen(s: State, withX: bool, at: byte, when: bool, ahead: byte) returns (r: State)
    requires !s.halted && s.pc < 0xFE00 && ahead < 0x80
    requires Loaded(s.mem, s.pc, [if withX then 0xE4 else 0xC5, at, if when then 0xB0 else 0x90, ahead])
    ensures
      var reg := if withX then s.x else s.a;
      && Reaches(s, r)
      && r == s.(p := r.p, pc := if (reg >= s.mem.Read(at)) == when then s.pc + 4 + ahead else s.pc + 4)
  {
    hide Decode, Run, Loaded, Memory.Read, Step;
    FiveBytes(s.mem, s.pc, [if withX then 0xE4 else 0xC5, at, if when then 0xB0 else 0x90, ahead]);
    StepCompareCell(s, withX, at);
    var m := Step(s);
    ReachesStep(s);
    StepBranch(m, when, ahead);
    ReachesStep(m);
    r := Step(m);
    ReachesThen(s, m, r);
  }

  lemma StepCompareCell(s: State, withX: bool, at: byte)
    requires s.pc < 0xFF00 && s.mem.Read(s.pc) == (if withX then 0xE4 else 0xC5) && s.mem.Read(s.pc + 1) == at
    ensures
      Step(s) == s.(pc := s.pc + 2, p := Compare(s.p, if withX then s.x else s.a, s.mem.Read(at)))
  {
    hide Decode;
    Opcodes();
  }

  /** JMP. */
  lemma Jump(s: State, low: byte, high: byte) returns (r: State)
    requires !s.halted && s.pc < 0xFE00 && Loaded(s.mem, s.pc, [0x4C, low, high])
    ensures Reaches(s, r) && r == s.(pc := 0x100 * high + low)
  {
    hide Decode, Run, Loaded, Memory.Read, Step;
    FiveBytes(s.mem, s.pc, [0x4C, low, high]);
    HalvesOf(low, high);
    StepJump(s, Word(low, high));
    ReachesStep(s);
    r := Step(s);
  }

  // ---------- the letters ----------

  /** The routine after a blank: $CD00 RUN, $D100 LOAD, $D200 REWIND, or the error line. */
  function LetterEntry(letter: byte): word {
    match letter
    case 0x52 => 0xCD00
    case 0x4C => 0xD100
    case 0x57 => 0xD200
    case _ => 0xC888
  }

  lemma ChooseLetter(s: State) returns (r: State)
    requires !s.halted && s.pc == 0xC870 && LettersLoaded(s.mem)
    ensures Reaches(s, r) && Same(s, r) && r.pc == LetterEntry(s.a)
  {
    hide Loaded, Run, Step, Reaches, Memory.Read;
    var s1 := CompareThen(s, 0x52, true, 0x0B);
    if s.a == 0x52 {
      r := Jump(s1, 0x00, 0xCD);
      ReachesThen(s, s1, r);
      return;
    }
    var s2 := CompareThen(s1, 0x4C, true, 0x0A);
    ReachesThen(s, s1, s2);
    if s.a == 0x4C {
      r := Jump(s2, 0x00, 0xD1);
      ReachesThen(s, s2, r);
      return;
    }
    var s3 := CompareThen(s2, 0x57, true, 0x09);
    ReachesThen(s, s2, s3);
    if s.a == 0x57 {
      r := Jump(s3, 0x00, 0xD2);
    } else {
      r := Jump(s3, 0x88, 0xC8);
    }
    ReachesThen(s, s3, r);
  }

  /** LINEPOS, and the length of the line, which fits its buffer. */
  predicate InLine(mem: Memory) {
    mem.Read(0x41) < mem.Read(0x40) <= 64
  }

  lemma FindLetter(s: State) returns (r: State)
    requires !s.halted && s.pc == 0xC867 && LettersLoaded(s.mem) && InLine(s.mem)
    ensures
      var pos := s.mem.Read(0x41);
      && Reaches(s, r) && Same(s, r)
      && r.pc == if pos + 1 >= s.mem.Read(0x40) then 0xC888 else LetterEntry(s.mem.Read(pos + 1))
  {
    hide Loaded, Run, Step, Reaches, Memory.Read, LetterEntry;
    var s1 := LoadX(s, 0x41);
    var s2 := IncrementX(s1);
    ReachesThen(s, s1, s2);
    var s3 := CompareCellThen(s2, true, 0x40, true, 0x1A);
    ReachesThen(s, s2, s3);
    if s2.x >= s.mem.Read(0x40) {
      r := s3;
      return;
    }
    var s4 := LoadIndexed(s3, 0x00);
    ReachesThen(s, s3, s4);
    r := ChooseLetter(s4);
    ReachesThen(s, s4, r);
  }

  // ---------- the first character ----------

  /** INC LINEPOS and the jump to POKE. */
  lemma EnterPoke(s: State) returns (r: State)
    requires !s.halted && s.pc == 0xC862 && DispatchLoaded(s.mem) && RamBelowRom(s.mem) && InLine(s.mem)
    ensures Reaches(s, r) && r == s.(p := r.p, pc := 0xCC00, mem := s.mem.Write(0x41, s.mem.Read(0x41) + 1))
  {
    hide Loaded, Run, Step, Reaches, Memory.Read, Memory.Write;
    var s1 := SkipCharacter(s);
    StillLoaded(s.mem, 0x41, s.mem.Read(0x41) + 1, 0xC864, [0x4C, 0x00, 0xCC]);
    r := Jump(s1, 0x00, 0xCC);
    ReachesThen(s, s1, r);
  }

  /** ROM is not RAM, and the cells DISPATCH writes are RAM. */
  ghost predicate RamBelowRom(mem: Memory) {
    forall addr: word :: addr in mem.ram <==> addr < 0x8000
  }

  /** A write to RAM leaves the code as it is. */
  lemma StillLoaded(mem: Memory, addr: word, v: byte, at: word, code: seq<byte>)
    requires RamBelowRom(mem) && addr < 0x8000 <= at && at + |code| <= 0x1_0000 && Loaded(mem, at, code)
    ensures RamBelowRom(mem.Write(addr, v)) && Loaded(mem.Write(addr, v), at, code)
  {
  }

  /** INC LINEPOS. */
  lemma SkipCharacter(s: State) returns (r: State)
    requires !s.halted && s.pc < 0xFE00 && Loaded(s.mem, s.pc, [0xE6, 0x41]) && InLine(s.mem)
    ensures
      Reaches(s, r) && r == s.(p := r.p, pc := s.pc + 2, mem := s.mem.Write(0x41, s.mem.Read(0x41) + 1))
  {
    hide Decode, Run, Loaded, Memory.Read, Memory.Write;
    Opcodes();
    FiveBytes(s.mem, s.pc, [0xE6, 0x41]);
    ReachesStep(s);
    r := Step(s);
  }

  /** Where the first three tests lead: DOLIST, DOPOKE, MAYBERUN, or the jump to the error. */
  function TestEntry(ch: byte): word {
    match ch
    case 0x2E => 0xC81C
    case 0x3A => 0xC862
    case 0x20 => 0xC867
    case _ => 0xC888
  }

  lemma TestCharacter(s: State) returns (r: State)
    requires !s.halted && s.pc == 0xC80D && DispatchLoaded(s.mem)
    ensures Reaches(s, r) && Same(s, r) && r.pc == TestEntry(s.a)
  {
    hide Loaded, Run, Step, Reaches, Memory.Read, RangeLoaded, LettersLoaded;
    r := CompareThen(s, 0x2E, true, 0x0B);
    if s.a == 0x2E {
      return;
    }
    var s2 := CompareThen(r, 0x3A, true, 0x4D);
    ReachesThen(s, r, s2);
    if s.a == 0x3A {
      r := s2;
      return;
    }
    var s3 := CompareThen(s2, 0x20, true, 0x4E);
    ReachesThen(s, s2, s3);
    if s.a == 0x20 {
      r := s3;
      return;
    }
    r := Jump(s3, 0x88, 0xC8);
    ReachesThen(s, s3, r);
  }

  /** From the start: PEEK at the end of the line, otherwise the tests on its next character. */
  lemma TestLine(s: State) returns (r: State)
    requires !s.halted && s.pc == 0xC800 && DispatchLoaded(s.mem)
    requires s.mem.Read(0x41) <= s.mem.Read(0x40) <= 64
    ensures
      var pos := s.mem.Read(0x41);
      && Reaches(s, r) && Same(s, r)
      && r.pc == if pos == s.mem.Read(0x40) then 0xCA00 else TestEntry(s.mem.Read(pos))
  {
    hide Loaded, Run, Step, Reaches, Memory.Read, RangeLoaded, LettersLoaded, TestEntry;
    var s1 := LoadA(s, 0x41);
    var s2 := CompareCellThen(s1, false, 0x40, false, 0x03);
    ReachesThen(s, s1, s2);
    if s.mem.Read(0x41) == s.mem.Read(0x40) {
      r := Jump(s2, 0x00, 0xCA);
      ReachesThen(s, s2, r);
      return;
    }
    var s3 := LoadX(s2, 0x41);
    ReachesThen(s, s2, s3);
    var s4 := LoadIndexed(s3, 0x00);
    ReachesThen(s, s3, s4);
    r := TestCharacter(s4);
    ReachesThen(s, s4, r);
  }

  /** Where DISPATCH leads when the line has no second address: for each next character, and for
      a blank the letter behind it, the entry of a routine or the error line. Registers aside,
      only LINEPOS changes, and that for POKE. */
  lemma DispatchRuns(s: State) returns (r: State)
    requires !s.halted && s.pc == 0xC800 && DispatchLoaded(s.mem) && RamBelowRom(s.mem)
    requires s.mem.Read(0x41) <= s.mem.Read(0x40) <= 64
    requires s.mem.Read(0x41) < s.mem.Read(0x40) ==> s.mem.Read(s.mem.Read(0x41)) != 0x2E
    ensures
      var pos, length := s.mem.Read(0x41), s.mem.Read(0x40);
      && Reaches(s, r)
      && (if pos == length then r.pc == 0xCA00 && Same(s, r)
          else if s.mem.Read(pos) == 0x3A then
            r.pc == 0xCC00 && Same(s.(mem := s.mem.Write(0x41, pos + 1)), r)
          else if s.mem.Read(pos) == 0x20 && pos + 1 < length && s.mem.Read(pos + 1) == 0x52 then
            r.pc == 0xCD00 && Same(s, r)
          else if s.mem.Read(pos) == 0x20 && pos + 1 < length && s.mem.Read(pos + 1) == 0x4C then
            r.pc == 0xD100 && Same(s, r)
          else if s.mem.Read(pos) == 0x20 && pos + 1 < length && s.mem.Read(pos + 1) == 0x57 then
            r.pc == 0xD200 && Same(s, r)
          else r.pc == 0xC888 && Same(s, r))
  {
    hide Loaded, Run, Step, Reaches, Memory.Read, Memory.Write;
    hide RangeLoaded, RamBelowRom;
    r := TestLine(s);
    var pos := s.mem.Read(0x41);
    if pos < s.mem.Read(0x40) {
      if s.mem.Read(pos) == 0x3A {
        var s1 := EnterPoke(r);
        ReachesThen(s, r, s1);
        r := s1;
      } else if s.mem.Read(pos) == 0x20 {
        var s1 := FindLetter(r);
        ReachesThen(s, r, s1);
        r := s1;
      }
    }
  }

  // ---------- a second address ----------

  /** LDA from, STA to. */
  lemma CopyCell(s: State, from: byte, to: byte) returns (r: State)
    requires !s.halted && s.pc < 0xFD00 && Loaded(s.mem, s.pc, [0xA5, from, 0x85, to])
    ensures
      var v := s.mem.Read(from);
      Reaches(s, r) && r == s.(a := v, p := r.p, pc := s.pc + 4, mem := s.mem.Write(to, v))
  {
    hide Run, Loaded, Memory.Read, Memory.Write, Step, Reaches;
    LoadedPart(s.mem, s.pc, [0xA5, from, 0x85, to], 0, 2);
    LoadedPart(s.mem, s.pc, [0xA5, from, 0x85, to], 2, 4);
    assert [0xA5, from, 0x85, to][0..2] == [0xA5, from] && [0xA5, from, 0x85, to][2..4] == [0x85, to];
    var m := LoadA(s, from);
    r := StoreA(m, to);
    ReachesThen(s, m, r);
  }

  /** STA zp. */
  lemma StoreA(s: State, at: byte) returns (r: State)
    requires !s.halted && s.pc < 0xFE00 && Loaded(s.mem, s.pc, [0x85, at])
    ensures Reaches(s, r) && r == s.(pc := s.pc + 2, mem := s.mem.Write(at, s.a))
  {
    hide Decode, Run, Loaded, Memory.Read, Memory.Write;
    Opcodes();
    FiveBytes(s.mem, s.pc, [0x85, at]);
    ReachesStep(s);
    r := Step(s);
  }

  /** The memory in which `m2` has the bytes of `m1` at `from` and the next cell also at `to`. */
  predicate Copied(m1: Memory, m2: Memory, from: byte, to: byte) {
    from < 0xFF && to < 0xFF && m2 == m1.Write(to, m1.Read(from)).Write(to + 1, m1.Read(from + 1))
  }

  /** Two such copies, low byte first. */
  lemma CopyPointer(s: State, from: byte, to: byte) returns (r: State)
    requires !s.halted && 0x8000 <= s.pc < 0xFC00 && from < 0xFF && to < 0xFF && from + 1 != to
    requires RamBelowRom(s.mem)
    requires Loaded(s.mem, s.pc, [0xA5, from, 0x85, to]) && Loaded(s.mem, s.pc + 4, [0xA5, from + 1, 0x85, to + 1])
    ensures Reaches(s, r) && Same(s.(mem := r.mem), r) && r.pc == s.pc + 8 && Copied(s.mem, r.mem, from, to)
  {
    hide Run, Loaded, Step, Reaches, RamBelowRom;
    var m := CopyCell(s, from, to);
    StillLoaded(s.mem, to, s.mem.Read(from), s.pc + 4, [0xA5, from + 1, 0x85, to + 1]);
    r := CopyCell(m, from + 1, to + 1);
    ReachesThen(s, m, r);
  }

  lemma CopiedKeeps(m1: Memory, m2: Memory, from: byte, to: byte)
    requires RamBelowRom(m1) && Copied(m1, m2, from, to)
    ensures RamBelowRom(m2)
    ensures m2.Read(to) == m1.Read(from) && (from + 1 != to ==> m2.Read(to + 1) == m1.Read(from + 1))
    ensures forall addr: word :: addr != to && addr != to + 1 ==> m2.Read(addr) == m1.Read(addr)
    ensures RangeLoaded(m1) ==> RangeLoaded(m2)
  {
    assert forall addr: word :: 0x8000 <= addr ==> m2.Read(addr) == m1.Read(addr);
    SameCode(m1, m2);
  }

  lemma SameCode(m1: Memory, m2: Memory)
    requires forall addr: word :: 0x8000 <= addr ==> m2.Read(addr) == m1.Read(addr)
    ensures RangeLoaded(m1) ==> RangeLoaded(m2)
  {
    hide Memory.Read;
  }

  /** From the dot to PARSE_ADDR: LINEPOS moves past it, END holds the first address, and the
      return address on the stack is that of the test behind the call. */
  lemma RangeBegins(s: State) returns (r: State)
    requires !s.halted && s.pc == 0xC800 && DispatchLoaded(s.mem) && RamBelowRom(s.mem) && InLine(s.mem)
    requires s.mem.Read(s.mem.Read(0x41)) == 0x2E
    ensures Reaches(s, r) && r.pc == 0xC500 && r.sp == (s.sp - 2) % 0x100
    ensures r == s.(a := r.a, x := r.x, p := r.p, pc := r.pc, sp := r.sp, mem := r.mem)
    ensures r.mem.Read(0x100 + (r.sp + 1) % 0x100) == 0x28 && r.mem.Read(0x100 + (r.sp + 2) % 0x100) == 0xC8
    ensures r.mem.Read(0x41) == s.mem.Read(0x41) + 1
    ensures r.mem.Read(0xF2) == s.mem.Read(0xF0) && r.mem.Read(0xF3) == s.mem.Read(0xF1)
    ensures
      forall addr: word ::
        addr !in {0x41, 0xF2, 0xF3} && addr != 0x100 + s.sp && addr != 0x100 + (s.sp - 1) % 0x100 ==>
          r.mem.Read(addr) == s.mem.Read(addr)
  {
    hide Loaded, Run, Step, Reaches, Memory.Read, Memory.Write, LettersLoaded, RamBelowRom, Copied;
    var s1 := TestLine(s);
    var s2 := SkipCharacter(s1);
    ReachesThen(s, s1, s2);
    AfterSkip(s.mem, s2.mem);
    var s3 := CopyPointer(s2, 0xF0, 0xF2);
    ReachesThen(s, s2, s3);
    CopiedKeeps(s2.mem, s3.mem, 0xF0, 0xF2);
    r := CallParser(s3);
    ReachesThen(s, s3, r);
  }

  lemma AfterSkip(m1: Memory, m2: Memory)
    requires DispatchLoaded(m1) && RamBelowRom(m1) && InLine(m1) && m2 == m1.Write(0x41, m1.Read(0x41) + 1)
    ensures RamBelowRom(m2) && RangeLoaded(m2) && m2.Read(0x41) == m1.Read(0x41) + 1
    ensures forall addr: word :: addr != 0x41 ==> m2.Read(addr) == m1.Read(addr)
  {
    hide LettersLoaded, RangeLoaded;
    SameCode(m1, m2);
  }

  /** JSR PARSE_ADDR. */
  lemma CallParser(s: State) returns (r: State)
    requires !s.halted && s.pc == 0xC826 && RangeLoaded(s.mem) && RamBelowRom(s.mem)
    ensures Reaches(s, r) && r == s.(pc := 0xC500, sp := (s.sp - 2) % 0x100, mem := r.mem)
    ensures r.mem.Read(0x100 + (r.sp + 1) % 0x100) == 0x28 && r.mem.Read(0x100 + (r.sp + 2) % 0x100) == 0xC8
    ensures
      forall addr: word :: addr != 0x100 + s.sp && addr != 0x100 + (s.sp - 1) % 0x100 ==>
        r.mem.Read(addr) == s.mem.Read(addr)
  {
    hide Decode, Run, Loaded, TailLoaded;
    Opcodes();
    FiveBytes(s.mem, 0xC826, [0x20, 0x00, 0xC5]);
    ReachesStep(s);
    r := Step(s);
  }

  /** START and END change places. */
  lemma Exchange(s: State) returns (r: State)
    requires !s.halted && s.pc == 0xC82B && RangeLoaded(s.mem) && RamBelowRom(s.mem)
    ensures Reaches(s, r) && Same(s.(mem := r.mem), r) && r.pc == 0xC843 && RangeLoaded(r.mem)
    ensures r.mem.Read(0xF0) == s.mem.Read(0xF2) && r.mem.Read(0xF1) == s.mem.Read(0xF3)
    ensures r.mem.Read(0xF2) == s.mem.Read(0xF0) && r.mem.Read(0xF3) == s.mem.Read(0xF1)
    ensures
      forall addr: word :: addr !in {0xF0, 0xF1, 0xF2, 0xF3, 0xF5, 0xF6} ==> r.mem.Read(addr) == s.mem.Read(addr)
  {
    hide Loaded, Run, Step, Reaches, Memory.Read, TailLoaded, RamBelowRom, Copied;
    var s1 := CopyPointer(s, 0xF0, 0xF5);
    CopiedKeeps(s.mem, s1.mem, 0xF0, 0xF5);
    var s2 := CopyPointer(s1, 0xF2, 0xF0);
    CopiedKeeps(s1.mem, s2.mem, 0xF2, 0xF0);
    ReachesThen(s, s1, s2);
    r := CopyPointer(s2, 0xF5, 0xF2);
    CopiedKeeps(s2.mem, r.mem, 0xF5, 0xF2);
    ReachesThen(s, s2, r);
  }

  /** Where the text behind the second address leads: LIST at the end of the line, SAVE for a
      blank and an S, or the error line. */
  lemma TailRuns(s: State) returns (r: State)
    requires !s.halted && s.pc == 0xC843 && TailLoaded(s.mem) && s.mem.Read(0x41) <= s.mem.Read(0x40) <= 64
    ensures
      var pos, length := s.mem.Read(0x41), s.mem.Read(0x40);
      && Reaches(s, r) && Same(s, r)
      && r.pc == if pos == length then 0xCB00
                 else if s.mem.Read(pos) == 0x20 && pos + 1 < length && s.mem.Read(pos + 1) == 0x53 then 0xD000
                 else 0xC888
  {
    hide Loaded, Run, Step, Reaches, Memory.Read;
    var s1 := LoadA(s, 0x41);
    var s2 := CompareCellThen(s1, false, 0x40, false, 0x03);
    ReachesThen(s, s1, s2);
    if s.mem.Read(0x41) == s.mem.Read(0x40) {
      r := Jump(s2, 0x00, 0xCB);
      ReachesThen(s, s2, r);
      return;
    }
    var s3 := LoadX(s2, 0x41);
    ReachesThen(s, s2, s3);
    var s4 := LoadIndexed(s3, 0x00);
    ReachesThen(s, s3, s4);
    r := CompareThen(s4, 0x20, false, 0x34);
    ReachesThen(s, s4, r);
    if s4.a == 0x20 {
      var s5 := BehindBlank(r);
      ReachesThen(s, r, s5);
      r := s5;
    }
  }

  lemma BehindBlank(s: State) returns (r: State)
    requires !s.halted && s.pc == 0xC854 && TailLoaded(s.mem) && s.x < s.mem.Read(0x40) <= 64
    ensures Reaches(s, r) && Same(s, r)
    ensures r.pc == if s.x + 1 < s.mem.Read(0x40) && s.mem.Read(s.x + 1) == 0x53 then 0xD000 else 0xC888
  {
    hide Loaded, Run, Step, Reaches, Memory.Read;
    var s1 := IncrementX(s);
    var s2 := CompareCellThen(s1, true, 0x40, true, 0x2F);
    ReachesThen(s, s1, s2);
    if s1.x >= s.mem.Read(0x40) {
      r := s2;
      return;
    }
    var s3 := LoadIndexed(s2, 0x00);
    ReachesThen(s, s2, s3);
    r := CompareThen(s3, 0x53, false, 0x29);
    ReachesThen(s, s3, r);
    if s3.a == 0x53 {
      var s4 := Jump(r, 0x00, 0xD0);
      ReachesThen(s, r, s4);
      r := s4;
    }
  }

  /** From PARSE_ADDR's return on: the error line if it found no address; otherwise START and END
      are the two addresses in the order typed, and the rest of the line decides. */
  lemma RangeEnds(s: State) returns (r: State)
    requires !s.halted && s.pc == 0xC829 && RangeLoaded(s.mem) && RamBelowRom(s.mem)
    requires s.mem.Read(0x41) <= s.mem.Read(0x40) <= 64
    ensures Reaches(s, r)
    ensures s.p.c ==> r == s.(pc := 0xC888)
    ensures
      !s.p.c ==>
        var pos, length := s.mem.Read(0x41), s.mem.Read(0x40);
        && Same(s.(mem := r.mem), r)
        && r.mem.Read(0xF0) == s.mem.Read(0xF2) && r.mem.Read(0xF1) == s.mem.Read(0xF3)
        && r.mem.Read(0xF2) == s.mem.Read(0xF0) && r.mem.Read(0xF3) == s.mem.Read(0xF1)
        && r.pc == if pos == length then 0xCB00
                   else if s.mem.Read(pos) == 0x20 && pos + 1 < length && s.mem.Read(pos + 1) == 0x53 then 0xD000
                   else 0xC888
  {
    hide Loaded, Run, Step, Reaches, Memory.Read, TailLoaded, RamBelowRom;
    var s1 := TestFound(s);
    if s.p.c {
      r := s1;
      return;
    }
    var s2 := Exchange(s1);
    ReachesThen(s, s1, s2);
    r := TailRuns(s2);
    ReachesThen(s, s2, r);
  }

  /** BCS ERROR. */
  lemma TestFound(s: State) returns (r: State)
    requires !s.halted && s.pc == 0xC829 && RangeLoaded(s.mem)
    ensures Reaches(s, r) && r == s.(pc := if s.p.c then 0xC888 else 0xC82B)
  {
    hide Loaded, Run, Step, Memory.Read, TailLoaded;
    FiveBytes(s.mem, 0xC829, [0xB0, 0x5D]);
    StepBranch(s, true, 0x5D);
    ReachesStep(s);
    r := Step(s);
  }

  // ---------- the grammar ----------

  /** Where each routine begins. */
  function Entry(route: Commands.Route): word {
    match route
    case ToPeek => 0xCA00
    case ToList(_) => 0xCB00
    case ToPoke => 0xCC00
    case ToRun => 0xCD00
    case ToSave(_) => 0xD000
    case ToLoad => 0xD100
    case ToRewind => 0xD200
    case ToError => 0xC888
  }

  lemma LineCell(mem: Memory, i: nat)
    requires i < mem.Read(0x40)
    ensures LineEditor.Line(mem)[i] == mem.Read(i)
  {
  }

  /** The bytes in ROM enter the routine that the grammar names, for every line without a second
      address. */
  lemma DispatchFollowsGrammar(s: State) returns (r: State)
    requires !s.halted && s.pc == 0xC800 && DispatchLoaded(s.mem) && RamBelowRom(s.mem)
    requires s.mem.Read(0x41) <= s.mem.Read(0x40) <= 64
    requires s.mem.Read(0x41) < s.mem.Read(0x40) ==> s.mem.Read(s.mem.Read(0x41)) != 0x2E
    ensures Reaches(s, r) && r.pc == Entry(Commands.RouteOf(LineEditor.Line(s.mem), s.mem.Read(0x41)))
  {
    hide Loaded, Run, Step, Reaches, Memory.Read, Memory.Write, LineEditor.Line, RangeLoaded, RamBelowRom;
    r := DispatchRuns(s);
    var pos, length := s.mem.Read(0x41), s.mem.Read(0x40);
    if pos < length {
      LineCell(s.mem, pos);
    }
    if pos + 1 < length {
      LineCell(s.mem, pos + 1);
    }
  }

  /** With a second address PARSE_ADDR is called, and from its return on they enter the routine
      that the grammar names for the rest of the line. */
  lemma RangeFollowsGrammar(s: State, end: word) returns (r: State)
    requires !s.halted && s.pc == 0xC829 && RangeLoaded(s.mem) && RamBelowRom(s.mem)
    requires s.mem.Read(0x41) <= s.mem.Read(0x40) <= 64
    ensures
      var line, pos := LineEditor.Line(s.mem), s.mem.Read(0x41);
      && pos <= |line|
      && Reaches(s, r)
      && r.pc == Entry(if s.p.c then Commands.ToError else Commands.TailRoute(line, pos, end))
  {
    hide Loaded, Run, Step, Reaches, Memory.Read, LineEditor.Line, RangeLoaded, RamBelowRom;
    r := RangeEnds(s);
    var pos, length := s.mem.Read(0x41), s.mem.Read(0x40);
    if pos < length {
      LineCell(s.mem, pos);
    }
    if pos + 1 < length {
      LineCell(s.mem, pos + 1);
    }
  }
}
