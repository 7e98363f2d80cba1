/** HEXVAL and PRINT_NIBBLE as the bytes in ROM, run on the instruction set of module Isa.
    The contracts are those of the instruction-level models in module HexRoutines. */
module FirmwareBytes {
  import opened Words
  import opened FlatMemory
  import opened Instructions
  import opened Manual
  import opened Isa
  import opened HexText

  const HEXVAL: word := 0xC700
  const PRINT_NIBBLE: word := 0xC220
  const PUTCHAR: word := 0xC100

  /** HEXVAL tests three ranges of characters with the same thirteen bytes. */
  function RangeCode(low: byte, fail: byte, high: byte, sub: byte): seq<byte> {
    [0xC9, low, 0x90, fail, 0xC9, high, 0xB0, 0x05, 0x38, 0xE9, sub, 0x18, 0x60]
  }

  const HEXVAL_CODE: seq<byte> :=
    RangeCode(0x30, 0x23, 0x3A, 0x30) + RangeCode(0x41, 0x16, 0x47, 0x37) + RangeCode(0x61, 0x09, 0x67, 0x57)
    + [0x38, 0x60]

  const PRINT_NIBBLE_CODE: seq<byte> := [
    0xC9, 0x0A, 0x90, 0x05, 0x69, 0x36, 0x4C, 0x00, 0xC1, 0x69, 0x30, 0x4C, 0x00, 0xC1]

  const PUTCHAR_CODE: seq<byte> := [0x8D, 0x01, 0x80, 0x60]

  /** `code` lies in memory from `at` on. */
  ghost predicate Loaded(mem: Memory, at: word, code: seq<byte>)
    requires at + |code| <= 0x1_0000
  {
    forall i :: 0 <= i < |code| ==> mem.Read(at + i) == code[i]
  }

  lemma Opcodes()
    ensures Decode(0xC9) == Operand(Combine(OpCmp(A)), Immediate)
    ensures Decode(0xE9) == Operand(Combine(OpSbc), Immediate)
    ensures Decode(0x69) == Operand(Combine(OpAdc), Immediate)
    ensures Decode(0x8D) == Operand(Store(A), Absolute)
    ensures Decode(0x90) == Branch(C, false)
    ensures Decode(0xB0) == Branch(C, true)
    ensures Decode(0x38) == SetFlag(C, true)
    ensures Decode(0x18) == SetFlag(C, false)
    ensures Decode(0x60) == Rts
    ensures Decode(0x4C) == Jmp
  {
  }

  lemma {:induction false} RunInTwo(s: State, m: nat, n: nat)
    ensures Run(s, m + n) == Run(Run(s, m), n)
    decreases m
  {
    hide Step;
    if m > 0 && !s.halted {
      RunInTwo(Step(s), m - 1, n);
    } else if m > 0 {
      assert Run(s, m + n) == s;
    }
  }

  lemma RunTwo(s: State)
    requires !s.halted && !Step(s).halted
    ensures Run(s, 2) == Step(Step(s))
  {
    hide Step;
  }

  lemma FiveBytes(mem: Memory, at: word, code: seq<byte>)
    requires at < 0xFF00 && |code| <= 5 && Loaded(mem, at, code)
    ensures |code| > 0 ==> mem.Read(at) == code[0]
    ensures |code| > 1 ==> mem.Read(at + 1) == code[1]
    ensures |code| > 2 ==> mem.Read(at + 2) == code[2]
    ensures |code| > 3 ==> mem.Read(at + 3) == code[3]
    ensures |code| > 4 ==> mem.Read(at + 4) == code[4]
  {
    assert |code| > 0 ==> mem.Read(at + 0) == code[0];
  }

  // ---------- single instructions ----------

  /** CMP #v. */
  lemma StepCompare(s: State, v: byte)
    requires s.pc < 0xFF00 && s.mem.Read(s.pc) == 0xC9 && s.mem.Read(s.pc + 1) == v
    ensures Step(s) == s.(pc := s.pc + 2, p := Compare(s.p, s.a, v))
  {
    hide Decode;
    Opcodes();
  }

  /** A forward BCC (`when` false) or BCS (`when` true). */
  lemma StepBranch(s: State, when: bool, ahead: byte)
    requires s.pc < 0xFF00 && ahead < 0x80
    requires s.mem.Read(s.pc) == (if when then 0xB0 else 0x90) && s.mem.Read(s.pc + 1) == ahead
    ensures Step(s) == s.(pc := if s.p.c == when then s.pc + 2 + ahead else s.pc + 2)
  {
    hide Decode;
    Opcodes();
  }

  /** SEC or CLC. */
  lemma StepCarry(s: State, v: bool)
    requires s.pc < 0xFF00 && s.mem.Read(s.pc) == (if v then 0x38 else 0x18)
    ensures Step(s) == s.(pc := s.pc + 1, p := s.p.(c := v))
  {
    hide Decode;
    Opcodes();
  }

  /** SBC #v or ADC #v. */
  lemma StepArithmetic(s: State, v: byte)
    requires s.pc < 0xFF00 && s.mem.Read(s.pc) in {0xE9, 0x69} && s.mem.Read(s.pc + 1) == v
    ensures
      var r := Step(s);
      var sum: int := if s.mem.Read(s.pc) == 0x69 then s.a + v + Bit(s.p.c) else s.a - v - Bit(!s.p.c);
      r == s.(pc := s.pc + 2, a := sum % 0x100, p := r.p)
  {
    hide Decode;
    Opcodes();
  }

  /** Where RTS goes. */
  function ReturnAddress(s: State): word {
    Inc16(Word(Pulled(s), PulledSecond(s)))
  }

  /** RTS. */
  lemma StepReturn(s: State)
    requires s.mem.Read(s.pc) == 0x60
    ensures Step(s) == s.(pc := ReturnAddress(s), sp := Inc8(Inc8(s.sp)))
  {
    hide Decode;
    Opcodes();
  }

  /** JMP. */
  lemma StepJump(s: State, target: word)
    requires s.pc < 0xFF00 && s.mem.Read(s.pc) == 0x4C
    requires s.mem.Read(s.pc + 1) == Lo(target) && s.mem.Read(s.pc + 2) == Hi(target)
    ensures Step(s) == s.(pc := target)
  {
    hide Decode;
    Opcodes();
  }

  /** STA to an address that no device of the memory model holds. */
  lemma StepStore(s: State, target: word)
    requires s.pc < 0xFF00 && s.mem.Read(s.pc) == 0x8D && target !in s.mem.ram
    requires s.mem.Read(s.pc + 1) == Lo(target) && s.mem.Read(s.pc + 2) == Hi(target)
    ensures Step(s) == s.(pc := s.pc + 3)
  {
    hide Decode;
    Opcodes();
  }

  // ---------- pieces of code ----------

  /** CMP #v and a forward branch on the carry. */
  lemma CompareAndBranch(s: State, v: byte, when: bool, ahead: byte)
    requires !s.halted && s.pc < 0xFE00 && ahead < 0x80
    requires Loaded(s.mem, s.pc, [0xC9, v, if when then 0xB0 else 0x90, ahead])
    ensures
      var r := Run(s, 2);
      && r == s.(pc := r.pc, p := r.p) && r.p.c == (s.a >= v)
      && r.pc == if (s.a >= v) == when then s.pc + 4 + ahead else s.pc + 4
  {
    hide Step, Run, Loaded, Memory.Read;
    FiveBytes(s.mem, s.pc, [0xC9, v, if when then 0xB0 else 0x90, ahead]);
    StepCompare(s, v);
    StepBranch(Step(s), when, ahead);
    RunTwo(s);
  }

  /** The state after a routine that changed only A and the flags has returned. */
  predicate Returned(s: State, r: State) {
    r == s.(a := r.a, p := r.p, pc := ReturnAddress(s), sp := Inc8(Inc8(s.sp)))
  }

  /** SEC, SBC #v, CLC, RTS. */
  lemma SubtractAndReturn(s: State, v: byte)
    requires !s.halted && s.pc < 0xFE00 && s.a >= v
    requires Loaded(s.mem, s.pc, [0x38, 0xE9, v, 0x18, 0x60])
    ensures
      var r := Run(s, 4);
      Returned(s, r) && r.a == s.a - v && !r.p.c
  {
    hide Step, Run, Loaded, Memory.Read;
    FiveBytes(s.mem, s.pc, [0x38, 0xE9, v, 0x18, 0x60]);
    StepCarry(s, true);
    var s1 := Step(s);
    StepArithmetic(s1, v);
    var s2 := Step(s1);
    StepCarry(s2, false);
    StepReturn(Step(s2));
    RunTwo(s);
    RunTwo(s2);
    RunInTwo(s, 2, 2);
  }

  /** SEC, RTS. */
  lemma FailAndReturn(s: State)
    requires !s.halted && s.pc < 0xFE00 && Loaded(s.mem, s.pc, [0x38, 0x60])
    ensures
      var r := Run(s, 2);
      Returned(s, r) && r.a == s.a && r.p.c
  {
    hide Step, Run, Loaded, Memory.Read;
    FiveBytes(s.mem, s.pc, [0x38, 0x60]);
    StepCarry(s, true);
    StepReturn(Step(s));
    RunTwo(s);
  }

  /** A part of loaded code is loaded. */
  lemma LoadedPart(mem: Memory, at: word, code: seq<byte>, from: nat, to: nat)
    requires at + |code| <= 0x1_0000 && Loaded(mem, at, code) && from < to <= |code|
    ensures at + from <= 0xFFFF && Loaded(mem, at + from, code[from..to])
  {
    forall i | 0 <= i < to - from
      ensures mem.Read(at + from + i) == code[from..to][i]
    {
      assert mem.Read(at + (from + i)) == code[from + i];
    }
  }

  /** The state with nothing but the flags changed and control at `pc`. */
  predicate Reached(s: State, r: State, pc: word) {
    r == s.(pc := pc, p := r.p)
  }

  // ---------- HEXVAL ----------

  /** One range: below it control goes `fail` ahead, above it to what follows, and in it
      the routine returns with the bias subtracted. */
  lemma RangeRuns(s: State, low: byte, fail: byte, high: byte, sub: byte)
    requires !s.halted && s.pc < 0xFD00 && fail < 0x80 && sub <= low < high
    requires Loaded(s.mem, s.pc, RangeCode(low, fail, high, sub))
    ensures s.a < low ==> Reached(s, Run(s, 2), s.pc + 4 + fail)
    ensures s.a >= high ==> Reached(s, Run(s, 4), s.pc + 13)
    ensures low <= s.a < high ==> Returned(s, Run(s, 8)) && Run(s, 8).a == s.a - sub && !Run(s, 8).p.c
  {
    hide Step, Run, Loaded;
    var code := RangeCode(low, fail, high, sub);
    LoadedPart(s.mem, s.pc, code, 0, 4);
    LoadedPart(s.mem, s.pc, code, 4, 8);
    LoadedPart(s.mem, s.pc, code, 8, 13);
    assert code[0..4] == [0xC9, low, 0x90, fail] && code[4..8] == [0xC9, high, 0xB0, 0x05];
    assert code[8..13] == [0x38, 0xE9, sub, 0x18, 0x60];
    CompareAndBranch(s, low, false, fail);
    if s.a >= low {
      var s1 := Run(s, 2);
      CompareAndBranch(s1, high, true, 5);
      RunInTwo(s, 2, 2);
      if s.a < high {
        SubtractAndReturn(Run(s1, 2), sub);
        RunInTwo(s, 4, 4);
      }
    }
  }

  /** Instructions HEXVAL takes, its RTS included. */
  function HexvalSteps(ch: byte): nat {
    if ch < 0x30 then 4
    else if ch < 0x41 then 8
    else if ch < 0x61 then 12
    else if ch < 0x67 then 16
    else 14
  }

  /** The answer of HEXVAL in terms of its model. */
  predicate Converted(s: State, r: State) {
    && Returned(s, r)
    && r.p.c == !IsHex(s.a)
    && r.a == if IsHex(s.a) then DigitValue(s.a) else s.a
  }

  /** INVALID ($C727), reached after `n` instructions. */
  lemma Rejected(s: State, n: nat)
    requires !s.halted && Loaded(s.mem, HEXVAL, HEXVAL_CODE) && !IsHex(s.a) && Reached(s, Run(s, n), 0xC727)
    ensures Converted(s, Run(s, n + 2))
  {
    hide Step, Run, Loaded;
    LoadedPart(s.mem, HEXVAL, HEXVAL_CODE, 0x27, 0x29);
    assert HEXVAL_CODE[0x27..0x29] == [0x38, 0x60];
    FailAndReturn(Run(s, n));
    RunInTwo(s, n, 2);
  }

  lemma HexvalRanges(mem: Memory)
    requires Loaded(mem, HEXVAL, HEXVAL_CODE)
    ensures Loaded(mem, 0xC700, RangeCode(0x30, 0x23, 0x3A, 0x30))
    ensures Loaded(mem, 0xC70D, RangeCode(0x41, 0x16, 0x47, 0x37))
    ensures Loaded(mem, 0xC71A, RangeCode(0x61, 0x09, 0x67, 0x57))
  {
    hide Loaded;
    LoadedPart(mem, HEXVAL, HEXVAL_CODE, 0, 13);
    LoadedPart(mem, HEXVAL, HEXVAL_CODE, 13, 26);
    LoadedPart(mem, HEXVAL, HEXVAL_CODE, 26, 39);
    assert HEXVAL_CODE[0..13] == RangeCode(0x30, 0x23, 0x3A, 0x30);
    assert HEXVAL_CODE[13..26] == RangeCode(0x41, 0x16, 0x47, 0x37);
    assert HEXVAL_CODE[26..39] == RangeCode(0x61, 0x09, 0x67, 0x57);
  }

  /** HEXVAL's bytes, run from their first one, return what the instruction-level model
      says: the digit's value with carry clear, or A kept with carry set. */
  lemma HexvalRuns(s: State)
    requires !s.halted && s.pc == HEXVAL && Loaded(s.mem, HEXVAL, HEXVAL_CODE)
    ensures Converted(s, Run(s, HexvalSteps(s.a)))
  {
    hide Step, Run, Loaded, RangeCode;
    HexvalRanges(s.mem);
    RangeRuns(s, 0x30, 0x23, 0x3A, 0x30);
    if s.a < 0x30 {
      Rejected(s, 2);
    } else if s.a >= 0x3A {
      var s1 := Run(s, 4);
      RangeRuns(s1, 0x41, 0x16, 0x47, 0x37);
      RunInTwo(s, 4, 2);
      RunInTwo(s, 4, 4);
      RunInTwo(s, 4, 8);
      if s.a < 0x41 {
        Rejected(s, 6);
      } else if s.a >= 0x47 {
        var s2 := Run(s, 8);
        RangeRuns(s2, 0x61, 0x09, 0x67, 0x57);
        RunInTwo(s, 8, 2);
        RunInTwo(s, 8, 4);
        RunInTwo(s, 8, 8);
        if s.a < 0x61 {
          Rejected(s, 10);
        } else if s.a >= 0x67 {
          Rejected(s, 12);
        }
      }
    }
  }

  // ---------- PRINT_NIBBLE ----------

  /** PRINT_NIBBLE's bytes, run from their first one, reach PUTCHAR with the nibble's digit
      in A after four instructions; PUTCHAR's two return to PRINT_NIBBLE's caller. */
  lemma PrintNibbleRuns(s: State)
    requires !s.halted && s.pc == PRINT_NIBBLE && s.a < 0x10 && 0x8001 !in s.mem.ram
    requires Loaded(s.mem, PRINT_NIBBLE, PRINT_NIBBLE_CODE) && Loaded(s.mem, PUTCHAR, PUTCHAR_CODE)
    ensures Run(s, 4).pc == PUTCHAR && Run(s, 4).a == Digit(s.a)
    ensures Returned(s, Run(s, 6)) && Run(s, 6).a == Digit(s.a)
  {
    hide Step, Run, Loaded;
    var code := PRINT_NIBBLE_CODE;
    LoadedPart(s.mem, s.pc, code, 0, 4);
    LoadedPart(s.mem, s.pc, code, 4, 9);
    LoadedPart(s.mem, s.pc, code, 9, 14);
    assert code[0..4] == [0xC9, 0x0A, 0x90, 0x05];
    assert code[4..9] == [0x69, 0x36, 0x4C, 0x00, 0xC1] && code[9..14] == [0x69, 0x30, 0x4C, 0x00, 0xC1];
    CompareAndBranch(s, 0x0A, false, 5);
    var s1 := Run(s, 2);
    AddAndPrint(s1, if s.a < 10 then 0x30 else 0x36);
    RunInTwo(s, 2, 2);
    RunInTwo(s, 2, 4);
  }

  /** ADC #v, JMP PUTCHAR, and PUTCHAR itself. */
  lemma AddAndPrint(s: State, v: byte)
    requires !s.halted && s.pc < 0xFE00 && s.a + v + Bit(s.p.c) <= 0xFF && 0x8001 !in s.mem.ram
    requires Loaded(s.mem, s.pc, [0x69, v, 0x4C, 0x00, 0xC1]) && Loaded(s.mem, PUTCHAR, PUTCHAR_CODE)
    ensures
      var sum := s.a + v + Bit(s.p.c);
      && Run(s, 2).pc == PUTCHAR && Run(s, 2).a == sum
      && Returned(s, Run(s, 4)) && Run(s, 4).a == sum
  {
    hide Step, Run, Loaded, Memory.Read;
    FiveBytes(s.mem, s.pc, [0x69, v, 0x4C, 0x00, 0xC1]);
    StepArithmetic(s, v);
    StepJump(Step(s), PUTCHAR);
    RunTwo(s);
    PutcharRuns(Run(s, 2));
    RunInTwo(s, 2, 2);
  }

  /** PUTCHAR's two instructions; the store itself is the device's business. */
  lemma PutcharRuns(s: State)
    requires !s.halted && s.pc == PUTCHAR && 0x8001 !in s.mem.ram && Loaded(s.mem, PUTCHAR, PUTCHAR_CODE)
    ensures Returned(s, Run(s, 2)) && Run(s, 2).a == s.a
  {
    hide Step, Run, Loaded, Memory.Read;
    FiveBytes(s.mem, PUTCHAR, PUTCHAR_CODE);
    StepStore(s, 0x8001);
    StepReturn(Step(s));
    RunTwo(s);
  }
}
