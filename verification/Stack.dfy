/** The stack page under a wrapping stack pointer, as the whole-instruction semantics
    uses it: a last-in-first-out store of up to 256 bytes, and what that means for runs
    of nested calls and saved registers. */
module StackDiscipline {
  import opened Words
  import opened FlatMemory
  import opened Instructions
  import opened Isa

  /** Page one is RAM. */
  ghost predicate StackInRam(s: State) {
    forall k: byte :: StackCell(k) in s.mem.ram
  }

  /** The cell of the `i`-th most recently pushed byte. */
  function Cell(sp: byte, i: nat): word {
    StackCell((sp + 1 + i) % 0x100)
  }

  /** The `n` most recently pushed bytes, newest first. */
  function Stacked(s: State, n: nat): (r: seq<byte>)
    ensures |r| == n
  {
    seq(n, i requires 0 <= i < n => s.mem.Read(Cell(s.sp, i)))
  }

  // ---------- last in, first out ----------

  lemma PushIsCons(s: State, v: byte, n: nat)
    requires StackInRam(s) && n <= 0xFF
    ensures Stacked(PushByte(s, v), n + 1) == [v] + Stacked(s, n)
    ensures StackInRam(PushByte(s, v))
  {
    var t := PushByte(s, v);
    forall i | 0 <= i < n + 1
      ensures Stacked(t, n + 1)[i] == ([v] + Stacked(s, n))[i]
    {
      assert Cell(t.sp, i) == StackCell((s.sp + i) % 0x100);
    }
  }

  lemma PullIsHead(s: State, n: nat)
    requires 0 < n
    ensures Pulled(s) == Stacked(s, n)[0]
    ensures Stacked(s.(sp := Inc8(s.sp)), n - 1) == Stacked(s, n)[1..]
  {
    forall i | 0 <= i < n - 1
      ensures Stacked(s.(sp := Inc8(s.sp)), n - 1)[i] == Stacked(s, n)[1..][i]
    {
      assert Cell(Inc8(s.sp), i) == Cell(s.sp, i + 1);
    }
  }

  /** The 257th byte overwrites the first: on a full stack a push keeps the bytes below it
      exactly when the oldest of them has the value pushed. */
  lemma PushOnFullStack(s: State, v: byte)
    requires StackInRam(s)
    ensures Stacked(PushByte(s, v), 0x101) == [v] + Stacked(s, 0x100) <==> Stacked(s, 0x100)[0xFF] == v
  {
    var t := PushByte(s, v);
    PushIsCons(s, v, 0xFF);
    assert Cell(t.sp, 0x100) == StackCell(s.sp) && Cell(s.sp, 0xFF) == StackCell(s.sp);
    assert Stacked(t, 0x101)[0x100] == v;
    assert ([v] + Stacked(s, 0x100))[0x100] == Stacked(s, 0x100)[0xFF];
    forall i | 0 <= i < 0x100
      ensures Stacked(t, 0x101)[i] == ([v] + Stacked(s, 0x100))[i]
    {
      assert Stacked(t, 0x101)[i] == Stacked(t, 0x100)[i] == ([v] + Stacked(s, 0xFF))[i];
      assert i > 0 ==> Stacked(s, 0xFF)[i - 1] == Stacked(s, 0x100)[i - 1];
    }
  }

  lemma PushWordIsCons(s: State, w: word, n: nat)
    requires StackInRam(s) && n <= 0xFE
    ensures Stacked(PushWord(s, w), n + 2) == [Lo(w), Hi(w)] + Stacked(s, n)
    ensures StackInRam(PushWord(s, w))
  {
    PushIsCons(s, Hi(w), n);
    PushIsCons(PushByte(s, Hi(w)), Lo(w), n + 1);
  }

  lemma PullWord(s: State, n: nat)
    requires 2 <= n
    ensures Pulled(s) == Stacked(s, n)[0] && PulledSecond(s) == Stacked(s, n)[1]
    ensures Stacked(s.(sp := Inc8(Inc8(s.sp))), n - 2) == Stacked(s, n)[2..]
  {
    var s1 := s.(sp := Inc8(s.sp));
    PullIsHead(s, n);
    PullIsHead(s1, n - 1);
    assert s1.(sp := Inc8(s1.sp)) == s.(sp := Inc8(Inc8(s.sp)));
    assert Stacked(s, n)[1..][1..] == Stacked(s, n)[2..];
  }

  /** What a register or PC change leaves of the stack. */
  lemma SameStack(s: State, t: State, n: nat)
    requires s.sp == t.sp && s.mem == t.mem
    ensures Stacked(s, n) == Stacked(t, n)
  {
  }

  /** Only the stack instructions and TXS move SP. */
  lemma OthersKeepSp(i: Instr, s: State)
    requires !(i.Brk? || i.Jsr? || i.Rts? || i.Rti? || i.Push? || i.Pull?)
    requires i.Transfer? ==> i.dst != S
    requires i.IncDec? ==> i.reg != S
    requires i.Operand? && i.use.Load? ==> i.use.dst != S
    ensures Exec(i, s).sp == s.sp
    ensures Exec(i, s).mem != s.mem ==> i.Operand? && (i.use.Store? || i.use.Modify?)
  {
  }

  // ---------- runs of nested calls ----------

  /** The shape of a well-nested run: plain instructions; JSR, a nested run, RTS; a push
      of A or P, a nested run, the matching pull. */
  datatype Nest =
    | Done
    | Plain(next: Nest)
    | Call(body: Nest, next: Nest)
    | Save(status: bool, body: Nest, next: Nest)

  /** Stack bytes the run needs at its deepest. */
  function Need(n: Nest): nat {
    match n
    case Done => 0
    case Plain(next) => Need(next)
    case Call(body, next) => Max(2 + Need(body), Need(next))
    case Save(_, body, next) => Max(1 + Need(body), Need(next))
  }

  function Max(a: nat, b: nat): nat { if a < b then b else a }

  function End(n: Nest, s: State): State
    decreases n
  {
    match n
    case Done => s
    case Plain(next) => End(next, Step(s))
    case Call(body, next) => End(next, Step(End(body, Step(s))))
    case Save(_, body, next) => End(next, Step(End(body, Step(s))))
  }

  /** The run from `s` has the shape `n`, and its plain instructions leave SP and the
      `live` bytes of the enclosing frames alone. */
  ghost predicate Follows(n: Nest, s: State, live: nat)
    decreases n
  {
    match n
    case Done => true
    case Plain(next) =>
      var t := Step(s);
      && t.sp == s.sp && Stacked(t, live) == Stacked(s, live) && StackInRam(t)
      && Follows(next, t, live)
    case Call(body, next) =>
      var e := End(body, Step(s));
      && Decode(Opcode(s)) == Jsr && Follows(body, Step(s), live + 2)
      && Decode(Opcode(e)) == Rts && Follows(next, Step(e), live)
    case Save(status, body, next) =>
      var e := End(body, Step(s));
      && Decode(Opcode(s)) == Push(status) && Follows(body, Step(s), live + 1)
      && Decode(Opcode(e)) == Pull(status) && Follows(next, Step(e), live)
  }

  /** Every call in the run returns to the instruction after its JSR and every pull gives
      back what was pushed, SP restored. */
  ghost predicate Returns(n: Nest, s: State)
    decreases n
  {
    match n
    case Done => true
    case Plain(next) => Returns(next, Step(s))
    case Call(body, next) =>
      var back := Step(End(body, Step(s)));
      && back.pc == (s.pc + 3) % 0x1_0000 && back.sp == s.sp
      && Returns(body, Step(s)) && Returns(next, back)
    case Save(status, body, next) =>
      var back := Step(End(body, Step(s)));
      && (if status then back.p == s.p.(b := true) else back.a == s.a) && back.sp == s.sp
      && Returns(body, Step(s)) && Returns(next, back)
  }

  /** Reading a byte's flags off one bit at a time, as FlagsOf does. */
  lemma LowBit(n: nat, flag: bool, rest: nat)
    requires n == Bit(flag) + 2 * rest
    ensures n % 2 == Bit(flag) && n / 2 == rest
  {
  }

  /** Four bits packed under `rest` come apart again. */
  lemma Nibble(n: nat, b0: bool, b1: bool, b2: bool, b3: bool, rest: nat)
    requires n == Bit(b0) + 2 * Bit(b1) + 4 * Bit(b2) + 8 * Bit(b3) + 16 * rest
    ensures (n % 2 == 1) == b0 && (n / 2 % 2 == 1) == b1 && (n / 2 / 2 % 2 == 1) == b2
    ensures (n / 2 / 2 / 2 % 2 == 1) == b3
    ensures n / 2 / 2 / 2 / 2 == rest
  {
    var r3 := Bit(b3) + 2 * rest;
    var r2 := Bit(b2) + 2 * r3;
    LowBit(n, b0, Bit(b1) + 2 * r2);
    LowBit(n / 2, b1, r2);
    LowBit(n / 2 / 2, b2, r3);
    LowBit(n / 2 / 2 / 2, b3, rest);
  }

  /** PLP and RTI read back exactly the flags PHP and BRK wrote. */
  lemma FlagsRoundTrip(p: Flags)
    ensures FlagsOf(p.ToByte()) == p
  {
    var n, high := p.ToByte(), p.ToByte() / 2 / 2 / 2 / 2;
    LowFlags(p, n);
    HighFlags(p, high);
  }

  lemma LowFlags(p: Flags, n: byte)
    requires n == p.ToByte()
    ensures (n % 2 == 1) == p.c && (n / 2 % 2 == 1) == p.z
    ensures (n / 2 / 2 % 2 == 1) == p.i && (n / 2 / 2 / 2 % 2 == 1) == p.d
    ensures n / 2 / 2 / 2 / 2 == Bit(p.b) + 2 * Bit(p.u) + 4 * Bit(p.v) + 8 * Bit(p.n)
  {
    Nibble(n, p.c, p.z, p.i, p.d, Bit(p.b) + 2 * Bit(p.u) + 4 * Bit(p.v) + 8 * Bit(p.n));
  }

  lemma HighFlags(p: Flags, n: nat)
    requires n == Bit(p.b) + 2 * Bit(p.u) + 4 * Bit(p.v) + 8 * Bit(p.n)
    ensures (n % 2 == 1) == p.b && (n / 2 % 2 == 1) == p.u
    ensures (n / 2 / 2 % 2 == 1) == p.v && (n / 2 / 2 / 2 % 2 == 1) == p.n
  {
    Nibble(n, p.b, p.u, p.v, p.n, 0);
  }

  lemma ReturnAddress(pc: word)
    ensures
      var pushed := Inc16(Inc16(pc));
      Word(Lo(pushed), Hi(pushed)) == (pc + 2) % 0x1_0000 && Inc16(pushed) == (pc + 3) % 0x1_0000
  {
  }

  lemma SameRam(s: State, t: State)
    requires StackInRam(s) && s.mem.ram.Keys == t.mem.ram.Keys
    ensures StackInRam(t)
  {
  }

  /** A JSR and the RTS that finds its frame on top of the stack. */
  lemma CallReturns(s: State, e: State, live: nat)
    requires StackInRam(s) && live <= 0xFE
    requires e.sp == Exec(Jsr, s).sp && Stacked(e, live + 2) == Stacked(Exec(Jsr, s), live + 2)
    ensures Exec(Rts, e).pc == (s.pc + 3) % 0x1_0000
    ensures Exec(Rts, e).sp == s.sp && Stacked(Exec(Rts, e), live) == Stacked(s, live)
  {
    hide Stacked, StackInRam;
    var pc := Inc16(Inc16(s.pc));
    var s1 := s.(pc := pc);
    SameStack(s, s1, live);
    SameRam(s, s1);
    PushWordIsCons(s1, pc, live);
    SameStack(JsrPushed(s), Exec(Jsr, s), live + 2);
    PullWord(e, live + 2);
    SameStack(e.(sp := Inc8(Inc8(e.sp))), Exec(Rts, e), live);
    ReturnAddress(s.pc);
  }

  /** A push and the pull that finds its byte on top of the stack. */
  lemma SaveRestores(s: State, e: State, status: bool, live: nat)
    requires StackInRam(s) && live <= 0xFF
    requires e.sp == Exec(Push(status), s).sp
    requires Stacked(e, live + 1) == Stacked(Exec(Push(status), s), live + 1)
    ensures
      var back := Exec(Pull(status), e);
      && (if status then back.p == s.p.(b := true) else back.a == s.a)
      && back.sp == s.sp && Stacked(back, live) == Stacked(s, live)
  {
    var s1 := if status then s.(pc := Inc16(s.pc), p := s.p.(b := true)) else s.(pc := Inc16(s.pc));
    var v: byte := if status then s1.p.ToByte() else s.a;
    SameStack(s, s1, live);
    PushIsCons(s1, v, live);
    PullIsHead(e, live + 1);
    SameStack(e.(sp := Inc8(e.sp)), Exec(Pull(status), e), live);
    FlagsRoundTrip(s1.p);
  }

  /** Well-nested runs that fit the 256-byte stack return every call to the instruction
      after it and restore every saved register, from any starting SP. */
  lemma {:induction false} WellNestedRunsReturn(n: Nest, s: State, live: nat)
    requires Follows(n, s, live) && StackInRam(s)
    requires live + Need(n) <= 0x100
    ensures Returns(n, s)
    ensures End(n, s).sp == s.sp && Stacked(End(n, s), live) == Stacked(s, live) && StackInRam(End(n, s))
    decreases n
  {
    hide Decode, Exec;
    match n
    case Done =>
    case Plain(next) =>
      WellNestedRunsReturn(next, Step(s), live);
    case Call(body, next) =>
      var e := End(body, Step(s));
      JsrKeepsRam(s);
      WellNestedRunsReturn(body, Step(s), live + 2);
      CallReturns(s, e, live);
      RtsKeepsMemory(e);
      WellNestedRunsReturn(next, Step(e), live);
    case Save(status, body, next) =>
      var e := End(body, Step(s));
      PushKeepsRam(s, status);
      WellNestedRunsReturn(body, Step(s), live + 1);
      SaveRestores(s, e, status, live);
      PullKeepsMemory(e, status);
      WellNestedRunsReturn(next, Step(e), live);
  }

  lemma JsrKeepsRam(s: State)
    requires StackInRam(s)
    ensures StackInRam(Exec(Jsr, s))
  {
  }

  lemma PushKeepsRam(s: State, status: bool)
    requires StackInRam(s)
    ensures StackInRam(Exec(Push(status), s))
  {
  }

  lemma RtsKeepsMemory(s: State)
    requires StackInRam(s)
    ensures StackInRam(Exec(Rts, s))
  {
  }

  lemma PullKeepsMemory(s: State, status: bool)
    requires StackInRam(s)
    ensures StackInRam(Exec(Pull(status), s))
  {
  }

  // ---------- calls nested too deep ----------

  /** JSRs nested `d` deep. */
  function CallsOnly(d: nat): Nest {
    if d == 0 then Done else Call(CallsOnly(d - 1), Done)
  }

  lemma {:induction false} CallsNeedTwoBytesEach(d: nat)
    ensures Need(CallsOnly(d)) == 2 * d
  {
    if d != 0 {
      CallsNeedTwoBytesEach(d - 1);
    }
  }

  /** The state after `d` JSRs in a row, each at the start of the routine called. */
  function Descend(s: State, d: nat): State {
    if d == 0 then s else Exec(Jsr, Descend(s, d - 1))
  }

  /** The state after `d` RTSs in a row. */
  function Ascend(e: State, d: nat): State {
    if d == 0 then e else Exec(Rts, Ascend(e, d - 1))
  }

  /** Of `d` nested calls, the one whose frame lies in the outermost call's cells in the end:
      every 128th call writes there again. */
  function LastOwner(d: nat): nat
    requires d > 0
  {
    (d - 1) / 128 * 128
  }

  /** After `d` JSRs the outermost frame holds the return address of call LastOwner(d). */
  lemma {:induction false} OutermostFrame(s: State, d: nat)
    requires StackInRam(s) && d > 0
    ensures
      var e, w := Descend(s, d), Inc16(Inc16(Descend(s, LastOwner(d)).pc));
      && StackInRam(e) && e.sp == (s.sp - 2 * d) % 0x100
      && e.mem.Read(StackCell(s.sp)) == Hi(w) && e.mem.Read(StackCell(Dec8(s.sp))) == Lo(w)
  {
    hide StackInRam, Memory.Write, Memory.Read, Exec, LastOwner, Hi, Lo, Inc16;
    var t := Descend(s, d - 1);
    if d > 1 {
      OutermostFrame(s, d - 1);
    }
    JsrKeepsRam(t);
    JsrFrame(t);
    LaterFrame(s.sp, t.sp, d - 1);
    OwnerOfNext(d - 1);
  }

  /** The two cells a JSR writes, and that it writes no others. */
  lemma JsrFrame(t: State)
    requires StackInRam(t)
    ensures
      var e, w := Exec(Jsr, t), Inc16(Inc16(t.pc));
      && e.sp == Dec8(Dec8(t.sp))
      && e.mem.Read(StackCell(t.sp)) == Hi(w) && e.mem.Read(StackCell(Dec8(t.sp))) == Lo(w)
      && forall k: byte :: k != t.sp && k != Dec8(t.sp) ==> e.mem.Read(StackCell(k)) == t.mem.Read(StackCell(k))
  {
    hide Lo, Hi;
  }

  lemma OwnerOfNext(k: nat)
    ensures k % 128 == 0 ==> LastOwner(k + 1) == k
    ensures k % 128 != 0 ==> k > 0 && LastOwner(k + 1) == LastOwner(k)
  {
  }

  /** Frame `k` lies in the cells of frame 0 exactly when 128 divides k, and otherwise clear
      of them. */
  lemma LaterFrame(sp: byte, later: byte, k: nat)
    requires later == (sp - 2 * k) % 0x100
    ensures k % 128 == 0 ==> later == sp
    ensures k % 128 != 0 ==> sp != later && sp != Dec8(later) && Dec8(sp) != later && Dec8(sp) != Dec8(later)
    ensures Dec8(Dec8(later)) == (sp - 2 * (k + 1)) % 0x100
  {
    hide Dec8;
    var q, r := k / 128, k % 128;
    var low := if sp >= 2 * r then sp - 2 * r else sp - 2 * r + 0x100;
    var pages := if sp >= 2 * r then -q else -q - 1;
    assert sp - 2 * k == 0x100 * pages + low;
    PlusPages(sp - 2 * k, pages, low);
    ClearOfFrame(sp, later, r);
    TwoLower(sp - 2 * k, pages, later);
  }

  lemma ClearOfFrame(sp: byte, later: byte, r: nat)
    requires r < 128 && (later == sp - 2 * r || later == sp - 2 * r + 0x100)
    ensures r != 0 ==> sp != later && sp != Dec8(later) && Dec8(sp) != later && Dec8(sp) != Dec8(later)
  {
  }

  lemma TwoLower(n: int, pages: int, b: byte)
    requires n == 0x100 * pages + b
    ensures Dec8(Dec8(b)) == (n - 2) % 0x100
  {
    if b < 2 {
      PlusPages(n - 2, pages - 1, b + 0xFE);
    } else {
      PlusPages(n - 2, pages, b - 2);
    }
  }

  lemma BackUp(sp: byte, d: nat)
    requires d > 0
    ensures ((sp - 2 * d) % 0x100 + 2 * d) % 0x100 == sp
    ensures ((sp - 2 * d) % 0x100 + 2 * (d - 1)) % 0x100 == Dec8(Dec8(sp))
  {
    var q := (sp - 2 * d) / 0x100;
    var low := (sp - 2 * d) % 0x100;
    assert low + 2 * d == sp - 0x100 * q;
    PlusPages(low + 2 * d, -q, sp);
    PlusPages(low + 2 * (d - 1), if sp < 2 then -q - 1 else -q, Dec8(Dec8(sp)));
  }

  lemma PlusPages(n: int, q: int, b: byte)
    requires n == 0x100 * q + b
    ensures n % 0x100 == b
  {
  }

  lemma RtsKeeps(e: State)
    ensures Exec(Rts, e).mem == e.mem && Exec(Rts, e).sp == Inc8(Inc8(e.sp))
  {
  }

  lemma TwoUp(sp: byte, d: nat)
    requires d > 0
    ensures Inc8(Inc8((sp + 2 * (d - 1)) % 0x100)) == (sp + 2 * d) % 0x100
  {
  }

  /** RTSs read the stack and leave it as it is. */
  lemma {:induction false} AscendKeeps(e: State, d: nat)
    ensures Ascend(e, d).mem == e.mem && Ascend(e, d).sp == (e.sp + 2 * d) % 0x100
  {
    hide Exec, Inc8;
    if d > 0 {
      AscendKeeps(e, d - 1);
      RtsKeeps(Ascend(e, d - 1));
      TwoUp(e.sp, d);
    }
  }

  /** `d` nested calls and as many returns, for every d: SP comes back, and the outermost
      RTS continues after call LastOwner(d). */
  lemma DeepCallReturns(s: State, d: nat)
    requires StackInRam(s) && d > 0
    ensures
      var back := Ascend(Descend(s, d), d);
      back.sp == s.sp && back.pc == (Descend(s, LastOwner(d)).pc + 3) % 0x1_0000
  {
    hide StackInRam, Descend, LastOwner;
    var e, owner := Descend(s, d), Descend(s, LastOwner(d)).pc;
    OutermostFrame(s, d);
    AscendKeeps(e, d);
    AscendKeeps(e, d - 1);
    BackUp(s.sp, d);
    RtsAt(Ascend(e, d - 1), s.sp, owner);
  }

  lemma RtsAt(e: State, sp: byte, caller: word)
    requires e.sp == Dec8(Dec8(sp))
    requires
      var w := Inc16(Inc16(caller));
      e.mem.Read(StackCell(sp)) == Hi(w) && e.mem.Read(StackCell(Dec8(sp))) == Lo(w)
    ensures Exec(Rts, e).pc == (caller + 3) % 0x1_0000
  {
    hide Hi, Lo, Word, Memory.Read, Exec;
    assert Inc8(e.sp) == Dec8(sp) && Inc8(Inc8(e.sp)) == sp;
    WordOfHalves(Inc16(Inc16(caller)));
    ReturnAddress(caller);
    RtsTarget(e);
  }

  lemma RtsTarget(e: State)
    ensures Exec(Rts, e).pc == Inc16(Word(Pulled(e), PulledSecond(e)))
  {
  }

  lemma SamePlusThree(w1: word, w2: word)
    ensures (w1 + 3) % 0x1_0000 == (w2 + 3) % 0x1_0000 <==> w1 == w2
  {
  }

  /** So the outermost call returns to its caller always up to 128 deep, and deeper exactly
      when call LastOwner(d) sits at the same address. */
  lemma DeepCallReturnsIff(s: State, d: nat)
    requires StackInRam(s) && d > 0
    ensures
      Ascend(Descend(s, d), d).pc == (s.pc + 3) % 0x1_0000 <==> d <= 128 || Descend(s, LastOwner(d)).pc == s.pc
  {
    hide StackInRam, Ascend, Exec;
    DeepCallReturns(s, d);
    assert d <= 128 ==> LastOwner(d) == 0;
    SamePlusThree(Descend(s, LastOwner(d)).pc, s.pc);
  }

  /** The run of instructions meant: `d` JSRs, each at the start of the routine called, then
      `d` RTSs. */
  ghost predicate CallsThenReturns(s: State, d: nat) {
    && (forall i :: 0 <= i < d ==> Decode(Opcode(Descend(s, i))) == Jsr)
    && (forall i :: 0 <= i < d ==> Decode(Opcode(Ascend(Descend(s, d), i))) == Rts)
  }

  lemma {:induction false} DescendFirst(s: State, d: nat)
    requires d > 0
    ensures Descend(s, d) == Descend(Exec(Jsr, s), d - 1)
  {
    hide Exec;
    if d > 1 {
      DescendFirst(s, d - 1);
    }
  }

  /** It is the well-nested run CallsOnly(d), which needs 2 * d bytes of stack. */
  lemma {:induction false} DeepRun(s: State, d: nat)
    requires CallsThenReturns(s, d)
    ensures End(CallsOnly(d), s) == Ascend(Descend(s, d), d)
    decreases d
  {
    hide Exec, Decode, Opcode;
    if d > 0 {
      var t := Exec(Jsr, s);
      assert Descend(s, 0) == s && Step(s) == t;
      DescendFirst(s, d);
      forall i | 0 <= i < d - 1
        ensures Decode(Opcode(Descend(t, i))) == Jsr
      {
        DescendFirst(s, i + 1);
      }
      DeepRun(t, d - 1);
      assert Decode(Opcode(Ascend(Descend(s, d), d - 1))) == Rts;
    }
  }

  /** Such a run brings control back behind its first JSR exactly when it is at most 128 deep
      or call LastOwner(d) sits where the first one does. */
  lemma NestedCallsReturnIff(s: State, d: nat)
    requires StackInRam(s) && d > 0 && CallsThenReturns(s, d)
    ensures
      End(CallsOnly(d), s).pc == (s.pc + 3) % 0x1_0000 <==> d <= 128 || Descend(s, LastOwner(d)).pc == s.pc
  {
    hide StackInRam, CallsThenReturns, Ascend, Descend, LastOwner, End;
    DeepRun(s, d);
    DeepCallReturnsIff(s, d);
  }

  // A program that nests 129 calls: routine k lies at $0200 + 4k, calls routine k + 1 and
  // returns; routine 129 just returns.

  function Routine(k: nat): word
    requires k <= 129
  {
    0x200 + 4 * k
  }

  function ChainByte(addr: word): byte
    requires Routine(0) <= addr <= Routine(129) + 3
  {
    var k := (addr - Routine(0)) / 4;
    match (addr - Routine(0)) % 4
    case 0 => if k == 129 then 0x60 else 0x20
    case 1 => if k == 129 then 0 else Lo(Routine(k + 1))
    case 2 => if k == 129 then 0 else Hi(Routine(k + 1))
    case _ => 0x60
  }

  const CHAIN: Memory :=
    Memory(map addr: word | 0x100 <= addr <= 0x1FF :: 0,
           map addr: word | Routine(0) <= addr <= Routine(129) + 3 :: ChainByte(addr))

  const CHAIN_START: State :=
    State(0, 0, 0, Routine(0), 0xFF, Flags(false, false, false, false, false, false, false, false), false, CHAIN)

  /** The program is in place, and page one is RAM. */
  ghost predicate ChainLoaded(s: State) {
    s.mem.rom == CHAIN.rom && s.mem.ram.Keys == CHAIN.ram.Keys
  }

  lemma ChainCode(s: State, k: nat)
    requires ChainLoaded(s) && k <= 129
    ensures StackInRam(s)
    ensures k < 129 ==>
      && s.mem.Read(Routine(k)) == 0x20 && s.mem.Read(Routine(k) + 1) == Lo(Routine(k + 1))
      && s.mem.Read(Routine(k) + 2) == Hi(Routine(k + 1)) && s.mem.Read(Routine(k) + 3) == 0x60
    ensures k == 129 ==> s.mem.Read(Routine(k)) == 0x60
  {
    hide Lo, Hi;
    assert (Routine(k) + 1 - Routine(0)) / 4 == k && (Routine(k) + 2 - Routine(0)) / 4 == k;
    assert (Routine(k) + 3 - Routine(0)) / 4 == k;
  }

  lemma CallOpcodes()
    ensures Decode(0x20) == Jsr && Decode(0x60) == Rts
  {
  }

  lemma JsrKeepsChain(s: State)
    requires ChainLoaded(s)
    ensures ChainLoaded(JsrPushed(s)) && ChainLoaded(Exec(Jsr, s))
  {
    hide Lo, Hi;
  }

  lemma {:induction false} ChainDescends(k: nat)
    requires k <= 129
    ensures ChainLoaded(Descend(CHAIN_START, k)) && Descend(CHAIN_START, k).pc == Routine(k)
    ensures k < 129 ==> Decode(Opcode(Descend(CHAIN_START, k))) == Jsr
  {
    hide Memory.Read, Memory.Write, Decode, ChainLoaded, Lo, Hi, Word, CHAIN, Exec;
    CallOpcodes();
    if k == 0 {
      assert ChainLoaded(CHAIN_START) by { ChainStarts(); }
    } else {
      var s := Descend(CHAIN_START, k - 1);
      ChainDescends(k - 1);
      JsrKeepsChain(s);
      ChainCode(s, k - 1);
      ChainCode(JsrPushed(s), k - 1);
      JsrTarget(s);
      WordOfHalves(Routine(k));
    }
    ChainCode(Descend(CHAIN_START, k), k);
  }

  lemma ChainStarts()
    ensures ChainLoaded(CHAIN_START)
  {
  }

  lemma JsrTarget(s: State)
    requires s.pc < 0xFF00
    ensures Exec(Jsr, s).pc == Word(s.mem.Read(s.pc + 1), JsrPushed(s).mem.Read(s.pc + 2))
  {
    hide Memory.Read, Memory.Write;
  }

  lemma {:induction false} DescendMore(s: State, j: nat, k: nat)
    ensures Descend(Descend(s, j), k) == Descend(s, j + k)
    decreases k
  {
    hide Exec;
    if k > 0 {
      DescendMore(s, j, k - 1);
    }
  }

  /** Frames 128 to 1 are intact after 129 calls, so all but the last return go back. */
  lemma {:induction false} ChainAscends(k: nat)
    requires k <= 128
    ensures
      var e := Ascend(Descend(CHAIN_START, 129), k);
      e.pc == (if k == 0 then Routine(129) else Routine(129 - k) + 3) && Decode(Opcode(e)) == Rts
  {
    hide Memory.Read, Decode, ChainLoaded, Lo, Hi, Word, Exec, StackInRam, Ascend, Descend;
    var deep := Descend(CHAIN_START, 129);
    CallOpcodes();
    ChainDescends(129);
    AscendKeeps(deep, k);
    if k == 0 {
      ChainCode(deep, 129);
      assert Ascend(deep, 0) == deep by { AscendNone(deep); }
    } else {
      var s := Descend(CHAIN_START, 129 - k);
      ChainDescends(129 - k);
      ChainCode(s, 129 - k);
      DescendMore(CHAIN_START, 129 - k, k);
      DeepCallReturns(s, k);
      assert Descend(s, LastOwner(k)) == s by { DescendNone(s); }
      ChainCode(deep, 129 - k);
    }
  }

  lemma AscendNone(e: State)
    ensures Ascend(e, 0) == e
  {
  }

  lemma DescendNone(s: State)
    ensures Descend(s, 0) == s
  {
  }

  /** The program's 129th return, that of the first call, goes behind the 129th call. */
  lemma ChainGoesAstray()
    ensures StackInRam(CHAIN_START) && CallsThenReturns(CHAIN_START, 129)
    ensures End(CallsOnly(129), CHAIN_START).pc == Routine(128) + 3 != Routine(0) + 3
  {
    hide Decode, Opcode, Exec, Memory.Read, CHAIN, StackInRam, End, Descend, Ascend, ChainLoaded;
    ChainStarts();
    ChainCode(CHAIN_START, 0);
    forall i | 0 <= i < 129
      ensures Decode(Opcode(Descend(CHAIN_START, i))) == Jsr
      ensures Decode(Opcode(Ascend(Descend(CHAIN_START, 129), i))) == Rts
    {
      ChainDescends(i);
      ChainAscends(i);
    }
    DeepRun(CHAIN_START, 129);
    DeepCallReturns(CHAIN_START, 129);
    ChainDescends(128);
  }

  /** The three bytes BRK leaves on the stack, newest first: status, return address. */
  lemma BrkFrame(s: State)
    requires StackInRam(s)
    ensures
      var pc := Inc16(Inc16(s.pc));
      Stacked(Exec(Brk, s), 3) == [s.p.(b := true).ToByte(), Lo(pc), Hi(pc)]
  {
    hide Stacked, StackInRam;
    var pc := Inc16(Inc16(s.pc));
    var s1 := s.(pc := pc, p := s.p.(b := true));
    SameStack(s, s1, 0);
    SameRam(s, s1);
    PushWordIsCons(s1, pc, 0);
    PushIsCons(PushWord(s1, pc), s1.p.ToByte(), 2);
    SameStack(BrkPushed(s), Exec(Brk, s), 3);
    SameStack(BrkPushed(s), PushByte(PushWord(s1, pc), s1.p.ToByte()), 3);
    StackedNothing(s1);
    assert [s1.p.ToByte()] + ([Lo(pc), Hi(pc)] + []) == [s1.p.ToByte(), Lo(pc), Hi(pc)];
  }

  lemma StackedNothing(s: State)
    ensures Stacked(s, 0) == []
  {
  }

  /** RTI in terms of the stack: status, then return address. */
  lemma RtiPulls(s: State)
    ensures
      var top := Stacked(s, 3);
      Exec(Rti, s) == s.(p := FlagsOf(top[0]), pc := Word(top[1], top[2]), sp := Inc8(Inc8(Inc8(s.sp))))
  {
    hide Stacked, FlagsOf;
    PullIsHead(s, 3);
    PullWord(s.(sp := Inc8(s.sp)), 2);
  }

  /** The registers that BRK leaves alone, and SP. */
  lemma BrkKeeps(s: State)
    ensures
      var t := Exec(Brk, s);
      t == s.(mem := t.mem, pc := t.pc, sp := Dec8(Dec8(Dec8(s.sp))), p := s.p.(b := true, i := true), halted := true)
  {
    hide Flags.ToByte, Memory.Write;
  }

  lemma ThreeDownThreeUp(sp: byte)
    ensures Inc8(Inc8(Inc8(Dec8(Dec8(Dec8(sp)))))) == sp
  {
  }

  /** BRK and the RTI its vector leads to: SP and the registers come back, execution
      resumes past BRK's padding byte, and P comes back with B set. */
  lemma BrkThenRti(s: State)
    requires StackInRam(s)
    requires Decode(Opcode(s)) == Brk && Decode(Opcode(Step(s))) == Rti
    ensures Step(Step(s)) == s.(mem := Step(s).mem, pc := (s.pc + 2) % 0x1_0000, p := s.p.(b := true), halted := true)
  {
    hide Decode, Stacked, StackInRam, Exec, FlagsOf, Flags.ToByte, Opcode, Inc16, Word, Lo, Hi, Inc8, Dec8;
    ThreeDownThreeUp(s.sp);
    var t := Step(s);
    BrkKeeps(s);
    BrkFrame(s);
    RtiPulls(t);
    FlagsRoundTrip(s.p.(b := true));
    ReturnAddress(s.pc);
    assert Step(t) == Exec(Rti, t);
  }
}
