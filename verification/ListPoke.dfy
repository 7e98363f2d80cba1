/** LIST and POKE, instruction by instruction, against the texts of module HexText. */
module ListPoke {
  import opened Words
  import opened FlatMemory
  import opened Isa
  import opened TtyDevice
  import opened MonitorMachine
  import opened HexText
  import opened LineEditor
  import opened HexRoutines
  import opened SaveLoad

  const ROWCOUNT: byte := 0xF7

  /** Nothing but text for the terminal has happened to the device. */
  predicate Printed(t0: Tty, t: Tty, text: seq<byte>) {
    t == t0.(out := t0.out + text)
  }

  lemma PrintedThen(t0: Tty, t1: Tty, t2: Tty, text: seq<byte>, more: seq<byte>)
    requires Printed(t0, t1, text) && Printed(t1, t2, more)
    ensures Printed(t0, t2, text + more)
  {
    assert t0.out + (text + more) == t0.out + text + more;
  }

  lemma PrintedNothing(t: Tty)
    ensures Printed(t, t, [])
  {
    assert t.out + [] == t.out;
  }

  // ---------- LIST ----------

  const LIST_CELLS: set<word> := {0xF0, 0xF1, 0xF7}

  /** The cursor, high byte first. */
  method PrintCursor(m: Machine)
    requires m.Valid()
    modifies m`a, m`c, m`z, m`mem, m`tty, m`sp
    ensures m.Valid() && m.sp == old(m.sp) && SameBut(old(m.mem), m.mem, m.sp, 5)
    ensures Printed(old(m.tty), m.tty, PrintedWord(old(m.Pointer(START))))
  {
    hide Memory.Read, PrintedByte;
    ghost var w, out := m.Pointer(START), m.tty.out;
    HalvesOf(m.mem.Read(0xF0), m.mem.Read(0xF1));
    m.LdaZp(0xF1);
    PrintHexByte(m, 0xCB1C);
    m.LdaZp(0xF0);
    PrintHexByte(m, 0xCB21);
    assert out + PrintedByte(Hi(w)) + PrintedByte(Lo(w)) == out + PrintedWord(w);
  }

  /** The row's address, a colon and a space. */
  method PrintPrefix(m: Machine)
    requires m.Valid()
    modifies m`a, m`c, m`z, m`mem, m`tty, m`sp
    ensures m.Valid() && m.sp == old(m.sp) && SameBut(old(m.mem), m.mem, m.sp, 5)
    ensures Printed(old(m.tty), m.tty, PrintedWord(old(m.Pointer(START))) + [COLON, SPACE])
  {
    hide Memory.Read, PrintedWord, Word;
    ghost var text, out := PrintedWord(m.Pointer(START)), m.tty.out;
    PrintCursor(m);
    m.LdaImm(0x3A);
    m.PutChar(0xCB26);
    m.LdaImm(0x20);
    m.PutChar(0xCB2B);
    assert out + text + [COLON] + [SPACE] == out + (text + [COLON, SPACE]);
  }

  /** The device after the read of an address, if that is one of its registers. */
  function Touched(t: Tty, addr: word): Tty {
    if InTty(addr) then t.AfterRead(addr - TTY_BASE) else t
  }

  /** The byte at the cursor and a space. */
  method PrintCell(m: Machine) returns (ghost b: byte)
    requires m.Valid()
    modifies m`a, m`c, m`y, m`z, m`mem, m`tty, m`sp
    ensures m.Valid() && m.sp == old(m.sp) && SameBut(old(m.mem), m.mem, m.sp, 5)
    ensures
      var cursor := old(m.Pointer(START));
      && (!InTty(cursor) ==> b == old(m.mem).Read(cursor))
      && Printed(Touched(old(m.tty), cursor), m.tty, PrintedByte(b) + [SPACE])
  {
    hide Memory.Read, PrintedByte;
    m.LdyImm(0x00);
    m.Lda(m.Pointer(START));
    b := m.a;
    ghost var out := m.tty.out;
    PrintHexByte(m, 0xCB32);
    m.LdaImm(0x20);
    m.PutChar(0xCB37);
    assert out + PrintedByte(b) + [SPACE] == out + (PrintedByte(b) + [SPACE]);
  }

  /** CR and LF, the first JSR's last byte at `at`. */
  method PrintBreak(m: Machine, at: word)
    requires m.Valid() && at < 0x1_0000 - 5
    modifies m`a, m`z, m`mem, m`tty, m`sp
    ensures m.Valid() && m.sp == old(m.sp) && SameBut(old(m.mem), m.mem, m.sp, 2)
    ensures Printed(old(m.tty), m.tty, [CR, LF])
  {
    hide Memory.Read;
    ghost var out := m.tty.out;
    m.LdaImm(0x0D);
    m.PutChar(at);
    m.LdaImm(0x0A);
    m.PutChar(at + 5);
    assert out + [CR] + [LF] == out + [CR, LF];
  }

  /** Prefix if a row starts here, then the byte. */
  method PrintByteOfRow(m: Machine) returns (ghost b: byte)
    requires m.Valid()
    modifies m`a, m`c, m`y, m`z, m`mem, m`tty, m`sp
    ensures m.Valid() && m.sp == old(m.sp) && SameBut(old(m.mem), m.mem, m.sp, 5)
    ensures
      var w := old(m.Pointer(START));
      && (!InTty(w) && !Scratch(w, m.sp, 5) ==> b == old(m.mem).Read(w))
      && Printed(Touched(old(m.tty), w), m.tty,
           (if old(m.mem).Read(ROWCOUNT) == 0 then PrintedWord(w) + [COLON, SPACE] else [])
           + (PrintedByte(b) + [SPACE]))
  {
    hide Memory.Read, PrintedWord, PrintedByte, Printed, Tty.AfterRead;
    ghost var t0, w := m.tty, m.Pointer(START);
    ghost var prefix := if m.mem.Read(ROWCOUNT) == 0 then PrintedWord(w) + [COLON, SPACE] else [];
    m.LdaZp(ROWCOUNT);
    if m.z {
      PrintPrefix(m);
    } else {
      PrintedNothing(t0);
    }
    ghost var t1 := m.tty;
    TouchedPrints(t0, t1, w, prefix);
    b := PrintCell(m);
    PrintedThen(Touched(t0, w), Touched(t1, w), m.tty, prefix, PrintedByte(b) + [SPACE]);
  }

  /** Reading a register and printing commute. */
  lemma TouchedPrints(t0: Tty, t1: Tty, addr: word, text: seq<byte>)
    requires Printed(t0, t1, text)
    ensures Printed(Touched(t0, addr), Touched(t1, addr), text)
  {
  }

  /** After the sixteenth byte: a line break, and column 0. */
  method EndRow(m: Machine)
    requires m.Valid()
    modifies m`a, m`z, m`mem, m`tty, m`sp
    ensures m.Valid() && m.sp == old(m.sp) && Kept(old(m.mem), m.mem, {0xF7}, m.sp, 2)
    ensures m.mem.Read(ROWCOUNT) == 0 && Printed(old(m.tty), m.tty, [CR, LF])
  {
    hide Memory.Read, Printed;
    PrintBreak(m, 0xCB4A);
    m.LdaImm(0x00);
    m.StaZp(ROWCOUNT);
  }

  /** The cursor and the column move on; the sixteenth byte ends its row. */
  method NextColumn(m: Machine)
    requires m.Valid() && m.mem.Read(ROWCOUNT) < 0x10
    modifies m`a, m`c, m`z, m`mem, m`tty, m`sp
    ensures m.Valid() && m.sp == old(m.sp) && Kept(old(m.mem), m.mem, LIST_CELLS, m.sp, 5)
    ensures m.Pointer(START) == Inc16(old(m.Pointer(START)))
    ensures
      var column := old(m.mem).Read(ROWCOUNT) + 1;
      && m.mem.Read(ROWCOUNT) == column % 16
      && Printed(old(m.tty), m.tty, if column == 16 then [CR, LF] else [])
  {
    hide Memory.Read, Printed, Word, Inc16;
    PrintedNothing(m.tty);
    IncPointer(m, START);
    m.IncZp(ROWCOUNT);
    m.LdaZp(ROWCOUNT);
    m.Cmp(0x10);
    if m.c {
      EndRow(m);
    }
  }

  /** The range is clear of the device page, of LIST's cells and of the stack it uses. */
  ghost predicate ListClear(start: word, end: word, sp: byte) {
    forall addr: word :: start <= addr <= end ==> !InTty(addr) && addr !in LIST_CELLS && !Scratch(addr, sp, 5)
  }

  /** What LIST reads at an address, `k` bytes into the range: memory as it was, or the value
      by then of one of its own cells. */
  function CellShown(mem: Memory, addr: word, k: nat): byte {
    if addr == 0xF0 then 0xF0 else if addr == 0xF1 then 0x00 else if addr == 0xF7 then k % 16 else mem.Read(addr)
  }

  /** `data` is what LIST reads from `start` on; of the stack cells below SP and of the device
      page only that some byte is read. */
  ghost predicate Shows(mem: Memory, sp: byte, start: word, data: seq<byte>) {
    forall k :: 0 <= k < |data| && start + k <= 0xFFFF && !InTty(start + k) && !Scratch(start + k, sp, 5) ==>
      data[k] == CellShown(mem, start + k, k)
  }

  lemma ShowsNothing(mem: Memory, sp: byte, start: word)
    ensures Shows(mem, sp, start, [])
  {
  }

  lemma ShowsMore(mem: Memory, sp: byte, start: word, data: seq<byte>, b: byte)
    requires Shows(mem, sp, start, data) && start + |data| <= 0xFFFF
    requires
      var addr := start + |data|;
      !InTty(addr) && !Scratch(addr, sp, 5) ==> b == CellShown(mem, addr, |data|)
    ensures Shows(mem, sp, start, data + [b])
  {
  }

  /** LIST stands at its `k`-th byte. */
  ghost predicate AtByte(m: Machine, mem0: Memory, start: word, end: word, sp: byte, k: nat)
    requires start + k <= 0xFFFF
    reads m
  {
    && m.Valid() && m.sp == sp && Kept(mem0, m.mem, LIST_CELLS, sp, 5)
    && m.Pointer(START) == start + k && m.Pointer(END) == end && m.mem.Read(ROWCOUNT) == k % 16
  }

  lemma StreamExtends(start: word, data: seq<byte>, b: byte)
    requires start + |data| < 0xFFFF
    ensures Streamed(start, data + [b]) == Streamed(start, data) + ByteText(start, |data|, b)
  {
    hide ByteText;
    assert (data + [b])[..|data|] == data;
  }

  lemma AtCursor(mem0: Memory, mem: Memory, sp: byte, addr: word, k: nat)
    requires Kept(mem0, mem, LIST_CELLS, sp, 5) && !Scratch(addr, sp, 5)
    requires Word(mem.Read(0xF0), mem.Read(0xF1)) == addr && mem.Read(ROWCOUNT) == k % 16
    ensures mem.Read(addr) == CellShown(mem0, addr, k)
  {
    hide Memory.Read, Word;
    CursorHalves(mem.Read(0xF0), mem.Read(0xF1));
  }

  lemma CursorHalves(low: byte, high: byte)
    ensures Word(low, high) == 0xF0 ==> low == 0xF0
    ensures Word(low, high) == 0xF1 ==> high == 0x00
  {
  }

  /** One turn of LIST's loop. */
  method ListTurn(m: Machine, ghost mem0: Memory, ghost start: word, ghost end: word, ghost k: nat)
    returns (ghost b: byte)
    requires start + k <= end < 0xFFFF && AtByte(m, mem0, start, end, m.sp, k)
    modifies m`a, m`c, m`y, m`z, m`mem, m`tty, m`sp
    ensures m.sp == old(m.sp) && AtByte(m, mem0, start, end, m.sp, k + 1)
    ensures !InTty(start + k) && !Scratch(start + k, m.sp, 5) ==> b == CellShown(mem0, start + k, k)
    ensures Printed(Touched(old(m.tty), start + k), m.tty, ByteText(start, k, b))
  {
    hide Memory.Read, PrintedWord, PrintedByte, Printed, Word, CellShown, Touched;
    ghost var t1 := Touched(m.tty, start + k);
    if !Scratch(start + k, m.sp, 5) {
      AtCursor(mem0, m.mem, m.sp, start + k, k);
    }
    b := PrintByteOfRow(m);
    ghost var t2 := m.tty;
    NextColumn(m);
    ghost var head := (if k % 16 == 0 then PrintedWord(start + k) + [COLON, SPACE] else [])
      + (PrintedByte(b) + [SPACE]);
    ghost var tail := if (k + 1) % 16 == 0 then [CR, LF] else [];
    PrintedThen(t1, t2, m.tty, head, tail);
    assert head + tail == ByteText(start, k, b);
  }

  /** ROWCOUNT := 0. */
  method StartList(m: Machine)
    requires m.Valid()
    modifies m`a, m`z, m`mem
    ensures AtByte(m, old(m.mem), old(m.Pointer(START)), old(m.Pointer(END)), m.sp, 0)
  {
    hide Memory.Read;
    m.LdaImm(0x00);
    m.StaZp(ROWCOUNT);
  }

  /** STOP ($CB57): the line break of an unfinished row. */
  method EndList(m: Machine, ghost mem0: Memory, ghost start: word, ghost end: word, ghost n: nat)
    requires start + n <= 0xFFFF && AtByte(m, mem0, start, end, m.sp, n)
    modifies m`a, m`z, m`mem, m`tty, m`sp
    ensures m.Valid() && m.sp == old(m.sp) && Kept(mem0, m.mem, LIST_CELLS, m.sp, 5)
    ensures Printed(old(m.tty), m.tty, LastBreak(n))
  {
    hide Memory.Read, Printed;
    PrintedNothing(m.tty);
    m.LdaZp(ROWCOUNT);
    if !m.z {
      PrintBreak(m, 0xCB5F);
    }
  }

  /** `text` has gone to the terminal; if the range from `start` to before `start + k` is
      clear of the device page, nothing else has happened to the device. */
  ghost predicate ListedSoFar(t0: Tty, t: Tty, text: seq<byte>, start: word, k: nat) {
    && t.out == t0.out + text
    && ((forall addr: word :: start <= addr < start + k ==> !InTty(addr)) ==> Printed(t0, t, text))
  }

  lemma ListedNothing(t: Tty, start: word)
    ensures ListedSoFar(t, t, [], start, 0)
  {
    PrintedNothing(t);
  }

  lemma ListedByte(t0: Tty, t1: Tty, t2: Tty, text: seq<byte>, more: seq<byte>, start: word, k: nat)
    requires start + k <= 0xFFFF
    requires ListedSoFar(t0, t1, text, start, k) && Printed(Touched(t1, start + k), t2, more)
    ensures ListedSoFar(t0, t2, text + more, start, k + 1)
  {
    assert t0.out + (text + more) == t0.out + text + more;
    if forall addr: word :: start <= addr < start + (k + 1) ==> !InTty(addr) {
      assert !InTty(start + k);
      PrintedThen(t0, t1, t2, text, more);
    }
  }

  lemma ListedBreak(t0: Tty, t1: Tty, t2: Tty, text: seq<byte>, more: seq<byte>, start: word, k: nat)
    requires ListedSoFar(t0, t1, text, start, k) && Printed(t1, t2, more)
    ensures ListedSoFar(t0, t2, text + more, start, k)
  {
    assert t0.out + (text + more) == t0.out + text + more;
    if forall addr: word :: start <= addr < start + k ==> !InTty(addr) {
      PrintedThen(t0, t1, t2, text, more);
    }
  }

  /** LIST ($CB00): prints the listing of `data`, which is what it reads from START to END;
      nothing when END is before START. It ends for every END below $FFFF, and for no other
      unless START is above it (ListTurns). */
  method List(m: Machine) returns (ghost data: seq<byte>)
    requires m.Valid() && m.Pointer(END) < 0xFFFF
    modifies m
    ensures m.Valid() && m.sp == old(m.sp) && Kept(old(m.mem), m.mem, LIST_CELLS, m.sp, 5)
    ensures
      var start, end := old(m.Pointer(START)), old(m.Pointer(END));
      && |data| == (if start <= end then end - start + 1 else 0)
      && Shows(old(m.mem), m.sp, start, data)
      && ListedSoFar(old(m.tty), m.tty, Listing(start, data), start, |data|)
  {
    hide Memory.Read, Streamed, Kept, Listing, ByteText, LastBreak, ListedSoFar, CellShown, Printed, Shows, Word;
    ghost var mem0, t0, start, end := m.mem, m.tty, m.Pointer(START), m.Pointer(END);
    ghost var n := if start <= end then end - start + 1 else 0;
    data := [];
    assert Streamed(start, []) == [] by { StreamNothing(start); }
    ListedNothing(t0, start);
    ShowsNothing(mem0, m.sp, start);
    StartList(m);
    var more := CursorInRange(m);
    while more
      invariant |data| <= n && more == (|data| < n)
      invariant AtByte(m, mem0, start, end, old(m.sp), |data|)
      invariant Shows(mem0, m.sp, start, data)
      invariant ListedSoFar(t0, m.tty, Streamed(start, data), start, |data|)
      decreases n - |data|
    {
      ghost var t1, k := m.tty, |data|;
      ghost var b := ListTurn(m, mem0, start, end, k);
      ListedByte(t0, t1, m.tty, Streamed(start, data), ByteText(start, k, b), start, k);
      StreamExtends(start, data, b);
      ShowsMore(mem0, m.sp, start, data, b);
      data := data + [b];
      more := CursorInRange(m);
    }
    ghost var t2 := m.tty;
    EndList(m, mem0, start, end, n);
    ListedBreak(t0, t2, m.tty, Streamed(start, data), LastBreak(n), start, n);
    StreamIsListing(start, data);
  }

  lemma StreamNothing(start: word)
    ensures Streamed(start, []) == []
  {
  }

  /** In a range clear of the device page, LIST's cells and its stack, what it reads is memory. */
  lemma ShowsMemory(mem: Memory, sp: byte, start: word, end: word, data: seq<byte>)
    requires Shows(mem, sp, start, data) && start + |data| == end + 1 && ListClear(start, end, sp)
    ensures data == Bytes(mem, start, |data|)
  {
    hide Memory.Read;
    forall k | 0 <= k < |data|
      ensures data[k] == Bytes(mem, start, |data|)[k]
    {
      assert At(start, k) == start + k;
    }
  }

  /** At most `turns` turns of LIST's loop, on whatever range: its exit is reached exactly when
      END is below $FFFF and that many turns pass it, so never with END at $FFFF. */
  method ListTurns(m: Machine, turns: nat) returns (done: bool)
    requires m.Valid() && m.mem.Read(ROWCOUNT) < 0x10
    modifies m`a, m`c, m`y, m`z, m`mem, m`tty, m`sp
    ensures m.Valid()
    ensures
      var start, end := old(m.Pointer(START)), old(m.Pointer(END));
      done <==> end < start || (end < 0xFFFF && end - start < turns)
  {
    hide Memory.Read, Word, PrintedWord, PrintedByte, Printed, At, NotPassed, Touched;
    ghost var start, end := m.Pointer(START), m.Pointer(END);
    var i := 0;
    CursorStarts(start, end);
    var more := CursorInRange(m);
    while more && i < turns
      invariant m.Valid() && i <= turns && m.mem.Read(ROWCOUNT) < 0x10
      invariant m.Pointer(END) == end && m.Pointer(START) == At(start, i) && more == (At(start, i) <= end)
      invariant NotPassed(start, end, i)
    {
      CursorMoves(start, end, i);
      ghost var b := PrintByteOfRow(m);
      NextColumn(m);
      i := i + 1;
      more := CursorInRange(m);
    }
    CursorPasses(start, end, i);
    return !more;
  }

  // ---------- POKE ----------

  const POKE_CELLS: set<word> := {0x41, 0xF0, 0xF1, 0xF4, 0xF5}

  lemma LineUnchanged(m1: Memory, m2: Memory)
    requires forall addr: word :: addr <= 0x40 ==> m2.Read(addr) == m1.Read(addr)
    requires m1.Read(0x40) <= 64
    ensures Line(m2) == Line(m1)
  {
  }

  /** A cell that a byte may go to when the rest of the line starts at `pos`: no device
      register, none of POKE's cells, nor the line's length or its characters still unread. */
  predicate TokenSafe(addr: word, pos: nat, length: nat) {
    !InTty(addr) && addr !in POKE_CELLS && addr != 0x40 && !(pos <= addr < length)
  }

  /** That for every byte POKE still has to store, the next one being the `k`-th. */
  ghost predicate PokeSafe(line: seq<byte>, pos: nat, target: word, k: nat)
    decreases |line| - pos
  {
    if pos >= |line| then true
    else if line[pos] == SPACE then PokeSafe(line, pos + 1, target, k)
    else
      var n := Min(2, HexRun(line, pos));
      n == 0 || (TokenSafe(At(target, k), pos + n, |line|) && PokeSafe(line, pos + n, target, k + 1))
  }

  /** Targets clear of the whole line and of POKE's cells are safe. */
  lemma {:induction false} ClearIsSafe(line: seq<byte>, pos: nat, target: word, k: nat)
    requires |line| <= 64
    requires
      forall i: nat :: k <= i < k + |PokeBytes(line, pos)| ==>
        !InTty(At(target, i)) && At(target, i) !in LINE_CELLS + POKE_CELLS
    ensures PokeSafe(line, pos, target, k)
    decreases |line| - pos
  {
    hide At;
    if pos < |line| {
      PokeSteps(line, pos);
      if line[pos] == SPACE {
        ClearIsSafe(line, pos + 1, target, k);
      } else if HexRun(line, pos) > 0 {
        ClearIsSafe(line, pos + Min(2, HexRun(line, pos)), target, k + 1);
      }
    }
  }

  /** The same characters from `pos` on. */
  predicate SameRest(l1: seq<byte>, l2: seq<byte>, pos: nat) {
    |l1| == |l2| && forall i :: pos <= i < |l1| ==> l1[i] == l2[i]
  }

  lemma {:induction false} SameRun(l1: seq<byte>, l2: seq<byte>, pos: nat)
    requires SameRest(l1, l2, pos)
    ensures HexRun(l1, pos) == HexRun(l2, pos)
    decreases |l1| - pos
  {
    if pos < |l1| {
      SameRun(l1, l2, pos + 1);
    }
  }

  /** What is already read of the line has no part in what follows. */
  lemma {:induction false} SamePoke(l1: seq<byte>, l2: seq<byte>, pos: nat, target: word, k: nat)
    requires SameRest(l1, l2, pos)
    ensures PokeBytes(l1, pos) == PokeBytes(l2, pos)
    ensures PokeSafe(l1, pos, target, k) == PokeSafe(l2, pos, target, k)
    decreases |l1| - pos
  {
    hide At, TokenSafe, TokenValue;
    if pos < |l1| {
      SameRun(l1, l2, pos);
      PokeSteps(l1, pos);
      PokeSteps(l2, pos);
      var n := Min(2, HexRun(l1, pos));
      if l1[pos] == SPACE {
        SamePoke(l1, l2, pos + 1, target, k);
      } else if n > 0 {
        assert l1[pos..pos + n] == l2[pos..pos + n];
        SamePoke(l1, l2, pos + n, target, k + 1);
      }
    }
  }

  /** POKE has stored `data` and stands at `pos` of what the line is by now. */
  ghost predicate Poked(m: Machine, mem0: Memory, s: byte, target: word, line: seq<byte>, pos: nat, data: seq<byte>)
    reads m
  {
    && m.Valid() && m.sp == s
    && Line(m.mem) == line && |line| <= 64 && m.mem.Read(LINEPOS) == pos
    && m.Pointer(ADDR) == At(target, |data|)
    && HoldsStored(POKE_CELLS, 4, mem0, m.mem, target, data, s)
  }

  /** BYTEVAL goes to the cursor, which moves on. */
  method StoreToken(m: Machine)
    requires m.Valid() && !InTty(m.Pointer(ADDR)) && m.Pointer(ADDR) !in POKE_CELLS
    modifies m`a, m`y, m`z, m`mem, m`tty
    ensures m.Valid() && m.tty == old(m.tty) && m.Pointer(ADDR) == Inc16(old(m.Pointer(ADDR)))
    ensures m.mem.ram.Keys == old(m.mem).ram.Keys && m.mem.rom == old(m.mem).rom
    ensures m.mem.Read(LINEPOS) == old(m.mem).Read(LINEPOS)
    ensures
      var at, v := old(m.Pointer(ADDR)), old(m.mem).Read(BYTEVAL);
      forall addr: word :: addr !in POKE_CELLS ==>
        m.mem.Read(addr) == if addr == at && addr < 0x8000 then v else old(m.mem).Read(addr)
  {
    hide Memory.Read;
    m.LdyImm(0x00);
    m.LdaZp(BYTEVAL);
    m.Sta(m.Pointer(ADDR));
    IncPointer(m, ADDR);
  }

  /** A safe store leaves the rest of the line. */
  lemma RestStays(m1: Memory, m2: Memory, addr: word, v: byte, pos: nat)
    requires m1.Read(0x40) <= 64 && TokenSafe(addr, pos, m1.Read(0x40))
    requires forall x: word :: x !in POKE_CELLS ==> m2.Read(x) == if x == addr && x < 0x8000 then v else m1.Read(x)
    ensures SameRest(Line(m1), Line(m2), pos)
  {
  }

  /** PARSEBYTE ($CC13): a token is taken and stored, or there is none and POKE ends. */
  method PokeToken(m: Machine, ghost mem0: Memory, ghost target: word, ghost line: seq<byte>, ghost pos: nat,
                   ghost data: seq<byte>) returns (more: bool, ghost now: seq<byte>)
    requires Poked(m, mem0, m.sp, target, line, pos, data) && pos < |line| && |data| < 0xFFFF
    requires HexRun(line, pos) > 0 ==> TokenSafe(At(target, |data|), pos + Min(2, HexRun(line, pos)), |line|)
    modifies m`a, m`x, m`y, m`c, m`z, m`mem, m`tty, m`sp
    ensures m.sp == old(m.sp) && m.tty == old(m.tty) && more == (HexRun(line, pos) > 0)
    ensures
      var n := Min(2, HexRun(line, pos));
      && pos + n <= |line| && SameRest(line, now, pos + n) && (more ==> AllHex(line[pos..pos + n]))
      && Poked(m, mem0, m.sp, target, now, pos + n, if more then data + [TokenValue(line[pos..pos + n])] else data)
  {
    hide Memory.Read, Line, At, HoldsStored, TokenValue, TokenSafe;
    ghost var m1, s := m.mem, m.sp;
    CallParseByte(m, 0xCC15);
    ghost var m2 := m.mem;
    KeptWider(m1, m2, BYTE_CELLS, POKE_CELLS, s, 4, 4);
    LineKept(m1, m2, BYTE_CELLS, s, 4);
    if m.c {
      StoredThroughCall(POKE_CELLS, 4, mem0, m1, m2, target, data, s);
      return false, line;
    }
    ghost var v, next := m.mem.Read(BYTEVAL), pos + Min(2, HexRun(line, pos));
    SafeCell(At(target, |data|), next, |line|);
    StoreToken(m);
    RestStays(m2, m.mem, At(target, |data|), v, next);
    AtNext(target, |data|);
    StoredExtends(POKE_CELLS, 4, mem0, m1, m2, m.mem, target, data, v, s);
    return true, Line(m.mem);
  }

  lemma SafeCell(addr: word, pos: nat, length: nat)
    requires TokenSafe(addr, pos, length)
    ensures !InTty(addr) && addr !in POKE_CELLS
  {
  }

  /** How PokeBytes goes on from `pos`. */
  lemma PokeSteps(line: seq<byte>, pos: nat)
    requires pos < |line|
    ensures line[pos] == SPACE ==> PokeBytes(line, pos) == PokeBytes(line, pos + 1)
    ensures line[pos] != SPACE && HexRun(line, pos) == 0 ==> PokeBytes(line, pos) == []
    ensures
      line[pos] != SPACE && HexRun(line, pos) > 0 ==>
        var n := Min(2, HexRun(line, pos));
        && pos + n <= |line| && AllHex(line[pos..pos + n])
        && PokeBytes(line, pos) == [TokenValue(line[pos..pos + n])] + PokeBytes(line, pos + n)
  {
    HexRunIsMaximal(line, pos);
  }

  lemma PokeSafeSteps(line: seq<byte>, pos: nat, target: word, k: nat)
    requires pos < |line| && PokeSafe(line, pos, target, k)
    ensures line[pos] == SPACE ==> PokeSafe(line, pos + 1, target, k)
    ensures
      line[pos] != SPACE && HexRun(line, pos) > 0 ==>
        var n := Min(2, HexRun(line, pos));
        TokenSafe(At(target, k), pos + n, |line|) && PokeSafe(line, pos + n, target, k + 1)
  {
  }

  /** POKE's tests ($CC00): the end of the line, or a space at LINEPOS. */
  method NextCharacter(m: Machine) returns (ended: bool, space: bool)
    requires m.mem.Read(LINELEN) <= 64
    modifies m`a, m`x, m`c, m`z
    ensures
      var line, pos := Line(m.mem), m.mem.Read(LINEPOS);
      ended == (pos >= |line|) && (!ended ==> space == (line[pos] == SPACE))
  {
    m.LdaZp(LINEPOS);
    m.Cmp(m.mem.Read(LINELEN));
    if m.c {
      return true, false;
    }
    m.LdxZp(LINEPOS);
    m.LdaZp(m.x);
    m.Cmp(0x20);
    return false, m.z;
  }

  /** One turn of POKE's loop: a space is skipped, a token stored, or POKE ends. */
  method PokeTurn(m: Machine, ghost mem0: Memory, ghost target: word, ghost line: seq<byte>, ghost pos: nat,
                  ghost data: seq<byte>, ghost all: seq<byte>)
    returns (more: bool, ghost now: seq<byte>, ghost next: nat, ghost stored: seq<byte>)
    requires Poked(m, mem0, m.sp, target, line, pos, data)
    requires all == data + PokeBytes(line, pos) && |all| <= 64 && PokeSafe(line, pos, target, |data|)
    modifies m`a, m`x, m`y, m`c, m`z, m`mem, m`tty, m`sp
    ensures m.sp == old(m.sp) && m.tty == old(m.tty)
    ensures Poked(m, mem0, m.sp, target, now, next, stored) && |now| == |line|
    ensures
      if more then
        pos < next <= |line| && all == stored + PokeBytes(now, next) && PokeSafe(now, next, target, |stored|)
      else all == stored
  {
    hide Memory.Read, At, HoldsStored, PokeBytes, HexRun, TokenValue, PokeSafe, TokenSafe, Line, Word;
    var ended, space := NextCharacter(m);
    if ended {
      PokeEnds(line, pos);
      return false, line, pos, data;
    }
    PokeSteps(line, pos);
    PokeSafeSteps(line, pos, target, |data|);
    if space {
      SkipSpace(m, mem0, target, line, pos, data);
      return true, line, pos + 1, data;
    }
    more, now := PokeToken(m, mem0, target, line, pos, data);
    ghost var n := Min(2, HexRun(line, pos));
    if more {
      next, stored := pos + n, data + [TokenValue(line[pos..pos + n])];
      SamePoke(line, now, next, target, |stored|);
    } else {
      next, stored := pos, data;
    }
  }

  lemma PokeEnds(line: seq<byte>, pos: nat)
    requires pos >= |line|
    ensures PokeBytes(line, pos) == []
  {
  }

  /** INC LINEPOS. */
  method SkipSpace(
    m: Machine, ghost mem0: Memory, ghost target: word, ghost line: seq<byte>, ghost pos: nat, ghost data: seq<byte>)
    requires Poked(m, mem0, m.sp, target, line, pos, data) && pos < |line|
    modifies m`mem, m`z
    ensures Poked(m, mem0, m.sp, target, line, pos + 1, data)
  {
    hide Memory.Read, At, HoldsStored, Line;
    ghost var m1 := m.mem;
    m.IncZp(LINEPOS);
    LineUnchanged(m1, m.mem);
    ChangedIsKept(m1, m.mem, {0x41}, POKE_CELLS, m.sp, 4);
    StoredThroughCall(POKE_CELLS, 4, mem0, m1, m.mem, target, data, m.sp);
  }

  /** POKE ($CC00) up to its RTS: the bytes of the line from LINEPOS on are stored from ADDR
      on, in RAM, and nothing else is written but POKE's cells and stack. They may land on
      characters of the line that are already read. */
  method Poke(m: Machine)
    requires m.Valid() && m.mem.Read(LINELEN) <= 64
    requires PokeSafe(Line(m.mem), m.mem.Read(LINEPOS), m.Pointer(ADDR), 0)
    modifies m`a, m`x, m`y, m`c, m`z, m`mem, m`tty, m`sp
    ensures m.Valid() && m.sp == old(m.sp) && m.tty == old(m.tty)
    ensures
      var data := PokeBytes(Line(old(m.mem)), old(m.mem).Read(LINEPOS));
      && m.Pointer(ADDR) == At(old(m.Pointer(ADDR)), |data|)
      && HoldsStored(POKE_CELLS, 4, old(m.mem), m.mem, old(m.Pointer(ADDR)), data, m.sp)
  {
    hide Memory.Read, At, HoldsStored, PokeBytes, Line, PokeSafe;
    ghost var mem0, target, line := m.mem, m.Pointer(ADDR), Line(m.mem);
    ghost var pos: nat, data: seq<byte> := m.mem.Read(LINEPOS), [];
    ghost var all := PokeBytes(line, pos);
    AtNext(target, 0);
    StoredNothing(POKE_CELLS, 4, mem0, target, m.sp);
    assert [] + all == all;
    var more := true;
    while more
      invariant m.sp == old(m.sp) && m.tty == old(m.tty)
      invariant Poked(m, mem0, m.sp, target, line, pos, data)
      invariant
        if more then all == data + PokeBytes(line, pos) && PokeSafe(line, pos, target, |data|) else all == data
      decreases more, |line| - pos
    {
      more, line, pos, data := PokeTurn(m, mem0, target, line, pos, data, all);
    }
  }

  /** POKE called by a JSR: unless a byte lands on the return address, it returns there. */
  method CallPoke(m: Machine, last: word)
    requires m.Valid() && m.mem.Read(LINELEN) <= 64
    requires PokeSafe(Line(m.mem), m.mem.Read(LINEPOS), m.Pointer(ADDR), 0)
    requires
      forall i: nat :: i < |PokeBytes(Line(m.mem), m.mem.Read(LINEPOS))| ==>
        At(m.Pointer(ADDR), i) != StackCell(m.sp) && At(m.Pointer(ADDR), i) != StackCell(Dec8(m.sp))
    modifies m`a, m`x, m`y, m`c, m`z, m`mem, m`tty, m`sp
    ensures m.Valid() && m.sp == old(m.sp) && m.tty == old(m.tty)
    ensures
      HoldsStored(POKE_CELLS, 6, old(m.mem), m.mem, old(m.Pointer(ADDR)),
                  PokeBytes(Line(old(m.mem)), old(m.mem).Read(LINEPOS)), m.sp)
  {
    hide At, HoldsStored, PokeBytes, Line, PokeSafe, Memory.Read, Word, Lo, Hi, Inc8, Dec8;
    ghost var mem0, s0 := m.mem, m.sp;
    m.Jsr(last);
    LineUnchanged(mem0, m.mem);
    ghost var m1 := m.mem;
    ghost var target, data := m.Pointer(ADDR), PokeBytes(Line(m.mem), m.mem.Read(LINEPOS));
    Poke(m);
    ReturnSurvives(POKE_CELLS, 4, m1, m.mem, target, data, s0);
    m.Rts(last);
    StoredCalled(POKE_CELLS, 4, mem0, m1, m.mem, target, data, s0);
  }
}
