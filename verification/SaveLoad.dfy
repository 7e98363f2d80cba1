/** SAVE, LOAD and REWIND of the monitor firmware, instruction by instruction, against
    what module TapeBlocks says they do to the tape. */
module SaveLoad {
  import opened Words
  import opened FlatMemory
  import opened Isa
  import opened TtyDevice
  import opened TapeBlocks
  import opened MonitorMachine

  // zero-page cells
  const LEN: byte := 0x42
  const CHECKSUM: byte := 0x44
  const START: byte := 0xF0
  const END: byte := 0xF2

  // device registers
  const TAPE_STATUS: word := 0x8002
  const TAPE_CONTROL: word := 0x8003
  const TAPE_DATA: word := 0x8004

  /** The cells SAVE and LOAD keep their counters in. */
  const WORKSPACE: set<word> := {0x42, 0x43, 0x44, 0xF0, 0xF1}

  /** The range is clear of the device page and of the workspace. */
  ghost predicate SourceClear(start: word, end: word) {
    forall addr: word :: start <= addr <= end ==> !InTty(addr) && addr !in WORKSPACE
  }

  // ---------- what SAVE reads ----------

  /** The byte read from the `i`-th address of a range of `n`: memory as it was, the value by
      then of one of SAVE's own cells, or a device register. `t` is the device during the
      loop. */
  function Seen(mem: Memory, t: Tty, start: word, n: word, i: nat): byte
    decreases i, 1
  {
    var addr := At(start, i);
    if addr == 0x42 then Lo(n)
    else if addr == 0x43 then Hi(n)
    else if addr == 0x44 then Checksum(SeenBytes(mem, t, start, n, i))
    else if addr == 0xF0 then 0xF0
    else if addr == 0xF1 then 0x00
    else if InTty(addr) then t.Read(addr - TTY_BASE)
    else mem.Read(addr)
  }

  /** The first `i` bytes read. */
  function SeenBytes(mem: Memory, t: Tty, start: word, n: word, i: nat): (bs: seq<byte>)
    ensures |bs| == i
    decreases i, 0
  {
    if i == 0 then [] else SeenBytes(mem, t, start, n, i - 1) + [Seen(mem, t, start, n, i - 1)]
  }

  /** The device while SAVE's loop runs, as its registers other than the data show it. */
  function Saving(t: Tty): Tty {
    t.(motor := true, eot := false, error := false)
  }

  lemma SeenExtends(mem: Memory, t: Tty, start: word, n: word, i: nat)
    ensures SeenBytes(mem, t, start, n, i + 1) == SeenBytes(mem, t, start, n, i) + [Seen(mem, t, start, n, i)]
    ensures
      Checksum(SeenBytes(mem, t, start, n, i + 1)) ==
        Xor8(Seen(mem, t, start, n, i), Checksum(SeenBytes(mem, t, start, n, i)))
  {
    var bs := SeenBytes(mem, t, start, n, i + 1);
    assert bs[..i] == SeenBytes(mem, t, start, n, i);
  }

  lemma NothingSeen(mem: Memory, t: Tty, start: word, n: word)
    ensures SeenBytes(mem, t, start, n, 0) == [] && Checksum([]) == 0
  {
  }

  /** The tape itself and SAVE's counters have no part in what is seen. */
  lemma {:induction false} SeenAlike(m1: Memory, m2: Memory, t1: Tty, t2: Tty, start: word, n: word, i: nat)
    requires Changed(m1, m2, {0x42, 0x43, 0x44}) && t2 == t1.(tape := t2.tape, position := t2.position)
    requires start + i <= 0x1_0000 && !(start <= 0x8004 < start + i)
    ensures SeenBytes(m1, t1, start, n, i) == SeenBytes(m2, t2, start, n, i)
    decreases i
  {
    hide Changed, Seen, At;
    if i > 0 {
      SeenAlike(m1, m2, t1, t2, start, n, i - 1);
      ByteSeenAlike(m1, m2, t1, t2, start, n, i - 1);
    }
  }

  lemma ByteSeenAlike(m1: Memory, m2: Memory, t1: Tty, t2: Tty, start: word, n: word, i: nat)
    requires Changed(m1, m2, {0x42, 0x43, 0x44}) && t2 == t1.(tape := t2.tape, position := t2.position)
    requires start + i <= 0xFFFF && start + i != 0x8004
    requires SeenBytes(m1, t1, start, n, i) == SeenBytes(m2, t2, start, n, i)
    ensures Seen(m1, t1, start, n, i) == Seen(m2, t2, start, n, i)
  {
    hide Memory.Read, Checksum, SeenBytes;
    assert At(start, i) == start + i;
  }

  lemma ClearByteSeen(mem: Memory, t: Tty, start: word, end: word, n: word, i: nat)
    requires start + i <= end && SourceClear(start, end)
    ensures Seen(mem, t, start, n, i) == mem.Read(At(start, i))
  {
    hide Memory.Read, Checksum, SeenBytes, Tty.Read;
    assert At(start, i) == start + i;
  }

  /** In a range clear of its own cells and of the device page SAVE sees memory. */
  lemma {:induction false} SeenIsMemory(mem: Memory, t: Tty, start: word, end: word, n: word, i: nat)
    requires start + i <= end + 1 && SourceClear(start, end)
    ensures SeenBytes(mem, t, start, n, i) == Bytes(mem, start, i)
    decreases i
  {
    hide Memory.Read, Seen, SourceClear, Checksum, At, Bytes;
    NothingSeen(mem, t, start, n);
    NoBytes(mem, start);
    if i > 0 {
      SeenIsMemory(mem, t, start, end, n, i - 1);
      ClearByteSeen(mem, t, start, end, n, i - 1);
      BytesExtend(mem, start, i - 1);
    }
  }

  lemma PresentBit(t: Tty)
    ensures And8(t.TapeStatus(), 1) == Bit(t.present)
  {
    assert And(t.TapeStatus() / 2, 0) == 0;
  }

  lemma ErrorBit(t: Tty)
    ensures (And8(t.TapeStatus(), 8) == 0) == !t.error
  {
    var s := t.TapeStatus();
    assert And(s / 8, 1) == s / 8 % 2 by { assert And(s / 16, 0) == 0; }
    assert And(s / 4, 2) == 2 * And(s / 8, 1);
    assert And(s / 2, 4) == 2 * And(s / 4, 2);
    assert And(s, 8) == 2 * And(s / 2, 4);
  }

  /** A 16-bit increment: INC low, and INC high on wrap to zero. */
  method IncPointer(m: Machine, at: byte)
    requires m.Valid() && at < 0xFF
    modifies m`mem, m`z
    ensures m.Valid() && m.Pointer(at) == Inc16(old(m.Pointer(at)))
    ensures Changed(old(m.mem), m.mem, {at, at + 1})
  {
    m.IncZp(at);
    if m.z {
      m.IncZp(at + 1);
    }
  }

  /** The loop test of SAVE and LIST: 16-bit START <= END, high bytes first. */
  method CursorInRange(m: Machine) returns (more: bool)
    modifies m`a, m`c, m`z
    ensures more == (m.Pointer(START) <= m.Pointer(END))
  {
    m.LdaZp(0xF1);
    m.Cmp(m.mem.Read(0xF3));
    if !m.c {
      return true;
    }
    if !m.z {
      return false;
    }
    m.LdaZp(0xF0);
    m.Cmp(m.mem.Read(0xF2));
    if m.z {
      return true;
    }
    return !m.c;
  }

  /** SAVE's range check: END >= START. */
  method RangeOk(m: Machine) returns (ok: bool)
    modifies m`a, m`c, m`z
    ensures ok == (m.Pointer(START) <= m.Pointer(END))
  {
    m.LdaZp(0xF3);
    m.Cmp(m.mem.Read(0xF1));
    if !m.c {
      return false;
    }
    if !m.z {
      return true;
    }
    m.LdaZp(0xF2);
    m.Cmp(m.mem.Read(0xF0));
    return m.c;
  }

  /** LEN := END - START, a two-byte SBC chain. */
  method SubtractPointers(m: Machine)
    requires m.Valid() && m.Pointer(START) <= m.Pointer(END)
    modifies m`a, m`c, m`z, m`mem
    ensures m.Valid() && Changed(old(m.mem), m.mem, {0x42, 0x43})
    ensures m.Pointer(LEN) == old(m.Pointer(END)) - old(m.Pointer(START))
  {
    m.Sec();
    m.LdaZp(0xF2);
    m.Sbc(m.mem.Read(0xF0));
    m.StaZp(0x42);
    m.LdaZp(0xF3);
    m.Sbc(m.mem.Read(0xF1));
    m.StaZp(0x43);
  }

  /** STA $8004 while the motor runs: one more byte after those written so far. */
  method PutTape(m: Machine, ghost base: seq<byte>, ghost p: nat, ghost written: seq<byte>)
    requires m.Valid() && m.tty.present && m.tty.motor
    requires p <= |base| && m.tty.tape == Over(base, p, written) && m.tty.position == p + |written|
    modifies m`mem, m`tty
    ensures m.Valid() && m.mem == old(m.mem)
    ensures m.tty == old(m.tty).(tape := Over(base, p, written + [m.a]), position := p + |written| + 1,
                                 eot := false, error := false)
  {
    OverExtends(base, p, written, m.a);
    m.Sta(TAPE_DATA);
  }

  /** LEN := END - START + 1 and checksum := 0. */
  method ComputeLength(m: Machine)
    requires m.Valid() && m.Pointer(START) <= m.Pointer(END) < 0xFFFF
    modifies m`a, m`c, m`z, m`mem
    ensures m.Valid() && Changed(old(m.mem), m.mem, {0x42, 0x43, 0x44}) && m.mem.Read(CHECKSUM) == 0
    ensures m.Pointer(LEN) == old(m.Pointer(END)) - old(m.Pointer(START)) + 1
  {
    SubtractPointers(m);
    IncPointer(m, LEN);
    m.LdaImm(0x00);
    m.StaZp(CHECKSUM);
  }

  /** The two length bytes go to the tape. */
  method WriteLength(m: Machine)
    requires m.Valid() && m.tty.OnTape() && m.tty.motor
    modifies m`a, m`z, m`mem, m`tty
    ensures m.Valid() && m.mem == old(m.mem)
    ensures
      var t, n := old(m.tty), old(m.Pointer(LEN));
      m.tty == t.(tape := Over(t.tape, t.position, [Lo(n), Hi(n)]), position := t.position + 2,
                  eot := false, error := false)
  {
    ghost var t := m.tty;
    m.LdaZp(0x42);
    assert Over(t.tape, t.position, []) == t.tape;
    PutTape(m, t.tape, t.position, []);
    ghost var low := m.a;
    assert [] + [low] == [low];
    m.LdaZp(0x43);
    PutTape(m, t.tape, t.position, [low]);
    assert [low] + [m.a] == [low, m.a];
    HalvesOf(low, m.a);
  }

  /** One turn of SAVE_LOOP: the byte at the cursor is read and written to TAPE_DATA, the
      checksum and the cursor move on. On a running tape, and unless the cursor is at
      TAPE_DATA itself, that is one more byte after those written so far. */
  method SaveByte(m: Machine, ghost base: seq<byte>, ghost p: nat, ghost written: seq<byte>)
    returns (ghost v: byte)
    requires m.Valid() && p <= |base|
    modifies m`a, m`y, m`z, m`mem, m`tty
    ensures m.Valid() && Changed(old(m.mem), m.mem, {0x44, 0xF0, 0xF1})
    ensures m.Pointer(START) == Inc16(old(m.Pointer(START))) && m.Pointer(END) == old(m.Pointer(END))
    ensures m.mem.Read(CHECKSUM) == Xor8(v, old(m.mem).Read(CHECKSUM))
    ensures
      var cursor := old(m.Pointer(START));
      v == if InTty(cursor) then old(m.tty).Read(cursor - TTY_BASE) else old(m.mem).Read(cursor)
    ensures
      var t, cursor := old(m.tty), old(m.Pointer(START));
      t.present && t.motor && cursor != TAPE_DATA && t.tape == Over(base, p, written) && t.position == p + |written| ==>
        m.tty == t.(tape := Over(base, p, written + [v]), position := p + |written| + 1, eot := false, error := false,
                    rxReady := t.rxReady && cursor != 0x8001)
  {
    hide Over, Memory.Read, Xor8;
    OverAppends(base, p, written);
    m.LdyImm(0x00);
    m.Lda(m.Pointer(START));
    v := m.a;
    m.Sta(TAPE_DATA);
    m.EorZp(CHECKSUM);
    m.StaZp(CHECKSUM);
    IncPointer(m, START);
  }

  lemma OverAppends(base: seq<byte>, p: nat, written: seq<byte>)
    requires p <= |base|
    ensures forall v: byte :: Overwrite(Over(base, p, written), p + |written|, v) == Over(base, p, written + [v])
  {
    forall v: byte
      ensures Overwrite(Over(base, p, written), p + |written|, v) == Over(base, p, written + [v])
    {
      OverExtends(base, p, written, v);
    }
  }

  lemma BytesExtend(mem: Memory, start: word, i: nat)
    ensures Bytes(mem, start, i + 1) == Bytes(mem, start, i) + [mem.Read(At(start, i))]
    ensures Checksum(Bytes(mem, start, i + 1)) == Xor8(mem.Read(At(start, i)), Checksum(Bytes(mem, start, i)))
  {
    assert Bytes(mem, start, i + 1)[..i] == Bytes(mem, start, i);
  }

  lemma NoBytes(mem: Memory, start: word)
    ensures Bytes(mem, start, 0) == [] && Checksum([]) == 0
  {
  }

  /** SAVE_LOOP has written `i` of the `n` bytes of the range from `start` to `end`. */
  ghost predicate Written(
    m: Machine, mem0: Memory, t0: Tty, base: seq<byte>, p: nat, header: seq<byte>, start: word, end: word, i: nat)
    requires p <= |base| && start <= end < 0xFFFF
    reads m
  {
    var n := end - start + 1;
    var seen := SeenBytes(mem0, t0, start, n, i);
    && m.Valid() && Changed(mem0, m.mem, {0x44, 0xF0, 0xF1})
    && m.Pointer(START) == start + i <= end + 1 && m.Pointer(END) == end
    && m.mem.Read(CHECKSUM) == Checksum(seen)
    && m.tty == t0.(tape := Over(base, p, header + seen), position := p + |header| + i,
                    rxReady := t0.rxReady && !(start <= 0x8001 < start + i))
  }

  /** The registers other than TAPE_DATA while the loop runs. */
  lemma RegisterStays(t0: Tty, t: Tty, offset: byte)
    requires offset != 4
    requires t == t0.(tape := t.tape, position := t.position, rxReady := t.rxReady)
    requires offset == 0 ==> t.rxReady == t0.rxReady
    ensures t.Read(offset) == t0.Read(offset)
  {
  }

  /** A memory cell while the loop runs with its cursor there. */
  lemma CellSeen(mem0: Memory, mem: Memory, t: Tty, start: word, n: word, i: nat, addr: word)
    requires At(start, i) == addr && !InTty(addr)
    requires Changed(mem0, mem, {0x44, 0xF0, 0xF1}) && Word(mem.Read(0xF0), mem.Read(0xF1)) == addr
    requires Word(mem0.Read(0x42), mem0.Read(0x43)) == n
    requires mem.Read(0x44) == Checksum(SeenBytes(mem0, t, start, n, i))
    ensures Seen(mem0, t, start, n, i) == mem.Read(addr)
  {
    hide Memory.Read, Checksum, At, SeenBytes, Changed, Tty.Read, InTty, Word, Lo, Hi;
    HalvesOf(mem0.Read(0x42), mem0.Read(0x43));
    HalvesOf(mem.Read(0xF0), mem.Read(0xF1));
    assert Lo(0xF0) == 0xF0 && Hi(0xF1) == 0 by { CursorHalves(); }
    if addr != 0x44 && addr != 0xF0 && addr != 0xF1 {
      ChangedCell(mem0, mem, {0x44, 0xF0, 0xF1}, addr);
    }
  }

  lemma CursorHalves()
    ensures Lo(0xF0) == 0xF0 && Hi(0xF1) == 0
  {
  }

  /** What is at the cursor is what Seen says. */
  lemma CursorSees(
    m: Machine, mem0: Memory, t0: Tty, base: seq<byte>, p: nat, header: seq<byte>, start: word, end: word, i: nat)
    requires p <= |base| && start <= end < 0xFFFF && start + i <= end && start + i != TAPE_DATA
    requires Word(mem0.Read(0x42), mem0.Read(0x43)) == end - start + 1
    requires Written(m, mem0, t0, base, p, header, start, end, i)
    ensures
      var addr := start + i;
      Seen(mem0, t0, start, end - start + 1, i) ==
        if InTty(addr) then m.tty.Read(addr - TTY_BASE) else m.mem.Read(addr)
  {
    hide Memory.Read, Over, Checksum, SeenBytes, Changed, Word, Tty.Read;
    var addr := start + i;
    assert At(start, i) == addr;
    if InTty(addr) {
      RegisterStays(t0, m.tty, addr - TTY_BASE);
    } else {
      hide Seen, At, InTty;
      CellSeen(mem0, m.mem, t0, start, end - start + 1, i, addr);
    }
  }

  /** SAVE_LOOP: every byte of START..END, in order. */
  method SaveData(m: Machine, ghost base: seq<byte>, ghost p: nat, ghost header: seq<byte>)
    requires m.Valid() && m.tty.present && m.tty.motor && m.mem.Read(CHECKSUM) == 0
    requires m.Pointer(START) <= m.Pointer(END) < 0xFFFF && !(m.Pointer(START) <= TAPE_DATA <= m.Pointer(END))
    requires m.Pointer(LEN) == m.Pointer(END) - m.Pointer(START) + 1
    requires p <= |base| && m.tty.tape == Over(base, p, header) && m.tty.position == p + |header|
    requires !m.tty.eot && !m.tty.error
    modifies m`a, m`c, m`y, m`z, m`mem, m`tty
    ensures
      var start, end := old(m.Pointer(START)), old(m.Pointer(END));
      Written(m, old(m.mem), old(m.tty), base, p, header, start, end, end - start + 1)
  {
    hide Over, Seen, SeenBytes, Checksum, Xor8, Memory.Read, Word, Changed;
    ghost var start, end := m.Pointer(START), m.Pointer(END);
    ghost var mem0, t0, n := m.mem, m.tty, end - start + 1;
    ghost var i: nat := 0;
    NothingSeen(mem0, t0, start, n);
    ChangedNothing(mem0, {0x44, 0xF0, 0xF1});
    assert header + [] == header;
    var more := CursorInRange(m);
    while more
      invariant i <= n && more == (start + i <= end)
      invariant Written(m, mem0, t0, base, p, header, start, end, i)
      decreases n - i
    {
      SaveTurn(m, mem0, t0, base, p, header, start, end, i);
      i := i + 1;
      more := CursorInRange(m);
    }
  }

  method SaveTurn(
    m: Machine, ghost mem0: Memory, ghost t0: Tty, ghost base: seq<byte>, ghost p: nat, ghost header: seq<byte>,
    ghost start: word, ghost end: word, ghost i: nat)
    requires p <= |base| && start <= end < 0xFFFF && start + i <= end && start + i != TAPE_DATA
    requires t0.present && t0.motor && !t0.eot && !t0.error
    requires Word(mem0.Read(0x42), mem0.Read(0x43)) == end - start + 1
    requires Written(m, mem0, t0, base, p, header, start, end, i)
    modifies m`a, m`y, m`z, m`mem, m`tty
    ensures Written(m, mem0, t0, base, p, header, start, end, i + 1)
  {
    hide Over, Seen, SeenBytes, Checksum, Xor8, Memory.Read, Word, Changed;
    ghost var n, m1 := end - start + 1, m.mem;
    ghost var written := header + SeenBytes(mem0, t0, start, n, i);
    CursorSees(m, mem0, t0, base, p, header, start, end, i);
    ghost var v := SaveByte(m, base, p, written);
    SeenExtends(mem0, t0, start, n, i);
    assert written + [v] == header + SeenBytes(mem0, t0, start, n, i + 1);
    ChangedTwice(mem0, m1, m.mem, {0x44, 0xF0, 0xF1}, {0x44, 0xF0, 0xF1});
  }

  /** `i` turns of SAVE's or LIST's loop have not taken the cursor further than one past END. */
  predicate NotPassed(start: word, end: word, i: nat) {
    if end < start then i == 0 else end < 0xFFFF ==> start + i <= end + 1
  }

  lemma CursorStarts(start: word, end: word)
    ensures At(start, 0) == start && NotPassed(start, end, 0)
  {
  }

  lemma CursorMoves(start: word, end: word, i: nat)
    requires NotPassed(start, end, i) && At(start, i) <= end
    ensures At(start, i + 1) == Inc16(At(start, i)) && NotPassed(start, end, i + 1)
  {
    AtNext(start, i);
  }

  lemma CursorPasses(start: word, end: word, i: nat)
    requires NotPassed(start, end, i)
    ensures At(start, i) > end <==> end < start || (end < 0xFFFF && end - start < i)
  {
  }

  /** At most `turns` turns of SAVE_LOOP, on whatever range, tape and device: its exit is
      reached exactly when END is below $FFFF and that many turns pass it. So with END at
      $FFFF it is not reached after any number of turns, and SAVE never ends. */
  method SaveTurns(m: Machine, turns: nat) returns (done: bool)
    requires m.Valid()
    modifies m`a, m`c, m`y, m`z, m`mem, m`tty
    ensures m.Valid()
    ensures
      var start, end := old(m.Pointer(START)), old(m.Pointer(END));
      done <==> end < start || (end < 0xFFFF && end - start < turns)
  {
    hide Over, Memory.Read, Word, Changed, At, NotPassed, Xor8;
    ghost var start, end := m.Pointer(START), m.Pointer(END);
    var i := 0;
    CursorStarts(start, end);
    var more := CursorInRange(m);
    while more && i < turns
      invariant m.Valid() && i <= turns && m.Pointer(END) == end && m.Pointer(START) == At(start, i)
      invariant more == (At(start, i) <= end) && NotPassed(start, end, i)
    {
      CursorMoves(start, end, i);
      ghost var v := SaveByte(m, [], 0, []);
      i := i + 1;
      more := CursorInRange(m);
    }
    CursorPasses(start, end, i);
    return !more;
  }

  lemma BytesAgree(m1: Memory, m2: Memory, start: word, end: word, cells: set<word>)
    requires start <= end && Changed(m1, m2, cells)
    requires forall addr: word :: start <= addr <= end ==> addr !in cells
    ensures Bytes(m1, start, end - start + 1) == Bytes(m2, start, end - start + 1)
  {
    var n := end - start + 1;
    forall i | 0 <= i < n
      ensures Bytes(m1, start, n)[i] == Bytes(m2, start, n)[i]
    {
      assert start <= At(start, i) <= end;
    }
  }

  /** RANGE_OK ($D01B): motor on, and the length on tape. */
  method StartBlock(m: Machine)
    requires m.Valid() && m.tty.OnTape() && m.Pointer(START) <= m.Pointer(END) < 0xFFFF
    modifies m`a, m`c, m`z, m`mem, m`tty
    ensures m.Valid() && Changed(old(m.mem), m.mem, {0x42, 0x43, 0x44}) && m.mem.Read(CHECKSUM) == 0
    ensures m.Pointer(START) == old(m.Pointer(START)) && m.Pointer(END) == old(m.Pointer(END))
    ensures m.Pointer(LEN) == old(m.Pointer(END)) - old(m.Pointer(START)) + 1
    ensures
      var t := old(m.tty);
      var n := old(m.Pointer(END)) - old(m.Pointer(START)) + 1;
      m.tty == t.(tape := Over(t.tape, t.position, [Lo(n), Hi(n)]), position := t.position + 2, motor := true,
                  eot := false, error := false)
  {
    hide Over, Memory.Read, Word, Lo, Hi;
    m.LdaImm(0x01);
    m.Sta(TAPE_CONTROL);
    ComputeLength(m);
    WriteLength(m);
  }

  /** SAVE_DONE ($D065): the checksum on tape, and motor off. */
  method FinishBlock(m: Machine, ghost base: seq<byte>, ghost p: nat, ghost written: seq<byte>)
    requires m.Valid() && m.tty.present && m.tty.motor && !m.tty.eot && !m.tty.error
    requires p <= |base| && m.tty.tape == Over(base, p, written) && m.tty.position == p + |written|
    modifies m`a, m`z, m`mem, m`tty
    ensures m.Valid() && m.mem == old(m.mem)
    ensures
      m.tty == old(m.tty).(tape := Over(base, p, written + [old(m.mem).Read(CHECKSUM)]), position := p + |written| + 1,
                           motor := false)
  {
    hide Over, Memory.Read;
    m.LdaZp(CHECKSUM);
    PutTape(m, base, p, written);
    m.LdaImm(0x00);
    m.Sta(TAPE_CONTROL);
  }

  /** SAVE from RANGE_OK on. */
  method SaveBlock(m: Machine)
    requires m.Valid() && m.tty.OnTape()
    requires m.Pointer(START) <= m.Pointer(END) < 0xFFFF && !(m.Pointer(START) <= TAPE_DATA <= m.Pointer(END))
    modifies m`a, m`c, m`y, m`z, m`mem, m`tty
    ensures m.Valid() && Changed(old(m.mem), m.mem, WORKSPACE)
    ensures
      var start, end, t := old(m.Pointer(START)), old(m.Pointer(END)), old(m.tty);
      var n := end - start + 1;
      m.tty == AfterSave(t, SeenBytes(old(m.mem), Saving(t), start, n, n)).(
        rxReady := t.rxReady && !(start <= 0x8001 <= end))
  {
    hide Over, Seen, SeenBytes, Checksum, Changed, Memory.Read, Word;
    ghost var mem0, t0 := m.mem, m.tty;
    ghost var start, end := m.Pointer(START), m.Pointer(END);
    ghost var n := end - start + 1;
    ghost var header, data := [Lo(n), Hi(n)], SeenBytes(mem0, Saving(t0), start, n, n);
    StartBlock(m);
    ghost var mem1 := m.mem;
    SeenAlike(mem0, mem1, Saving(t0), m.tty, start, n, n);
    SaveData(m, t0.tape, t0.position, header);
    ChangedBoth(mem0, mem1, m.mem, {0x42, 0x43, 0x44}, {0x44, 0xF0, 0xF1}, WORKSPACE);
    FinishBlock(m, t0.tape, t0.position, header + data);
  }

  /** SAVE ($D000). Without a tape, or with END before START, it prints the error line and
      touches nothing else; otherwise the block of START..END goes on the tape, as SAVE sees
      the range. It ends for every END below $FFFF (SaveTurns); TAPE_DATA in the range would
      be read while it is written. */
  method Save(m: Machine)
    requires m.Valid()
    requires m.tty.present && m.Pointer(START) <= m.Pointer(END) ==>
               m.Pointer(END) < 0xFFFF && !(m.Pointer(START) <= TAPE_DATA <= m.Pointer(END))
    modifies m
    ensures m.Valid() && m.sp == old(m.sp)
    ensures
      var start, end, t := old(m.Pointer(START)), old(m.Pointer(END)), old(m.tty);
      if !t.present || end < start then
        && m.tty == t.(out := t.out + ERROR_LINE)
        && SameBut(old(m.mem), m.mem, m.sp, 2)
      else
        var n := end - start + 1;
        && Changed(old(m.mem), m.mem, WORKSPACE)
        && m.tty == AfterSave(t, SeenBytes(old(m.mem), Saving(t), start, n, n)).(
             rxReady := t.rxReady && !(start <= 0x8001 <= end))
        && (SourceClear(start, end) ==> m.tty == AfterSave(t, Bytes(old(m.mem), start, n)))
        && m.tty.position == t.position + n + 3 && m.tty.out == t.out
        && !m.tty.motor && !m.tty.eot && !m.tty.error
  {
    hide AfterSave, Bytes, SeenBytes, SourceClear;
    PresentBit(m.tty);
    m.Lda(TAPE_STATUS);
    m.AndImm(0x01);
    if m.z {
      m.PrintError(0xD074);
      return;
    }
    var ok := RangeOk(m);
    if !ok {
      m.PrintError(0xD074);
      return;
    }
    ClearRangeIsMemory(m.mem, m.tty, m.Pointer(START), m.Pointer(END));
    SaveBlock(m);
  }

  lemma ClearRangeIsMemory(mem: Memory, t: Tty, start: word, end: word)
    requires start <= end < 0xFFFF && t.OnTape()
    ensures
      var n := end - start + 1;
      SourceClear(start, end) ==>
        && SeenBytes(mem, Saving(t), start, n, n) == Bytes(mem, start, n)
        && AfterSave(t, Bytes(mem, start, n)) ==
             AfterSave(t, Bytes(mem, start, n)).(rxReady := t.rxReady && !(start <= 0x8001 <= end))
    ensures
      var n := end - start + 1;
      var u := AfterSave(t, SeenBytes(mem, Saving(t), start, n, n));
      u.position == t.position + n + 3 && u.out == t.out && !u.motor && !u.eot && !u.error
  {
    if SourceClear(start, end) {
      SeenIsMemory(mem, Saving(t), start, end, end - start + 1, end - start + 1);
      assert !InTty(0x8001) || !(start <= 0x8001 <= end);
    }
  }

  // ---------- LOAD ----------

  lemma {:induction false} OrIsZero(a: nat, b: nat)
    ensures Or(a, b) == 0 <==> a == 0 && b == 0
  {
    if a != 0 && b != 0 {
      OrIsZero(a / 2, b / 2);
    }
  }

  /** READ_TAPE_BYTE ($D16E) up to its RTS: the next tape byte with carry clear, or carry
      set at the end. */
  method TapeByte(m: Machine)
    requires m.Valid() && m.tty.OnTape() && m.tty.motor
    modifies m`a, m`c, m`z, m`mem, m`tty, m`sp
    ensures m.Valid() && m.sp == old(m.sp) && SameBut(old(m.mem), m.mem, m.sp, 1)
    ensures
      var t := old(m.tty);
      if t.position < |t.tape| then
        !m.c && m.a == t.tape[t.position] && m.tty == t.(position := t.position + 1, eot := false, error := false)
      else
        m.c && m.tty == t.(eot := true, error := true)
  {
    m.Lda(TAPE_DATA);
    m.Pha();
    ErrorBit(m.tty);
    m.Lda(TAPE_STATUS);
    m.AndImm(0x08);
    if m.z {
      m.Pla();
      m.Clc();
    } else {
      m.Pla();
      m.Sec();
    }
  }

  /** READ_TAPE_BYTE called by the JSR whose last byte is at `last`. */
  method ReadTapeByte(m: Machine, last: word)
    requires m.Valid() && m.tty.OnTape() && m.tty.motor
    modifies m`a, m`c, m`z, m`mem, m`tty, m`sp
    ensures m.Valid() && m.sp == old(m.sp) && SameBut(old(m.mem), m.mem, m.sp, 3)
    ensures
      var t := old(m.tty);
      if t.position < |t.tape| then
        !m.c && m.a == t.tape[t.position] && m.tty == t.(position := t.position + 1, eot := false, error := false)
      else
        m.c && m.tty == t.(eot := true, error := true)
  {
    ghost var m0, s := m.mem, m.sp;
    m.Jsr(last);
    ghost var m1 := m.mem;
    TapeByte(m);
    CallFrame(m0, m1, m.mem, s, 1);
    m.Rts(last);
  }

  /** 16-bit DEC of the length counter, wrapping at zero. */
  method DecLength(m: Machine)
    requires m.Valid()
    modifies m`a, m`z, m`mem
    ensures m.Valid() && m.Pointer(LEN) == (old(m.Pointer(LEN)) - 1) % 0x1_0000
    ensures Changed(old(m.mem), m.mem, {0x42, 0x43})
  {
    m.LdaZp(0x42);
    if m.z {
      m.DecZp(0x43);
    }
    m.DecZp(0x42);
  }

  /** A is folded into the checksum and kept. */
  method FoldChecksum(m: Machine)
    requires m.Valid()
    modifies m`a, m`z, m`mem, m`sp
    ensures m.Valid() && m.sp == old(m.sp) && m.a == old(m.a)
    ensures m.mem.ram.Keys == old(m.mem).ram.Keys && m.mem.rom == old(m.mem).rom
    ensures m.mem.Read(CHECKSUM) == Xor8(m.a, old(m.mem).Read(CHECKSUM))
    ensures forall addr: word :: addr != 0x44 && !Scratch(addr, m.sp, 1) ==> m.mem.Read(addr) == old(m.mem).Read(addr)
  {
    m.Pha();
    m.EorZp(CHECKSUM);
    m.StaZp(CHECKSUM);
    m.Pla();
  }

  /** One turn of LOAD_LOOP after a successful read: A goes into the checksum and to the
      cursor; cursor and length move on. */
  method StoreByte(m: Machine)
    requires m.Valid() && m.Pointer(LEN) > 0
    requires !InTty(m.Pointer(START)) && m.Pointer(START) !in WORKSPACE
    modifies m`a, m`c, m`y, m`z, m`mem, m`tty, m`sp
    ensures m.Valid() && m.sp == old(m.sp) && m.tty == old(m.tty)
    ensures m.mem.ram.Keys == old(m.mem).ram.Keys && m.mem.rom == old(m.mem).rom
    ensures m.Pointer(START) == Inc16(old(m.Pointer(START))) && m.Pointer(LEN) == old(m.Pointer(LEN)) - 1
    ensures m.mem.Read(CHECKSUM) == Xor8(old(m.a), old(m.mem).Read(CHECKSUM))
    ensures
      forall addr: word :: addr !in WORKSPACE && !Scratch(addr, m.sp, 1) ==>
        m.mem.Read(addr) == if addr == old(m.Pointer(START)) && addr < 0x8000 then old(m.a) else old(m.mem).Read(addr)
  {
    hide Memory.Read, Xor8, Word, Inc16;
    FoldChecksum(m);
    m.LdyImm(0x00);
    m.Sta(m.Pointer(START));
    IncPointer(m, START);
    DecLength(m);
  }

  /** LOAD_LOOP has stored `i` of the `len` bytes that follow the header on tape `t`. */
  ghost predicate Loading(m: Machine, mem0: Memory, t: Tty, s: byte, target: word, len: word, i: nat)
    requires t.position <= |t.tape|
    reads m
  {
    && m.Valid() && m.sp == s
    && i <= Min(len, |t.tape| - t.position)
    && m.Pointer(START) == At(target, i) && m.Pointer(LEN) == len - i
    && m.mem.Read(CHECKSUM) == Checksum(t.tape[t.position..t.position + i])
    && HoldsStored(WORKSPACE, 3, mem0, m.mem, target, t.tape[t.position..t.position + i], s)
  }

  /** One turn of LOAD_LOOP: a byte is read and stored, or the tape is at its end. */
  method LoadTurn(m: Machine, ghost mem0: Memory, ghost t: Tty, ghost target: word, ghost len: word, ghost i: nat)
    returns (more: bool)
    requires t.OnTape() && t.motor && m.tty == t.(position := t.position + i)
    requires Loading(m, mem0, t, m.sp, target, len, i) && i < len
    requires TargetClear(WORKSPACE, target, Min(len, |t.tape| - t.position))
    modifies m`a, m`c, m`y, m`z, m`mem, m`tty, m`sp
    ensures m.sp == old(m.sp) && more == (t.position + i < |t.tape|)
    ensures Loading(m, mem0, t, m.sp, target, len, if more then i + 1 else i)
    ensures
      m.tty == if more then t.(position := t.position + i + 1, eot := false, error := false)
               else t.(position := t.position + i, eot := true, error := true)
  {
    hide Checksum, Xor8, Memory.Write, At, HoldsStored;
    ghost var m1, p := m.mem, t.position;
    AtNext(target, i);
    ReadTapeByte(m, 0xD129);
    if m.c {
      StoredThroughCall(WORKSPACE, 3, mem0, m1, m.mem, target, t.tape[p..p + i], m.sp);
      return false;
    }
    assert !InTty(At(target, i)) && At(target, i) !in WORKSPACE;
    ghost var m2, v := m.mem, m.a;
    StoreByte(m);
    StoredExtends(WORKSPACE, 3, mem0, m1, m2, m.mem, target, t.tape[p..p + i], v, m.sp);
    ChecksumExtends(t.tape, p, i);
    return true;
  }

  lemma ChecksumExtends(tape: seq<byte>, p: nat, i: nat)
    requires p + i < |tape|
    ensures tape[p..p + i] + [tape[p + i]] == tape[p..p + i + 1]
    ensures Checksum(tape[p..p + i + 1]) == Xor8(tape[p + i], Checksum(tape[p..p + i]))
  {
    assert tape[p..p + i + 1][..i] == tape[p..p + i];
  }

  /** LEN == 0, by OR of its bytes. */
  method NoneLeft(m: Machine) returns (none: bool)
    modifies m`a, m`z
    ensures none == (m.Pointer(LEN) == 0)
  {
    OrIsZero(m.mem.Read(0x42), m.mem.Read(0x43));
    m.LdaZp(0x42);
    m.OraZp(0x43);
    return m.z;
  }

  /** LOAD_LOOP: from a read header to the checksum read, or the end of the tape. `ok` says
      that all LEN bytes were there. */
  method LoadData(m: Machine, ghost target: word, ghost len: word) returns (ok: bool)
    requires m.Valid() && m.tty.OnTape() && m.tty.motor && !m.tty.eot && !m.tty.error
    requires m.Pointer(START) == target && m.Pointer(LEN) == len && m.mem.Read(CHECKSUM) == 0
    requires TargetClear(WORKSPACE, target, Min(len, |m.tty.tape| - m.tty.position))
    modifies m`a, m`c, m`y, m`z, m`mem, m`tty, m`sp
    ensures m.sp == old(m.sp)
    ensures
      var t := old(m.tty);
      var n := Min(len, |t.tape| - t.position);
      && ok == (n == len)
      && Loading(m, old(m.mem), t, m.sp, target, len, n)
      && m.tty == t.(position := t.position + n, eot := !ok, error := !ok)
  {
    hide Checksum, HoldsStored, At, TargetClear, Memory.Read, Word;
    ghost var mem0, t := m.mem, m.tty;
    ghost var i := 0;
    AtNext(target, 0);
    StoredNothing(WORKSPACE, 3, mem0, target, m.sp);
    NoBytes(mem0, target);
    assert t.tape[t.position..t.position + 0] == [];
    while true
      invariant m.sp == old(m.sp) && Loading(m, mem0, t, m.sp, target, len, i)
      invariant m.tty == t.(position := t.position + i)
      decreases len - i
    {
      var done := NoneLeft(m);
      if done {
        return true;
      }
      var more := LoadTurn(m, mem0, t, target, len, i);
      if !more {
        return false;
      }
      i := i + 1;
    }
  }

  /** The two header bytes, and checksum := 0. */
  method LoadHeader(m: Machine, ghost target: word) returns (ok: bool)
    requires m.Valid() && m.tty.OnTape() && m.tty.motor
    modifies m`a, m`c, m`z, m`mem, m`tty, m`sp
    ensures m.Valid() && m.sp == old(m.sp) && m.Pointer(START) == old(m.Pointer(START))
    ensures HoldsStored(WORKSPACE, 3, old(m.mem), m.mem, target, [], m.sp)
    ensures
      var t := old(m.tty);
      && ok == (t.position + 2 <= |t.tape|)
      && if ok then
           && m.tty == t.(position := t.position + 2, eot := false, error := false)
           && m.Pointer(LEN) == Word(t.tape[t.position], t.tape[t.position + 1])
           && m.mem.Read(CHECKSUM) == 0
         else m.tty == t.(position := |t.tape|, eot := true, error := true)
  {
    hide Memory.Read, At;
    ReadTapeByte(m, 0xD111);
    if m.c {
      return false;
    }
    m.StaZp(0x42);
    ReadTapeByte(m, 0xD118);
    if m.c {
      return false;
    }
    m.StaZp(0x43);
    m.LdaImm(0x00);
    m.StaZp(CHECKSUM);
    return true;
  }

  /** LOAD_VERIFY: the byte after the data is there and equals the running checksum. */
  method VerifyChecksum(m: Machine, ghost mem0: Memory, ghost target: word, ghost data: seq<byte>) returns (ok: bool)
    requires m.Valid() && m.tty.OnTape() && m.tty.motor
    requires HoldsStored(WORKSPACE, 3, mem0, m.mem, target, data, m.sp)
    modifies m`a, m`c, m`z, m`mem, m`tty, m`sp
    ensures m.Valid() && m.sp == old(m.sp) && m.Pointer(START) == old(m.Pointer(START))
    ensures HoldsStored(WORKSPACE, 3, mem0, m.mem, target, data, m.sp)
    ensures
      var t := old(m.tty);
      if t.position < |t.tape| then
        && ok == (t.tape[t.position] == old(m.mem).Read(CHECKSUM))
        && m.tty == t.(position := t.position + 1, eot := false, error := false)
      else !ok && m.tty == t.(eot := true, error := true)
  {
    hide HoldsStored;
    ghost var m1 := m.mem;
    ReadTapeByte(m, 0xD149);
    StoredThroughCall(WORKSPACE, 3, mem0, m1, m.mem, target, data, m.sp);
    if m.c {
      return false;
    }
    m.Cmp(m.mem.Read(CHECKSUM));
    return m.z;
  }

  /** LOAD between the motor switches: header, data, verification. */
  method LoadBlock(m: Machine) returns (ok: bool)
    requires m.Valid() && m.tty.OnTape() && m.tty.motor
    requires TargetClear(WORKSPACE, m.Pointer(START), |LoadOutcome(m.tty.tape, m.tty.position).data|)
    modifies m`a, m`c, m`y, m`z, m`mem, m`tty, m`sp
    ensures m.Valid() && m.sp == old(m.sp)
    ensures
      var t, target := old(m.tty), old(m.Pointer(START));
      var r := LoadOutcome(t.tape, t.position);
      && ok == r.ok
      && m.tty == t.(position := r.position, eot := r.truncated, error := r.truncated)
      && m.Pointer(START) == At(target, |r.data|)
      && HoldsStored(WORKSPACE, 3, old(m.mem), m.mem, target, r.data, m.sp)
  {
    hide Checksum, HoldsStored, LoadOutcome, At, TargetClear, Memory.Read, Word;
    ghost var mem0, t, target := m.mem, m.tty, m.Pointer(START);
    OutcomeParts(t.tape, t.position);
    AtNext(target, 0);
    var present := LoadHeader(m, target);
    if !present {
      return false;
    }
    ghost var len, mem1, p := m.Pointer(LEN), m.mem, m.tty.position;
    var all := LoadData(m, target, len);
    ghost var n := Min(len, |t.tape| - p);
    StoredAfter(WORKSPACE, 3, mem0, mem1, m.mem, target, t.tape[p..p + n], m.sp);
    if !all {
      return false;
    }
    ok := VerifyChecksum(m, mem0, target, t.tape[p..p + n]);
  }

  /** LoadOutcome in the order LOAD finds things out. */
  lemma OutcomeParts(tape: seq<byte>, p: nat)
    requires p <= |tape|
    ensures
      var r := LoadOutcome(tape, p);
      if p + 2 > |tape| then r == Outcome([], |tape|, true, false)
      else
        var len := Word(tape[p], tape[p + 1]);
        var n := Min(len, |tape| - (p + 2));
        && r.data == tape[p + 2..p + 2 + n] && |r.data| == n
        && if n < len || p + 2 + n >= |tape| then r.truncated && !r.ok && r.position == |tape|
           else !r.truncated && r.position == p + 2 + n + 1 && r.ok == (Checksum(r.data) == tape[p + 2 + n])
  {
  }

  /** LOAD ($D100). Without a tape it prints the error line and touches nothing else. With
      one it stores the data of the block under the head, as much of it as the tape has, and
      prints the error line exactly when the block is cut short or its checksum is wrong. */
  method Load(m: Machine)
    requires m.Valid()
    requires m.tty.present ==> TargetClear(WORKSPACE, m.Pointer(START), |LoadOutcome(m.tty.tape, m.tty.position).data|)
    modifies m
    ensures m.Valid() && m.sp == old(m.sp)
    ensures
      if !old(m.tty.present) then
        && m.tty == old(m.tty).(out := old(m.tty.out) + ERROR_LINE)
        && SameBut(old(m.mem), m.mem, m.sp, 2)
      else
        var target, data := old(m.Pointer(START)), LoadOutcome(old(m.tty.tape), old(m.tty.position)).data;
        && m.tty == AfterLoad(old(m.tty))
        && m.Pointer(START) == At(target, |data|)
        && HoldsStored(WORKSPACE, 3, old(m.mem), m.mem, target, data, m.sp)
        && !m.tty.motor && m.tty.tape == old(m.tty.tape)
        && m.tty.out == old(m.tty.out) +
             (if LoadOutcome(old(m.tty.tape), old(m.tty.position)).ok then [] else [0x3F, 0x0D, 0x0A])
  {
    hide LoadOutcome, At, HoldsStored, TargetClear, Memory.Read, Word;
    PresentBit(m.tty);
    m.Lda(TAPE_STATUS);
    m.AndImm(0x01);
    if m.z {
      m.PrintError(0xD162);
      return;
    }
    m.LdaImm(0x01);
    m.Sta(TAPE_CONTROL);
    ghost var mem0, target, data := m.mem, m.Pointer(START), LoadOutcome(m.tty.tape, m.tty.position).data;
    var ok := LoadBlock(m);
    m.LdaImm(0x00);
    m.Sta(TAPE_CONTROL);
    if !ok {
      ghost var m1 := m.mem;
      m.PrintError(0xD162);
      ErrorKeeps(mem0, m1, m.mem, target, data, m.sp);
    }
  }

  /** Printing the error line leaves block and cursor. */
  lemma ErrorKeeps(mem0: Memory, m1: Memory, m2: Memory, target: word, data: seq<byte>, sp: byte)
    requires HoldsStored(WORKSPACE, 3, mem0, m1, target, data, sp) && SameBut(m1, m2, sp, 2)
    ensures HoldsStored(WORKSPACE, 3, mem0, m2, target, data, sp)
    ensures Word(m2.Read(0xF0), m2.Read(0xF1)) == Word(m1.Read(0xF0), m1.Read(0xF1))
  {
    hide Word;
    StoredThroughCall(WORKSPACE, 3, mem0, m1, m2, target, data, sp);
  }

  /** LOAD called by a JSR, as DISPATCH's caller does: unless the data lands on the return
      address, it returns there with SP as it was. */
  method CallLoad(m: Machine, last: word)
    requires m.Valid() && m.tty.OnTape()
    requires
      var n := |LoadOutcome(m.tty.tape, m.tty.position).data|;
      && TargetClear(WORKSPACE, m.Pointer(START), n)
      && forall i: nat :: i < n ==>
           At(m.Pointer(START), i) != StackCell(m.sp) && At(m.Pointer(START), i) != StackCell(Dec8(m.sp))
    modifies m
    ensures m.Valid() && m.sp == old(m.sp) && m.tty == AfterLoad(old(m.tty))
    ensures
      HoldsStored(WORKSPACE, 5, old(m.mem), m.mem, old(m.Pointer(START)),
                  LoadOutcome(old(m.tty.tape), old(m.tty.position)).data, m.sp)
  {
    hide LoadOutcome, AfterLoad, At, HoldsStored, TargetClear, Memory.Read, Word, Lo, Hi, Inc8, Dec8;
    hide SameBut, StackCell;
    ghost var m0, s0 := m.mem, m.sp;
    ghost var target, data := m.Pointer(START), LoadOutcome(m.tty.tape, m.tty.position).data;
    m.Jsr(last);
    PointerKept(m0, m.mem, s0);
    ghost var m1 := m.mem;
    Load(m);
    ReturnSurvives(WORKSPACE, 3, m1, m.mem, target, data, s0);
    m.Rts(last);
    StoredCalled(WORKSPACE, 3, m0, m1, m.mem, target, data, s0);
  }

  lemma PointerKept(m1: Memory, m2: Memory, sp: byte)
    requires SameBut(m1, m2, sp, 2)
    ensures m2.Read(0xF0) == m1.Read(0xF0) && m2.Read(0xF1) == m1.Read(0xF1)
  {
  }

  // ---------- LOAD anywhere ----------

  /** Where the cursor is after a turn that stores `b`: one further, unless `b` went into one
      of its own two cells. */
  function NextCursor(cursor: word, b: byte): word {
    Inc16(if cursor == 0xF0 then Word(b, 0x00) else if cursor == 0xF1 then Word(0xF1, b) else cursor)
  }

  /** The same for LEN. */
  function NextLength(cursor: word, length: word, b: byte): word {
    var stored :=
      if cursor == 0x42 then Word(b, Hi(length)) else if cursor == 0x43 then Word(Lo(length), b) else length;
    (stored - 1) % 0x1_0000
  }

  /** The device registers that do something on a write. */
  const DRIVING: set<word> := {0x8001, 0x8003, 0x8004}

  /** None of the bytes LOAD stores goes into such a register. `data` is what the tape holds
      from the head on; RAM, ROM, LOAD's own cells and the stack may all be hit. */
  predicate StaysOffDevice(cursor: word, length: word, data: seq<byte>)
    decreases |data|
  {
    if length == 0 || data == [] then true
    else
      cursor !in DRIVING
      && StaysOffDevice(NextCursor(cursor, data[0]), NextLength(cursor, length, data[0]), data[1..])
  }

  /** So it is wherever the target is clear of those registers and of the cursor. */
  lemma {:induction false} ClearStaysOff(cursor: word, length: word, data: seq<byte>)
    requires forall i: nat :: i < |data| ==> At(cursor, i) !in DRIVING + {0xF0, 0xF1}
    ensures StaysOffDevice(cursor, length, data)
    decreases |data|
  {
    hide NextLength, Word;
    if data != [] {
      assert At(cursor, 0) == cursor;
      forall i: nat | i < |data| - 1
        ensures At(Inc16(cursor), i) !in DRIVING + {0xF0, 0xF1}
      {
        assert At(Inc16(cursor), i) == At(cursor, i + 1);
      }
      ClearStaysOff(Inc16(cursor), NextLength(cursor, length, data[0]), data[1..]);
    }
  }

  /** Bytes put into the cursor can lead it onto the device: $7F at $F1 sends it to $7FF2, so
      that the 18th byte after that one goes into the tape control register. */
  lemma CursorIsSteered(length: word, data: seq<byte>)
    requires length >= 19 && |data| >= 19 && data[0] == 0x7F
    ensures !StaysOffDevice(0xF1, length, data)
  {
    hide Hi, Lo, StaysOffDevice;
    RunsOn(0x7FF2, length - 1, data[1..]);
    Unfold(0xF1, length, data);
  }

  lemma Unfold(cursor: word, length: word, data: seq<byte>)
    requires length > 0 && data != []
    ensures
      StaysOffDevice(cursor, length, data) <==>
        && cursor !in DRIVING
        && StaysOffDevice(NextCursor(cursor, data[0]), NextLength(cursor, length, data[0]), data[1..])
  {
  }

  lemma {:induction false} RunsOn(cursor: word, length: word, data: seq<byte>)
    requires 0x7F00 <= cursor <= 0x8003 && 0x8003 - cursor < |data| && 0x8003 - cursor < length
    ensures !StaysOffDevice(cursor, length, data)
    decreases |data|
  {
    hide Hi, Lo, StaysOffDevice;
    Unfold(cursor, length, data);
    if cursor < 0x8003 {
      RunsOn(cursor + 1, length - 1, data[1..]);
    }
  }

  /** One turn of LOAD_LOOP after a successful read, wherever the cursor is. */
  method StoreAnywhere(m: Machine)
    requires m.Valid() && m.Pointer(START) !in DRIVING
    modifies m`a, m`c, m`y, m`z, m`mem, m`tty, m`sp
    ensures m.Valid() && m.sp == old(m.sp) && m.tty == old(m.tty)
    ensures m.Pointer(START) == NextCursor(old(m.Pointer(START)), old(m.a))
    ensures m.Pointer(LEN) == NextLength(old(m.Pointer(START)), old(m.Pointer(LEN)), old(m.a))
  {
    hide Memory.Read, Xor8;
    FoldChecksum(m);
    m.LdyImm(0x00);
    StoreAtCursor(m);
    IncPointer(m, START);
    DecLength(m);
  }

  /** STA ($F0),Y with Y = 0. */
  method StoreAtCursor(m: Machine)
    requires m.Valid() && m.Pointer(START) !in DRIVING
    modifies m`mem, m`tty
    ensures m.Valid() && m.tty == old(m.tty)
    ensures Inc16(m.Pointer(START)) == NextCursor(old(m.Pointer(START)), m.a)
    ensures (m.Pointer(LEN) - 1) % 0x1_0000 == NextLength(old(m.Pointer(START)), old(m.Pointer(LEN)), m.a)
  {
    hide Memory.Read, Inc16, Word;
    HalvesOf(m.mem.Read(0xF0), m.mem.Read(0xF1));
    HalvesOf(m.mem.Read(0x42), m.mem.Read(0x43));
    m.Sta(m.Pointer(START));
  }

  /** StaysOffDevice for what the tape holds from the head on. */
  predicate RestStaysOff(cursor: word, length: word, t: Tty) {
    t.position <= |t.tape| ==> StaysOffDevice(cursor, length, t.tape[t.position..])
  }

  /** LOAD_LOOP: every turn takes a byte from the tape, so it ends, whatever happens to LEN. */
  method DrainTape(m: Machine) returns (ok: bool)
    requires m.Valid() && m.tty.OnTape() && m.tty.motor
    requires RestStaysOff(m.Pointer(START), m.Pointer(LEN), m.tty)
    modifies m`a, m`c, m`y, m`z, m`mem, m`tty, m`sp
    ensures m.Valid() && m.sp == old(m.sp)
    ensures
      var t, p := old(m.tty), m.tty.position;
      t.position <= p <= |t.tape| && m.tty == t.(position := p, eot := m.tty.eot, error := m.tty.error)
  {
    hide Memory.Read, Word, NextCursor, NextLength;
    ghost var t := m.tty;
    while true
      invariant m.Valid() && m.sp == old(m.sp) && t.position <= m.tty.position <= |t.tape|
      invariant m.tty == t.(position := m.tty.position, eot := m.tty.eot, error := m.tty.error)
      invariant StaysOffDevice(m.Pointer(START), m.Pointer(LEN), t.tape[m.tty.position..])
      decreases |t.tape| - m.tty.position
    {
      ghost var p := m.tty.position;
      var done := NoneLeft(m);
      if done {
        return true;
      }
      ReadTapeByte(m, 0xD129);
      if m.c {
        return false;
      }
      assert t.tape[p..][1..] == t.tape[p + 1..];
      StoreAnywhere(m);
    }
  }

  /** LOAD between the motor switches. */
  method DrainBlock(m: Machine) returns (ok: bool)
    requires m.Valid() && m.tty.OnTape() && m.tty.motor && LoadStaysOff(m.Pointer(START), m.tty)
    modifies m`a, m`c, m`y, m`z, m`mem, m`tty, m`sp
    ensures m.Valid() && m.sp == old(m.sp)
    ensures
      var t, p := old(m.tty), m.tty.position;
      t.position <= p <= |t.tape| && m.tty == t.(position := p, eot := m.tty.eot, error := m.tty.error)
  {
    hide At, Memory.Read, Word, StaysOffDevice, HoldsStored;
    ghost var target := m.Pointer(START);
    var present := LoadHeader(m, target);
    if !present {
      return false;
    }
    ok := DrainTape(m);
    if ok {
      ghost var mem1 := m.mem;
      StoredNothing(WORKSPACE, 3, mem1, target, m.sp);
      ok := VerifyChecksum(m, mem1, target, []);
    }
  }

  /** StaysOffDevice for the block under the head, its length taken from its header. */
  predicate LoadStaysOff(target: word, t: Tty) {
    t.position + 2 <= |t.tape| ==>
      StaysOffDevice(target, Word(t.tape[t.position], t.tape[t.position + 1]), t.tape[t.position + 2..])
  }

  /** LOAD with any target from which it stays off the device, its own cells included: it ends
      with the motor off, SP as it was, the tape unchanged with the head on it, and nothing
      printed but an error line. */
  method LoadEnds(m: Machine)
    requires m.Valid() && m.tty.OnTape() && LoadStaysOff(m.Pointer(START), m.tty)
    modifies m
    ensures m.Valid() && m.sp == old(m.sp)
    ensures !m.tty.motor && m.tty.tape == old(m.tty.tape) && old(m.tty.position) <= m.tty.position <= |m.tty.tape|
    ensures m.tty.out == old(m.tty.out) || m.tty.out == old(m.tty.out) + ERROR_LINE
  {
    hide Memory.Read, Word, StaysOffDevice;
    m.LdaImm(0x01);
    m.Sta(TAPE_CONTROL);
    var ok := DrainBlock(m);
    m.LdaImm(0x00);
    m.Sta(TAPE_CONTROL);
    if !ok {
      m.PrintError(0xD162);
    }
  }

  // ---------- REWIND ----------

  /** REWIND ($D200): back to the start of the tape, motor off. */
  method Rewind(m: Machine)
    requires m.Valid()
    modifies m
    ensures m.Valid() && m.sp == old(m.sp) && SameBut(old(m.mem), m.mem, m.sp, 2)
    ensures
      m.tty == if old(m.tty.present) then AfterRewind(old(m.tty)) else old(m.tty).(out := old(m.tty.out) + ERROR_LINE)
    ensures
      old(m.tty.present) ==>
        && m.tty.position == 0 && !m.tty.motor && !m.tty.eot && !m.tty.error
        && m.tty.tape == old(m.tty.tape) && m.tty.out == old(m.tty.out)
  {
    PresentBit(m.tty);
    m.Lda(TAPE_STATUS);
    m.AndImm(0x01);
    if m.z {
      m.PrintError(0xD214);
      return;
    }
    m.LdaImm(0x02);
    m.Sta(TAPE_CONTROL);
  }
}
