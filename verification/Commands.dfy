/** The monitor's command line: DISPATCH, and MAIN_LOOP from READ_LINE to it, against a
    grammar of the line. */
module Commands {
  import opened Words
  import opened FlatMemory
  import opened Isa
  import opened TtyDevice
  import opened TapeBlocks
  import opened MonitorMachine
  import opened HexText
  import opened LineEditor
  import opened HexRoutines
  import opened ListPoke

  const DOT: byte := 0x2E
  const LETTER_L: byte := 0x4C
  const LETTER_R: byte := 0x52
  const LETTER_S: byte := 0x53
  const LETTER_W: byte := 0x57

  // ---------- what a line asks for ----------

  /** The routine a line is for; LIST and SAVE get a second address. */
  datatype Route = ToPeek | ToList(end: word) | ToSave(end: word) | ToPoke | ToRun | ToLoad | ToRewind | ToError

  /** After the line's first address, which ends at `pos`. */
  function RouteOf(line: seq<byte>, pos: nat): Route {
    if pos >= |line| then ToPeek
    else if line[pos] == DOT then RangeRoute(line, pos + 1)
    else if line[pos] == COLON then ToPoke
    else if line[pos] == SPACE then LetterRoute(line, pos + 1)
    else ToError
  }

  /** After the dot: a second address. */
  function RangeRoute(line: seq<byte>, pos: nat): Route
    requires pos <= |line|
  {
    HexRunIsMaximal(line, pos);
    var n := HexRun(line, pos);
    if n == 0 then ToError
    else
      var end := HexValue(line[pos..pos + n]) % 0x1_0000;
      TailRoute(line, pos + n, end)
  }

  /** After the second address: the end of the line or " S". */
  function TailRoute(line: seq<byte>, pos: nat, end: word): Route
    requires pos <= |line|
  {
    if pos == |line| then ToList(end)
    else if line[pos] == SPACE && pos + 1 < |line| && line[pos + 1] == LETTER_S then ToSave(end)
    else ToError
  }

  /** After the space: one letter. */
  function LetterRoute(line: seq<byte>, pos: nat): Route {
    if pos >= |line| then ToError
    else if line[pos] == LETTER_R then ToRun
    else if line[pos] == LETTER_L then ToLoad
    else if line[pos] == LETTER_W then ToRewind
    else ToError
  }

  /** The grammar of what follows the first address, in ASCII: nothing, ":", " R", " L" and " W",
      and "." with a second address that is followed by nothing or by " S". Every other text is
      the error line. */
  lemma RouteLaw(line: seq<byte>, pos: nat)
    requires pos <= |line|
    ensures
      var route, n := RouteOf(line, pos), if pos < |line| then HexRun(line, pos + 1) else 0;
      var letter := pos + 1 < |line| && line[pos] == 0x20;
      var behind, range := pos + 1 + n, pos < |line| && line[pos] == 0x2E && n > 0;
      && (route.ToPeek? <==> pos == |line|)
      && (route.ToPoke? <==> pos < |line| && line[pos] == 0x3A)
      && (route.ToRun? <==> letter && line[pos + 1] == 0x52)
      && (route.ToLoad? <==> letter && line[pos + 1] == 0x4C)
      && (route.ToRewind? <==> letter && line[pos + 1] == 0x57)
      && (route.ToList? <==> range && behind == |line|)
      && (route.ToSave? <==> range && behind + 1 < |line| && line[behind] == 0x20 && line[behind + 1] == 0x53)
      && (route.ToList? || route.ToSave? ==>
            && AllHex(line[pos + 1..behind])
            && route.end == HexValue(line[pos + 1..behind]) % 0x1_0000)
  {
    hide HexValue, HexRun;
    if pos < |line| {
      HexRunIsMaximal(line, pos + 1);
    }
  }

  /** A printed address, and then nothing, ":" or a blank and a letter: the address is read as
      the address it is, and the routine is PEEK, POKE, RUN, LOAD or REWIND. */
  lemma CommandIsUnderstood(line: seq<byte>, addr: word)
    requires |line| >= 4 && line[..4] == PrintedWord(addr)
    requires |line| > 4 ==> line[4] == 0x3A || (line[4] == 0x20 && |line| > 5 && line[5] in {0x52, 0x4C, 0x57})
    ensures HexRun(line, 0) == 4 && AllHex(line[0..4]) && HexValue(line[0..4]) % 0x1_0000 == addr
    ensures
      RouteOf(line, 4) ==
        if |line| == 4 then ToPeek
        else if line[4] == 0x3A then ToPoke
        else if line[5] == 0x52 then ToRun
        else if line[5] == 0x4C then ToLoad
        else ToRewind
  {
    hide HexValue, PrintedWord, HexRun;
    assert line[0..4] == line[..4];
    ParsePrintedAddress(line, 0, addr);
  }

  /** Addresses as the monitor prints them are read as the addresses they are. */
  lemma RangeIsUnderstood(line: seq<byte>, start: word, end: word)
    requires |line| >= 9 && line[..9] == PrintedWord(start) + [DOT] + PrintedWord(end)
    requires |line| == 9 || (|line| >= 11 && line[9] == SPACE && line[10] == LETTER_S)
    ensures HexRun(line, 0) == 4 && AllHex(line[0..4]) && HexValue(line[0..4]) % 0x1_0000 == start
    ensures RouteOf(line, 4) == if |line| == 9 then ToList(end) else ToSave(end)
  {
    hide HexValue, PrintedWord, HexRun;
    WordLength(start);
    WordLength(end);
    var first := line[..9];
    assert line[0..4] == first[..4] == PrintedWord(start) && line[4] == first[4] == DOT;
    assert line[5..9] == first[5..9] == PrintedWord(end);
    ParsePrintedAddress(line, 0, start);
    ParsePrintedAddress(line, 5, end);
  }

  lemma WordLength(w: word)
    ensures |PrintedWord(w)| == 4
  {
  }

  // ---------- DISPATCH ----------

  const DISPATCH_CELLS: set<word> := {0x41, 0xF0, 0xF1, 0xF2, 0xF3, 0xF5, 0xF6}

  /** A pointer is copied from page zero to page zero, low byte first. */
  method CopyPointer(m: Machine, from: byte, to: byte)
    requires m.Valid() && from < 0xFF && to < 0xFF && (from + 1 < to || to + 1 < from)
    modifies m`a, m`z, m`mem
    ensures m.Valid() && Changed(old(m.mem), m.mem, {to, to + 1}) && m.Pointer(to) == old(m.Pointer(from))
  {
    hide Memory.Read, Word;
    m.LdaZp(from);
    m.StaZp(to);
    m.LdaZp(from + 1);
    m.StaZp(to + 1);
  }

  /** START and END change places. */
  method SwapAddresses(m: Machine)
    requires m.Valid()
    modifies m`a, m`z, m`mem
    ensures m.Valid() && Changed(old(m.mem), m.mem, {0xF0, 0xF1, 0xF2, 0xF3, 0xF5, 0xF6})
    ensures m.Pointer(0xF0) == old(m.Pointer(0xF2)) && m.Pointer(0xF2) == old(m.Pointer(0xF0))
  {
    hide Memory.Read, Word;
    CopyPointer(m, 0xF0, 0xF5);
    CopyPointer(m, 0xF2, 0xF0);
    CopyPointer(m, 0xF5, 0xF2);
  }

  /** DOLIST ($C81E) around PARSE_ADDR: START keeps the first address, END gets the second. */
  method SecondAddress(m: Machine) returns (ok: bool)
    requires m.Valid() && m.mem.Read(LINELEN) <= 64
    modifies m`a, m`x, m`c, m`z, m`mem, m`sp
    ensures m.Valid() && m.sp == old(m.sp) && Kept(old(m.mem), m.mem, DISPATCH_CELLS, m.sp, 4)
    ensures
      var line, pos := Line(old(m.mem)), old(m.mem).Read(LINEPOS);
      var n := HexRun(line, pos);
      && m.mem.Read(LINEPOS) == pos + n && ok == (n > 0)
      && (ok ==>
            && AllHex(line[pos..pos + n])
            && m.Pointer(0xF0) == old(m.Pointer(0xF0))
            && m.Pointer(0xF2) == HexValue(line[pos..pos + n]) % 0x1_0000)
  {
    hide Memory.Read, Word, Line, HexValue, HexRun;
    ghost var m0, first := m.mem, m.Pointer(0xF0);
    CopyPointer(m, 0xF0, 0xF2);
    ghost var m1 := m.mem;
    LineUnchanged(m0, m1);
    CallParseAddr(m, 0xC828);
    if m.c {
      KeptThrough(m0, m1, m.mem, m.mem, m.sp);
      return false;
    }
    ghost var m2 := m.mem;
    SwapAddresses(m);
    KeptThrough(m0, m1, m2, m.mem, m.sp);
    return true;
  }

  lemma KeptThrough(m0: Memory, m1: Memory, m2: Memory, m3: Memory, sp: byte)
    requires Changed(m0, m1, {0xF2, 0xF3}) && Kept(m1, m2, ADDR_CELLS, sp, 4)
    requires Changed(m2, m3, {0xF0, 0xF1, 0xF2, 0xF3, 0xF5, 0xF6})
    ensures Kept(m0, m2, DISPATCH_CELLS, sp, 4) && Kept(m0, m3, DISPATCH_CELLS, sp, 4)
    ensures m2.Read(0xF2) == m1.Read(0xF2) && m2.Read(0xF3) == m1.Read(0xF3) && m3.Read(0x41) == m2.Read(0x41)
  {
    hide Memory.Read;
  }

  // ---------- routing ----------

  /** MAYBERUN ($C867). */
  method RouteLetter(m: Machine) returns (route: Route)
    requires m.Valid() && m.mem.Read(LINEPOS) < m.mem.Read(LINELEN) <= 64
    modifies m`a, m`x, m`c, m`z
    ensures route == LetterRoute(Line(m.mem), m.mem.Read(LINEPOS) + 1)
    ensures !route.ToPoke? && !route.ToList? && !route.ToSave?
  {
    hide Memory.Read;
    m.LdxZp(LINEPOS);
    m.Inx();
    m.Cpx(m.mem.Read(LINELEN));
    if m.c {
      return ToError;
    }
    m.LdaZp(m.x);
    m.Cmp(0x52);
    if m.z {
      return ToRun;
    }
    m.Cmp(0x4C);
    if m.z {
      return ToLoad;
    }
    m.Cmp(0x57);
    if m.z {
      return ToRewind;
    }
    return ToError;
  }

  /** DOLIST ($C81C). */
  method RouteRange(m: Machine) returns (route: Route)
    requires m.Valid() && m.mem.Read(LINEPOS) < m.mem.Read(LINELEN) <= 64
    modifies m`a, m`x, m`c, m`z, m`mem, m`sp
    ensures m.Valid() && m.sp == old(m.sp) && Kept(old(m.mem), m.mem, DISPATCH_CELLS, m.sp, 4)
    ensures
      var line, pos := Line(old(m.mem)), old(m.mem).Read(LINEPOS);
      && route == RangeRoute(line, pos + 1) && (route.ToError? || route.ToList? || route.ToSave?)
      && m.mem.Read(LINEPOS) <= m.mem.Read(LINELEN)
      && (!route.ToError? ==> m.Pointer(0xF0) == old(m.Pointer(0xF0)) && m.Pointer(0xF2) == route.end)
  {
    hide Memory.Read, Word, Line, HexValue, HexRun;
    ghost var mem0, line := m.mem, Line(m.mem);
    m.IncZp(LINEPOS);
    ghost var mem1 := m.mem;
    LineUnchanged(mem0, mem1);
    ghost var pos := m.mem.Read(LINEPOS);
    HexRunIsMaximal(line, pos);
    var ok := SecondAddress(m);
    LineKept(mem1, m.mem, DISPATCH_CELLS, m.sp, 4);
    KeptAfter(mem0, mem1, m.mem, m.sp);
    if !ok {
      return ToError;
    }
    route := RouteTail(m);
  }

  /** After PARSE_ADDR ($C843): LIST, or SAVE after " S". */
  method RouteTail(m: Machine) returns (route: Route)
    requires m.Valid() && m.mem.Read(LINEPOS) <= m.mem.Read(LINELEN) <= 64
    modifies m`a, m`x, m`c, m`z
    ensures route == TailRoute(Line(m.mem), m.mem.Read(LINEPOS), m.Pointer(0xF2))
  {
    hide Memory.Read, Word, Line;
    m.LdaZp(LINEPOS);
    m.Cmp(m.mem.Read(LINELEN));
    if m.c {
      return ToList(m.Pointer(0xF2));
    }
    m.LdxZp(LINEPOS);
    LineByte(m.mem, m.x);
    m.LdaZp(m.x);
    m.Cmp(0x20);
    if !m.z {
      return ToError;
    }
    m.Inx();
    m.Cpx(m.mem.Read(LINELEN));
    if m.c {
      return ToError;
    }
    LineByte(m.mem, m.x);
    m.LdaZp(m.x);
    m.Cmp(0x53);
    if !m.z {
      return ToError;
    }
    return ToSave(m.Pointer(0xF2));
  }

  lemma LineByte(mem: Memory, i: byte)
    requires i < mem.Read(0x40)
    ensures Line(mem)[i] == mem.Read(i)
  {
  }

  lemma KeptAfter(m0: Memory, m1: Memory, m2: Memory, sp: byte)
    requires Changed(m0, m1, {0x41}) && Kept(m1, m2, DISPATCH_CELLS, sp, 4)
    ensures Kept(m0, m2, DISPATCH_CELLS, sp, 4) && m2.Read(0x40) == m0.Read(0x40)
  {
    hide Memory.Read;
  }

  /** DISPATCH's tests, with LINEPOS just past the first address, up to its tail jump. */
  method ChooseRoutine(m: Machine) returns (route: Route)
    requires m.Valid() && m.mem.Read(LINEPOS) <= m.mem.Read(LINELEN) <= 64
    modifies m`a, m`x, m`c, m`z, m`mem, m`sp
    ensures m.Valid() && m.sp == old(m.sp) && Kept(old(m.mem), m.mem, DISPATCH_CELLS, m.sp, 4)
    ensures
      var line, pos := Line(old(m.mem)), old(m.mem).Read(LINEPOS);
      && route == RouteOf(line, pos)
      && m.mem.Read(LINEPOS) <= m.mem.Read(LINELEN)
      && (route.ToPoke? ==> m.mem.Read(LINEPOS) == pos + 1)
      && (!route.ToError? ==> m.Pointer(0xF0) == old(m.Pointer(0xF0)))
      && (route.ToList? || route.ToSave? ==> m.Pointer(0xF2) == route.end)
  {
    hide Memory.Read, Word, Line, HexValue, HexRun, RangeRoute, LetterRoute;
    ghost var mem0, line, pos := m.mem, Line(m.mem), m.mem.Read(LINEPOS);
    KeptAll(mem0, DISPATCH_CELLS, m.sp, 4);
    m.LdaZp(LINEPOS);
    m.Cmp(m.mem.Read(LINELEN));
    if m.c {
      return ToPeek;
    }
    m.LdxZp(LINEPOS);
    LineByte(m.mem, m.x);
    m.LdaZp(m.x);
    m.Cmp(0x2E);
    if m.z {
      route := RouteRange(m);
      return;
    }
    m.Cmp(0x3A);
    if m.z {
      m.IncZp(LINEPOS);
      return ToPoke;
    }
    m.Cmp(0x20);
    if m.z {
      route := RouteLetter(m);
      return;
    }
    return ToError;
  }

  // ---------- MAIN_LOOP ----------

  const COMMAND_CELLS: set<word> := LINE_CELLS + DISPATCH_CELLS

  /** LINEPOS := 0 and PARSE_ADDR ($CF1F). */
  method ParseFirst(m: Machine) returns (ok: bool)
    requires m.Valid() && m.mem.Read(LINELEN) <= 64
    modifies m`a, m`x, m`c, m`z, m`mem, m`sp
    ensures m.Valid() && m.sp == old(m.sp) && Kept(old(m.mem), m.mem, ADDR_CELLS, m.sp, 4)
    ensures
      var line := Line(old(m.mem));
      var n := HexRun(line, 0);
      && Line(m.mem) == line && m.mem.Read(LINEPOS) == n <= |line|
      && ok == (n > 0)
      && (ok ==> AllHex(line[0..n]) && m.Pointer(ADDR) == HexValue(line[0..n]) % 0x1_0000)
  {
    hide Memory.Read, Word, Line, HexValue, HexRun;
    ghost var mem0, line := m.mem, Line(m.mem);
    m.LdaImm(0x00);
    m.StaZp(LINEPOS);
    ghost var mem1 := m.mem;
    LineUnchanged(mem0, mem1);
    HexRunIsMaximal(line, 0);
    CallParseAddr(m, 0xCF25);
    ChangedIsKept(mem0, mem1, {0x41}, ADDR_CELLS, m.sp, 4);
    KeptTwice(mem0, mem1, m.mem, ADDR_CELLS, m.sp, 4);
    LineKept(mem0, m.mem, ADDR_CELLS, m.sp, 4);
    return !m.c;
  }

  /** A line has been read and its first address parsed. */
  method ReadAddress(m: Machine) returns (ok: bool)
    requires m.Valid() && RETURN in Typed(m.tty, m.input)
    modifies m`a, m`x, m`c, m`z, m`mem, m`tty, m`sp, m`input
    ensures m.Valid() && m.sp == old(m.sp) && Kept(old(m.mem), m.mem, COMMAND_CELLS, m.sp, 4)
    ensures
      var typed := old(Typed(m.tty, m.input));
      var keys := UpToReturn(typed);
      var line := Edited(keys);
      var n := HexRun(line, 0);
      && Line(m.mem) == line && m.mem.Read(LINEPOS) == n <= |line|
      && ok == (n > 0)
      && (ok ==> AllHex(line[0..n]) && m.Pointer(ADDR) == HexValue(line[0..n]) % 0x1_0000)
      && Typed(m.tty, m.input) == typed[|keys| + 1..]
      && Sent(old(m.tty), m.tty, Echoed(keys) + [CR, LF])
  {
    hide Memory.Read, Word, Line, HexValue, HexRun, Edited, Echoed, UpToReturn, Typed, Sent, Kept;
    ghost var mem0 := m.mem;
    CallReadLine(m, 0xCF1E);
    ghost var mem1 := m.mem;
    ok := ParseFirst(m);
    KeptInCommand(mem0, mem1, m.mem, m.sp);
  }

  lemma KeptInCommand(m0: Memory, m1: Memory, m2: Memory, sp: byte)
    requires Kept(m0, m1, LINE_CELLS, sp, 4) && Kept(m1, m2, ADDR_CELLS, sp, 4)
    ensures Kept(m0, m2, COMMAND_CELLS, sp, 4)
  {
    hide Memory.Read;
  }

  /** The call of DISPATCH ($CF28): either the routine that its tail jump enters, the return
      to MAIN_LOOP still on the stack, or its error line and the return itself. */
  method CallDispatch(m: Machine) returns (route: Route)
    requires m.Valid() && m.mem.Read(LINEPOS) <= m.mem.Read(LINELEN) <= 64
    modifies m`a, m`x, m`c, m`z, m`mem, m`tty, m`sp
    ensures m.Valid() && Kept(old(m.mem), m.mem, DISPATCH_CELLS, old(m.sp), 6)
    ensures m.sp == if route.ToError? then old(m.sp) else Below(old(m.sp), 2)
    ensures
      !route.ToError? ==>
        m.mem.Read(StackCell(Inc8(m.sp))) == 0x2A && m.mem.Read(StackCell(Inc8(Inc8(m.sp)))) == 0xCF
    ensures
      var line, pos := Line(old(m.mem)), old(m.mem).Read(LINEPOS);
      && route == RouteOf(line, pos) && Line(m.mem) == line
      && (route.ToPoke? ==> m.mem.Read(LINEPOS) == pos + 1)
      && (!route.ToError? ==> m.Pointer(ADDR) == old(m.Pointer(ADDR)))
      && (route.ToList? || route.ToSave? ==> m.Pointer(0xF2) == route.end)
    ensures Printed(old(m.tty), m.tty, if route.ToError? then ERROR_LINE else [])
  {
    hide Memory.Read, Word, Line, RouteOf;
    ghost var mem0, s := m.mem, m.sp;
    PrintedNothing(m.tty);
    m.Jsr(0xCF2A);
    ghost var mem1 := m.mem;
    LineUnchanged(mem0, mem1);
    route := ChooseRoutine(m);
    ghost var mem2 := m.mem;
    CallKept(mem0, mem1, mem2, DISPATCH_CELLS, s, 4);
    LineKept(mem0, mem2, DISPATCH_CELLS, s, 6);
    if route.ToError? {
      m.PrintError(0xC88C);
      ErrorFrame(mem0, mem2, m.mem, s);
      m.Rts(0xCF2A);
    }
  }

  /** The error line uses stack cells that DISPATCH's own calls used before. */
  lemma ErrorFrame(m0: Memory, m1: Memory, m2: Memory, sp: byte)
    requires Kept(m0, m1, DISPATCH_CELLS, sp, 6) && SameBut(m1, m2, Below(sp, 2), 2) && m0.Read(0x40) <= 64
    ensures Kept(m0, m2, DISPATCH_CELLS, sp, 6) && Line(m2) == Line(m1)
    ensures
      var s := Below(sp, 2);
      && m2.Read(StackCell(Inc8(s))) == m1.Read(StackCell(Inc8(s)))
      && m2.Read(StackCell(Inc8(Inc8(s)))) == m1.Read(StackCell(Inc8(Inc8(s))))
  {
    hide Memory.Read, Line;
    forall addr: word | addr !in DISPATCH_CELLS && !Scratch(addr, sp, 6)
      ensures m2.Read(addr) == m0.Read(addr)
    {
      ScratchNests(addr, sp, 2, 2);
    }
    var s := Below(sp, 2);
    assert !Scratch(StackCell(Inc8(s)), s, 2);
    assert !Scratch(StackCell(Inc8(Inc8(s))), s, 2);
    LineUnchanged(m1, m2);
  }

  /** MAIN_LOOP from READ_LINE ($CF1C) on: what the typed line means is what happens. Without
      a leading address, or with a tail DISPATCH does not know, the error line; otherwise the
      routine's entry with its addresses in page zero. */
  method ReadCommand(m: Machine) returns (route: Route)
    requires m.Valid() && RETURN in Typed(m.tty, m.input)
    modifies m`a, m`x, m`c, m`z, m`mem, m`tty, m`sp, m`input
    ensures m.Valid() && m.sp == if route.ToError? then old(m.sp) else Below(old(m.sp), 2)
    ensures Kept(old(m.mem), m.mem, COMMAND_CELLS, old(m.sp), 6)
    ensures
      var typed := old(Typed(m.tty, m.input));
      var keys := UpToReturn(typed);
      var line := Edited(keys);
      var n := HexRun(line, 0);
      && route == (if n == 0 then ToError else RouteOf(line, n)) && Line(m.mem) == line
      && (route.ToPoke? ==> m.mem.Read(LINEPOS) == n + 1)
      && (!route.ToError? ==>
            n <= |line| && AllHex(line[0..n]) && m.Pointer(ADDR) == HexValue(line[0..n]) % 0x1_0000)
      && (route.ToList? || route.ToSave? ==> m.Pointer(0xF2) == route.end)
      && Typed(m.tty, m.input) == typed[|keys| + 1..]
      && Sent(old(m.tty), m.tty, Echoed(keys) + [CR, LF] + (if route.ToError? then ERROR_LINE else []))
  {
    hide Memory.Read, Word, Line, HexValue, HexRun, Edited, Echoed, UpToReturn, RouteOf, Sent, Printed, Typed;
    ghost var mem0, t0, s, text := m.mem, m.tty, m.sp, Echoed(UpToReturn(Typed(m.tty, m.input))) + [CR, LF];
    var ok := ReadAddress(m);
    ghost var mem1, t1, input := m.mem, m.tty, m.input;
    KeptWider(mem0, mem1, COMMAND_CELLS, COMMAND_CELLS, s, 4, 6);
    if ok {
      route := CallDispatch(m);
      KeptWider(mem1, m.mem, DISPATCH_CELLS, COMMAND_CELLS, s, 6, 6);
    } else {
      m.PrintError(0xCF32);
      LineKept(mem1, m.mem, {}, s, 2);
      KeptWider(mem1, m.mem, {}, COMMAND_CELLS, s, 2, 6);
      ErrorIsPrinted(t1, m.tty);
      route := ToError;
    }
    KeptTwice(mem0, mem1, m.mem, COMMAND_CELLS, s, 6);
    PrintedIsSent(t0, t1, m.tty, input, text, if route.ToError? then ERROR_LINE else []);
  }

  lemma ErrorIsPrinted(t0: Tty, t1: Tty)
    requires t1 == t0.(out := t0.out + [0x3F, 0x0D, 0x0A])
    ensures Printed(t0, t1, ERROR_LINE)
  {
  }

  lemma PrintedIsSent(t0: Tty, t1: Tty, t2: Tty, input: seq<byte>, text: seq<byte>, more: seq<byte>)
    requires Sent(t0, t1, text) && Printed(t1, t2, more)
    ensures Sent(t0, t2, text + more) && Typed(t2, input) == Typed(t1, input)
  {
    assert t0.out + (text + more) == t0.out + text + more;
  }
}
