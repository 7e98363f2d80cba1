/** The monitor's line editor: GETCHAR and READ_LINE, instruction by instruction, against a
    fold over the keys typed. */
module LineEditor {
  import opened Words
  import opened FlatMemory
  import opened Isa
  import opened TtyDevice
  import opened MonitorMachine
  import opened HexText

  const RETURN: byte := 0x0D
  const DELETE: byte := 0x7F
  const BACKSPACE: byte := 0x08

  const LINELEN: byte := 0x40

  /** The line in the buffer at $00-$3F. */
  function Line(mem: Memory): (line: seq<byte>)
    ensures |line| == mem.Read(0x40)
  {
    seq<byte>(mem.Read(0x40) as int, i requires 0 <= i < mem.Read(0x40) => mem.Read(i))
  }

  // ---------- what the keys mean ----------

  predicate IsRubout(key: byte) {
    key == DELETE || key == BACKSPACE
  }

  function EditKey(line: seq<byte>, key: byte): seq<byte> {
    if IsRubout(key) then (if line == [] then [] else line[..|line| - 1])
    else if |line| >= 64 then line
    else line + [key]
  }

  /** What the terminal is sent for a key. */
  function EchoOf(line: seq<byte>, key: byte): seq<byte> {
    if IsRubout(key) then (if line == [] then [] else [BACKSPACE, SPACE, BACKSPACE])
    else if |line| >= 64 then []
    else [key]
  }

  /** The line after some keys; it always fits its buffer. */
  function Edited(keys: seq<byte>): (line: seq<byte>)
    ensures |line| <= 64
  {
    if keys == [] then [] else EditKey(Edited(keys[..|keys| - 1]), keys[|keys| - 1])
  }

  /** Everything sent to the terminal for some keys. */
  function Echoed(keys: seq<byte>): seq<byte> {
    if keys == [] then []
    else
      var before := keys[..|keys| - 1];
      Echoed(before) + EchoOf(Edited(before), keys[|keys| - 1])
  }

  /** The keys before the first RETURN. */
  function UpToReturn(typed: seq<byte>): (keys: seq<byte>)
    ensures |keys| <= |typed| && keys == typed[..|keys|] && RETURN !in keys
    ensures if RETURN in typed then |keys| < |typed| && typed[|keys|] == RETURN else keys == typed
  {
    if typed == [] || typed[0] == RETURN then [] else [typed[0]] + UpToReturn(typed[1..])
  }

  lemma ReturnAfterKeys(typed: seq<byte>)
    requires RETURN in typed
    ensures
      var n := |UpToReturn(typed)|;
      && n < |typed| && UpToReturn(typed) == typed[..n]
      && forall i :: 0 <= i <= n ==> (typed[i] == RETURN <==> i == n)
  {
    var keys := UpToReturn(typed);
    forall i | 0 <= i < |keys| ensures typed[i] != RETURN {
      assert typed[i] == keys[i];
    }
  }

  lemma NextKey(typed: seq<byte>, n: nat)
    requires n < |typed|
    ensures typed[n..] != [] && typed[n..][0] == typed[n] && typed[n..][1..] == typed[n + 1..]
    ensures typed[..n] + [typed[n]] == typed[..n + 1]
  {
  }

  lemma KeyEdits(keys: seq<byte>, key: byte)
    ensures Edited(keys + [key]) == EditKey(Edited(keys), key)
    ensures Echoed(keys + [key]) == Echoed(keys) + EchoOf(Edited(keys), key)
  {
    assert (keys + [key])[..|keys|] == keys;
  }

  /** What a further key does to the line: DEL and BS drop its last byte, any other key is
      appended while there are fewer than 64, and dropped after that. */
  lemma KeyLaw(keys: seq<byte>, key: byte)
    ensures Edited([]) == []
    ensures
      var line := Edited(keys);
      Edited(keys + [key]) ==
        if key == 0x7F || key == 0x08 then (if |line| == 0 then [] else line[..|line| - 1])
        else if |line| < 64 then line + [key]
        else line
  {
    KeyEdits(keys, key);
  }

  /** What it sends to the terminal: for DEL and BS, BS, blank and BS if there was a byte to
      drop; for any other key the key itself if it was appended. */
  lemma EchoLaw(keys: seq<byte>, key: byte)
    ensures Echoed([]) == []
    ensures
      var line := Edited(keys);
      Echoed(keys + [key]) == Echoed(keys) + (
        if key == 0x7F || key == 0x08 then (if |line| == 0 then [] else [0x08, 0x20, 0x08])
        else if |line| < 64 then [key]
        else [])
  {
    KeyEdits(keys, key);
  }

  /** The keys that count are those before the first CR. */
  lemma KeysEndAtReturn(typed: seq<byte>)
    ensures UpToReturn(typed) <= typed && 0x0D !in UpToReturn(typed)
    ensures UpToReturn(typed) == typed || typed[|UpToReturn(typed)|] == 0x0D
  {
  }

  /** Text without rubouts that fits is taken and echoed as typed. */
  lemma {:induction false} PlainTextIsKept(keys: seq<byte>)
    requires |keys| <= 64 && forall i :: 0 <= i < |keys| ==> !IsRubout(keys[i])
    ensures Edited(keys) == keys && Echoed(keys) == keys
  {
    hide Edited, Echoed;
    NoKeys();
    if keys != [] {
      var n := |keys| - 1;
      PlainTextIsKept(keys[..n]);
      KeyEdits(keys[..n], keys[n]);
      assert keys == keys[..n] + [keys[n]];
    }
  }

  /** A character and a rubout together change nothing, unless the buffer was full: then
      the rubout takes the last character that did get in. */
  lemma RuboutUndoes(keys: seq<byte>, key: byte, rubout: byte)
    requires !IsRubout(key) && IsRubout(rubout)
    ensures Edited(keys + [key] + [rubout]) == Edited(keys) <==> |Edited(keys)| < 64
  {
    KeyEdits(keys, key);
    KeyEdits(keys + [key], rubout);
    var line := Edited(keys);
    if |line| < 64 {
      assert (line + [key])[..|line|] == line;
    } else {
      assert |line[..|line| - 1]| != |line|;
    }
  }

  /** A terminal line: characters from the left and a cursor. */
  datatype Screen = Screen(cells: seq<byte>, cursor: nat) {
    /** A byte sent to it: backspace moves left, anything else is put at the cursor. */
    function Put(b: byte): Screen {
      if b == BACKSPACE then Screen(cells, if cursor == 0 then 0 else cursor - 1)
      else if cursor < |cells| then Screen(cells[cursor := b], cursor + 1)
      else Screen(cells + [b], cursor + 1)
    }

    /** The line shows: it ends at the cursor and only blanks follow. */
    predicate Shows(line: seq<byte>) {
      && cursor == |line| <= |cells|
      && line == cells[..cursor]
      && forall i :: cursor <= i < |cells| ==> cells[i] == SPACE
    }
  }

  function Display(screen: Screen, sent: seq<byte>): Screen {
    if sent == [] then screen else Display(screen, sent[..|sent| - 1]).Put(sent[|sent| - 1])
  }

  lemma {:induction false} DisplayAppend(screen: Screen, sent: seq<byte>, more: seq<byte>)
    ensures Display(screen, sent + more) == Display(Display(screen, sent), more)
  {
    if more == [] {
      assert sent + more == sent;
    } else {
      var n := |more| - 1;
      DisplayAppend(screen, sent, more[..n]);
      assert (sent + more)[..|sent| + n] == sent + more[..n];
    }
  }

  /** Whatever is typed, the terminal shows the line that is in the buffer. */
  lemma {:induction false} ScreenShowsLine(keys: seq<byte>)
    ensures Display(Screen([], 0), Echoed(keys)).Shows(Edited(keys))
  {
    if keys != [] {
      var n := |keys| - 1;
      ScreenShowsLine(keys[..n]);
      var line := Edited(keys[..n]);
      DisplayAppend(Screen([], 0), Echoed(keys[..n]), EchoOf(line, keys[n]));
      EchoShows(Display(Screen([], 0), Echoed(keys[..n])), line, keys[n]);
    }
  }

  lemma EchoShows(screen: Screen, line: seq<byte>, key: byte)
    requires screen.Shows(line)
    ensures Display(screen, EchoOf(line, key)).Shows(EditKey(line, key))
  {
    var sent := EchoOf(line, key);
    if |sent| == 1 {
      assert sent[..0] == [];
    } else if |sent| == 3 {
      DisplayThree(screen, sent[0], sent[1], sent[2]);
    }
  }

  lemma DisplayThree(screen: Screen, a: byte, b: byte, c: byte)
    ensures Display(screen, [a, b, c]) == screen.Put(a).Put(b).Put(c)
  {
    var ab := [a, b];
    assert [a, b, c][..2] == ab && ab[..1] == [a] && [a][..0] == [];
    assert Display(screen, [a]) == screen.Put(a);
    assert Display(screen, ab) == screen.Put(a).Put(b);
  }

  // ---------- GETCHAR ----------

  /** The device after some text has been sent to it and some bytes received from it. */
  predicate Sent(t0: Tty, t: Tty, text: seq<byte>) {
    t == t0.(rxByte := t.rxByte, rxReady := t.rxReady, out := t0.out + text)
  }

  lemma SentThen(t0: Tty, t1: Tty, t2: Tty, text: seq<byte>, more: seq<byte>)
    requires Sent(t0, t1, text) && Sent(t1, t2, more)
    ensures Sent(t0, t2, text + more)
  {
    assert t0.out + (text + more) == t0.out + text + more;
  }

  lemma SentNothing(t: Tty)
    ensures Sent(t, t, [])
  {
    assert t.out + [] == t.out;
  }

  /** What has been typed and not yet taken: the receive register, then the terminal's queue. */
  function Typed(tty: Tty, input: seq<byte>): seq<byte> {
    if tty.rxReady then [tty.rxByte] + input else input
  }

  lemma ReadyBit(t: Tty)
    ensures And8(t.Read(0), 1) == Bit(t.rxReady)
  {
    assert And((2 + Bit(t.rxReady)) / 2, 0) == 0;
  }

  /** GETCHAR's loop: the status register is read until a byte is there, however long the
      terminal takes to have one. */
  method AwaitByte(m: Machine)
    requires m.Valid() && Typed(m.tty, m.input) != []
    modifies m`a, m`z, m`tty, m`input
    ensures m.Valid() && m.tty.rxReady && Typed(m.tty, m.input) == old(Typed(m.tty, m.input))
    ensures m.tty == old(m.tty).(rxByte := m.tty.rxByte, rxReady := true)
  {
    var delay: nat := *;
    while true
      invariant m.Valid() && Typed(m.tty, m.input) == old(Typed(m.tty, m.input))
      invariant m.tty == old(m.tty).(rxByte := m.tty.rxByte, rxReady := m.tty.rxReady)
      decreases delay
    {
      if delay == 0 {
        m.Poll();
      }
      ReadyBit(m.tty);
      m.Lda(0x8000);
      m.AndImm(0x01);
      if !m.z {
        break;
      }
      delay := delay - 1;
    }
  }

  /** LDA DATA with a byte there. A further byte may reach the register right afterwards. */
  method TakeByte(m: Machine)
    requires m.Valid() && m.tty.rxReady
    modifies m`a, m`z, m`tty, m`input
    ensures m.Valid()
    ensures
      var typed := old(Typed(m.tty, m.input));
      m.a == typed[0] && Typed(m.tty, m.input) == typed[1..] && Sent(old(m.tty), m.tty, [])
  {
    SentNothing(m.tty);
    m.Lda(0x8001);
    if * {
      m.Poll();
    }
  }

  /** GETCHAR ($C000) called by the JSR at `last`: A is the next byte typed. A further byte may
      reach the receive register before it returns. */
  method GetChar(m: Machine, last: word)
    requires m.Valid() && Typed(m.tty, m.input) != []
    modifies m`a, m`z, m`mem, m`tty, m`sp, m`input
    ensures m.Valid() && m.sp == old(m.sp) && SameBut(old(m.mem), m.mem, m.sp, 2)
    ensures
      var typed := old(Typed(m.tty, m.input));
      m.a == typed[0] && Typed(m.tty, m.input) == typed[1..] && Sent(old(m.tty), m.tty, [])
  {
    hide Memory.Read;
    m.Jsr(last);
    AwaitByte(m);
    TakeByte(m);
    m.Rts(last);
  }

  // ---------- READ_LINE ----------

  const LINE_CELLS: set<word> := set k: word | k <= 0x40

  /** The buffer starts with the line. */
  ghost predicate Buffered(mem: Memory, line: seq<byte>) {
    |line| <= 64 && forall i :: 0 <= i < |line| ==> mem.Read(i) == line[i]
  }

  /** BACKSPACE ($C41E): drops the last character, if any, and wipes it on the terminal. */
  method RubOut(m: Machine, ghost mem0: Memory, ghost line: seq<byte>)
    requires m.Valid() && m.x == |line| && Buffered(m.mem, line)
    modifies m`a, m`x, m`c, m`z, m`mem, m`tty, m`sp
    ensures m.Valid() && m.sp == old(m.sp) && SameBut(old(m.mem), m.mem, m.sp, 2)
    ensures
      var after := EditKey(line, BACKSPACE);
      && m.x == |after| && Buffered(m.mem, after)
      && m.tty == old(m.tty).(out := old(m.tty.out) + EchoOf(line, BACKSPACE))
  {
    hide Memory.Read;
    m.Cpx(0x00);
    if m.z {
      return;
    }
    m.Dex();
    m.LdaImm(0x08);
    m.PutChar(0xC427);
    m.LdaImm(0x20);
    m.PutChar(0xC42C);
    m.LdaImm(0x08);
    m.PutChar(0xC431);
    ghost var out := old(m.tty.out);
    assert out + [BACKSPACE] + [SPACE] + [BACKSPACE] == out + EchoOf(line, BACKSPACE);
  }

  /** A character: into the buffer and echoed, or dropped when the buffer is full. */
  method TakeCharacter(m: Machine, ghost line: seq<byte>)
    requires m.Valid() && m.x == |line| && Buffered(m.mem, line) && !IsRubout(m.a)
    modifies m`x, m`c, m`z, m`mem, m`tty, m`sp
    ensures m.Valid() && m.sp == old(m.sp) && Kept(old(m.mem), m.mem, LINE_CELLS, m.sp, 2)
    ensures
      var after := EditKey(line, m.a);
      && m.x == |after| && Buffered(m.mem, after)
      && m.tty == old(m.tty).(out := old(m.tty.out) + EchoOf(line, m.a))
  {
    hide Memory.Read;
    m.Cpx(0x40);
    if m.c {
      return;
    }
    m.StaZp(m.x);
    m.PutChar(0xC419);
    m.Inx();
  }

  /** One turn of READ_LINE's loop; it ends the loop on RETURN. */
  method ReadKey(m: Machine, ghost line: seq<byte>) returns (more: bool)
    requires m.Valid() && Typed(m.tty, m.input) != []
    requires m.x == |line| && Buffered(m.mem, line)
    modifies m`a, m`x, m`c, m`z, m`mem, m`tty, m`sp, m`input
    ensures m.Valid() && m.sp == old(m.sp) && Kept(old(m.mem), m.mem, LINE_CELLS, m.sp, 2)
    ensures
      var typed := old(Typed(m.tty, m.input));
      var after := if more then EditKey(line, typed[0]) else line;
      var echo := if more then EchoOf(line, typed[0]) else [];
      && more == (typed[0] != RETURN) && Typed(m.tty, m.input) == typed[1..]
      && m.x == |after| && Buffered(m.mem, after)
      && Sent(old(m.tty), m.tty, echo)
  {
    hide Memory.Read;
    GetChar(m, 0xC404);
    m.Cmp(0x0D);
    if m.z {
      return false;
    }
    m.Cmp(0x7F);
    if m.z {
      RubOut(m, m.mem, line);
      return true;
    }
    m.Cmp(0x08);
    if m.z {
      RubOut(m, m.mem, line);
      return true;
    }
    TakeCharacter(m, line);
    return true;
  }

  /** READ_LINE's loop: every key up to RETURN. */
  method ReadKeys(m: Machine)
    requires m.Valid() && RETURN in Typed(m.tty, m.input)
    modifies m`a, m`x, m`c, m`z, m`mem, m`tty, m`sp, m`input
    ensures m.Valid() && m.sp == old(m.sp) && Kept(old(m.mem), m.mem, LINE_CELLS, m.sp, 2)
    ensures
      var typed := old(Typed(m.tty, m.input));
      var keys := UpToReturn(typed);
      && m.x == |Edited(keys)| && Buffered(m.mem, Edited(keys))
      && Typed(m.tty, m.input) == typed[|keys| + 1..]
      && Sent(old(m.tty), m.tty, Echoed(keys))
  {
    hide Memory.Read, Edited, Echoed, EditKey, EchoOf, Kept, Buffered, UpToReturn, Typed, Sent;
    ghost var mem0, t0, typed := m.mem, m.tty, Typed(m.tty, m.input);
    ghost var n, last := 0, |UpToReturn(typed)|;
    ReturnAfterKeys(typed);
    NoKeys();
    KeptAll(mem0, LINE_CELLS, m.sp, 2);
    NothingBuffered(mem0);
    SentNothing(t0);
    assert typed[..0] == [];
    m.LdxImm(0x00);
    while true
      invariant m.Valid() && m.sp == old(m.sp) && Kept(mem0, m.mem, LINE_CELLS, m.sp, 2)
      invariant n <= last && Typed(m.tty, m.input) == typed[n..]
      invariant m.x == |Edited(typed[..n])| && Buffered(m.mem, Edited(typed[..n]))
      invariant Sent(t0, m.tty, Echoed(typed[..n]))
      decreases last - n
    {
      ghost var m1, t1, line := m.mem, m.tty, Edited(typed[..n]);
      NextKey(typed, n);
      var more := ReadKey(m, line);
      KeptTwice(mem0, m1, m.mem, LINE_CELLS, m.sp, 2);
      SentThen(t0, t1, m.tty, Echoed(typed[..n]), if more then EchoOf(line, typed[n]) else []);
      if !more {
        assert Echoed(typed[..n]) + [] == Echoed(typed[..n]);
        break;
      }
      KeyEdits(typed[..n], typed[n]);
      n := n + 1;
    }
  }

  /** READ_LINE ($C400): the keys up to RETURN are taken and edited into the buffer; nothing
      outside it, its length and the stack is written. */
  method ReadLine(m: Machine)
    requires m.Valid() && RETURN in Typed(m.tty, m.input)
    modifies m`a, m`x, m`c, m`z, m`mem, m`tty, m`sp, m`input
    ensures m.Valid() && m.sp == old(m.sp) && Kept(old(m.mem), m.mem, LINE_CELLS, m.sp, 2)
    ensures
      var typed := old(Typed(m.tty, m.input));
      var keys := UpToReturn(typed);
      && Line(m.mem) == Edited(keys)
      && Typed(m.tty, m.input) == typed[|keys| + 1..]
      && Sent(old(m.tty), m.tty, Echoed(keys) + [0x0D, 0x0A])
  {
    hide Memory.Read, Edited, Echoed, Kept, Buffered, UpToReturn, Typed, Line, Sent;
    ghost var mem0, t0 := m.mem, m.tty;
    ghost var keys := UpToReturn(Typed(m.tty, m.input));
    ReadKeys(m);
    ghost var mem1, t1 := m.mem, m.tty;
    EndLine(m, Edited(keys));
    SentThen(t0, t1, m.tty, Echoed(keys), [0x0D, 0x0A]);
    KeptTwice(mem0, mem1, m.mem, LINE_CELLS, m.sp, 2);
  }

  /** READ_LINE called by the JSR at `last`. */
  method CallReadLine(m: Machine, last: word)
    requires m.Valid() && RETURN in Typed(m.tty, m.input)
    modifies m`a, m`x, m`c, m`z, m`mem, m`tty, m`sp, m`input
    ensures m.Valid() && m.sp == old(m.sp) && Kept(old(m.mem), m.mem, LINE_CELLS, m.sp, 4)
    ensures
      var typed := old(Typed(m.tty, m.input));
      var keys := UpToReturn(typed);
      && Line(m.mem) == Edited(keys)
      && Typed(m.tty, m.input) == typed[|keys| + 1..]
      && Sent(old(m.tty), m.tty, Echoed(keys) + [0x0D, 0x0A])
  {
    hide Memory.Read, Edited, Echoed, UpToReturn, Typed, Line, Sent;
    ghost var m0, s := m.mem, m.sp;
    m.Jsr(last);
    ghost var m1 := m.mem;
    ReadLine(m);
    CallKept(m0, m1, m.mem, LINE_CELLS, s, 2);
    m.Rts(last);
  }

  lemma NothingBuffered(mem: Memory)
    ensures Buffered(mem, [])
  {
  }

  lemma NoKeys()
    ensures Edited([]) == [] && Echoed([]) == []
  {
  }

  /** ENDLINE ($C435): CR, LF, and the length is stored. */
  method EndLine(m: Machine, ghost line: seq<byte>)
    requires m.Valid() && m.x == |line| && Buffered(m.mem, line)
    modifies m`a, m`z, m`mem, m`tty, m`sp
    ensures m.Valid() && m.sp == old(m.sp) && Kept(old(m.mem), m.mem, LINE_CELLS, m.sp, 2)
    ensures Line(m.mem) == line
    ensures Sent(old(m.tty), m.tty, [0x0D, 0x0A])
    ensures Typed(m.tty, m.input) == old(Typed(m.tty, m.input))
  {
    hide Memory.Read;
    m.LdaImm(0x0D);
    m.PutChar(0xC439);
    m.LdaImm(0x0A);
    m.PutChar(0xC43E);
    m.Stx(LINELEN);
    ghost var out := old(m.tty.out);
    assert out + [0x0D] + [0x0A] == out + [0x0D, 0x0A];
  }
}
