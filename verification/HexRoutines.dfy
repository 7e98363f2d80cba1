/** The monitor's hexadecimal routines, instruction by instruction: HEXVAL, PARSE_ADDR,
    PARSE_BYTE, PRINT_NIBBLE and PRINT_HEX_BYTE. */
module HexRoutines {
  import opened Words
  import opened FlatMemory
  import opened Isa
  import opened TtyDevice
  import opened MonitorMachine
  import opened HexText
  import opened LineEditor

  // zero-page cells
  const LINEPOS: byte := 0x41
  const ADDR: byte := 0xF0
  const BYTEVAL: byte := 0xF4
  const COUNT: byte := 0xF5

  // ---------- printing ----------

  /** Masking with ones keeps the low bits. */
  lemma {:induction false} AndOnes(a: nat, k: nat)
    ensures And(a, Pow2(k) - 1) == a % Pow2(k)
  {
    hide And;
    if k == 0 {
      assert And(a, 0) == 0;
    } else {
      var p := Pow2(k - 1);
      AndOnes(a / 2, k - 1);
      AndOneMore(a, p - 1);
      assert a % (2 * p) == 2 * (a / 2 % p) + a % 2 by { HalfRemainder(a, p); }
    }
  }

  lemma AndOneMore(a: nat, mask: nat)
    ensures And(a, 2 * mask + 1) == 2 * And(a / 2, mask) + a % 2
  {
  }

  lemma HalfRemainder(a: nat, p: nat)
    requires p > 0
    ensures a % (2 * p) == 2 * (a / 2 % p) + a % 2
  {
    var q, r := a / 2 / p, a / 2 % p;
    assert a / 2 == q * p + r;
    assert a == q * (2 * p) + (2 * r + a % 2);
    DivisionUnique(a, 2 * p, q, 2 * r + a % 2);
  }

  lemma LowNibble(b: byte)
    ensures And8(b, 0x0F) == b % 0x10
  {
    assert Pow2(4) == 0x10;
    AndOnes(b, 4);
  }

  /** PRINT_NIBBLE ($C220) called by the JSR at `last`: CMP leaves in the carry what the
      ADC that follows adds; PUTCHAR's RTS returns for it. */
  method PrintNibble(m: Machine, last: word)
    requires m.Valid() && m.a < 0x10
    modifies m`a, m`c, m`z, m`mem, m`tty, m`sp
    ensures m.Valid() && m.sp == old(m.sp) && SameBut(old(m.mem), m.mem, m.sp, 2)
    ensures m.tty == old(m.tty).(out := old(m.tty.out) + [Digit(old(m.a))])
  {
    m.Jsr(last);
    m.Cmp(0x0A);
    if m.c {
      m.Adc(0x36);
    } else {
      m.Adc(0x30);
    }
    m.Sta(0x8001);
    m.Rts(last);
  }

  /** PRINT_HEX_BYTE ($C200) up to its RTS. */
  method HexByte(m: Machine)
    requires m.Valid()
    modifies m`a, m`c, m`z, m`mem, m`tty, m`sp
    ensures m.Valid() && m.sp == old(m.sp) && SameBut(old(m.mem), m.mem, m.sp, 3)
    ensures m.tty == old(m.tty).(out := old(m.tty.out) + PrintedByte(old(m.a)))
  {
    ghost var m0, s, b, out := m.mem, m.sp, m.a, m.tty.out;
    m.Pha();
    ghost var m1 := m.mem;
    m.LsrA();
    m.LsrA();
    m.LsrA();
    m.LsrA();
    assert m.a == b / 0x10;
    PrintNibble(m, 0xC207);
    PushFrame(m0, m1, m.mem, s, 2);
    m.Pla();
    LowNibble(b);
    m.AndImm(0x0F);
    PrintNibble(m, 0xC20D);
    assert out + [Digit(b / 0x10)] + [Digit(b % 0x10)] == out + PrintedByte(b);
  }

  /** PRINT_HEX_BYTE called by the JSR at `last`. */
  method PrintHexByte(m: Machine, last: word)
    requires m.Valid()
    modifies m`a, m`c, m`z, m`mem, m`tty, m`sp
    ensures m.Valid() && m.sp == old(m.sp) && SameBut(old(m.mem), m.mem, m.sp, 5)
    ensures m.tty == old(m.tty).(out := old(m.tty.out) + PrintedByte(old(m.a)))
  {
    ghost var m0, s := m.mem, m.sp;
    m.Jsr(last);
    ghost var m1 := m.mem;
    HexByte(m);
    CallFrame(m0, m1, m.mem, s, 3);
    m.Rts(last);
  }

  // ---------- parsing ----------

  /** HEXVAL ($C700) called by the JSR at `last`: carry clear and the digit's value, or
      carry set and A kept. */
  method HexVal(m: Machine, last: word)
    requires m.Valid()
    modifies m`a, m`c, m`z, m`mem, m`sp
    ensures m.Valid() && m.sp == old(m.sp) && SameBut(old(m.mem), m.mem, m.sp, 2)
    ensures m.c == !IsHex(old(m.a))
    ensures m.a == if IsHex(old(m.a)) then DigitValue(old(m.a)) else old(m.a)
  {
    hide Memory.Read, DigitValue, IsHex, Lo, Hi;
    m.Jsr(last);
    HexDigitValue(m);
    m.Rts(last);
  }

  /** HEXVAL's comparisons, up to its RTS. */
  method HexDigitValue(m: Machine)
    modifies m`a, m`c, m`z
    ensures m.c == !IsHex(old(m.a))
    ensures m.a == if IsHex(old(m.a)) then DigitValue(old(m.a)) else old(m.a)
  {
    m.Cmp(0x30);
    if !m.c { m.Sec(); return; }
    m.Cmp(0x3A);
    if !m.c { m.Sec(); m.Sbc(0x30); m.Clc(); return; }
    m.Cmp(0x41);
    if !m.c { m.Sec(); return; }
    m.Cmp(0x47);
    if !m.c { m.Sec(); m.Sbc(0x37); m.Clc(); return; }
    m.Cmp(0x61);
    if !m.c { m.Sec(); return; }
    m.Cmp(0x67);
    if m.c { m.Sec(); return; }
    m.Sec();
    m.Sbc(0x57);
    m.Clc();
  }

  lemma {:induction false} OrDisjoint(a: nat, b: nat, k: nat)
    requires a < Pow2(k) && b % Pow2(k) == 0
    ensures Or(a, b) == a + b
    decreases k
  {
    if a != 0 && b != 0 {
      var p := Pow2(k - 1);
      var q := b / Pow2(k);
      assert b == 2 * p * q;
      assert b / 2 == p * q && b % 2 == 0;
      assert (b / 2) % p == 0 by { MultipleOf(p, q); }
      OrDisjoint(a / 2, b / 2, k - 1);
    }
  }

  lemma MultipleOf(p: nat, q: nat)
    requires p > 0
    ensures (p * q) % p == 0
  {
    DivisionUnique(p * q, p, q, 0);
  }

  /** ORA of a digit into a byte whose low nibble is clear. */
  lemma OrNibble(digit: byte, high: byte)
    requires digit < 0x10 && high % 0x10 == 0
    ensures Or8(digit, high) == digit + high
  {
    assert Pow2(4) == 0x10;
    OrDisjoint(digit, high, 4);
  }

  /** One ASL/ROL pair doubles the address. */
  method ShiftAddr(m: Machine)
    requires m.Valid()
    modifies m`mem, m`c, m`z
    ensures m.Valid() && Changed(old(m.mem), m.mem, {0xF0, 0xF1})
    ensures m.Pointer(ADDR) == 2 * old(m.Pointer(ADDR)) % 0x1_0000
  {
    hide Memory.Read, Word;
    ghost var low, high := m.mem.Read(0xF0), m.mem.Read(0xF1);
    m.AslZp(0xF0);
    m.RolZp(0xF1);
    DoubleWord(low, high, m.mem.Read(0xF0), m.mem.Read(0xF1));
  }

  lemma DoubleWord(low: byte, high: byte, low2: byte, high2: byte)
    requires low2 == if low >= 0x80 then 2 * low - 0x100 else 2 * low
    requires high2 == (2 * high + Bit(low >= 0x80)) % 0x100
    ensures Word(low2, high2) == 2 * Word(low, high) % 0x1_0000
  {
    var q := (2 * high + Bit(low >= 0x80)) / 0x100;
    assert 2 * Word(low, high) == q * 0x1_0000 + Word(low2, high2);
    DivisionUnique(2 * Word(low, high), 0x1_0000, q, Word(low2, high2));
  }

  lemma ShiftFourTimes(w0: nat, w1: nat, w2: nat, w3: nat, w4: nat)
    requires w1 == 2 * w0 % 0x1_0000 && w2 == 2 * w1 % 0x1_0000 && w3 == 2 * w2 % 0x1_0000 && w4 == 2 * w3 % 0x1_0000
    ensures w4 == 0x10 * w0 % 0x1_0000
  {
    var q1, q2, q3, q4 := 2 * w0 / 0x1_0000, 2 * w1 / 0x1_0000, 2 * w2 / 0x1_0000, 2 * w3 / 0x1_0000;
    assert 0x10 * w0 == (8 * q1 + 4 * q2 + 2 * q3 + q4) * 0x1_0000 + w4;
    DivisionUnique(0x10 * w0, 0x1_0000, 8 * q1 + 4 * q2 + 2 * q3 + q4, w4);
  }

  lemma LowNibbleClear(low: byte, high: byte, w: nat)
    requires Word(low, high) == 0x10 * w % 0x1_0000
    ensures low % 0x10 == 0
  {
  }

  /** The four pairs: ADDR := 16 * ADDR mod 65536. */
  method ShiftNibble(m: Machine)
    requires m.Valid()
    modifies m`mem, m`c, m`z
    ensures m.Valid() && Changed(old(m.mem), m.mem, {0xF0, 0xF1})
    ensures m.Pointer(ADDR) == 0x10 * old(m.Pointer(ADDR)) % 0x1_0000 && m.mem.Read(0xF0) % 0x10 == 0
  {
    hide Memory.Read, Word;
    ghost var w0 := m.Pointer(ADDR);
    ShiftAddr(m);
    ghost var w1 := m.Pointer(ADDR);
    ShiftAddr(m);
    ghost var w2 := m.Pointer(ADDR);
    ShiftAddr(m);
    ghost var w3 := m.Pointer(ADDR);
    ShiftAddr(m);
    ShiftFourTimes(w0, w1, w2, w3, m.Pointer(ADDR));
    LowNibbleClear(m.mem.Read(0xF0), m.mem.Read(0xF1), w0);
  }

  lemma DigitAdded(low: byte, high: byte, w: nat, digit: byte)
    requires Word(low, high) == 0x10 * w % 0x1_0000 && low % 0x10 == 0 && digit < 0x10
    ensures low + digit <= 0xFF && Word(low + digit, high) == (0x10 * w + digit) % 0x1_0000
  {
  }

  /** ADDR := 16 * ADDR + digit mod 65536, the digit saved on the stack meanwhile. */
  method AppendDigit(m: Machine)
    requires m.Valid() && m.a < 0x10
    modifies m`a, m`c, m`z, m`mem, m`sp
    ensures m.Valid() && m.sp == old(m.sp) && Kept(old(m.mem), m.mem, {0xF0, 0xF1}, m.sp, 1)
    ensures m.Pointer(ADDR) == (0x10 * old(m.Pointer(ADDR)) + old(m.a)) % 0x1_0000
  {
    hide Memory.Read, Or8, Word;
    ghost var digit, w0, m0 := m.a, m.Pointer(ADDR), m.mem;
    m.Pha();
    assert m.Pointer(ADDR) == w0;
    ghost var m1 := m.mem;
    ShiftNibble(m);
    ghost var m2 := m.mem;
    assert m2.Read(StackCell(Inc8(m.sp))) == digit;
    m.Pla();
    ghost var high := m.mem.Read(0xF1);
    OrNibble(digit, m.mem.Read(0xF0));
    m.OraZp(0xF0);
    m.StaZp(0xF0);
    DigitAdded(m2.Read(0xF0), high, w0, digit);
  }

  lemma HexValueMod(w: nat, v: nat, d: nat)
    requires w == v % 0x1_0000
    ensures (0x10 * w + d) % 0x1_0000 == (0x10 * v + d) % 0x1_0000
  {
  }

  /** The line and its length are no cells the parsers write, nor stack. */
  lemma LineKept(m1: Memory, m2: Memory, cells: set<word>, sp: byte, d: nat)
    requires Kept(m1, m2, cells, sp, d) && m1.Read(0x40) <= 64
    requires forall k: word :: k in cells ==> k > 0x40
    ensures Line(m2) == Line(m1)
  {
  }

  /** The loop test of both parsers: there is a character at LINEPOS and HEXVAL, called by
      the JSR at `last`, takes it. */
  method NextDigit(m: Machine, last: word) returns (found: bool)
    requires m.Valid() && m.mem.Read(LINELEN) <= 64
    modifies m`a, m`x, m`c, m`z, m`mem, m`sp
    ensures m.Valid() && m.sp == old(m.sp) && SameBut(old(m.mem), m.mem, m.sp, 2)
    ensures
      var line, pos := Line(old(m.mem)), old(m.mem).Read(LINEPOS);
      && found == (pos < |line| && IsHex(line[pos]))
      && (found ==> m.a == DigitValue(line[pos]))
  {
    m.LdxZp(LINEPOS);
    m.Cpx(m.mem.Read(LINELEN));
    if m.c {
      return false;
    }
    m.LdaZp(m.x);
    HexVal(m, last);
    return !m.c;
  }

  /** INC LINEPOS and INC the digit count. */
  method CountDigit(m: Machine)
    requires m.Valid()
    modifies m`mem, m`z
    ensures m.Valid() && Changed(old(m.mem), m.mem, {0x41, 0xF5})
    ensures m.mem.Read(LINEPOS) == Inc8(old(m.mem).Read(LINEPOS)) && m.mem.Read(COUNT) == Inc8(old(m.mem).Read(COUNT))
  {
    m.IncZp(LINEPOS);
    m.IncZp(COUNT);
  }

  /** The parsers' common tail: carry set when no digit was taken. */
  method NoneTaken(m: Machine)
    modifies m`a, m`c, m`z
    ensures m.c == (m.mem.Read(COUNT) == 0)
  {
    m.LdaZp(COUNT);
    if m.z {
      m.Sec();
    } else {
      m.Clc();
    }
  }

  /** `k` digits from `pos` on have been taken from the line that `mem0` holds. */
  ghost predicate Taken(mem0: Memory, mem: Memory, cells: set<word>, sp: byte, line: seq<byte>, pos: byte, k: nat) {
    && Kept(mem0, mem, cells, sp, 2) && Line(mem) == line
    && mem.Read(LINEPOS) == pos + k && mem.Read(COUNT) == k
    && (k == 0 || (pos + k <= |line| && AllHex(line[pos..pos + k])))
  }

  lemma TakenCursor(mem0: Memory, mem: Memory, cells: set<word>, sp: byte, line: seq<byte>, pos: byte, k: nat)
    requires Taken(mem0, mem, cells, sp, line, pos, k)
    ensures Line(mem) == line && mem.Read(LINEPOS) == pos + k && mem.Read(COUNT) == k
    ensures k == 0 || (pos + k <= |line| && AllHex(line[pos..pos + k]))
  {
  }

  /** HEXVAL's call changes none of that. */
  lemma TakenThroughCall(mem0: Memory, m1: Memory, m2: Memory, cells: set<word>, sp: byte, line: seq<byte>,
                         pos: byte, k: nat)
    requires Taken(mem0, m1, cells, sp, line, pos, k) && SameBut(m1, m2, sp, 2) && |line| <= 64
    ensures Taken(mem0, m2, cells, sp, line, pos, k)
    ensures forall addr: word :: addr < 0x100 ==> m2.Read(addr) == m1.Read(addr)
  {
    hide Memory.Read;
    LineKept(m1, m2, {}, sp, 2);
  }

  /** A digit goes into its cells `own`, then CountDigit. */
  lemma TakenExtends(
    mem0: Memory, m1: Memory, m2: Memory, m3: Memory, own: set<word>, cells: set<word>, sp: byte,
    line: seq<byte>, pos: byte, k: nat)
    requires Taken(mem0, m1, cells, sp, line, pos, k) && pos + k < |line| <= 64 && AllHex(line[pos..pos + k + 1])
    requires Kept(m1, m2, own, sp, 1) && Changed(m2, m3, {0x41, 0xF5}) && own <= cells && {0x41, 0xF5} <= cells
    requires 0x41 !in own && 0xF5 !in own && forall c: word :: c in cells ==> 0x40 < c < 0x100
    requires m3.Read(LINEPOS) == Inc8(m2.Read(LINEPOS)) && m3.Read(COUNT) == Inc8(m2.Read(COUNT))
    ensures Taken(mem0, m3, cells, sp, line, pos, k + 1)
  {
    hide Memory.Read;
    LineKept(m1, m2, own, sp, 1);
    LineKept(m2, m3, {0x41, 0xF5}, sp, 1);
  }

  const ADDR_CELLS: set<word> := {0x41, 0xF0, 0xF1, 0xF5}

  /** Value of `k` digits from `pos` on; none when the cursor is past the line. */
  function DigitsValue(line: seq<byte>, pos: nat, k: nat): nat
    requires k == 0 || (pos + k <= |line| && AllHex(line[pos..pos + k]))
  {
    if k == 0 then 0 else HexValue(line[pos..pos + k])
  }

  lemma DigitsExtend(line: seq<byte>, pos: nat, k: nat)
    requires pos + k < |line| && AllHex(line[pos..pos + k]) && IsHex(line[pos + k])
    ensures AllHex(line[pos..pos + k + 1])
    ensures DigitsValue(line, pos, k + 1) == 0x10 * DigitsValue(line, pos, k) + DigitValue(line[pos + k])
  {
    HexValueExtends(line[pos..pos + k], line[pos + k]);
    assert line[pos..pos + k] + [line[pos + k]] == line[pos..pos + k + 1];
  }

  /** One turn of PARSE_ADDR's loop. */
  method TakeAddrDigit(m: Machine, ghost mem0: Memory, ghost line: seq<byte>, ghost pos: byte, ghost k: nat)
    returns (found: bool)
    requires m.Valid() && |line| <= 64
    requires Taken(mem0, m.mem, ADDR_CELLS, m.sp, line, pos, k)
    requires m.Pointer(ADDR) == DigitsValue(line, pos, k) % 0x1_0000
    modifies m`a, m`x, m`c, m`z, m`mem, m`sp
    ensures m.Valid() && m.sp == old(m.sp) && found == (pos + k < |line| && IsHex(line[pos + k]))
    ensures
      var n := if found then k + 1 else k;
      && Taken(mem0, m.mem, ADDR_CELLS, m.sp, line, pos, n) && m.Pointer(ADDR) == DigitsValue(line, pos, n) % 0x1_0000
  {
    hide Memory.Read, DigitsValue, Line, Word, Taken;
    ghost var m1 := m.mem;
    TakenCursor(mem0, m1, ADDR_CELLS, m.sp, line, pos, k);
    found := NextDigit(m, 0xC512);
    TakenThroughCall(mem0, m1, m.mem, ADDR_CELLS, m.sp, line, pos, k);
    if !found {
      return;
    }
    DigitsExtend(line, pos, k);
    HexValueMod(m.Pointer(ADDR), DigitsValue(line, pos, k), m.a);
    ghost var m2 := m.mem;
    AppendDigit(m);
    ghost var m3 := m.mem;
    CountDigit(m);
    TakenExtends(mem0, m2, m3, m.mem, {0xF0, 0xF1}, ADDR_CELLS, m.sp, line, pos, k);
  }

  /** PARSE_ADDR ($C500) up to its RTS: takes the whole run of digits at LINEPOS, leaves its
      value mod 65536 in ADDR, and sets the carry exactly when there is no digit. */
  method ParseAddr(m: Machine)
    requires m.Valid() && m.mem.Read(LINELEN) <= 64
    modifies m`a, m`x, m`c, m`z, m`mem, m`sp
    ensures m.Valid() && m.sp == old(m.sp) && Kept(old(m.mem), m.mem, ADDR_CELLS, m.sp, 2)
    ensures
      var line, pos := Line(old(m.mem)), old(m.mem).Read(LINEPOS);
      var n := HexRun(line, pos);
      && m.mem.Read(LINEPOS) == pos + n
      && m.c == (n == 0)
      && if n == 0 then m.Pointer(ADDR) == 0
         else AllHex(line[pos..pos + n]) && m.Pointer(ADDR) == HexValue(line[pos..pos + n]) % 0x1_0000
  {
    hide HexValue, Kept, Line;
    ghost var mem0, line, pos := m.mem, Line(m.mem), m.mem.Read(LINEPOS);
    ClearParser(m);
    ghost var k := 0;
    while true
      invariant m.Valid() && m.sp == old(m.sp)
      invariant Taken(mem0, m.mem, ADDR_CELLS, m.sp, line, pos, k)
      invariant m.Pointer(ADDR) == DigitsValue(line, pos, k) % 0x1_0000
      decreases |line| - k
    {
      var found := TakeAddrDigit(m, mem0, line, pos, k);
      if !found {
        break;
      }
      k := k + 1;
    }
    if pos <= |line| {
      HexRunIsUnique(line, pos, k);
    }
    NoneTaken(m);
  }

  /** PARSE_ADDR called by the JSR at `last`. */
  method CallParseAddr(m: Machine, last: word)
    requires m.Valid() && m.mem.Read(LINELEN) <= 64
    modifies m`a, m`x, m`c, m`z, m`mem, m`sp
    ensures m.Valid() && m.sp == old(m.sp) && Kept(old(m.mem), m.mem, ADDR_CELLS, m.sp, 4)
    ensures
      var line, pos := Line(old(m.mem)), old(m.mem).Read(LINEPOS);
      var n := HexRun(line, pos);
      && m.mem.Read(LINEPOS) == pos + n
      && m.c == (n == 0)
      && if n == 0 then m.Pointer(ADDR) == 0
         else AllHex(line[pos..pos + n]) && m.Pointer(ADDR) == HexValue(line[pos..pos + n]) % 0x1_0000
  {
    hide Line, HexValue, HexRun, Memory.Read, Word;
    ghost var m0, s := m.mem, m.sp;
    m.Jsr(last);
    ghost var m1 := m.mem;
    LineKept(m0, m1, {}, s, 2);
    ParseAddr(m);
    CallKept(m0, m1, m.mem, ADDR_CELLS, s, 2);
    m.Rts(last);
  }

  /** PARSE_ADDR's first four instructions. */
  method ClearParser(m: Machine)
    requires m.Valid() && m.mem.Read(LINELEN) <= 64
    modifies m`a, m`z, m`mem
    ensures m.Valid() && m.Pointer(ADDR) == 0
    ensures Taken(old(m.mem), m.mem, ADDR_CELLS, m.sp, Line(old(m.mem)), old(m.mem).Read(LINEPOS), 0)
  {
    hide Memory.Read, Line;
    ghost var mem0 := m.mem;
    m.LdaImm(0x00);
    m.StaZp(0xF0);
    m.StaZp(0xF1);
    m.StaZp(COUNT);
    LineKept(mem0, m.mem, ADDR_CELLS, m.sp, 2);
  }

  // ---------- PARSE_BYTE ----------

  const BYTE_CELLS: set<word> := {0x41, 0xF4, 0xF5}

  /** Value of the token of `k` digits at `pos`. */
  function TokenAt(line: seq<byte>, pos: nat, k: nat): byte
    requires k == 0 || (k <= 2 && pos + k <= |line| && AllHex(line[pos..pos + k]))
  {
    if k == 0 then 0 else TokenValue(line[pos..pos + k])
  }

  lemma TokenExtends(line: seq<byte>, pos: nat, k: nat)
    requires k < 2 && pos + k < |line| && AllHex(line[pos..pos + k]) && IsHex(line[pos + k])
    ensures AllHex(line[pos..pos + k + 1])
    ensures TokenAt(line, pos, k) < 0x10
    ensures TokenAt(line, pos, k + 1) == 0x10 * TokenAt(line, pos, k) + DigitValue(line[pos + k])
  {
    assert line[pos..pos + k] + [line[pos + k]] == line[pos..pos + k + 1];
  }

  /** ASL $F4 that loses no bit. */
  method DoubleByte(m: Machine)
    requires m.Valid() && m.mem.Read(BYTEVAL) < 0x80
    modifies m`mem, m`c, m`z
    ensures m.Valid() && Changed(old(m.mem), m.mem, {0xF4}) && m.mem.Read(BYTEVAL) == 2 * old(m.mem).Read(BYTEVAL)
  {
    hide Memory.Read, Changed;
    m.AslZp(0xF4);
  }

  /** The four ASLs. */
  method ShiftByte(m: Machine)
    requires m.Valid() && m.mem.Read(BYTEVAL) < 0x10
    modifies m`mem, m`c, m`z
    ensures m.Valid() && Changed(old(m.mem), m.mem, {0xF4}) && m.mem.Read(BYTEVAL) == 0x10 * old(m.mem).Read(BYTEVAL)
  {
    hide Memory.Read, Changed;
    ghost var m0 := m.mem;
    DoubleByte(m);
    ghost var m1 := m.mem;
    DoubleByte(m);
    ChangedTwice(m0, m1, m.mem, {0xF4}, {0xF4});
    ghost var m2 := m.mem;
    DoubleByte(m);
    ChangedTwice(m0, m2, m.mem, {0xF4}, {0xF4});
    ghost var m3 := m.mem;
    DoubleByte(m);
    ChangedTwice(m0, m3, m.mem, {0xF4}, {0xF4});
  }

  /** BYTEVAL := 16 * BYTEVAL + digit, for a one-digit BYTEVAL. */
  method AppendToByte(m: Machine)
    requires m.Valid() && m.a < 0x10 && m.mem.Read(BYTEVAL) < 0x10
    modifies m`a, m`c, m`z, m`mem, m`sp
    ensures m.Valid() && m.sp == old(m.sp) && Kept(old(m.mem), m.mem, {0xF4}, m.sp, 1)
    ensures m.mem.Read(BYTEVAL) == 0x10 * old(m.mem).Read(BYTEVAL) + old(m.a)
  {
    hide Memory.Read, Or8;
    ghost var digit, v := m.a, m.mem.Read(BYTEVAL);
    m.Pha();
    ShiftByte(m);
    assert m.mem.Read(StackCell(Inc8(m.sp))) == digit;
    m.Pla();
    OrNibble(digit, m.mem.Read(0xF4));
    m.OraZp(0xF4);
    m.StaZp(0xF4);
  }

  /** One turn of PARSE_BYTE's loop, its test for two digits included. */
  method TakeByteDigit(m: Machine, ghost mem0: Memory, ghost line: seq<byte>, ghost pos: byte, ghost k: nat)
    returns (found: bool)
    requires m.Valid() && |line| <= 64 && k <= 2
    requires Taken(mem0, m.mem, BYTE_CELLS, m.sp, line, pos, k) && m.mem.Read(BYTEVAL) == TokenAt(line, pos, k)
    modifies m`a, m`x, m`c, m`z, m`mem, m`sp
    ensures m.Valid() && m.sp == old(m.sp) && found == (k < 2 && pos + k < |line| && IsHex(line[pos + k]))
    ensures
      var n := if found then k + 1 else k;
      && Taken(mem0, m.mem, BYTE_CELLS, m.sp, line, pos, n) && m.mem.Read(BYTEVAL) == TokenAt(line, pos, n)
  {
    hide Memory.Read, TokenAt, Line, Taken;
    ghost var m1 := m.mem;
    TakenCursor(mem0, m1, BYTE_CELLS, m.sp, line, pos, k);
    m.LdaZp(COUNT);
    m.Cmp(0x02);
    if m.c {
      return false;
    }
    found := NextDigit(m, 0xC616);
    TakenThroughCall(mem0, m1, m.mem, BYTE_CELLS, m.sp, line, pos, k);
    if !found {
      return;
    }
    TokenExtends(line, pos, k);
    ghost var m2 := m.mem;
    AppendToByte(m);
    ghost var m3 := m.mem;
    CountDigit(m);
    TakenExtends(mem0, m2, m3, m.mem, {0xF4}, BYTE_CELLS, m.sp, line, pos, k);
  }

  /** PARSE_BYTE ($C600) up to its RTS: takes at most two digits at LINEPOS, leaves their
      value in BYTEVAL, and sets the carry exactly when there is none. */
  method ParseByte(m: Machine)
    requires m.Valid() && m.mem.Read(LINELEN) <= 64
    modifies m`a, m`x, m`c, m`z, m`mem, m`sp
    ensures m.Valid() && m.sp == old(m.sp) && Kept(old(m.mem), m.mem, BYTE_CELLS, m.sp, 2)
    ensures
      var line, pos := Line(old(m.mem)), old(m.mem).Read(LINEPOS);
      var n := Min(2, HexRun(line, pos));
      && m.mem.Read(LINEPOS) == pos + n
      && m.c == (n == 0)
      && (n > 0 ==> AllHex(line[pos..pos + n]) && m.mem.Read(BYTEVAL) == TokenValue(line[pos..pos + n]))
  {
    hide TokenValue, Kept, Line;
    ghost var mem0, line, pos := m.mem, Line(m.mem), m.mem.Read(LINEPOS);
    ClearByte(m);
    ghost var k := 0;
    while true
      invariant m.Valid() && m.sp == old(m.sp) && k <= 2
      invariant Taken(mem0, m.mem, BYTE_CELLS, m.sp, line, pos, k) && m.mem.Read(BYTEVAL) == TokenAt(line, pos, k)
      decreases 2 - k
    {
      var found := TakeByteDigit(m, mem0, line, pos, k);
      if !found {
        break;
      }
      k := k + 1;
    }
    if pos <= |line| {
      RunPrefix(line, pos, k);
    }
    NoneTaken(m);
  }

  lemma RunPrefix(line: seq<byte>, pos: nat, k: nat)
    requires k <= 2 && pos + k <= |line| && AllHex(line[pos..pos + k])
    requires k < 2 && pos + k < |line| ==> !IsHex(line[pos + k])
    ensures k == Min(2, HexRun(line, pos))
  {
    if k > 0 {
      assert line[pos..pos + k][0] == line[pos];
      assert k == 2 ==> line[pos..pos + k][1] == line[pos + 1];
    }
  }

  /** PARSE_BYTE's first three instructions. */
  method ClearByte(m: Machine)
    requires m.Valid() && m.mem.Read(LINELEN) <= 64
    modifies m`a, m`z, m`mem
    ensures m.Valid() && m.mem.Read(BYTEVAL) == 0
    ensures Taken(old(m.mem), m.mem, BYTE_CELLS, m.sp, Line(old(m.mem)), old(m.mem).Read(LINEPOS), 0)
  {
    hide Memory.Read, Line;
    ghost var mem0 := m.mem;
    m.LdaImm(0x00);
    m.StaZp(BYTEVAL);
    m.StaZp(COUNT);
    LineKept(mem0, m.mem, BYTE_CELLS, m.sp, 2);
  }

  /** PARSE_BYTE called by the JSR at `last`. */
  method CallParseByte(m: Machine, last: word)
    requires m.Valid() && m.mem.Read(LINELEN) <= 64
    modifies m`a, m`x, m`c, m`z, m`mem, m`sp
    ensures m.Valid() && m.sp == old(m.sp) && Kept(old(m.mem), m.mem, BYTE_CELLS, m.sp, 4)
    ensures
      var line, pos := Line(old(m.mem)), old(m.mem).Read(LINEPOS);
      var n := Min(2, HexRun(line, pos));
      && m.mem.Read(LINEPOS) == pos + n
      && m.c == (n == 0)
      && (n > 0 ==> AllHex(line[pos..pos + n]) && m.mem.Read(BYTEVAL) == TokenValue(line[pos..pos + n]))
  {
    hide Line, TokenValue, HexRun, Memory.Read;
    ghost var m0, s := m.mem, m.sp;
    m.Jsr(last);
    ghost var m1 := m.mem;
    LineKept(m0, m1, {}, s, 2);
    ParseByte(m);
    CallKept(m0, m1, m.mem, BYTE_CELLS, s, 2);
    m.Rts(last);
  }
}
