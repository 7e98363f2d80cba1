/** Hexadecimal text as the monitor prints and reads it, as functions on byte strings. */
module HexText {
  import opened Words

  const CR: byte := 0x0D
  const LF: byte := 0x0A
  const SPACE: byte := 0x20
  const COLON: byte := 0x3A

  predicate IsHex(ch: byte) {
    0x30 <= ch <= 0x39 || 0x41 <= ch <= 0x46 || 0x61 <= ch <= 0x66
  }

  /** Value of a hexadecimal digit, either case. */
  function DigitValue(ch: byte): byte
    requires IsHex(ch)
  {
    if ch <= 0x39 then ch - 0x30 else if ch <= 0x46 then ch - 0x41 + 10 else ch - 0x61 + 10
  }

  /** The digit printed for a nibble, upper case. */
  function Digit(n: byte): byte
    requires n < 0x10
  {
    if n < 10 then 0x30 + n else 0x41 + (n - 10)
  }

  function PrintedByte(b: byte): seq<byte> {
    [Digit(b / 0x10), Digit(b % 0x10)]
  }

  function PrintedWord(w: word): seq<byte> {
    PrintedByte(Hi(w)) + PrintedByte(Lo(w))
  }

  predicate AllHex(s: seq<byte>) {
    forall i :: 0 <= i < |s| ==> IsHex(s[i])
  }

  /** Value of a string of digits, most significant first. */
  function HexValue(s: seq<byte>): nat
    requires AllHex(s)
  {
    if s == [] then 0 else 0x10 * HexValue(s[..|s| - 1]) + DigitValue(s[|s| - 1])
  }

  /** Length of the run of digits that starts at `pos`. */
  function HexRun(line: seq<byte>, pos: nat): (n: nat)
    ensures pos + n <= |line| || n == 0
    decreases |line| - pos
  {
    if pos < |line| && IsHex(line[pos]) then 1 + HexRun(line, pos + 1) else 0
  }

  /** The run is all digits and maximal. */
  lemma {:induction false} HexRunIsMaximal(line: seq<byte>, pos: nat)
    requires pos <= |line|
    ensures
      var n := HexRun(line, pos);
      && pos + n <= |line| && AllHex(line[pos..pos + n])
      && (pos + n < |line| ==> !IsHex(line[pos + n]))
    decreases |line| - pos
  {
    if pos < |line| && IsHex(line[pos]) {
      HexRunIsMaximal(line, pos + 1);
      var n := HexRun(line, pos);
      assert line[pos..pos + n] == [line[pos]] + line[pos + 1..pos + n];
    }
  }

  /** Any maximal run of digits is the one HexRun finds. */
  lemma {:induction false} HexRunIsUnique(line: seq<byte>, pos: nat, n: nat)
    requires pos + n <= |line| && AllHex(line[pos..pos + n])
    requires pos + n < |line| ==> !IsHex(line[pos + n])
    ensures HexRun(line, pos) == n
    decreases n
  {
    if n > 0 {
      var run := line[pos..pos + n];
      assert run[0] == line[pos] && run[1..] == line[pos + 1..pos + n];
      HexRunIsUnique(line, pos + 1, n - 1);
    }
  }

  lemma HexValueExtends(s: seq<byte>, ch: byte)
    requires AllHex(s) && IsHex(ch)
    ensures AllHex(s + [ch]) && HexValue(s + [ch]) == 0x10 * HexValue(s) + DigitValue(ch)
  {
    assert (s + [ch])[..|s|] == s;
  }

  lemma DigitRoundTrip(n: byte)
    requires n < 0x10
    ensures IsHex(Digit(n)) && DigitValue(Digit(n)) == n
  {
  }

  /** Digits are 0-9 and A-F in ASCII; lower-case letters are read as well. */
  lemma DigitCodes(n: byte, ch: byte)
    requires n < 0x10
    ensures Digit(n) == if n < 10 then 48 + n else 55 + n
    ensures IsHex(ch) && DigitValue(ch) == n <==> ch == Digit(n) || (n >= 10 && ch == 87 + n)
  {
  }

  /** An address is printed as four digits, a byte as two, the leading one first. */
  lemma PrintedDigits(w: word, b: byte)
    ensures PrintedByte(b) == [Digit(b / 0x10), Digit(b % 0x10)]
    ensures
      PrintedWord(w) == [Digit(w / 0x1000), Digit(w / 0x100 % 0x10), Digit(w / 0x10 % 0x10), Digit(w % 0x10)]
  {
    WordNibbles(w);
  }

  lemma WordNibbles(w: word)
    ensures Hi(w) / 0x10 == w / 0x1000 && Hi(w) % 0x10 == w / 0x100 % 0x10
    ensures Lo(w) / 0x10 == w / 0x10 % 0x10 && Lo(w) % 0x10 == w % 0x10
  {
    var hi, lo := w / 0x100, w % 0x100;
    var a, b, c, d := hi / 0x10, hi % 0x10, lo / 0x10, lo % 0x10;
    DivisionUnique(w, 0x1000, a, 0x100 * b + lo);
    DivisionUnique(w, 0x10, 0x10 * hi + c, d);
    DivisionUnique(0x10 * hi + c, 0x10, hi, c);
  }

  lemma PrintedByteValue(b: byte)
    ensures AllHex(PrintedByte(b)) && HexValue(PrintedByte(b)) == b
  {
    DigitRoundTrip(b / 0x10);
    DigitRoundTrip(b % 0x10);
    var high := Digit(b / 0x10);
    HexValueExtends([], high);
    HexValueExtends([high], Digit(b % 0x10));
    assert [] + [high] == [high] && [high] + [Digit(b % 0x10)] == PrintedByte(b);
  }

  /** Reading a printed address gives the address back. */
  lemma PrintedWordValue(w: word)
    ensures AllHex(PrintedWord(w)) && HexValue(PrintedWord(w)) == w
  {
    var hi := PrintedByte(Hi(w));
    var lo := PrintedByte(Lo(w));
    PrintedByteValue(Hi(w));
    PrintedByteValue(Lo(w));
    DigitRoundTrip(Lo(w) / 0x10);
    DigitRoundTrip(Lo(w) % 0x10);
    HexValueExtends(hi, lo[0]);
    HexValueExtends(hi + [lo[0]], lo[1]);
    HexValueExtends([], lo[0]);
    HexValueExtends([lo[0]], lo[1]);
    assert hi + [lo[0]] + [lo[1]] == PrintedWord(w);
    assert [] + [lo[0]] == [lo[0]] && [lo[0]] + [lo[1]] == lo;
  }

  /** A line that holds a printed address followed by a non-digit is parsed back to it. */
  lemma ParsePrintedAddress(line: seq<byte>, pos: nat, w: word)
    requires pos + 4 <= |line| && line[pos..pos + 4] == PrintedWord(w)
    requires pos + 4 < |line| ==> !IsHex(line[pos + 4])
    ensures HexRun(line, pos) == 4 && AllHex(line[pos..pos + 4]) && HexValue(line[pos..pos + 4]) % 0x1_0000 == w
  {
    PrintedWordValue(w);
    HexRunIsUnique(line, pos, 4);
  }

  // ---------- listings ----------

  function PrintedBytes(bs: seq<byte>): seq<byte> {
    if bs == [] then [] else PrintedByte(bs[0]) + [SPACE] + PrintedBytes(bs[1..])
  }

  /** A row of a listing: its address, its bytes, a line break. */
  function Row(addr: word, bs: seq<byte>): seq<byte> {
    PrintedWord(addr) + [COLON, SPACE] + PrintedBytes(bs) + [CR, LF]
  }

  /** A listing: rows of sixteen bytes, the last one what is left over. */
  function Listing(addr: nat, bs: seq<byte>): seq<byte>
    requires addr + |bs| <= 0x1_0000
    decreases |bs|
  {
    if bs == [] then []
    else if |bs| <= 16 then Row(addr, bs)
    else Row(addr, bs[..16]) + Listing(addr + 16, bs[16..])
  }

  /** What LIST prints for its `k`-th byte: a prefix before the first byte of each row, a
      line break after the sixteenth. */
  function ByteText(addr: nat, k: nat, b: byte): seq<byte>
    requires addr + k < 0x1_0000
  {
    (if k % 16 == 0 then PrintedWord(addr + k) + [COLON, SPACE] else [])
    + PrintedByte(b) + [SPACE]
    + (if (k + 1) % 16 == 0 then [CR, LF] else [])
  }

  /** The text after all the bytes of `bs`. */
  function Streamed(addr: nat, bs: seq<byte>): seq<byte>
    requires addr + |bs| <= 0x1_0000
    decreases |bs|
  {
    if bs == [] then []
    else Streamed(addr, bs[..|bs| - 1]) + ByteText(addr, |bs| - 1, bs[|bs| - 1])
  }

  /** The line break still owed after `n` bytes. */
  function LastBreak(n: nat): seq<byte> {
    if n % 16 == 0 then [] else [CR, LF]
  }

  lemma {:induction false} PrintedBytesExtend(bs: seq<byte>, b: byte)
    ensures PrintedBytes(bs + [b]) == PrintedBytes(bs) + (PrintedByte(b) + [SPACE])
  {
    if bs == [] {
      assert bs + [b] == [b];
    } else {
      PrintedBytesExtend(bs[1..], b);
      assert (bs + [b])[1..] == bs[1..] + [b];
    }
  }

  /** A row without its line break. */
  function OpenRow(addr: word, bs: seq<byte>): seq<byte> {
    PrintedWord(addr) + [COLON, SPACE] + PrintedBytes(bs)
  }

  lemma OpenRowExtends(addr: word, bs: seq<byte>, b: byte)
    ensures OpenRow(addr, bs + [b]) == OpenRow(addr, bs) + (PrintedByte(b) + [SPACE])
  {
    hide PrintedWord, PrintedByte, PrintedBytes;
    PrintedBytesExtend(bs, b);
  }

  lemma FirstByteText(addr: nat, b: byte)
    requires addr < 0x1_0000
    ensures ByteText(addr, 0, b) == OpenRow(addr, [b])
  {
    hide PrintedWord, PrintedByte;
    assert PrintedBytes([b]) == PrintedByte(b) + [SPACE];
  }

  /** Within its first row the stream is the row so far. */
  lemma {:induction false} StreamWithinRow(addr: nat, bs: seq<byte>)
    requires addr + |bs| <= 0x1_0000 && 0 < |bs| <= 16
    ensures Streamed(addr, bs) == OpenRow(addr, bs) + (if |bs| == 16 then [CR, LF] else [])
    decreases |bs|
  {
    hide PrintedWord, PrintedByte, PrintedBytes, OpenRow;
    var k := |bs| - 1;
    var b := bs[k];
    assert bs[..k] + [b] == bs;
    if k == 0 {
      FirstByteText(addr, b);
      assert bs == [b] && Streamed(addr, []) == [];
    } else {
      StreamWithinRow(addr, bs[..k]);
      OpenRowExtends(addr, bs[..k], b);
      assert ByteText(addr, k, b) == PrintedByte(b) + [SPACE] + (if k == 15 then [CR, LF] else []);
      assert Streamed(addr, bs) == OpenRow(addr, bs[..k]) + ByteText(addr, k, b);
    }
  }

  lemma RowTextShifts(addr: nat, k: nat, b: byte)
    requires addr + k < 0x1_0000 && k >= 16
    ensures ByteText(addr, k, b) == ByteText(addr + 16, k - 16, b)
  {
  }

  /** A full row is followed by the stream of what comes after it. */
  lemma {:induction false} StreamAfterRow(addr: nat, bs: seq<byte>)
    requires addr + |bs| <= 0x1_0000 && |bs| >= 16
    ensures Streamed(addr, bs) == Row(addr, bs[..16]) + Streamed(addr + 16, bs[16..])
    decreases |bs|
  {
    hide Row, ByteText;
    if |bs| == 16 {
      FullRow(addr, bs);
      assert bs[..16] == bs;
    } else {
      var k := |bs| - 1;
      StreamAfterRow(addr, bs[..k]);
      RowTextShifts(addr, k, bs[k]);
      assert bs[..k][..16] == bs[..16] && bs[..k][16..] == bs[16..][..k - 16];
    }
  }

  lemma FullRow(addr: nat, bs: seq<byte>)
    requires addr + |bs| <= 0x1_0000 && |bs| == 16
    ensures Streamed(addr, bs) == Row(addr, bs)
  {
    StreamWithinRow(addr, bs);
  }

  lemma ShortRow(addr: nat, bs: seq<byte>)
    requires addr + |bs| <= 0x1_0000 && 0 < |bs| < 16
    ensures Streamed(addr, bs) + [CR, LF] == Row(addr, bs)
  {
    StreamWithinRow(addr, bs);
  }

  /** The stream, with the last row's line break, is the listing. */
  lemma {:induction false} StreamIsListing(addr: nat, bs: seq<byte>)
    requires addr + |bs| <= 0x1_0000
    ensures Streamed(addr, bs) + LastBreak(|bs|) == Listing(addr, bs)
    decreases |bs|
  {
    hide Row, ByteText;
    if bs == [] {
    } else if |bs| < 16 {
      ShortRow(addr, bs);
    } else if |bs| == 16 {
      FullRow(addr, bs);
    } else {
      StreamAfterRow(addr, bs);
      StreamIsListing(addr + 16, bs[16..]);
      assert LastBreak(|bs|) == LastBreak(|bs[16..]|);
    }
  }

  // ---------- the listing, character by character ----------

  /** Where the `k`-th byte of a listing stands: a row is 56 characters, of which 6 are its
      address, colon and blank; a byte is two digits and a blank. */
  function Column(k: nat): nat {
    56 * (k / 16) + 6 + 3 * (k % 16)
  }

  lemma {:induction false} PrintedBytesAt(bs: seq<byte>, k: nat)
    requires k < |bs|
    ensures |PrintedBytes(bs)| == 3 * |bs|
    ensures PrintedBytes(bs)[3 * k..3 * k + 3] == [Digit(bs[k] / 0x10), Digit(bs[k] % 0x10), 0x20]
    decreases |bs|
  {
    hide Digit;
    var rest := PrintedBytes(bs[1..]);
    assert PrintedBytes(bs) == PrintedByte(bs[0]) + [SPACE] + rest;
    if |bs| > 1 {
      PrintedBytesAt(bs[1..], if k == 0 then 0 else k - 1);
      if k > 0 {
        assert PrintedBytes(bs)[3 * k..3 * k + 3] == rest[3 * (k - 1)..3 * (k - 1) + 3];
      }
    }
  }

  lemma RowAtColumn(addr: word, bs: seq<byte>, k: nat)
    requires k < |bs|
    ensures |Row(addr, bs)| == 8 + 3 * |bs|
    ensures Row(addr, bs)[..6] == PrintedWord(addr) + [0x3A, 0x20]
    ensures Row(addr, bs)[6 + 3 * k..9 + 3 * k] == [Digit(bs[k] / 0x10), Digit(bs[k] % 0x10), 0x20]
    ensures Row(addr, bs)[6 + 3 * |bs|..] == [0x0D, 0x0A]
  {
    hide Digit;
    PrintedBytesAt(bs, k);
    var head, text := PrintedWord(addr) + [COLON, SPACE], PrintedBytes(bs);
    assert |head| == 6;
    assert Row(addr, bs) == head + text + [CR, LF];
    assert Row(addr, bs)[6 + 3 * k..9 + 3 * k] == text[3 * k..3 * k + 3];
  }

  /** Byte `b` of address `addr` stands at `at`: its two digits and a blank, before it the
      row's address, a colon and a blank if it opens a row, and behind it CR and LF if it closes
      one. */
  ghost predicate Stands(text: seq<byte>, at: nat, addr: word, b: byte, opens: bool, closes: bool) {
    && at + 3 <= |text|
    && text[at..at + 3] == [Digit(b / 0x10), Digit(b % 0x10), 0x20]
    && (opens ==> at >= 6 && text[at - 6..at] == PrintedWord(addr) + [0x3A, 0x20])
    && (closes ==> at + 5 <= |text| && text[at + 3..at + 5] == [0x0D, 0x0A])
  }

  /** A listing, character by character: the sixteenth byte of a row closes it, and so does the
      last byte, behind whose line break nothing follows. */
  lemma {:induction false} ListingLaw(addr: nat, bs: seq<byte>, k: nat)
    requires addr + |bs| <= 0x1_0000 && k < |bs|
    ensures Stands(Listing(addr, bs), Column(k), addr + k, bs[k], k % 16 == 0, k % 16 == 15 || k == |bs| - 1)
    ensures |Listing(addr, bs)| == Column(|bs| - 1) + 5
    decreases |bs|
  {
    hide Row, Stands;
    if |bs| <= 16 {
      RowStands(addr, bs, k);
    } else {
      var row, rest := Row(addr, bs[..16]), Listing(addr + 16, bs[16..]);
      RowStands(addr, bs[..16], if k < 16 then k else 0);
      ListingLaw(addr + 16, bs[16..], if k < 16 then 0 else k - 16);
      ColumnOfNextRow(|bs| - 1);
      if k < 16 {
        StandsBefore(row, rest, Column(k), addr + k, bs[k], k % 16 == 0, k % 16 == 15);
      } else {
        ColumnOfNextRow(k);
        StandsBehind(row, rest, Column(k - 16), addr + k, bs[k], k % 16 == 0, k % 16 == 15 || k == |bs| - 1);
      }
    }
  }

  lemma RowStands(addr: word, bs: seq<byte>, k: nat)
    requires k < |bs| <= 16 && addr + k < 0x1_0000
    ensures Stands(Row(addr, bs), Column(k), addr + k, bs[k], k == 0, k == |bs| - 1)
    ensures |Row(addr, bs)| == Column(|bs| - 1) + 5
  {
    hide Row, PrintedWord, Digit;
    RowAtColumn(addr, bs, k);
    assert Column(k) == 6 + 3 * k;
    if k == |bs| - 1 {
      assert Row(addr, bs)[Column(k) + 3..Column(k) + 5] == Row(addr, bs)[6 + 3 * |bs|..];
    }
  }

  lemma StandsBefore(row: seq<byte>, rest: seq<byte>, at: nat, addr: word, b: byte, opens: bool, closes: bool)
    requires Stands(row, at, addr, b, opens, closes)
    ensures Stands(row + rest, at, addr, b, opens, closes)
  {
    hide Digit, PrintedWord;
    assert (row + rest)[at..at + 3] == row[at..at + 3];
    if opens {
      assert (row + rest)[at - 6..at] == row[at - 6..at];
    }
    if closes {
      assert (row + rest)[at + 3..at + 5] == row[at + 3..at + 5];
    }
  }

  lemma StandsBehind(row: seq<byte>, rest: seq<byte>, at: nat, addr: word, b: byte, opens: bool, closes: bool)
    requires Stands(rest, at, addr, b, opens, closes)
    ensures Stands(row + rest, |row| + at, addr, b, opens, closes)
  {
    hide Digit, PrintedWord;
    var n := |row|;
    assert (row + rest)[n + at..n + at + 3] == rest[at..at + 3];
    if opens {
      assert (row + rest)[n + at - 6..n + at] == rest[at - 6..at];
    }
    if closes {
      assert (row + rest)[n + at + 3..n + at + 5] == rest[at + 3..at + 5];
    }
  }

  lemma ColumnOfNextRow(k: nat)
    requires k >= 16
    ensures Column(k) == Column(k - 16) + 56 && (k - 16) % 16 == k % 16
  {
  }

  // ---------- POKE's tokens ----------

  /** The bytes POKE takes from the line: spaces are skipped, a token is one or two digits,
      anything else ends the list. */
  function PokeBytes(line: seq<byte>, pos: nat): (bs: seq<byte>)
    ensures bs == [] || |bs| <= |line| - pos
    decreases |line| - pos
  {
    if pos >= |line| then []
    else if line[pos] == SPACE then PokeBytes(line, pos + 1)
    else
      HexRunIsMaximal(line, pos);
      var n := if HexRun(line, pos) < 2 then HexRun(line, pos) else 2;
      if n == 0 then [] else [TokenValue(line[pos..pos + n])] + PokeBytes(line, pos + n)
  }

  function TokenValue(token: seq<byte>): byte
    requires |token| <= 2 && AllHex(token)
  {
    if |token| == 0 then 0
    else if |token| == 1 then DigitValue(token[0])
    else 0x10 * DigitValue(token[0]) + DigitValue(token[1])
  }

  /** A token means its value as a number. */
  lemma TokenIsNumber(token: seq<byte>)
    requires |token| <= 2 && AllHex(token)
    ensures TokenValue(token) == HexValue(token)
  {
    if |token| == 1 {
      assert token[..0] == [];
    } else if |token| == 2 {
      assert token[..1] == [token[0]] && [token[0]][..0] == [];
      assert HexValue([token[0]]) == DigitValue(token[0]);
    }
  }

  /** POKE at a position: a blank is skipped; two digits, or one before a non-digit, are a byte;
      anything else, and the end of the line, ends it. */
  lemma PokeLaw(line: seq<byte>, pos: nat)
    requires pos <= |line|
    ensures pos == |line| ==> PokeBytes(line, pos) == []
    ensures pos < |line| && line[pos] == 0x20 ==> PokeBytes(line, pos) == PokeBytes(line, pos + 1)
    ensures pos < |line| && line[pos] != 0x20 && !IsHex(line[pos]) ==> PokeBytes(line, pos) == []
    ensures
      pos + 1 < |line| && IsHex(line[pos]) && IsHex(line[pos + 1]) ==>
        PokeBytes(line, pos) ==
          [0x10 * DigitValue(line[pos]) + DigitValue(line[pos + 1])] + PokeBytes(line, pos + 2)
    ensures
      pos < |line| && IsHex(line[pos]) && (pos + 1 == |line| || !IsHex(line[pos + 1])) ==>
        PokeBytes(line, pos) == [DigitValue(line[pos])] + PokeBytes(line, pos + 1)
  {
    HexRunIsMaximal(line, pos);
    if pos + 1 < |line| && IsHex(line[pos]) && IsHex(line[pos + 1]) {
      assert HexRun(line, pos) >= 2 && line[pos..pos + 2] == [line[pos], line[pos + 1]];
    } else if pos < |line| && IsHex(line[pos]) {
      assert HexRun(line, pos) == 1 && line[pos..pos + 1] == [line[pos]];
    }
  }

  lemma TokenValueOfPrinted(b: byte)
    ensures AllHex(PrintedByte(b)) && TokenValue(PrintedByte(b)) == b
  {
    DigitRoundTrip(b / 0x10);
    DigitRoundTrip(b % 0x10);
  }

  /** POKE reads back bytes as LIST prints them. */
  lemma {:induction false} PokeReadsPrinted(line: seq<byte>, pos: nat, bs: seq<byte>)
    requires pos <= |line| && line[pos..] == PrintedBytes(bs)
    ensures PokeBytes(line, pos) == bs
    decreases |bs|
  {
    if bs != [] {
      var rest := PrintedBytes(bs[1..]);
      assert line[pos..] == PrintedByte(bs[0]) + [SPACE] + rest;
      assert line[pos] == line[pos..][0] && line[pos + 1] == line[pos..][1] && line[pos + 2] == line[pos..][2];
      TokenValueOfPrinted(bs[0]);
      assert line[pos..pos + 2] == PrintedByte(bs[0]);
      HexRunIsUnique(line, pos, 2);
      assert line[pos + 3..] == line[pos..][3..] == rest;
      PokeReadsPrinted(line, pos + 3, bs[1..]);
    }
  }
}
