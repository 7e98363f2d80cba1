/** What SAVE, LOAD and REWIND do to the tape, and what that means for a session. A block
    on tape is its length (two bytes, low first), its data and the XOR of its data. */
module TapeBlocks {
  import opened Words
  import opened TtyDevice

  /** The running checksum after the bytes of `data`. */
  function Checksum(data: seq<byte>): byte {
    if data == [] then 0 else Xor8(data[|data| - 1], Checksum(data[..|data| - 1]))
  }

  function Block(data: seq<byte>): seq<byte>
    requires |data| < 0x1_0000
  {
    [Lo(|data|), Hi(|data|)] + data + [Checksum(data)]
  }

  /** How many of the bytes have bit `k` set. */
  function Ones(data: seq<byte>, k: nat): nat {
    if data == [] then 0 else Ones(data[..|data| - 1], k) + data[|data| - 1] / Pow2(k) % 2
  }

  /** The checksum is the parity of each bit over all bytes. */
  lemma {:induction false} ChecksumIsParity(data: seq<byte>, k: nat)
    ensures Checksum(data) / Pow2(k) % 2 == Ones(data, k) % 2
  {
    hide Xor8, Pow2;
    if data == [] {
      DivisionUnique(0, Pow2(k), 0, 0);
    } else {
      var n := |data| - 1;
      var before, last := Checksum(data[..n]) / Pow2(k) % 2, data[n] / Pow2(k) % 2;
      ChecksumIsParity(data[..n], k);
      BytesBitwise(data[n], Checksum(data[..n]), k);
      ParityAdds(Ones(data[..n], k), last, before, Checksum(data) / Pow2(k) % 2);
    }
  }

  lemma ParityAdds(n: nat, bit: nat, parity: nat, r: nat)
    requires bit < 2 && r < 2 && parity == n % 2 && (r == 1 <==> bit != parity)
    ensures r == (n + bit) % 2
  {
  }

  /** A block on tape: two length bytes, low one first, the data, and one byte with the parity
      of each bit of the data. */
  lemma BlockLaw(data: seq<byte>, k: nat)
    requires |data| < 0x1_0000
    ensures
      var n, b := |data|, Block(data);
      && |b| == n + 3
      && b[0] == n % 0x100 && b[1] == n / 0x100
      && b[2..n + 2] == data
      && b[n + 2] / Pow2(k) % 2 == Ones(data, k) % 2
  {
    hide Checksum;
    ChecksumIsParity(data, k);
  }

  /** `bytes` written over a tape from `p` on, growing it as needed. */
  function Over(tape: seq<byte>, p: nat, bytes: seq<byte>): seq<byte>
    requires p <= |tape|
  {
    tape[..p] + bytes + (if p + |bytes| <= |tape| then tape[p + |bytes|..] else [])
  }

  lemma OverExtends(tape: seq<byte>, p: nat, bytes: seq<byte>, v: byte)
    requires p <= |tape|
    ensures Overwrite(Over(tape, p, bytes), p + |bytes|, v) == Over(tape, p, bytes + [v])
  {
  }

  lemma OverNothing(tape: seq<byte>, p: nat)
    requires p <= |tape|
    ensures Over(tape, p, []) == tape
  {
  }

  lemma OverTwice(tape: seq<byte>, p: nat, first: seq<byte>, second: seq<byte>)
    requires p <= |tape|
    ensures p + |first| <= |Over(tape, p, first)|
    ensures Over(Over(tape, p, first), p + |first|, second) == Over(tape, p, first + second)
  {
  }

  /** Bytes written over a tape take the cells from `p` on; all others stay. */
  lemma OverLaw(tape: seq<byte>, p: nat, bytes: seq<byte>, i: nat)
    requires p <= |tape|
    ensures |Over(tape, p, bytes)| == if p + |bytes| <= |tape| then |tape| else p + |bytes|
    ensures
      i < |Over(tape, p, bytes)| ==>
        Over(tape, p, bytes)[i] == if p <= i < p + |bytes| then bytes[i - p] else tape[i]
  {
  }

  const ERROR_LINE: seq<byte> := [0x3F, 0x0D, 0x0A]

  // ---------- the three commands ----------

  /** SAVE with a tape: the block goes over the tape at the head. */
  function AfterSave(t: Tty, data: seq<byte>): Tty
    requires t.OnTape() && |data| < 0x1_0000
  {
    t.(tape := Over(t.tape, t.position, Block(data)), position := t.position + |data| + 3,
       motor := false, eot := false, error := false)
  }

  /** What LOAD makes of the tape from the head on: the bytes it stores, where it leaves the
      head, whether it ran off the end, and whether it accepts the block. */
  datatype Outcome = Outcome(data: seq<byte>, position: nat, truncated: bool, ok: bool)

  function LoadOutcome(tape: seq<byte>, p: nat): Outcome
    requires p <= |tape|
  {
    if p + 2 > |tape| then Outcome([], |tape|, true, false)
    else
      var len := Word(tape[p], tape[p + 1]);
      if p + 2 + len >= |tape| then Outcome(tape[p + 2..], |tape|, true, false)
      else
        var data := tape[p + 2..p + 2 + len];
        Outcome(data, p + len + 3, false, Checksum(data) == tape[p + 2 + len])
  }

  /** LOAD with a tape, as the device sees it. */
  function AfterLoad(t: Tty): Tty
    requires t.OnTape()
  {
    var r := LoadOutcome(t.tape, t.position);
    t.(position := r.position, motor := false, eot := r.truncated, error := r.truncated,
       out := if r.ok then t.out else t.out + ERROR_LINE)
  }

  function AfterRewind(t: Tty): Tty {
    t.(position := 0, motor := false, eot := false, error := false)
  }

  // ---------- round trip ----------

  predicate Storable(blocks: seq<seq<byte>>) {
    forall i :: 0 <= i < |blocks| ==> |blocks[i]| < 0x1_0000
  }

  function Image(blocks: seq<seq<byte>>): seq<byte>
    requires Storable(blocks)
  {
    if blocks == [] then [] else Block(blocks[0]) + Image(blocks[1..])
  }

  function SaveAll(t: Tty, blocks: seq<seq<byte>>): Tty
    requires t.OnTape() && Storable(blocks)
    decreases |blocks|
  {
    if blocks == [] then t else SaveAll(AfterSave(t, blocks[0]), blocks[1..])
  }

  /** `n` LOADs in a row: the data each one stores, and the device afterwards. */
  function LoadMany(t: Tty, n: nat): (seq<seq<byte>>, Tty)
    requires t.OnTape()
    decreases n
  {
    if n == 0 then ([], t)
    else
      var rest := LoadMany(AfterLoad(t), n - 1);
      ([LoadOutcome(t.tape, t.position).data] + rest.0, rest.1)
  }

  lemma {:induction false} SavesLayOutBlocks(t: Tty, blocks: seq<seq<byte>>)
    requires t.OnTape() && Storable(blocks)
    ensures
      var u := SaveAll(t, blocks);
      && u.tape == Over(t.tape, t.position, Image(blocks))
      && u.position == t.position + |Image(blocks)|
      && u.OnTape() && u.out == t.out
    decreases |blocks|
  {
    hide Block, Over;
    if blocks != [] {
      var b := Block(blocks[0]);
      BlockCells(blocks[0]);
      OverTwice(t.tape, t.position, b, Image(blocks[1..]));
      SavesLayOutBlocks(AfterSave(t, blocks[0]), blocks[1..]);
    } else {
      OverNothing(t.tape, t.position);
    }
  }

  lemma BlockCells(data: seq<byte>)
    requires |data| < 0x1_0000
    ensures |Block(data)| == |data| + 3
    ensures Block(data)[0] == Lo(|data|) && Block(data)[1] == Hi(|data|) && Block(data)[|data| + 2] == Checksum(data)
    ensures Block(data)[2..|data| + 2] == data
  {
    hide Checksum;
  }

  lemma Part(s: seq<byte>, p: nat, n: nat, from: nat, to: nat)
    requires p + n <= |s| && from <= to <= n
    ensures s[p..p + n][from..to] == s[p + from..p + to]
  {
    var part, whole := s[p..p + n][from..to], s[p + from..p + to];
    assert forall i :: 0 <= i < |part| ==> part[i] == whole[i];
  }

  lemma Element(s: seq<byte>, p: nat, n: nat, i: nat)
    requires p + n <= |s| && i < n
    ensures s[p..p + n][i] == s[p + i]
  {
  }

  /** The parts of a block found at `p`. */
  lemma BlockParts(tape: seq<byte>, p: nat, data: seq<byte>)
    requires |data| < 0x1_0000
    requires p + |data| + 3 <= |tape| && tape[p..p + |data| + 3] == Block(data)
    ensures Word(tape[p], tape[p + 1]) == |data|
    ensures tape[p + 2..p + 2 + |data|] == data && tape[p + 2 + |data|] == Checksum(data)
  {
    hide Checksum, Block, Word, Lo, Hi;
    BlockCells(data);
    WordOfHalves(|data|);
    var n := |data|;
    Part(tape, p, n + 3, 2, n + 2);
    Element(tape, p, n + 3, 0);
    Element(tape, p, n + 3, 1);
    Element(tape, p, n + 3, n + 2);
  }

  /** A LOAD at the start of a block, wherever it lies on a tape, stores its data. */
  lemma LoadReadsBlock(tape: seq<byte>, p: nat, data: seq<byte>)
    requires |data| < 0x1_0000
    requires p + |data| + 3 <= |tape| && tape[p..p + |data| + 3] == Block(data)
    ensures LoadOutcome(tape, p) == Outcome(data, p + |data| + 3, false, true)
  {
    hide Checksum, Block;
    BlockParts(tape, p, data);
  }

  /** The tape holds these blocks from `p` on: the first, then the others. */
  lemma ImageParts(tape: seq<byte>, p: nat, blocks: seq<seq<byte>>)
    requires Storable(blocks) && blocks != []
    requires p + |Image(blocks)| <= |tape| && tape[p..p + |Image(blocks)|] == Image(blocks)
    ensures
      var n, rest := |blocks[0]| + 3, Image(blocks[1..]);
      && n + |rest| == |Image(blocks)|
      && tape[p..p + n] == Block(blocks[0]) && tape[p + n..p + n + |rest|] == rest
  {
    hide Checksum;
    TwoParts(tape, p, Block(blocks[0]), Image(blocks[1..]));
  }

  lemma TwoParts(tape: seq<byte>, p: nat, first: seq<byte>, rest: seq<byte>)
    requires p + |first| + |rest| <= |tape| && tape[p..p + |first| + |rest|] == first + rest
    ensures tape[p..p + |first|] == first && tape[p + |first|..p + |first| + |rest|] == rest
  {
    var both := tape[p..p + |first| + |rest|];
    assert tape[p..p + |first|] == both[..|first|];
    assert tape[p + |first|..p + |first| + |rest|] == both[|first|..];
  }

  lemma {:induction false} LoadsReadBlocks(t: Tty, blocks: seq<seq<byte>>)
    requires t.OnTape() && Storable(blocks)
    requires t.position + |Image(blocks)| <= |t.tape|
    requires t.tape[t.position..t.position + |Image(blocks)|] == Image(blocks)
    ensures
      var r := LoadMany(t, |blocks|);
      r.0 == blocks && r.1.out == t.out && r.1.position == t.position + |Image(blocks)|
    decreases |blocks|
  {
    hide Block, LoadOutcome, AfterLoad;
    if blocks != [] {
      ImageParts(t.tape, t.position, blocks);
      AfterGoodLoad(t, blocks[0]);
      LoadsReadBlocks(AfterLoad(t), blocks[1..]);
      assert [blocks[0]] + blocks[1..] == blocks;
    }
  }

  lemma AfterGoodLoad(t: Tty, data: seq<byte>)
    requires t.OnTape() && |data| <= 0xFFFF && t.position + |data| + 3 <= |t.tape|
    requires t.tape[t.position..t.position + |data| + 3] == Block(data)
    ensures LoadOutcome(t.tape, t.position).data == data
    ensures
      AfterLoad(t) == t.(position := t.position + |data| + 3, motor := false, eot := false, error := false)
  {
    hide LoadOutcome, Block;
    LoadReadsBlock(t.tape, t.position, data);
  }

  /** Any number of SAVEs from the start of a tape leave it starting with the blocks, and
      after a REWIND as many LOADs give back the same data in the same order, without an
      error message. */
  lemma TapeRoundTrip(t: Tty, blocks: seq<seq<byte>>)
    requires t.OnTape() && t.position == 0 && Storable(blocks)
    ensures
      var saved := SaveAll(t, blocks);
      && saved.OnTape()
      && Image(blocks) <= saved.tape
      && LoadMany(AfterRewind(saved), |blocks|).0 == blocks
      && LoadMany(AfterRewind(saved), |blocks|).1.out == t.out
  {
    SavesLayOutBlocks(t, blocks);
    var saved := SaveAll(t, blocks);
    assert saved.tape[0..|Image(blocks)|] == Image(blocks);
    LoadsReadBlocks(AfterRewind(saved), blocks);
  }

  // ---------- error detection ----------

  lemma {:induction false} XorCancels(a: nat, b: nat, c: nat)
    ensures Xor(a, c) == Xor(b, c) ==> a == b
    ensures Xor(c, a) == Xor(c, b) ==> a == b
    decreases a + b + c
  {
    if a != 0 || b != 0 || c != 0 {
      XorCancels(a / 2, b / 2, c / 2);
      XorHalves(a, c);
      XorHalves(b, c);
      XorHalves(c, a);
      XorHalves(c, b);
    }
  }

  /** The recursion of Xor without its shortcuts. */
  lemma XorHalves(a: nat, b: nat)
    ensures Xor(a, b) / 2 == Xor(a / 2, b / 2)
    ensures Xor(a, b) % 2 == if a % 2 != b % 2 then 1 else 0
  {
  }

  /** Changing one byte changes the checksum. */
  lemma {:induction false} ChecksumSeesOneByte(data: seq<byte>, i: nat, v: byte)
    requires i < |data| && v != data[i]
    ensures Checksum(data[i := v]) != Checksum(data)
  {
    var n := |data| - 1;
    var changed := data[i := v];
    if i == n {
      assert changed[..n] == data[..n];
      XorCancels(v, data[n], Checksum(data[..n]));
    } else {
      ChecksumSeesOneByte(data[..n], i, v);
      assert changed[..n] == data[..n][i := v];
      XorCancels(Checksum(changed[..n]), Checksum(data[..n]), data[n]);
    }
  }

  /** A saved block with any one data or checksum byte changed is never accepted. */
  lemma OneBadByteIsReported(tape: seq<byte>, p: nat, data: seq<byte>, i: nat, v: byte)
    requires |data| < 0x1_0000
    requires p + |data| + 3 <= |tape| && tape[p..p + |data| + 3] == Block(data)
    requires 2 <= i < |data| + 3 && v != tape[p + i]
    ensures !LoadOutcome(tape[p + i := v], p).ok
  {
    hide Checksum, Block;
    BlockParts(tape, p, data);
    var bad := tape[p + i := v];
    var stored := tape[p + 2..p + 2 + |data|];
    assert bad[p] == tape[p] && bad[p + 1] == tape[p + 1];
    if i < |data| + 2 {
      ChecksumSeesOneByte(stored, i - 2, v);
      assert bad[p + 2..p + 2 + |data|] == stored[i - 2 := v];
    } else {
      assert bad[p + 2..p + 2 + |data|] == stored;
    }
  }
}
