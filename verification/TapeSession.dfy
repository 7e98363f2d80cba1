/** A tape session at the monitor: any number of ranges saved, the tape rewound, the blocks
    loaded back. The commands run as the firmware's own instructions. */
module TapeSession {
  import opened Words
  import opened FlatMemory
  import opened Isa
  import opened TtyDevice
  import opened TapeBlocks
  import opened MonitorMachine
  import opened SaveLoad

  /** The cells that commands and their operands occupy. */
  const SESSION_CELLS: set<word> := WORKSPACE + {0xF2, 0xF3}

  datatype Range = Range(start: word, end: word) {
    /** SAVE accepts the range and its loop ends. */
    ghost predicate Savable() {
      && start <= end < 0xFFFF
      && forall addr: word :: start <= addr <= end ==> !InTty(addr) && addr !in SESSION_CELLS
    }

    function Length(): nat
      requires start <= end
    {
      end - start + 1
    }
  }

  ghost predicate AllSavable(ranges: seq<Range>) {
    forall i :: 0 <= i < |ranges| ==> ranges[i].Savable()
  }

  /** The bytes of each range. */
  ghost function Contents(mem: Memory, ranges: seq<Range>): (blocks: seq<seq<byte>>)
    requires AllSavable(ranges)
    ensures Storable(blocks) && |blocks| == |ranges|
    ensures forall i :: 0 <= i < |ranges| ==> blocks[i] == Bytes(mem, ranges[i].start, ranges[i].Length())
  {
    seq(|ranges|, i requires 0 <= i < |ranges| => Bytes(mem, ranges[i].start, ranges[i].Length()))
  }

  /** A block of `n` bytes lands at `target` in RAM, clear of the session's cells and stack. */
  ghost predicate Lands(target: word, n: nat, sp: byte) {
    forall i: nat :: i < n ==>
      At(target, i) < 0x8000 && At(target, i) !in SESSION_CELLS && !Scratch(At(target, i), sp, 3)
  }

  ghost predicate Apart(target: word, n: nat, other: word, k: nat) {
    forall i: nat, j: nat :: i < n && j < k ==> At(target, i) != At(other, j)
  }

  /** Every block lands, no two on the same cell. */
  ghost predicate AllLand(targets: seq<word>, blocks: seq<seq<byte>>, sp: byte)
    requires |targets| == |blocks|
  {
    && (forall i :: 0 <= i < |targets| ==> Lands(targets[i], |blocks[i]|, sp))
    && (forall i, j :: 0 <= i < j < |targets| ==> Apart(targets[i], |blocks[i]|, targets[j], |blocks[j]|))
  }

  /** An operand of a command goes into its page-zero cells. */
  method SetPointer(m: Machine, at: byte, w: word)
    requires m.Valid() && at < 0xFF
    modifies m`a, m`z, m`mem
    ensures m.Valid() && Changed(old(m.mem), m.mem, {at, at + 1}) && m.Pointer(at) == w
  {
    hide Memory.Read;
    m.LdaImm(Lo(w));
    m.StaZp(at);
    m.LdaImm(Hi(w));
    m.StaZp(at + 1);
  }

  /** START and END. */
  method SetRange(m: Machine, start: word, end: word)
    requires m.Valid()
    modifies m`a, m`z, m`mem
    ensures m.Valid() && Changed(old(m.mem), m.mem, SESSION_CELLS) && m.Pointer(START) == start && m.Pointer(END) == end
  {
    hide Memory.Read, Word;
    ghost var m1 := m.mem;
    SetPointer(m, START, start);
    ghost var m2 := m.mem;
    SetPointer(m, END, end);
    StillSet(m2, m.mem, {0xF2, 0xF3});
  }

  /** One range is saved. */
  method SaveRange(m: Machine, range: Range, ghost mem0: Memory)
    requires m.Valid() && m.tty.OnTape() && range.Savable() && Changed(mem0, m.mem, SESSION_CELLS)
    modifies m
    ensures m.Valid() && m.sp == old(m.sp) && Changed(mem0, m.mem, SESSION_CELLS)
    ensures m.tty == AfterSave(old(m.tty), Bytes(mem0, range.start, range.Length()))
  {
    hide AfterSave, Bytes, Memory.Read, Changed, Word, SourceClear;
    ghost var m1 := m.mem;
    SetRange(m, range.start, range.end);
    ghost var m2 := m.mem;
    ChangedTwice(mem0, m1, m2, SESSION_CELLS, SESSION_CELLS);
    BytesAgree(mem0, m2, range.start, range.end, SESSION_CELLS);
    ClearForSave(range);
    Save(m);
    ChangedTwice(mem0, m2, m.mem, WORKSPACE, SESSION_CELLS);
  }

  lemma ClearForSave(range: Range)
    requires range.Savable()
    ensures SourceClear(range.start, range.end) && !(range.start <= TAPE_DATA <= range.end)
  {
    assert InTty(TAPE_DATA);
  }

  lemma StillSet(m1: Memory, m2: Memory, cells: set<word>)
    requires Changed(m1, m2, cells) && 0xF0 !in cells && 0xF1 !in cells
    ensures m2.Read(0xF0) == m1.Read(0xF0) && m2.Read(0xF1) == m1.Read(0xF1)
  {
  }

  /** Every range in order. */
  method SaveRanges(m: Machine, ranges: seq<Range>)
    requires m.Valid() && m.tty.OnTape() && AllSavable(ranges)
    modifies m
    ensures m.Valid() && m.sp == old(m.sp) && Changed(old(m.mem), m.mem, SESSION_CELLS)
    ensures m.tty == SaveAll(old(m.tty), Contents(old(m.mem), ranges))
  {
    hide Changed, Bytes, AfterSave;
    ghost var mem0, t0, blocks := m.mem, m.tty, Contents(m.mem, ranges);
    assert blocks[0..] == blocks;
    ChangedNothing(mem0, SESSION_CELLS);
    for i := 0 to |ranges|
      invariant m.Valid() && m.sp == old(m.sp) && m.tty.OnTape() && Changed(mem0, m.mem, SESSION_CELLS)
      invariant SaveAll(m.tty, blocks[i..]) == SaveAll(t0, blocks)
    {
      ghost var t1 := m.tty;
      SaveRange(m, ranges[i], mem0);
      assert blocks[i..][0] == blocks[i] && blocks[i..][1..] == blocks[i + 1..];
      SaveKeepsHead(t1, blocks[i]);
    }
  }

  lemma SaveKeepsHead(t: Tty, data: seq<byte>)
    requires t.OnTape() && |data| < 0x1_0000
    ensures AfterSave(t, data).OnTape()
  {
  }

  /** In each of the first `n` targets lies its block. */
  ghost predicate Loaded(mem: Memory, targets: seq<word>, blocks: seq<seq<byte>>, n: nat)
    requires n <= |targets| == |blocks|
  {
    forall i :: 0 <= i < n ==> Bytes(mem, targets[i], |blocks[i]|) == blocks[i]
  }

  lemma LandsClear(target: word, n: nat, sp: byte)
    requires Lands(target, n, sp)
    ensures TargetClear(WORKSPACE, target, n)
  {
  }

  /** A block that landed stays there when the pointer is set and when a later block lands
      elsewhere. */
  lemma StaysLoaded(
    m0: Memory, m1: Memory, m2: Memory, target: word, data: seq<byte>, other: word, block: seq<byte>, sp: byte)
    requires Changed(m0, m1, SESSION_CELLS) && HoldsStored(WORKSPACE, 3, m1, m2, other, block, sp)
    requires Bytes(m0, target, |data|) == data && Lands(target, |data|, sp) && Apart(target, |data|, other, |block|)
    ensures Bytes(m2, target, |data|) == data
  {
    hide At, Memory.Read, HoldsStored;
    forall i: nat | i < |data|
      ensures Bytes(m2, target, |data|)[i] == data[i]
    {
      var addr := At(target, i);
      UntouchedCell(WORKSPACE, 3, m1, m2, other, block, sp, addr);
      assert m0.Read(addr) == Bytes(m0, target, |data|)[i];
    }
  }

  /** The block under the head is loaded at `target`. */
  method LoadAt(m: Machine, target: word, ghost block: seq<byte>) returns (ghost m1: Memory)
    requires m.Valid() && m.tty.OnTape() && LoadOutcome(m.tty.tape, m.tty.position).data == block
    requires Lands(target, |block|, m.sp) && |block| <= 0xFFFF
    modifies m
    ensures m.Valid() && m.sp == old(m.sp) && m.tty == AfterLoad(old(m.tty))
    ensures Changed(old(m.mem), m1, SESSION_CELLS) && HoldsStored(WORKSPACE, 3, m1, m.mem, target, block, m.sp)
    ensures Bytes(m.mem, target, |block|) == block
  {
    hide LoadOutcome, AfterLoad, HoldsStored, Bytes, At, Memory.Read;
    SetPointer(m, START, target);
    m1 := m.mem;
    LandsClear(target, |block|, m.sp);
    Load(m);
    StoredIsRead(WORKSPACE, 3, m1, m.mem, target, block, m.sp);
  }

  /** Each next block at the next target. */
  method LoadAll(m: Machine, targets: seq<word>, ghost blocks: seq<seq<byte>>)
    requires m.Valid() && m.tty.OnTape() && |targets| == |blocks| && Storable(blocks)
    requires LoadMany(m.tty, |targets|).0 == blocks && AllLand(targets, blocks, m.sp)
    modifies m
    ensures m.Valid() && m.sp == old(m.sp) && m.tty == LoadMany(old(m.tty), |targets|).1
    ensures Loaded(m.mem, targets, blocks, |targets|)
  {
    hide LoadOutcome, AfterLoad, HoldsStored, Bytes, Lands, Apart, Changed;
    ghost var t0 := m.tty;
    assert blocks[0..] == blocks;
    for i := 0 to |targets|
      invariant m.Valid() && m.sp == old(m.sp) && m.tty.OnTape()
      invariant LoadMany(m.tty, |targets| - i) == (blocks[i..], LoadMany(t0, |targets|).1)
      invariant Loaded(m.mem, targets, blocks, i)
    {
      assert blocks[i..][0] == blocks[i] && blocks[i..][1..] == blocks[i + 1..];
      ghost var m0, t1 := m.mem, m.tty;
      LoadKeepsHead(t1);
      LoadsGoOn(t1, |targets| - i);
      ghost var m1 := LoadAt(m, targets[i], blocks[i]);
      forall j | 0 <= j < i
        ensures Bytes(m.mem, targets[j], |blocks[j]|) == blocks[j]
      {
        StaysLoaded(m0, m1, m.mem, targets[j], blocks[j], targets[i], blocks[i], m.sp);
      }
    }
  }

  lemma LoadKeepsHead(t: Tty)
    requires t.OnTape()
    ensures AfterLoad(t).OnTape()
  {
  }

  lemma LoadsGoOn(t: Tty, n: nat)
    requires t.OnTape() && n > 0
    ensures
      var r, rest := LoadMany(t, n), LoadMany(AfterLoad(t), n - 1);
      && |r.0| > 0 && r.0[0] == LoadOutcome(t.tape, t.position).data && r.0[1..] == rest.0 && r.1 == rest.1
  {
  }

  /** SAVE any number of ranges on a tape from its start, REWIND, LOAD as many times: every
      block is back in memory at its target, in order, and no error line was printed. */
  method SaveRewindLoad(m: Machine, ranges: seq<Range>, targets: seq<word>)
    requires m.Valid() && m.tty.present && m.tty.position == 0
    requires AllSavable(ranges) && |targets| == |ranges| && AllLand(targets, Contents(m.mem, ranges), m.sp)
    modifies m
    ensures m.Valid() && m.sp == old(m.sp) && m.tty.out == old(m.tty.out)
    ensures Loaded(m.mem, targets, Contents(old(m.mem), ranges), |targets|)
  {
    hide Bytes, Changed, AllLand, Image;
    ghost var t0, blocks := m.tty, Contents(m.mem, ranges);
    SaveRanges(m, ranges);
    TapeRoundTrip(t0, blocks);
    SaveLoad.Rewind(m);
    LoadAll(m, targets, blocks);
  }
}
