/** The device bus, src/memory/bus.cpp, over RAM and ROM devices. */
module DeviceBus {
  import opened Words
  import opened FlatMemory

  datatype Kind = Ram | Rom

  /** A mapped range and the contents of the device behind it, as a value. */
  datatype Segment = Segment(start: word, end: word, kind: Kind, data: seq<byte>) {
    predicate Covers(addr: word) {
      start <= addr <= end
    }

    predicate Overlaps(m: Segment) {
      start <= m.end && end >= m.start
    }

    predicate Sized() {
      start <= end && end - start + 1 == |data|
    }

    function Written(addr: word, val: byte): Segment
      requires Sized() && Covers(addr)
    {
      if kind == Ram then this.(data := data[addr - start := val]) else this
    }
  }

  // ---------- routing ----------

  datatype Owner = Unmapped | Owned(segment: Segment)

  /** The first segment that covers an address. */
  function OwnerOf(segs: seq<Segment>, addr: word): Owner {
    if segs == [] then Unmapped
    else if segs[0].Covers(addr) then Owned(segs[0])
    else OwnerOf(segs[1..], addr)
  }

  predicate Disjoint(segs: seq<Segment>) {
    forall i, j :: 0 <= i < j < |segs| ==> !segs[i].Overlaps(segs[j])
  }

  predicate AllSized(segs: seq<Segment>) {
    forall i :: 0 <= i < |segs| ==> segs[i].Sized()
  }

  lemma {:induction false} OwnerMeaning(segs: seq<Segment>, addr: word)
    ensures OwnerOf(segs, addr).Unmapped? <==> forall i :: 0 <= i < |segs| ==> !segs[i].Covers(addr)
    ensures OwnerOf(segs, addr).Owned? ==>
              exists i :: 0 <= i < |segs| && segs[i] == OwnerOf(segs, addr).segment && segs[i].Covers(addr)
  {
    if segs != [] {
      OwnerMeaning(segs[1..], addr);
      assert forall i :: 0 < i < |segs| ==> segs[i] == segs[1..][i - 1];
      assert segs[0].Covers(addr)
        || forall i :: 0 <= i < |segs| && segs[i].Covers(addr) ==> segs[1..][i - 1].Covers(addr);
    }
  }

  /** With disjoint ranges, the segment that covers an address is the one found, ... */
  lemma RoutingIsUnique(segs: seq<Segment>, addr: word, k: nat)
    requires Disjoint(segs) && k < |segs| && segs[k].Covers(addr)
    ensures OwnerOf(segs, addr) == Owned(segs[k])
  {
    OwnerMeaning(segs, addr);
    var i :| 0 <= i < |segs| && segs[i] == OwnerOf(segs, addr).segment && segs[i].Covers(addr);
    assert segs[i].Overlaps(segs[k]) && segs[k].Overlaps(segs[i]);
  }

  /** ... so routing depends on which ranges are mapped, not on the order of attachment. */
  lemma RoutingIgnoresOrder(segs: seq<Segment>, others: seq<Segment>, addr: word)
    requires Disjoint(segs) && Disjoint(others)
    requires forall m :: m in segs <==> m in others
    ensures OwnerOf(segs, addr) == OwnerOf(others, addr)
  {
    OwnerMeaning(segs, addr);
    OwnerMeaning(others, addr);
    if OwnerOf(segs, addr).Owned? {
      assert OwnerOf(segs, addr).segment in segs;
      var k :| 0 <= k < |others| && others[k] == OwnerOf(segs, addr).segment;
      RoutingIsUnique(others, addr, k);
    } else {
      forall k | 0 <= k < |others|
        ensures !others[k].Covers(addr)
      {
        assert others[k] in segs;
      }
    }
  }

  // ---------- the flat memory ----------

  predicate Holds(segs: seq<Segment>, kind: Kind, addr: word) {
    OwnerOf(segs, addr).Owned? && OwnerOf(segs, addr).segment.kind == kind
  }

  function CellAt(segs: seq<Segment>, addr: word): byte
    requires AllSized(segs) && OwnerOf(segs, addr).Owned?
  {
    OwnerMeaning(segs, addr);
    var m := OwnerOf(segs, addr).segment;
    m.data[addr - m.start]
  }

  /** The flat memory a set of mapped ranges amounts to. */
  ghost function Flat(segs: seq<Segment>): Memory
    requires AllSized(segs)
  {
    Memory(map addr: word | Holds(segs, Ram, addr) :: CellAt(segs, addr),
           map addr: word | Holds(segs, Rom, addr) :: CellAt(segs, addr))
  }

  lemma OwnerAfterWrite(segs: seq<Segment>, k: nat, addr: word, val: byte, x: word)
    requires AllSized(segs) && Disjoint(segs) && k < |segs| && segs[k].Covers(addr)
    ensures
      var now := segs[k := segs[k].Written(addr, val)];
      && AllSized(now) && Disjoint(now)
      && OwnerOf(now, x) ==
           (if segs[k].Covers(x) then Owned(segs[k].Written(addr, val)) else OwnerOf(segs, x))
  {
    var now := segs[k := segs[k].Written(addr, val)];
    assert forall i :: 0 <= i < |segs| ==> now[i].start == segs[i].start && now[i].end == segs[i].end;
    assert Disjoint(now) by {
      forall i, j | 0 <= i < j < |now|
        ensures !now[i].Overlaps(now[j])
      {
        assert !segs[i].Overlaps(segs[j]);
      }
    }
    if segs[k].Covers(x) {
      RoutingIsUnique(now, x, k);
    } else {
      OwnerMeaning(segs, x);
      OwnerMeaning(now, x);
      if OwnerOf(segs, x).Owned? {
        var i :| 0 <= i < |segs| && segs[i] == OwnerOf(segs, x).segment && segs[i].Covers(x);
        RoutingIsUnique(now, x, i);
      } else {
        assert forall i :: 0 <= i < |now| ==> !now[i].Covers(x) by {
          assert forall i :: 0 <= i < |now| ==> !segs[i].Covers(x);
        }
      }
    }
  }

  /** Writing through the segment that owns an address is a write to the flat memory. */
  lemma WriteRefinesFlat(segs: seq<Segment>, k: nat, addr: word, val: byte)
    requires AllSized(segs) && Disjoint(segs) && k < |segs| && segs[k].Covers(addr)
    ensures AllSized(segs[k := segs[k].Written(addr, val)])
    ensures Flat(segs[k := segs[k].Written(addr, val)]) == Flat(segs).Write(addr, val)
  {
    var now := segs[k := segs[k].Written(addr, val)];
    RoutingIsUnique(segs, addr, k);
    forall x: word
      ensures Holds(now, Ram, x) == Holds(segs, Ram, x) && Holds(now, Rom, x) == Holds(segs, Rom, x)
      ensures AllSized(now)
      ensures OwnerOf(now, x).Owned? ==>
                (CellAt(now, x) == if x == addr && segs[k].kind == Ram then val else CellAt(segs, x))
    {
      OwnerAfterWrite(segs, k, addr, val, x);
      if segs[k].Covers(x) {
        RoutingIsUnique(segs, x, k);
      }
    }
    OwnerAfterWrite(segs, k, addr, val, addr);
    assert Flat(now).ram == Flat(segs).Write(addr, val).ram;
    assert Flat(now).rom == Flat(segs).rom;
  }

  lemma UnmappedIsUnmapped(segs: seq<Segment>, addr: word)
    requires AllSized(segs) && OwnerOf(segs, addr).Unmapped?
    ensures Flat(segs).Read(addr) == 0xFF
    ensures forall val: byte :: Flat(segs).Write(addr, val) == Flat(segs)
  {
  }

  lemma OnlyCover(segs: seq<Segment>, k: nat, addr: word)
    requires AllSized(segs) && Disjoint(segs) && k < |segs| && segs[k].Covers(addr)
    ensures segs[k].Sized()
    ensures forall i :: 0 <= i < |segs| && segs[i].Covers(addr) ==> i == k
  {
    forall i | 0 <= i < |segs| && segs[i].Covers(addr)
      ensures i == k
    {
      assert segs[i].Overlaps(segs[k]) && segs[k].Overlaps(segs[i]);
    }
  }

  lemma SameRanges(before: seq<Segment>, now: seq<Segment>)
    requires AllSized(before) && Disjoint(before) && |now| == |before|
    requires forall i :: 0 <= i < |before| ==>
               now[i].start == before[i].start && now[i].end == before[i].end && |now[i].data| == |before[i].data|
    ensures AllSized(now) && Disjoint(now)
  {
    forall i | 0 <= i < |now| ensures now[i].Sized() { assert before[i].Sized(); }
    forall i, j | 0 <= i < j < |now| ensures !now[i].Overlaps(now[j]) { assert !before[i].Overlaps(before[j]); }
  }

  /** A write that changes at most the segment it goes through. */
  lemma LocalWrite(before: seq<Segment>, now: seq<Segment>, k: nat, addr: word, val: byte)
    requires AllSized(before) && Disjoint(before) && |now| == |before| && k < |before| && before[k].Covers(addr)
    requires now[k] == before[k].Written(addr, val)
    requires forall i :: 0 <= i < |before| && i != k ==> now[i] == before[i]
    ensures AllSized(now) && Flat(now) == Flat(before).Write(addr, val)
  {
    hide Flat;
    assert now == before[k := before[k].Written(addr, val)];
    WriteRefinesFlat(before, k, addr, val);
  }

  /** A write that shows at a second range is no write to the flat memory. */
  lemma MirrorDiffers(before: seq<Segment>, now: seq<Segment>, k: nat, j: nat, addr: word, val: byte)
    requires AllSized(before) && Disjoint(before) && AllSized(now) && Disjoint(now)
    requires |now| == |before| && k < |before| && j < |before| && j != k && before[k].Covers(addr)
    requires before[k].Written(addr, val) != before[k] && before[j].data == before[k].data && before[j].kind == Ram
    requires now[j] == before[j].(data := before[j].data[addr - before[k].start := val])
    ensures Flat(now) != Flat(before).Write(addr, val)
  {
    assert before[j].Sized() && before[k].Sized() && now[j].Sized();
    var y := before[j].start + (addr - before[k].start);
    RoutingIsUnique(before, y, j);
    RoutingIsUnique(now, y, j);
    OnlyCover(before, k, addr);
    assert y != addr;
    assert Holds(before, Ram, y) && Holds(now, Ram, y);
    assert Flat(now).Read(y) == val;
    assert Flat(before).Write(addr, val).Read(y) == before[j].data[addr - before[k].start] != val;
  }

  // ---------- the bus ----------

  /** A RAM or ROM device; a ROM ignores writes. */
  class Device {
    const kind: Kind
    var data: seq<byte>

    constructor (kind: Kind, data: seq<byte>)
      ensures this.kind == kind && this.data == data
    {
      this.kind := kind;
      this.data := data;
    }

    method Write(offset: nat, val: byte)
      requires offset < |data|
      modifies this
      ensures data == if kind == Ram then old(data)[offset := val] else old(data)
    {
      if kind == Ram {
        data := data[offset := val];
      }
    }
  }

  datatype Mapping = Mapping(start: word, end: word, device: Device)

  datatype AttachResult = Attached | EndBeforeStart | SizeMismatch | Overlapping

  class Bus {
    var mappings: seq<Mapping>
    ghost var devices: set<Device>

    ghost predicate Known()
      reads this
    {
      forall i :: 0 <= i < |mappings| ==> mappings[i].device in devices
    }

    /** The mapped ranges with the current contents of their devices. */
    ghost function Layout(): (segs: seq<Segment>)
      requires Known()
      reads this, devices
      ensures |segs| == |mappings|
    {
      seq(|mappings|, i requires 0 <= i < |mappings| && Known() reads this, devices =>
        Segment(mappings[i].start, mappings[i].end, mappings[i].device.kind, mappings[i].device.data))
    }

    /** Accepted ranges are sized to their devices and pairwise disjoint. */
    ghost predicate Valid()
      reads this, devices
    {
      Known() && AllSized(Layout()) && Disjoint(Layout())
    }

    /** No device object is mapped at two ranges (Attach does not check this). */
    ghost predicate DistinctDevices()
      reads this
    {
      forall i, j :: 0 <= i < j < |mappings| ==> mappings[i].device != mappings[j].device
    }

    /** A write at `addr` that changes a RAM finds that RAM at no other range. */
    ghost predicate WriteIsLocal(addr: word, val: byte)
      requires Valid()
      reads this, devices
    {
      forall i :: 0 <= i < |mappings| && Layout()[i].Covers(addr) && Layout()[i].Written(addr, val) != Layout()[i] ==>
        forall j :: 0 <= j < |mappings| && j != i ==> mappings[j].device != mappings[i].device
    }

    constructor ()
      ensures Valid() && mappings == []
    {
      mappings, devices := [], {};
    }

    /** Rejects a reversed range, a range of the wrong size and a range that overlaps an
        earlier one; otherwise maps the device. */
    method Attach(start: word, end: word, device: Device) returns (r: AttachResult)
      requires Valid()
      modifies this
      ensures Valid()
      ensures r == EndBeforeStart <==> end < start
      ensures r == SizeMismatch <==> start <= end && end - start + 1 != |device.data|
      ensures r == Overlapping <==>
        && start <= end && end - start + 1 == |device.data|
        && exists i :: 0 <= i < |old(mappings)| && start <= old(mappings)[i].end && end >= old(mappings)[i].start
      ensures mappings == if r == Attached then old(mappings) + [Mapping(start, end, device)] else old(mappings)
    {
      if end < start {
        return EndBeforeStart;
      }
      if end - start + 1 != |device.data| {
        return SizeMismatch;
      }
      for i := 0 to |mappings|
        invariant forall k :: 0 <= k < i ==> !(start <= mappings[k].end && end >= mappings[k].start)
      {
        if start <= mappings[i].end && end >= mappings[i].start {
          return Overlapping;
        }
      }
      ghost var before := Layout();
      mappings, devices := mappings + [Mapping(start, end, device)], devices + {device};
      assert Layout() == before + [Segment(start, end, device.kind, device.data)];
      return Attached;
    }

    /** Index of the first mapping that covers the address, or the number of mappings. */
    method FindMapping(addr: word) returns (k: nat)
      requires Valid()
      ensures k <= |mappings|
      ensures
        if k == |mappings| then OwnerOf(Layout(), addr).Unmapped?
        else Layout()[k].Covers(addr) && OwnerOf(Layout(), addr) == Owned(Layout()[k])
    {
      OwnerMeaning(Layout(), addr);
      for i := 0 to |mappings|
        invariant forall j :: 0 <= j < i ==> !Layout()[j].Covers(addr)
      {
        if addr >= mappings[i].start && addr <= mappings[i].end {
          assert Layout()[i].Covers(addr);
          RoutingIsUnique(Layout(), addr, i);
          return i;
        }
      }
      return |mappings|;
    }

    /** The device is mapped at a range with this address. */
    ghost predicate ServesAt(d: Device, addr: word)
      reads this
    {
      exists i :: 0 <= i < |mappings| && mappings[i].device == d && mappings[i].start <= addr <= mappings[i].end
    }

    /** Only the mapping found covers the address, and its device is large enough. */
    lemma Covering(addr: word, k: nat)
      requires Valid() && k <= |mappings|
      requires
        if k == |mappings| then OwnerOf(Layout(), addr).Unmapped?
        else Layout()[k].Covers(addr) && OwnerOf(Layout(), addr) == Owned(Layout()[k])
      ensures
        forall i :: 0 <= i < |mappings| && mappings[i].start <= addr <= mappings[i].end ==>
          i == k && addr - mappings[i].start < |mappings[i].device.data|
    {
      var segs := Layout();
      OwnerMeaning(segs, addr);
      if k < |mappings| {
        OnlyCover(segs, k, addr);
      }
      forall i | 0 <= i < |mappings| && mappings[i].start <= addr <= mappings[i].end
        ensures i == k && addr - mappings[i].start < |mappings[i].device.data|
      {
        assert segs[i].Covers(addr) && segs[i].Sized();
      }
    }

    /** The device mapped at an address delivers the byte that lies as far into it as the
        address into its range; nothing mapped reads as $FF. That is a read of the flat memory. */
    method Read(addr: word) returns (v: byte)
      requires Valid()
      ensures
        forall i :: 0 <= i < |mappings| && mappings[i].start <= addr <= mappings[i].end ==>
          var m := mappings[i];
          addr - m.start < |m.device.data| && v == m.device.data[addr - m.start]
      ensures (forall i :: 0 <= i < |mappings| ==> !(mappings[i].start <= addr <= mappings[i].end)) ==> v == 0xFF
      ensures v == Flat(Layout()).Read(addr)
    {
      var k := FindMapping(addr);
      Covering(addr, k);
      if k == |mappings| {
        UnmappedIsUnmapped(Layout(), addr);
        return 0xFF;
      }
      assert Layout()[k].Sized();
      assert Holds(Layout(), Layout()[k].kind, addr);
      return mappings[k].device.data[addr - mappings[k].start];
    }

    /** The write handed to the device of the mapping found. */
    method Deliver(k: nat, addr: word, val: byte)
      requires Valid() && k < |mappings| && Layout()[k].Covers(addr) && OwnerOf(Layout(), addr) == Owned(Layout()[k])
      modifies mappings[k].device
      ensures addr - mappings[k].start < old(|mappings[k].device.data|)
      ensures
        mappings[k].device.data ==
          if mappings[k].device.kind == Ram then old(mappings[k].device.data)[addr - mappings[k].start := val]
          else old(mappings[k].device.data)
      ensures
        forall i :: 0 <= i < |mappings| && mappings[i].start <= addr <= mappings[i].end ==>
          var m := mappings[i];
          && addr - m.start < old(|m.device.data|)
          && m.device.data ==
               if m.device.kind == Ram then old(m.device.data)[addr - m.start := val] else old(m.device.data)
      ensures forall d :: d in devices && !ServesAt(d, addr) ==> d.data == old(d.data)
    {
      hide AllSized, Disjoint, OwnerOf, Segment.Overlaps, Segment.Sized;
      Covering(addr, k);
      assert mappings[k].start <= addr <= mappings[k].end;
      mappings[k].device.Write(addr - mappings[k].start, val);
    }

    /** A write changes the byte of the RAM mapped there and nothing else. It is a write of the
        flat memory exactly when it is local. */
    method Write(addr: word, val: byte)
      requires Valid()
      modifies devices
      ensures mappings == old(mappings) && devices == old(devices) && Valid()
      ensures
        forall i :: 0 <= i < |mappings| && mappings[i].start <= addr <= mappings[i].end ==>
          var m := mappings[i];
          && addr - m.start < old(|m.device.data|)
          && m.device.data ==
               if m.device.kind == Ram then old(m.device.data)[addr - m.start := val] else old(m.device.data)
      ensures forall d :: d in devices && !ServesAt(d, addr) ==> d.data == old(d.data)
      ensures Flat(Layout()) == old(Flat(Layout())).Write(addr, val) <==> old(WriteIsLocal(addr, val))
      ensures old(DistinctDevices()) ==> Flat(Layout()) == old(Flat(Layout())).Write(addr, val)
    {
      hide Flat, Disjoint, OwnerOf, Segment.Overlaps, Segment.Sized, Bus.ServesAt;
      var k := FindMapping(addr);
      ghost var before := Layout();
      if k == |mappings| {
        UnmappedIsUnmapped(Layout(), addr);
        OwnerMeaning(Layout(), addr);
        Covering(addr, k);
        return;
      }
      OnlyCover(before, k, addr);
      ghost var device := mappings[k].device;
      ghost var local := WriteIsLocal(addr, val);
      Deliver(k, addr, val);
      ghost var now := Layout();
      SameRanges(before, now);
      if local {
        LocalWrite(before, now, k, addr, val);
      } else {
        ghost var j :| 0 <= j < |mappings| && j != k && mappings[j].device == device;
        MirrorDiffers(before, now, k, j, addr, val);
      }
    }
  }

  /** A write that is not local: one RAM mapped at $0000 and at $1000 shows a write to
      the one at the other. */
  lemma MirroredRamIsNotFlat(was: byte, val: byte)
    requires was != val
    ensures
      var before := [Segment(0x0000, 0x0000, Ram, [was]), Segment(0x1000, 0x1000, Ram, [was])];
      var after := [Segment(0x0000, 0x0000, Ram, [val]), Segment(0x1000, 0x1000, Ram, [val])];
      && AllSized(before) && AllSized(after) && Disjoint(before)
      && Flat(after) != Flat(before).Write(0x0000, val)
  {
    var before := [Segment(0x0000, 0x0000, Ram, [was]), Segment(0x1000, 0x1000, Ram, [was])];
    var after := [Segment(0x0000, 0x0000, Ram, [val]), Segment(0x1000, 0x1000, Ram, [val])];
    RoutingIsUnique(before, 0x1000, 1);
    RoutingIsUnique(after, 0x1000, 1);
    assert Flat(after).Read(0x1000) == val;
    assert Flat(before).Write(0x0000, val).Read(0x1000) == was;
  }
}
