/** The machine the monitor firmware runs on: registers, the two flags its branches test,
    the stack, the memory map of src/system/system.cpp and the terminal/tape device.
    Methods are single instructions; firmware routines are written in terms of them. */
module MonitorMachine {
  import opened Words
  import opened FlatMemory
  import opened Isa
  import opened TtyDevice

  const TTY_BASE: word := 0x8000

  predicate InTty(addr: word) {
    0x8000 <= addr <= 0x80FF
  }

  /** The `d` stack cells that pushes from `sp` on would use. */
  predicate Scratch(addr: word, sp: byte, d: nat) {
    0x100 <= addr <= 0x1FF && (sp - (addr - 0x100)) % 0x100 < d
  }

  function Below(sp: byte, k: nat): byte {
    (sp - k) % 0x100
  }

  lemma ScratchNests(addr: word, sp: byte, k: nat, d: nat)
    requires k + d <= 0x100
    ensures Scratch(addr, Below(sp, k), d) ==> Scratch(addr, sp, k + d)
    ensures 0 < d ==> Scratch(StackCell(Below(sp, k)), sp, k + d)
  {
    if Scratch(addr, Below(sp, k), d) {
      var o := addr - 0x100;
      var e := (Below(sp, k) - o) % 0x100;
      assert (sp - o) % 0x100 == (e + k) % 0x100;
    }
    if 0 < d {
      assert (sp - Below(sp, k)) % 0x100 == k;
    }
  }

  /** The two memories agree except in the `d` stack cells below `sp`. */
  ghost predicate SameBut(m1: Memory, m2: Memory, sp: byte, d: nat) {
    && m1.ram.Keys == m2.ram.Keys && m1.rom == m2.rom
    && forall addr: word :: !Scratch(addr, sp, d) ==> m2.Read(addr) == m1.Read(addr)
  }

  /** A subroutine that uses `d` stack cells, called with JSR: `d + 2` cells in all, and the
      return address is still there at the end. */
  lemma CallFrame(m0: Memory, m1: Memory, m2: Memory, sp: byte, d: nat)
    requires SameBut(m0, m1, sp, 2) && SameBut(m1, m2, Below(sp, 2), d) && d <= 0xFE
    ensures SameBut(m0, m2, sp, d + 2)
    ensures
      var s := Below(sp, 2);
      && m2.Read(StackCell(Inc8(s))) == m1.Read(StackCell(Inc8(s)))
      && m2.Read(StackCell(Inc8(Inc8(s)))) == m1.Read(StackCell(Inc8(Inc8(s))))
  {
    forall addr: word | !Scratch(addr, sp, d + 2)
      ensures m2.Read(addr) == m0.Read(addr)
    {
      ScratchNests(addr, sp, 2, d);
    }
    var s := Below(sp, 2);
    assert !Scratch(StackCell(Inc8(s)), s, d);
    assert !Scratch(StackCell(Inc8(Inc8(s))), s, d);
  }

  /** A byte pushed by PHA and pulled again around code that uses `d` cells below it. */
  lemma PushFrame(m0: Memory, m1: Memory, m2: Memory, sp: byte, d: nat)
    requires SameBut(m0, m1, sp, 1) && SameBut(m1, m2, Dec8(sp), d) && d <= 0xFF
    ensures SameBut(m0, m2, sp, d + 1)
    ensures m2.Read(StackCell(sp)) == m1.Read(StackCell(sp))
  {
    forall addr: word | !Scratch(addr, sp, d + 1)
      ensures m2.Read(addr) == m0.Read(addr)
    {
      ScratchNests(addr, sp, 1, d);
    }
    assert !Scratch(StackCell(sp), Dec8(sp), d);
  }

  /** The two memories agree except in the cells named. */
  ghost predicate Changed(m1: Memory, m2: Memory, cells: set<word>) {
    && m1.ram.Keys == m2.ram.Keys && m1.rom == m2.rom
    && forall addr: word :: addr !in cells ==> m2.Read(addr) == m1.Read(addr)
  }

  lemma ChangedTwice(m0: Memory, m1: Memory, m2: Memory, own: set<word>, cells: set<word>)
    requires Changed(m0, m1, cells) && Changed(m1, m2, own) && own <= cells
    ensures Changed(m0, m2, cells)
  {
  }

  lemma ChangedNothing(m: Memory, cells: set<word>)
    ensures Changed(m, m, cells)
  {
  }

  lemma ChangedCell(m1: Memory, m2: Memory, cells: set<word>, addr: word)
    requires Changed(m1, m2, cells) && addr !in cells
    ensures m2.Read(addr) == m1.Read(addr)
  {
  }

  lemma ChangedBoth(m0: Memory, m1: Memory, m2: Memory, first: set<word>, second: set<word>, cells: set<word>)
    requires Changed(m0, m1, first) && Changed(m1, m2, second) && first <= cells && second <= cells
    ensures Changed(m0, m2, cells)
  {
  }

  /** Both at once. */
  ghost predicate Kept(m1: Memory, m2: Memory, cells: set<word>, sp: byte, d: nat) {
    && m1.ram.Keys == m2.ram.Keys && m1.rom == m2.rom
    && forall addr: word :: addr !in cells && !Scratch(addr, sp, d) ==> m2.Read(addr) == m1.Read(addr)
  }

  lemma KeptAll(m: Memory, cells: set<word>, sp: byte, d: nat)
    ensures Kept(m, m, cells, sp, d)
  {
  }

  lemma KeptTwice(m0: Memory, m1: Memory, m2: Memory, cells: set<word>, sp: byte, d: nat)
    requires Kept(m0, m1, cells, sp, d) && Kept(m1, m2, cells, sp, d)
    ensures Kept(m0, m2, cells, sp, d)
  {
  }

  lemma KeptWider(m1: Memory, m2: Memory, own: set<word>, cells: set<word>, sp: byte, d: nat, e: nat)
    requires Kept(m1, m2, own, sp, d) && own <= cells && d <= e
    ensures Kept(m1, m2, cells, sp, e)
  {
  }

  lemma ChangedIsKept(m1: Memory, m2: Memory, own: set<word>, cells: set<word>, sp: byte, d: nat)
    requires Changed(m1, m2, own) && own <= cells
    ensures Kept(m1, m2, cells, sp, d)
  {
  }

  /** A subroutine that also writes its own page-zero cells, called with JSR. */
  lemma CallKept(m0: Memory, m1: Memory, m2: Memory, cells: set<word>, sp: byte, d: nat)
    requires SameBut(m0, m1, sp, 2) && Kept(m1, m2, cells, Below(sp, 2), d) && d <= 0xFE
    requires forall c: word :: c in cells ==> c < 0x100
    ensures Kept(m0, m2, cells, sp, d + 2)
    ensures
      var s := Below(sp, 2);
      && m2.Read(StackCell(Inc8(s))) == m1.Read(StackCell(Inc8(s)))
      && m2.Read(StackCell(Inc8(Inc8(s)))) == m1.Read(StackCell(Inc8(Inc8(s))))
  {
    forall addr: word | addr !in cells && !Scratch(addr, sp, d + 2)
      ensures m2.Read(addr) == m0.Read(addr)
    {
      ScratchNests(addr, sp, 2, d);
    }
    var s := Below(sp, 2);
    assert !Scratch(StackCell(Inc8(s)), s, d);
    assert !Scratch(StackCell(Inc8(Inc8(s))), s, d);
  }

  // ---------- blocks of memory ----------

  function Min(a: int, b: int): int { if a < b then a else b }

  /** The address `i` past `start`, wrapping at the top of memory. */
  function At(start: word, i: nat): word {
    (start + i) % 0x1_0000
  }

  /** `n` bytes from `start` on, wrapping at the top of memory. */
  function Bytes(mem: Memory, start: word, n: nat): (bs: seq<byte>)
    ensures |bs| == n
  {
    seq<byte>(n, i requires 0 <= i < n => mem.Read(At(start, i)))
  }

  lemma AtNext(target: word, i: nat)
    ensures At(target, i + 1) == Inc16(At(target, i)) && At(target, 0) == target
  {
  }

  lemma AtInverse(addr: word, target: word, n: nat)
    requires n < 0x1_0000
    ensures addr == At(target, n) <==> (addr - target) % 0x1_0000 == n
  {
  }

  /** What memory holds at `addr` once `data` has been stored from `target` on: RAM takes the
      bytes, ROM and unmapped addresses ignore them. */
  function Stored(mem: Memory, target: word, data: seq<byte>, addr: word): byte {
    var j := (addr - target) % 0x1_0000;
    if addr < 0x8000 && j < |data| then data[j] else mem.Read(addr)
  }

  /** Memory after a routine has stored `data` from `target` on: as above everywhere outside
      the routine's own cells and the `d` stack cells its calls use. */
  ghost predicate HoldsStored(
    own: set<word>, d: nat, before: Memory, now: Memory, target: word, data: seq<byte>, sp: byte)
  {
    && before.ram.Keys == now.ram.Keys && before.rom == now.rom
    && forall addr: word ::
         addr !in own && !Scratch(addr, sp, d) ==> now.Read(addr) == Stored(before, target, data, addr)
  }

  /** The `n` cells from `target` on are clear of the device page and of those cells. */
  ghost predicate TargetClear(own: set<word>, target: word, n: nat) {
    forall i: nat :: i < n ==> !InTty(At(target, i)) && At(target, i) !in own
  }

  lemma StoredNothing(own: set<word>, d: nat, mem: Memory, target: word, sp: byte)
    ensures HoldsStored(own, d, mem, mem, target, [], sp)
  {
  }

  /** One more byte: the call in between disturbs only scratch cells, then `v` is stored. */
  lemma StoredExtends(
    own: set<word>, d: nat,
    before: Memory, m1: Memory, m2: Memory, m3: Memory, target: word, data: seq<byte>, v: byte, sp: byte)
    requires |data| < 0xFFFF
    requires HoldsStored(own, d, before, m1, target, data, sp) && Kept(m1, m2, own, sp, d)
    requires m3.ram.Keys == m2.ram.Keys && m3.rom == m2.rom
    requires forall addr: word :: addr !in own && !Scratch(addr, sp, d) ==>
               m3.Read(addr) == if addr == At(target, |data|) && addr < 0x8000 then v else m2.Read(addr)
    ensures HoldsStored(own, d, before, m3, target, data + [v], sp)
  {
    forall addr: word | addr !in own && !Scratch(addr, sp, d)
      ensures m3.Read(addr) == Stored(before, target, data + [v], addr)
    {
      hide At;
      AtInverse(addr, target, |data|);
      assert m2.Read(addr) == m1.Read(addr) == Stored(before, target, data, addr);
    }
  }

  lemma StoredThroughCall(
    own: set<word>, d: nat, before: Memory, m1: Memory, m2: Memory, target: word, data: seq<byte>, sp: byte)
    requires HoldsStored(own, d, before, m1, target, data, sp) && Kept(m1, m2, own, sp, d)
    ensures HoldsStored(own, d, before, m2, target, data, sp)
  {
  }

  lemma StoredAfter(
    own: set<word>, d: nat, m0: Memory, m1: Memory, m2: Memory, target: word, data: seq<byte>, sp: byte)
    requires HoldsStored(own, d, m0, m1, target, [], sp) && HoldsStored(own, d, m1, m2, target, data, sp)
    ensures HoldsStored(own, d, m0, m2, target, data, sp)
  {
  }

  /** The same, for a routine called with JSR. */
  lemma StoredCalled(
    own: set<word>, d: nat, m0: Memory, m1: Memory, m2: Memory, target: word, data: seq<byte>, sp: byte)
    requires SameBut(m0, m1, sp, 2) && HoldsStored(own, d, m1, m2, target, data, Below(sp, 2)) && d <= 0xFE
    ensures HoldsStored(own, d + 2, m0, m2, target, data, sp)
  {
    forall addr: word | addr !in own && !Scratch(addr, sp, d + 2)
      ensures m2.Read(addr) == Stored(m0, target, data, addr)
    {
      ScratchNests(addr, sp, 2, d);
    }
  }

  /** A cell that the routine neither uses nor fills keeps its value. */
  lemma UntouchedCell(
    own: set<word>, d: nat, before: Memory, now: Memory, target: word, data: seq<byte>, sp: byte, addr: word)
    requires HoldsStored(own, d, before, now, target, data, sp)
    requires addr !in own && !Scratch(addr, sp, d)
    requires forall i: nat :: i < |data| ==> At(target, i) != addr
    ensures now.Read(addr) == before.Read(addr)
  {
    var j := (addr - target) % 0x1_0000;
    AtInverse(addr, target, j);
  }

  /** The two cells that the JSR from `sp` pushed to keep their values if nothing lands there. */
  lemma ReturnSurvives(
    own: set<word>, d: nat, before: Memory, now: Memory, target: word, data: seq<byte>, sp: byte)
    requires HoldsStored(own, d, before, now, target, data, Below(sp, 2)) && d <= 0xFE
    requires forall c: word :: c in own ==> c < 0x100
    requires forall i: nat :: i < |data| ==> At(target, i) != StackCell(sp) && At(target, i) != StackCell(Dec8(sp))
    ensures
      var s := Below(sp, 2);
      && now.Read(StackCell(Inc8(s))) == before.Read(StackCell(Inc8(s)))
      && now.Read(StackCell(Inc8(Inc8(s)))) == before.Read(StackCell(Inc8(Inc8(s))))
  {
    hide HoldsStored, At;
    var s := Below(sp, 2);
    assert Inc8(s) == Dec8(sp) && Inc8(Inc8(s)) == sp;
    UntouchedCell(own, d, before, now, target, data, s, StackCell(Inc8(s)));
    UntouchedCell(own, d, before, now, target, data, s, StackCell(sp));
  }

  /** In RAM, outside the routine's own cells, the block stored is the block found. */
  lemma StoredIsRead(own: set<word>, d: nat, before: Memory, now: Memory, target: word, data: seq<byte>, sp: byte)
    requires HoldsStored(own, d, before, now, target, data, sp) && |data| <= 0xFFFF
    requires forall i: nat :: i < |data| ==>
               At(target, i) < 0x8000 && At(target, i) !in own && !Scratch(At(target, i), sp, d)
    ensures Bytes(now, target, |data|) == data
  {
    forall i | 0 <= i < |data|
      ensures Bytes(now, target, |data|)[i] == data[i]
    {
      AtInverse(At(target, i), target, i);
    }
  }

  class Machine {
    var a: byte
    var x: byte
    var y: byte
    var c: bool
    var z: bool
    var sp: byte
    var mem: Memory
    var tty: Tty
    var input: seq<byte>  // typed and not yet polled

    /** RAM at $0000-$7FFF, ROM from $C000 on, and the tape head on the tape. */
    ghost predicate Valid()
      reads this
    {
      && (forall addr: word :: addr in mem.ram <==> addr < 0x8000)
      && (forall addr: word :: addr in mem.rom ==> addr >= 0xC000)
      && tty.position <= |tty.tape|
    }

    /** A 16-bit pointer or counter in page zero. */
    function Pointer(at: byte): word
      requires at < 0xFF
      reads `mem
    {
      Word(mem.Read(at), mem.Read(at + 1))
    }

    // ---------- loads and stores ----------

    method LdaImm(v: byte)
      modifies `a, `z
      ensures a == v && z == (v == 0)
    {
      a := v;
      z := v == 0;
    }

    method LdaZp(at: byte)
      modifies `a, `z
      ensures a == mem.Read(at) && z == (a == 0)
    {
      a := mem.Read(at);
      z := a == 0;
    }

    method LdxImm(v: byte)
      modifies `x, `z
      ensures x == v && z == (v == 0)
    {
      x := v;
      z := v == 0;
    }

    method LdxZp(at: byte)
      modifies `x, `z
      ensures x == mem.Read(at) && z == (x == 0)
    {
      x := mem.Read(at);
      z := x == 0;
    }

    method LdyImm(v: byte)
      modifies `y, `z
      ensures y == v && z == (v == 0)
    {
      y := v;
      z := v == 0;
    }

    /** LDA of an absolute or indirect address: the device page has side effects. */
    method Lda(addr: word)
      requires Valid()
      modifies `a, `z, `tty
      ensures Valid() && z == (a == 0)
      ensures
        if InTty(addr) then a == old(tty).Read(addr - TTY_BASE) && tty == old(tty).AfterRead(addr - TTY_BASE)
        else a == mem.Read(addr) && tty == old(tty)
    {
      if InTty(addr) {
        a := tty.Read(addr - TTY_BASE);
        tty := tty.AfterRead(addr - TTY_BASE);
      } else {
        a := mem.Read(addr);
      }
      z := a == 0;
    }

    method StaZp(at: byte)
      requires Valid()
      modifies `mem
      ensures Valid() && Changed(old(mem), mem, {at}) && mem.Read(at) == a
    {
      mem := mem.Write(at, a);
    }

    method Sta(addr: word)
      requires Valid()
      modifies `mem, `tty
      ensures Valid()
      ensures
        if InTty(addr) then mem == old(mem) && tty == old(tty).AfterWrite(addr - TTY_BASE, a)
        else
          && tty == old(tty) && Changed(old(mem), mem, {addr})
          && mem.Read(addr) == if addr < 0x8000 then a else old(mem).Read(addr)
    {
      if InTty(addr) {
        tty := tty.AfterWrite(addr - TTY_BASE, a);
      } else {
        mem := mem.Write(addr, a);
      }
    }

    method Stx(at: byte)
      requires Valid()
      modifies `mem
      ensures Valid() && Changed(old(mem), mem, {at}) && mem.Read(at) == x
    {
      mem := mem.Write(at, x);
    }

    /** The terminal is polled: its next byte goes to the receive register if that is free. */
    method Poll()
      requires Valid()
      modifies `tty, `input
      ensures Valid()
      ensures
        if old(tty.rxReady) || old(input) == [] then tty == old(tty) && input == old(input)
        else tty == old(tty).AfterReceive(old(input)[0]) && input == old(input)[1..]
    {
      if !tty.rxReady && input != [] {
        tty := tty.AfterReceive(input[0]);
        input := input[1..];
      }
    }

    // ---------- arithmetic and logic ----------

    method Cmp(v: byte)
      modifies `c, `z
      ensures c == (a >= v) && z == (a == v)
    {
      c := a >= v;
      z := a == v;
    }

    method Cpx(v: byte)
      modifies `c, `z
      ensures c == (x >= v) && z == (x == v)
    {
      c := x >= v;
      z := x == v;
    }

    method AndImm(v: byte)
      modifies `a, `z
      ensures a == And8(old(a), v) && z == (a == 0)
    {
      a := And8(a, v);
      z := a == 0;
    }

    method OraZp(at: byte)
      modifies `a, `z
      ensures a == Or8(old(a), mem.Read(at)) && z == (a == 0)
    {
      a := Or8(a, mem.Read(at));
      z := a == 0;
    }

    method EorZp(at: byte)
      modifies `a, `z
      ensures a == Xor8(old(a), mem.Read(at)) && z == (a == 0)
    {
      a := Xor8(a, mem.Read(at));
      z := a == 0;
    }

    method Adc(v: byte)
      modifies `a, `c, `z
      ensures a + 0x100 * Bit(c) == old(a) + v + Bit(old(c)) && z == (a == 0)
    {
      var sum := a + v + Bit(c);
      a := sum % 0x100;
      c := sum > 0xFF;
      z := a == 0;
    }

    method Sbc(v: byte)
      modifies `a, `c, `z
      ensures a == old(a) - v - Bit(!old(c)) + 0x100 * Bit(!c) && z == (a == 0)
    {
      var diff := a - v - Bit(!c);
      a := diff % 0x100;
      c := diff >= 0;
      z := a == 0;
    }

    method Inx()
      modifies `x, `z
      ensures x == Inc8(old(x)) && z == (x == 0)
    {
      x := Inc8(x);
      z := x == 0;
    }

    method Dex()
      modifies `x, `z
      ensures x == Dec8(old(x)) && z == (x == 0)
    {
      x := Dec8(x);
      z := x == 0;
    }

    method Sec()
      modifies `c
      ensures c
    {
      c := true;
    }

    method Clc()
      modifies `c
      ensures !c
    {
      c := false;
    }

    method LsrA()
      modifies `a, `c, `z
      ensures a == old(a) / 2 && c == (old(a) % 2 == 1) && z == (a == 0)
    {
      c := a % 2 == 1;
      a := a / 2;
      z := a == 0;
    }

    method AslZp(at: byte)
      requires Valid()
      modifies `mem, `c, `z
      ensures
        var v := old(mem).Read(at);
        && Valid() && Changed(old(mem), mem, {at}) && mem.Read(at) == 2 * v % 0x100
        && c == (v >= 0x80) && z == (mem.Read(at) == 0)
    {
      var v: int := mem.Read(at);
      var r := 2 * v % 0x100;
      mem := mem.Write(at, r);
      c := v >= 0x80;
      z := r == 0;
    }

    method RolZp(at: byte)
      requires Valid()
      modifies `mem, `c, `z
      ensures
        var v := old(mem).Read(at);
        && Valid() && Changed(old(mem), mem, {at}) && mem.Read(at) == (2 * v + Bit(old(c))) % 0x100
        && c == (v >= 0x80) && z == (mem.Read(at) == 0)
    {
      var v := mem.Read(at);
      var r := (2 * v + Bit(c)) % 0x100;
      mem := mem.Write(at, r);
      c := v >= 0x80;
      z := r == 0;
    }

    method IncZp(at: byte)
      requires Valid()
      modifies `mem, `z
      ensures Valid() && Changed(old(mem), mem, {at})
      ensures mem.Read(at) == Inc8(old(mem).Read(at)) && z == (mem.Read(at) == 0)
    {
      var v := Inc8(mem.Read(at));
      mem := mem.Write(at, v);
      z := v == 0;
    }

    method DecZp(at: byte)
      requires Valid()
      modifies `mem, `z
      ensures Valid() && Changed(old(mem), mem, {at})
      ensures mem.Read(at) == Dec8(old(mem).Read(at)) && z == (mem.Read(at) == 0)
    {
      var v := Dec8(mem.Read(at));
      mem := mem.Write(at, v);
      z := v == 0;
    }

    // ---------- stack ----------

    method Pha()
      requires Valid()
      modifies `mem, `sp
      ensures Valid() && sp == Dec8(old(sp))
      ensures SameBut(old(mem), mem, old(sp), 1) && mem.Read(StackCell(old(sp))) == a
    {
      mem := mem.Write(StackCell(sp), a);
      sp := Dec8(sp);
    }

    method Pla()
      modifies `a, `z, `sp
      ensures sp == Inc8(old(sp)) && a == mem.Read(StackCell(sp)) && z == (a == 0)
    {
      sp := Inc8(sp);
      a := mem.Read(StackCell(sp));
      z := a == 0;
    }

    /** JSR whose last byte is at `last`: that address is what it pushes. */
    method Jsr(last: word)
      requires Valid()
      modifies `mem, `sp
      ensures Valid() && sp == Below(old(sp), 2)
      ensures SameBut(old(mem), mem, old(sp), 2)
      ensures mem.Read(StackCell(Inc8(sp))) == Lo(last) && mem.Read(StackCell(Inc8(Inc8(sp)))) == Hi(last)
    {
      mem := mem.Write(StackCell(sp), Hi(last));
      sp := Dec8(sp);
      mem := mem.Write(StackCell(sp), Lo(last));
      sp := Dec8(sp);
    }

    /** RTS that must return to the JSR whose last byte is at `last`. */
    method Rts(last: word)
      requires mem.Read(StackCell(Inc8(sp))) == Lo(last) && mem.Read(StackCell(Inc8(Inc8(sp)))) == Hi(last)
      modifies `sp
      ensures old(sp) == Below(sp, 2)
    {
      sp := Inc8(Inc8(sp));
    }

    // ---------- PUTCHAR ----------

    /** PUTCHAR ($C100) called by the JSR at `last`: A goes to the terminal. */
    method PutChar(last: word)
      requires Valid()
      modifies `mem, `tty, `sp
      ensures Valid() && sp == old(sp) && SameBut(old(mem), mem, sp, 2)
      ensures tty == old(tty).(out := old(tty.out) + [a])
    {
      Jsr(last);
      Sta(0x8001);
      Rts(last);
    }

    /** The error tail of every routine: '?', CR, LF, the first JSR's last byte at `at`. */
    method PrintError(at: word)
      requires Valid() && at < 0x1_0000 - 10
      modifies `a, `z, `mem, `tty, `sp
      ensures Valid() && sp == old(sp) && SameBut(old(mem), mem, sp, 2)
      ensures tty == old(tty).(out := old(tty.out) + [0x3F, 0x0D, 0x0A])
    {
      LdaImm(0x3F);
      PutChar(at);
      LdaImm(0x0D);
      PutChar(at + 5);
      LdaImm(0x0A);
      PutChar(at + 10);
    }
  }
}
