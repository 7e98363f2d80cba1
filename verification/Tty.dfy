/** The terminal and tape device, src/peripherals/tty.cpp: a single-byte receive register
    and a tape with one head. The datatype is the device's state as a value and gives the
    meaning of each register access; the class updates it in place. */
module TtyDevice {
  import opened Words

  /** A byte put at the head: in place of the one there, or appended at the end. */
  function Overwrite(tape: seq<byte>, position: nat, val: byte): seq<byte> {
    if position < |tape| then tape[position := val] else tape + [val]
  }

  datatype Tty = Tty(
    rxByte: byte,
    rxReady: bool,
    out: seq<byte>,
    present: bool,
    tape: seq<byte>,
    position: nat,
    motor: bool,
    eot: bool,
    error: bool)
  {
    /** A tape whose head is on it. */
    predicate OnTape() {
      present && position <= |tape|
    }

    function TapeStatus(): byte {
      Bit(present) + 2 * Bit(motor) + 4 * Bit(eot) + 8 * Bit(error)
    }

    /** Byte a register read returns. */
    function Read(offset: byte): byte {
      if offset == 0 then 2 + Bit(rxReady)
      else if offset == 1 then rxByte
      else if offset == 2 then TapeStatus()
      else if offset == 4 && present && motor && position < |tape| then tape[position]
      else 0
    }

    function AfterRead(offset: byte): Tty {
      if offset == 1 then this.(rxReady := false)
      else if offset != 4 then this
      else if !present || !motor then this.(error := true)
      else if position >= |tape| then this.(eot := true, error := true)
      else this.(eot := false, error := false, position := position + 1)
    }

    function AfterWrite(offset: byte, val: byte): Tty {
      if offset == 1 then this.(out := out + [val])
      else if offset == 3 then
        var t := this.(motor := val % 2 == 1);
        if val / 2 % 2 == 1 then t.(position := 0, eot := false, error := false) else t
      else if offset != 4 then this
      else if !present || !motor then this.(error := true)
      else this.(tape := Overwrite(tape, position, val), position := position + 1, eot := false, error := false)
    }

    function AfterReceive(b: byte): Tty {
      if rxReady then this else this.(rxByte := b, rxReady := true)
    }
  }

  /** The device, its fields updated in place. The tape backing is a byte sequence; a
      write seeks to the head and puts one byte there. */
  class TTY {
    var rxByte: byte
    var rxReady: bool
    var out: seq<byte>
    const present: bool
    var tapeBacking: seq<byte>
    var tapePosition: nat
    var tapeMotorOn: bool
    var tapeEot: bool
    var tapeError: bool

    function State(): Tty
      reads this
    {
      Tty(rxByte, rxReady, out, present, tapeBacking, tapePosition, tapeMotorOn, tapeEot, tapeError)
    }

    /** What has been received and not yet read. */
    function Pending(): seq<byte>
      reads this
    {
      if rxReady then [rxByte] else []
    }

    /** The head never leaves the tape. */
    predicate Valid()
      reads this
    {
      tapePosition <= |tapeBacking|
    }

    constructor (tape: seq<byte>, present: bool)
      ensures Valid() && State() == Tty(0, false, [], present, tape, 0, false, false, false)
    {
      rxByte, rxReady, out := 0, false, [];
      this.present := present;
      tapeBacking, tapePosition := tape, 0;
      tapeMotorOn, tapeEot, tapeError := false, false, false;
    }

    method Read(offset: byte) returns (v: byte)
      requires Valid()
      modifies this
      ensures Valid()
      ensures v == old(State()).Read(offset) && State() == old(State()).AfterRead(offset)
      ensures Pending() == if offset == 1 then [] else old(Pending())
      ensures out == old(out)
      ensures present ==> HeadOf(State()) == HeadStep(old(HeadOf(State())), ReadAt(offset))
    {
      if offset <= 1 {
        v := ReadSerial(offset);
      } else if 2 <= offset <= 4 {
        v := ReadTape(offset);
      } else {
        v := 0;
      }
    }

    method Write(offset: byte, val: byte)
      requires Valid()
      modifies this
      ensures Valid()
      ensures State() == old(State()).AfterWrite(offset, val)
      ensures Pending() == old(Pending())
      ensures out == old(out) + (if offset == 1 then [val] else [])
      ensures present ==> HeadOf(State()) == HeadStep(old(HeadOf(State())), WriteAt(offset, val))
    {
      if offset <= 1 {
        WriteSerial(offset, val);
        return;
      }
      if 2 <= offset <= 4 {
        WriteTape(offset, val);
      }
    }

    method Receive(b: byte)
      requires Valid()
      modifies this
      ensures Valid()
      ensures State() == old(State()).AfterReceive(b)
      ensures Pending() == if old(Pending()) == [] then [b] else old(Pending())
      ensures out == old(out)
      ensures present ==> HeadOf(State()) == HeadStep(old(HeadOf(State())), Access.Receive(b))
    {
      if present { StepRefinesHead(State(), Access.Receive(b)); }
      if rxReady {
        return;
      }
      rxByte := b;
      rxReady := true;
    }

    method ReadSerial(offset: byte) returns (v: byte)
      requires offset <= 1 && Valid()
      modifies this
      ensures Valid()
      ensures v == old(State()).Read(offset) && State() == old(State()).AfterRead(offset)
      ensures v == if offset == 1 then old(rxByte) else 2 + |old(Pending())|
      ensures Pending() == if offset == 1 then [] else old(Pending())
      ensures out == old(out)
      ensures present ==> HeadOf(State()) == HeadStep(old(HeadOf(State())), ReadAt(offset))
    {
      if present { StepRefinesHead(State(), ReadAt(offset)); }
      if offset == 0 {
        v := 0x02;
        if rxReady {
          v := Or8(v, 0x01);
          assert v == 3 by { assert Or(2, 1) == 2 * Or(1, 0) + 1; }
        }
        return;
      }
      rxReady := false;
      v := rxByte;
    }

    method WriteSerial(offset: byte, val: byte)
      requires offset <= 1 && Valid()
      modifies this
      ensures Valid()
      ensures State() == old(State()).AfterWrite(offset, val)
      ensures Pending() == old(Pending())
      ensures out == old(out) + (if offset == 1 then [val] else [])
      ensures present ==> HeadOf(State()) == HeadStep(old(HeadOf(State())), WriteAt(offset, val))
    {
      if present { StepRefinesHead(State(), WriteAt(offset, val)); }
      if offset == 1 {
        out := out + [val];
      }
    }

    method ReadTape(offset: byte) returns (v: byte)
      requires 2 <= offset <= 4 && Valid()
      modifies this
      ensures Valid()
      ensures v == old(State()).Read(offset) && State() == old(State()).AfterRead(offset)
      ensures Pending() == old(Pending()) && out == old(out)
      ensures present ==> HeadOf(State()) == HeadStep(old(HeadOf(State())), ReadAt(offset))
    {
      if present { StepRefinesHead(State(), ReadAt(offset)); }
      if offset == 0x02 {
        v := 0;
        // each flag has a bit of its own, so `|=` adds it
        if present { v := v + 0x01; }
        if tapeMotorOn { v := v + 0x02; }
        if tapeEot { v := v + 0x04; }
        if tapeError { v := v + 0x08; }
        return;
      }
      if offset == 0x03 {
        return 0x00;
      }
      if !present || !tapeMotorOn {
        tapeError := true;
        return 0x00;
      }
      if tapePosition >= |tapeBacking| {
        tapeEot := true;
        tapeError := true;
        return 0x00;
      }
      v := tapeBacking[tapePosition];
      tapeEot := false;
      tapeError := false;
      tapePosition := tapePosition + 1;
    }

    method WriteTape(offset: byte, val: byte)
      requires 2 <= offset <= 4 && Valid()
      modifies this
      ensures Valid()
      ensures State() == old(State()).AfterWrite(offset, val)
      ensures Pending() == old(Pending()) && out == old(out)
      ensures present ==> HeadOf(State()) == HeadStep(old(HeadOf(State())), WriteAt(offset, val))
    {
      if present { StepRefinesHead(State(), WriteAt(offset, val)); }
      if offset == 0x02 {
        return;
      }
      if offset == 0x03 {
        tapeMotorOn := val % 2 == 1;
        if val / 2 % 2 == 1 {
          tapePosition := 0;
          tapeEot := false;
          tapeError := false;
        }
        return;
      }
      if !present || !tapeMotorOn {
        tapeError := true;
        return;
      }
      if tapePosition < |tapeBacking| {
        tapeBacking := tapeBacking[tapePosition := val];
      } else {
        tapeBacking := tapeBacking + [val];
      }
      tapePosition := tapePosition + 1;
      tapeEot := false;
      tapeError := false;
    }
  }

  // ---------- runs of register accesses ----------

  datatype Access = ReadAt(offset: byte) | WriteAt(at: byte, val: byte) | Receive(b: byte)

  function Apply(t: Tty, a: Access): Tty {
    match a
    case ReadAt(offset) => t.AfterRead(offset)
    case WriteAt(offset, val) => t.AfterWrite(offset, val)
    case Receive(b) => t.AfterReceive(b)
  }

  function Play(t: Tty, run: seq<Access>): Tty
    decreases |run|
  {
    if run == [] then t else Play(Apply(t, run[0]), run[1..])
  }

  /** The tape as a reader sees it: what is behind the head and what is ahead. */
  datatype Head = Head(left: seq<byte>, right: seq<byte>, motor: bool, eot: bool, error: bool)

  function HeadOf(t: Tty): Head
    requires t.OnTape()
  {
    Head(t.tape[..t.position], t.tape[t.position..], t.motor, t.eot, t.error)
  }

  /** One head over one byte sequence: a good read moves a byte from right to left, a good
      write puts one on the left in place of the one under the head, rewinding moves all
      bytes to the right, and anything else leaves the bytes where they are. */
  function HeadStep(h: Head, a: Access): Head {
    match a
    case ReadAt(offset) =>
      if offset != 4 then h
      else if !h.motor then h.(error := true)
      else if h.right == [] then h.(eot := true, error := true)
      else Head(h.left + [h.right[0]], h.right[1..], true, false, false)
    case WriteAt(offset, val) =>
      if offset == 3 then
        var moved := if val / 2 % 2 == 1 then Head([], h.left + h.right, h.motor, false, false) else h;
        moved.(motor := val % 2 == 1)
      else if offset != 4 then h
      else if !h.motor then h.(error := true)
      else Head(h.left + [val], if h.right == [] then [] else h.right[1..], true, false, false)
    case Receive(_) => h
  }

  function HeadPlay(h: Head, run: seq<Access>): Head
    decreases |run|
  {
    if run == [] then h else HeadPlay(HeadStep(h, run[0]), run[1..])
  }

  lemma WriteRefinesHead(t: Tty, val: byte)
    requires t.OnTape()
    ensures t.AfterWrite(4, val).OnTape()
    ensures HeadOf(t.AfterWrite(4, val)) == HeadStep(HeadOf(t), WriteAt(4, val))
  {
    var tape, p := t.tape, t.position;
    if t.motor {
      var u := Overwrite(tape, p, val);
      assert u[..p + 1] == tape[..p] + [val];
      assert u[p + 1..] == if tape[p..] == [] then [] else tape[p..][1..];
    }
  }

  lemma ControlRefinesHead(t: Tty, val: byte)
    requires t.OnTape()
    ensures t.AfterWrite(3, val).OnTape()
    ensures HeadOf(t.AfterWrite(3, val)) == HeadStep(HeadOf(t), WriteAt(3, val))
  {
    assert t.tape == t.tape[..t.position] + t.tape[t.position..];
    assert t.tape[..0] == [] && t.tape[0..] == t.tape;
  }

  lemma ReadRefinesHead(t: Tty, offset: byte)
    requires t.OnTape()
    ensures t.AfterRead(offset).OnTape()
    ensures HeadOf(t.AfterRead(offset)) == HeadStep(HeadOf(t), ReadAt(offset))
  {
    var tape, p := t.tape, t.position;
    if p < |tape| {
      assert tape[..p + 1] == tape[..p] + [tape[p]];
      assert tape[p + 1..] == tape[p..][1..];
    }
  }

  lemma StepRefinesHead(t: Tty, a: Access)
    requires t.OnTape()
    ensures Apply(t, a).OnTape()
    ensures HeadOf(Apply(t, a)) == HeadStep(HeadOf(t), a)
  {
    match a
    case ReadAt(offset) => ReadRefinesHead(t, offset);
    case WriteAt(offset, val) =>
      WriteRefinesHead(t, val);
      ControlRefinesHead(t, val);
    case Receive(_) =>
  }

  /** Over every run of register accesses the head stays on the tape, and the device is
      one head over one byte sequence. */
  lemma {:induction false} DeviceRefinesHead(t: Tty, run: seq<Access>)
    requires t.OnTape()
    ensures Play(t, run).OnTape()
    ensures HeadOf(Play(t, run)) == HeadPlay(HeadOf(t), run)
    decreases |run|
  {
    if run != [] {
      StepRefinesHead(t, run[0]);
      DeviceRefinesHead(Apply(t, run[0]), run[1..]);
    }
  }

  predicate DataAccess(a: Access) {
    a == ReadAt(4) || (a.WriteAt? && a.at == 4)
  }

  predicate Rewind(a: Access) {
    a.WriteAt? && a.at == 3 && a.val / 2 % 2 == 1
  }

  /** A data access fails without a tape or motor, and a read also at the end. */
  predicate Fails(t: Tty, a: Access) {
    DataAccess(a) && (!t.present || !t.motor || (a.ReadAt? && t.position >= |t.tape|))
  }

  /** A failed access changes neither head nor contents; a good one moves the head by one
      cell, and a good write changes exactly the cell it passes over. */
  lemma DataAccessIsLocal(t: Tty, a: Access)
    requires t.OnTape() && DataAccess(a)
    ensures
      var u := Apply(t, a);
      if Fails(t, a) then u.tape == t.tape && u.position == t.position
      else
        && u.position == t.position + 1 && u.position <= |u.tape|
        && (if a.ReadAt? then u.tape == t.tape && t.Read(4) == t.tape[t.position]
            else u.tape[t.position] == a.val && |u.tape| == (if t.position < |t.tape| then |t.tape| else |t.tape| + 1))
        && forall k :: 0 <= k < |t.tape| && k != t.position ==> u.tape[k] == t.tape[k]
  {
  }

  /** Did the latest data access since the latest rewind fail? */
  function LastAccessFailed(t: Tty, run: seq<Access>, before: bool): bool
    decreases |run|
  {
    if run == [] then before
    else
      var now := if Rewind(run[0]) then false else if DataAccess(run[0]) then Fails(t, run[0]) else before;
      LastAccessFailed(Apply(t, run[0]), run[1..], now)
  }

  /** The ERROR bit is the outcome of the last data access since the last rewind. */
  lemma {:induction false} ErrorReflectsLastAccess(t: Tty, run: seq<Access>)
    ensures Play(t, run).error == LastAccessFailed(t, run, t.error)
    ensures Play(t, run).TapeStatus() / 8 == Bit(LastAccessFailed(t, run, t.error))
    decreases |run|
  {
    if run != [] {
      ErrorReflectsLastAccess(Apply(t, run[0]), run[1..]);
    }
  }

  /** What a register read returns: the held byte at DATA, the byte under the head at TAPE_DATA
      while the motor runs, and 0 elsewhere. */
  lemma RegisterLaw(t: Tty, offset: byte)
    ensures t.Read(1) == t.rxByte && t.Read(3) == 0 && (offset > 4 ==> t.Read(offset) == 0)
    ensures t.present && t.motor && t.position < |t.tape| ==> t.Read(4) == t.tape[t.position]
    ensures !t.present || !t.motor || t.position >= |t.tape| ==> t.Read(4) == 0
  {
  }

  /** The status registers, bit by bit: RXRDY and a TXRDY that is always set; PRESENT, MOTOR,
      EOT and ERROR. */
  lemma StatusBits(t: Tty)
    ensures t.Read(0) % 2 == 1 <==> t.rxReady
    ensures t.Read(0) / 2 == 1
    ensures t.Read(2) % 2 == 1 <==> t.present
    ensures t.Read(2) / 2 % 2 == 1 <==> t.motor
    ensures t.Read(2) / 4 % 2 == 1 <==> t.eot
    ensures t.Read(2) / 8 % 2 == 1 <==> t.error
    ensures t.Read(2) / 16 == 0
  {
  }

  // ---------- the serial side of a run ----------

  /** The bytes written to the serial DATA register, in order. */
  function Transmitted(run: seq<Access>): seq<byte> {
    if run == [] then []
    else (if run[0].WriteAt? && run[0].at == 1 then [run[0].val] else []) + Transmitted(run[1..])
  }

  lemma OneMoreOut(t: Tty, a: Access)
    ensures Apply(t, a).out == t.out + (if a.WriteAt? && a.at == 1 then [a.val] else [])
  {
  }

  /** The terminal gets exactly those bytes, whatever else the run does. */
  lemma {:induction false} OutputIsTransmitted(t: Tty, run: seq<Access>)
    ensures Play(t, run).out == t.out + Transmitted(run)
    decreases |run|
  {
    hide Apply;
    if run != [] {
      var now := if run[0].WriteAt? && run[0].at == 1 then [run[0].val] else [];
      OutputIsTransmitted(Apply(t, run[0]), run[1..]);
      OneMoreOut(t, run[0]);
      assert (t.out + now) + Transmitted(run[1..]) == t.out + (now + Transmitted(run[1..]));
    }
  }

  /** The bytes that arrived while the register was free. */
  function Accepted(t: Tty, run: seq<Access>): seq<byte>
    decreases |run|
  {
    if run == [] then []
    else (if run[0].Receive? && !t.rxReady then [run[0].b] else []) + Accepted(Apply(t, run[0]), run[1..])
  }

  /** What DATA reads returned while STATUS said a byte was there. */
  function Fetched(t: Tty, run: seq<Access>): seq<byte>
    decreases |run|
  {
    if run == [] then []
    else (if run[0] == ReadAt(1) && t.Read(0) == 3 then [t.Read(1)] else []) + Fetched(Apply(t, run[0]), run[1..])
  }

  function Held(t: Tty): seq<byte> {
    if t.rxReady then [t.rxByte] else []
  }

  /** Over every run, what was held and accepted is what was fetched and is still held, in
      order: a byte is never lost, doubled or overwritten once it is in the register. */
  lemma {:induction false} AcceptedIsFetched(t: Tty, run: seq<Access>)
    ensures Held(t) + Accepted(t, run) == Fetched(t, run) + Held(Play(t, run))
    decreases |run|
  {
    hide Held, Apply;
    if run != [] {
      var next := Apply(t, run[0]);
      AcceptedIsFetched(next, run[1..]);
      HeldStep(t, run[0]);
      Regroup(Held(t), if run[0].Receive? && !t.rxReady then [run[0].b] else [],
              if run[0] == ReadAt(1) && t.Read(0) == 3 then [t.Read(1)] else [], Held(next),
              Accepted(next, run[1..]), Fetched(next, run[1..]), Held(Play(t, run)));
    }
  }

  lemma HeldStep(t: Tty, a: Access)
    ensures
      Held(t) + (if a.Receive? && !t.rxReady then [a.b] else [])
        == (if a == ReadAt(1) && t.Read(0) == 3 then [t.Read(1)] else []) + Held(Apply(t, a))
  {
  }

  lemma Regroup(held: seq<byte>, accepted: seq<byte>, fetched: seq<byte>, next: seq<byte>,
                later: seq<byte>, laterFetched: seq<byte>, last: seq<byte>)
    requires held + accepted == fetched + next && next + later == laterFetched + last
    ensures held + (accepted + later) == (fetched + laterFetched) + last
  {
    assert held + (accepted + later) == (held + accepted) + later;
    assert (fetched + next) + later == fetched + (next + later);
    assert fetched + (laterFetched + last) == (fetched + laterFetched) + last;
  }
}
