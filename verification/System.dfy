/** The system step, src/system/system.cpp, as far as terminal input goes: a byte is taken
    from the terminal only when the receive register is free, then the processor executes
    one instruction, whose accesses to the device are arbitrary. */
module SystemInput {
  import opened Words
  import opened TtyDevice

  class System {
    const tty: TTY
    var terminal: seq<byte>         // bytes typed and not yet polled
    ghost var typed: seq<byte>      // every byte the terminal was given
    ghost var delivered: seq<byte>  // bytes DATA reads returned while RXRDY was set

    /** Nothing typed is lost, repeated or reordered. */
    ghost predicate Conserved()
      reads this, tty
    {
      tty.Valid() && typed == delivered + tty.Pending() + terminal
    }

    constructor (tape: seq<byte>, tapePresent: bool)
      ensures Conserved() && fresh(tty) && typed == [] && delivered == []
    {
      tty := new TTY(tape, tapePresent);
      terminal := [];
      typed, delivered := [], [];
    }

    /** The user types; no part of step. */
    method Type(bytes: seq<byte>)
      requires Conserved()
      modifies `terminal, `typed
      ensures Conserved() && typed == old(typed) + bytes
    {
      terminal := terminal + bytes;
      typed := typed + bytes;
    }

    /** A DATA read delivers what is pending, if anything is. */
    method BusRead(offset: byte) returns (v: byte)
      requires Conserved()
      modifies `delivered, tty
      ensures Conserved()
      ensures delivered == if offset == 1 && old(tty.Pending()) == [v] then old(delivered) + [v] else old(delivered)
      ensures offset == 1 && old(tty.Pending()) != [] ==> old(tty.Pending()) == [v]
    {
      ghost var pending := tty.Pending();
      v := tty.Read(offset);
      if offset == 1 {
        delivered := delivered + pending;
      }
    }

    method BusWrite(offset: byte, val: byte)
      requires Conserved()
      modifies tty
      ensures Conserved() && tty.Pending() == old(tty.Pending())
    {
      tty.Write(offset, val);
    }

    /** One step. `available` says whether tryReadByte finds a byte just now; `accesses`
        are the reads and writes the instruction makes of the device. */
    method Step(available: bool, accesses: seq<Access>)
      requires Conserved()
      requires forall a :: a in accesses ==> !a.Receive?
      modifies this, tty
      ensures Conserved() && typed == old(typed)
      ensures old(delivered) <= delivered
      ensures
        terminal ==
          if available && old(tty.Pending()) == [] && old(terminal) != [] then old(terminal)[1..] else old(terminal)
    {
      if !tty.rxReady {
        if available && terminal != [] {
          tty.Receive(terminal[0]);
          terminal := terminal[1..];
        }
      }
      ghost var polled := terminal;
      for i := 0 to |accesses|
        invariant Conserved() && typed == old(typed) && terminal == polled
        invariant old(delivered) <= delivered
      {
        var access := accesses[i];
        assert access in accesses;
        if access.ReadAt? {
          var _ := BusRead(access.offset);
        } else {
          BusWrite(access.at, access.val);
        }
      }
    }
  }
}
