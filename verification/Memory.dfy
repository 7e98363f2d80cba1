/** The bus as the processor sees it when no mapped device reacts to reads:
    a flat 64K space of RAM cells, constant ROM cells and unmapped addresses.
    Module Bus shows that the device bus refines it. */
module FlatMemory {
  import opened Words

  datatype Memory = Memory(ram: map<word, byte>, rom: map<word, byte>) {

    function Read(addr: word): byte {
      if addr in ram then ram[addr] else if addr in rom then rom[addr] else 0xFF
    }

    function Write(addr: word, val: byte): Memory {
      if addr in ram then Memory(ram[addr := val], rom) else this
    }
  }
}
