/** The instruction set as docs/6502-manual.md tabulates it: the meaning, length and
    cycle count of every documented opcode byte, laid out by its two hex digits. */
module Manual {
  import opened Words
  import opened Instructions

  datatype Option<+T> = None | Some(value: T)

  /** The manual's "+1" remarks: none, on an index that crosses a page, or on a
      taken branch (and again if the branch crosses a page). */
  datatype Penalty = Fixed | IfCrossed | IfTaken

  datatype Row = Row(instr: Instr, bytes: nat, cycles: nat, penalty: Penalty)

  /** The row of opcode 16 * hi + lo, if the manual has one. */
  function RowAt(hi: nat, lo: nat): Option<Row> {
    match hi
    case 0x0 => (
      match lo
      case 0x0 => Some(Row(Brk, 2, 7, Fixed))
      case 0x1 => Some(Row(Operand(Combine(OpOra), IndirectX), 2, 6, Fixed))
      case 0x5 => Some(Row(Operand(Combine(OpOra), ZeroPage), 2, 3, Fixed))
      case 0x6 => Some(Row(Operand(Modify(OpAsl), ZeroPage), 2, 5, Fixed))
      case 0x8 => Some(Row(Push(true), 1, 3, Fixed))
      case 0x9 => Some(Row(Operand(Combine(OpOra), Immediate), 2, 2, Fixed))
      case 0xA => Some(Row(Accumulator(OpAsl), 1, 2, Fixed))
      case 0xD => Some(Row(Operand(Combine(OpOra), Absolute), 3, 4, Fixed))
      case 0xE => Some(Row(Operand(Modify(OpAsl), Absolute), 3, 6, Fixed))
      case _ => None)
    case 0x1 => (
      match lo
      case 0x0 => Some(Row(Branch(N, false), 2, 2, IfTaken))
      case 0x1 => Some(Row(Operand(Combine(OpOra), IndirectY), 2, 5, IfCrossed))
      case 0x5 => Some(Row(Operand(Combine(OpOra), ZeroPageX), 2, 4, Fixed))
      case 0x6 => Some(Row(Operand(Modify(OpAsl), ZeroPageX), 2, 6, Fixed))
      case 0x8 => Some(Row(SetFlag(C, false), 1, 2, Fixed))
      case 0x9 => Some(Row(Operand(Combine(OpOra), AbsoluteY), 3, 4, IfCrossed))
      case 0xD => Some(Row(Operand(Combine(OpOra), AbsoluteX), 3, 4, IfCrossed))
      case 0xE => Some(Row(Operand(Modify(OpAsl), AbsoluteX), 3, 7, Fixed))
      case _ => None)
    case 0x2 => (
      match lo
      case 0x0 => Some(Row(Jsr, 3, 6, Fixed))
      case 0x1 => Some(Row(Operand(Combine(OpAnd), IndirectX), 2, 6, Fixed))
      case 0x4 => Some(Row(Operand(Combine(OpBit), ZeroPage), 2, 3, Fixed))
      case 0x5 => Some(Row(Operand(Combine(OpAnd), ZeroPage), 2, 3, Fixed))
      case 0x6 => Some(Row(Operand(Modify(OpRol), ZeroPage), 2, 5, Fixed))
      case 0x8 => Some(Row(Pull(true), 1, 4, Fixed))
      case 0x9 => Some(Row(Operand(Combine(OpAnd), Immediate), 2, 2, Fixed))
      case 0xA => Some(Row(Accumulator(OpRol), 1, 2, Fixed))
      case 0xC => Some(Row(Operand(Combine(OpBit), Absolute), 3, 4, Fixed))
      case 0xD => Some(Row(Operand(Combine(OpAnd), Absolute), 3, 4, Fixed))
      case 0xE => Some(Row(Operand(Modify(OpRol), Absolute), 3, 6, Fixed))
      case _ => None)
    case 0x3 => (
      match lo
      case 0x0 => Some(Row(Branch(N, true), 2, 2, IfTaken))
      case 0x1 => Some(Row(Operand(Combine(OpAnd), IndirectY), 2, 5, IfCrossed))
      case 0x5 => Some(Row(Operand(Combine(OpAnd), ZeroPageX), 2, 4, Fixed))
      case 0x6 => Some(Row(Operand(Modify(OpRol), ZeroPageX), 2, 6, Fixed))
      case 0x8 => Some(Row(SetFlag(C, true), 1, 2, Fixed))
      case 0x9 => Some(Row(Operand(Combine(OpAnd), AbsoluteY), 3, 4, IfCrossed))
      case 0xD => Some(Row(Operand(Combine(OpAnd), AbsoluteX), 3, 4, IfCrossed))
      case 0xE => Some(Row(Operand(Modify(OpRol), AbsoluteX), 3, 7, Fixed))
      case _ => None)
    case 0x4 => (
      match lo
      case 0x0 => Some(Row(Rti, 1, 6, Fixed))
      case 0x1 => Some(Row(Operand(Combine(OpEor), IndirectX), 2, 6, Fixed))
      case 0x5 => Some(Row(Operand(Combine(OpEor), ZeroPage), 2, 3, Fixed))
      case 0x6 => Some(Row(Operand(Modify(OpLsr), ZeroPage), 2, 5, Fixed))
      case 0x8 => Some(Row(Push(false), 1, 3, Fixed))
      case 0x9 => Some(Row(Operand(Combine(OpEor), Immediate), 2, 2, Fixed))
      case 0xA => Some(Row(Accumulator(OpLsr), 1, 2, Fixed))
      case 0xC => Some(Row(Jmp, 3, 3, Fixed))
      case 0xD => Some(Row(Operand(Combine(OpEor), Absolute), 3, 4, Fixed))
      case 0xE => Some(Row(Operand(Modify(OpLsr), Absolute), 3, 6, Fixed))
      case _ => None)
    case 0x5 => (
      match lo
      case 0x0 => Some(Row(Branch(V, false), 2, 2, IfTaken))
      case 0x1 => Some(Row(Operand(Combine(OpEor), IndirectY), 2, 5, IfCrossed))
      case 0x5 => Some(Row(Operand(Combine(OpEor), ZeroPageX), 2, 4, Fixed))
      case 0x6 => Some(Row(Operand(Modify(OpLsr), ZeroPageX), 2, 6, Fixed))
      case 0x8 => Some(Row(SetFlag(I, false), 1, 2, Fixed))
      case 0x9 => Some(Row(Operand(Combine(OpEor), AbsoluteY), 3, 4, IfCrossed))
      case 0xD => Some(Row(Operand(Combine(OpEor), AbsoluteX), 3, 4, IfCrossed))
      case 0xE => Some(Row(Operand(Modify(OpLsr), AbsoluteX), 3, 7, Fixed))
      case _ => None)
    case 0x6 => (
      match lo
      case 0x0 => Some(Row(Rts, 1, 6, Fixed))
      case 0x1 => Some(Row(Operand(Combine(OpAdc), IndirectX), 2, 6, Fixed))
      case 0x5 => Some(Row(Operand(Combine(OpAdc), ZeroPage), 2, 3, Fixed))
      case 0x6 => Some(Row(Operand(Modify(OpRor), ZeroPage), 2, 5, Fixed))
      case 0x8 => Some(Row(Pull(false), 1, 4, Fixed))
      case 0x9 => Some(Row(Operand(Combine(OpAdc), Immediate), 2, 2, Fixed))
      case 0xA => Some(Row(Accumulator(OpRor), 1, 2, Fixed))
      case 0xC => Some(Row(JmpIndirect, 3, 5, Fixed))
      case 0xD => Some(Row(Operand(Combine(OpAdc), Absolute), 3, 4, Fixed))
      case 0xE => Some(Row(Operand(Modify(OpRor), Absolute), 3, 6, Fixed))
      case _ => None)
    case 0x7 => (
      match lo
      case 0x0 => Some(Row(Branch(V, true), 2, 2, IfTaken))
      case 0x1 => Some(Row(Operand(Combine(OpAdc), IndirectY), 2, 5, IfCrossed))
      case 0x5 => Some(Row(Operand(Combine(OpAdc), ZeroPageX), 2, 4, Fixed))
      case 0x6 => Some(Row(Operand(Modify(OpRor), ZeroPageX), 2, 6, Fixed))
      case 0x8 => Some(Row(SetFlag(I, true), 1, 2, Fixed))
      case 0x9 => Some(Row(Operand(Combine(OpAdc), AbsoluteY), 3, 4, IfCrossed))
      case 0xD => Some(Row(Operand(Combine(OpAdc), AbsoluteX), 3, 4, IfCrossed))
      case 0xE => Some(Row(Operand(Modify(OpRor), AbsoluteX), 3, 7, Fixed))
      case _ => None)
    case 0x8 => (
      match lo
      case 0x1 => Some(Row(Operand(Store(A), IndirectX), 2, 6, Fixed))
      case 0x4 => Some(Row(Operand(Store(Y), ZeroPage), 2, 3, Fixed))
      case 0x5 => Some(Row(Operand(Store(A), ZeroPage), 2, 3, Fixed))
      case 0x6 => Some(Row(Operand(Store(X), ZeroPage), 2, 3, Fixed))
      case 0x8 => Some(Row(IncDec(OpDec, Y), 1, 2, Fixed))
      case 0xA => Some(Row(Transfer(X, A), 1, 2, Fixed))
      case 0xC => Some(Row(Operand(Store(Y), Absolute), 3, 4, Fixed))
      case 0xD => Some(Row(Operand(Store(A), Absolute), 3, 4, Fixed))
      case 0xE => Some(Row(Operand(Store(X), Absolute), 3, 4, Fixed))
      case _ => None)
    case 0x9 => (
      match lo
      case 0x0 => Some(Row(Branch(C, false), 2, 2, IfTaken))
      case 0x1 => Some(Row(Operand(Store(A), IndirectY), 2, 6, Fixed))
      case 0x4 => Some(Row(Operand(Store(Y), ZeroPageX), 2, 4, Fixed))
      case 0x5 => Some(Row(Operand(Store(A), ZeroPageX), 2, 4, Fixed))
      case 0x6 => Some(Row(Operand(Store(X), ZeroPageY), 2, 4, Fixed))
      case 0x8 => Some(Row(Transfer(Y, A), 1, 2, Fixed))
      case 0x9 => Some(Row(Operand(Store(A), AbsoluteY), 3, 5, Fixed))
      case 0xA => Some(Row(Transfer(X, S), 1, 2, Fixed))
      case 0xD => Some(Row(Operand(Store(A), AbsoluteX), 3, 5, Fixed))
      case _ => None)
    case 0xA => (
      match lo
      case 0x0 => Some(Row(Operand(Load(Y), Immediate), 2, 2, Fixed))
      case 0x1 => Some(Row(Operand(Load(A), IndirectX), 2, 6, Fixed))
      case 0x2 => Some(Row(Operand(Load(X), Immediate), 2, 2, Fixed))
      case 0x4 => Some(Row(Operand(Load(Y), ZeroPage), 2, 3, Fixed))
      case 0x5 => Some(Row(Operand(Load(A), ZeroPage), 2, 3, Fixed))
      case 0x6 => Some(Row(Operand(Load(X), ZeroPage), 2, 3, Fixed))
      case 0x8 => Some(Row(Transfer(A, Y), 1, 2, Fixed))
      case 0x9 => Some(Row(Operand(Load(A), Immediate), 2, 2, Fixed))
      case 0xA => Some(Row(Transfer(A, X), 1, 2, Fixed))
      case 0xC => Some(Row(Operand(Load(Y), Absolute), 3, 4, Fixed))
      case 0xD => Some(Row(Operand(Load(A), Absolute), 3, 4, Fixed))
      case 0xE => Some(Row(Operand(Load(X), Absolute), 3, 4, Fixed))
      case _ => None)
    case 0xB => (
      match lo
      case 0x0 => Some(Row(Branch(C, true), 2, 2, IfTaken))
      case 0x1 => Some(Row(Operand(Load(A), IndirectY), 2, 5, IfCrossed))
      case 0x4 => Some(Row(Operand(Load(Y), ZeroPageX), 2, 4, Fixed))
      case 0x5 => Some(Row(Operand(Load(A), ZeroPageX), 2, 4, Fixed))
      case 0x6 => Some(Row(Operand(Load(X), ZeroPageY), 2, 4, Fixed))
      case 0x8 => Some(Row(SetFlag(V, false), 1, 2, Fixed))
      case 0x9 => Some(Row(Operand(Load(A), AbsoluteY), 3, 4, IfCrossed))
      case 0xA => Some(Row(Transfer(S, X), 1, 2, Fixed))
      case 0xC => Some(Row(Operand(Load(Y), AbsoluteX), 3, 4, IfCrossed))
      case 0xD => Some(Row(Operand(Load(A), AbsoluteX), 3, 4, IfCrossed))
      case 0xE => Some(Row(Operand(Load(X), AbsoluteY), 3, 4, IfCrossed))
      case _ => None)
    case 0xC => (
      match lo
      case 0x0 => Some(Row(Operand(Combine(OpCmp(Y)), Immediate), 2, 2, Fixed))
      case 0x1 => Some(Row(Operand(Combine(OpCmp(A)), IndirectX), 2, 6, Fixed))
      case 0x4 => Some(Row(Operand(Combine(OpCmp(Y)), ZeroPage), 2, 3, Fixed))
      case 0x5 => Some(Row(Operand(Combine(OpCmp(A)), ZeroPage), 2, 3, Fixed))
      case 0x6 => Some(Row(Operand(Modify(OpDec), ZeroPage), 2, 5, Fixed))
      case 0x8 => Some(Row(IncDec(OpInc, Y), 1, 2, Fixed))
      case 0x9 => Some(Row(Operand(Combine(OpCmp(A)), Immediate), 2, 2, Fixed))
      case 0xA => Some(Row(IncDec(OpDec, X), 1, 2, Fixed))
      case 0xC => Some(Row(Operand(Combine(OpCmp(Y)), Absolute), 3, 4, Fixed))
      case 0xD => Some(Row(Operand(Combine(OpCmp(A)), Absolute), 3, 4, Fixed))
      case 0xE => Some(Row(Operand(Modify(OpDec), Absolute), 3, 6, Fixed))
      case _ => None)
    case 0xD => (
      match lo
      case 0x0 => Some(Row(Branch(Z, false), 2, 2, IfTaken))
      case 0x1 => Some(Row(Operand(Combine(OpCmp(A)), IndirectY), 2, 5, IfCrossed))
      case 0x5 => Some(Row(Operand(Combine(OpCmp(A)), ZeroPageX), 2, 4, Fixed))
      case 0x6 => Some(Row(Operand(Modify(OpDec), ZeroPageX), 2, 6, Fixed))
      case 0x8 => Some(Row(SetFlag(D, false), 1, 2, Fixed))
      case 0x9 => Some(Row(Operand(Combine(OpCmp(A)), AbsoluteY), 3, 4, IfCrossed))
      case 0xD => Some(Row(Operand(Combine(OpCmp(A)), AbsoluteX), 3, 4, IfCrossed))
      case 0xE => Some(Row(Operand(Modify(OpDec), AbsoluteX), 3, 7, Fixed))
      case _ => None)
    case 0xE => (
      match lo
      case 0x0 => Some(Row(Operand(Combine(OpCmp(X)), Immediate), 2, 2, Fixed))
      case 0x1 => Some(Row(Operand(Combine(OpSbc), IndirectX), 2, 6, Fixed))
      case 0x4 => Some(Row(Operand(Combine(OpCmp(X)), ZeroPage), 2, 3, Fixed))
      case 0x5 => Some(Row(Operand(Combine(OpSbc), ZeroPage), 2, 3, Fixed))
      case 0x6 => Some(Row(Operand(Modify(OpInc), ZeroPage), 2, 5, Fixed))
      case 0x8 => Some(Row(IncDec(OpInc, X), 1, 2, Fixed))
      case 0x9 => Some(Row(Operand(Combine(OpSbc), Immediate), 2, 2, Fixed))
      case 0xA => Some(Row(Nop, 1, 2, Fixed))
      case 0xC => Some(Row(Operand(Combine(OpCmp(X)), Absolute), 3, 4, Fixed))
      case 0xD => Some(Row(Operand(Combine(OpSbc), Absolute), 3, 4, Fixed))
      case 0xE => Some(Row(Operand(Modify(OpInc), Absolute), 3, 6, Fixed))
      case _ => None)
    case _ => (
      match lo
      case 0x0 => Some(Row(Branch(Z, true), 2, 2, IfTaken))
      case 0x1 => Some(Row(Operand(Combine(OpSbc), IndirectY), 2, 5, IfCrossed))
      case 0x5 => Some(Row(Operand(Combine(OpSbc), ZeroPageX), 2, 4, Fixed))
      case 0x6 => Some(Row(Operand(Modify(OpInc), ZeroPageX), 2, 6, Fixed))
      case 0x8 => Some(Row(SetFlag(D, true), 1, 2, Fixed))
      case 0x9 => Some(Row(Operand(Combine(OpSbc), AbsoluteY), 3, 4, IfCrossed))
      case 0xD => Some(Row(Operand(Combine(OpSbc), AbsoluteX), 3, 4, IfCrossed))
      case 0xE => Some(Row(Operand(Modify(OpInc), AbsoluteX), 3, 7, Fixed))
      case _ => None)
  }

  function InstrOf(row: Option<Row>): Instr {
    match row
    case Some(r) => r.instr
    case None => Unknown
  }

  function Lookup(opcode: byte): Option<Row> {
    RowAt(opcode / 0x10, opcode % 0x10)
  }
}
