/** Instructions as values: an operation, its registers or flag, and where its operand is. */
module Instructions {
  import opened Words

  datatype Mode =
    | Immediate | ZeroPage | ZeroPageX | ZeroPageY | Absolute | AbsoluteX | AbsoluteY | IndirectX | IndirectY

  datatype Register = A | X | Y | S

  datatype BinaryOp = OpAdc | OpSbc | OpAnd | OpOra | OpEor | OpCmp(reg: Register) | OpBit

  datatype UnaryOp = OpAsl | OpLsr | OpRol | OpRor | OpInc | OpDec

  datatype Flag = C | Z | I | D | V | N

  /** What an instruction does with its memory operand. */
  datatype Use = Combine(op: BinaryOp) | Load(dst: Register) | Store(src: Register) | Modify(unary: UnaryOp)

  datatype Instr =
    | Operand(use: Use, mode: Mode)
    | Accumulator(op: UnaryOp)
    | IncDec(step: UnaryOp, reg: Register)
    | Transfer(src: Register, dst: Register)
    | SetFlag(flag: Flag, value: bool)
    | Branch(test: Flag, when: bool)
    | Brk | Jsr | Rts | Rti | Jmp | JmpIndirect | Nop
    | Push(status: bool)
    | Pull(status: bool)
    | Unknown

  /** The operand uses and modes the instruction set combines. */
  predicate Encodable(i: Instr) {
    i.Operand? ==>
      && (i.use.Modify? ==> i.mode.ZeroPage? || i.mode.ZeroPageX? || i.mode.Absolute? || i.mode.AbsoluteX?)
      && (i.use.Store? ==> !i.mode.Immediate?)
  }
}
