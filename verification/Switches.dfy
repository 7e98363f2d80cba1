/** The core's switches on the instruction register, src/cpu/cpu6502.cpp, one function per
    switch over its own case labels. Line numbers are those of the switches. */
module Switches {
  import opened Words
  import opened Instructions
  import opened Manual

  /** The four families of memory-operand handlers. */
  datatype Kind = Reading | Loading | Storing | Modifying

  /** A capture/commit handler pair, by the name the two functions share. */
  datatype Handler =
    | Access(kind: Kind, mode: Mode)
    | ShiftAccumulator | ImpliedIncDec | ImpliedTransfer | ImpliedFlagOp
    | Branching | BRK | JSR | RTS | JMPAbsolute | JMPIndirect | NOP | RTI
    | ImpliedPush | ImpliedPull
    | NoHandler

  /** What commitBinaryAluResult writes back: A with all four flags, A with Z and N, the
      flags of a comparison, or those of BIT. */
  datatype BinaryResult = Arithmetic | Logical | Comparison | BitTest | NoResult

  datatype UnaryFlagSet = WithCarry | ZeroNegative | NoFlags

  /** onClockHigh (src/cpu/cpu6502.cpp:369-609): the capture handler called. */
  function CaptureSwitch(ir: byte): Handler {
    match ir
    case 0x69 | 0xE9 | 0x29 | 0x09 | 0x49 | 0xC9 | 0xE0 | 0xC0 => Access(Reading, Immediate)
    case 0x6D | 0xED | 0x2D | 0x0D | 0x4D | 0xCD | 0xEC | 0xCC | 0x2C => Access(Reading, Absolute)
    case 0x65 | 0xE5 | 0x25 | 0x05 | 0x45 | 0xC5 | 0xE4 | 0xC4 | 0x24 => Access(Reading, ZeroPage)
    case 0x75 | 0xF5 | 0x35 | 0x15 | 0x55 | 0xD5 => Access(Reading, ZeroPageX)
    case 0x7D | 0xFD | 0x3D | 0x1D | 0x5D | 0xDD => Access(Reading, AbsoluteX)
    case 0x79 | 0xF9 | 0x39 | 0x19 | 0x59 | 0xD9 => Access(Reading, AbsoluteY)
    case 0x61 | 0xE1 | 0x21 | 0x01 | 0x41 | 0xC1 => Access(Reading, IndirectX)
    case 0x71 | 0xF1 | 0x31 | 0x11 | 0x51 | 0xD1 => Access(Reading, IndirectY)
    case 0x0A | 0x4A | 0x2A | 0x6A => ShiftAccumulator
    case 0x06 | 0x46 | 0x26 | 0x66 | 0xE6 | 0xC6 => Access(Modifying, ZeroPage)
    case 0x16 | 0x56 | 0x36 | 0x76 | 0xF6 | 0xD6 => Access(Modifying, ZeroPageX)
    case 0x0E | 0x4E | 0x2E | 0x6E | 0xEE | 0xCE => Access(Modifying, Absolute)
    case 0x1E | 0x5E | 0x3E | 0x7E | 0xFE | 0xDE => Access(Modifying, AbsoluteX)
    case 0xE8 | 0xCA | 0xC8 | 0x88 => ImpliedIncDec
    case 0xAA | 0x8A | 0xA8 | 0x98 | 0xBA | 0x9A => ImpliedTransfer
    case 0x18 | 0x38 | 0x58 | 0x78 | 0xB8 | 0xD8 | 0xF8 => ImpliedFlagOp
    case 0xA9 | 0xA2 | 0xA0 => Access(Loading, Immediate)
    case 0xA5 | 0xA6 | 0xA4 => Access(Loading, ZeroPage)
    case 0xB5 | 0xB4 => Access(Loading, ZeroPageX)
    case 0xB6 => Access(Loading, ZeroPageY)
    case 0xAD | 0xAE | 0xAC => Access(Loading, Absolute)
    case 0xBD | 0xBC => Access(Loading, AbsoluteX)
    case 0xB9 | 0xBE => Access(Loading, AbsoluteY)
    case 0xA1 => Access(Loading, IndirectX)
    case 0xB1 => Access(Loading, IndirectY)
    case 0x85 | 0x86 | 0x84 => Access(Storing, ZeroPage)
    case 0x95 | 0x94 => Access(Storing, ZeroPageX)
    case 0x96 => Access(Storing, ZeroPageY)
    case 0x8D | 0x8E | 0x8C => Access(Storing, Absolute)
    case 0x9D => Access(Storing, AbsoluteX)
    case 0x99 => Access(Storing, AbsoluteY)
    case 0x81 => Access(Storing, IndirectX)
    case 0x91 => Access(Storing, IndirectY)
    case 0x10 | 0x30 | 0x50 | 0x70 | 0x90 | 0xB0 | 0xD0 | 0xF0 => Branching
    case 0x00 => BRK
    case 0x20 => JSR
    case 0x60 => RTS
    case 0x4C => JMPAbsolute
    case 0x6C => JMPIndirect
    case 0xEA => NOP
    case 0x40 => RTI
    case 0x48 | 0x08 => ImpliedPush
    case 0x68 | 0x28 => ImpliedPull
    case _ => NoHandler
  }

  /** onClockLow (624-865): the commit handler called. */
  function CommitSwitch(ir: byte): Handler {
    match ir
    case 0x69 | 0xE9 | 0x29 | 0x09 | 0x49 | 0xC9 | 0xE0 | 0xC0 => Access(Reading, Immediate)
    case 0x6D | 0xED | 0x2D | 0x0D | 0x4D | 0xCD | 0xEC | 0xCC | 0x2C => Access(Reading, Absolute)
    case 0x65 | 0xE5 | 0x25 | 0x05 | 0x45 | 0xC5 | 0xE4 | 0xC4 | 0x24 => Access(Reading, ZeroPage)
    case 0x75 | 0xF5 | 0x35 | 0x15 | 0x55 | 0xD5 => Access(Reading, ZeroPageX)
    case 0x7D | 0xFD | 0x3D | 0x1D | 0x5D | 0xDD => Access(Reading, AbsoluteX)
    case 0x79 | 0xF9 | 0x39 | 0x19 | 0x59 | 0xD9 => Access(Reading, AbsoluteY)
    case 0x61 | 0xE1 | 0x21 | 0x01 | 0x41 | 0xC1 => Access(Reading, IndirectX)
    case 0x71 | 0xF1 | 0x31 | 0x11 | 0x51 | 0xD1 => Access(Reading, IndirectY)
    case 0x0A | 0x4A | 0x2A | 0x6A => ShiftAccumulator
    case 0x06 | 0x46 | 0x26 | 0x66 | 0xE6 | 0xC6 => Access(Modifying, ZeroPage)
    case 0x16 | 0x56 | 0x36 | 0x76 | 0xF6 | 0xD6 => Access(Modifying, ZeroPageX)
    case 0x0E | 0x4E | 0x2E | 0x6E | 0xEE | 0xCE => Access(Modifying, Absolute)
    case 0x1E | 0x5E | 0x3E | 0x7E | 0xFE | 0xDE => Access(Modifying, AbsoluteX)
    case 0xE8 | 0xCA | 0xC8 | 0x88 => ImpliedIncDec
    case 0xAA | 0x8A | 0xA8 | 0x98 | 0xBA | 0x9A => ImpliedTransfer
    case 0x18 | 0x38 | 0x58 | 0x78 | 0xB8 | 0xD8 | 0xF8 => ImpliedFlagOp
    case 0xA9 | 0xA2 | 0xA0 => Access(Loading, Immediate)
    case 0xA5 | 0xA6 | 0xA4 => Access(Loading, ZeroPage)
    case 0xB5 | 0xB4 => Access(Loading, ZeroPageX)
    case 0xB6 => Access(Loading, ZeroPageY)
    case 0xAD | 0xAE | 0xAC => Access(Loading, Absolute)
    case 0xBD | 0xBC => Access(Loading, AbsoluteX)
    case 0xB9 | 0xBE => Access(Loading, AbsoluteY)
    case 0xA1 => Access(Loading, IndirectX)
    case 0xB1 => Access(Loading, IndirectY)
    case 0x85 | 0x86 | 0x84 => Access(Storing, ZeroPage)
    case 0x95 | 0x94 => Access(Storing, ZeroPageX)
    case 0x96 => Access(Storing, ZeroPageY)
    case 0x8D | 0x8E | 0x8C => Access(Storing, Absolute)
    case 0x9D => Access(Storing, AbsoluteX)
    case 0x99 => Access(Storing, AbsoluteY)
    case 0x81 => Access(Storing, IndirectX)
    case 0x91 => Access(Storing, IndirectY)
    case 0x10 | 0x30 | 0x50 | 0x70 | 0x90 | 0xB0 | 0xD0 | 0xF0 => Branching
    case 0x00 => BRK
    case 0x20 => JSR
    case 0x60 => RTS
    case 0x4C => JMPAbsolute
    case 0x6C => JMPIndirect
    case 0xEA => NOP
    case 0x40 => RTI
    case 0x48 | 0x08 => ImpliedPush
    case 0x68 | 0x28 => ImpliedPull
    case _ => NoHandler
  }

  /** applyBinaryAluOp (929-1008): operation and register. */
  function BinaryOpOf(ir: byte): Option<BinaryOp> {
    match ir
    case 0x69 | 0x65 | 0x75 | 0x6D | 0x7D | 0x79 | 0x61 | 0x71 => Some(OpAdc)
    case 0xE9 | 0xE5 | 0xF5 | 0xED | 0xFD | 0xF9 | 0xE1 | 0xF1 => Some(OpSbc)
    case 0x29 | 0x25 | 0x35 | 0x2D | 0x3D | 0x39 | 0x21 | 0x31 => Some(OpAnd)
    case 0x09 | 0x05 | 0x15 | 0x0D | 0x1D | 0x19 | 0x01 | 0x11 => Some(OpOra)
    case 0x49 | 0x45 | 0x55 | 0x4D | 0x5D | 0x59 | 0x41 | 0x51 => Some(OpEor)
    case 0xC9 | 0xC5 | 0xD5 | 0xCD | 0xDD | 0xD9 | 0xC1 | 0xD1 => Some(OpCmp(A))
    case 0xE0 | 0xE4 | 0xEC => Some(OpCmp(X))
    case 0xC0 | 0xC4 | 0xCC => Some(OpCmp(Y))
    case 0x24 | 0x2C => Some(OpBit)
    case _ => None
  }

  /** commitBinaryAluResult (1010-1098): what is written back. */
  function BinaryResultOf(ir: byte): BinaryResult {
    match ir
    case 0x69 | 0x65 | 0x75 | 0x6D | 0x7D | 0x79 | 0x61 | 0x71 | 0xE9 | 0xE5 | 0xF5 | 0xED |
         0xFD | 0xF9 | 0xE1 | 0xF1 => Arithmetic
    case 0x29 | 0x25 | 0x35 | 0x2D | 0x3D | 0x39 | 0x21 | 0x31 | 0x09 | 0x05 | 0x15 | 0x0D |
         0x1D | 0x19 | 0x01 | 0x11 | 0x49 | 0x45 | 0x55 | 0x4D | 0x5D | 0x59 | 0x41 | 0x51 => Logical
    case 0xC9 | 0xC5 | 0xD5 | 0xCD | 0xDD | 0xD9 | 0xC1 | 0xD1 | 0xE0 | 0xE4 | 0xEC | 0xC0 |
         0xC4 | 0xCC => Comparison
    case 0x24 | 0x2C => BitTest
    case _ => NoResult
  }

  /** applyUnaryAluOp (1451-1496). */
  function UnaryOpOf(ir: byte): Option<UnaryOp> {
    match ir
    case 0x0A | 0x06 | 0x16 | 0x0E | 0x1E => Some(OpAsl)
    case 0x4A | 0x46 | 0x56 | 0x4E | 0x5E => Some(OpLsr)
    case 0x2A | 0x26 | 0x36 | 0x2E | 0x3E => Some(OpRol)
    case 0x6A | 0x66 | 0x76 | 0x6E | 0x7E => Some(OpRor)
    case 0xE6 | 0xF6 | 0xEE | 0xFE => Some(OpInc)
    case 0xC6 | 0xD6 | 0xCE | 0xDE => Some(OpDec)
    case _ => None
  }

  /** commitUnaryAluFlags (1498-1541): the flags that follow. */
  function UnaryFlagsOf(ir: byte): UnaryFlagSet {
    match ir
    case 0x0A | 0x06 | 0x16 | 0x0E | 0x1E | 0x4A | 0x46 | 0x56 | 0x4E | 0x5E | 0x2A | 0x26 |
         0x36 | 0x2E | 0x3E | 0x6A | 0x66 | 0x76 | 0x6E | 0x7E => WithCarry
    case 0xE6 | 0xF6 | 0xEE | 0xFE | 0xC6 | 0xD6 | 0xCE | 0xDE => ZeroNegative
    case _ => NoFlags
  }

  /** captureImpliedIncDec (1739-1756). */
  function IncDecOf(ir: byte): Option<(UnaryOp, Register)> {
    match ir
    case 0xE8 => Some((OpInc, X))
    case 0xCA => Some((OpDec, X))
    case 0xC8 => Some((OpInc, Y))
    case 0x88 => Some((OpDec, Y))
    case _ => None
  }

  /** commitImpliedIncDec (1758-1774). */
  function IncDecTarget(ir: byte): Option<Register> {
    match ir
    case 0xE8 | 0xCA => Some(X)
    case 0xC8 | 0x88 => Some(Y)
    case _ => None
  }

  /** captureImpliedTransfer (1776-1799). */
  function TransferSource(ir: byte): Option<Register> {
    match ir
    case 0xAA | 0xA8 => Some(A)
    case 0x8A | 0x9A => Some(X)
    case 0x98 => Some(Y)
    case 0xBA => Some(S)
    case _ => None
  }

  /** commitImpliedTransfer (1801-1829). */
  function TransferTarget(ir: byte): Option<Register> {
    match ir
    case 0xAA | 0xBA => Some(X)
    case 0xA8 => Some(Y)
    case 0x8A | 0x98 => Some(A)
    case 0x9A => Some(S)
    case _ => None
  }

  /** commitImpliedFlagOp (1835-1862). */
  function FlagOpOf(ir: byte): Option<(Flag, bool)> {
    match ir
    case 0x18 => Some((C, false))
    case 0x38 => Some((C, true))
    case 0x58 => Some((I, false))
    case 0x78 => Some((I, true))
    case 0xB8 => Some((V, false))
    case 0xD8 => Some((D, false))
    case 0xF8 => Some((D, true))
    case _ => None
  }

  /** commitLoadResult (1864-1896). */
  function LoadTarget(ir: byte): Option<Register> {
    match ir
    case 0xA9 | 0xA5 | 0xB5 | 0xAD | 0xBD | 0xB9 | 0xA1 | 0xB1 => Some(A)
    case 0xA2 | 0xA6 | 0xB6 | 0xAE | 0xBE => Some(X)
    case 0xA0 | 0xA4 | 0xB4 | 0xAC | 0xBC => Some(Y)
    case _ => None
  }

  /** storeSourceValue (2273-2294). */
  function StoreSource(ir: byte): Option<Register> {
    match ir
    case 0x85 | 0x95 | 0x8D | 0x9D | 0x99 | 0x81 | 0x91 => Some(A)
    case 0x86 | 0x96 | 0x8E => Some(X)
    case 0x84 | 0x94 | 0x8C => Some(Y)
    case _ => None
  }

  /** evaluateBranchCondition (307-329): the flag tested and the value that branches. */
  function ConditionOf(ir: byte): Option<(Flag, bool)> {
    match ir
    case 0x10 => Some((N, false))
    case 0x30 => Some((N, true))
    case 0x50 => Some((V, false))
    case 0x70 => Some((V, true))
    case 0x90 => Some((C, false))
    case 0xB0 => Some((C, true))
    case 0xD0 => Some((Z, false))
    case 0xF0 => Some((Z, true))
    case _ => None
  }

  /** commitImpliedPush (2949): P instead of A. */
  predicate PushesStatus(ir: byte) { ir == 0x08 }

  /** commitImpliedPull (2991): A instead of P. */
  predicate PullsAccumulator(ir: byte) { ir == 0x68 }

  // ---------- the switches on the T-state ----------

  /** The T-states a capture handler's own switch has cases for are T1 to this one. (That of
      captureRTI serves T2 to T5 by a default meant for them, which counts as a case.) */
  function CaptureCases(h: Handler): nat {
    match h
    case Access(Storing, AbsoluteX) => 3
    case Access(Storing, AbsoluteY) => 3
    case Access(Storing, IndirectY) => 4
    case _ => CommitCases(h)
  }

  /** The same for the commit handlers. */
  function CommitCases(h: Handler): nat {
    match h
    case Access(_, Immediate) => 1
    case Access(kind, ZeroPage) => if kind.Modifying? then 4 else 2
    case Access(kind, ZeroPageX) => if kind.Modifying? then 5 else 3
    case Access(_, ZeroPageY) => 3
    case Access(kind, Absolute) => if kind.Modifying? then 5 else 3
    case Access(kind, AbsoluteX) => if kind.Modifying? then 6 else 4
    case Access(_, AbsoluteY) => 4
    case Access(_, IndirectX) => 5
    case Access(_, IndirectY) => 5
    case Branching => 3
    case BRK => 6
    case JSR => 5
    case RTS => 5
    case RTI => 5
    case JMPAbsolute => 2
    case JMPIndirect => 4
    case ImpliedPush => 2
    case ImpliedPull => 3
    case _ => 1
  }
}
