# A verified model of the sys6 6502 computer

This project models a small 6502 computer and proves what its parts promise:

- the cycle-stepped processor core, a class whose methods are the clock phases and the
  capture/commit handlers, proved to refine a one-shot semantics of the instruction set
  (`Isa.dfy`) from every reachable state, with exact tick counts;
- the monitor firmware, its routines written instruction by instruction over registers,
  flags, stack, page zero and device registers, proved against pure specifications of the
  tape, the line editor, the hexadecimal texts and the command line;
- the bus, the terminal and tape device, and the system step they rest on.

## How the files fit together

| files | content |
|---|---|
| `Words`, `Memory` | bytes, words, bit operations on numbers; a flat 64K memory |
| `Instructions`, `Manual`, `Isa` | the instruction set: the manual's table as data and the one-shot semantics |
| `Switches`, `Dispatch` | the core's switches on the instruction register, one function each, and their agreement with each other and with the manual for all 256 bytes |
| `InstructionLaws` | the instruction set again, as laws over opcode bytes, cells and arithmetic |
| `Alu`, `TStates`, `Cpu6502` | the ALU, the state reached between T-states, and the core itself |
| `Stack`, `Multibyte` | consequences: the stack page as a stack, n-byte arithmetic |
| `Bus`, `Tty`, `System` | routing to devices, the device registers, terminal input |
| `Tape` | what SAVE, LOAD and REWIND mean for the tape, and the round trip |
| `Machine` | the machine of the firmware: one method per 6502 instruction, and memory framing |
| `SaveLoad`, `TapeSession` | SAVE, LOAD and REWIND, and whole sessions of them |
| `LineEditor`, `HexText`, `HexRoutines` | READ_LINE, the texts, the parsers and printers |
| `ListPoke`, `Commands` | LIST and POKE, and the command line that leads to the routines |
| `MachineIsa` | the firmware machine's methods agree with the one-shot semantics of their instructions |
| `FirmwareBytes`, `DispatchBytes` | HEXVAL, PRINT_NIBBLE and DISPATCH as ROM bytes run on the instruction set |

The central statement about the core is `CPU6502.Tick`. Ghost fields record the state an
instruction began in; `Valid` says that in T-state k the programmer-visible state is
`Partial(instruction, origin, k)` and the address and ALU latches hold what that T-state
needs. `Goal` is the state the one-shot semantics ends in and `Remaining` the ticks left;
every tick keeps the goal and takes one off `Remaining`. `ExecuteInstruction`, `Reset` and
`RunInstructions` follow from that, started in any reachable state and not only a settled one.

Most handlers end in a `default: break` commented as unreachable. That is proved of every
commit handler (`CommitsHaveCases`) and is false of three capture handlers: STA abs,X and
STA abs,Y are captured in T4, and STA (ind),Y in T5, by switches without such a case.
`StrayCaptures` says that it happens for exactly these opcodes ($9D, $99, $91) in exactly
these T-states, and `OnClockHigh` that nothing is latched or read there and nothing had to be.

The functions that a routine and its specification share are pinned a second time by laws that
do not use them. `InstructionLaws` says what a step does from opcode bytes, memory cells, sums and
bits alone, down to which flag each branch reads and how far PC and SP have moved in each T-state,
and that the manual's table follows the fields of the opcode byte; `BytesBitwise` gives AND, OR,
XOR and complement bit by bit. On the firmware side the laws are in ASCII codes and positions:
`KeyLaw` and `EchoLaw` for the line editor, `RouteLaw` for the command line, `ListingLaw` for every
character of a listing, `PokeLaw`, and `BlockLaw` for the bytes of a block on tape, whose checksum
is the parity of each bit. DISPATCH is also run as ROM bytes (`DispatchFollowsGrammar`,
`RangeBegins`, `RangeFollowsGrammar`), so that the target of its tail jump decides the routine.

Firmware routines state memory effects with two kinds of frame: the routine's own cells,
and the stack cells below SP that its calls use (`Scratch`). What a routine requires of the
place of a block is a sufficient condition: clear of the device page and of the cells that
steer the routine's own loop, and, for blocks that are to be read back, in RAM and clear of
the stack cells in use.

Properties that do not hold without a condition are stated with it, and the condition is
shown to be needed:

- the loops of SAVE and LIST reach their exit exactly when END is below $FFFF, in
  END - START + 1 turns (`SaveTurns`, `ListTurns`, on any range);
- a bus write is a write to the flat memory exactly when the RAM it changes is mapped at no
  other range (`Bus.Write`, with `MirroredRamIsNotFlat` as an instance);
- a rubout undoes a character exactly when the buffer was not full (`RuboutUndoes`);
- a push on a full stack page keeps the bytes below it exactly when the oldest of them is the
  byte pushed (`PushOnFullStack`), and d nested calls come back behind the first one exactly
  when d is at most 128 or the last call whose frame took its place sits at its address
  (`NestedCallsReturnIff`; `ChainGoesAstray` is a program of 129 calls that does not).

Where the code departs from a real 6502 the model follows the code: JSR fetches its high
operand byte after its pushes, PHP and BRK set the live B flag, JMP (ind) wraps within the
page, ADC and SBC ignore D, and unlisted opcodes take two T-states.

## Model

| member | source | states |
|---|---|---|
| `Dispatch.DispatchFollowsManual` | src/cpu/cpu6502.cpp:358-610 | for each of the 256 opcode bytes, the switches of both clock halves (onClockHigh, onClockLow) and the switches on m_IR inside the handlers they call, each modelled over its own case labels, amount together to the instruction the manual lists; the 105 unlisted bytes reach both outer defaults, which call no handler pair |
| `Dispatch.StrayCaptures` | src/cpu/cpu6502.cpp:2427-2585 | a capture default commented as unreachable is reached exactly by $9D and $99 in T4 and by $91 in T5, whatever the state |
| `Dispatch.CommitsHaveCases` | src/cpu/cpu6502.cpp:612-866 | no commit handler is called in a T-state its switch has no case for, for any opcode and state |
| `Dispatch.CyclesFollowManual` | docs/6502-manual.md:9-161 | for every opcode and operand, the T-states the core takes are the manual's count, plus one exactly for an indexed read that crosses a page, plus one or two for a taken branch; two for unlisted bytes; never fewer than two or more than seven |
| `Dispatch.LengthFollowsManual` | docs/6502-manual.md:9-161 | every instruction that is not a jump, call, return, branch or BRK moves PC by the manual's byte count |
| `Words.BytesBitwise` | src/cpu/alu.cpp:9-14 | AND, OR, XOR and the complement of bytes, bit by bit |
| `InstructionLaws.OpcodesFollowEncoding` | docs/6502-manual.md:9-161 | for all 256 bytes, the manual's instruction is the one given by the opcode's fields aaabbbcc: operation, addressing mode, branch flag and sense |
| `InstructionLaws.AddressingLaw` | src/cpu/cpu6502.cpp:1108-1231 | the effective address of each of the nine modes, with its wrap within page zero or 64K, from operand bytes and registers |
| `InstructionLaws.CrossingLaw` | src/cpu/cpu6502.cpp:1207-1231 | the extra T-state is due exactly when indexing leaves the page |
| `InstructionLaws.LoadStoreLaw` | src/cpu/cpu6502.cpp:1864-2294 | LDA, LDX, LDY set their register, Z and N; STA, STX, STY write their register; PC moves by the instruction's bytes |
| `InstructionLaws.AdditionLaw` | src/cpu/cpu6502.cpp:1010-1034 | ADC: sum, carry, signed overflow, Z and N as arithmetic |
| `InstructionLaws.SubtractionLaw` | src/cpu/cpu6502.cpp:1010-1034 | SBC: difference, no-borrow carry, signed overflow, Z and N as arithmetic |
| `InstructionLaws.LogicLaw` | src/cpu/cpu6502.cpp:1036-1098 | AND, ORA and EOR bit by bit with Z and N; BIT's Z, N and V |
| `InstructionLaws.CompareLaw` | src/cpu/cpu6502.cpp:1079-1083 | CMP, CPX, CPY: C for >=, Z for =, N of the difference |
| `InstructionLaws.ShiftLaw` | src/cpu/cpu6502.cpp:1451-1541 | the value and C after each shift and rotate as one nine-bit number; INC and DEC mod 256 with C kept |
| `InstructionLaws.RotatesAreInverse` | src/cpu/alu.cpp:19-22 | ROR undoes ROL and ROL undoes ROR, carry included |
| `InstructionLaws.ModifyLaw` | src/cpu/cpu6502.cpp:1543-1737 | shifts and steps of a cell write that cell, of the accumulator write A |
| `InstructionLaws.StepRegisterLaw` | src/cpu/cpu6502.cpp:1739-1774 | INX, INY, DEX, DEY by opcode byte: mod 256, Z and N |
| `InstructionLaws.TransferLaw` | src/cpu/cpu6502.cpp:1776-1829 | the six transfers by opcode byte; TXS leaves the flags |
| `InstructionLaws.FlagLaw` | src/cpu/cpu6502.cpp:1831-1862 | the seven flag instructions by opcode byte: which bit, which value |
| `InstructionLaws.BranchLaw` | src/cpu/cpu6502.cpp:307-329 | each of the eight branch bytes: the flag bit it reads, its target forward or backward mod 65536, its T-states |
| `InstructionLaws.JumpLaw` | src/cpu/cpu6502.cpp:2809-2889 | JMP, JMP (ind) with its pointer kept in the page, NOP |
| `InstructionLaws.UnlistedLaw` | src/cpu/cpu6502.cpp:861-865 | an unlisted byte moves PC past it in two T-states |
| `InstructionLaws.CallLaw` | src/cpu/cpu6502.cpp:2710-2757 | JSR: both cells written, SP, and a target whose high byte is read after the pushes |
| `InstructionLaws.ReturnLaw` | src/cpu/cpu6502.cpp:2759-2807 | RTS: one past the word above SP |
| `InstructionLaws.StackLaw` | src/cpu/cpu6502.cpp:2931-3003 | PHA, PLA, PHP, PLP: cell, SP, and P bit by bit with B set by PHP |
| `InstructionLaws.BreakLaw` | src/cpu/cpu6502.cpp:2653-2708 | BRK: three cells, SP, B and I, halt, vector at $FFFE |
| `InstructionLaws.InterruptReturnLaw` | src/cpu/cpu6502.cpp:2891-2929 | RTI: P bit by bit and PC from the three cells above SP |
| `InstructionLaws.ResetLaw` | src/cpu/cpu6502.cpp:3005-3059 | PC from $FFFC, SP down by three mod 256, I set, halt cleared, all else kept |
| `InstructionLaws.RunLaw` | src/cpu/cpu6502.cpp:227-232 | a run is its steps in order up to the first halt and no further |
| `InstructionLaws.TStateLaw` | src/cpu/cpu6502.cpp:612-866 | in every T-state of every instruction: how far PC and SP have moved, and that only BRK and JSR have written and only RTI and BRK changed P before the last commit |
| `InstructionLaws.ResetTStateLaw` | src/cpu/cpu6502.cpp:3027-3059 | the same for each T-state of a reset |
| `Alu.AdditionFlags` | src/cpu/alu.cpp:5-8 | carry is the ninth bit of the sum and the overflow formula holds exactly when the signed sum leaves [-128, 127] |
| `Alu.SubtractionFlags` | src/cpu/cpu6502.cpp:303-305 | adding the complement gives the difference mod 256, carry means no borrow, and the overflow formula holds exactly when the signed difference leaves [-128, 127] |
| `TStates.AdderAdds` | src/cpu/cpu6502.cpp:1010-1034 | what ADC commits from the ALU latches is the arithmetic sum with its four flags; D is ignored |
| `TStates.AdderSubtracts` | src/cpu/cpu6502.cpp:1010-1034 | what SBC commits is the arithmetic difference with its four flags; D is ignored |
| `TStates.ComparatorComputes` | src/cpu/cpu6502.cpp:1079-1083 | CMP, CPX and CPY commit C for register >= operand, Z for equality, N of the difference |
| `TStates.UnaryComputes` | src/cpu/alu.cpp:15-22 | shifts, rotates, INC and DEC through the ALU give the one-shot result and flags |
| `TStates.PassThrough` | src/cpu/cpu6502.cpp:1864-1896 | the pass-through used by loads and transfers delivers the operand unchanged |
| `TStates.BrkStates` | src/cpu/cpu6502.cpp:2674-2708 | the visible state in each T-state of BRK, from one to the next: PC past the padding byte, three pushes high byte first, then the vector |
| `Cpu6502.IndexCrossesByCarry` | src/cpu/cpu6502.cpp:1207-1231 | the high bytes differ exactly when the index carries out of the low byte |
| `Cpu6502.CPU6502.Tick` | src/cpu/cpu6502.cpp:331-350 | invariant over every reachable state; the clock goes Low, LowToHigh, High, HighToLow; visible state moves only on the tick that reaches Low; the work in progress keeps its end state and is one tick nearer to it; it ends exactly when the clock is back at T0/Low, in the state of the one-shot semantics; at most one bus access per T-state |
| `Cpu6502.CPU6502.Settle` | src/cpu/cpu6502.cpp:331-350 | one phase: the ALU output is that of its latches, and the stage invariant of the current T-state is handed on or the instruction is finished |
| `Cpu6502.CPU6502.OnClockHigh` | src/cpu/cpu6502.cpp:358-610 | every capture reached from the dispatch leaves the latches its T-state owes; a default commented as unreachable is taken exactly for the captures of StrayCaptures, and then no latch and no bus access differs from before |
| `Cpu6502.CPU6502.OnClockLow` | src/cpu/cpu6502.cpp:612-866 | every commit reached from the dispatch goes to the next T-state or ends in the one-shot result; no commit default is reached but that of the dispatch itself for unlisted bytes, which returns to T0 |
| `Cpu6502.CPU6502.CaptureHandler` | src/cpu/cpu6502.cpp:366-609 | the switch of onClockHigh leads to the handler the instruction needs, whose latches result; the three stray captures change nothing |
| `Cpu6502.CPU6502.CaptureInstruction` | src/cpu/cpu6502.cpp:358-610 | in every T-state of every instruction the capture half leaves the latches owed; strays exactly where StrayCaptures says |
| `Cpu6502.CPU6502.BreakUncaptured` | src/cpu/cpu6502.cpp:2443-2447 | where a store's capture switch has no case, the address is already complete and the invariant holds with nothing latched |
| `Cpu6502.CPU6502.CommitHandler` | src/cpu/cpu6502.cpp:612-866 | the switch of onClockLow leads to the handler the instruction needs, called only in T-states its own switch has a case for |
| `Cpu6502.CPU6502.CommitUnimplemented` | src/cpu/cpu6502.cpp:861-865 | an unlisted byte ends in its first commit with PC past it and nothing else changed |
| `Cpu6502.CPU6502.RunToClockHigh` | src/cpu/cpu6502.cpp:352-356 | ends at High after the phases left to it: four from High, otherwise one to three |
| `Cpu6502.CPU6502.ExecuteInstruction` | src/cpu/cpu6502.cpp:278-286 | terminates from every reachable state within 28 ticks and in exactly the ticks left; when settled, the result is one step of the one-shot semantics |
| `Cpu6502.CPU6502.BeginReset` | src/cpu/cpu6502.cpp:266-269 | at any point of any instruction the invariant survives and the goal becomes the reset state |
| `Cpu6502.CPU6502.Reset` | src/cpu/cpu6502.cpp:271-276 | from every reachable state: PC from the vector, SP down by three, I set, halt cleared, all else and memory kept, in 25 to 28 ticks fixed by the phase |
| `Cpu6502.CPU6502.RunInstructions` | src/cpu/cpu6502.cpp:227-232 | equals that many one-shot steps, stopping at a halt |
| `Cpu6502.CPU6502.RemainingIsBounded` | src/cpu/cpu6502.cpp:278-286 | the termination measure lies between 1 and 28 in every reachable state |
| `Cpu6502.CPU6502.constructor` | src/cpu/cpu6502.cpp:201-201 | a new core satisfies the invariant, settled, with all registers and flags zero |
| `Cpu6502.CPU6502.ApplyBinaryAluOp` | src/cpu/cpu6502.cpp:929-1008 | for the operation its switch on m_IR gives, the latches are set so that the ALU computes it on the right register and the operand |
| `Cpu6502.CPU6502.ApplyUnaryAluOp` | src/cpu/cpu6502.cpp:1451-1496 | for the operation its switch on m_IR gives, the latches are set so that the ALU computes that shift, rotate or step |
| `Cpu6502.CPU6502.BeginBinaryAluOp` | src/cpu/cpu6502.cpp:899-927 | each two-operand operation is wired so that the ALU output is its result: complement and forced carry for comparisons, complement for SBC |
| `Cpu6502.CPU6502.CommitBinaryAluResult` | src/cpu/cpu6502.cpp:1010-1098 | registers and flags become those of the one-shot arithmetic |
| `Cpu6502.CPU6502.CommitUnaryAluFlags` | src/cpu/cpu6502.cpp:1498-1541 | output and flags are those of the one-shot operation |
| `Cpu6502.CPU6502.CommitLoadResult` | src/cpu/cpu6502.cpp:1864-1896 | the register its switch on m_IR names takes the output, Z and N follow it |
| `Cpu6502.CPU6502.CompleteWord` | src/cpu/cpu6502.cpp:1108-1123 | a byte latch and the byte read make the little-endian word |
| `Cpu6502.CPU6502.ResolveIndexed` | src/cpu/cpu6502.cpp:1207-1231 | effective address with 16-bit wrap; crossing recorded for reads and loads only |
| `Cpu6502.CPU6502.LatchOperand` | src/cpu/cpu6502.cpp:1145-1156 | the operand enters the ALU latches as its family needs it |
| `Cpu6502.CPU6502.CommitOperand` | src/cpu/cpu6502.cpp:1864-1896 | the last commit of a memory-operand instruction is the one-shot result |
| `Cpu6502.CPU6502.CaptureImmediate` | src/cpu/cpu6502.cpp:1100-1100 | latches of this addressing mode agree with the one-shot effective address, T-state by T-state, for reads, loads, stores and read-modify-write alike |
| `Cpu6502.CPU6502.CommitImmediate` | src/cpu/cpu6502.cpp:1102-1106 | PC, step and, in the last T-state, the one-shot result; stores and read-modify-write have fixed length, reads and loads skip the fix-up T-state when no page is crossed |
| `Cpu6502.CPU6502.CaptureZeroPage` | src/cpu/cpu6502.cpp:1551-1566 | latches of this addressing mode agree with the one-shot effective address, T-state by T-state, for reads, loads, stores and read-modify-write alike |
| `Cpu6502.CPU6502.CommitZeroPage` | src/cpu/cpu6502.cpp:1568-1588 | PC, step and, in the last T-state, the one-shot result; stores and read-modify-write have fixed length, reads and loads skip the fix-up T-state when no page is crossed |
| `Cpu6502.CPU6502.CaptureZeroPageIndexed` | src/cpu/cpu6502.cpp:1590-1608 | latches of this addressing mode agree with the one-shot effective address, T-state by T-state, for reads, loads, stores and read-modify-write alike |
| `Cpu6502.CPU6502.CommitZeroPageIndexed` | src/cpu/cpu6502.cpp:1610-1633 | PC, step and, in the last T-state, the one-shot result; stores and read-modify-write have fixed length, reads and loads skip the fix-up T-state when no page is crossed |
| `Cpu6502.CPU6502.CaptureAbsolute` | src/cpu/cpu6502.cpp:1635-1653 | latches of this addressing mode agree with the one-shot effective address, T-state by T-state, for reads, loads, stores and read-modify-write alike |
| `Cpu6502.CPU6502.CommitAbsolute` | src/cpu/cpu6502.cpp:1655-1679 | PC, step and, in the last T-state, the one-shot result; stores and read-modify-write have fixed length, reads and loads skip the fix-up T-state when no page is crossed |
| `Cpu6502.CPU6502.CaptureAbsoluteIndexed` | src/cpu/cpu6502.cpp:1681-1708 | latches of this addressing mode agree with the one-shot effective address, T-state by T-state; a store's T4 has no case and changes nothing (src/cpu/cpu6502.cpp:2427-2447, 2471-2492) |
| `Cpu6502.CPU6502.CommitAbsoluteIndexed` | src/cpu/cpu6502.cpp:1710-1737 | PC, step and, in the last T-state, the one-shot result; stores and read-modify-write have fixed length, reads and loads skip the fix-up T-state when no page is crossed |
| `Cpu6502.CPU6502.CaptureIndirectX` | src/cpu/cpu6502.cpp:2163-2185 | latches of this addressing mode agree with the one-shot effective address, T-state by T-state, for reads, loads, stores and read-modify-write alike |
| `Cpu6502.CPU6502.CommitIndirectX` | src/cpu/cpu6502.cpp:2187-2209 | PC, step and, in the last T-state, the one-shot result; stores and read-modify-write have fixed length, reads and loads skip the fix-up T-state when no page is crossed |
| `Cpu6502.CPU6502.CaptureIndirectY` | src/cpu/cpu6502.cpp:2211-2242 | latches of this addressing mode agree with the one-shot effective address, T-state by T-state; a store's T5 has no case and changes nothing (src/cpu/cpu6502.cpp:2562-2585) |
| `Cpu6502.CPU6502.CommitIndirectY` | src/cpu/cpu6502.cpp:2244-2271 | PC, step and, in the last T-state, the one-shot result; stores and read-modify-write have fixed length, reads and loads skip the fix-up T-state when no page is crossed |
| `Cpu6502.CPU6502.CaptureShiftAccumulator` | src/cpu/cpu6502.cpp:1543-1543 | in each T-state it is called in, the latches it owes |
| `Cpu6502.CPU6502.CommitShiftAccumulator` | src/cpu/cpu6502.cpp:1545-1549 | in each T-state it is called in, the next T-state's visible state or the one-shot result |
| `Cpu6502.CPU6502.CaptureImpliedIncDec` | src/cpu/cpu6502.cpp:1739-1756 | in each T-state it is called in, the latches it owes |
| `Cpu6502.CPU6502.CommitImpliedIncDec` | src/cpu/cpu6502.cpp:1758-1774 | in each T-state it is called in, the next T-state's visible state or the one-shot result |
| `Cpu6502.CPU6502.CaptureImpliedTransfer` | src/cpu/cpu6502.cpp:1776-1799 | in each T-state it is called in, the latches it owes |
| `Cpu6502.CPU6502.CommitImpliedTransfer` | src/cpu/cpu6502.cpp:1801-1829 | in each T-state it is called in, the next T-state's visible state or the one-shot result |
| `Cpu6502.CPU6502.CommitImpliedFlagOp` | src/cpu/cpu6502.cpp:1835-1862 | in each T-state it is called in, the next T-state's visible state or the one-shot result |
| `Cpu6502.CPU6502.CommitNOP` | src/cpu/cpu6502.cpp:2889-2889 | in each T-state it is called in, the next T-state's visible state or the one-shot result |
| `Cpu6502.CPU6502.CaptureBranch` | src/cpu/cpu6502.cpp:2611-2628 | in each T-state it is called in, the latches it owes |
| `Cpu6502.CPU6502.CommitBranch` | src/cpu/cpu6502.cpp:2630-2651 | 2, 3 or 4 T-states by taken and crossed, ending at the one-shot target |
| `Cpu6502.CPU6502.CaptureBRK` | src/cpu/cpu6502.cpp:2653-2672 | in each T-state it is called in, the latches it owes |
| `Cpu6502.CPU6502.CommitBRK` | src/cpu/cpu6502.cpp:2674-2708 | pushes PC+2 high first, then P with B set, sets I, halts and ends at the vector |
| `Cpu6502.CPU6502.CaptureJSR` | src/cpu/cpu6502.cpp:2710-2727 | the high operand byte is read after both pushes, through whatever they overwrote |
| `Cpu6502.CPU6502.CommitJSR` | src/cpu/cpu6502.cpp:2729-2757 | pushes PC+2 and ends at the target read after the pushes |
| `Cpu6502.CPU6502.CaptureRTS` | src/cpu/cpu6502.cpp:2759-2778 | in each T-state it is called in, the latches it owes |
| `Cpu6502.CPU6502.CommitRTS` | src/cpu/cpu6502.cpp:2780-2807 | in each T-state it is called in, the next T-state's visible state or the one-shot result |
| `Cpu6502.CPU6502.CaptureJMPAbsolute` | src/cpu/cpu6502.cpp:2809-2820 | in each T-state it is called in, the latches it owes |
| `Cpu6502.CPU6502.CommitJMPAbsolute` | src/cpu/cpu6502.cpp:2822-2835 | in each T-state it is called in, the next T-state's visible state or the one-shot result |
| `Cpu6502.CPU6502.CaptureJMPIndirect` | src/cpu/cpu6502.cpp:2837-2861 | the pointer's high byte comes from the same page |
| `Cpu6502.CPU6502.CommitJMPIndirect` | src/cpu/cpu6502.cpp:2863-2883 | in each T-state it is called in, the next T-state's visible state or the one-shot result |
| `Cpu6502.CPU6502.CaptureRTI` | src/cpu/cpu6502.cpp:2891-2899 | in each T-state it is called in, the latches it owes |
| `Cpu6502.CPU6502.CommitRTI` | src/cpu/cpu6502.cpp:2901-2929 | P, then PC, pulled in order with wrapping SP |
| `Cpu6502.CPU6502.CaptureImpliedPush` | src/cpu/cpu6502.cpp:2931-2941 | in each T-state it is called in, the latches it owes |
| `Cpu6502.CPU6502.CommitImpliedPush` | src/cpu/cpu6502.cpp:2943-2962 | PHP sets the live B flag and pushes it set |
| `Cpu6502.CPU6502.CaptureImpliedPull` | src/cpu/cpu6502.cpp:2964-2977 | in each T-state it is called in, the latches it owes |
| `Cpu6502.CPU6502.CommitImpliedPull` | src/cpu/cpu6502.cpp:2979-3003 | in each T-state it is called in, the next T-state's visible state or the one-shot result |
| `Cpu6502.CPU6502.CaptureOpcodeFetch` | src/cpu/cpu6502.cpp:880-880 | in each T-state it is called in, the latches it owes |
| `Cpu6502.CPU6502.CommitOpcodeFetch` | src/cpu/cpu6502.cpp:882-893 | in each T-state it is called in, the next T-state's visible state or the one-shot result |
| `Cpu6502.CPU6502.CaptureReset` | src/cpu/cpu6502.cpp:3005-3025 | in each T-state it is called in, the latches it owes |
| `Cpu6502.CPU6502.CommitReset` | src/cpu/cpu6502.cpp:3027-3059 | three silent stack moves, I set, PC from the vector; no bus write |
| `StackDiscipline.PushIsCons` | src/cpu/cpu6502.cpp:2674-2708 | a push puts one byte in front of the stack and leaves the others, SP wrapping, while depth <= 256 |
| `StackDiscipline.PullIsHead` | src/cpu/cpu6502.cpp:2979-3003 | a pull takes the byte in front and leaves the rest |
| `StackDiscipline.PushOnFullStack` | src/cpu/cpu6502.cpp:2674-2708 | with 256 bytes on the stack, a push keeps them below the new byte exactly when the oldest of them has the value pushed |
| `StackDiscipline.OthersKeepSp` | src/cpu/cpu6502.cpp:612-866 | no instruction but those of the stack and TXS changes SP, and of those none but stores and read-modify-write changes memory |
| `StackDiscipline.CallReturns` | src/cpu/cpu6502.cpp:2759-2807 | an RTS that finds the stack as JSR left it returns to the call address + 3 with SP and the older bytes as before |
| `StackDiscipline.SaveRestores` | src/cpu/cpu6502.cpp:2931-3003 | PHA/PLA and PHP/PLP around anything that keeps the stack give back A, or P with B set, and SP |
| `StackDiscipline.WellNestedRunsReturn` | src/cpu/cpu6502.cpp:2710-2807 | by induction over every well-nested run of calls and saves: each call returns past itself, SP and the live bytes are restored |
| `StackDiscipline.CallsNeedTwoBytesEach` | src/cpu/cpu6502.cpp:2710-2757 | calls nested d deep need 2d bytes of the stack page |
| `StackDiscipline.NestedCallsReturnIff` | src/cpu/cpu6502.cpp:2710-2807 | d nested JSRs and d RTSs bring control behind the first JSR exactly when d <= 128 or call (d-1)/128*128, whose frame ends in its cells, sits at the same address; for every d and start |
| `StackDiscipline.DeepCallReturns` | src/cpu/cpu6502.cpp:2710-2807 | for every d, SP comes back and the outermost RTS continues behind call (d-1)/128*128 |
| `StackDiscipline.ChainGoesAstray` | src/cpu/cpu6502.cpp:2710-2807 | a concrete program of 129 nested calls whose last return goes behind the 129th call and not the first |
| `StackDiscipline.BrkFrame` | src/cpu/cpu6502.cpp:2674-2708 | the frame BRK pushes is P with B set, then its return address, below the older bytes |
| `StackDiscipline.RtiPulls` | src/cpu/cpu6502.cpp:2901-2929 | RTI takes status and return address off the stack and leaves the rest of the state |
| `StackDiscipline.BrkThenRti` | src/cpu/cpu6502.cpp:2891-2929 | BRK, then RTI at its vector, restores SP and P with B set and continues at BRK + 2 |
| `StackDiscipline.FlagsRoundTrip` | src/cpu/cpu6502.cpp:234-236 | packing the flags into P and unpacking them is the identity |
| `Multibyte.AddChainAdds` | src/cpu/cpu6502.cpp:1010-1034 | for every n, an ADC chain over n little-endian bytes is n-byte addition with carry out |
| `Multibyte.SubtractChainSubtracts` | src/cpu/cpu6502.cpp:1010-1034 | for every n, an SBC chain is n-byte subtraction mod 256^n with borrow |
| `Multibyte.ChainCarry` | src/cpu/cpu6502.cpp:1010-1034 | the final carry says whether the sum overflowed, or whether minuend >= subtrahend |
| `DeviceBus.RoutingIsUnique` | src/memory/bus.cpp:25-32 | with disjoint ranges an address has the one device that covers it |
| `DeviceBus.RoutingIgnoresOrder` | src/memory/bus.cpp:6-32 | the same ranges attached in another order route every address alike |
| `DeviceBus.WriteRefinesFlat` | src/memory/bus.cpp:45-54 | a delegated write changes exactly one cell of the flat 64K memory, or none for ROM |
| `DeviceBus.UnmappedIsUnmapped` | src/memory/bus.cpp:34-43 | an unmapped address reads $FF and ignores writes |
| `DeviceBus.MirrorDiffers` | src/memory/bus.cpp:45-54 | any write that changes a RAM mapped at two ranges is not a write to the flat memory |
| `DeviceBus.MirroredRamIsNotFlat` | src/memory/bus.cpp:45-54 | with one RAM attached twice the flat view fails: concrete layout and write |
| `DeviceBus.Bus.Attach` | src/memory/bus.cpp:6-23 | which of the three errors is raised and when; a refused attach changes nothing, an accepted one keeps ranges disjoint and size-matched |
| `DeviceBus.Bus.FindMapping` | src/memory/bus.cpp:25-32 | the index of the mapping that covers the address, or none |
| `DeviceBus.Bus.Read` | src/memory/bus.cpp:34-43 | for every mapping that covers the address, the byte of its device at address minus start; $FF when none does; so reads are those of the flat memory, and every delegated offset is in bounds |
| `DeviceBus.Bus.Deliver` | src/memory/bus.cpp:45-54 | the byte of the covering RAM at the address's offset takes the value; a ROM, and every device not mapped there, keeps its bytes |
| `DeviceBus.Bus.Write` | src/memory/bus.cpp:45-54 | the covering RAM's byte at address minus start takes the value and no other device changes; it is a write of the flat memory exactly when the RAM it changes is mapped at no other range, always so when no device is attached twice |
| `TtyDevice.TTY.Read` | src/peripherals/tty.cpp:3-11 | register read: value and new device state; it is one step of the one-head tape, delivers only the pending byte, and sends nothing |
| `TtyDevice.TTY.Write` | src/peripherals/tty.cpp:13-22 | register write: one step of the one-head tape; the pending byte is untouched and only a DATA write reaches the output |
| `TtyDevice.TTY.ReadSerial` | src/peripherals/tty.cpp:24-35 | STATUS counts the pending byte, DATA returns the held byte and leaves none pending; tape head and output untouched |
| `TtyDevice.OutputIsTransmitted` | src/peripherals/tty.cpp:37-42 | over every run of accesses the terminal gets exactly the bytes written to serial DATA, in order |
| `TtyDevice.AcceptedIsFetched` | src/peripherals/tty.cpp:24-50 | over every run of accesses, the bytes accepted while the register was free are those fetched while STATUS said so and the one still held, in order: none lost, doubled or overwritten |
| `TtyDevice.TTY.ReadTape` | src/peripherals/tty.cpp:52-89 | status bits; a data read is one step of the one-head tape or sets EOT and ERROR; pending byte and output untouched |
| `TtyDevice.TTY.WriteTape` | src/peripherals/tty.cpp:91-114 | motor, rewind strobe and data write are one step of the one-head tape; pending byte and output untouched |
| `TtyDevice.StatusBits` | src/peripherals/tty.cpp:24-71 | RXRDY, TXRDY, PRESENT, MOTOR, EOT and ERROR each in its bit of the status registers |
| `TtyDevice.RegisterLaw` | src/peripherals/tty.cpp:3-89 | the value of every register read, 0 where there is nothing to read |
| `TtyDevice.DeviceRefinesHead` | src/peripherals/tty.cpp:52-114 | over every run of accesses the head stays on the tape and the device is one head over one byte sequence |
| `TtyDevice.DataAccessIsLocal` | src/peripherals/tty.cpp:73-113 | a failed access changes neither head nor contents; a good one moves the head by one and a write changes exactly that cell |
| `TtyDevice.ErrorReflectsLastAccess` | src/peripherals/tty.cpp:52-114 | over every run, ERROR is the outcome of the last data access since the last rewind |
| `SystemInput.System.Step` | src/system/system.cpp:20-31 | for arbitrary device accesses by the instruction: typed bytes = delivered ++ pending ++ not yet polled, in order |
| `SystemInput.System.BusRead` | src/peripherals/tty.cpp:24-35 | a DATA read while RXRDY delivers the pending byte; conservation holds |
| `SystemInput.System.BusWrite` | src/peripherals/tty.cpp:37-42 | writes deliver nothing; conservation holds |
| `TapeBlocks.SavesLayOutBlocks` | src/system/monitor_firmware.cpp:473-532 | any number of SAVEs overwrite the tape from the head with the concatenated blocks |
| `TapeBlocks.BlockLaw` | src/system/monitor_firmware.cpp:500-525 | a block byte by byte: length low, length high, the data, and in its last byte the parity of each bit of the data |
| `TapeBlocks.ChecksumIsParity` | src/system/monitor_firmware.cpp:515-516 | each bit of the checksum is the parity of that bit over all bytes |
| `TapeBlocks.OverLaw` | src/peripherals/tty.cpp:102-114 | bytes written from a head position on replace or extend the tape there and nowhere else |
| `TapeBlocks.LoadReadsBlock` | src/system/monitor_firmware.cpp:545-606 | LOAD at the start of a block, wherever it lies, yields its data, accepts it and stops behind it |
| `TapeBlocks.LoadsReadBlocks` | src/system/monitor_firmware.cpp:545-606 | k LOADs from the start of k blocks give their data in order without an error line |
| `TapeBlocks.TapeRoundTrip` | src/system/monitor_firmware.cpp:473-627 | SAVEs from position 0, REWIND, as many LOADs: the same data in the same order, no error line |
| `TapeBlocks.ChecksumSeesOneByte` | src/system/monitor_firmware.cpp:515-516 | changing any one byte changes the XOR |
| `TapeBlocks.OneBadByteIsReported` | src/system/monitor_firmware.cpp:545-606 | a saved block with one data or checksum byte changed is never accepted |
| `SaveLoad.Save` | src/system/monitor_firmware.cpp:473-532 | error line and nothing else without a tape or with END before START; otherwise the block of START..END on the tape, motor off, only SAVE's cells changed; the bytes are those SAVE sees, its own cells and the device registers included, and memory's wherever the range is clear of them |
| `SaveLoad.SaveTurn` | src/system/monitor_firmware.cpp:504-520 | one turn: the byte seen under the cursor on the tape and in the checksum, the cursor one further |
| `SaveLoad.SaveTurns` | src/system/monitor_firmware.cpp:504-520 | the loop run for at most n turns, on any range and device state, reaches its exit exactly when END < START, or END < $FFFF and END - START < n: with END = $FFFF in no number of turns |
| `SaveLoad.CursorInRange` | src/system/monitor_firmware.cpp:504-511 | the two-byte compare is 16-bit START <= END |
| `SaveLoad.RangeOk` | src/system/monitor_firmware.cpp:478-485 | the range check is 16-bit START <= END |
| `SaveLoad.SubtractPointers` | src/system/monitor_firmware.cpp:488-494 | the two-byte SBC chain is the 16-bit difference |
| `SaveLoad.ComputeLength` | src/system/monitor_firmware.cpp:488-499 | LEN is END - START + 1 and the checksum starts at 0 |
| `SaveLoad.IncPointer` | src/system/monitor_firmware.cpp:517-519 | INC low and INC high on zero is a 16-bit increment |
| `SaveLoad.SaveData` | src/system/monitor_firmware.cpp:504-520 | every byte of the range as SAVE sees it, in order, on the tape, their XOR in the checksum cell |
| `SaveLoad.SaveBlock` | src/system/monitor_firmware.cpp:486-525 | header, data and checksum over the tape at the head |
| `SaveLoad.OutcomeParts` | src/system/monitor_firmware.cpp:545-606 | the parts of a LOAD: header, min(LEN, what is left) data bytes, checksum, and where the head ends |
| `SaveLoad.ReadTapeByte` | src/system/monitor_firmware.cpp:596-606 | carry clear and the byte under the head, or carry set at the end of the tape; SP balanced |
| `SaveLoad.DecLength` | src/system/monitor_firmware.cpp:574-577 | 16-bit decrement with wrap |
| `SaveLoad.NoneLeft` | src/system/monitor_firmware.cpp:560-562 | OR of the two bytes is zero exactly when LEN is |
| `SaveLoad.LoadData` | src/system/monitor_firmware.cpp:560-578 | terminates by LEN; exactly the available prefix is stored, its XOR in the checksum cell |
| `SaveLoad.VerifyChecksum` | src/system/monitor_firmware.cpp:579-582 | accepts exactly when the byte is there and equals the running XOR |
| `SaveLoad.Load` | src/system/monitor_firmware.cpp:545-606 | on any tape and head, for a target clear of LOAD's cells: the available prefix of the data is stored and nothing else, error line exactly when the block is cut short or its XOR differs, motor off, SP balanced |
| `SaveLoad.LoadEnds` | src/system/monitor_firmware.cpp:545-606 | for any target, LOAD's own cells and cursor included, from which no byte goes into a driving device register: it ends, motor off, SP balanced, the tape unchanged with the head on it |
| `SaveLoad.ClearStaysOff` | src/system/monitor_firmware.cpp:560-578 | targets clear of the cursor and of those registers never reach them, whatever happens to LEN |
| `SaveLoad.CursorIsSteered` | src/system/monitor_firmware.cpp:560-578 | a byte $7F stored at $F1 leads the cursor to $7FF2 and so, 17 bytes on, into the tape control register |
| `SaveLoad.CallLoad` | src/system/monitor_firmware.cpp:545-606 | called by JSR it returns to its caller unless the data lands on the return address |
| `SaveLoad.Rewind` | src/system/monitor_firmware.cpp:613-627 | position 0, EOT and ERROR clear, motor off; without a tape the error line |
| `TapeSession.SaveRewindLoad` | src/system/monitor_firmware.cpp:473-627 | run as firmware: any number of ranges saved, rewound and loaded back are in memory at their targets, in order, with no error line |
| `TapeSession.SaveRanges` | src/system/monitor_firmware.cpp:473-532 | any number of SAVE commands put the contents of their ranges on the tape in order |
| `TapeSession.LoadAll` | src/system/monitor_firmware.cpp:545-606 | each next block at its target, earlier ones kept |
| `LineEditor.GetChar` | src/system/monitor_firmware.cpp:44-49 | returns the next byte typed, however long the terminal takes; a further byte may arrive before it returns |
| `LineEditor.ReadLine` | src/system/monitor_firmware.cpp:390-420 | the buffer holds the fold of the keys before RETURN, the echo is a function of the keys, keys after RETURN are left; no store outside $00-$40 and the stack |
| `LineEditor.ReadKeys` | src/system/monitor_firmware.cpp:391-414 | the loop: every key up to RETURN, edited and echoed in order |
| `LineEditor.RubOut` | src/system/monitor_firmware.cpp:405-414 | drops the last character if any and sends BS, blank, BS |
| `LineEditor.TakeCharacter` | src/system/monitor_firmware.cpp:399-404 | stores and echoes while there are fewer than 64, drops silently otherwise |
| `LineEditor.EndLine` | src/system/monitor_firmware.cpp:415-420 | CR, LF, and the length of the line |
| `LineEditor.Edited` | src/system/monitor_firmware.cpp:390-420 | the line never exceeds the 64-byte buffer |
| `LineEditor.KeyLaw` | src/system/monitor_firmware.cpp:391-414 | DEL ($7F) and BS ($08) drop the last byte; any other key is appended while there are fewer than 64 and dropped after that |
| `LineEditor.EchoLaw` | src/system/monitor_firmware.cpp:399-414 | what each key sends: BS, blank, BS for a rubout that drops a byte; the key itself if it was appended; otherwise nothing |
| `LineEditor.PlainTextIsKept` | src/system/monitor_firmware.cpp:390-420 | text without rubouts that fits is taken and echoed as typed |
| `LineEditor.RuboutUndoes` | src/system/monitor_firmware.cpp:395-414 | a character and a rubout cancel exactly when the buffer was not full before |
| `LineEditor.ScreenShowsLine` | src/system/monitor_firmware.cpp:390-420 | for every key sequence, a terminal that interprets the echo shows exactly the line in the buffer |
| `HexRoutines.HexVal` | src/system/monitor_firmware.cpp:94-120 | carry clear and the digit's value, or carry set and A kept |
| `HexRoutines.PrintNibble` | src/system/monitor_firmware.cpp:73-79 | the digit of the nibble, upper case, to the terminal |
| `HexRoutines.PrintHexByte` | src/system/monitor_firmware.cpp:61-71 | two digits, high nibble first; SP balanced |
| `HexRoutines.AppendDigit` | src/system/monitor_firmware.cpp:137-148 | the four shift pairs and OR are times 16 plus digit mod 65536 |
| `HexRoutines.ParseAddr` | src/system/monitor_firmware.cpp:126-157 | takes the whole run of digits at LINEPOS, leaves its value mod 65536, carry exactly when there is none; writes four cells and stack |
| `HexRoutines.ParseByte` | src/system/monitor_firmware.cpp:161-190 | takes at most two digits, leaves their value, carry exactly when there is none |
| `HexText.HexRunIsMaximal` | src/system/monitor_firmware.cpp:126-157 | what the parser takes is all digits and cannot be extended |
| `HexText.HexRunIsUnique` | src/system/monitor_firmware.cpp:126-157 | any maximal run of digits is the one taken |
| `HexText.DigitCodes` | src/system/monitor_firmware.cpp:73-120 | digits are 0-9 and A-F in ASCII, and a-f are read too |
| `HexText.PrintedDigits` | src/system/monitor_firmware.cpp:61-71 | four digits for an address, two for a byte, the leading one first |
| `HexText.PrintedByteValue` | src/system/monitor_firmware.cpp:61-71 | a printed byte has that byte as its value |
| `HexText.PrintedWordValue` | src/system/monitor_firmware.cpp:61-71 | a printed address has that address as its value |
| `HexText.ParsePrintedAddress` | src/system/monitor_firmware.cpp:126-157 | parsing any printed 16-bit address gives it back |
| `FirmwareBytes.HexvalRuns` | src/system/monitor_firmware.cpp:94-120 | the routine's 41 bytes, run on the instruction-set semantics, return what the instruction-level model says for every A |
| `FirmwareBytes.PrintNibbleRuns` | src/system/monitor_firmware.cpp:73-79 | the routine's bytes reach PUTCHAR with the nibble's digit in A and return to the caller |
| `FirmwareBytes.PutcharRuns` | src/system/monitor_firmware.cpp:53-55 | PUTCHAR returns to its caller with A kept |
| `FirmwareBytes.RangeRuns` | src/system/monitor_firmware.cpp:94-120 | the three outcomes of one range test of HEXVAL |
| `DispatchBytes.DispatchFollowsGrammar` | src/system/monitor_firmware.cpp:196-260 | DISPATCH's ROM bytes, run from $C800 on any line without a second address, reach the entry of the routine the grammar names, or the error line |
| `DispatchBytes.DispatchRuns` | src/system/monitor_firmware.cpp:196-260 | the same by character and letter codes and entry addresses, with all that the bytes change |
| `DispatchBytes.RangeBegins` | src/system/monitor_firmware.cpp:196-215 | after a dot the bytes reach PARSE_ADDR with LINEPOS moved on, the first address in END, and the return to $C829 on the stack |
| `DispatchBytes.RangeEnds` | src/system/monitor_firmware.cpp:216-243 | from PARSE_ADDR's return on: START and END as typed, then LIST, SAVE or the error line by the rest of the line |
| `DispatchBytes.RangeFollowsGrammar` | src/system/monitor_firmware.cpp:216-243 | that entry is the one the grammar names |
| `MachineFollowsIsa.SbcZeroPage` | src/system/monitor_firmware.cpp:488-494 | the machine's SBC does to A, C and Z what the one-shot instruction does |
| `MachineFollowsIsa.CmpImmediate` | src/system/monitor_firmware.cpp:94-120 | the machine's CMP sets C and Z as the one-shot instruction does |
| `MachineFollowsIsa.RolZeroPage` | src/system/monitor_firmware.cpp:137-148 | ROL of a page-zero cell: memory, C and Z as in the one-shot instruction |
| `MachineFollowsIsa.StaIndirectY` | src/system/monitor_firmware.cpp:560-578 | the store through the cursor changes the memory the one-shot instruction changes |
| `MachineFollowsIsa.CallSubroutine` | src/system/monitor_firmware.cpp:545-606 | the machine's JSR leaves the stack cells and SP of the one-shot JSR |
| `MachineFollowsIsa.ReturnFromSubroutine` | src/system/monitor_firmware.cpp:596-606 | the machine's RTS moves SP as the one-shot RTS, which continues behind the JSR named |
| `ListPoke.List` | src/system/monitor_firmware.cpp:294-340 | for END < $FFFF and any range: the listing of the bytes LIST reads from START to END, nothing when END < START; those bytes are memory's, save for its three cells, the stack cells below SP and the device registers; three cells and stack written |
| `ListPoke.ShowsMemory` | src/system/monitor_firmware.cpp:294-340 | over a range clear of those, what is listed is memory |
| `ListPoke.ListTurns` | src/system/monitor_firmware.cpp:296-333 | the loop run for at most n turns, on any range and device state, reaches its exit exactly when END < START, or END < $FFFF and END - START < n |
| `ListPoke.ListTurn` | src/system/monitor_firmware.cpp:296-333 | one byte of the listing: prefix at a row's start, line break at its end |
| `ListPoke.EndList` | src/system/monitor_firmware.cpp:334-340 | a line break exactly for an unfinished row |
| `ListPoke.NextColumn` | src/system/monitor_firmware.cpp:320-333 | cursor and column move on; the sixteenth byte ends the row |
| `ListPoke.PrintPrefix` | src/system/monitor_firmware.cpp:307-314 | the row's own address, colon, blank |
| `HexText.StreamIsListing` | src/system/monitor_firmware.cpp:294-340 | what the loop prints byte by byte, with the last break, is rows of sixteen bytes each under its own address with one break per row |
| `HexText.ListingLaw` | src/system/monitor_firmware.cpp:294-340 | every character of a listing by position: each byte's two digits and blank in its column, each row's address, colon and blank, CR and LF after each sixteenth and after the last byte |
| `ListPoke.Poke` | src/system/monitor_firmware.cpp:346-365 | exactly the decoded bytes of the line tail stored to consecutive addresses, in RAM, nothing else written; terminates by the line left; targets may be line characters already read |
| `ListPoke.SamePoke` | src/system/monitor_firmware.cpp:346-365 | what POKE has yet to store depends on no character it has read |
| `ListPoke.ClearIsSafe` | src/system/monitor_firmware.cpp:346-365 | targets clear of the whole line and POKE's cells never meet what it still reads |
| `ListPoke.PokeToken` | src/system/monitor_firmware.cpp:356-364 | a token of one or two digits is stored, or POKE ends |
| `ListPoke.CallPoke` | src/system/monitor_firmware.cpp:346-365 | called by JSR it returns to its caller unless a byte lands on the return address |
| `HexText.PokeBytes` | src/system/monitor_firmware.cpp:346-365 | never more bytes than characters left |
| `HexText.PokeLaw` | src/system/monitor_firmware.cpp:346-365 | at each position: a blank is skipped, two digits or a single one are a byte, anything else ends it |
| `HexText.TokenIsNumber` | src/system/monitor_firmware.cpp:161-190 | a token of one or two digits means its hexadecimal value |
| `HexText.PokeReadsPrinted` | src/system/monitor_firmware.cpp:346-365 | POKE reads back any bytes as LIST prints them |
| `Commands.ReadCommand` | src/system/monitor_firmware.cpp:449-461 | a typed line leads to the routine its grammar says, with its addresses in page zero, or to the error line; the echo and the rest of the input as READ_LINE leaves them |
| `Commands.ChooseRoutine` | src/system/monitor_firmware.cpp:196-260 | the routine chosen is that of the grammar; START keeps the first address and END gets the second |
| `Commands.RouteLaw` | src/system/monitor_firmware.cpp:196-260 | the whole grammar behind the first address in ASCII codes, each of the seven forms an if-and-only-if; everything else is the error line |
| `Commands.CommandIsUnderstood` | src/system/monitor_firmware.cpp:196-260 | a printed address alone is PEEK of it, with ":" POKE, with " R" RUN, " L" LOAD, " W" REWIND |
| `Commands.SecondAddress` | src/system/monitor_firmware.cpp:211-226 | the second address is parsed and the two are put in order |
| `Commands.CallDispatch` | src/system/monitor_firmware.cpp:196-267 | the tail jump keeps the return to MAIN_LOOP on the stack; on error the line is printed and control returns |
| `Commands.RangeIsUnderstood` | src/system/monitor_firmware.cpp:196-260 | two printed addresses with a dot are LIST of exactly that range, and SAVE with " S" |

## Left out

- Operating-system I/O: the terminal is a byte sequence, the tape a growable byte sequence whose stream never fails, and arrival times of typed bytes are arbitrary choices in GETCHAR's loop.
- The logger, tracing, plain getters and setters, and the hexadecimal text loader that fills the ROM.
- Decimal mode, interrupt lines, and the write-back and fix-up bus accesses of real hardware: the core has none.
- PEEK, RUN, PRINT_STRING, and the banner and prompt: PEEK prints one byte with LIST's helpers, RUN executes user code.
- Device reads with side effects inside the core's refinement theorem: the core's bus is the flat memory that module DeviceBus shows the bus to be, held by value, so aliasing between the core's bus and other users of the same devices is not modelled. Effects of the device registers are in the tape and input properties.
- Cpu6502.CPU6502.CaptureZeroPage: the read, load, store and read-modify-write handlers of one addressing mode are one method with the kind as a parameter, here and for the other modes, because their bodies differ only in that; `Switches.CaptureCases` and `CommitCases` record which T-states each of the source's own switches has cases for.
- SaveLoad.Save: requires END below $FFFF when it will save, because at $FFFF the loop never ends (`SaveTurns`), and a range without TAPE_DATA ($8004), reading which moves the head SAVE writes at.
- SaveLoad.Load: requires the stored block to be clear of the device page and of LOAD's own cells. For a block over its counter, checksum or cursor `LoadEnds` says that it ends, not what it leaves; a block that reaches a device register that does something on a write ($8001, $8003, $8004) is not covered, since such a byte can rewind the tape LOAD reads from.
- ListPoke.List: requires END below $FFFF, because at $FFFF the loop never ends (`ListTurns`). For bytes in the device page or the stack cells below SP it says that one byte each is listed, not which.
- ListPoke.Poke: requires its targets to be clear of its own cells, the device page, the line's length and the characters it has still to read (`PokeSafe`).
- LineEditor.ReadLine: requires a RETURN among the bytes typed; without one it waits forever.
- HexRoutines.ParseAddr: requires LINELEN to be at most 64, which READ_LINE guarantees; with more it would read its own cells as text.
- MonitorMachine.Machine.Cmp: the firmware machine keeps C and Z only, the flags its branches test; N and V are in the instruction-set semantics. Module MachineFollowsIsa relates its methods to that semantics one by one; operands are passed as values, so that the routines fetch them from ROM is not part of it.
- TapeSession.SaveRewindLoad: the operands of the commands are put in page zero directly, as DISPATCH leaves them; module Commands shows how a typed line puts them there.
- Running all routines as ROM bytes: that is done for HEXVAL, PRINT_NIBBLE and DISPATCH (around its call of PARSE_ADDR); the others are modelled one method call per instruction.
