# Verification of the assembler, the CPU, and what connects them

This project models, in Dafny, a two-pass assembler for an 8-bit CPU, the CPU itself, the label
table and the tokenizer the assembler rests on, and the ring buffer through which the render
thread hands keys to a running program. It proves that the parts fit together:

- a source text is tokenized, assembled in two passes and run, and the machine ends in the state
  the source program means;
- the recursive Fibonacci program of the repository, from the layout of its file to its result, is
  totally correct, and its counting program counts for ever in its own data;
- the keyboard protocol is a fifteen-element FIFO queue under every interleaving;
- calls, frames and carries keep their discipline at any depth and length on a stack that wraps.

## Layout

| file | what it holds |
|---|---|
| `Words`, `Isa` | bytes and words with explicit wrap-around; operations, the opcode enumeration and the dispatch table |
| `Machine`, `Cpu` | the CPU as a function on states, with the executions C leaves undefined set apart; the CPU object, one method per instruction family |
| `Bits`, `OperandLaws`, `AluLaws`, `WideLaws`, `JumpLaws`, `FlagLaws`, `ControlLaws` | bits of numbers; what each instruction computes, in numbers and bits |
| `Definedness`, `Sharpness` | that the conditions of the main results ask for no more than they need |
| `Encoding`, `TwoPass`, `Patching` | instructions with symbolic operands and their bytes; why patching is the same as assembling once, in any order, and what each operand holds |
| `Syntax`, `Expressions`, `Spelling`, `Lowering` | tokens, statements, the parser against the grammar, writing statements, what they are lowered to, label values |
| `Assembler`, `Acceptance` | the assembler object and its two passes; which lines it accepts |
| `Source`, `Simulation`, `Program`, `Vm` | the meaning of statements, forward simulation by statement and by whole run, the end-to-end result |
| `DataLines`, `CountingLoop`, `TestProgram` | runs that write to their own data lines; the loop that counts for ever, and the repository's program with it |
| `Decoding`, `Boundaries` | unique decoding; control stays on instruction boundaries |
| `Buckets`, `LabelTable`, `History` | the chained hash table as a finite map |
| `Lexing`, `Keywords`, `Tokenizer`, `Literals`, `Characters`, `Rendering`, `SourceText`, `Reading`, `Layout` | text to tokens and back, character by character; what texts can spell; layout and comments make no difference |
| `Fib`, `FibProgram`, `FibFile` | the Fibonacci routine, the program around it, and its file as laid out |
| `RingBuffer`, `Keyboard`, `KeyboardCode`, `Screen` | the keyboard protocol |
| `Frames`, `Locals`, `Carry`, `Counter`, `Fragments` | stack discipline, frame addressing, carry chains, lines of the repository's programs |
| `Departures` | where instructions do less than their names promise, with the exact condition |

`dafny verify dfyconfig.toml` checks the whole project.

## How to read the model

A machine state is a value with 16-bit PC, 8-bit registers, the flags, a 256-byte stack and 65536
bytes of memory. `Machine.Defined` says which executions the C program defines: operand fetches
relative to an advanced PC must not wrap, divisors must not be zero, shift counts and products
must stay in range. `Machine.Exec` is the effect of one operation, `Step` the fetch and dispatch,
`Run` any number of defined steps. The methods of `Cpu` update fields and arrays in place and are
proved equal to these functions.

The source-level semantics (`Source.Meaning`) speaks of places and of the address of the next line,
not of opcodes. Two statements have it only under a condition, since the machine departs from it:
a JEXT must be taken, and MIN with a number must meet `MinKept`. `LOAD 0` keeps the sign flag, in
the meaning as in the machine.

Code is what executable statements emit. A source-level run asks of memory only that the line it is
about to execute is there as it was emitted; data lines may hold anything.

In the keyboard model the producer's test, its slot write and its index write are three separate
actions, interleaved with single CPU instructions and with arbitrary other code that leaves the
buffer and the routine's code alone and enters the routine at its first instruction.

Where the repository's code and its intent differ, the model follows the code. Its keyword
spelling, and not `grammar.ebnf`, decides what is a token; a name may contain upper-case letters
and digits, and any digit, not only 0, may stand before `b`, `o` or `x`. A bare `0x` in front of a
space and a minus sign is a negative number, since `strtol` skips the space. EI and DI change the
overflow bit of the flags.

## Model

| member | source | states |
|---|---|---|
| AssemblerModel.Assemble | src/assembler.c:1016-1031 | Both passes over any token lines, under any hash function of the label table, give the one-shot encoding: a page of zeros, every line under the final labels, HALT |
| AssemblerModel.TwoPassesAreOne | src/assembler.c:972-1014 | The recorded sites lie inside the pass-1 bytes, and patching them gives the one-shot encoding |
| AssemblerModel.Assembler.AssemblePass1 | src/assembler.c:972-982 | Pass 1 leaves the placeholder encoding of all lines, their references in order, and the label environment in which the first definition wins |
| AssemblerModel.Assembler.AssemblePass2 | src/assembler.c:985-1014 | Pass 2 applies every recorded patch with the labels the table holds, and changes only the bytes |
| AssemblerModel.Assembler.PatchSite | src/assembler.c:992-1012 | One reference is patched bytewise; an undefined label leaves its placeholder |
| AssemblerModel.Assembler.AssembleLinePass1 | src/assembler.c:762-968 | One line emits exactly the items its statement is lowered to, records their references at their places, and binds the labels it defines; an erroneous line emits nothing; which lines are erroneous is in `Acceptance` |
| AssemblerModel.Assembler.DefineLabel | src/assembler.c:732-760 | A label or constant definition is inserted once; later definitions and trailing tokens are ignored |
| AssemblerModel.Assembler.ParseMemExpr | src/assembler.c:122-201 | The loop over signs, registers and numbers computes the same expression as the recursive parser, and fails on the same tokens |
| AssemblerModel.Assembler.ParseUse | src/assembler.c:317-513 | LOAD, STORE, XCH and the arithmetic mnemonics emit the lowering of their operand |
| Acceptance.UseAccepted | src/assembler.c:317-513 | A mnemonic and an operand parse if and only if that variant of the instruction exists; XCH also takes a number, labels are indexed by HL or a number |
| Acceptance.WideAccepted | src/assembler.c:515-539 | 16-bit mnemonics parse if and only if the variant for the register or number exists |
| Acceptance.PushAccepted | src/assembler.c:617-643 | PUSH likewise |
| Acceptance.PopAccepted | src/assembler.c:645-665 | POP likewise |
| Acceptance.OperandRefused | src/assembler.c:317-539 | Any other token for an operand is an error |
| Acceptance.ControlAccepted | src/assembler.c:541-730 | Jumps take a number or a label, CALL a label, RET nothing or a number, ENTER a number, the rest nothing, numbers truncated to their operand |
| Acceptance.AloneAccepted | src/assembler.c:541-730 | Which mnemonics are complete alone on a line |
| Acceptance.ExtAccepted | src/assembler.c:565-615 | JEXT takes a number, a comma, and a number or a label, and nothing else |
| Acceptance.NumbersAccepted | src/assembler.c:916-926 | A line that starts with a number emits each of its leading numbers modulo 256 |
| Acceptance.QuotationAccepted | src/assembler.c:927-932 | A quotation emits the codes of its characters |
| Acceptance.DefinitionAccepted | src/assembler.c:732-760 | A name and a colon define a label; a dot, a name, an equals sign and a number define a constant |
| Lowering.LowerWellFormed | src/assembler.c:229-315 | Every accepted statement is lowered to opcodes that exist, each emitted with as many operand bytes as the instruction set gives it |
| Lowering.LabelsMeaning | src/assembler.c:933-940 | A label has the value its first defining line gives it, and a label no line defines has none |
| Encoding.AddBytesExact | src/assembler.c:1006-1007 | Adding a label bytewise is exact if and only if the low bytes do not carry, and 256 too small modulo 65536 otherwise |
| TwoPass.PatchResolves | src/assembler.c:985-1014 | Patching all references of any stretch of items, wherever it lies, turns placeholder bytes into resolved bytes |
| TwoPass.RefsSpread | src/assembler.c:47-71 | Recorded sites increase by at least three and lie inside the emitted bytes |
| TwoPass.PatchAtSite | src/assembler.c:998-1011 | After pass 2 a site holds the word its own label and placeholder give, whatever the other sites are |
| TwoPass.PatchElsewhere | src/assembler.c:985-1014 | No byte outside the two bytes of a site changes |
| TwoPass.PatchOrder | src/assembler.c:985-1014 | Sites that do not overlap can be patched in any order with the same result |
| Patching.SitesApart | src/assembler.c:47-71 | The references pass 1 records for a program lie inside its bytes and do not overlap |
| Patching.AnyOrder | src/assembler.c:985-1014 | Patching the references pass 1 records for a program in any order gives its executable |
| Patching.SiteWord | src/assembler.c:998-1011 | Each recorded site of the executable holds the label's value added to its placeholder modulo 65536 if and only if the low bytes do not carry |
| Patching.OperandHolds | src/assembler.c:1006-1007 | The operand of any instruction that names a defined label is that label plus the displacement modulo 65536 if and only if their low bytes do not carry |
| Expressions.ParsesTheGrammar | src/assembler.c:111-201 | A memory expression parses if and only if it is an optional sign and operands separated by signs with at most one register up to the bracket; its meaning is that register and the signed sum modulo 65536, a sign before a register being ignored |
| Expressions.OneReading | src/assembler.c:122-201 | Tokens spell at most one list of terms |
| Spelling.ExprRoundTrip | src/assembler.c:122-201 | A memory expression written as tokens parses back, whatever follows its bracket |
| Spelling.StatementRoundTrip | src/assembler.c:762-968 | Every statement written as a token line parses back to itself |
| Simulation.StatementSim | src/assembler.c:229-730 | The code of any statement, held at PC, runs to the statement's meaning: registers, flags, HL and L side effects, stack, memory, next line |
| Definedness.DefinedInRange | src/headers/instructions.h:325-438 | Away from the end of memory C defines an operation exactly if no shift or product leaves the range of `int` and no divisor is zero |
| Definedness.MeaningEverywhere | src/assembler.c:229-730 | Every executable statement but shifts and rotations, MIN with a number, MULW, DIVW and JEXT has its meaning in every state with room for its code |
| Definedness.MeaningSomewhere | src/assembler.c:229-730 | MULW, DIVW, JEXT and MIN with a number have it exactly under the named condition |
| Program.ProgramSim | src/cpu.c:65-69 | n lines of a source-level run are between n and 2n machine steps ending in the same state; each line executed must be in memory as it was emitted at that moment, while data and other code may change |
| Program.HaltedIffAtHalt | src/assembler.c:775-777 | At a line of an intact program, and at its end, PC is at a HALT opcode if and only if the line is HALT or the program has ended |
| Program.HaltSim | src/cpu.c:50-63 | A source-level run that halts, whatever it writes to its data, is a run of the CPU loop that halts in the same state |
| Vm.AssembleAndRun | src/main.c:18-28 | Assembling, loading and running a program leaves the CPU in the state the source-level run ends in |
| Vm.LoadedIntact | src/cpu.c:44-48 | After loading, all code and the final HALT are in memory as they were emitted, and PC is at the first line |
| DataLines.DataWritten | src/assembler.c:916-932 | Changing bytes of data lines leaves all code, and the final HALT, as they were emitted |
| DataLines.StoreToData | src/headers/instructions.h:58-73 | A STORE to the program's own labelled data is followed, and the run goes on from the next line |
| CountingLoop.CountsForever | programs/test.casm:3-25 | A loop of an n-byte counter in its own data, lines that leave memory alone, and a jump back is followed for any number of rounds, counting modulo 256^n and writing nothing else |
| TestProgram.TestCounts | programs/test.casm:1-28 | The program as it stands, assembled and loaded, goes on for ever; after r rounds its data line holds 0xfffffe + r modulo 2^24 |
| Decoding.DecodeEncode | src/headers/instructions.h:672-964 | Reading opcodes and operands by opcode length recovers exactly the emitted instructions with resolved operands |
| Decoding.EncodeInjective | src/headers/instructions.h:707-964 | Two data-free programs with the same bytes are the same instructions |
| Decoding.DecodeExecutable | src/assembler.c:972-982 | The executable of a data-free program decodes to the program followed by HALT |
| Boundaries.OperandsSkipped | src/headers/instructions.h:41-475 | An instruction that goes on leaves PC behind exactly the operand bytes emitted for it |
| Boundaries.StepStays | src/cpu.c:65-69 | One step from an instruction boundary of closed code, with the instruction there as it was emitted, leads to a boundary |
| Boundaries.RunStays | src/cpu.c:50-69 | Every reachable PC of a run of closed code whose returns match its calls, whatever it writes besides the instructions it executes, is the first byte of an emitted instruction |
| Boundaries.LabelIsBoundary | src/assembler.c:933-938 | A label in front of an instruction resolves to that instruction's first byte |
| Boundaries.StructuredClosed | src/assembler.c:933-938 | Lines whose jumps and calls name labels in front of code, whose code does not run into data, and which have no JEXT are closed code |
| Boundaries.IntactFetch | src/cpu.c:65-69 | While all code is in memory as it was emitted, whatever the data lines hold, so is the instruction at PC |
| Boundaries.ProgramStays | src/cpu.c:50-69 | Such lines, assembled and loaded, keep PC on instruction boundaries in every run that executes what was emitted and returns where it was called from |
| Isa.DecodeOpcode | src/headers/instructions.h:672-964 | Dispatching on the number the enumeration gives an instruction executes that instruction |
| Isa.OpcodeDecode | src/headers/instructions.h:672-705 | Every table entry that is not an unused NOOP has the number of its position |
| Machine.FlagsRoundTrip | src/headers/instructions.h:535-557 | POP FLAGS right after PUSH FLAGS gives back the flags and everything else but PC and the byte pushed |
| Machine.FlagsPushedBack | src/headers/instructions.h:535-557 | PUSH FLAGS right after POP FLAGS gives back the stack |
| CpuModel.Cpu.Init | src/cpu.c:9-31 | The initial state: PC at PROGRAM_START, everything else zero |
| CpuModel.Cpu.LoadProgram | src/cpu.c:44-48 | Memory is the program followed by what was there before |
| CpuModel.Cpu.StepCpu | src/cpu.c:65-69 | One call executes one step of the machine and returns the opcode at the new PC |
| CpuModel.Cpu.RunCpu | src/cpu.c:50-63 | The loop stops where the run first reaches a HALT after at least one step |
| CpuModel.Cpu.Dispatch | src/headers/instructions.h:672-705 | Each table entry does to the object what the operation does to the state |
| CpuModel.Cpu.Load | src/headers/instructions.h:41-56 | The operand goes to ACC and sets the zero and sign flags |
| CpuModel.Cpu.Store | src/headers/instructions.h:58-73 | ACC goes to the operand's place and nowhere else |
| CpuModel.Cpu.Xch | src/headers/instructions.h:75-91 | ACC and the operand's place are exchanged |
| CpuModel.Cpu.AluOp | src/headers/instructions.h:93-168 | The arithmetic and logic family, operands read at negative offsets from the advanced PC; what it computes is in `AluLaws` |
| CpuModel.Cpu.UnaryOp | src/headers/instructions.h:170-255 | INC, DEC, NEG and NOT of a byte place |
| CpuModel.Cpu.UnaryPair | src/headers/instructions.h:187-264 | INC, DEC, NEG and NOT of HL |
| CpuModel.Cpu.WideOp | src/headers/instructions.h:410-438 | 16-bit arithmetic on HL; what it computes is in `WideLaws` |
| CpuModel.Cpu.JumpOp | src/headers/instructions.h:440-475 | The jumps, taken and not taken; when is in `JumpLaws` |
| CpuModel.Cpu.JumpExtOp | src/headers/instructions.h:477-500 | JEXT, which advances by one when it is not taken |
| CpuModel.Cpu.PushOp | src/headers/instructions.h:519-535 | PUSH of every operand |
| CpuModel.Cpu.PopOp | src/headers/instructions.h:537-557 | POP to registers, memory, BP and FLAGS |
| CpuModel.Cpu.CallOp | src/headers/instructions.h:559-564 | The return address is pushed high byte first |
| CpuModel.Cpu.RetOp | src/headers/instructions.h:566-569 | RET |
| CpuModel.Cpu.RetImmOp | src/headers/instructions.h:571-576 | RET n drops n more bytes |
| CpuModel.Cpu.EnterOp | src/headers/instructions.h:578-582 | ENTER saves BP, moves it and reserves the locals |
| CpuModel.Cpu.LeaveOp | src/headers/instructions.h:584-587 | LEAVE |
| OperandLaws.LoadLaw | src/headers/instructions.h:41-56 | LOAD puts the byte its operand names, by address or register, into ACC, sets the zero and sign flags by it, and changes nothing else |
| OperandLaws.StoreLaw | src/headers/instructions.h:58-73 | STORE writes ACC there, the flags set by ACC, and nowhere else |
| OperandLaws.XchLaw | src/headers/instructions.h:75-91 | XCH gives each of ACC and the operand what the other held |
| OperandLaws.UnaryLaw | src/headers/instructions.h:170-272 | INC and DEC step the byte around and set the carry exactly when it wraps; NEG and the old byte cancel modulo 256; NOT inverts every bit; the latter two keep the carry, and nothing but the byte and the flags changes |
| OperandLaws.PairLaw | src/headers/instructions.h:187-264 | The HL forms do so modulo 65536 |
| AluLaws.AddLaw | src/headers/instructions.h:93-110 | ACC and the carry are the two parts of the sum |
| AluLaws.AdcLaw | src/headers/instructions.h:112-129 | The same of the sum with the carry |
| AluLaws.SubLaw | src/headers/instructions.h:131-148 | ACC and the operand add up to the old ACC modulo 256 |
| AluLaws.CompareLaw | src/headers/instructions.h:502-517 | CMP leaves ACC and the carry; the zero flag tells equality, the sign flag that the difference modulo 256 is at least 128 |
| AluLaws.MaxLaw | src/headers/instructions.h:627-643 | MAX is one of the two operands and bounds both from above |
| AluLaws.MinLaw | src/headers/instructions.h:609-625 | MIN of anything but a number is one of the two operands and bounds both from below |
| AluLaws.AndLaw | src/headers/instructions.h:274-289 | Every bit of AND is set exactly if that bit is in both operands |
| AluLaws.OrLaw | src/headers/instructions.h:291-306 | Every bit of OR is set exactly if that bit is in one of them |
| AluLaws.XorLaw | src/headers/instructions.h:308-323 | Every bit of XOR is set exactly if the operands differ in it |
| AluLaws.ShiftLeftLaw | src/headers/instructions.h:325-339 | SHL moves every bit up by the operand, whatever it is, and lets zeros in |
| AluLaws.ShiftRightLaw | src/headers/instructions.h:341-355 | SHR moves every bit down likewise |
| AluLaws.RotateLeftLaw | src/headers/instructions.h:357-373 | ROL rotates the byte if and only if the count is below eight or a multiple of eight, or the bits it loses are zero |
| AluLaws.RotateRightLaw | src/headers/instructions.h:375-391 | ROR likewise to the other side |
| AluLaws.AluFlags | src/headers/instructions.h:93-391 | The zero and sign flags tell about ACC, the carry is touched by additions and subtractions only, and no other part of the state changes |
| WideLaws.AddWideLaw | src/headers/instructions.h:410-438 | ADDW adds to HL modulo 65536 |
| WideLaws.SubtractWideLaw | src/headers/instructions.h:410-438 | SUBW undoes it |
| WideLaws.MultiplyLaw | src/headers/instructions.h:410-438 | MULW leaves the product in HL, short by a multiple of 65536 that is zero when it fits |
| WideLaws.DivideLaw | src/headers/instructions.h:410-438 | DIVW leaves the quotient: HL was quotient times divisor and a remainder below the divisor |
| JumpLaws.AlwaysLaw | src/headers/instructions.h:440 | JMP goes to the word behind it |
| JumpLaws.AddThenJump | src/headers/instructions.h:465-476 | After ADD, JC is taken exactly if the sum is at least 256, and JNC exactly if not |
| JumpLaws.CompareThenJump | src/headers/instructions.h:441-464 | After CMP, JS and JNS tell whether the difference modulo 256 is at least 128, JZ and JNZ whether the two are equal |
| JumpLaws.LoadThenJump | src/headers/instructions.h:441-464 | After LOAD they tell about the byte loaded |
| JumpLaws.StepThenJump | src/headers/instructions.h:465-476 | After DEC and INC, JC and JNC tell whether the byte wrapped |
| JumpLaws.LoopCounts | programs/graphics.casm:112-113 | A loop that ends in `DEC R1` and `JNC`, with any body that leaves R1 alone, runs exactly R1 + 1 rounds |
| FlagLaws.ExtLaw | src/headers/instructions.h:477-500 | JEXT is taken exactly if any or all of the flags its low bits pick are set or clear, as its two high bits say |
| FlagLaws.TrapLaw | src/flags.c:13-33 | ET and DT set and clear bit 4 of the flags and no other |
| FlagLaws.InterruptLaw | src/flags.c:13-33 | EI and DI set and clear bit 5, the overflow flag, and not bit 6, the interrupt flag |
| FlagLaws.PushLaw | src/headers/instructions.h:519-535 | PUSH puts its operand, the frame pointer or the flags on the stack and steps the pointer around |
| FlagLaws.PopLaw | src/headers/instructions.h:537-557 | POP takes the byte back to its operand, the frame pointer, or all eight flags |
| ControlLaws.CallLaw | src/headers/instructions.h:559-565 | CALL leaves the address behind it on the stack, high byte first, changes no other byte and goes to its operand |
| ControlLaws.ReturnLaw | src/headers/instructions.h:566-577 | RET and RET n go there and drop it and n bytes |
| ControlLaws.EnterLaw | src/headers/instructions.h:578-583 | ENTER saves the frame pointer and starts a frame of n bytes behind it |
| ControlLaws.LeaveLaw | src/headers/instructions.h:584-588 | LEAVE drops the frame and gets the saved frame pointer back |
| ControlLaws.PointerLaw | src/headers/instructions.h:589-607 | Setting and moving L and HL wraps at their widths and changes nothing else, not even the flags |
| ControlLaws.PlainLaw | src/headers/instructions.h:17-39 | NOOP and HALT change nothing but PC, HALT not even that; RESET zeroes all but PC |
| Departures.AddCarry | src/headers/instructions.h:93-110 | ADD is exact with its carry as ninth bit |
| Departures.SubtractBorrow | src/headers/instructions.h:131-148 | SUB's carry is the borrow if and only if the operand is at most the accumulator and at least half of it, or above it and below half of it plus 256 |
| Departures.SubtractExample | src/headers/instructions.h:131-148 | 100 - 10 sets the carry |
| Departures.SubtractWithBorrow | src/headers/instructions.h:150-168 | SBC is a - v - (1 - CF) if and only if CF is set, and never a - v - CF |
| Departures.SubtractWithBorrowExample | src/headers/instructions.h:150-168 | SBC 3 from 10 with the carry clear is 8 |
| Departures.MinImmediate | src/headers/instructions.h:609-620 | MIN with a number is the minimum if and only if the number is 208 or both it and 208 are at least ACC |
| Departures.MinExample | src/headers/instructions.h:609-620 | MIN 5 with 10 in ACC leaves 10 |
| Departures.LoadZero | src/assembler.c:229-237 | `LOAD 0` does what loading 0 does if and only if the sign flag was clear |
| Departures.LoadZeroExample | src/headers/instructions.h:35-39 | `LOAD 0` with the sign flag set leaves it set |
| Departures.PairSign | src/headers/instructions.h:187-264 | The HL forms set the sign of the 16-bit result if and only if HL before the instruction meets a bound: for INC, its low byte is 127 to 254 exactly when HL is 32767 to 65534, and likewise for the others |
| Departures.PairSignExample | src/headers/instructions.h:187-192 | INC HL of 0x007f sets the sign flag |
| Departures.JumpExtFallsInside | src/headers/instructions.h:477-500 | JEXT not taken goes on at its own mask byte, never at the next instruction |
| Departures.JumpExtExample | src/headers/instructions.h:477-500 | JEXT on a clear zero flag leaves PC at its mask, 4 |
| Departures.CarryExample | src/assembler.c:1006-1007 | In the executable of `.x = 255` and `LOAD x[1]` the operand is 0 |
| Fib.FibCorrect | programs/fib_recursive.casm:15-54 | From any stack pointer and address, nth_fib called with n <= 64 returns to the pushed address with fib(n) modulo 65536 in HL, SP below the return address, BP, R1, memory and all stack bytes but the 4(n-1) above SP unchanged |
| FibProgram.FibAssembled | programs/fib_recursive.casm:6-54 | The program's lines assemble to the bytes reasoned about, the labels at 263, 276 and 282 |
| FibProgram.FibHalts | programs/fib_recursive.casm:6-54 | The loaded program halts with fib(n) modulo 65536 in HL, for every n from 1 to 64 |
| FibProgram.RunFibonacci | src/main.c:18-28 | Tokenizing, assembling, loading and running the program text, with any indentation, spacing, comments and blank lines, also at its end, leaves fib(n) modulo 65536 in HL |
| FibFile.RunFile | programs/fib_recursive.casm:1-55 | Running the text of the file, every line, space and blank line of it down to the unterminated last one, leaves 52425 in HL whatever the words of its comments |
| FibProgram.ThirtyFive | programs/fib_recursive.casm:6-13 | The program with its argument 35 halts with 52425 in HL, which is fib(35) modulo 65536 |
| RingBuffer.IndexPublished | src/screen.c:193-194 | Advancing the write index appends the slot's byte to the queue |
| RingBuffer.IndexConsumed | programs/keyboard.casm:133-136 | Advancing the read index removes the oldest byte |
| RingBuffer.FullIff | src/screen.c:189 | The fullness test holds exactly when fifteen bytes are queued |
| Keyboard.KeysInOrder | src/screen.c:185-195 | Under every interleaving of the producer's accesses, single instructions and other code, the keys returned are the first keys accepted, once and in order; at most sixteen are under way |
| Keyboard.RefinesFifo | programs/keyboard.casm:124-142 | Every action is an enqueue, a dequeue or no change of a fifteen-element FIFO; it neither overflows nor underflows |
| Keyboard.EveryActionKeeps | programs/keyboard.casm:124-142 | The protocol invariant survives every action |
| Keyboard.InstructionAdvances | programs/keyboard.casm:124-142 | Every instruction of get_keyboard is defined, moves forward, accounts for the key in hand, and returns to its caller with the stack pointer restored |
| Keyboard.NoTornRead | programs/keyboard.casm:131 | The slot read is never the one being filled, and holds the oldest key |
| Keyboard.DropsOnlyWhenFull | src/screen.c:189-192 | A key is dropped if and only if fifteen are queued |
| Keyboard.WritesStayInRing | src/screen.c:15-18 | Neither side writes outside the two indices and sixteen slots |
| Keyboard.EmptyIsTrue | programs/keyboard.casm:125-127 | The comparison finds the buffer empty if and only if it is |
| Keyboard.ReturnsSoon | programs/keyboard.casm:124-142 | Whatever the producer does meanwhile, the routine moves forward with every instruction until it returns |
| KeyboardCode.KeyboardAssembled | programs/keyboard.casm:124-142 | The routine's lines assemble to the bytes the protocol is proved about, at any address |
| Screen.WriteInput | src/screen.c:185-195 | Uninterrupted, the producer writes slot and index or nothing |
| Screen.WrittenAppends | src/screen.c:185-195 | That appends the key to the queue, or drops it if fifteen are there |
| Frames.Discipline | src/headers/instructions.h:519-588 | At any nesting of PUSH/POP, CALL/RET, arguments with RET n, and ENTER/LEAVE that fits the 256-byte stack: SP less the dropped bytes, BP restored, every return behind its call, every byte below unchanged but for stores to the frame's own arguments and locals |
| Frames.WholeTrace | src/headers/instructions.h:519-588 | Outside a frame: SP and BP restored and only the first Depth bytes above SP can differ, for every stack pointer |
| Frames.TraceRuns | src/cpu.c:65-69 | A trace that is followed is a run of the machine |
| Locals.FrameExpressions | src/headers/instructions.h:559-582 | After k pushed arguments, each computed by any balanced code, CALL and ENTER n with k + n + 3 <= 256, `{BP + 3 + j}` is the j-th argument from the last, and the locals are distinct from each other, the arguments, the saved BP and the return address |
| Locals.ArgumentAddressed | src/assembler.c:297-315 | `{BP + 3 + j}` through the 16-bit displacement, the increment, the truncation and the subtraction |
| Locals.LocalAddressed | src/assembler.c:297-315 | `{BP - i}` is the i-th local |
| Locals.LocalLowers | src/headers/instructions.h:645-665 | The lowered instruction addresses the stack byte the expression denotes |
| Locals.MinusLocal | src/assembler.c:122-201 | `{BP - i}` parses to the displacement -i modulo 65536 |
| Locals.PlusLocal | src/assembler.c:122-201 | `{BP + i}` parses to the displacement i modulo 65536 |
| Carry.ChainAdds | src/headers/instructions.h:93-129 | One ADD and any number of ADCs, with instructions in between that keep the carry, add numbers of any length exactly, CF being the carry out |
| Carry.NeutralStep | src/headers/instructions.h:34-91 | The instructions allowed in between leave CF alone |
| Sharpness.HarmlessExactly | src/headers/instructions.h:17-665 | The operations a trace may take anywhere are exactly those that leave stack, stack pointer and frame pointer alone in every state |
| Sharpness.NeutralExactly | src/headers/instructions.h:17-665 | The operations a carry chain may contain in between are exactly those that leave the carry alone in every state |
| Sharpness.FallsThroughExactly | src/headers/instructions.h:17-665 | Closed code asks for an instruction behind exactly those operations that can go on there |
| Sharpness.FallsOnExactly | src/assembler.c:229-730 | A statement runs on into the next line exactly if its last item does |
| Sharpness.NothingStuck | src/screen.c:185-195 | The producer's next access and the routine's next instruction are enabled in every state of the invariant |
| Sharpness.ClientFree | programs/keyboard.casm:124-142 | So is every step of other code that leaves buffer and routine alone and stays outside, and a CALL of the routine |
| Counter.CounterCounts | programs/test.casm:4-10 | The lines of an n-byte counter add one modulo 256^n, CF telling the wrap, and change nothing else in memory |
| Counter.MachineCounts | programs/test.casm:4-10 | The CPU does so when the assembled lines are in memory clear of the counter, for every n |
| Fragments.CollatzEven | programs/collatz.casm:34-36 | num_even halves HL |
| Fragments.CollatzOdd | programs/collatz.casm:38-41 | num_odd leaves 3 HL + 1 modulo 65536 |
| Fragments.PixelAddress | programs/graphics.casm:98-105 | These lines leave 128 R0 + R1 + 0x9fff modulo 65536 in HL |
| Fragments.FibonacciStep | programs/fibonacci.casm:14-27 | One round of the loop moves H to L, their sum to H and counts R0 down, the zero flag telling the end |
| LabelTable.LabelMap.Get | src/str_int_map.c:66-70 | Lookup returns the value of the finite map |
| LabelTable.LabelMap.Insert | src/str_int_map.c:106-133 | Insertion adds the key only if it is absent; the table doubles exactly when it is more than three quarters full |
| LabelTable.LabelMap.Rehash | src/str_int_map.c:108-124 | Growth re-inserts every chained entry into a table twice the size and never grows that one again |
| LabelTable.LabelMap.Remove | src/str_int_map.c:185-189 | Removal deletes the key and no other; `len` stays |
| LabelTable.LabelMap.GetBucket | src/str_int_map.c:47-64 | The walk along one chain finds the first entry of the key |
| LabelTable.LabelMap.InsertBucket | src/str_int_map.c:72-104 | A new entry is linked at the end of its chain |
| LabelTable.LabelMap.RemoveNode | src/str_int_map.c:147-176 | The head is replaced by its successor, another node bypassed; the links stay mutually inverse |
| LabelTable.MapsInsert | src/str_int_map.c:106-133 | Appending an absent key to its own bucket extends the map |
| LabelTable.MapsRemove | src/str_int_map.c:135-189 | Taking a key's entry out of its bucket removes the key |
| Buckets.AppendChain | src/str_int_map.c:87-99 | Linking a new node behind the last keeps the chain doubly linked |
| Buckets.BypassChain | src/str_int_map.c:167-174 | Unlinking a node behind the head keeps the chain doubly linked |
| Buckets.PromoteChain | src/str_int_map.c:156-165 | Copying the successor into the head keeps the chain doubly linked |
| History.InsertAll | src/str_int_map.c:106-133 | After any history every key has its first value, `len` is the number of distinct keys and at most 3/4 capacity + 1, capacity is 16 times a power of two |
| History.FirstValue | src/str_int_map.c:84-86 | The value a history leaves for a key is that of the key's first insertion |
| Keywords.MnemonicAgrees | src/tokenizer.c:109-353 | The nested switch is a lookup in the keyword table: a keyword is returned exactly where its spelling stands, followed as its entry requires |
| Lexing.Skip | src/tokenizer.c:22-68 | Each skipping loop stops at the first character outside its class |
| Tokenizer.Iterator.Complete | src/tokenizer.c:61-68 | A chain of reads recognises a spelling and what must follow it, and skips the rest of the word otherwise |
| Tokenizer.Iterator.TokenizeMnemonic | src/tokenizer.c:102-355 | The nested switch, reading one character at a time, finds the same mnemonic or register and stops at the same place as the recursive form |
| Tokenizer.Iterator.TokenizeSymbol | src/tokenizer.c:70-419 | One symbol, by reading from the iterator; which characters make it is in `Characters` |
| Tokenizer.Iterator.TokenizeLine | src/tokenizer.c:421-463 | One line of tokens; every round of the loop consumes input |
| Tokenizer.TokenizeProgram | src/tokenizer.c:465-481 | All lines that have tokens |
| Tokenizer.ProgramTiles | src/tokenizer.c:421-481 | Tokens are non-empty, ordered and disjoint, only spaces and newlines lie between them up to the end of the text, each offset is the one in its line |
| Tokenizer.RebuildsText | src/tokenizer.c:421-481 | Tokens and gaps concatenate to the text |
| Literals.LiteralRoundTrip | src/parsing.c:5-19 | Every number below 2^63 written in base 2, 8, 10 or 16 is one token of that kind with that value |
| Literals.AnyLiteral | src/parsing.c:5-19 | Any digits of a base behind its prefix, of either case and with any leading zeros, are one token with the number they stand for, or the largest `long` |
| Characters.NameLaw | src/tokenizer.c:46-51 | A small letter or underscore and any letters, digits and underscores are a label definition before a colon, an indexed label before a bracket, and otherwise unknown |
| Characters.ReferenceLaw | src/tokenizer.c:99-101 | A dot and any such characters are a label reference |
| Characters.NumberLaw | src/tokenizer.c:356-380 | A digit, a base letter of either case, and hexadecimal digits of either case are one number of that base |
| Characters.QuoteLaw | src/tokenizer.c:53-59 | A quotation ends at the next quote |
| Characters.CommentLaw | src/tokenizer.c:29-34 | A comment ends at the end of its line |
| Characters.PunctuationLaw | src/tokenizer.c:73-92 | The ten punctuation characters are their own tokens |
| Rendering.TokenLexes | src/tokenizer.c:70-419 | Every well-formed token in its place is read back with kind, text and value |
| Rendering.RenderingRoundTrip | src/tokenizer.c:421-481 | Well-formed token lines written with any indentation, any spaces behind each token, none where the next may follow directly, and blank lines in between, with or without a final newline, are read back exactly |
| SourceText.SourceRoundTrip | src/assembler.c:762-968 | Statements written as text, tokenized and parsed are the same statements |
| Reading.TextSpells | src/assembler.c:762-968 | Every statement a line of any text spells, but an empty line, the empty quotation, and one with a negative hexadecimal, octal or binary number, is one that is written and read back |
| SourceText.AssembleText | src/assembler.c:1016-1031 | A text is assembled to the one-shot encoding of its token lines |
| Reading.NegativeExample | src/parsing.c:14-15 | The token `0x` in `0x -5` has the value 2^64 - 5 |
| Layout.BareParses | src/assembler.c:762-968 | A line parses as its tokens in front of the first comment do |
| Layout.CommentsIgnored | src/assembler.c:942-943 | Comments, and lines of nothing else, make no difference to the executable of any token lines |
| Layout.LayoutIgnored | src/tokenizer.c:421-481 | A text assembles to what its bare lines assemble to, whatever its indentation, spaces, comments and blank lines |
| Layout.AnnotationsIgnored | src/tokenizer.c:421-481 | Indentation, spaces, remarks, comment lines and blank lines around and below the lines of a program make no difference to its executable |

## Left out

- Windows, rendering, key-code translation and the clearing of memory on quit in `src/screen.c`; only `write_input` is modelled.
- Error messages, warnings, highlighting, debug output, and trap-flag printing in the run loop. An erroneous line emits nothing and assembly goes on, as in the code.
- A few error paths that go on with a missing token, such as a bracketed stack operand whose expression has no register: the model treats them as errors without further effect.
- Files, command-line arguments and allocation failure, also in RESET.
- The FNV-1a hash: every result holds for an arbitrary hash function.
- `si_bucket_t` nodes as separately allocated heap objects: the nodes of the label table live in one address-indexed store, with the same links, so allocation and `free` are not modelled.
- The growth of `compiled` and of the other vectors: they are sequences.
- `strtol` reading past the end of a text that ends in a number, and characters outside ASCII. A text is taken to end in NUL.
- The line number of a token line as a count of newlines: an unknown word or a quotation can swallow a newline, and the code then counts fewer lines.
- Comments and empty lines in get_keyboard and the counter: they emit nothing, by `Layout.CommentsIgnored`, and are not among the lines those proofs start from.
- Weak memory: single-byte accesses are atomic and sequentially consistent.
- The instruction-boundary result does not cover JEXT or jumps to numeric addresses, and runs that execute code they have modified are outside all whole-run results.
- Stores through `{BP ...}` to bytes pushed since the frame was entered: the frame discipline allows them to declared arguments and locals only, since a saved frame pointer may be among the pushed bytes.
- Tabs, which the tokenizer takes for unknown words, are outside the layout results.
- The disassembler, the map iterator, `clear_map`, and the other programs of the repository.
