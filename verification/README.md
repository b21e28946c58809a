# Proofs about CDos-x86

CDos-x86 is a small operating system with a C64 inside it. This project models three of its parts and proves what they
are for.

**The 6502 interpreter and its memory.** `Memory.dfy` and `Interpreter.dfy` keep the program's form: objects with
fields and arrays, one flat switch over the opcodes, and a memory whose reads of the raster register (instruction
fetches included) change it. The program has no decoder. `Isa.dfy` and `Cpu.dfy` give an independent one: an opcode is
three bit fields, from which operation, addressing mode, length and cycles follow, and an instruction's meaning is a
function from machine states to machine states. The interpreter is proved equal to it. Everything about runs is then
proved of those functions:

* a programmer's manual, in bytes of RAM, registers and flags and without naming those functions: where each addressing
  mode points, what each operation leaves, how long it takes (`Manual.dfy`, `Operations.dfy`),
* invariants and cycle bounds over any interleaving of steps, interrupt requests and keys (`Runs.dfy`),
* the trace ring against the history of a run (`Trace.dfy`),
* the wrapping stack page as a LIFO stack, and nested calls on it (`Stack.dfy`, `Calls.dfy`),
* interrupts that the interrupted program cannot notice (`Interrupts.dfy`),
* n-byte arithmetic, first for chains of the byte operations (`Arithmetic.dfy`), then for machine-code programs that the
  stepping interpreter runs (`MultiByte.dfy`, `Shifts.dfy`),
* loops of 6502 code that end after an exact number of turns (`Programs.dfy`), one of which moves a page through
  zero-page pointers (`CopyLoop.dfy`),
* the C64 screen mirrored on the console (`MirrorCoherence.dfy`), and the C64 keyboard buffer (`Keys.dfy`).

**The disk.** `DiskImage.dfy` is the image builder, `CStrings.dfy` and `FileSystem.dfy` are the kernel's name comparison
and file system, over a disk any of whose sectors may fail to read. `RoundTrip.dfy` proves that what is built is read
back.

**The console and the line editor.** `Screen.dfy` updates the 80 by 25 page in place, `ConsoleLog.dfy` compares it with
an unbounded log, and `Transcript.dfy` a whole session at the prompt. `Editor.dfy` proves that the screen and the line
buffer agree and hold what was typed, `Numbers.dfy` that number texts read back, and `Tokens.dfy` that splitting a
command line in place leaves its words.

C integers are ranges of `int` (`Bytes.dfy`), with each truncation and wrap-around written out.

Where the code differs from its comments, or from what a reader might expect, the model follows the code:

* `kernel/cpu6502.h:30-34` says that the trace ring was widened to 128 entries; the constant is 64.
* A file longer than 2^32 - 512 bytes is one that `build_disk.py` accepts but `fs_read_file` reads nothing of, because
  rounding its length up to sectors wraps (`RoundTrip.AcceptedButUnread`). `RoundTrip.WholeFile` says exactly when a
  read delivers what the buffer has room for, and `RoundTrip.ReadBack` gives the outcome in both cases.
* The count returned is cast to `int`: when 2^31 bytes or more are delivered, which takes a buffer of that size, it comes
  back negative. `RoundTrip.ReturnedCount` says exactly when the number returned is the count.
* `build_disk.py` accepts two names that differ only in case, such as "A" and "a". The second file is on the disk, but no
  lookup finds it (`RoundTrip.FoundUnderOwnName`, `RoundTrip.ShadowedIsLost`).
* C64TYPE reports the line it was given as typed, but the C64's buffer holds ten keys, some of which may be pending from
  an earlier C64KEY or C64TYPE. `Keys.TypingIsComplete` says exactly when all of a line arrives: when pending keys and
  characters other than ESC are nine together at most. `Keys.PendingKeyLosesReturn` is a case where it does not.
* BRK halts, decimal mode has no effect, and `JMP ($xxFF)` reads its high byte from the next page, as in the code and
  unlike the chip.

## Model

| member | source | states |
|---|---|---|
| Interpreter.Cpu6502.Step | kernel/cpu6502.c:188-421 | The flat switch, with its fetch and trace recording, does in every state and for every opcode byte what the orthogonal decoder and the generic semantics say; the two debug counters count steps at $E3E0 and keep the first sp at $A06E |
| Interpreter.Cpu6502.RunOpcode | kernel/cpu6502.c:206-420 | The switch itself: each of its labels executes the decoded instruction, and every other byte only halts |
| Interpreter.Cpu6502.DoAdc | kernel/cpu6502.c:84-97 | Sum, carry, zero and sign as for a 9-bit sum; V exactly when the signed sum leaves -128..127 |
| Interpreter.Cpu6502.SignsClash | kernel/cpu6502.c:91-92 | The exclusive-or test on bit 7 is true exactly on signed overflow |
| Interpreter.Cpu6502.DoSbc | kernel/cpu6502.c:99-103 | Subtraction is addition of the inverted operand, in the whole state |
| Interpreter.Cpu6502.DoBranch | kernel/cpu6502.c:383-391 | A branch moves pc by a signed byte from past its operand, wrapping, and costs 2 cycles or 3 when taken |
| Interpreter.Cpu6502.JumpIndirect | kernel/cpu6502.c:395-402 | The pointer's high byte is read from the following address, across a page boundary too |
| Interpreter.Cpu6502.Irq | kernel/cpu6502.c:151-171 | Nothing when I is set or the machine is halted; otherwise the three-byte frame, I set, the vector followed, 7 cycles |
| Interpreter.Cpu6502.Reset | kernel/cpu6502.c:139-149 | A, X, Y and the clock 0, sp $FD, pc as given, only I and U set, live; memory and trace are left as they were |
| Interpreter.Cpu6502.TraceDumpOrdered | kernel/cpu6502.c:179-186 | The last count entries oldest first, for every count that does not index before the ring, nothing beyond them written, nothing in the machine changed |
| Decoding.LabelsAreLegal | kernel/cpu6502.c:206-420 | The decoder accepts an opcode byte if and only if the switch has a label for it |
| Orthogonal.DecodedIsWellModed | kernel/cpu6502.c:206-420 | Every decoded instruction pairs its operation with an addressing mode that makes sense of it |
| Orthogonal.PcAdvances | kernel/cpu6502.c:206-420 | An instruction that does not jump moves pc by its length modulo 65536 |
| Orthogonal.CompareIsSubtract | kernel/cpu6502.c:290-304 | Comparing sets C, Z and N as subtracting with carry set would, and changes nothing else |
| Manual.TargetReached | kernel/cpu6502.c:33-80 | Every memory mode reaches the address given by the instruction's bytes, the index registers and the pointer bytes in RAM, wrapping in page zero or at $FFFF as the mode does |
| Manual.AluStep | kernel/cpu6502.c:208-360 | One step of any operation that reads memory, in any mode, works on the byte at that address and moves on by the mode's length |
| Manual.StoreStep | kernel/cpu6502.c:218-249 | One step of any store, in any mode, changes just the byte at that address, to the register |
| Manual.RmwStep | kernel/cpu6502.c:280-289 | One step of a shift or count in memory changes just the byte at that address, and the flags |
| Manual.LdaZeroPageX | kernel/cpu6502.c:211 | LDA zp,X: the byte at zp + X within page zero, with Z and N |
| Manual.StaZeroPageX | kernel/cpu6502.c:220 | STA zp,X changes that byte alone |
| Manual.LdxZeroPageY | kernel/cpu6502.c:230 | LDX zp,Y: the byte at zp + Y within page zero |
| Manual.StxZeroPageY | kernel/cpu6502.c:236 | STX zp,Y changes that byte alone |
| Manual.LdaAbsoluteX | kernel/cpu6502.c:213 | LDA abs,X: the byte at the address plus X, modulo 65536 |
| Manual.StaAbsoluteX | kernel/cpu6502.c:222 | STA abs,X changes that byte alone |
| Manual.LdaAbsoluteY | kernel/cpu6502.c:214 | LDA abs,Y: the byte at the address plus Y, modulo 65536 |
| Manual.StaAbsoluteY | kernel/cpu6502.c:223 | STA abs,Y changes that byte alone |
| Manual.LdaIndirectX | kernel/cpu6502.c:65-71 | LDA (zp,X): the pointer at zp + X, wrapping in page zero |
| Manual.StaIndirectX | kernel/cpu6502.c:224 | STA (zp,X) stores through the same pointer |
| Manual.LdaIndirectY | kernel/cpu6502.c:73-80 | LDA (zp),Y: the pointer at zp, plus Y |
| Manual.StaIndirectY | kernel/cpu6502.c:225 | STA (zp),Y stores through the same pointer |
| Manual.PlainReads | kernel/cpu6502_mem.c:38-57 | $D012 and $DC01 are the only addresses not read from RAM |
| Operations.LogicLaw | kernel/cpu6502.c:305-340 | AND, ORA and EOR bit by bit, with Z and N of the result |
| Operations.BitLaw | kernel/cpu6502.c:341-351 | BIT: Z if and only if no bit is common, V and N are bits 6 and 7 of the byte, A is kept |
| Operations.LoadLaw | kernel/cpu6502.c:208-244 | A load fills its register and sets Z and N |
| Operations.CompareLaw | kernel/cpu6502.c:290-304 | C, Z and N of each comparison as inequalities on the bytes |
| Operations.AdcLaw | kernel/cpu6502.c:84-97 | Sum, carry, Z, N and two's-complement overflow |
| Operations.SbcLaw | kernel/cpu6502.c:99-103 | Difference, borrow, Z, N and two's-complement overflow |
| Operations.RmwLaw | kernel/cpu6502.c:105-137 | What ASL, ROL, LSR, ROR, INC and DEC make of a byte and leave in C, Z and N |
| Operations.AccumulatorLaw | kernel/cpu6502.c:361-381 | The shifts of A |
| Operations.CountLaw | kernel/cpu6502.c:274-278 | INX, INY, DEX, DEY |
| Operations.TransferLaw | kernel/cpu6502.c:251-257 | The six transfers; TXS leaves the flags alone |
| Operations.FlagLaw | kernel/cpu6502.c:265-272 | Each flag instruction changes its own flag and no other |
| Operations.BranchLaw | kernel/cpu6502.c:383-391 | Each branch is taken on its own flag, by a signed byte from past the operand |
| Operations.JmpAbsolute | kernel/cpu6502.c:394 | JMP goes to the address it names |
| Operations.JmpIndirect | kernel/cpu6502.c:395-402 | JMP (ind) goes to the word at the address, its high byte from the next page if need be |
| Operations.StatusLayout | kernel/cpu6502.c:260-263 | Which flag has which weight in the status byte |
| Operations.StatusBits | kernel/cpu6502.c:260-263 | Which bit of a pulled byte is which flag |
| Operations.PushLaw | kernel/cpu6502.c:259-263 | PHA and PHP store at $0100 + sp; PHP with B and U set |
| Operations.PullLaw | kernel/cpu6502.c:259-263 | PLA and PLP read at $0100 + sp + 1 within the page; PLP clears B and sets U |
| Operations.TimeLaw | kernel/cpu6502.c:206-420 | The clock counts each instruction's cycles modulo 2^64, and one more for a branch taken |
| Operations.IllegalLaw | kernel/cpu6502.c:417-419 | Any other opcode halts after one byte and no time |
| Operations.IdleLaw | kernel/cpu6502.c:413-415 | NOP moves on, BRK halts |
| Operations.PortLaw | kernel/cpu6502_mem.c:38-49 | LDA $DC01 gives $FF; LDA $D012 moves the beam one of 312 lines on and gives its low byte |
| Memory.C64Memory.IoRead | kernel/cpu6502_mem.c:38-49 | Reading the raster register moves the beam one line and shows its low byte; the keyboard port reads $FF |
| Memory.C64Memory.Read | kernel/cpu6502_mem.c:51-57 | RAM everywhere but at the two I/O addresses; only the raster counter can change |
| Memory.C64Memory.Write | kernel/cpu6502_mem.c:59-70 | RAM changes in one byte; a screen address also reaches the console cell and the hardware cursor |
| Runs.StepSummary | kernel/cpu6502.c:188-421 | One step of a live machine: exactly the writes its opcode and operand give, two at most, one trace entry, at least 2 and at most 7 cycles unless the opcode has no label, B clear and U set kept, and it halts if and only if it fetches BRK or an opcode without a label, one byte on |
| Runs.IrqSummary | kernel/cpu6502.c:151-171 | An accepted interrupt makes three writes, at the three stack slots from sp down, and costs 7 cycles |
| Runs.KeySummary | kernel/c64.c:92-116 | A key from outside writes the buffer byte and the count, or nothing |
| Runs.RunSummary | kernel/cpu6502.c:188-421 | Over any run of steps, interrupts and keys, memory ends as the writes of its events leave it, in order |
| Runs.EventChanges | kernel/cpu6502.c:151-421 | Each step or key changes at most two bytes of RAM, each interrupt at most three |
| Runs.RunKeepsStatus | kernel/cpu6502.c:139-421 | U stays set and B clear over any run of steps, interrupts and keys |
| Runs.RunCycles | kernel/cpu6502.c:188-421 | A run still live after n steps and m accepted interrupts took between 2n+7m and 7n+7m cycles |
| Runs.FromReset | kernel/cpu6502.c:139-149 | Both, for every run from reset |
| Runs.HaltIsFinal | kernel/cpu6502.c:188-190 | Steps and interrupts leave a halted machine exactly as it is |
| Trace.DumpIsHistory | kernel/cpu6502.c:173-197 | After any run from power-on, a dump of count entries is the tail of the run's (pc, opcode) history, zeros before its start; entries beyond the ring's 64 repeat newer ones |
| Trace.HaltIsTraced | kernel/cpu6502.c:415-419 | The newest entry after a halt is the halting instruction, at pc - 1, and later steps and interrupts change nothing |
| Stack.PushHolds | kernel/cpu6502.c:21-25 | A push puts one byte on top of what page 1 holds, across the wrap of sp |
| Stack.PopHolds | kernel/cpu6502.c:27-31 | A pop takes off the top byte and returns it |
| Stack.StackRefinesList | kernel/cpu6502.c:21-31 | Any sequence of pushes and pops within 256 bytes pops and leaves what a list would |
| Calls.JsrPushes | kernel/cpu6502.c:403-406 | JSR pushes the address of its own last byte and goes to the address it names |
| Calls.RtsPops | kernel/cpu6502.c:407-408 | RTS goes to the byte after the address on the stack |
| Calls.CallAndReturn | kernel/cpu6502.c:403-408 | A call of a lone RTS is back at pc + 3, with sp as before, after two steps |
| Calls.CallsNest | kernel/cpu6502.c:403-408 | Calls up to 128 deep, with anything in between that leaves sp and the pending return bytes alone: each JSR lands at the address it names, each RTS just after its own JSR |
| Calls.BalancedCalls | kernel/cpu6502.c:403-408 | A path that returns from all it called ends with sp where it began |
| Calls.RunCallsNest | kernel/cpu6502.c:403-408 | The same of a run of the machine, with any runs of steps, interrupts and keys between the calls that leave sp and the pending return bytes alone |
| Calls.BalancedRun | kernel/cpu6502.c:403-408 | Such a run that returns from all it called ends with sp where it began |
| Interrupts.FlagsRoundTrip | kernel/cpu6502.c:260-263 | Pushing the status register as a byte and reading it back loses nothing |
| Interrupts.IrqIsMasked | kernel/cpu6502.c:151-171 | A request changes nothing while I is set or the machine is halted, and otherwise goes to the word at $FFFE with I set |
| Interrupts.IrqThenRti | kernel/cpu6502.c:151-171 | Whatever runs after an accepted interrupt, RTI on the frame it left restores pc, p and sp exactly |
| Interrupts.InterruptTransparency | kernel/cpu6502.c:409-411 | The same from every state that a run from reset reaches, for every run as the handler's body |
| Interrupts.SavingSpares | kernel/cpu6502.c:151-171 | Interrupt entry and PHA/TXA/PHA/TYA/PHA change no byte of RAM but the six stack slots they push to |
| Interrupts.HandlerIsTransparent | kernel/cpu6502.c:259-263 | A handler that saves A, X and Y by PHA/TXA/TYA and restores them is invisible to the interrupted program, wherever in page 1 its frame falls: registers, status, pc and sp are back, and RAM differs only in six dead stack slots and where the handler's body changed it |
| Interrupts.HandlerRunIsTransparent | kernel/cpu6502.c:151-171 | The same from every state that a run from reset reaches, with the saving code at the word in $FFFE, as one run: interrupt, saving, any run as the body, restoring, RTI |
| Arithmetic.AddChain | kernel/cpu6502.c:84-97 | n ADCs over little-endian operands leave the n-byte sum with its carry in C |
| Arithmetic.AddOverflow | kernel/cpu6502.c:90-92 | The final V is n-byte two's-complement overflow |
| Arithmetic.SubChain | kernel/cpu6502.c:99-103 | n SBCs leave the difference modulo 256^n; C is set if and only if nothing was borrowed |
| Arithmetic.SubOverflow | kernel/cpu6502.c:99-103 | The final V is n-byte overflow of the difference |
| Arithmetic.AslDoubles | kernel/cpu6502.c:105-128 | ASL and ROLs double an n-byte number modulo 256^n, the lost bit in C |
| Arithmetic.LsrHalves | kernel/cpu6502.c:113-137 | LSR and RORs give the quotient by two, the remainder in C |
| Arithmetic.RotationsCancel | kernel/cpu6502.c:121-137 | n-byte rotations left and right undo each other, carry included |
| MultiByte.AdditionProgram | kernel/cpu6502.c:188-421 | The LDA/ADC/STA program of n blocks, run by 3n+1 steps, stores the sum with C and V, and changes no other byte |
| MultiByte.SubtractionProgram | kernel/cpu6502.c:188-421 | The same for SEC and LDA/SBC/STA |
| Shifts.DoublingProgram | kernel/cpu6502.c:361-381 | ASL/ROL over n bytes in memory, run by n steps, doubles the number where it lies and changes no other byte |
| Shifts.HalvingProgram | kernel/cpu6502.c:361-381 | LSR/ROR over n bytes in memory halves it, the remainder in C |
| Shifts.RotateProgramsCancel | kernel/cpu6502.c:361-381 | The ROL program, then the ROR program: all of RAM and C are as before |
| Shifts.RotateBackCancels | kernel/cpu6502.c:361-381 | The ROR program, then the ROL program: all of RAM and C are as before |
| Programs.CountingLoopHalts | kernel/cpu6502_test.c:9-33 | The self-test loop, for every bound and at every address clear of I/O, halts after exactly 3k+2 steps with X equal to the bound and Z set |
| Programs.RasterWaitEnds | kernel/cpu6502_mem.c:38-57 | LDA $D012 / CMP #v / BNE leaves its loop after exactly the turns the beam needs to show v, at most 312 |
| CopyLoop.CopyMovesPage | kernel/cpu6502.c:206-420 | LDA (p),Y / STA (q),Y / INY / BNE moves the 256 bytes of a page in 1024 steps and changes no other byte, the source ahead of the copy or apart from it |
| MirrorCoherence.MirrorNeverClips | kernel/cpu6502_mem.c:63-69 | For a screen address the console's bounds checks never bite, and the cursor is one cell to the right |
| MirrorCoherence.WriteLaw | kernel/cpu6502_mem.c:59-70 | The whole console after any write: one white-on-black cell and the cursor for addresses 1024 to 2023, nothing for any other |
| MirrorCoherence.GlyphOfCode | kernel/cpu6502_mem.c:16-36 | The character of every screen code |
| MirrorCoherence.WritesAreMirrored | kernel/cpu6502_mem.c:59-70 | After any writes, every screen byte written shows on the console as RAM holds it, no other cell changes, the cursor follows the last screen write |
| MirrorCoherence.RunIsMirrored | kernel/cpu6502_mem.c:16-36 | The same over any run of the machine, for the run's own writes, the hardware cursor included; columns 40 to 79 never change |
| Keys.BufferTakesWhatFits | kernel/c64.c:92-116 | Whatever the buffer holds already, any keys append as many translated codes as there is room for, in order, and nothing else differs in memory |
| Keys.KeyLaw | kernel/c64.c:103-109 | Either case of a letter arrives in upper case, line feed as RETURN, backspace as DEL, the rest as it is |
| Keys.KeyGoes | kernel/c64.c:84-116 | Into the byte at $277 plus the count at $C6, which grows by one, below ten keys and never for ESC |
| Keys.TypingIsComplete | kernel/shell.c:432-442 | A line and its RETURN arrive in full if and only if the keys pending and the line's characters other than ESC are nine together at most |
| Keys.PendingKeyLosesReturn | kernel/shell.c:420-442 | One pending key and a line of nine characters: the nine arrive and the RETURN does not |
| Keys.Host.InjectKey | kernel/c64.c:92-116 | The in-place version: memory, the exit request and the call counter after a key |
| Keys.Host.ExitWasRequested | kernel/c64.c:123-130 | Answers whether ESC came, once |
| Keys.Host.TypeLine | kernel/shell.c:432-442 | The whole line and RETURN are injected in order |
| Screen.Console.ScrollIfNeeded | kernel/console.c:35-48 | One scroll always suffices, and moves the line's start along |
| Screen.Console.CopyRowsUp | kernel/console.c:40-42 | The overlapping in-place copy moves each cell up one row |
| Screen.Console.Putchar | kernel/console.c:73-86 | The whole display after a character, scrolled if need be |
| Screen.Console.Clear | kernel/console.c:57-66 | A blank page with both positions and the hardware cursor at its start |
| Screen.Console.Backspace | kernel/console.c:88-95 | Erases one cell, never before the line's start |
| Screen.Console.PutcharAt | kernel/console.c:97-102 | Sets one cell, or nothing outside the page |
| Screen.BackspaceLaw | kernel/console.c:88-95 | A backspace at the line's start does nothing, elsewhere it blanks the cell before the cursor and moves both cursors there |
| Screen.ScrollLaw | kernel/console.c:35-48 | When the page scrolls, where the cursor then is, and where the line starts |
| Screen.PutAtLaw | kernel/console.c:97-102 | The cell written inside the 80 by 25 page, and no change outside it |
| Screen.NearestCell | kernel/console.c:21-33 | The hardware cursor names the cell asked for or the nearest one on the page |
| Screen.Console.SetHwCursor | kernel/console.c:21-33 | The two port writes set the clamped position |
| Screen.Console.PrintDec | kernel/console.c:137-151 | Prints exactly the decimal digits; the ten-digit buffer never cuts a number short |
| Screen.Console.PrintHex | kernel/console.c:112-123 | Prints 0x and exactly eight digits |
| ConsoleLog.PageShowsLog | kernel/console.c:73-86 | From a cleared page, any characters leave exactly the last rows of the unbounded log, the cursor after its last cell, blanks from there on |
| Editor.KeyKeepsStep | kernel/shell.c:667-686 | Each key keeps prompt and line on the screen before the cursor, and the line's start at its distance, across scrolls |
| Editor.PromptInStep | kernel/shell.c:18-28 | A fresh prompt brings screen and line buffer in step, whatever was on the screen |
| Editor.EditorStaysInStep | kernel/shell.c:667-686 | The same for all key sequences, whatever the commands print; the line stays within 127 characters |
| Editor.LineIsHeld | kernel/shell.c:667-686 | After any keys the line is the text defined from the keys alone: what was typed since Enter, less what backspaces took back, 127 characters at most |
| Editor.CommandIsHeld | kernel/shell.c:669-671 | On Enter the command is handed that text as a C string |
| Editor.Shell.InputChar | kernel/shell.c:667-686 | The in-place editor: display and line together after a key, and the C string in the buffer that Enter hands to the command |
| Transcript.SessionShowsLog | kernel/shell.c:667-686 | After a session without backspaces whose commands only print, the page shows the last rows of the log of prompts, keys, new lines and output, read off the keys |
| Numbers.ParseNumber | kernel/shell.c:30-76 | Accepts exactly the non-empty digit strings in decimal, 0x or $ form, and returns their positional value modulo 2^32 |
| Numbers.PrintedNumbersRead | kernel/console.c:112-151 | Reading the printed text of any 32-bit number, in either notation, gives it back |
| Numbers.PrefixesAgree | kernel/shell.c:34-66 | $, 0x and 0X before the same digits mean the same |
| Numbers.NoNumber | kernel/shell.c:36-70 | No digits, or a character that is not a digit, is no number |
| Numbers.DecimalElse | kernel/shell.c:68-75 | A text with none of the prefixes is read as decimal |
| Numbers.PositionalLaw | kernel/shell.c:44-71 | A digit more multiplies what stood before by the base and adds its value |
| Numbers.DigitLaw | kernel/shell.c:38-44 | A digit counts by its place among the digits, in either case |
| Numbers.PrintedForm | kernel/console.c:112-151 | Hexadecimal prints 0x and eight capital digits, decimal no leading zero |
| Tokens.Tokenize | kernel/shell.c:78-91 | The pointers left are C strings equal to the line's first words, at most four, after the zeros are written into the line |
| Tokens.WordsComeBack | kernel/shell.c:83-88 | Words with any spaces before, between and after them are the words found |
| CStrings.NCaseCompare | kernel/string.c:28-33 | Zero if and only if the first n characters are the same or the same letters in different cases, byte by byte, with an operand that need not be terminated within them |
| CStrings.CaseCompare | kernel/string.c:22-26 | Zero if and only if the strings are the same byte by byte but for the case of letters |
| FileSystem.FileStore.Mount | kernel/fs.c:8-35 | Its three results, and the directory that lookups see after each |
| FileSystem.FileStore.Find | kernel/fs.c:37-48 | The first matching entry; failure if and only if there is none |
| FileSystem.FileStore.List | kernel/fs.c:50-58 | Every entry once, in order, or failure before a mount |
| FileSystem.ReadFile | kernel/fs.c:60-86 | The prefix delivered, the rest of the buffer unchanged, the sectors asked for, and what is left after a sector that cannot be read |
| FileSystem.SectorsNeededCovers | kernel/fs.c:62 | Rounding up to sectors is right if and only if the length is at most 2^32 - 512 |
| FileSystem.TouchedLaw | kernel/fs.c:60-86 | A read asks for just as many sectors as hold what it delivers, and for one when the buffer is empty |
| FileSystem.EntryLaw | kernel/fs.c:20-31 | Which bytes of sector 0 an entry is read from, low byte first |
| DiskImage.Build | tools/build_disk.py:17-79 | An image if and only if the files fit, byte for byte the layout; otherwise the complaint that comes first |
| DiskImage.OneComplaint | tools/build_disk.py:21-64 | At most one complaint meets the builder's contract for given files and size, and none does when they fit |
| RoundTrip.WhatFits | tools/build_disk.py:21-64 | In plain numbers: 21 files, ASCII names of 15 characters, 32-bit lengths, and the room |
| DiskImage.Plan | tools/build_disk.py:25-45 | Extents and the sector total, or the first name that is too long |
| DiskImage.PackDirectory | tools/build_disk.py:55-64 | The directory sector, or the first entry that cannot be packed |
| DiskImage.PackEntry | tools/build_disk.py:59-64 | One entry packed in place behind the others, or what is wrong with it |
| DiskImage.WriteFiles | tools/build_disk.py:66-79 | Every file behind the directory, filled up to whole sectors |
| RoundTrip.DirectoryReads | kernel/fs.c:17-31 | The kernel reads back from sector 0 exactly the entries the builder packed |
| RoundTrip.HeaderBytes | tools/build_disk.py:55-56 | The sector starts with the letters SFDC and the number of files |
| RoundTrip.EntryBytesLaw | tools/build_disk.py:58-64 | Each entry byte by byte: the name filled up with zeros, first sector and length low byte first |
| RoundTrip.DirectoryTail | tools/build_disk.py:55 | Zeros behind the last entry |
| RoundTrip.ImageIsZeroBetween | tools/build_disk.py:73-79 | Zeros from the end of each file to its sector's end, and behind the last file |
| RoundTrip.LookupMatches | kernel/string.c:28-33 | A lookup matches a built entry if and only if the names agree byte by byte but for the case of letters |
| RoundTrip.FirstMatchIsNamed | kernel/fs.c:37-48 | So a lookup finds file i if and only if it is the first whose name agrees |
| RoundTrip.FoundUnderOwnName | kernel/fs.c:37-48 | A built file is found under its own name if and only if no earlier name agrees with it but for case |
| RoundTrip.ShadowedIsLost | kernel/fs.c:37-48 | A file whose name repeats an earlier one but for case is found by no query |
| RoundTrip.ExtentsInOrder | tools/build_disk.py:25-45 | Extents follow one another from sector 1 without overlap |
| RoundTrip.StartLaw | tools/build_disk.py:26-45 | The first file starts at sector 1, and each takes just the sectors its bytes need |
| RoundTrip.ExtentInside | tools/build_disk.py:47-53 | Every extent lies inside the image |
| RoundTrip.FileInImage | tools/build_disk.py:66-79 | Each file's bytes lie at its extent |
| RoundTrip.SectorNumbersFit | tools/build_disk.py:25-45 | Sector numbers of a buildable directory stay below 2^28, so the kernel's never wrap |
| RoundTrip.WholeFile | kernel/fs.c:62-86 | For every buffer, a read delivers min(length, max_len) if and only if the length is at most 2^32 - 512 or max_len is 0; above that length it delivers nothing |
| RoundTrip.ReturnedCount | kernel/fs.c:62-85 | The int returned is min(length, max_len) if and only if the length is at most 2^32 - 512 and that minimum is below 2^31, or max_len is 0; it is negative if and only if at least 2^31 bytes are delivered |
| RoundTrip.AcceptedButUnread | tools/build_disk.py:51-63 | A file of 2^32 - 1 bytes fits a 4097 MB image, and a 512-byte buffer then gets none of it |
| RoundTrip.FileReads | kernel/fs.c:60-86 | For every file and buffer, the sectors fs_read_file asks for can all be read and start with the bytes of the file that it delivers |
| RoundTrip.ReadBack | tools/build_disk.py:17-79 | Build, mount, find in any letter case and read, for every file the builder takes and every buffer: the buffer starts with min(length, max_len) bytes of the file and the rest is unchanged, or all of it is when the file is longer than 2^32 - 512 |

## Left out

- Port I/O, ATA, GDT, IDT, interrupt controller and assembly: device plumbing. A disk is a sequence of sectors that may
  fail to read, and sector numbers are not cut to the 28 bits of the ATA command, which for a built image never matters
  (`RoundTrip.SectorNumbersFit`). The console page is an array and the CRT controller's cursor a field.
- `kernel/keyboard.c`, shell command dispatch and command bodies, PEEK, POKE and DUMP: the editor's proofs hold for
  whatever a command does through the console's functions.
- ROM images and what KERNAL and BASIC do in them; `c64_init` and its loading of ROMs.
- Decimal mode, the indirect-jump page bug, BRK vectoring, page-crossing cycles and illegal opcodes: not in the code.
- `console_print_hex_w`, `k_strlen`, `k_strcmp` and `k_strchr`: would only add easy members.
- Listing, sorting and opening files on the host: the builder is given names and contents in order, and a file's size is
  the length of its contents.
- Interpreter.Cpu6502.Step: the status register is a record of eight bits, turned into a byte where it is pushed. The
  switch is cut into one method a section, and phrases that its cases repeat are methods of their own.
- Runs.RunCycles: bounds the cycles of runs whose upper bound is below 2^64, where the counter cannot wrap.
- RoundTrip.ReadBack: file names hold no NUL, which no host file system allows in them.
- Calls.CallsNest: what runs between calls is any change of state that keeps the pointer and the pending bytes.
