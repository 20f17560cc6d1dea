# The virtual machine, its assembler and its ROM, proved to agree

The repository is a 32-bit virtual machine written in C, the two-pass assembler that targets it,
written in Rust, a small ROM interrupt dispatcher in the machine's own assembly, and a Lua
generator that numbers the instructions for both sides. This project models all of them and proves
that they agree: that the addresses the assembler computes are the addresses the CPU jumps to, that
the bytes the emitter writes are what fetch and decode read back, that the CPU enters the ROM where
the dispatcher was assembled, and what whole programs then compute.

## How it is laid out

There are two layers. The lower one consists of values: a machine state (`Machine.State`) over a flat
memory (`FlatMemory.Flat`, words by address plus the set of read-only addresses), one function per
family of operations, `Step` for a turn of the CPU loop, `Run` for many, and `OpenRun` for many with what the devices
trigger before each of them. The upper layer has the
source's own form: the classes `Memory`, `Bus`, `Pic`, `Cpu`, `Parser`, `Generator` and `Lexer` update
fields and arrays in place, with the source's loops, and every method is proved against the value
layer. Theorems about runs are proved on the values and hold of the classes through their contracts
(`Cpus.Cpu.Loop`, `Buses.Bus.WordRead`, `Loader.LoadFile`, and so on).

| files | what they hold |
|---|---|
| `words`, `isa`, `arch`, `machine`, `openruns` | words, bytes and byte order; the instruction set; address map; pending and mask banks; the machine; runs with device triggers |
| `meaning`, `texts` | what each operation does, in registers, flags, stack and memory; what each line of text is assembled to, and what it does when loaded |
| `assembler`, `symbolic` | the two passes; symbolic semantics on the node list; the simulation theorem |
| `execution`, `rom`, `fibonacci`, `footprint`, `pusha` | consequences for programs: dispatcher, Fibonacci, what memory a run can change, PUSHA and POPA |
| `zones`, `busruns`, `memory`, `bus` | zone lists, bus histories, the memory and bus objects |
| `pic`, `interleaving` | the interrupt controller, and its scans interleaved with device triggers |
| `cpu` | the CPU object |
| `assembling`, `loader`, `layout`, `vm`, `boot`, `endtoend` | from files to an image, loading images, the machine's address map, its construction, booting, and running a program from text to result |
| `grammar`, `parser`, `printing`, `lines`, `literals`, `numbering` | the parser and its operand grammar, which lines it accepts, numeric literals, opcode numbering |

## Main results

- **Simulation.** A run of the assembly text on the symbolic machine, where control is a node index
  and jumps name labels, is a run of the CPU on the loaded image, instruction for instruction
  (`Simulation.RunSimulates`); with interrupts off it stays one whatever the devices trigger
  (`Execution.QuietSimulates`). It rests on the agreement of the two passes (`Assembler.ImageLength`)
  and on addresses naming at most one node (`Symbolic.PlacesDiffer`).
- **What operations mean.** Each operation is characterised on registers, flags, stack and memory apart
  from the functions that execute it (`Meaning.AluMeans`, `Meaning.PushMeans`, `Meaning.MaskMeans` and
  the like). In a loaded text a `CMP` with a `JEQ` or `JNE` behind it leads to the label exactly on
  equality or inequality (`Texts.ComparesAndJumps`), and a `#word` is in memory, and is loaded, as the
  number declared (`Texts.LoadsDeclared`).
- **Interrupt round trip.** From any state that takes an interrupt, eight instructions of the
  assembled dispatcher reach the handler named in the descriptor table; when the handler comes back
  balanced, two more restore pc, sp and all general registers, but not the flags
  (`Rom.InterruptRoundTrip`). No program
  can change the dispatcher (`Rom.RomStays`). Devices may trigger anything at any time meanwhile.
- **Fibonacci.** The recursive example, run while devices trigger whatever they like, halts after an
  exact number of turns with Fibonacci of r0 modulo 2^32 when the stack suffices, on the reset stack
  if and only if `r0 <= 512`; otherwise it panics on a push below address 0
  (`Fibonacci.FibonacciProgram`). `EndToEnd.RunFibonacci` parses the lines of the source, assembles
  them, builds the machine, loads, boots and runs it with the classes.
- **Bus.** Over every history of attaches, stores and registrations the zones are a flat memory
  (`BusRuns.BusRefinesFlat`), and notifications survive re-zoning (`BusRuns.SignalsAreRegistrations`).
- **Interrupts under interleaving.** Nothing is taken that is not pending and unmasked, nothing is
  taken more often than triggered, nothing pending is lost (`Interleaving.Conservation`,
  `Interleaving.TriggerStays`). The scans are linearizable: however triggers fall between their reads,
  they do what the machine's atomic turn does for some order of those triggers
  (`Interleaving.Linearizes`).
- **Read-only memory.** No program changes a read-only word (`Footprint.RunKeepsReadOnly`).
- **Parsing.** Exactly when a mnemonic's alternatives succeed more than once, and exactly when a
  success takes one line (`Grammar.Unambiguous`, `Grammar.OneLine`); the parser undoes printing
  (`Printing.ParseUndoesPrint`). A mnemonic accepts exactly the lines of its instructions, with at most
  a variable in the place of a number (`Lines.LineReads`, `Lines.Accepted`), so that whatever parses
  prints back (`Lines.ParsedPrintsBack`).

## Where the code falls short of what one would expect

Each of these is a lemma: either with a concrete input, or as an exact condition.

- An interrupt disturbs the program it interrupts: the flags afterwards describe r0, and are unchanged
  exactly when they did so before (`Rom.InterruptRoundTrip`); ir keeps the handler's value. Between a
  `CMP r0, 1` that finds equality and its `JNE` an interrupt makes the jump go the wrong way
  (`Rom.ComparisonLost`), so programs like the recursive Fibonacci need interrupts off.
- An empty memory at address 0, which `--ram 0` makes, claims every address and drives the bus into
  its abort branches or past its array (`Zones.NeverAborts` says exactly when, for reads and for
  writes; `Layout.EmptyRamAborts` is about the machine's own map).
- Attaching checks only the start of the new zone. Disjointness is kept exactly when the new zone
  covers no start of an old one (`Zones.AttachDisjoint`); the machine's own map is disjoint exactly
  when the rounded RAM size is positive and ends at or below the first device
  (`Layout.MapIsDisjoint`).
- The zone list does not stay sorted behind a zone whose end wraps (`Zones.WrapUnsorts`) nor in front
  of an empty one (`Zones.EmptyUnsorts`). It does exactly when every zone that starts at or beyond the
  new start without ending beyond it has an earlier zone that does end beyond it
  (`Zones.AttachSortedIff`).
- A PUSHA whose earlier stores failed reports success when its last store succeeds
  (`SaveRestore.PushaOutcome` says exactly when; `Booting.PushaForgetsFailure` shows it on every
  machine, 31 words above the end of the RAM).
- `CMP` sets the n flag to signed less-than exactly when the true difference fits in 32 bits
  (`Execution.CompareFlags`; `Execution.CompareOverflows` is a pair for which it does not).
- The parser runs all alternatives on one stream. A line followed by bare operands can therefore
  succeed twice (`Grammar.TwoSuccesses`), and a line that names an undefined variable after a PUSH is
  swallowed without an error (`Grammar.SwallowedLine`, `Parsers.SwallowedText`). A second success
  happens exactly when a later alternative succeeds behind the line, and more than the line is taken
  exactly when a later alternative fits there; with a legal start of a line neither is the case
  (`Grammar.LegalFollowUp`).
- `[r + $var]` is never accepted, although the parser has a case for it (`Grammar.IndexedNeedsLiteral`).
- The recursive Fibonacci is not correct for all inputs; see above.

## Model

| member | source | states |
|---|---|---|
| Words.BitwiseBit | src/vm/ops.c:604-701 | every bit of AND, OR, XOR and and-not on words is the truth table on the bits |
| Words.BeInverse | src/vm/vmarch.c:98-107 | four bytes read as a big-endian word and written again are the same bytes |
| Words.BeInverseWord | src/asm/emitter.rs:47-87 | a word written as big-endian bytes reads back as itself |
| Words.LoadedWord | src/vm/main.c:136-138 | a file word read by the host and swapped has its big-endian value, whatever the host's byte order |
| Words.FetchedBytes | src/vm/cpu.c:91-114 | swapping a fetched word back and indexing its bytes gives the bytes of the file, on either host |
| Isa.LengthIsWords | bin/thi.lua:155-163 | the rounded sum of operand sizes is one word, or two words exactly for operations with an immediate |
| Isa.DecodeInvertsCode | src/vm/cpu.c:109-114 | decoding the code of any operation gives that operation |
| Isa.CodeInvertsDecode | src/vm/cpu.c:109-114 | a code that decodes is the code of the operation it decodes to |
| Interrupts.FirstFrom | src/vm/pic.c:110-124 | the scan result is the lowest pending and unmasked interrupt, and 0 when there is none |
| Interrupts.SetBitHas | src/vm/pic.c:88-92 | setting an interrupt's bit touches that interrupt and no other of the 256 |
| Interrupts.ClearBitHas | src/vm/pic.c:94-97 | clearing an interrupt's bit touches that interrupt and no other |
| Machine.RunSplit | src/vm/cpu.c:44-89 | a run of a + b turns is a run of a turns followed by one of b turns |
| OpenRuns.SetAllHas | src/vm/pic.c:88-92 | triggering a list of interrupts adds exactly those to the pending ones |
| OpenRuns.OpenSplit | src/vm/cpu.c:44-89 | runs under device triggers compose |
| OpenRuns.ClosedRun | src/vm/cpu.c:44-89 | a run in which no device triggers anything is the run of the loop alone |
| OpenRuns.ExecBlind | src/vm/ops.c:65-863 | no operation looks at the pending bits, and only INT changes them |
| OpenRuns.CycleBlind | src/vm/cpu.c:67-83 | a turn that takes no interrupt depends on pending bits in nothing but pending bits, and loses none |
| OpenRuns.PendingStays | src/vm/cpu.c:52-66 | over every run and every schedule of triggers a pending interrupt stays pending until a turn takes it |
| Meaning.ReadsRegister | src/vm/cpu.c:144-171 | 250 to 255 read idt, ir, sp, bp, pc and cs, a number below the count reads that general register, and any other reads nothing |
| Meaning.SetsRegister | src/vm/cpu.c:173-201 | setting a register changes the one its number names and makes the flags describe the value, sign bit and zero; a number that names none is an error that changes nothing |
| Meaning.SetThenGet | src/vm/cpu.c:144-201 | a register that was set reads as the value, and every other as before |
| Meaning.MovMeans | src/vm/ops.c:251-273 | MOV puts the second operand, register or constant, into the first |
| Meaning.LoadMeans | src/vm/ops.c:435-470 | LOAD puts the word at the address in its register, or at its constant, into the first operand, or fails where nothing is mapped |
| Meaning.LoadIndexedMeans | src/vm/ops.c:472-493 | the indexed LOAD reads at the sum of register and constant modulo 2^32 |
| Meaning.StorMeans | src/vm/ops.c:395-433 | STOR writes the second register at the address in the first, or the register at the constant address, and nothing else; where the word cannot be written it fails |
| Meaning.LogicIsBitwise | src/vm/ops.c:604-701 | bit i of AND, OR and XOR is the conjunction, disjunction and inequality of the operands' bits i |
| Meaning.ComputeMeans | src/vm/ops.c:495-701 | the six functions: sum, difference and product modulo 2^32 on unsigned operands, and the three logical ones bit by bit |
| Meaning.AluMeans | src/vm/ops.c:495-701 | after a two-register instruction the first register holds what its function makes of the two operands in their order, the flags describe it, and nothing else has changed |
| Meaning.AluImmMeans | src/vm/ops.c:495-701 | the same with a constant, which is fetched before the register is read |
| Meaning.AluRegisters | src/vm/ops.c:495-701 | the same for general registers whatever the last outcome was |
| Meaning.CountMeans | src/vm/ops.c:703-726 | INC adds 1 and DEC takes 1 modulo 2^32 |
| Meaning.CmpMeans | src/vm/ops.c:275-290 | CMP of two registers sets zero on equality and negative to the sign of the difference modulo 2^32, first minus second, and changes nothing else |
| Meaning.CmpImmMeans | src/vm/ops.c:292-307 | the same with a constant; here the register is read before the fetch |
| Meaning.JumpMeans | src/vm/ops.c:309-393 | with the flags of a comparison of x and y, JEQ goes to its target exactly when x == y and JNE exactly when x != y, J always; `@` counts from cs; a jump not made goes on behind its operand |
| Meaning.CallMeans | src/vm/ops.c:728-775 | CALL stores the address behind it below sp and goes to its target, constant, cs plus constant, or register; it stays when the store fails |
| Meaning.ReturnMeans | src/vm/ops.c:777-796 | RET and IRET go to the word at sp and move sp up; IRET enables interrupts; an unreadable word fails and changes nothing |
| Meaning.PushMeans | src/vm/ops.c:81-154 | PUSH stores its one, two or three registers from left to right, each a word lower, forgetting the failure of all but the last |
| Meaning.PushImmMeans | src/vm/ops.c:94-105 | PUSH of a constant stores it below sp |
| Meaning.PopMeans | src/vm/ops.c:171-234 | POP fills its one, two or three registers from left to right and gives up at the first unreadable word |
| Meaning.PushPopTwo | src/vm/ops.c:107-126 | after `PUSH a, b` the words below sp are a, then b, and `POP b, a` restores registers and sp; the flags then describe a |
| Meaning.PushPopThree | src/vm/ops.c:128-154 | after `PUSH a, b, c` the three words below sp are these registers in that order, and `POP c, b, a` restores registers and sp |
| Meaning.RegistersPushed | src/vm/ops.c:81-154 | any list of registers pushed on a writable stack stands there word by word, the first one highest, and nothing but sp and memory has changed |
| Meaning.RegistersPopped | src/vm/ops.c:171-249 | popped in the opposite order the registers and sp are what they were |
| Meaning.MaskMeans | src/vm/ops.c:805-817 | for all i and j: after `MI i` interrupt j is masked iff it is i or was masked, after `UMI i` iff it is not i and was masked |
| Meaning.MaskBit | src/vm/pic.c:46-79 | MI sets and UMI clears bit i % 32 of mask word i / 32 in memory, and nothing but that word changes |
| Meaning.MaskedNotTaken | src/vm/pic.c:110-124 | a turn never takes a masked interrupt, whatever arrives before it |
| Meaning.MaskedWaits | src/vm/ops.c:805-810 | after `MI i` no turn takes i as long as it stays masked, under every schedule of device triggers, and if pending it stays pending |
| Meaning.TriggerMeans | src/vm/ops.c:798-803 | INT makes its interrupt pending and no other |
| Meaning.SwitchMeans | src/vm/ops.c:819-827 | IND disables and INE enables interrupts |
| Meaning.StopMeans | src/vm/ops.c:69-79 | HALT stops the machine and PANIC fails it |
| Meaning.IdleMeans | src/vm/ops.c:829-863 | NOP, WFI and the debugging operations leave the modelled state alone |
| Meaning.NoRegisterFails | src/vm/ops.c:262-701 | a second operand that names no register fails the operation and changes nothing |
| Meaning.NoAddressFails | src/vm/ops.c:395-493 | the same for LOAD and STOR |
| Meaning.NoTargetFails | src/vm/ops.c:292-775 | a first operand that names no register fails INC, DEC, CALL and CMP before anything is fetched |
| Meaning.NoTargetBehindConstant | src/vm/ops.c:251-701 | arithmetic, MOV and STOR with a constant have fetched it by then |
| Meaning.TargetMissing | src/vm/ops.c:309-393 | a jump that is made fails behind its operand when that cannot be read; one that is not made does not look |
| Meaning.ConstantMissing | src/vm/cpu.c:91-107 | an operation whose constant cannot be read fails behind it |
| Meaning.FetchFails | src/vm/cpu.c:67-83 | a word that cannot be fetched, and one whose first byte is no code, stop the machine with pc behind it |
| Assembler.OffsetMonotone | src/asm/address_resolver.rs:19-40 | label positions never decrease along the text |
| Assembler.AssignOffsets | src/asm/address_resolver.rs:19-40 | pass 1 succeeds iff labels are unique and the text stays below 4 GB; then the map has exactly the labels, each with the bytes before it; a duplicate error names a label defined twice, an overflow error means the text is too long |
| Assembler.MissingTarget | src/asm/address_resolver.rs:42-51 | finds a target iff some jump or call uses a name that is no label, and the name it gives is one |
| Assembler.Resolve | src/asm/address_resolver.rs:16-54 | pass 1 as a whole succeeds iff the text is resolvable; a duplicate, a missing label and an overflow are each reported only with their cause present in the text |
| Assembler.OperandBytes | src/asm/emitter.rs:41-81 | always three operand bytes; lookup fails iff some register name is unknown |
| Assembler.EncodeSucceeds | src/asm/emitter.rs:90-97 | an instruction can be emitted iff its registers are known and its address is in the map and does not overflow with its base |
| Assembler.EmitIns | src/asm/emitter.rs:41-81 | emits the encoding of the instruction, or fails where a table lookup fails |
| Assembler.Emit | src/asm/emitter.rs:31-88 | pass 2 succeeds iff every node can be encoded under the base in force, and the result is the concatenated image, whose bytes `Texts.DataBytes` and the rows below it give in numbers |
| Assembler.EncodedLength | src/asm/emitter.rs:41-87 | the bytes emitted for a well-shaped node are as many as pass 1 counted for it |
| Assembler.ImageLength | src/asm/emitter.rs:31-88 | two-pass agreement: the bytes emitted before node k are exactly the offset pass 1 gives it |
| Assembler.ImageSlice | src/asm/emitter.rs:31-88 | the bytes of node k sit in the image between its offset and the next node's |
| Assembling.LabelsUnique | src/asm/address_resolver.rs:19-40 | pass 1 can give a text only one map of labels |
| Assembling.Assemble | src/asm/main.rs:25-66 | several files become one image: each goes on with the nodes and variables of the ones before; there is an image iff they parse, resolve and emit |
| Assembling.OneImage | src/asm/main.rs:25-66 | the files have at most one image, the one under the labels of pass 1 |
| Symbolic.PlacesDiffer | src/asm/address_resolver.rs:19-40 | byte-emitting nodes have strictly increasing addresses, so RET can map an address back to a node |
| Symbolic.WhereIs | src/vm/ops.c:777-785 | the place found for the address of a node is that node |
| Symbolic.TargetIs | src/asm/address_resolver.rs:19-40 | a label's target is the first byte-emitting node at or after its definition |
| Symbolic.SymRunSplit | src/vm/cpu.c:44-89 | symbolic runs compose |
| Simulation.LabelAddress | src/asm/emitter.rs:90-92 | the origin plus a label's map entry is the address of the node it stands for |
| Simulation.AddressImmediate | src/asm/emitter.rs:66-81 | in every instruction with an address an `@` operand is the label's offset and an `&` operand the offset plus the base in force, without overflow |
| Simulation.OperandsAreValid | src/asm/emitter.rs:94-97 | the operand bytes of an encodable instruction name registers every machine with 32 to 250 registers has |
| Simulation.CycleAt | src/vm/cpu.c:70-83 | at a loaded instruction one fetch and decode executes that instruction's operation with its operand bytes |
| Simulation.DataSimulates | src/vm/ops.c:65-863 | every instruction without control transfer has the symbolic effect and leaves pc at the next node |
| Simulation.JumpSimulates | src/vm/ops.c:309-393 | a jump on the machine, taken or not, goes where the symbolic jump goes, which is the next node for JEQ with the zero flag clear and JNE with it set |
| Simulation.CallSimulates | src/vm/ops.c:728-758 | CALL to a label pushes the next node's address and enters the label's node, or stops on a failed push, as in the text |
| Simulation.CallRSimulates | src/vm/ops.c:760-775 | CALL through a register enters the node whose address the register holds, or leaves the program |
| Simulation.RetSimulates | src/vm/ops.c:777-796 | RET and IRET go to the node whose address is on the stack; IRET enables interrupts only if the pop succeeded |
| Simulation.ExecutePc | src/vm/ops.c:65-863 | the symbolic instruction depends on pc in nothing; what `cp` reads is the address behind the instruction word |
| Simulation.StepSimulates | src/vm/cpu.c:50-89 | wherever the text has a step, the machine takes the same one |
| Simulation.RunSimulates | src/vm/cpu.c:44-89 | every symbolic run of n instructions is a machine run of n turns between corresponding states |
| Execution.ValidNodes | src/asm/address_resolver.rs:16-54 | a text that fits, with the labels of pass 1, assembles and simulates iff each instruction has its declared operands, known names, no overflow, does not write `cp`, and jumps under the right base |
| Execution.QuietTurn | src/vm/cpu.c:50-89 | with interrupts off a turn is the symbolic step, whatever arrives before it |
| Execution.QuietSimulates | src/vm/cpu.c:44-89 | with interrupts off every symbolic run is a machine run under every schedule of device triggers, pending bits apart |
| Execution.ComputeIsModular | src/vm/ops.c:495-602 | ADD, SUB and MUL through signed casts are arithmetic modulo 2^32 on the unsigned words |
| Execution.CompareFlags | src/vm/ops.c:275-307 | after CMP z is equality, and n is signed less-than iff the true difference fits in 32 bits |
| Execution.CompareOverflows | src/vm/ops.c:275-290 | 0x80000000 is less than 1 and compares as not less |
| Execution.DoJump | src/vm/ops.c:309-393 | a jump in any valid program goes to the label's node when it is J, JEQ with the zero flag set or JNE with it clear, and to the next node otherwise |
| Execution.DoCmpImm | src/vm/ops.c:292-307 | after CMP with a constant the zero flag is equality |
| Rom.RomValid | src/common/rom.a:9-26 | the dispatcher's text assembles at the ROM address |
| Rom.RomLabels | src/common/rom.a:9-26 | pass 1 gives the dispatcher's labels the offsets 32 and 56 |
| Rom.EntryPoints | src/vm/cpu.c:52-66 | the address the CPU enters on an interrupt is the assembled address of the dispatcher's first instruction |
| Rom.ComputeRun | src/common/rom.a:19-24 | the subroutine loads the word at idt + 4 * ir into r0 in five instructions and returns |
| Rom.DispatchRun | src/common/rom.a:12-15 | eight symbolic instructions lead from the dispatcher's entry to the handler, with r0 and the way back on the stack |
| Rom.EntersHandler | src/common/rom.a:12-24 | from any state that takes interrupt i, exactly eight turns end at the handler found at idt + 4 * i, in a fully stated state, whatever else is triggered meanwhile |
| Rom.HandlerIsEntry | src/common/rom.a:19-24 | the handler found is the word in the descriptor table unless that table is on the stack words just pushed |
| Rom.ReturnsFromHandler | src/common/rom.a:16-17 | a balanced handler is followed by two turns that restore pc, sp and every general register and enable interrupts, whatever is triggered meanwhile |
| Rom.RomStays | src/vm/memory.c:79-81 | whatever runs, for however long and under whatever device triggers, the dispatcher stays in the ROM |
| Rom.InterruptRoundTrip | src/common/rom.a:12-24 | entry, handler of any length and return together change no register, sp, pc, cs, bp or idt, and interrupts are enabled again, under every schedule of device triggers; the flags then describe r0, hence are kept iff they did before, and ir is the handler's |
| Rom.ReturningHandler | src/vm/ops.c:777-785 | a handler that is a single RET meets the condition of the round trip |
| Rom.EmptyInterrupt | src/common/rom.a:12-24 | an interrupt with such a handler takes eleven turns and changes no register, sp or pc; ir holds its number |
| Rom.ComparisonLost | src/vm/cpu.c:173-201 | an interrupt after a comparison of r0 with 1 that found equality turns the conditional jump behind it round |
| Fibonacci.FibValid | examples/fibonacci_rec.a:5-45 | the program with the labels of pass 1 is valid at every origin where it fits |
| Fibonacci.FibRuns | examples/fibonacci_rec.a:13-45 | a call with room for its stack returns with Fibonacci of n in r0, for every n, after an exact number of turns, using 8 * (n - 1) bytes and changing no other memory |
| Fibonacci.FibOverflows | examples/fibonacci_rec.a:13-45 | a call without room runs down to address 0 and panics on the push below it, after an exact number of turns |
| Fibonacci.FibonacciProgram | examples/fibonacci_rec.a:5-45 | under every schedule of device triggers that is long enough the machine has finished with the result in r3 and all else restored when the stack suffices, and has panicked on a write when not |
| Fibonacci.FibonacciOnReset | src/vm/vmarch.h:39-40 | with the stack pointer of reset some run finishes iff r0 <= 512, and then every long enough one does |
| Fibonacci.FibonacciEnds | examples/fibonacci_rec.a:5-45 | whenever the machine has stopped, it has stopped with the result or, without enough stack, with the write panic |
| Fibonacci.FibResolvable | examples/fibonacci_rec.a:5-45 | pass 1 accepts the program |
| Footprint.ExecKept | src/vm/ops.c:81-433 | one operation changes no word but the ones its own pushes, stores or mask writes target, and no read-only word |
| Footprint.StepKept | src/vm/cpu.c:50-84 | the same for a turn of the loop, where interrupt entry adds the word below sp |
| Footprint.RunKeepsReadOnly | src/vm/memory.c:79-81 | over every run of every program, under every schedule of device triggers, no word of a read-only zone changes, and no address becomes mapped, unmapped or writable |
| Footprint.RunKeepsUntargeted | src/vm/cpu.c:50-84 | a word outside the targets of every turn keeps its value over the run, under every schedule of device triggers |
| SaveRestore.PushaSaves | src/vm/ops.c:156-169 | with room, PUSHA stores register k in the k-th word below sp and changes nothing else but sp |
| SaveRestore.PopaRestores | src/vm/ops.c:236-249 | POPA restores all registers and sp from such a stack, and the flags describe r0 |
| SaveRestore.PushaPopa | src/vm/ops.c:156-249 | PUSHA then POPA is the identity on registers and sp for every register count from 32 to 250 |
| SaveRestore.PushaOutcome | src/vm/ops.c:159-166 | PUSHA reports success iff its last store succeeds, whatever happened to the others |
| Booting.PushaForgetsFailure | src/vm/ops.c:159-166 | on the map of every machine, a PUSHA that can save only one register of 32 reports success |
| Zones.FindFrom | src/vm/bus.c:131-139 | lookup returns the first zone that claims the address |
| Zones.OffsetInside | src/vm/bus.c:100-108 | zone membership bounds the translated offset, also for zones off a word boundary or with a wrapping end |
| Zones.NeverAborts | src/vm/bus.c:108-170 | reads never abort iff lookup finds no empty memory at 0 for a word address, writes iff it finds no writable one; in a sorted list the presence of one is enough for reads |
| Zones.SpotFrom | src/vm/bus.c:64-75 | the search stops at the first zone whose end lies beyond the new start |
| Zones.AttachSorted | src/vm/bus.c:64-98 | among zones that do not wrap, an accepted zone leaves the list strictly sorted by start |
| Zones.AttachSortedIff | src/vm/bus.c:64-98 | whatever the zones are, an accepted zone leaves the list sorted iff each zone that starts at or beyond it without ending beyond it has an earlier one that does end beyond it |
| Zones.FittingZonesStay | src/vm/bus.c:104-106 | only an empty zone or one whose end wraps starts at or beyond an address without ending beyond it |
| Zones.WrapUnsorts | src/vm/bus.c:64-106 | behind a zone whose end wraps, an accepted zone can land out of order |
| Zones.EmptyUnsorts | src/vm/bus.c:64-106 | in front of an empty zone an accepted zone can land out of order |
| Zones.AttachKeeps | src/vm/bus.c:72-95 | the new list is the old one with the zone inserted: every old zone once, in order |
| Zones.AttachDisjoint | src/vm/bus.c:64-70 | disjointness is kept iff the new zone covers no start of an old zone |
| Zones.SignalsAppend | src/vm/bus.c:172-192 | a registration adds one signal at its own address, last, and none elsewhere |
| Zones.AnswersAsFlat | src/vm/bus.c:108-170 | the outcome of every read and write is the one of the flat memory |
| Zones.FlatCell | src/vm/bus.c:108-123 | a successful read delivers the word of the flat memory |
| Zones.WriteIsPut | src/vm/bus.c:141-170 | a write changes the one word it names in the flat memory, and nothing when it fails |
| Zones.FindIs | src/vm/bus.c:131-139 | in disjoint zones lookup finds the zone that holds the address |
| Zones.ShowsZone | src/vm/bus.c:108-123 | inside a zone the flat memory is that zone's memory alone |
| Zones.AttachIsJoin | src/vm/bus.c:64-98 | attaching a zone in free space adds its words to the flat memory and changes no other |
| BusRuns.BusRefinesFlat | src/vm/bus.c:64-170 | over every history of attaches, stores and registrations the zones show the flat memory of the same history |
| BusRuns.KeepsWord | src/vm/bus.c:141-170 | without a store to its address a word keeps its value through any history |
| BusRuns.ReadsLastStore | src/vm/bus.c:108-170 | a read returns the last word stored at its address |
| BusRuns.SignalsAreRegistrations | src/vm/bus.c:151-192 | after any history a write to an address signals the conditions registered for it, once per registration, in order, and no others |
| Memories.RoundUp | src/vm/memory.c:28-32 | a memory's size is the request rounded up to words, and wraps to 0 at the very top |
| Memories.Memory.Create | src/vm/memory.c:28-41 | a new memory has the rounded size, its mode, and zeros in all words the request covers whole |
| Memories.Memory.ModeSet | src/vm/memory.c:60-62 | sets the mode and nothing else |
| Memories.Memory.WordGet | src/vm/memory.c:64-73 | the outcome of the bounds and alignment tests, and the word when there is one |
| Memories.Memory.WordSet | src/vm/memory.c:75-90 | stores exactly one word on success and nothing on any failure |
| Buses.Bus.Create | src/vm/bus.c:52-57 | a new bus has no zones |
| Buses.Bus.FindZone | src/vm/bus.c:131-139 | the loop finds the first zone that claims the address, or the end |
| Buses.Bus.WordRead | src/vm/bus.c:108-123 | outcome and word as the zone list defines them |
| Buses.Bus.Load | src/vm/bus.c:108-123 | a read as its callers see it is a lookup in the flat memory |
| Buses.Bus.WordWrite | src/vm/bus.c:141-170 | the new contents of all zones, and the conditions signalled, in order |
| Buses.Bus.Store | src/vm/bus.c:141-170 | a write as its callers see it is one update of the flat memory or none, and moves no zone |
| Buses.Bus.SignalAll | src/vm/bus.c:151-160 | the loop signals the conditions registered for the address and no others |
| Buses.Bus.IsRefused | src/vm/bus.c:64-70 | a zone is refused iff its start lies in an existing zone |
| Buses.Bus.MemoryAttach | src/vm/bus.c:64-98 | a refused zone changes nothing; an accepted one gives the list with the zone inserted |
| Buses.Bus.Rebuilt | src/vm/bus.c:72-95 | the rebuild loop yields the old zones with the new one in its place |
| Buses.Bus.NotificationRegister | src/vm/bus.c:172-192 | appends the registration to the zone of the address, or aborts when there is none; no zone moves or loses its memory |
| Pics.NextIsLocation | src/vm/pic.c:110-124 | word index and shifting bit keep up with the interrupt number, through the wrap of the bit to zero |
| Pics.ActiveByWords | src/vm/pic.c:99-108 | the word-wise scan sees something iff some interrupt is pending and unmasked |
| Pics.Pic.Create | src/vm/pic.c:43-63 | nothing is pending; timer, screen and keyboard are masked and no others |
| Pics.Pic.FindLocation | src/vm/pic.c:81-86 | word and bit of an interrupt number |
| Pics.Pic.SetMask | src/vm/pic.c:65-79 | masks or unmasks one interrupt and no other |
| Pics.Pic.Trigger | src/vm/pic.c:88-92 | one interrupt becomes pending and no other changes |
| Pics.Pic.Reset | src/vm/pic.c:94-97 | one interrupt stops being pending and no other changes |
| Pics.Pic.IsActive | src/vm/pic.c:99-108 | true iff some interrupt is pending and unmasked |
| Pics.Pic.IsActiveAt | src/vm/pic.c:126-128 | the test at a location is the pending bit of its interrupt |
| Pics.Pic.IsMaskedAt | src/vm/pic.c:130-134 | the test at a location is the mask bit of its interrupt |
| Pics.Pic.Get | src/vm/pic.c:110-124 | the lowest pending and unmasked interrupt, without reading past word 7 |
| Interleaving.InvariantKept | src/vm/pic.c:88-124 | the invariant of scans and counts holds after any interleaving of triggers, reads, resets and mask changes |
| Interleaving.Conservation | src/vm/cpu.c:52-55 | an interrupt found is deliverable, none is taken more often than triggered, pending means triggered since last taken |
| Interleaving.TriggerStays | src/vm/pic.c:88-97 | a pending interrupt stays pending until it is taken |
| Interleaving.BeginIsAhead | src/vm/cpu.c:52-55 | a test that begins with something deliverable has it ahead of its scan |
| Interleaving.ReadProgress | src/vm/pic.c:99-124 | each read of the scans finds a deliverable interrupt or comes strictly closer to one |
| Interleaving.ScanSucceeds | src/vm/pic.c:99-124 | whatever devices do in between, a scan with something ahead finds a deliverable interrupt within a fixed number of reads |
| Interleaving.Linearizes | src/vm/pic.c:99-124 | however triggers fall between the reads of the scans, the interrupt found and the pending bits left are those of one atomic turn for an order of these triggers; a test that fails saw nothing deliverable |
| Cpus.MasksShown | src/vm/pic.c:43-63 | the masks read through the bus are the words of the controller's own memory |
| Cpus.MaskStored | src/vm/pic.c:65-79 | a mask change in the controller is a write at its bus address, and of nothing else |
| Cpus.Cpu.Create | src/vm/cpu.c:30-42 | a new CPU is reset and wired to its bus and controller |
| Cpus.Cpu.Reset | src/vm/cpu.c:120-137 | 32 registers are cleared and the others kept, all control state is set, idt and ir are kept |
| Cpus.Cpu.RegisterGet | src/vm/cpu.c:144-171 | the general or special register a byte names, or an error |
| Cpus.Cpu.RegisterSet | src/vm/cpu.c:173-201 | sets the register a byte names and the flags, or refuses and changes nothing |
| Cpus.Cpu.FlagsUpdate | src/vm/cpu.c:243-246 | the flags describe the value as a word |
| Cpus.Cpu.FetchWord | src/vm/cpu.c:91-107 | the word at pc; pc advances also when the read fails |
| Cpus.Cpu.PushRegister | src/vm/ops.c:81-92 | one push as the machine defines it, with the outcome it overwrites |
| Cpus.Cpu.PopRegister | src/vm/ops.c:171-182 | one pop as the machine defines it; an unreadable word leaves everything else alone |
| Cpus.Cpu.OpPush | src/vm/ops.c:81-154 | one to three pushes in operand order, each overwriting the outcome before it |
| Cpus.Cpu.OpPushW | src/vm/ops.c:94-105 | pushes the immediate, or fails in the fetch without moving sp |
| Cpus.Cpu.OpPusha | src/vm/ops.c:156-169 | the loop pushes all registers in ascending order |
| Cpus.Cpu.OpPop | src/vm/ops.c:171-234 | one to three pops, given up at the first unreadable word |
| Cpus.Cpu.OpPopa | src/vm/ops.c:236-249 | the loop pops all registers in descending order, given up at the first unreadable word |
| Cpus.Cpu.OpMov | src/vm/ops.c:251-273 | register and immediate moves, with their error order |
| Cpus.Cpu.OpCmp | src/vm/ops.c:275-307 | comparison of two operands, with its error order |
| Cpus.Cpu.OpJump | src/vm/ops.c:309-393 | the six jumps: J, JEQ with the zero flag set and JNE with it clear go to the word at pc, counted from cs for `@`; the others move past it without reading it |
| Cpus.Cpu.OpStor | src/vm/ops.c:395-433 | both stores, with their error order |
| Cpus.Cpu.OpLoad | src/vm/ops.c:435-493 | the three loads, the last with a wrapping sum as its address |
| Cpus.Cpu.OpAlu | src/vm/ops.c:495-701 | the six two-operand functions on register or immediate, with their error order; on two general registers the result is that sum, difference or product modulo 2^32, or bit by bit that logical function |
| Cpus.Cpu.OpStep | src/vm/ops.c:703-726 | INC and DEC through a signed cast |
| Cpus.Cpu.OpCall | src/vm/ops.c:728-758 | fetches the target, pushes the way back, and jumps only if the push succeeded |
| Cpus.Cpu.OpCallR | src/vm/ops.c:760-775 | the same with the target in a register |
| Cpus.Cpu.OpRet | src/vm/ops.c:777-796 | RET and IRET |
| Cpus.Cpu.Trigger | src/vm/ops.c:798-803 | INT makes one interrupt pending |
| Cpus.Cpu.TriggerAll | src/vm/cpu.c:235-237 | what devices trigger before a turn is added to the pending interrupts and changes nothing else |
| Cpus.Cpu.SetMask | src/vm/ops.c:805-817 | MI sets and UMI clears the mask of one interrupt and of no other, which is also one word of memory |
| Cpus.Cpu.Dispatch | src/vm/cpu.c:72-83 | the operation a code selects runs on the bytes of the word, in either host order |
| Cpus.Cpu.InterruptActive | src/vm/cpu.c:52-53 | whether the machine state has a deliverable interrupt |
| Cpus.Cpu.InterruptGet | src/vm/cpu.c:54-55 | the lowest deliverable interrupt of the machine state |
| Cpus.Cpu.EnterInterrupt | src/vm/cpu.c:52-66 | interrupts off, ir set, interrupt no longer pending, pc pushed, control at the ROM entry unless the push failed |
| Cpus.Cpu.FetchDecodeExecute | src/vm/cpu.c:70-83 | one fetch, decode and execute cycle, with the panic for an unknown code |
| Cpus.Cpu.StepOnce | src/vm/cpu.c:50-84 | one turn of the loop is one step of the machine |
| Cpus.Cpu.Loop | src/vm/cpu.c:44-89 | the loop over a schedule of device triggers is the machine's run under that schedule, and the CPU is not running once it has stopped |
| Loader.LoadSucceeds | src/vm/main.c:136-151 | loading succeeds iff every word of the file has a writable address |
| Loader.LoadStores | src/vm/main.c:136-151 | after loading, every word of the file is at its address and nothing else has changed |
| Loader.EncodedParts | src/asm/emitter.rs:41-81 | an instruction's bytes are its code, three operand bytes and its immediate in big-endian |
| Loader.ImageIsLoaded | src/vm/main.c:109-154 | an image in memory at its origin is the loaded program |
| Loader.InstructionReadsBack | src/vm/cpu.c:67-114 | encode, load, fetch: an instruction is read back with its operation, operands and immediate, on either host |
| Loader.TextReadsBack | src/vm/cpu.c:67-114 | reading a loaded image back from its start recovers the instructions of the text in order |
| Texts.RegisterTable | src/asm/emitter.rs:13-29 | the register names are exactly idt, ir, sp, bp, cp and cs for 250 to 255 and r0 to r31 for 0 to 31, each with that number |
| Texts.RegistersInOrder | src/asm/emitter.rs:53-65 | the operand bytes are the numbers of the registers in the order written, padded with zeros |
| Texts.NumbersBehind | src/asm/emitter.rs:42-62 | a number is the second word, high byte first; a byte operand stands in the first operand byte |
| Texts.AddressesBehind | src/asm/emitter.rs:66-81 | an `@` operand is emitted as the label's position, an `&` operand as that plus the base |
| Texts.BaseInForce | src/asm/emitter.rs:33-38 | the base in force is the one of the last `#base` before, and 0 in front of the first |
| Texts.DataBytes | src/asm/emitter.rs:39-39 | for every `#word` of a valid program the four bytes of the image at its offset are the number modulo 2^32, high byte first |
| Texts.DataWord | src/asm/emitter.rs:39-39 | in every memory that shows the image the word at the node's address is the declared number |
| Texts.LoadsDeclared | src/vm/ops.c:454-470 | `LOAD r, &name` of a `#word` puts the declared number into r |
| Texts.TurnAt | src/vm/cpu.c:67-83 | a turn at an instruction of the loaded text executes its operation on its register numbers, with its constant at pc |
| Texts.ComparesAt | src/vm/ops.c:275-307 | a turn at a CMP in the text compares the values of its operands, registers by name or a number |
| Texts.JumpsAt | src/vm/ops.c:309-393 | a turn at a jump in the text, with the flags of a comparison, leads to the label's address exactly when the operands were equal (JEQ), unequal (JNE) or always (J), and else behind the jump |
| Texts.ComparesAndJumps | src/vm/ops.c:275-371 | CMP with JEQ or JNE behind it: two turns of the machine lead to the label's address exactly on equality or inequality and change nothing but the flags |
| Texts.TextComparesAndJumps | src/vm/ops.c:275-371 | the same as two steps of the text, to the label's node |
| Loader.LoadFile | src/vm/main.c:109-154 | the loop stores the words of the file one after another, up to the first address that refuses |
| Layout.Placement | src/vm/bus.c:64-98 | a zone that fits a gap of the map is accepted and lands in that gap |
| Layout.DevicesAscend | src/vm/vmarch.h:45-74 | the devices' zones are disjoint and in order, with video or without |
| Layout.MapIsDisjoint | src/vm/vm.c:39-56 | all zones are attached and disjoint iff the RAM size is positive and does not reach the first device; the map is then RAM, devices, ROM |
| Layout.EmptyRamAborts | src/vm/vm.c:44-52 | with an empty RAM attached every read of a word address, and every write when the RAM is writable, aborts or leaves the memory |
| Vms.CreatePic | src/vm/pic.c:43-63 | descriptor table and masks are on the bus and wired to the controller, nothing is pending, and just timer, screen and keyboard are masked |
| Vms.CreateKeyboard | src/vm/keyboard.c:38-53 | two words on the bus, and a condition for writes to one of them |
| Vms.CreateVideo | src/vm/video.c:184-218 | the screen's flags word with its enabled bit, its condition, and the two buffers when video is on |
| Vms.CreateVm | src/vm/vm.c:39-56 | the machine is wired, its map is the intended one, the CPU is reset, nothing is pending and just the devices' interrupts are masked |
| Booting.MapAccess | src/vm/vm.c:52-53 | in the machine's map all RAM words are writable and everything from the ROM address on refuses writes |
| Booting.MapGap | src/vm/vm.c:52-53 | between the end of the RAM and the first device nothing is mapped |
| Booting.ModeIsAccess | src/vm/memory.c:60-62 | changing the mode of one zone changes which addresses refuse writes, and no word |
| Booting.RomModeFlat | src/vm/main.c:60-64 | unlocking and locking the ROM opens and closes exactly the addresses of the ROM |
| Booting.SetRegisters | src/vm/main.c:68-73 | pc, cs, idt and all general registers get the values of the options, the flags describe the last register, and nothing else changes |
| Booting.LoadRom | src/vm/main.c:59-65 | the ROM image is written while the ROM is unlocked, and the ROM is locked afterwards |
| Booting.Boot | src/vm/main.c:47-79 | booting fails iff an image does not fit; otherwise memory, registers and segments are as prepared |
| EndToEnd.LoadedProgram | src/vm/main.c:109-154 | an image assembled at an address and loaded there successfully is the loaded program |
| EndToEnd.BootedRom | src/vm/main.c:59-65 | a machine booted with the assembled ROM has its dispatcher installed and locked |
| EndToEnd.MasksOnMap | src/vm/vm.c:44-52 | on the machine's map the eight mask words are mapped and writable |
| EndToEnd.RomBoots | src/vm/main.c:56-65 | on every machine, with every image that fits its RAM, booting with the ROM succeeds and leaves dispatcher and masks as the interrupt theorems need them |
| EndToEnd.AssembleRom | src/common/rom.a:9-26 | the lines of the header and of the ROM's source are parsed, with the base taken from the header's variable, resolved and emitted, and give the dispatcher's image |
| EndToEnd.BootedFibonacci | src/vm/main.c:47-79 | a machine with enough RAM booted with the program's image is ready to run it |
| EndToEnd.FibonacciFits | src/vm/main.c:56-58 | loading the program's image succeeds in every such machine |
| EndToEnd.AssembleFibonacci | src/asm/main.rs:25-66 | the lines of the header and of the program are parsed, resolved and emitted, and give the program's image |
| EndToEnd.BootFibonacci | src/vm/main.c:47-79 | the constructed, loaded and booted machine meets the conditions of the Fibonacci theorem with n in r0 |
| EndToEnd.RunFibonacci | examples/fibonacci_rec.a:5-45 | from the source's lines to the result: with enough turns the machine stops, under every schedule of device triggers, and when it has stopped it has Fibonacci of n modulo 2^32 when n <= 512 and a write panic when not |
| Grammar.FitsOneLine | src/asm/parser.rs:431-714 | an operand shape that fits covers exactly one line |
| Grammar.AlternativesGood | src/asm/parser.rs:153-290 | for every mnemonic no line fits two alternatives, and each alternative builds an instruction of its operation's declared letters |
| Grammar.LegalIsDead | src/asm/parser.rs:292-321 | no operand shape fits a stream that begins like a new line |
| Grammar.Unambiguous | src/asm/parser.rs:292-321 | at most one alternative is taken iff behind the line of the one that succeeds no later one succeeds; some is taken iff one succeeds on the line |
| Grammar.OneLine | src/asm/parser.rs:292-321 | when an alternative succeeds, the result is its instruction and just its line is taken iff no later alternative fits what follows |
| Grammar.LegalFollowUp | src/asm/parser.rs:292-321 | with a legal start of a line behind it a line has one reading, is taken alone and builds a well-shaped node |
| Grammar.TwoSuccesses | src/asm/parser.rs:292-321 | a stream of bare operand lines on which two alternatives of POP succeed |
| Grammar.SwallowedLine | src/asm/parser.rs:667-686 | a stream on which PUSH succeeds once and takes the unknown variable of the next line with it |
| Grammar.IndexedNeedsLiteral | src/asm/parser.rs:540-583 | no alternative of LOAD accepts a variable after the plus |
| Parsers.IndexedTry | src/asm/parser.rs:540-583 | the indexed shape is accepted iff the eight tokens are the literal form |
| Parsers.SwallowedText | src/asm/parser.rs:841-867 | a text in which a line naming an unknown variable is accepted and leaves no trace |
| Parsers.Parser.ParseOp | src/asm/parser.rs:292-321 | all alternatives run on the one stream, and exactly one success is accepted |
| Parsers.Parser.ParseDirective | src/asm/parser.rs:115-151 | both directives, their errors, and what they take off the stream |
| Parsers.Parser.ParseVariable | src/asm/parser.rs:99-113 | a definition succeeds iff an equals sign and a literal follow, and then defines just that name |
| Parsers.Parser.Run | src/asm/parser.rs:323-427 | each alternative takes and builds what its operand shape says |
| Parsers.Parser.OpB | src/asm/parser.rs:344-357 | a byte operand above 255 is taken with its line and refused |
| Parsers.Parser.ReadIndexed | src/asm/parser.rs:540-583 | the parts of an accepted indexed operand |
| Parsers.Parser.Next | src/asm/parser.rs:841-867 | one node, error or end, after passing over empty lines and definitions |
| Parsers.Parser.Parse | src/asm/parser.rs:87-97 | the nodes of the whole stream in order, or a refusal |
| Printing.ParsedIsWellShaped | src/asm/parser.rs:841-867 | every instruction of a parsed text has the operands its operation declares, which the passes need |
| Printing.TableOf | src/asm/parser.rs:153-290 | every operation is found under its own mnemonic |
| Printing.InstructionParsesBack | src/asm/parser.rs:153-321 | a printed instruction is parsed as itself, and exactly its line is taken |
| Printing.ParseUndoesPrint | src/asm/parser.rs:87-97 | parsing a printed text, with empty and comment lines anywhere, gives the nodes it was printed from |
| Lines.ByteOperand | src/asm/parser.rs:344-357 | INT, MI, UMI and XBM accept exactly the numbers up to 255, literal or variable, unchanged, and refuse larger ones, taking their line |
| Lines.LineReads | src/asm/parser.rs:292-321 | every line of an instruction, with a variable of that value in the place of a number, is parsed as the instruction |
| Lines.Accepted | src/asm/parser.rs:431-714 | what an alternative of a mnemonic accepts is the line of an instruction of that name, with at most a variable in the place of its number, and it builds that instruction |
| Lines.TableOffers | src/asm/parser.rs:153-290 | each mnemonic has alternatives of its own operations only, in shapes their declared operands allow |
| Lines.MnemonicPrintable | src/asm/parser.rs:153-290 | whatever follows a mnemonic, the instruction it yields has its name and a line of its own |
| Lines.UnknownRefused | src/asm/parser.rs:153-290 | a mnemonic that names no operation is refused |
| Lines.ParsedIsPrintable | src/asm/parser.rs:841-867 | every instruction of a parsed text has a line the printer writes |
| Lines.ParsedPrintsBack | src/asm/parser.rs:87-97 | printing what was parsed and parsing it again gives the same nodes |
| Lines.ParsesThrough | src/asm/parser.rs:87-97 | printed lines in front of any text that begins a line add their nodes to it |
| Lines.SectionEnds | src/asm/parser.rs:841-867 | a section ends the text: nothing behind it is looked at |
| Lines.LabelAlone | src/asm/parser.rs:841-867 | a label is accepted iff it stands alone on its line |
| Lines.DirectiveNames | src/asm/parser.rs:115-151 | the directives are base and word, in letters of either case, and no other |
| Lines.DirectiveNumbers | src/asm/parser.rs:115-151 | the number of a word is a literal, that of a base may be a defined variable |
| Assembling.DefinitionsParse | src/asm/parser.rs:99-113 | a file of definitions gives no nodes and defines its variables, the last definition of a name counting |
| Assembling.HeaderDefines | src/vm/vmarch.c:51-66 | behind the header the machine prints, the variable for the start of the ROM has its address |
| Literals.Lexer.ParseDigits | src/asm/lexer.rs:187-264 | the loop takes digits and underscores as far as they go; the value, or an error on overflow or no digits; `Literals.DigitTable` and `Literals.HighDigitsFirst` say what digits are worth |
| Literals.Lexer.Number | src/asm/lexer.rs:172-185 | chooses the radix by the prefix |
| Literals.DigitsValue | src/asm/lexer.rs:187-264 | the digits of a number in any radix have that number as their value |
| Literals.DigitsSpell | src/asm/lexer.rs:187-264 | every word has a spelling in every radix |
| Literals.NumberReadsBack | src/asm/lexer.rs:172-264 | every word is read from each of its hexadecimal, binary and decimal spellings, in either case, with leading zeros and underscores, whatever follows that does not go on with it, and the text behind is left |
| Literals.DigitTable | src/asm/lexer.rs:187-212 | a character has digit value d iff it is digit d of 0 to 9 and a to f or of 0 to 9 and A to F |
| Literals.CaseDoesNotMatter | src/asm/lexer.rs:187-212 | writing the letters of a number in lower case does not change its value |
| Literals.OneDigit | src/asm/lexer.rs:187-264 | a single digit is worth its digit value |
| Literals.HighDigitsFirst | src/asm/lexer.rs:187-264 | the value of digits s followed by t is that of s times the radix to the length of t, plus that of t |
| Literals.LowerCaseReadsBack | src/asm/lexer.rs:187-212 | the lower-case and the upper-case hexadecimal writing of every word read as the word |
| Literals.NotANumber | src/asm/lexer.rs:187-264 | digits that denote 2^32 or more, or underscores alone, are taken to their end and are an error |
| Numbering.Generator.ParseGroup | bin/thi/parser.lua:360-421 | an argument group gets one entry with the next code and its own arguments |
| Numbering.Generator.ParseInstruction | bin/thi/parser.lua:360-421 | the entries of a declaration and the code the next one starts from |
| Numbering.Generator.Parse | bin/thi/parser.lua:360-421 | the entries of the whole list |
| Numbering.CodesIncrease | bin/thi/parser.lua:360-421 | codes increase strictly over any declaration list, with explicit codes, ignored codes and groups |
| Numbering.TableHolds | bin/thi.lua:90-93 | the table by code holds exactly the entries |
| Numbering.LookupInverts | bin/thi.lua:90-93 | no slot is overwritten: looking up an entry's code gives that entry |
| Numbering.ShippedTable | src/common/instructions.thi:1-143 | numbering the shipped declarations gives every operation exactly the code, name and operand letters the assembler and the CPU use here |

## Left out

- Simulation.RunSimulates: says nothing past a step the text gives no meaning to: where an interrupt would be taken, where the program has changed its own code, or at a taken `@` jump or `@` call while cs is not the origin. Programs that write `cp` as an operand are excluded, and the base in force at every `&` jump or call must be the origin.
- Execution.ValidNodes: describes when a text assembles, and not what the checker accepts. The checker knows the register `pc` where the emitter knows `cp`, and skips two operand variants, so its success does not imply emission.
- Simulation.OperandsAreValid: assumes 32 to 250 registers, as do the theorems on programs; reset clears 32 registers and ids from 250 on are special.
- SaveRestore.PushaPopa: assumes the words below sp are writable; what happens otherwise is PushaOutcome.
- Rom.InterruptRoundTrip: the handler is assumed balanced at the end, which is what the dispatcher relies on.
- Fibonacci.FibonacciProgram: assumes that interrupts are off, as they are after reset, that sp is a multiple of 4, and that the word at the very top of the address space is not writable, as on the machine's map.
- Cpus.Cpu.Loop: the loop is cut off at the end of a schedule, since it need not end; the theorem holds for every schedule. Triggers arrive between turns; Interleaving.Linearizes is why that is enough for the interrupt test.
- Cpus.Cpu.Dispatch: WFI, XBRK, XDBG, XPSE, XPSD and XBM change no modelled state; blocking, the debugger and step printing are not part of this model.
- Cpus.Cpu.Create: takes at least 32 registers, since reset writes 32 of them.
- Memories.Memory.Create: a request above 0xFFFFFFFC bytes, whose rounding wraps to an empty memory that is still cleared, is excluded; words the request covers only in part are unspecified, as in the source.
- Memories.Memory.WordGet: an access that passes the wrapping bounds test outside the array is excluded here; NeverAborts says exactly when the bus makes one.
- Buses.Bus.MemoryAttach: works on a sequence, so reallocation and freeing of the zone array are not modelled; fewer than 255 zones are assumed, as the count is one byte, and memories are distinct, as every caller has them.
- Interleaving.Conservation: a trigger and a reset are each one atomic step and there is one CPU. The source takes no lock around them.
- Vms.CreateVm: the machine record is a value, since no field is assigned after construction; the timer and the threads are left out.
- Vms.CreateKeyboard: keys, windows, drawing and the loops of the device threads are left out; devices appear only as sources of triggers.
- Booting.Boot: option parsing, opening of files, the default image used without a file, state printing and JSON are left out.
- Assembler.AssignOffsets: 32-bit overflow of a position or of an address plus its base is an error, as in a build with overflow checks.
- Assembler.Emit: a failed table lookup or a missing address is an error result; the source panics there.
- Parsers.Parser.Run: one method for the operation-specific closures; error texts and token positions are left out.
- Printing.ParseUndoesPrint: label operands for STOR, LOAD and MOV are printed only where the grammar has them, and XBM with the byte operand the parser asks for, which its declaration does not have.
- Literals.Lexer.ParseDigits: one method for the three digit loops, on ASCII text; numerals outside ASCII, which the decimal loop takes and then rejects, and the other tokens of the lexer are left out.
- Loader.TextReadsBack: a text with data words cannot be read back as instructions and is excluded; its instructions one by one can.
- Assembling.Assemble: starts from the tokens of the files, the lexer between characters and tokens being modelled for numbers only; the checker, which main.rs runs before emission and may refuse a text, is left out.
- Numbering.Generator.ParseInstruction: effects, flags and comments of a declaration do not touch its code and are one kind of part; the tokens of a declaration are already grouped into parts.
- Families of operations that differ only in operand source are one method with a parameter (OpMov, OpAlu, OpCmp, OpStor, OpLoad, OpJump, OpCall, OpRet, OpPush, OpPop).
- Bitwise operations are defined bit by bit on unbounded numbers, with BitwiseBit as their meaning.
- Address arithmetic of the debugger, the disassembler, dumps, and the generated documentation are left out.
- The program `examples/fibonacci.a` is left out: it stores inside its own image, so the simulation does not apply to it.
