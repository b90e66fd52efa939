# A verified model of the RISC-V debug module

This project models the execution-based RISC-V debug module (RISC-V External Debug Support
0.13.2) written in `rtl/`, together with the debug ROM the hart runs while it is halted, the
JTAG transport in front of it, and the driver the testbench uses. Every clocked module is a
class whose `Clock` method is proved equal to a next-state function, and the theorems are
about runs of those functions.

The files, from the bottom up:

- `Words`, `Numbers`, `Isa`: machine words, byte lanes, words and bit sequences as numbers, the
  instruction encoders and an RV32 decoder.
- `DebugRom`: the assembly listing, the ROM image, and the proof that one is the other.
- `AbstractCommand`: the command fields and the generator that compiles a command into ten words.
- `Dmi`, `CommandFsm`, `DmiControl`, `ControlRegs`, `MemWindow`, `DebugModule`: the clocked
  parts of the module on the command path, and their wiring.
- `Hart`, `System`: a small RV32 hart, and one hart and one debug module clocked together. In
  each cycle the DMI may deliver a request and the hart may take a bus step or stall.
- `CodeGenerator`: the generated code on its own, interpreted from any hart state.
- `CommandWords`, `DmiView`, `HartView`: command words and register numbers, the DMI registers, and the
  window and instruction formats of the hart, by arithmetic and by address.
- `Protocol`, `HartSteps`, `RomSteps`, `CodeSteps`, `CommandSteps`: the joint invariant of hart and
  module, and what every instruction of the module's code does to it.
- `ReadBus`: what the hart reads is what the module's read bus carries.
- `Atomicity`, `Commands`, `CommandErrors`, `Refinement`, `Handshake`, `Progress`, `Completion`, `ProgramFaults`,
  `Resume`: the theorems about commands, program buffers and resumes over whole runs.
- `RegisterAccess`: what a debugger gets for the number of a command, from DMI write to DMI read.
- `SystemBus`, `BusTransfer`, `BusSetup`: System Bus Access and its registers, block transfers to memory, and
  the same from reset.
- `HaltSummary`: the halt-summary tree for any number of harts.
- `Tap`, `Dtm`, `Scan`, `DmiTransactions`, `Link`, `Driver`: the JTAG controller, the transport, the
  scan law, the DMI machine, the crossing to the module, and the testbench driver.
- `Composition`: what comes over the transport makes a run that the theorems are about.
- `ScanNumbers`, `JtagAccess`: instructions, orders and replies of the transport as the numbers that are
  scanned, and accesses from scan to scan with the module's own answers.

## How the command path is modelled

The user's registers live in different places while the hart is halted: s0 and a0 are in
dscratch0 and dscratch1 for most of the module's code. `System.UserOf` collects them into
one record, wherever they are. `System.Access` is the meaning of an abstract command as one
step on that record. `Atomicity.Outcome` is the record a running command will leave; the
central law, `OutcomeIsSettled`, says that no cycle of a running command changes it.
`Refinement.RunRefines` says the same of every run, through any number of halts, commands, program
buffers, faults and resumes: what the hart and the module do together is a sequence of whole
accesses, debugger writes, and what user code and program-buffer code do themselves. The machine it
refines has, beside the user's state, the pair of s0 and a0 that a fault in the program buffer brings
back; `ProgramFaults` says what that pair is.

A fetch or load of the hart takes the word that the window holds in the cycle of the request;
`ReadBus.FetchArrives` and `ReadBus.LoadArrives` prove that the registered 64-bit read path delivers
that word one cycle later, on the output that `DebugModule.Module.Clock` drives. The window decodes only the low twelve address bits, so the theorems
hold for every page the module may be placed at.

Every layout is stated twice: by the masks and slices of the modules, and by arithmetic that does not use
them. A command word is the weighted sum of its fields, a register is named by its number, an sbcs or dmcontrol
bit by its weight, a scan by the number in the register, and a DMI register by its address; what is then
proved of an access, a block transfer or a scan mentions these numbers only.

The runs are those in which the debugger keeps dmactive set and ndmreset clear, does not start
a command that accesses dscratch0 or dscratch1, and does not write the command register
again in the one cycle in which a command has been accepted but busy is not yet reported.
`Composition.JtagRunIsAllowed` shows that the JTAG transport never does the last. Program-buffer code is any code that does not store to the four handshake addresses.

## Where the code does something its documentation does not say

- A supported command that an idle module accepts is run exactly if the hart is halted in the next cycle
  and no resume is asked for when the command arrives; otherwise it is lost, and cmderr stays what it was
  (`Commands.CommandIsRun`). `Commands.CommandCanBeLost` gives a state and the write that is lost: a halted
  hart whose module has just been asked to resume it.
- A command that writes s0 and then runs the program buffer loads s0 without updating the copy in
  dscratch0. If the program buffer faults, s0 is restored from that copy: when busy falls the command's own
  write is undone (`ProgramFaults.FaultUndoesS0` with the exact condition, `ProgramFaults.WriteIsUndone` and
  `ProgramFaults.WriteCanBeUndone` with runs that show it).
- A nonzero cmderr holds back nothing: commands, resumes and accesses go as they would without it
  (`CommandErrors.ErrorGatesNothing`).
- A request to resume that is written while the hart runs stands, and resumes the hart from its next halt
  (`Resume.EarlyRequestResumes`).
- A command register write in the one cycle between acceptance and busy replaces the command after its
  check for support (`Commands.WindowWriteReplaces`).
- A dmcontrol write that raises resumereq in the very cycle of the hart's resuming report clears
  the acknowledge before the state machine sees it: `Handshake.AckCanBeLost` gives the write
  (0x4000_0001) and the state, `Handshake.ResumeBalanced` the exact condition. The machine then stays
  in its resume state, and the next halt, however much later, is answered with a resume
  (`Handshake.LostAckResumesAgain`). For the same reason, a request to resume a halted
  hart is taken exactly when it does not fall in the report of an earlier resume (`Resume.ResumeRequested`).
- A supported command with transfer and postexec both 0 executes the illegal default word and
  ends in an exception; `System.Traps` counts it among the commands that trap.
- The auipc encoder scrambles its immediate with the bit order of jal; the generator only passes 0,
  for which that is harmless (`Isa.AuipcRoundTrip`).
- The halt summaries compare their index with a bound cast to 15, 10 or 5 bits and the last level
  reads one row too far: `HaltSummary.HaltSums` gives the numbers of harts for which each is right.
- An update or capture of any data register during a DMI transaction sets the sticky busy error, not
  only of the DMI register; and a failed operation is not shown by the next capture of the DMI
  register, which keeps what the last scan left in it (`DmiTransactions.FailureIsNotCaptured`). The
  transport would record such a failure from any module that answers with the status for it; this
  module's registers answer success or busy only (`rtl/DM_CSRS.sv:222-390`).
- `rtl/DTM_top.sv:100` declares the fields of the DMI register with an initialiser, and
  `rtl/DMI_Resp_FIFO.sv:21-37` connects its queue to undeclared nets; the model follows the intent, a live
  decode and a depth-2 queue.

## Model

| member | source | states |
|---|---|---|
| Words.Merge | rtl/DM_Mem.sv:130-145 | A byte-enable write takes exactly the enabled lanes from the data and keeps the others |
| Words.SetLane | rtl/DM_Mem.sv:139-139 | Writing one byte lane leaves the other three as they were |
| Isa.JalRoundTrip | rtl/DM_Pkg.sv:292-296 | Decoding a jal gives back the register and every even offset |
| Isa.BranchRoundTrip | rtl/DM_Pkg.sv:376-383 | Decoding a branch gives back registers, condition and every halfword offset |
| Isa.AuipcRoundTrip | rtl/DM_Pkg.sv:334-338 | The auipc word decodes to the same register; its immediate is zero exactly when the argument is below 2 |
| Isa.LoadRoundTrip | rtl/DM_Pkg.sv:326-332 | Integer and float loads decode to their operands, for all operands |
| Isa.StoreRoundTrip | rtl/DM_Pkg.sv:340-346 | Integer and float stores decode to their operands, for all operands |
| Isa.ShiftRoundTrip | rtl/DM_Pkg.sv:312-324 | slli and srli decode to their operands for shift amounts below 32 and are illegal on RV32 otherwise |
| Isa.CsrRoundTrip | rtl/DM_Pkg.sv:364-374 | csrw and csrr decode to their operands, for all CSRs and registers |
| HartView.MemoryFormats | rtl/DM_Pkg.sv:326-362 | Each integer or float load and store is the number that its operands make, for all operands; a store splits its offset |
| HartView.CsrWriteFormat | rtl/DM_Pkg.sv:364-368 | csrw is the number that the CSR and the register make |
| HartView.CsrReadFormat | rtl/DM_Pkg.sv:370-374 | csrr is the number that the CSR and the register make |
| HartView.LeftShiftFormat | rtl/DM_Pkg.sv:312-317 | slli is the number that registers and amount make |
| HartView.RightShiftFormat | rtl/DM_Pkg.sv:319-324 | srli is the number that registers and amount make |
| DebugRom.ImageIsListing | debug_rom/debug_rom.sv:12-33 | All forty image words decode to the instructions of the assembly listing at their addresses, with the listing's branch and jump targets |
| DebugRom.Rom.Clock | debug_rom/debug_rom.sv:35-45 | The ROM address register follows a request and holds without one |
| AbstractCommand.BuildRom | rtl/AbstractCmd_ROM.sv:33-140 | Filling the sixteen words by defaults and overwrites ends with the word the command calls for at every index |
| CommandWords.FieldsMakeWord | rtl/AbstractCmd_Decoder.sv:42-49 | Every command word is the weighted sum of the fields that are decoded from it and of bit 23 |
| CommandWords.WordHasFields | rtl/AbstractCmd_Decoder.sv:42-49 | And the only such sum: a word that is the sum of some fields decodes to them |
| CommandWords.SupportedByNumber | rtl/AbstractCmd_Decoder.sv:25-40 | A command is supported exactly if its type is 0, its size at most 2, post-increment clear, and the register number of a transfer below 0x4000 |
| CommandWords.TargetIsNamed | rtl/AbstractCmd_ROM.sv:59-88 | The register that is accessed is the one its number names by bit 12, bit 5 and the remainder |
| CommandWords.NamedIsPlace | rtl/AbstractCmd_ROM.sv:59-88 | 0x1000 + n names GPR n, 0x1020 + n FPR n, and a number below 0x1000 that CSR |
| AbstractCommand.EmitWrite | rtl/AbstractCmd_ROM.sv:51-88 | For a command that writes a register the overwritten entries are the code of that command and no other entry changes |
| AbstractCommand.EmitRead | rtl/AbstractCmd_ROM.sv:89-128 | For a command that reads a register the overwritten entries are the code of that command and no other entry changes |
| AbstractCommand.MoveWords | rtl/AbstractCmd_ROM.sv:51-128 | The four moving words for a0, for other GPRs and FPRs, and for CSRs |
| AbstractCommand.CodeDecodes | rtl/AbstractCmd_ROM.sv:33-140 | Every generated word of a supported command decodes to the instruction it is meant to be |
| CodeGenerator.CodeMakesAccess | rtl/AbstractCmd_ROM.sv:33-140 | From any hart state and any page, interpreting the ten words makes exactly the access of the command, keeps every other GPR, every CSR but the scratch ones and data1, and ends at the ebreak or in the program buffer |
| CodeGenerator.BorrowedAccess | rtl/AbstractCmd_ROM.sv:59-88 | Commands that go through s0 move the value and give s0 back |
| CodeGenerator.DirectAccess | rtl/AbstractCmd_ROM.sv:70-76 | Commands on the other GPRs and the FPRs make their access in word 4 alone |
| CommandWords.CodeMovesRegister | rtl/AbstractCmd_ROM.sv:33-140 | For every register number, interpreting the ten words moves the low bits of exactly the register it names, sign-extended on a write and replacing those of data0 on a read, and ends at 0x800 or 0x360 |
| CommandWords.AccessByNumber | rtl/AbstractCmd_ROM.sv:55-128 | The access of a command to an accessible register, as arithmetic on the numbers in data0 and in the register |
| CommandWords.TrapsByNumber | rtl/AbstractCmd_ROM.sv:55-128 | A command that names a register traps exactly if an FPR is absent or not accessed at 32 bits, a CSR is absent, or a written CSR has a number from 0xc00 |
| CommandWords.ExtensionNumber | rtl/DM_Pkg.sv:326-332 | Sign extension of 8, 16 or 32 bits, as arithmetic |
| CommandWords.ReplacedNumber | rtl/DM_Mem.sv:130-145 | A narrow store into data0 replaces its value modulo 2^8, 2^16 or 2^32 |
| Dmi.RegistersAreDistinct | rtl/DM_Pkg.sv:20-75 | No two DMI addresses name the same register |
| CommandFsm.CommandUnit.Clock | rtl/DM_ControlUnit2.sv:35-100 | The state machine with its outputs: resume before command, exception before any other error |
| DmiControl.DmiUnit.Clock | rtl/DM_ControlUnit1.sv:64-189 | One response is pushed per accepted request and none is accepted when the queue is full; cmderr and cmd_valid follow |
| DmiControl.DmiUnit.Decide | rtl/DM_ControlUnit1.sv:76-160 | An access to a busy register sets the busy error only on a clear cmderr; an idle access clears cmderr or starts a command |
| ControlRegs.BusyGating | rtl/DM_CSRS.sv:292-399 | While a command runs no DMI write reaches command, data, progbuf or abstractauto; otherwise a write changes the register it addresses alone, and a hart store wins |
| ControlRegs.RequestBits | rtl/DM_CSRS.sv:417-430 | haltreq and resumereq change with dmcontrol writes, resumereq also when acknowledged; a rising resumereq clears the acknowledge |
| ControlRegs.ControlFile.Clock | rtl/DM_CSRS.sv:211-512 | The register file moves to the state the accepted write, the hart's store and the acknowledge call for |
| ControlRegs.ControlFile.Reply | rtl/DM_CSRS.sv:232-340 | A read returns the register, and every access to a busy register is answered busy |
| DmiView.WriteIsShown | rtl/DM_CSRS.sv:247-339 | On an idle module a write to 0x04, 0x05 or 0x20 to 0x27 is what a read of that address brings back, and a read of any other of them brings back what it did before |
| DmiView.ReadsBackLastWrite | rtl/DM_CSRS.sv:247-339 | The written word reads back after any run in which neither the hart nor the debugger writes that register |
| DmiView.GuardedNeedsIdle | rtl/DM_CSRS.sv:247-339 | The accesses that a busy module turns away, by address and operation |
| DmiView.BusyRefuses | rtl/DM_ControlUnit1.sv:75-159 | They are answered with status 3 exactly while the module is busy, change none of data, program buffer, command and abstractauto, and set cmderr to 1 if it is 0 |
| DmiView.ControlWritten | rtl/DM_CSRS.sv:295-300 | A dmcontrol write takes haltreq, resumereq, ndmreset and dmactive from bits 31, 30, 1 and 0, an acknowledged resumereq excepted |
| DmiView.ControlShown | rtl/DM_CSRS.sv:235-235 | A dmcontrol read is the weighted sum of the four bits |
| DmiView.StatusShown | rtl/DM_CSRS.sv:201-205 | abstractcs reads two data registers, eight program-buffer words and cmderr from bit 8 |
| DmiView.StatusCleared | rtl/DM_ControlUnit1.sv:115-124 | Ones in bits 8 to 10 of an abstractcs write clear these bits of cmderr and no others |
| DmiView.AutoShown | rtl/DM_CSRS.sv:313-322 | abstractauto reads back the written number, cut to bits 0, 1 and 16 to 23 |
| DmiView.StartsByNumber | rtl/DM_ControlUnit1.sv:75-159 | A command is started by a write to 0x17, by an access to 0x04 or 0x05 whose bit of abstractauto is set, and by nothing else |
| DmiView.InactiveIsReset | rtl/DM_CSRS.sv:483-504 | An inactive module is reset in one clock and hears only bit 0 of a dmcontrol write |
| DmiView.NdmresetClears | rtl/DM_Mem.sv:172-176 | Under ndmreset the module is idle, the hart neither halted nor resumed, and the flags read 0 |
| MemWindow.ReadReturnsFlatWord | rtl/DM_Mem.sv:147-222 | The registered 64-bit read path returns, one cycle later, the word of a flat memory at every mapped address, whatever it held before |
| MemWindow.StoreUpdatesFlatBytes | rtl/DM_Mem.sv:117-145 | A store to the data registers changes exactly the enabled bytes of the addressed word of the flat memory |
| HartView.CodeByNumber | rtl/DM_Mem.sv:162-163 | Word k of the generated code stands at 0x338 + 4k |
| HartView.ProgbufByNumber | rtl/DM_Mem.sv:160-161 | Word j of the program buffer stands at 0x360 + 4j |
| HartView.DataByNumber | rtl/DM_Mem.sv:157-159 | Data register i stands at 0x380 + 4i |
| HartView.FlagsByNumber | rtl/DM_Mem.sv:164-170 | 0x400 reads GO in bit 0 and RESUME in bit 1 |
| HartView.WheretoByNumber | rtl/DM_Mem.sv:147-156 | 0x300 reads the jumps to 0x360, 0x338 and 0x808 as instruction words, in the source's priority |
| HartView.ReportsByNumber | rtl/DM_ControlUnit3.sv:62-75 | Stores to 0x100, 0x108, 0x110 and 0x118 report, those from 0x380 to 0x387 write data, and others do nothing |
| MemWindow.DebugMemory.StoreBytes | rtl/DM_Mem.sv:117-145 | The nested loops over data registers and byte enables compute the byte-enabled update |
| MemWindow.DebugMemory.Clock | rtl/DM_Mem.sv:93-222 | Flags, read path, ROM address and stored data of one cycle |
| DebugModule.Module.Clock | rtl/DM_top.sv:99-284 | The wired instances move together as the next-state function of the whole module says, answer the DMI, drive the read bus towards the hart, and pass haltreq on to it |
| ReadBus.FetchArrives | rtl/DM_Mem.sv:147-222 | Every instruction a parked hart takes, from ROM, generated code or whereto, is the word on the module's read bus in that cycle |
| ReadBus.LoadArrives | rtl/DM_Mem.sv:147-222 | Every load of a parked hart, of data0 or of a flag, works with the word on the read bus one cycle after its request |
| Hart.PcAddIsAddition | debug_rom/debug_rom.S:37-46 | Splitting an address into page and offset loses nothing, so the program counter moves by 32-bit addition |
| Protocol.RegsStep | rtl/DM_CSRS.sv:302-338 | In one clock of an active module command, progbuf and data are stable while busy, and the command also in the cycle it is taken |
| Protocol.FsmStep | rtl/DM_ControlUnit2.sv:44-79 | The four states leave only by GOING, HALTED and RESUMING reports, and Idle only on a halted hart |
| HartSteps.WaitStep | rtl/DM_Mem.sv:147-183 | A stalled or fetching hart keeps the invariant, its place, its instruction and the user's registers under any DMI request |
| RomSteps.RomStep | debug_rom/debug_rom.S:25-110 | Every quiet ROM instruction keeps the invariant and the user's registers and leads where the listing says |
| RomSteps.ReportStep | debug_rom/debug_rom.S:52-104 | The four stores of the ROM reach the strobes they are meant for and keep the invariant and the user's registers |
| RomSteps.DretStep | debug_rom/debug_rom.S:101-110 | dret returns to user code with all of the user's registers |
| CodeSteps.FaultSettles | debug_rom/debug_rom.S:72-90 | Wherever generated code can fault, the scratch registers hold the user's s0 and a0, so the exception path finds the context complete |
| CommandSteps.CommitStep | rtl/AbstractCmd_ROM.sv:55-128 | The one committing instruction makes exactly the command's access on the user's state, and only if the command does not trap |
| CommandSteps.CodeStep | rtl/AbstractCmd_ROM.sv:33-140 | Every other word of the code leaves the user's state alone |
| CommandSteps.FaultTraps | debug_rom/debug_rom.S:72-90 | Generated code faults only when the command cannot be carried out |
| CommandSteps.EnterProgramStep | rtl/DM_Mem.sv:147-156 | Whereto and the final nop both enter the program buffer with all 32 registers the user's |
| Atomicity.StepKeepsInv | rtl/DM_ControlUnit2.sv:44-79 | Every step in every mode under every allowed DMI request keeps the joint invariant of hart and module |
| Atomicity.RunKeepsInv | rtl/DM_ControlUnit2.sv:44-79 | The joint invariant holds over every allowed run |
| Atomicity.OutcomeIsSettled | rtl/DM_Mem.sv:106-163 | While a command runs no stall, fetch, instruction or DMI request changes the state it will leave |
| Commands.CommandIsAtomic | rtl/DM_CSRS.sv:306-339 | A command that has been taken is one atomic register access under every interleaving |
| Commands.CommandTaken | rtl/DM_ControlUnit2.sv:45-60 | A valid command is taken in an idle cycle exactly when the hart is halted, the command is supported and no resume starts |
| Commands.CommandIsRun | rtl/DM_ControlUnit2.sv:45-60 | A supported command accepted by an idle module is run exactly if the hart is halted by then and no resume is asked for when it arrives; otherwise it is lost without an error |
| Commands.CommandCanBeLost | rtl/DM_ControlUnit2.sv:57-59 | A halted hart with a standing request to resume and a command write in that cycle satisfy every assumption, and the command is lost |
| Commands.WindowWriteReplaces | rtl/DM_CSRS.sv:306-312 | The command that runs is the one accepted exactly unless another is written in the cycle in which it is taken |
| Commands.CommandStarts | rtl/DM_ControlUnit1.sv:64-172 | A command written, or restarted by an access that abstractauto has armed, with no resume due is taken two cycles later, or refused with cmderr if unsupported; the user's state has only what the debugger wrote |
| Commands.DebuggerAccess | rtl/DM_ControlUnit2.sv:44-79 | From the DMI access that starts a supported command to the end of busy, there is one access, on the state as the debugger left it |
| Commands.ReadBack | rtl/AbstractCmd_ROM.sv:55-128 | Reading a register back after writing it returns the written data at every size, x0 excepted |
| Commands.IdleUser | rtl/DM_CSRS.sv:292-399 | Between commands the user's state changes only by the debugger's writes of data and program buffer |
| Commands.SpacedRunAllowed | rtl/DM_ControlUnit1.sv:162-189 | A debugger whose requests are never accepted in neighbouring cycles meets the run theorems' assumption |
| Commands.ActivationEstablishesInv | rtl/DM_CSRS.sv:467-512 | A module just activated beside a running hart satisfies the invariant |
| CommandErrors.VerdictIsSettled | rtl/DM_ControlUnit2.sv:81-85 | While a command runs the error it will end with changes only by a refused access, and then to busy |
| CommandErrors.CommandReportsTraps | rtl/DM_ControlUnit2.sv:81-85 | At the end cmderr is exception exactly for commands that cannot be carried out, and never clear after a trap |
| CommandErrors.ErrorGatesNothing | rtl/DM_ControlUnit1.sv:127-137 | Over every run a value standing in cmderr changes nothing but cmderr: no command, resume or access is held back by it |
| RegisterAccess.WordMakesAccess | rtl/DM_ControlUnit2.sv:44-79 | A word with the number of an access to register p makes that access, under every interleaving |
| RegisterAccess.RegisterIsRead | rtl/AbstractCmd_ROM.sv:89-128 | After the word of a read of register p, a read of data0 replies with the low bits of p in place of its own, and the registers are what they were |
| RegisterAccess.RegisterIsWritten | rtl/AbstractCmd_ROM.sv:51-88 | A write of v to data0, any pause, and the word of a write leave register p with the low bits of v, sign-extended, and nothing else changed |
| RegisterAccess.TrapIsShown | rtl/DM_ControlUnit2.sv:81-85 | When busy falls abstractcs shows error 3 exactly if the register is not accessible, else what it showed before |
| RegisterAccess.RefusedIsUnsupported | rtl/AbstractCmd_Decoder.sv:25-40 | The words that are refused, by their number |
| RegisterAccess.UnsupportedIsShown | rtl/DM_ControlUnit2.sv:45-56 | They run nothing, change no register and leave error 2 in abstractcs |
| Refinement.RunRefines | rtl/DM_Mem.sv:106-163 | Over every allowed run, through any number of halts, commands, program buffers, faults and resumes, the user's state is what the visible events make of it, with the s0 and a0 of a fault taken from the saved pair of the abstract machine |
| Refinement.ContextInPlace | debug_rom/debug_rom.S:92-110 | After every prefix of every run, a hart in user code or in the program buffer has all 32 registers in place, with every event so far |
| Handshake.StepBalanced | rtl/DM_ControlUnit2.sv:44-79 | In every cycle commands taken and not yet run change by those taken less those run |
| Handshake.CommandsRunOnce | rtl/DM_ControlUnit2.sv:44-79 | Over every run each command taken leads to exactly one run of the whereto target |
| Handshake.ResumeBalanced | rtl/DM_ControlUnit2.sv:57-71 | Resumes started and reported balance in every cycle of a promptly acknowledging module, which stays prompt exactly unless an acknowledge is lost |
| Handshake.ResumesReturnOnce | rtl/DM_ControlUnit2.sv:57-71 | Over every run without a lost acknowledge each resume leads to exactly one dret |
| Handshake.LostAckResumesAgain | rtl/DM_Mem.sv:177-180 | From the cycle in which an acknowledge is lost, over any run without a report of a halt, the next such report finds a resume under way that no request has started |
| Handshake.AckCanBeLost | rtl/DM_Mem.sv:177-180 | A hart about to store its report and a dmcontrol write of 0x4000_0001 in that cycle satisfy the invariant and every assumption and lose the acknowledge |
| Handshake.EndsWhenDone | rtl/DM_ControlUnit2.sv:72-76 | A command ends only at the HALTED store of the ROM, with its access no longer pending |
| Handshake.ContextSavedAgain | debug_rom/debug_rom.S:38-52 | At the store that ends a command the scratch registers hold the s0 and a0 the user had when it was taken, and every other register is in place, but for the one access |
| Handshake.ReadFlagsStand | debug_rom/debug_rom.S:60-69 | A GO or RESUME flag the hart has read and not acted on still stands |
| Progress.StepNearer | debug_rom/debug_rom.S:52-100 | Every hart step of a running command shortens the way to its end or to its program buffer; stalls cost nothing |
| Progress.CommandCompletes | debug_rom/debug_rom.S:52-100 | A running command is over or in its program buffer within 92 hart steps under any interleaving, and again after program-buffer code has ended or faulted |
| Completion.CommandIsCarriedOut | rtl/DM_ControlUnit2.sv:44-79 | Every command taken has a run of at most 92 hart steps to its end or its program buffer with its access made |
| Completion.PollingSatisfiesInv | debug_rom/debug_rom.S:52-62 | For every supported command there is a polling hart and a module that has just taken it which satisfy the joint invariant |
| ProgramFaults.ProgramIsEntered | rtl/AbstractCmd_ROM.sv:130-140 | A command with a program buffer that does not trap stays on its way to the buffer until it enters it |
| ProgramFaults.EntryScratch | rtl/AbstractCmd_ROM.sv:59-88 | At every entry into the program buffer dscratch1 is the user's a0, and dscratch0 the user's s0 exactly unless the command has just changed s0 |
| ProgramFaults.FaultUndoesS0 | debug_rom/debug_rom.S:72-90 | After program-buffer code that leaves the scratch registers alone, a fault and the end of busy give back the a0 of the entry and the s0 of before the command, which is that of the entry exactly unless the command changed it; cmderr says so |
| ProgramFaults.WriteIsUndone | rtl/AbstractCmd_ROM.sv:70-76 | For every command that writes s0 and has a program buffer there is a run in which the buffer faults and the write is undone when busy falls |
| ProgramFaults.WriteCanBeUndone | rtl/AbstractCmd_ROM.sv:70-76 | Command 0x0027_1008 with data0 zero on a polling hart: s0 still has its old, nonzero value when busy falls |
| Resume.ResumeNearer | debug_rom/debug_rom.S:52-110 | Every hart step of a resume shortens the way to dret |
| Resume.ResumeCompletes | debug_rom/debug_rom.S:101-110 | A hart told to resume is back in user code within 40 steps |
| Resume.ResumeTaken | rtl/DM_ControlUnit2.sv:57-59 | A resume starts exactly when asked for and unanswered, the hart is halted and no halt is asked for |
| Resume.ResumeRequested | rtl/DM_CSRS.sv:425-430 | A dmcontrol write that asks a halted hart to resume, whatever runs, clears the old acknowledge and stands as a request exactly unless it falls in the report of an earlier resume |
| Resume.ResumeStarts | rtl/DM_ControlUnit2.sv:57-59 | As soon as the module is idle a standing request starts the resume, before any valid command |
| Resume.RequestServedOnce | rtl/DM_ControlUnit2.sv:44-79 | Over every run without another dmcontrol write a request leads to one start, one report and one dret, a running command included |
| Resume.NothingResumesUnasked | rtl/DM_ControlUnit2.sv:57-59 | Over every run in which the debugger does not ask, through any number of halts and commands, no resume starts |
| Resume.ResumeAcknowledged | rtl/DM_CSRS.sv:425-430 | From the request, through the command still running, to the acknowledge and any later halts: one resume started and reported, one dret, the request dropped, and no later halt resumed until asked |
| Resume.ResumeIsServed | debug_rom/debug_rom.S:52-110 | A request is served within 133 hart steps, a running command without postexec included: one dret, and the acknowledge set |
| Resume.EarlyRequestResumes | rtl/DM_CSRS.sv:417-430 | A request made while the hart runs starts nothing, stands, and resumes the hart in the cycle after its next report of a halt |
| SystemBus.BusMaster.Clock | rtl/DM_SBA.sv:47-171 | The bus engine with its error checks, byte lanes and address increment |
| SystemBus.SbRegisters.Clock | rtl/DM_CSRS.sv:342-416 | The bus registers with busy and sticky errors |
| SystemBus.SbRegisters.Strobe | rtl/DM_CSRS.sv:270-392 | Which accesses trigger the engine and which are answered busy |
| BusTransfer.StepKeepsInv | rtl/DM_SBA.sv:73-153 | Outside Idle there is no recorded error, and a waiting transaction has passed the alignment and size check |
| BusTransfer.TransactionStarts | rtl/DM_CSRS.sv:270-383 | A transaction starts exactly on an address write with readonaddr, a data write, or a data read with readondata, and never while sberror or sbbusyerror is set |
| BusTransfer.TransactionIsStable | rtl/DM_CSRS.sv:342-392 | From request to response address, data, size and direction do not change whatever the debugger sends |
| BusTransfer.TransactionsEndOnce | rtl/DM_SBA.sv:85-153 | Each started transaction ends in exactly one grant or one refusal with error 3 or 4, and each grant in one response |
| BusTransfer.WriteStoresElement | rtl/DM_SBA.sv:47-63 | Byte enables and lane shift of an aligned write cover exactly the addressed element |
| BusTransfer.ReadReturnsElement | rtl/DM_SBA.sv:162-171 | The shifted read word starts with the addressed element |
| BusTransfer.MemoryLaw | rtl/DM_SBA.sv:73-153 | Under any DMI traffic and delays memory changes by exactly the elements written through the data register |
| BusTransfer.BlockWrite | rtl/DM_SBA.sv:68-71 | Values written with auto-increment reach memory as consecutive elements for arbitrary grant and response delays |
| BusTransfer.BlockWriteStores | rtl/DM_SBA.sv:68-71 | Byte j of element i is byte j of value i at start plus i times the size modulo 2^32, and no other byte changes |
| BusTransfer.AddressStartsFetch | rtl/DM_SBA.sv:86-88 | Writing the address with readonaddr fetches the first element |
| BusTransfer.BlockRead | rtl/DM_SBA.sv:92-94 | Reads with readondata return consecutive elements in their low bytes for arbitrary delays |
| BusSetup.SbcsWritten | rtl/DM_CSRS.sv:342-354 | What an accepted sbcs write leaves in its seven fields, by the weights of the bits, write-1-to-clear included |
| BusSetup.SetUpLeaves | rtl/DM_CSRS.sv:342-364 | sbcs and sbaddress0 written from reset, with any pauses, leave the fields, the address, and the engine idle or fetching |
| BusSetup.BlockWriteFromReset | rtl/DM_CSRS.sv:342-383 | From reset: an sbcs word of its number, an aligned address and any number of data writes store the values as consecutive elements and change no other byte |
| BusSetup.BlockReadFromReset | rtl/DM_CSRS.sv:270-364 | From reset: with reads on address and on data the replies are the consecutive elements from the address on |
| BusSetup.ErrorsByNumber | rtl/DM_SBA.sv:109-152 | Misalignment to 2^sbaccess bytes ends in error 3, else a size over 32 bits in error 4, else a response's other error in 7 and its address error in 2 |
| BusSetup.BusyByNumber | rtl/DM_CSRS.sv:270-383 | Until a transaction ends, and until a busy error is cleared, data accesses and address writes are answered with status 3, set the busy error and change nothing else |
| BusSetup.IdleByNumber | rtl/DM_CSRS.sv:270-383 | Otherwise they are answered with status 0, and a read with the register |
| HaltSummary.HaltSums | rtl/DM_CSRS.sv:105-156 | Each summary shows its 32 groups up to the bound of its index cast and is zero beyond; the last is right exactly unless it reads an unknown row |
| HaltSummary.Reduce | rtl/DM_CSRS.sv:124-127 | The reduction loop ORs each row into one bit and leaves the rest clear |
| HaltSummary.LastLevel | rtl/DM_CSRS.sv:150-156 | The last loop covers the rows up to the hart count over 2^15, including one past the end |
| HaltSummary.RowMarks | rtl/DM_CSRS.sv:119-148 | The OR of a row of group bits is the halted bit of the group 32 times as large |
| HaltSummary.ZeroIsWrong | rtl/DM_CSRS.sv:114-116 | With every hart halted a summary of zero is wrong, so no larger hart count is right for all vectors |
| Tap.TapController.Clock | rtl/DTM_JTAG_TAP.sv:180-246 | The controller, instruction, idcode and bypass registers move as the state diagram says and TDO shows the selected register |
| Tap.FiveOnesReset | rtl/DTM_JTAG_TAP.sv:191-233 | Five clocks with TMS high reach Test-Logic-Reset from every state; four need not |
| Tap.ScanPaths | rtl/DTM_JTAG_TAP.sv:191-233 | The TMS sequences that lead between the states in which the controller can wait, any number of waiting clocks included, for data and instruction scans |
| Dtm.DtmTop.Clock | rtl/DTM_top.sv:47-245 | The transport's registers, request and TDO in one clock |
| Dtm.DtmTop.Machine | rtl/DTM_top.sv:109-187 | The transaction machine with its sticky error, busy and failed responses, and dmireset |
| Scan.ScanConserves | rtl/DTM_JTAG_TAP.sv:90-108 | Bits out followed by the register equal the register followed by bits in, through any Pause detours |
| Scan.ScanLaw | rtl/DTM_top.sv:208-230 | From Capture-DR to Update-DR the selected register ends as the last bits of captured value and input, TDO shows the first, and other registers hold |
| Scan.IrScanLaw | rtl/DTM_JTAG_TAP.sv:52-79 | From Capture-IR through any Pause detours to Update-IR the instruction becomes the last five bits of captured value and input, and TDO shows the first |
| DmiTransactions.OrdersArriveOnce | rtl/DTM_top.sv:109-187 | Over every run, resets included, the Update-DR orders meet their fates in order: each is accepted once and unaltered, or discarded by one reset before that |
| DmiTransactions.OnlyResetsDiscard | rtl/DTM_top.sv:118-125 | Without a reset every order is delivered |
| DmiTransactions.NothingAfterError | rtl/DTM_top.sv:172-187 | After an error nothing is ordered and the error stays until dmireset, dmihardreset or Test-Logic-Reset |
| DmiTransactions.CaptureDuringRead | rtl/DTM_top.sv:175-222 | A capture during a pending read reports op 3 |
| DmiTransactions.CaptureReturnsRead | rtl/DTM_top.sv:143-218 | A later error-free capture returns address and data of the response with op 0 |
| DmiTransactions.FailureIsNotCaptured | rtl/DTM_top.sv:213-222 | A capture after a failed operation leaves the register as the last scan left it |
| ScanNumbers.InstructionNumbers | rtl/DTM_JTAG_TAP.sv:37-43 | Instruction 1 selects the idcode, 0x10 dtmcs, 0x11 the DMI register, and every other one bypass |
| ScanNumbers.OrderByNumber | rtl/DTM_top.sv:125-134 | An update with the number n in the DMI register orders a read if n mod 4 is 1, a write if it is 2, and nothing otherwise, with data and address from the parts above |
| ScanNumbers.ScanReachesModule | rtl/DTM_top.sv:102-134 | A scan of op + 4 * data + 2^34 * address is the request that the module decodes: that operation, that data, the register of that address |
| ScanNumbers.ReplyByNumber | rtl/DTM_top.sv:143-218 | The capture after a read answered with status 0 is 4 * data + 2^34 * address |
| ScanNumbers.StatusByNumber | rtl/DTM_top.sv:141-182 | A response of status 2 or 3 leaves that error code, every other one none |
| ScanNumbers.DataByNumber | rtl/DTM_top.sv:141-148 | The data kept of a response: its own with status 0, else the three stand-in words |
| ScanNumbers.TooEarlyByNumber | rtl/DTM_top.sv:172-179 | Updates during a transaction and captures during a read order nothing and leave error 3 |
| ScanNumbers.DtmcsNumber | rtl/DTM_top.sv:50-61 | dtmcs is captured as version 1, seven address bits, the error from bit 10 and an idle hint of 1 |
| ScanNumbers.DtmcsWritten | rtl/DTM_top.sv:184-185 | Bit 16 of an updated dtmcs clears the error, bit 17 resets the transport, and neither leaves both alone |
| Link.StepKeepsInv | rtl/DM_ControlUnit1.sv:185-189 | With crossings of any delay, and resets with nothing in flight, at most one order is under way and the response queue never holds more than one entry |
| Link.ResponseMatchesRequest | rtl/DTM_top.sv:143-170 | A response is delivered only to a waiting transport and answers the request it sent last |
| Link.NoNeighbours | rtl/DM_ControlUnit1.sv:185-189 | No two requests are accepted in neighbouring cycles of the module |
| Composition.AcceptedAreSpaced | rtl/DM_ControlUnit1.sv:162-189 | Over every run of transport, crossings and module the requests accepted, one entry per module clock, are never neighbours |
| Composition.JtagRunIsAllowed | rtl/DM_ControlUnit1.sv:162-189 | Whatever comes over the transport makes an allowed run of the system, if it leaves dmactive, ndmreset and the scratch registers alone |
| JtagAccess.TransactionIsAnswered | rtl/DTM_top.sv:109-187 | Under any delays a transaction ends with the module's answer to its own request, and the module hears nothing else meanwhile |
| JtagAccess.ScanIsOneAccess | rtl/DTM_top.sv:102-170 | A scan of an operation, a word and an address is one access of that register at one instant before the transaction ends |
| JtagAccess.JtagReadReturns | rtl/DTM_top.sv:143-218 | The capture after a read scan shows what the register was when the module heard the request, and its address |
| JtagAccess.JtagReadsBack | rtl/DM_CSRS.sv:247-339 | A word written to a data register or program-buffer word by one scan is what the capture after a read scan shows, whatever the delays |
| Driver.JtagDriver.ReadWriteBits | tb/jtag_dmi/jtag_test.sv:91-100 | A scan returns the first bits of the register followed by the sent bits and leaves the last in the register |
| Driver.JtagDriver.SetIr | tb/jtag_dmi/jtag_test.sv:53-66 | After loading or skipping, the controller holds the instruction the driver remembers |
| Driver.JtagDriver.SoftReset | tb/jtag_dmi/jtag_test.sv:40-50 | From any state the driver and controller end in Run-Test/Idle with IDCODE and a free transport |
| Driver.RiscvDbg.ResetMaster | tb/jtag_dmi/jtag_test.sv:145-148 | Whatever happened before, driver and controller agree afterwards |
| Driver.RiscvDbg.GetIdcode | tb/jtag_dmi/jtag_test.sv:154-162 | The IDCODE value is returned despite the thirty-third shift, and nothing is ordered |
| Driver.RiscvDbg.WriteDtmcs | tb/jtag_dmi/jtag_test.sv:164-172 | Writing dtmcs orders nothing, clears the error with dmireset and frees the transport with dmihardreset |
| Driver.RiscvDbg.ResetDmi | tb/jtag_dmi/jtag_test.sv:185-188 | The sticky error is cleared and nothing is ordered |
| Driver.RiscvDbg.ReadDtmcs | tb/jtag_dmi/jtag_test.sv:174-183 | Reading dtmcs orders nothing and shows the transport's error at the capture: none on a free transport, the standing one if there is one, else one that came and stays |
| Driver.RiscvDbg.WriteDmi | tb/jtag_dmi/jtag_test.sv:190-198 | On a free transport exactly one write order of the address and data is taken, skipped instruction scan or not |
| Driver.RiscvDbg.ReadDmi | tb/jtag_dmi/jtag_test.sv:200-222 | Exactly one read order is taken, and reported success means it was answered well with the data returned |

## Left out

- The CV32E40P core is not part of this model; `Hart` stands for it, with CSRs as storage and a fixed set of faults.
- Program-buffer accesses that the hart's own load and store unit would refuse, and nested debug exceptions other than the jump to the exception vector.
- Multi-hart run control: everything but the halt summaries is instantiated with one hart, as in `rtl/top.sv`.
- autoexecprogbuf starts nothing in the model: the code indexes it beyond its 16 bits (`rtl/DM_ControlUnit1.sv:92`).
- dmstatus, hartinfo, nextdm, havereset, hartsel and the SBCS read word are opaque replies; abstractcs.busy is never driven by the code.
- The upper halves of sbaddress and sbdata, which a 32-bit bus does not use, beyond their effect on the busy error.
- Floating-point values: the FPRs are words that move unchanged, at size 2 only.
- Reset in the middle of a command: dmactive and ndmreset are modelled in the register file and the state machine, the run theorems assume neither changes.
- The clock-domain crossings, the FIFO cell and the clock gates are one-place channels and a queue; their internal signalling, and a reset of the transport that finds it waiting for a response (`Link.CutsShort`), are not modelled.
- read_dmi_exp_backoff and sba_read_double: their loops end only if the hardware eventually answers.
- Commands.CommandIsAtomic: says nothing about program-buffer code past its entry, because that may be any code; `Refinement.RunRefines` and `ProgramFaults` say what becomes of the user's registers there.
- Progress.CommandCompletes: does not bound the time inside the program buffer, because program-buffer code need not end.
- Resume.ResumeIsServed: assumes postexec is 0 in a command that is still running, for the same reason.
- Tap.Tdo: TDO is the bit of the current tck cycle; the falling-edge register that drives the pin, and its output enable, are not modelled.
