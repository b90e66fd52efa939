/** Bounded completion: with every hart step the distance to the end of a command,
    or of a resume, gets shorter. */
module Progress {
  import opened Words
  import opened DebugRom
  import opened Hart
  import opened System
  import opened Protocol
  import opened HartSteps
  import opened RomSteps
  import opened CodeSteps
  import opened CommandSteps
  import opened Atomicity
  import opened Commands
  import opened Handshake
  import Isa
  import F = CommandFsm
  import MW = MemWindow
  import AC = AbstractCommand
  import DM = DebugModule

  // ---- Instructions left until a running command ends ----

  // From _entry to the HALTED store.
  function EntryRank(off: Offset): nat
  {
    match off
    case 0x800 => 9
    case 0x818 => 8
    case 0x81c => 7
    case 0x820 => 6
    case 0x824 => 5
    case 0x828 => 4
    case 0x82c => 3
    case 0x830 => 2
    case _ => 1
  }

  // From the exception vector.
  function TrapRank(off: Offset): nat
  {
    match off
    case 0x860 => 16
    case 0x864 => 15
    case 0x868 => 14
    case 0x86c => 13
    case 0x870 => 12
    case 0x874 => 11
    case 0x878 => 10
    case _ => 17
  }

  // From a word of the generated code; any of them may still trap.
  function CodeRank(off: Offset): nat
  {
    match off
    case 0x338 => 27
    case 0x33c => 26
    case 0x340 => 25
    case 0x344 => 24
    case 0x348 => 23
    case 0x34c => 22
    case 0x350 => 21
    case 0x354 => 20
    case 0x358 => 19
    case _ => 18
  }

  function ExecRank(off: Offset): nat
  {
    if off < 0x338 then 28
    else if off < 0x360 then CodeRank(off)
    else if off == EXCEPTION_VECTOR || 0x860 <= off < 0x87c then TrapRank(off)
    else if off < 0x860 then EntryRank(off)
    else match off case 0x888 => 29 case 0x884 => 30 case _ => 31
  }

  // From the polling loop to the GOING store: what the hart has read of the GO flag
  // decides whether it leaves the loop this time round.
  function PollGoRank(off: Offset, seen: bool): nat
  {
    match off
    case 0x87c => 32
    case 0x844 => if seen then 33 else 45
    case 0x840 => if seen then 34 else 46
    case 0x83c => 35
    case 0x838 => 36
    case 0x834 => 37
    case _ => 38
  }

  function PollResumeRank(off: Offset): nat
  {
    match off
    case 0x85c => 39
    case 0x858 => 40
    case 0x854 => 41
    case 0x850 => 42
    case 0x84c => 43
    case _ => 44
  }

  predicate GoSeen(off: Offset, s0: Word) { if off == 0x840 then s0 & 1 != 0 else s0 != 0 }

  function GoRank(off: Offset, s0: Word): nat
  {
    if 0x848 <= off < 0x860 then PollResumeRank(off) else PollGoRank(off, GoSeen(off, s0))
  }

  const MAX_RANK := 46

  // Instructions, then bus steps: a fetch is half an instruction.
  function Rank(s: Sys): nat
  {
    if s.dm.fsm == F.Go then GoRank(Off(s), S0Of(s.hart.gpr)) else ExecRank(Off(s))
  }

  function Steps(s: Sys): nat { 2 * Rank(s) - (if s.hart.ir.Some? then 1 else 0) }

  // ---- Every instruction brings the end nearer ----

  lemma FlagReads(h: Hart, page: Page, d: DM.Dm, word: Word)
    requires Ready(h, page, d)
    requires h.pc.off == 0x83c ==> word == MW.FlatWord(DM.ViewOf(d), FLAGS)
    ensures h.pc.off == 0x83c ==> (S0Of(Execute(h, Listing(0x83c), page, word).gpr) & 1 != 0 <==> d.fsm == F.Go)
    ensures h.pc.off == 0x840 ==> (S0Of(Execute(h, Listing(0x840), page, word).gpr) != 0 <==> S0Of(h.gpr) & 1 != 0)
  {
    hide AC.Fields, AC.TargetOf, UserCsr, PcAdd, Addr, PageBase, Sum, MW.FlatWord, DM.ViewOf, Loaded, HartAt, FsmAt;
    if h.pc.off == 0x83c {
      FlagBits(d);
      FlagAddress(h, page, d);
    }
  }

  lemma FlagAddress(h: Hart, page: Page, d: DM.Dm)
    requires Ready(h, page, d) && h.pc.off == 0x83c
    ensures At(Sum(S0Of(h.gpr), FLAGS as Word)) == 0
  {
    hide AC.Fields, AC.TargetOf, PageBase, Sum, FsmAt;
    WindowAddress(page, FLAGS);
  }

  lemma ExecRomNearer(halted: bool, off: Offset, s0: Word)
    requires FsmAt(F.Exec, halted, off, s0) && 0x800 <= off < 0x89c && off & 3 == 0 && StoresNothing(off)
    requires off < 0x818 ==> off == ENTRY || off == EXCEPTION_VECTOR
    ensures ExecRank(RomNext(off, s0)) < ExecRank(off)
  {
  }

  lemma GoRomNearer(halted: bool, off: Offset, s0: Word, s0': Word)
    requires FsmAt(F.Go, halted, off, s0) && 0x800 <= off < 0x89c && off & 3 == 0 && StoresNothing(off)
    requires off == 0x83c ==> s0' & 1 != 0
    requires off == 0x840 ==> (s0' != 0 <==> s0 & 1 != 0)
    ensures GoRank(RomNext(off, s0), s0') < GoRank(off, s0)
  {
  }

  lemma RomNearer(s: Sys, i: Input)
    requires Executing(s, i) && RunsCommand(s.dm) && 0x800 <= Off(s) < 0x890 && StoresNothing(Off(s))
    ensures var s' := Next(s, i); s'.dm.fsm == s.dm.fsm && Rank(s') < Rank(s) && s'.hart.ir.None?
  {
    hide AC.Fields, AC.TargetOf, AC.Unsupported, Next, HartAt, Located, Execute, Isa.Decode, DataAccess, UserOf;
    hide SameUserRegs, Listing, RomNext, MW.FlatWord;
    RomStep(s, i);
    PlaceOf(s);
    if Off(s) < 0x818 { VectorPlaces(s); }
    if s.dm.fsm == F.Exec {
      hide Inv, FsmAt;
      ExecRomNearer(s.dm.halted, Off(s), S0Of(s.hart.gpr));
    } else {
      if Off(s) == 0x83c { RomInstruction(s, i); FlagLoad(s.hart, s.page, s.dm); }
      if Off(s) == 0x83c || Off(s) == 0x840 { FlagReads(s.hart, s.page, s.dm, LoadedWord(s)); }
      hide Inv, FsmAt;
      GoRomNearer(s.dm.halted, Off(s), S0Of(s.hart.gpr), S0Of(Next(s, i).hart.gpr));
    }
  }

  lemma ReportNearer(s: Sys, i: Input)
    requires Executing(s, i) && RunsCommand(s.dm) && 0x800 <= Off(s) < 0x890 && !StoresNothing(Off(s))
    ensures var s' := Next(s, i);
            RunsCommand(s'.dm) ==> Rank(s') < Rank(s) && s'.hart.ir.None? && s'.hart.mode == Parked
  {
    hide AC.Fields, AC.TargetOf, AC.Unsupported, DM.Next, HartAt, Located, Isa.Decode, MW.DecodeBus, Bus;
    hide SameUserRegs, Executed;
    ReportStep(s, i);
    PlaceOf(s);
    InvDmOk(s);
    FsmStep(s.dm, i.req, Bus(s, Tick));
    hide Inv;
  }

  lemma CodeNearer(s: Sys, i: Input)
    requires Executing(s, i) && Off(s) < 0x800
    ensures var s' := Next(s, i);
            && s'.dm.fsm == F.Exec
            && if EntersProgram(s) then s'.hart.mode == Program
               else Rank(s') < Rank(s) && s'.hart.ir.None? && s'.hart.mode == Parked
  {
    hide AC.Fields, AC.TargetOf, AC.Unsupported, Next, HartAt, FsmAt, Isa.Decode, SameUserRegs, Faults, UserOf;
    BelowRom(s);
    InExec(s);
    if EntersProgram(s) { EnterProgramStep(s, i); }
    else if Off(s) == WHERETO { WheretoStep(s, i); }
    else { AtWordHere(s); CodeArea(s, i); }
    hide Inv, AtWord;
  }

  // A hart step shortens the way to the end, or to the program buffer, by one bus step;
  // a stall costs nothing.
  lemma StepNearer(s: Sys, i: Input)
    requires Inv(s) && Allowed(s, i) && RunsCommand(s.dm) && s.hart.mode == Parked
    ensures var s' := Next(s, i);
            RunsCommand(s'.dm) ==>
              && Cmd(s') == Cmd(s)
              && if s'.hart.mode == Program then Cmd(s).postexec
                 else s'.hart.mode == Parked
                      && if i.move == Tick then Steps(s') < Steps(s) else Steps(s') == Steps(s)
  {
    hide AC.Fields, DM.Next, HartAt, FsmAt, Located, SameUserRegs, Isa.Decode, UserOf, ExecRank, GoRank;
    hide Execute, MW.FlatWord, Bus;
    InvDmOk(s);
    RegsStep(s.dm, i.req, Bus(s, i.move));
    if i.move != Tick || s.hart.ir.None? { WaitStep(s, i); WaitKeepsUser(s, i); }
    else if Off(s) < 0x800 { CodeNearer(s, i); }
    else {
      InRom(s);
      NotDret(s);
      if StoresNothing(Off(s)) { RomNearer(s, i); RomStep(s, i); } else { ReportNearer(s, i); }
    }
  }

  function Ticks(ins: seq<Input>): nat
  {
    if ins == [] then 0 else Count(ins[0].move == Tick) + Ticks(ins[1..])
  }

  lemma RankBound(s: Sys)
    ensures 0 < Rank(s) <= MAX_RANK
  {
    hide S0Of;
  }

  lemma {:induction false} BusyTime(s: Sys, ins: seq<Input>)
    requires Inv(s) && AllowedRun(s, ins) && BusyRun(s, ins) && s.hart.mode == Parked
    requires RunsCommand(Run(s, ins).dm) && Run(s, ins).hart.mode == Parked
    ensures Ticks(ins) < Steps(s)
    decreases |ins|
  {
    hide Inv, Next, Steps, AC.Fields;
    StepsPositive(s);
    if ins != [] {
      StepKeepsInv(s, ins[0]);
      StepNearer(s, ins[0]);
      StillBusy(Next(s, ins[0]), ins[1..]);
      BusyTime(Next(s, ins[0]), ins[1..]);
    }
  }

  lemma StillBusy(s: Sys, ins: seq<Input>)
    requires BusyRun(s, ins) && RunsCommand(Run(s, ins).dm) && Run(s, ins).hart.mode == Parked
    ensures RunsCommand(s.dm) && s.hart.mode == Parked
  {
    hide Next;
  }

  lemma StepsPositive(s: Sys)
    ensures 0 < Steps(s) <= 2 * MAX_RANK
  {
    RankBound(s);
  }

  // A command is over, or has come to its program buffer, within 92 steps of the hart,
  // however they are spread over the cycles and whatever the debugger sends meanwhile.
  // So is what is left of it when program-buffer code has ended or faulted.
  lemma CommandCompletes(s: Sys, ins: seq<Input>)
    requires Inv(s) && AllowedRun(s, ins) && BusyRun(s, ins) && s.hart.mode == Parked
    requires Ticks(ins) >= 92
    ensures !RunsCommand(Run(s, ins).dm) || Run(s, ins).hart.mode == Program
  {
    hide Next, AC.Fields, Located, Steps;
    StepsPositive(s);
    RunKeepsInv(s, ins);
    if RunsCommand(Run(s, ins).dm) && Run(s, ins).hart.mode != Program {
      BusyIsNotRunning(Run(s, ins));
      BusyTime(s, ins);
    }
  }

  lemma BusyIsNotRunning(s: Sys)
    requires Inv(s) && RunsCommand(s.dm)
    ensures s.hart.mode != Running
  {
  }
}
