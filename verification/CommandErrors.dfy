/** What a command leaves in cmderr: an exception is reported exactly when the
    command cannot be carried out. */
module CommandErrors {
  import opened Words
  import opened Dmi
  import opened DebugRom
  import opened Hart
  import opened System
  import opened Protocol
  import opened HartSteps
  import opened RomSteps
  import opened CodeSteps
  import opened CommandSteps
  import opened Atomicity
  import opened Commands
  import Isa
  import F = CommandFsm
  import CR = ControlRegs
  import MW = MemWindow
  import AC = AbstractCommand
  import DC = DmiControl
  import DM = DebugModule

  // The exception path before its report.
  predicate OnTrapPath(off: Offset)
  {
    off == EXCEPTION_VECTOR || 0x860 <= off <= 0x86c
  }

  // The hart will report an exception before the running command ends.
  predicate Doomed(s: Sys)
  {
    || (Pending(s) && Traps(Cmd(s), s.hart.fpu, UserOf(s)))
    || (s.dm.fsm == F.Exec && s.hart.mode == Parked && OnTrapPath(Off(s)))
  }

  // The error the running command will end with, refused accesses aside.
  function Verdict(s: Sys): bv3
  {
    if Doomed(s) then ERR_EXCEPTION else s.dm.dmi.cmderr
  }

  predicate Refuses(s: Sys, i: Input)
  {
    i.req.Some? && NeedsIdle(i.req.value) && s.dm.dmi.cmderr == ERR_NONE
  }

  // cmderr in a cycle of a running command.
  lemma ErrorStep(d: DM.Dm, req: Option<Request>, b: MW.BusRequest)
    requires RunsCommand(d)
    ensures var refused := req.Some? && NeedsIdle(req.value) && d.dmi.cmderr == ERR_NONE;
            DM.Next(d, req, b).dmi.cmderr == if refused then ERR_BUSY
                                             else if MW.DecodeBus(b) == MW.WriteException then ERR_EXCEPTION
                                             else d.dmi.cmderr
  {
    hide AC.Fields, AC.Unsupported, AC.TargetOf, MW.DecodeBus, MW.Stored, MW.NextPath, CR.Next, CR.Written;
  }

  predicate RunningParked(s: Sys, i: Input)
  {
    Inv(s) && Allowed(s, i) && RunsCommand(s.dm) && s.hart.mode == Parked
  }

  lemma WaitKeepsDoom(s: Sys, i: Input)
    requires RunningParked(s, i) && (i.move != Tick || s.hart.ir.None?)
    ensures Doomed(Next(s, i)) == Doomed(s) && MW.DecodeBus(Bus(s, i.move)) != MW.WriteException
  {
    hide AC.Fields, AC.TargetOf, AC.Unsupported, DM.Next, Inv, Traps, UserOf, SameUserRegs, Evolves;
    hide MW.DecodeBus, Bus, BeforeAccess;
    WaitStep(s, i);
    WaitKeepsUser(s, i);
    WaitBus(s, i.move);
  }

  lemma RomKeepsDoom(s: Sys, i: Input)
    requires Executing(s, i) && RunsCommand(s.dm) && 0x800 <= Off(s) < 0x890 && StoresNothing(Off(s))
    ensures Doomed(Next(s, i)) == Doomed(s) && MW.DecodeBus(Bus(s, Tick)) != MW.WriteException
  {
    hide AC.Fields, AC.TargetOf, AC.Unsupported, Next, HartAt, Located, Execute, Isa.Decode, UserOf, Traps;
    hide Evolves, MW.DecodeBus, Bus;
    RomStep(s, i);
    QuietInRom(s, i);
    QuietKeepsUser(s, i);
    PlaceOf(s);
    if Off(s) < 0x818 { VectorPlaces(s); }
    hide Inv, FsmAt, BeforeAccess, SameUserRegs, OnTrapPath;
    if s.dm.fsm == F.Exec {
      RomKeepsPending(s.dm.fsm, s.dm.halted, Off(s), S0Of(s.hart.gpr), Cmd(s));
      RomKeepsTrapPath(s.dm.fsm, s.dm.halted, Off(s), S0Of(s.hart.gpr));
    }
  }

  lemma RomKeepsTrapPath(fsm: F.State, halted: bool, off: Offset, s0: Word)
    requires FsmAt(fsm, halted, off, s0) && 0x800 <= off < 0x89c && off & 3 == 0 && fsm == F.Exec && StoresNothing(off)
    requires off < 0x818 ==> off == ENTRY || off == EXCEPTION_VECTOR
    ensures OnTrapPath(RomNext(off, s0)) <==> OnTrapPath(off)
  {
  }

  lemma ReportAndDoom(s: Sys, i: Input)
    requires Executing(s, i) && RunsCommand(s.dm) && 0x800 <= Off(s) < 0x890 && !StoresNothing(Off(s))
    ensures MW.DecodeBus(Bus(s, Tick)) == MW.WriteException ==> Doomed(s) && !Doomed(Next(s, i))
    ensures MW.DecodeBus(Bus(s, Tick)) != MW.WriteException ==> Doomed(Next(s, i)) == Doomed(s)
  {
    hide AC.Fields, AC.TargetOf, AC.Unsupported, DM.Next, HartAt, Located, Isa.Decode, Traps, MW.DecodeBus, Bus;
    hide MW.FlatWord, S0Saved, A0Saved, Executed;
    ReportStep(s, i);
    PlaceOf(s);
    RegsStep(s.dm, i.req, Bus(s, Tick));
    FsmStep(s.dm, i.req, Bus(s, Tick));
  }

  // Past the access, no word of the code faults.
  lemma FaultBeforeAccess(s: Sys, i: Input)
    requires Executing(s, i) && 0x338 <= Off(s) < 0x360 && Faults(s.hart, Current(s))
    ensures Off(s) <= AccessPoint(Cmd(s))
  {
    hide AC.Fields, AC.TargetOf, AC.Unsupported, Isa.Decode, AtCode, HartAt, FsmAt, Located, MW.CodeIndex, DmOk;
    AtWordHere(s);
    CodeInstruction(s, i);
    WordOffset(Off(s));
  }

  lemma CodeKeepsDoom(s: Sys, i: Input)
    requires Executing(s, i) && s.dm.fsm == F.Exec && 0x338 <= Off(s) < 0x360 && !Commits(s) && !RunsOn(s)
    ensures Doomed(Next(s, i)) == Doomed(s)
  {
    hide AC.Fields, AC.TargetOf, AC.Unsupported, Next, Located, UserOf, SameUserRegs, Evolves, Execute;
    hide Isa.Decode, MW.FlatWord, Faults, DataAccess, Traps;
    CodeStep(s, i);
    QuietKeepsUser(s, i);
    CodeNext(s, i);
    if Faults(s.hart, Current(s)) { FaultTraps(s, i); FaultBeforeAccess(s, i); }
    AtWordHere(s);
    hide Inv, AtWord;
  }

  lemma WheretoKeepsDoom(s: Sys, i: Input)
    requires Executing(s, i) && s.dm.fsm == F.Exec && Off(s) == WHERETO && !EntersProgram(s)
    ensures Doomed(Next(s, i)) == Doomed(s)
  {
    hide AC.Fields, AC.TargetOf, AC.Unsupported, Next, Inv, Located, UserOf, SameUserRegs, Evolves, Traps;
    WheretoStep(s, i);
    QuietKeepsUser(s, i);
  }

  lemma ProgramEntryKeepsDoom(s: Sys, i: Input)
    requires Executing(s, i) && s.dm.fsm == F.Exec && EntersProgram(s)
    ensures Doomed(Next(s, i)) == Doomed(s)
  {
    hide AC.Fields, AC.TargetOf, AC.Unsupported, Next, Inv, Located, UserOf, SameUserRegs, Evolves;
    EnterProgramStep(s, i);
    QuietKeepsUser(s, i);
  }

  lemma CommitKeepsDoom(s: Sys, i: Input)
    requires Executing(s, i) && s.dm.fsm == F.Exec && Commits(s)
    ensures Doomed(Next(s, i)) == Doomed(s)
  {
    hide AC.Fields, AC.TargetOf, AC.Unsupported, Next, Inv, Access, UserOf, Faults, Traps;
    CommitStep(s, i);
  }

  lemma CodeDoom(s: Sys, i: Input)
    requires Executing(s, i) && s.dm.fsm == F.Exec && (Off(s) == WHERETO || 0x338 <= Off(s) < 0x360)
    ensures Doomed(Next(s, i)) == Doomed(s)
  {
    hide AC.Fields, Next, Doomed, Inv, Faults, Isa.Decode, UserOf;
    if EntersProgram(s) { ProgramEntryKeepsDoom(s, i); }
    else if Commits(s) { CommitKeepsDoom(s, i); }
    else if Off(s) == WHERETO { WheretoKeepsDoom(s, i); }
    else { CodeKeepsDoom(s, i); }
  }

  // A command that does not end in an exception is not turned into one.
  lemma DoomStays(s: Sys, i: Input)
    requires RunningParked(s, i) && !Doomed(s)
    ensures !Doomed(Next(s, i))
  {
    hide AC.Fields, AC.TargetOf, Next, Located, UserOf, Doomed, SameUserRegs, Evolves, Isa.Decode, Faults;
    hide HartAt, FsmAt;
    hide Bus, MW.DecodeBus, Commits, RunsOn;
    if i.move != Tick || s.hart.ir.None? { WaitKeepsDoom(s, i); }
    else if Off(s) >= 0x800 {
      InRom(s);
      NotDret(s);
      if StoresNothing(Off(s)) { RomKeepsDoom(s, i); } else { ReportAndDoom(s, i); }
    } else {
      BelowRom(s);
      InExec(s);
      CodeDoom(s, i);
    }
  }

  // While a command runs, the error it will end with changes only where the module
  // refuses an access of the debugger, and then only to busy.
  lemma VerdictIsSettled(s: Sys, i: Input)
    requires RunningParked(s, i)
    ensures Verdict(Next(s, i)) == Verdict(s) || (Refuses(s, i) && Verdict(Next(s, i)) == ERR_BUSY)
  {
    hide AC.Fields, AC.TargetOf, DM.Next, Located, UserOf, Doomed, SameUserRegs, Evolves, Isa.Decode, Faults;
    hide HartAt, FsmAt, Bus, NextHart, MW.DecodeBus;
    ErrorStep(s.dm, i.req, Bus(s, i.move));
    if i.move != Tick || s.hart.ir.None? { WaitKeepsDoom(s, i); }
    else if Off(s) >= 0x800 {
      InRom(s);
      NotDret(s);
      if StoresNothing(Off(s)) { RomKeepsDoom(s, i); } else { ReportAndDoom(s, i); }
    } else {
      BelowRom(s);
      InExec(s);
      CodeNeverHandshakes(s, i);
      CodeDoom(s, i);
    }
  }

  // The debugger leaves the registers of the running command alone.
  predicate Discreet(ins: seq<Input>)
  {
    forall k | 0 <= k < |ins| :: ins[k].req.None? || !NeedsIdle(ins[k].req.value)
  }

  lemma {:induction false} VerdictOfRun(s: Sys, ins: seq<Input>)
    requires Inv(s) && AllowedRun(s, ins) && BusyRun(s, ins)
    ensures Discreet(ins) ==> Verdict(Run(s, ins)) == Verdict(s)
    ensures Verdict(s) != ERR_NONE ==> Verdict(Run(s, ins)) != ERR_NONE
    decreases |ins|
  {
    hide Inv, Next, Verdict, NeedsIdle;
    if ins != [] {
      StepKeepsInv(s, ins[0]);
      VerdictIsSettled(s, ins[0]);
      VerdictOfRun(Next(s, ins[0]), ins[1..]);
    }
  }

  // When the command is over, cmderr says exception exactly if the command could not
  // be carried out, and is otherwise what it was; a debugger that touched the busy
  // registers reads at least some error after a trap.
  lemma CommandReportsTraps(s: Sys, ins: seq<Input>)
    requires Inv(s) && AllowedRun(s, ins) && BusyRun(s, ins) && s.dm.fsm == F.Go
    requires var end := Run(s, ins); end.dm.fsm == F.Idle || end.hart.mode == Program
    ensures var end, traps := Run(s, ins), Traps(Cmd(s), s.hart.fpu, UserOf(s));
            && (Discreet(ins) ==> end.dm.dmi.cmderr == if traps then ERR_EXCEPTION else s.dm.dmi.cmderr)
            && (traps ==> end.dm.dmi.cmderr != ERR_NONE)
  {
    hide AC.Fields, Next, Traps, UserOf, Discreet, Outcome, Located;
    OutcomeOfRun(s, ins);
    VerdictOfRun(s, ins);
  }

  // ---- cmderr stops nothing ----

  // The same state with another value of cmderr.
  function WithError(s: Sys, e: bv3): Sys { s.(dm := s.dm.(dmi := s.dm.dmi.(cmderr := e))) }

  lemma ErrorStepGatesNothing(s: Sys, i: Input, e: bv3)
    ensures var t := Next(WithError(s, e), i); t == WithError(Next(s, i), t.dm.dmi.cmderr)
  {
    hide AC.Fields, AC.Unsupported, AC.TargetOf, MW.DecodeBus, MW.Stored, CR.Next, CR.Written, F.Next, F.Out, NextHart;
    hide MW.FlatWord, MW.ReadMux, DC.Triggers;
    SameMoves(s, i.move, e);
  }

  lemma SameMoves(s: Sys, m: Move, e: bv3)
    ensures NextHart(WithError(s, e), m) == NextHart(s, m) && Bus(WithError(s, e), m) == Bus(s, m)
  {
    hide MW.FlatWord, Execute, Isa.Decode, DataAccess, AC.Fields;
  }

  // An error that stands in cmderr holds back no later command, no resume and no access:
  // over every run, everything but cmderr itself goes as it would without the error.
  lemma {:induction false} ErrorGatesNothing(s: Sys, ins: seq<Input>, e: bv3)
    ensures var t := Run(WithError(s, e), ins); t == WithError(Run(s, ins), t.dm.dmi.cmderr)
    decreases |ins|
  {
    hide Next;
    if ins != [] {
      ErrorStepGatesNothing(s, ins[0], e);
      ErrorGatesNothing(Next(s, ins[0]), ins[1..], Next(WithError(s, e), ins[0]).dm.dmi.cmderr);
    }
  }
}
