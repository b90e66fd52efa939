/** The handshake between the command machine and the hart, over every step of
    every run: each command that is taken is run exactly once, each resume is
    carried out exactly once, and nothing the hart has read is withdrawn. */
module Handshake {
  import opened Words
  import opened Dmi
  import opened DebugRom
  import opened Hart
  import opened System
  import opened Protocol
  import opened HartSteps
  import opened RomSteps
  import opened CodeSteps
  import opened CommandSteps
  import opened Atomicity
  import opened Commands
  import Isa
  import F = CommandFsm
  import CR = ControlRegs
  import MW = MemWindow
  import AC = AbstractCommand
  import DM = DebugModule
  import DC = DmiControl

  // ---- Where a step can take the hart, in summary ----

  lemma CodeArea(s: Sys, i: Input)
    requires Executing(s, i) && 0x338 <= Off(s) < 0x360
    ensures var s' := Next(s, i);
            && s'.dm.fsm == F.Exec && s'.dm.regs.command == s.dm.regs.command
            && (if RunsOn(s) then s'.hart.mode == Program
                else s'.hart.mode == Parked && s'.hart.ir.None?
                     && Off(s') == (if Faults(s.hart, Current(s)) then EXCEPTION_VECTOR
                        else if Off(s) == 0x35c then ENTRY else Off(s) + 4))
  {
    hide AC.Fields, AC.TargetOf, AC.Unsupported, Next, Located, UserOf, SameUserRegs, Execute, Isa.Decode;
    hide MW.FlatWord, Faults, DataAccess, Traps, Access, DmOk;
    InExec(s);
    if RunsOn(s) { EnterProgramStep(s, i); }
    else if Commits(s) { CommitStep(s, i); }
    else { CodeStep(s, i); CodeNext(s, i); }
    hide Inv;
  }

  // ---- Commands ----

  function Count(b: bool): nat { if b then 1 else 0 }

  // A command taken and not yet run: 1 until the hart executes the whereto jump.
  predicate Unrun(s: Sys)
  {
    s.dm.fsm == F.Go || (s.dm.fsm == F.Exec && s.hart.mode == Parked && OnTheWay(Off(s)))
  }

  predicate OnTheWay(off: Offset) { 0x880 <= off <= 0x888 || off == WHERETO }

  predicate Takes(s: Sys, i: Input) { s.dm.fsm == F.Idle && Next(s, i).dm.fsm == F.Go }

  predicate RunsWhereto(s: Sys, i: Input)
  {
    s.hart.mode == Parked && i.move == Tick && s.hart.ir.Some? && Off(s) == WHERETO
  }

  predicate Balanced(s: Sys, i: Input)
  {
    Count(Unrun(Next(s, i))) + Count(RunsWhereto(s, i)) == Count(Unrun(s)) + Count(Takes(s, i))
  }

  lemma WaitBalanced(s: Sys, i: Input)
    requires Inv(s) && Allowed(s, i) && s.hart.mode == Parked && (i.move != Tick || s.hart.ir.None?)
    ensures Balanced(s, i)
  {
    hide AC.Fields, AC.TargetOf, AC.Unsupported, Next, HartAt, UserOf, SameUserRegs, DmOk;
    WaitStep(s, i);
    PlaceOf(s);
    hide Inv;
  }

  lemma RomBalanced(s: Sys, i: Input)
    requires Executing(s, i) && 0x800 <= Off(s) < 0x89c && StoresNothing(Off(s))
    ensures Balanced(s, i)
  {
    hide AC.Fields, AC.TargetOf, AC.Unsupported, Next, HartAt, UserOf, SameUserRegs, DmOk, Execute, Located;
    RomStep(s, i);
    PlaceOf(s);
    hide Inv, FsmAt, OnTheWay, RomNext;
    if s.dm.fsm == F.Exec { RomKeepsUnrun(s.dm.halted, Off(s), S0Of(s.hart.gpr)); }
  }

  lemma RomKeepsUnrun(halted: bool, off: Offset, s0: Word)
    requires FsmAt(F.Exec, halted, off, s0) && 0x800 <= off < 0x89c && off & 3 == 0 && StoresNothing(off)
    ensures OnTheWay(RomNext(off, s0)) <==> OnTheWay(off)
  {
  }

  lemma ReportBalanced(s: Sys, i: Input)
    requires Executing(s, i) && 0x800 <= Off(s) < 0x8a0 && !StoresNothing(Off(s))
    ensures Balanced(s, i)
  {
    hide AC.Fields, AC.TargetOf, AC.Unsupported, DM.Next, HartAt, UserOf, SameUserRegs, DmOk, Located, Bus;
    hide MW.DecodeBus;
    ReportStep(s, i);
    PlaceOf(s);
    InvDmOk(s);
    FsmStep(s.dm, i.req, Bus(s, Tick));
    hide Inv;
  }

  lemma BelowRomBalanced(s: Sys, i: Input)
    requires Executing(s, i) && Off(s) < 0x800
    ensures Balanced(s, i)
  {
    hide AC.Fields, AC.TargetOf, AC.Unsupported, Next, HartAt, UserOf, SameUserRegs, DmOk, Located, Faults;
    hide Isa.Decode;
    BelowRom(s);
    InExec(s);
    if Off(s) != WHERETO { CodeArea(s, i); }
    else if EntersProgram(s) { EnterProgramStep(s, i); }
    else { WheretoStep(s, i); }
    hide Inv;
  }

  // In every cycle the commands taken and not yet run change by those taken less
  // those run.
  lemma StepBalanced(s: Sys, i: Input)
    requires Inv(s) && Allowed(s, i)
    ensures Balanced(s, i)
  {
    hide AC.Fields, Next, Located, HartAt, FsmAt, DmOk, SameUserRegs;
    match s.hart.mode
    case Running => RunningStep(s, i);
    case Program => ProgramModeStep(s, i);
    case Parked =>
      hide Balanced;
      if i.move != Tick || s.hart.ir.None? { WaitBalanced(s, i); }
      else if Off(s) < 0x800 { BelowRomBalanced(s, i); }
      else {
        InRom(s);
        if Off(s) == 0x89c { DretBalanced(s, i); }
        else if StoresNothing(Off(s)) { RomBalanced(s, i); }
        else { ReportBalanced(s, i); }
      }
  }

  lemma DretBalanced(s: Sys, i: Input)
    requires Executing(s, i) && Off(s) == 0x89c
    ensures Balanced(s, i)
  {
    hide AC.Fields, AC.TargetOf, AC.Unsupported, Next, HartAt, UserOf, SameUserRegs, DmOk, Located;
    DretStep(s, i);
    PlaceOf(s);
  }

  // ---- Resumes ----

  // A resume the hart has yet to report.
  predicate Unreported(d: DM.Dm) { d.fsm == F.Res && d.halted }

  // Every resume that has been reported is also acknowledged.
  predicate Prompt(d: DM.Dm) { d.fsm == F.Res && !d.halted ==> d.resuming }

  predicate StartsResume(s: Sys, i: Input) { s.dm.fsm == F.Idle && Next(s, i).dm.fsm == F.Res }

  predicate ReportsResume(s: Sys, i: Input) { MW.DecodeBus(Bus(s, i.move)) == MW.WriteResuming }

  // The debugger raises resumereq in the very cycle of the report, which clears the
  // acknowledge before the state machine has seen it.
  predicate LosesAck(s: Sys, i: Input)
  {
    ReportsResume(s, i) && !s.dm.regs.resumereq && WritesTo(i.req, DmControl) && CR.ResumereqField(i.req.value.data)
  }

  // Only the resume path reports a resume.
  lemma ResumeReportPlace(s: Sys, i: Input)
    requires Inv(s) && Allowed(s, i)
    ensures ReportsResume(s, i) <==> s.hart.mode == Parked && i.move == Tick && s.hart.ir.Some? && Off(s) == 0x890
  {
    hide AC.Fields, HartAt, FsmAt, Located, Isa.Decode, DataAccess, Faults, MW.DecodeBus, Bus, AC.TargetOf;
    hide AC.Unsupported;
    if s.hart.mode != Parked { OutsideReportsNothing(s, i); }
    else if i.move != Tick || s.hart.ir.None? { WaitBus(s, i.move); }
    else if Off(s) < 0x800 { CodeNeverHandshakes(s, i); }
    else {
      InRom(s);
      if StoresNothing(Off(s)) { QuietInRom(s, i); } else { ReportStep(s, i); }
    }
  }

  lemma OutsideReportsNothing(s: Sys, i: Input)
    requires Inv(s) && Allowed(s, i) && s.hart.mode != Parked
    ensures !Handshakes(Bus(s, i.move))
  {
    hide AC.Fields, DmOk, HartOk, MW.DecodeBus;
    QuietBus();
  }

  // In every cycle of a module that acknowledges promptly, the resumes under way
  // change by those started less those reported; promptness itself is lost only
  // with an acknowledge.
  lemma ResumeBalanced(s: Sys, i: Input)
    requires Inv(s) && Allowed(s, i) && Prompt(s.dm)
    ensures Count(Unreported(Next(s, i).dm)) + Count(ReportsResume(s, i))
            == Count(Unreported(s.dm)) + Count(StartsResume(s, i))
    ensures Prompt(Next(s, i).dm) <==> !LosesAck(s, i)
  {
    hide AC.Fields, AC.TargetOf, AC.Unsupported, DM.Next, HartAt, DmOk, Bus, MW.DecodeBus, CR.ResumereqField;
    ResumeReportPlace(s, i);
    InvDmOk(s);
    FsmStep(s.dm, i.req, Bus(s, i.move));
    ResumingStep(s.dm, i.req, Bus(s, i.move));
  }

  // A hart between its report and its dret.
  predicate Returning(s: Sys) { s.hart.mode == Parked && OnTheWayOut(Off(s)) }

  predicate OnTheWayOut(off: Offset) { 0x894 <= off <= 0x89c }

  predicate Drets(s: Sys, i: Input)
  {
    s.hart.mode == Parked && i.move == Tick && s.hart.ir.Some? && Off(s) == 0x89c
  }

  lemma RomKeepsReturning(fsm: F.State, halted: bool, off: Offset, s0: Word)
    requires 0x800 <= off < 0x89c && off & 3 == 0 && StoresNothing(off)
    ensures OnTheWayOut(RomNext(off, s0)) <==> OnTheWayOut(off)
  {
  }

  // Each report is followed by one dret.
  lemma ReturnBalanced(s: Sys, i: Input)
    requires Inv(s) && Allowed(s, i)
    ensures Count(Returning(Next(s, i))) + Count(Drets(s, i)) == Count(Returning(s)) + Count(ReportsResume(s, i))
  {
    hide AC.Fields, AC.TargetOf, AC.Unsupported, Next, HartAt, FsmAt, DmOk, ReportsResume, RomNext, Execute;
    hide Faults, Isa.Decode, UserOf, SameUserRegs;
    ResumeReportPlace(s, i);
    if s.hart.mode == Running { RunningStep(s, i); }
    else if s.hart.mode == Program { ProgramModeStep(s, i); }
    else if i.move != Tick || s.hart.ir.None? { WaitStep(s, i); }
    else if Off(s) < 0x800 {
      BelowRom(s);
      if Off(s) != WHERETO { CodeArea(s, i); }
      else if EntersProgram(s) { EnterProgramStep(s, i); }
      else { InExec(s); WheretoStep(s, i); }
    } else {
      InRom(s);
      hide Inv;
      if Off(s) == 0x89c { DretStep(s, i); }
      else if StoresNothing(Off(s)) {
        RomStep(s, i);
        RomKeepsReturning(s.dm.fsm, s.dm.halted, Off(s), S0Of(s.hart.gpr));
      }
      else { ReportStep(s, i); }
    }
  }

  // ---- Over whole runs ----

  function Total(event: (Sys, Input) -> bool, s: Sys, ins: seq<Input>): nat
    decreases |ins|
  {
    if ins == [] then 0 else Count(event(s, ins[0])) + Total(event, Next(s, ins[0]), ins[1..])
  }

  // Every command that is taken is run exactly once.
  lemma {:induction false} CommandsRunOnce(s: Sys, ins: seq<Input>)
    requires Inv(s) && AllowedRun(s, ins)
    ensures Total(Takes, s, ins) + Count(Unrun(s)) == Total(RunsWhereto, s, ins) + Count(Unrun(Run(s, ins)))
    decreases |ins|
  {
    hide Inv, Next, Unrun, Takes, RunsWhereto;
    if ins != [] {
      StepKeepsInv(s, ins[0]);
      StepBalanced(s, ins[0]);
      CommandsRunOnce(Next(s, ins[0]), ins[1..]);
    }
  }

  predicate KeepsAcks(s: Sys, ins: seq<Input>)
    decreases |ins|
  {
    ins == [] || (!LosesAck(s, ins[0]) && KeepsAcks(Next(s, ins[0]), ins[1..]))
  }

  // Every resume that is started leads to exactly one dret.
  lemma {:induction false} ResumesReturnOnce(s: Sys, ins: seq<Input>)
    requires Inv(s) && AllowedRun(s, ins) && Prompt(s.dm) && KeepsAcks(s, ins)
    ensures var end := Run(s, ins);
            && Prompt(end.dm)
            && Total(StartsResume, s, ins) + Count(Unreported(s.dm)) + Count(Returning(s))
               == Total(Drets, s, ins) + Count(Unreported(end.dm)) + Count(Returning(end))
    decreases |ins|
  {
    hide Inv, Next, Unreported, Returning, StartsResume, Drets, Prompt, LosesAck, ReportsResume;
    if ins != [] {
      StepKeepsInv(s, ins[0]);
      ResumeBalanced(s, ins[0]);
      ReturnBalanced(s, ins[0]);
      ResumesReturnOnce(Next(s, ins[0]), ins[1..]);
    }
  }

  // ---- What the handshake guarantees at single steps ----

  // A command ends only at the HALTED store after the context is saved again, and
  // by then its access is made or its trap reported.
  lemma EndsWhenDone(s: Sys, i: Input)
    requires Inv(s) && Allowed(s, i) && s.dm.fsm == F.Exec && Next(s, i).dm.fsm != F.Exec
    ensures s.hart.mode == Parked && Off(s) == 0x834 && UserOf(s).gpr[8] == CsrOr0(s.hart.csr, DSCRATCH0)
    ensures UserOf(s).gpr[10] == CsrOr0(s.hart.csr, DSCRATCH1) && !Pending(s)
  {
    hide AC.Fields, AC.TargetOf, AC.Unsupported, Next, HartAt, DmOk, Execute, Faults, Isa.Decode, SameUserRegs;
    if s.hart.mode == Program { ProgramModeStep(s, i); }
    else if i.move != Tick || s.hart.ir.None? { WaitStep(s, i); }
    else if Off(s) < 0x800 {
      BelowRom(s);
      if Off(s) != WHERETO { CodeArea(s, i); }
      else if EntersProgram(s) { EnterProgramStep(s, i); }
      else { WheretoStep(s, i); }
    } else {
      InRom(s);
      NotDret(s);
      if StoresNothing(Off(s)) { RomStep(s, i); }
      else { ReportKeepsExec(s, i); }
    }
  }

  // From the cycle in which a command is taken to the store that ends it: the scratch
  // registers hold the user's s0 and a0 of that first cycle, and every other register
  // is in place, but for the one access of the command.
  lemma ContextSavedAgain(s: Sys, ins: seq<Input>, i: Input)
    requires Inv(s) && AllowedRun(s, ins) && BusyRun(s, ins) && s.dm.fsm == F.Go
    requires var e := Run(s, ins); Allowed(e, i) && e.dm.fsm == F.Exec && Next(e, i).dm.fsm != F.Exec
    ensures var h, u := Run(s, ins).hart, Access(Cmd(s), s.hart.fpu, UserOf(s));
            && CsrOr0(h.csr, DSCRATCH0) == u.gpr[8] && CsrOr0(h.csr, DSCRATCH1) == u.gpr[10]
            && h.gpr[8 := u.gpr[8]][10 := u.gpr[10]] == u.gpr && h.fpr == u.fpr && UserCsr(h.csr) == u.csr
  {
    hide AC.Fields, Next, Access, Located;
    OutcomeOfRun(s, ins);
    EndsWhenDone(Run(s, ins), i);
  }

  lemma ReportKeepsExec(s: Sys, i: Input)
    requires Executing(s, i) && s.dm.fsm == F.Exec && 0x800 <= Off(s) < 0x890 && !StoresNothing(Off(s))
    ensures Off(s) != 0x834 ==> Next(s, i).dm.fsm == F.Exec
  {
    hide AC.Fields, AC.TargetOf, AC.Unsupported, HartAt, Located, FsmAt, Bus, MW.DecodeBus, DM.Next;
    ReportStep(s, i);
    InvDmOk(s);
    FsmStep(s.dm, i.req, Bus(s, Tick));
  }

  // A GO or RESUME flag that the hart has read, and not yet acted on, still stands.
  lemma ReadFlagsStand(s: Sys)
    requires Inv(s) && s.hart.mode == Parked
    ensures (Off(s) == 0x840 && S0Of(s.hart.gpr) & 1 != 0) || (Off(s) == 0x844 && S0Of(s.hart.gpr) != 0)
            || Off(s) == GOING_BODY ==>
              s.dm.fsm == F.Go
    ensures (Off(s) == 0x854 && S0Of(s.hart.gpr) & 2 != 0) || (Off(s) == 0x858 && S0Of(s.hart.gpr) != 0)
            || Off(s) == RESUME_BODY ==>
              s.dm.fsm == F.Res && s.dm.halted
  {
    hide AC.Fields, HartAt;
  }

  // ---- A lost acknowledge ----

  predicate ReportsHalt(s: Sys, i: Input) { MW.DecodeBus(Bus(s, i.move)) == MW.WriteHalted }

  predicate NeverReportsHalt(s: Sys, ins: seq<Input>)
    decreases |ins|
  {
    ins == [] || (!ReportsHalt(s, ins[0]) && NeverReportsHalt(Next(s, ins[0]), ins[1..]))
  }

  lemma ReportsInRes(s: Sys, i: Input)
    requires Inv(s) && Allowed(s, i) && ReportsResume(s, i)
    ensures s.dm.fsm == F.Res && !s.dm.resuming
  {
    hide AC.Fields, HartAt, FsmAt, ReportsResume;
    ResumeReportPlace(s, i);
    ResumingRes(s);
  }

  // The state machine stays in Res until the next report of a halt, which it then
  // takes for a hart that has yet to resume. No request starts this resume.
  lemma LostAckStep(s: Sys, i: Input)
    requires Inv(s) && Allowed(s, i) && !Prompt(s.dm)
    ensures !StartsResume(s, i)
    ensures if ReportsHalt(s, i) then Unreported(Next(s, i).dm) else !Prompt(Next(s, i).dm)
  {
    hide AC.Fields, AC.TargetOf, AC.Unsupported, DM.Next, HartAt, Bus, MW.DecodeBus, CR.ResumereqField;
    ResumeReportPlace(s, i);
    InvDmOk(s);
    FsmStep(s.dm, i.req, Bus(s, i.move));
  }

  lemma {:induction false} LostAckStands(s: Sys, ins: seq<Input>)
    requires Inv(s) && AllowedRun(s, ins) && !Prompt(s.dm) && NeverReportsHalt(s, ins)
    ensures !Prompt(Run(s, ins).dm) && Inv(Run(s, ins)) && Total(StartsResume, s, ins) == 0
    decreases |ins|
  {
    hide Inv, Next, Prompt, StartsResume, ReportsHalt;
    if ins != [] {
      StepKeepsInv(s, ins[0]);
      LostAckStep(s, ins[0]);
      LostAckStands(Next(s, ins[0]), ins[1..]);
    }
  }

  // Once an acknowledge is lost, the next halt of the hart, however much later, is
  // answered by a resume that no request has started.
  lemma LostAckResumesAgain(s: Sys, i: Input, ins: seq<Input>, halt: Input)
    requires Inv(s) && Prompt(s.dm) && Allowed(s, i) && LosesAck(s, i)
    requires var s1 := Next(s, i);
             AllowedRun(s1, ins) && NeverReportsHalt(s1, ins) && Allowed(Run(s1, ins), halt)
               && ReportsHalt(Run(s1, ins), halt)
    ensures var s1 := Next(s, i);
            var e := Run(s1, ins);
            && Unreported(Next(e, halt).dm) && Next(e, halt).hart.mode == Parked
            && !StartsResume(s, i) && Total(StartsResume, s1, ins) == 0 && !StartsResume(e, halt)
  {
    hide Inv, Next, ReportsHalt, ReportsResume;
    var s1 := Next(s, i);
    ReportsInRes(s, i);
    StepKeepsInv(s, i);
    ResumeBalanced(s, i);
    LostAckStands(s1, ins);
    LostAckStep(Run(s1, ins), halt);
    StepKeepsInv(Run(s1, ins), halt);
    HaltedResIsParked(Next(Run(s1, ins), halt));
  }

  lemma HaltedResIsParked(s: Sys)
    requires Inv(s) && s.dm.halted && s.dm.fsm == F.Res
    ensures s.hart.mode == Parked
  {
    hide AC.Fields, Located;
  }

  // dmcontrol with resumereq and dmactive set.
  const ASK: Word := 0x4000_0001

  const LATE_REQUEST := Input(Some(Request(DmControl, OP_WRITE, ASK)), Tick)

  // The hart about to store its resuming report, in a module whose debugger has
  // already taken the request back.
  function Reporting(page: Page, gpr: RegFile, fpr: RegFile, fpu: bool, csr: map<int, Word>, path: MW.ReadPath): Sys
  {
    Sys(page,
        DM.Dm(F.Res, DC.Regs(ERR_NONE, false), CR.ResetRegs().(dmactive := true), true, false, path),
        Hart(Parked, Pc(page, 0x890), Some(RomWord(0x890)), gpr[10 := PageBase(page)], fpr, fpu, csr))
  }

  // Such a hart and such a request lose the acknowledge.
  lemma AckCanBeLost(page: Page, gpr: RegFile, fpr: RegFile, fpu: bool, csr: map<int, Word>, path: MW.ReadPath)
    requires DSCRATCH0 in csr && DSCRATCH1 in csr && MHARTID in csr && csr[MHARTID] == 0
    ensures var s := Reporting(page, gpr, fpr, fpu, csr, path);
            Inv(s) && Prompt(s.dm) && Allowed(s, LATE_REQUEST) && LosesAck(s, LATE_REQUEST)
  {
    hide AC.Fields, AC.Unsupported, TargetsScratch, PageBase, CR.ResetRegs, Bus, MW.DecodeBus, RomWord;
    var s := Reporting(page, gpr, fpr, fpu, csr, path);
    ResetCommand();
    AskFields();
    ResumeReportPlace(s, LATE_REQUEST);
  }

  lemma AskFields()
    ensures CR.ResumereqField(ASK) && CR.DmactiveField(ASK) && !CR.NdmresetField(ASK)
  {
  }
}
