/** A resume from the DMI write that asks for it to the acknowledge and the dret. */
module Resume {
  import opened Words
  import opened Dmi
  import opened DebugRom
  import opened Hart
  import opened System
  import opened Protocol
  import opened HartSteps
  import opened RomSteps
  import opened Atomicity
  import opened Commands
  import opened Handshake
  import opened Progress
  import Isa
  import F = CommandFsm
  import CR = ControlRegs
  import MW = MemWindow
  import AC = AbstractCommand
  import DM = DebugModule

  // ---- Instructions left until the dret ----

  predicate ResumeSeen(off: Offset, s0: Word) { if off == 0x854 then s0 & 2 != 0 else s0 != 0 }

  function LateRank(off: Offset, seen: bool): nat
  {
    match off
    case 0x85c => 18
    case 0x858 => if seen then 7 else 19
    case 0x854 => if seen then 8 else 20
    case 0x850 => 9
    case 0x84c => 10
    case _ => 11
  }

  function EarlyRank(off: Offset): nat
  {
    match off
    case 0x844 => 12
    case 0x840 => 13
    case 0x83c => 14
    case 0x838 => 15
    case 0x834 => 16
    case _ => 17
  }

  function ExitRank(off: Offset): nat
  {
    match off
    case 0x808 => 6
    case 0x88c => 5
    case 0x890 => 4
    case 0x894 => 3
    case 0x898 => 2
    case _ => 1
  }

  function ResumeRank(off: Offset, s0: Word): nat
  {
    if off < 0x830 || off >= 0x860 then ExitRank(off)
    else if off < 0x848 then EarlyRank(off)
    else LateRank(off, ResumeSeen(off, s0))
  }

  function ResumeSteps(s: Sys): nat
  {
    2 * ResumeRank(Off(s), S0Of(s.hart.gpr)) - (if s.hart.ir.Some? then 1 else 0)
  }

  // The hart has been told to resume and has not left debug mode.
  predicate Resuming(s: Sys)
  {
    s.hart.mode == Parked && (Unreported(s.dm) || Returning(s))
  }

  lemma ResumeFlagReads(h: Hart, page: Page, d: DM.Dm, word: Word)
    requires Ready(h, page, d)
    requires h.pc.off == 0x850 ==> word == MW.FlatWord(DM.ViewOf(d), FLAGS)
    ensures h.pc.off == 0x850 ==> (S0Of(Execute(h, Listing(0x850), page, word).gpr) & 2 != 0 <==> d.fsm == F.Res)
    ensures h.pc.off == 0x854 ==> (S0Of(Execute(h, Listing(0x854), page, word).gpr) != 0 <==> S0Of(h.gpr) & 2 != 0)
  {
    hide AC.Fields, AC.TargetOf, UserCsr, PcAdd, Addr, PageBase, Sum, MW.FlatWord, DM.ViewOf, Loaded, HartAt, FsmAt;
    if h.pc.off == 0x850 {
      FlagBits(d);
      ResumeFlagAddress(h, page, d);
    }
  }

  lemma ResumeFlagAddress(h: Hart, page: Page, d: DM.Dm)
    requires Ready(h, page, d) && h.pc.off == 0x850
    ensures At(Sum(S0Of(h.gpr), FLAGS as Word)) == 0
  {
    hide AC.Fields, AC.TargetOf, PageBase, Sum, FsmAt;
    WindowAddress(page, FLAGS);
  }

  lemma ResumeRomNearer(fsm: F.State, halted: bool, off: Offset, s0: Word, s0': Word)
    requires FsmAt(fsm, halted, off, s0) && 0x800 <= off < 0x89c && off & 3 == 0 && StoresNothing(off)
    requires (fsm == F.Res && halted) || OnTheWayOut(off)
    requires off < 0x818 ==> off == RESUME
    requires off == 0x850 ==> s0' & 2 != 0
    requires off == 0x854 ==> (s0' != 0 <==> s0 & 2 != 0)
    ensures ResumeRank(RomNext(off, s0), s0') < ResumeRank(off, s0)
  {
  }

  lemma ResumeVector(s: Sys)
    requires Inv(s) && s.hart.mode == Parked && Unreported(s.dm) && 0x800 <= Off(s) < 0x818
    ensures Off(s) == RESUME
  {
    hide AC.Fields, AtBaseCode, AtPoll, AtGoing, AtCode;
  }

  // Quiet instructions of the ROM on the way out.
  lemma RomResumes(s: Sys, i: Input)
    requires Executing(s, i) && Resuming(s) && 0x800 <= Off(s) < 0x89c && StoresNothing(Off(s))
    ensures var s' := Next(s, i);
            Resuming(s') && s'.hart.ir.None?
              && ResumeRank(Off(s'), S0Of(s'.hart.gpr)) < ResumeRank(Off(s), S0Of(s.hart.gpr))
  {
    hide AC.Fields, AC.TargetOf, AC.Unsupported, Next, HartAt, Located, Execute, Isa.Decode, DataAccess, UserOf;
    hide SameUserRegs, Listing, RomNext, MW.FlatWord;
    RomStep(s, i);
    PlaceOf(s);
    ReturnBalanced(s, i);
    ResumeReportPlace(s, i);
    AnsweredOnce(s);
    if Off(s) < 0x818 { ResumeVector(s); }
    if Off(s) == 0x850 { RomInstruction(s, i); ResumeFlagLoad(s.hart, s.page, s.dm); }
    if Off(s) == 0x850 || Off(s) == 0x854 { ResumeFlagReads(s.hart, s.page, s.dm, LoadedWord(s)); }
    hide Inv, FsmAt, ResumeRank;
    ResumeRomNearer(s.dm.fsm, s.dm.halted, Off(s), S0Of(s.hart.gpr), S0Of(Next(s, i).hart.gpr));
  }

  lemma AnsweredOnce(s: Sys)
    requires Inv(s) && s.hart.ir.Some?
    ensures !(s.dm.fsm == F.Res && s.dm.resuming)
  {
    hide AC.Fields, Located;
  }

  lemma ResumeFlagLoad(h: Hart, page: Page, d: DM.Dm)
    requires Ready(h, page, d) && h.pc.off == 0x850
    ensures OffsetOf(DataAccess(h, Listing(0x850)).addr) == FLAGS
  {
    FlagLoad(h, page, d);
  }

  lemma ReportResumes(s: Sys, i: Input)
    requires Executing(s, i) && Resuming(s) && 0x800 <= Off(s) < 0x8a0 && !StoresNothing(Off(s))
    ensures var s' := Next(s, i);
            Resuming(s') && s'.hart.ir.None?
              && ResumeRank(Off(s'), S0Of(s'.hart.gpr)) < ResumeRank(Off(s), S0Of(s.hart.gpr))
  {
    hide AC.Fields, AC.TargetOf, AC.Unsupported, DM.Next, HartAt, Located, Isa.Decode, MW.DecodeBus, Bus;
    hide SameUserRegs, Executed;
    ReportStep(s, i);
    PlaceOf(s);
    AnsweredOnce(s);
    InvDmOk(s);
    FsmStep(s.dm, i.req, Bus(s, Tick));
    hide Inv;
  }

  lemma WaitResumes(s: Sys, i: Input)
    requires Inv(s) && Allowed(s, i) && Resuming(s) && (i.move != Tick || s.hart.ir.None?)
    ensures var s' := Next(s, i);
            && Resuming(s') && Off(s') == Off(s) && s'.hart.gpr == s.hart.gpr
            && s'.hart.ir.Some? == (s.hart.ir.Some? || i.move == Tick)
  {
    hide AC.Fields, AC.TargetOf, AC.Unsupported, DM.Next, HartAt, UserOf, SameUserRegs, DmOk, MW.FlatWord;
    WaitStep(s, i);
    PlaceOf(s);
    hide FsmAt;
    if Unreported(s.dm) { UnreportedIsUnanswered(s); }
  }

  lemma UnreportedIsUnanswered(s: Sys)
    requires Inv(s) && s.hart.mode == Parked && Unreported(s.dm)
    ensures !s.dm.resuming
  {
    hide AC.Fields, HartAt;
  }

  // Every hart step brings the dret nearer.
  lemma ResumeNearer(s: Sys, i: Input)
    requires Inv(s) && Allowed(s, i) && Resuming(s)
    ensures var s' := Next(s, i);
            || s'.hart.mode == Running
            || (Resuming(s')
              && if i.move == Tick then ResumeSteps(s') < ResumeSteps(s) else ResumeSteps(s') == ResumeSteps(s))
  {
    hide AC.Fields, Next, HartAt, FsmAt, Located, SameUserRegs, Isa.Decode, UserOf, ResumeRank, Execute;
    hide MW.FlatWord, Bus, Unreported, Returning;
    if i.move != Tick || s.hart.ir.None? { WaitResumes(s, i); }
    else {
      ResumingPlace(s);
      if Off(s) == 0x89c { DretStep(s, i); }
      else if StoresNothing(Off(s)) { RomResumes(s, i); }
      else { ReportResumes(s, i); }
    }
  }

  lemma ResumingPlace(s: Sys)
    requires Inv(s) && Resuming(s)
    ensures 0x800 <= Off(s) < 0x8a0 && Off(s) & 3 == 0
  {
    hide AC.Fields, HartAt;
    PlaceOf(s);
    if Off(s) >= 0x800 { InRom(s); }
  }

  predicate StaysParked(s: Sys, ins: seq<Input>)
    decreases |ins|
  {
    s.hart.mode != Running && (ins == [] || StaysParked(Next(s, ins[0]), ins[1..]))
  }

  lemma {:induction false} ParkedTime(s: Sys, ins: seq<Input>)
    requires Inv(s) && AllowedRun(s, ins) && StaysParked(s, ins) && Resuming(s)
    ensures Ticks(ins) < ResumeSteps(s)
    decreases |ins|
  {
    hide Inv, Next, ResumeSteps, Resuming;
    if ins == [] {
      ResumeStepsBound(s);
    } else {
      StepKeepsInv(s, ins[0]);
      ResumeNearer(s, ins[0]);
      ParkedTime(Next(s, ins[0]), ins[1..]);
    }
  }

  lemma ResumeStepsBound(s: Sys)
    ensures 0 < ResumeSteps(s) <= 40
  {
    hide S0Of;
  }

  // A hart told to resume is back in user code within 40 steps.
  lemma ResumeCompletes(s: Sys, ins: seq<Input>)
    requires Inv(s) && AllowedRun(s, ins) && Resuming(s) && Ticks(ins) >= 40
    ensures !StaysParked(s, ins)
  {
    hide Inv, Next, ResumeSteps, Resuming;
    ResumeStepsBound(s);
    if StaysParked(s, ins) { ParkedTime(s, ins); }
  }

  // ---- The request and the acknowledge ----

  // A resume starts exactly when it is asked for and not answered, the hart is
  // halted, and no halt is asked for.
  lemma ResumeTaken(d: DM.Dm, req: Option<Request>, b: MW.BusRequest)
    requires DmOk(d) && d.fsm == F.Idle
    ensures DM.Next(d, req, b).fsm == F.Res <==> d.regs.resumereq && !d.resuming && !d.regs.haltreq && d.halted
  {
    hide AC.Fields, AC.Unsupported, AC.TargetOf, MW.DecodeBus, MW.Stored, MW.NextPath, CR.Next, CR.Written;
  }

  // The cycle in which the state machine sees the acknowledge.
  predicate Answered(d: DM.Dm) { d.fsm == F.Res && d.resuming && d.regs.resumereq && !d.halted }

  // The resume has been reported, the request dropped.
  predicate Acknowledged(d: DM.Dm) { d.fsm != F.Res && d.resuming && !d.regs.resumereq }

  predicate Serves(d: DM.Dm) { Asked(d) || Answered(d) || Acknowledged(d) }

  // The resume that serves the request has been started.
  predicate Started(d: DM.Dm) { d.fsm == F.Res || Acknowledged(d) }

  // A dmcontrol write that asks a halted hart to resume, whatever the module is doing,
  // is taken as a new request exactly unless it falls in the report of an earlier
  // resume.
  lemma ResumeRequested(s: Sys, i: Input)
    requires Inv(s) && Allowed(s, i) && s.dm.halted && WritesTo(i.req, DmControl)
    requires CR.ResumereqField(i.req.value.data) && !CR.HaltreqField(i.req.value.data)
    ensures Asked(Next(s, i).dm) <==> !ReportsResume(s, i)
  {
    hide AC.Fields, AC.TargetOf, AC.Unsupported, DM.Next, MW.DecodeBus, Bus, Located, NextHart;
    hide CR.ResumereqField, CR.HaltreqField;
    InvDmOk(s);
    HaltedIsUnanswered(s);
    ResumingStep(s.dm, i.req, Bus(s, i.move));
    FsmStep(s.dm, i.req, Bus(s, i.move));
    RequestBitsAfter(s.dm, i.req, Bus(s, i.move));
  }

  // An acknowledged request is dropped before the hart can halt again.
  lemma HaltedIsUnanswered(s: Sys)
    requires Inv(s) && s.dm.halted
    ensures !(s.dm.regs.resumereq && s.dm.resuming)
  {
    hide AC.Fields, HartAt, AC.Unsupported, TargetsScratch;
  }

  // As soon as the module is idle the resume starts, before any valid command and
  // whatever the debugger sends in that cycle.
  lemma ResumeStarts(s: Sys, i: Input)
    requires Inv(s) && Allowed(s, i) && Asked(s.dm) && s.dm.fsm == F.Idle
    ensures Resuming(Next(s, i))
  {
    hide AC.Fields, AC.TargetOf, AC.Unsupported, DM.Next, MW.DecodeBus, Bus, Located, NextHart;
    HaltedIsParked(s);
    IdleStep(s, i);
    FsmStep(s.dm, i.req, Bus(s, i.move));
    ResumeTaken(s.dm, i.req, Bus(s, i.move));
    HaltedResIsParked(Next(s, i));
  }

  // A cycle without a dmcontrol write: the request stands until it is reported, and
  // is dropped in the cycle after that.
  lemma ServingStep(s: Sys, i: Input)
    requires Inv(s) && Allowed(s, i) && Serves(s.dm) && !WritesTo(i.req, DmControl)
    ensures var s' := Next(s, i);
            && Serves(s'.dm) && (Acknowledged(s.dm) ==> Acknowledged(s'.dm)) && (Answered(s.dm) ==> Acknowledged(s'.dm))
            && (Asked(s.dm) && s.dm.fsm == F.Idle ==> s'.dm.fsm == F.Res)
            && Count(Asked(s'.dm)) + Count(ReportsResume(s, i)) == Count(Asked(s.dm))
            && Count(Started(s'.dm)) == Count(Started(s.dm)) + Count(StartsResume(s, i))
  {
    hide AC.Fields, AC.TargetOf, AC.Unsupported, DM.Next, MW.DecodeBus, Bus, Located, NextHart;
    hide CR.ResumereqField, CR.HaltreqField;
    InvDmOk(s);
    if ReportsResume(s, i) { ReportsInRes(s, i); }
    hide Inv;
    ResumingStep(s.dm, i.req, Bus(s, i.move));
    FsmStep(s.dm, i.req, Bus(s, i.move));
    RequestBitsAfter(s.dm, i.req, Bus(s, i.move));
    if s.dm.fsm == F.Idle { ResumeTaken(s.dm, i.req, Bus(s, i.move)); }
  }

  predicate LeavesControl(ins: seq<Input>) { forall k | 0 <= k < |ins| :: !WritesTo(ins[k].req, DmControl) }

  // One request, one start, one report, one dret.
  lemma {:induction false} RequestServedOnce(s: Sys, ins: seq<Input>)
    requires Inv(s) && AllowedRun(s, ins) && Serves(s.dm) && LeavesControl(ins)
    ensures var e := Run(s, ins);
            && Inv(e) && Serves(e.dm)
            && Count(Asked(e.dm)) + Total(ReportsResume, s, ins) == Count(Asked(s.dm))
            && Count(Started(e.dm)) == Count(Started(s.dm)) + Total(StartsResume, s, ins)
            && Total(Drets, s, ins) + Count(Returning(e)) == Count(Returning(s)) + Total(ReportsResume, s, ins)
    decreases |ins|
  {
    hide Inv, Next, Serves, Asked, Started, StartsResume, ReportsResume, Drets, Returning, Acknowledged, Answered;
    if ins != [] {
      assert !WritesTo(ins[0].req, DmControl);
      assert forall k | 0 <= k < |ins[1..]| :: ins[1..][k] == ins[k + 1];
      StepKeepsInv(s, ins[0]);
      ServingStep(s, ins[0]);
      ReturnBalanced(s, ins[0]);
      RequestServedOnce(Next(s, ins[0]), ins[1..]);
    }
  }

  // ---- Nothing resumes unasked ----

  // No resume is asked for or under way, once the state machine has seen the last
  // acknowledge.
  predicate Unasked(d: DM.Dm) { Answered(d) || (d.fsm != F.Res && !d.regs.resumereq) }

  predicate NeverAsks(ins: seq<Input>)
  {
    forall k | 0 <= k < |ins| :: WritesTo(ins[k].req, DmControl) ==> !CR.ResumereqField(ins[k].req.value.data)
  }

  lemma UnaskedStep(s: Sys, i: Input)
    requires Inv(s) && Allowed(s, i) && Unasked(s.dm)
    requires WritesTo(i.req, DmControl) ==> !CR.ResumereqField(i.req.value.data)
    ensures var s' := Next(s, i);
            s'.dm.fsm != F.Res && !s'.dm.regs.resumereq && !StartsResume(s, i) && !ReportsResume(s, i)
  {
    hide AC.Fields, AC.TargetOf, AC.Unsupported, DM.Next, MW.DecodeBus, Bus, Located, NextHart;
    hide CR.ResumereqField, CR.HaltreqField;
    InvDmOk(s);
    if ReportsResume(s, i) { ReportsInRes(s, i); }
    hide Inv;
    FsmStep(s.dm, i.req, Bus(s, i.move));
    RequestBitsAfter(s.dm, i.req, Bus(s, i.move));
    if s.dm.fsm == F.Idle { ResumeTaken(s.dm, i.req, Bus(s, i.move)); }
  }

  // Over every run in which the debugger does not ask, through any number of halts and
  // commands, no resume starts, and the only dret is one that was already due.
  lemma {:induction false} NothingResumesUnasked(s: Sys, ins: seq<Input>)
    requires Inv(s) && AllowedRun(s, ins) && Unasked(s.dm) && NeverAsks(ins)
    ensures var e := Run(s, ins);
            && Unasked(e.dm) && (ins != [] ==> !Answered(e.dm)) && Total(StartsResume, s, ins) == 0
            && Total(Drets, s, ins) + Count(Returning(e)) == Count(Returning(s))
    decreases |ins|
  {
    hide Inv, Next, StartsResume, ReportsResume, Drets, Returning, CR.ResumereqField;
    if ins != [] {
      assert WritesTo(ins[0].req, DmControl) ==> !CR.ResumereqField(ins[0].req.value.data);
      assert forall k | 0 <= k < |ins[1..]| :: ins[1..][k] == ins[k + 1];
      StepKeepsInv(s, ins[0]);
      UnaskedStep(s, ins[0]);
      ReturnBalanced(s, ins[0]);
      NothingResumesUnasked(Next(s, ins[0]), ins[1..]);
    }
  }

  lemma AskedIsNotReturning(s: Sys)
    requires Inv(s) && Asked(s.dm)
    ensures !Returning(s) && s.hart.mode != Running
  {
    hide AC.Fields, HartAt;
  }

  // From the write that asks a halted hart to resume, through whatever command is
  // still running, to the acknowledge, and on through any later halts: one resume is
  // started and reported, one dret executed, the request is dropped, and no later
  // halt is resumed until the debugger asks again.
  lemma ResumeAcknowledged(s: Sys, i: Input, ins: seq<Input>, later: seq<Input>)
    requires Inv(s) && Allowed(s, i) && s.dm.halted && WritesTo(i.req, DmControl)
    requires CR.ResumereqField(i.req.value.data) && !CR.HaltreqField(i.req.value.data)
    requires !ReportsResume(s, i)
    requires AllowedRun(Next(s, i), ins) && LeavesControl(ins)
    requires var e := Run(Next(s, i), ins); e.dm.resuming && AllowedRun(e, later) && NeverAsks(later)
    ensures var s1 := Next(s, i);
            var e := Run(s1, ins);
            var end := Run(e, later);
            && Total(ReportsResume, s1, ins) == 1
            && Total(StartsResume, s1, ins) == Count(s1.dm.fsm != F.Res)
            && (later != [] ==> !end.dm.regs.resumereq && end.dm.fsm != F.Res)
            && Total(StartsResume, e, later) == 0
            && Total(Drets, s1, ins) + Total(Drets, e, later) + Count(Returning(end)) == 1
  {
    hide Inv, Next, StartsResume, ReportsResume, Drets, Returning, CR.ResumereqField, CR.HaltreqField;
    hide NeverAsks, LeavesControl;
    var s1 := Next(s, i);
    StepKeepsInv(s, i);
    ResumeRequested(s, i);
    AskedIsNotReturning(s1);
    RequestServedOnce(s1, ins);
    NothingResumesUnasked(Run(s1, ins), later);
  }

  // ---- A request that comes before the halt ----

  // Asked of a hart that is not halted, with no resume under way.
  predicate AskedEarly(d: DM.Dm) { !d.halted && d.fsm == F.Idle && AsksResume(d) }

  // A dmcontrol write that asks a running hart to resume stands as a request.
  lemma EarlyRequest(s: Sys, i: Input)
    requires Inv(s) && Allowed(s, i) && !s.dm.halted && s.dm.fsm == F.Idle && !ReportsHalt(s, i)
    requires WritesTo(i.req, DmControl) && CR.ResumereqField(i.req.value.data) && !CR.HaltreqField(i.req.value.data)
    ensures AskedEarly(Next(s, i).dm)
  {
    hide AC.Fields, AC.TargetOf, AC.Unsupported, DM.Next, MW.DecodeBus, Bus, Located, NextHart;
    hide CR.ResumereqField, CR.HaltreqField;
    InvDmOk(s);
    if ReportsResume(s, i) { ReportsInRes(s, i); }
    hide Inv;
    ResumingStep(s.dm, i.req, Bus(s, i.move));
    FsmStep(s.dm, i.req, Bus(s, i.move));
    RequestBitsAfter(s.dm, i.req, Bus(s, i.move));
  }

  // It is not dropped, and becomes a request of a halted hart with the next halt.
  lemma EarlyStep(s: Sys, i: Input)
    requires Inv(s) && Allowed(s, i) && AskedEarly(s.dm) && !WritesTo(i.req, DmControl)
    ensures if ReportsHalt(s, i) then Asked(Next(s, i).dm) && Next(s, i).dm.fsm == F.Idle else AskedEarly(Next(s, i).dm)
    ensures !StartsResume(s, i)
  {
    hide AC.Fields, AC.TargetOf, AC.Unsupported, DM.Next, MW.DecodeBus, Bus, Located, NextHart;
    hide CR.ResumereqField, CR.HaltreqField;
    InvDmOk(s);
    if ReportsResume(s, i) { ReportsInRes(s, i); }
    hide Inv;
    ResumingStep(s.dm, i.req, Bus(s, i.move));
    FsmStep(s.dm, i.req, Bus(s, i.move));
    RequestBitsAfter(s.dm, i.req, Bus(s, i.move));
  }

  lemma {:induction false} EarlyRequestStands(s: Sys, ins: seq<Input>)
    requires Inv(s) && AllowedRun(s, ins) && AskedEarly(s.dm) && LeavesControl(ins) && NeverReportsHalt(s, ins)
    ensures AskedEarly(Run(s, ins).dm) && Inv(Run(s, ins)) && Total(StartsResume, s, ins) == 0
    decreases |ins|
  {
    hide Inv, Next, AskedEarly, StartsResume, ReportsHalt;
    if ins != [] {
      assert !WritesTo(ins[0].req, DmControl);
      assert forall k | 0 <= k < |ins[1..]| :: ins[1..][k] == ins[k + 1];
      StepKeepsInv(s, ins[0]);
      EarlyStep(s, ins[0]);
      EarlyRequestStands(Next(s, ins[0]), ins[1..]);
    }
  }

  // A request that a hart gets while it runs user code waits for its next halt, and
  // resumes the hart from it in the cycle after the report.
  lemma EarlyRequestResumes(s: Sys, ins: seq<Input>, halt: Input, after: Input)
    requires Inv(s) && AllowedRun(s, ins) && AskedEarly(s.dm) && LeavesControl(ins) && NeverReportsHalt(s, ins)
    requires Allowed(Run(s, ins), halt) && ReportsHalt(Run(s, ins), halt) && !WritesTo(halt.req, DmControl)
    requires Allowed(Next(Run(s, ins), halt), after)
    ensures var e := Next(Run(s, ins), halt);
            Total(StartsResume, s, ins) == 0 && Asked(e.dm) && StartsResume(e, after) && Resuming(Next(e, after))
  {
    hide Inv, Next, AskedEarly, ReportsHalt, LeavesControl, Resuming;
    EarlyRequestStands(s, ins);
    EarlyStep(Run(s, ins), halt);
    StepKeepsInv(Run(s, ins), halt);
    var e := Next(Run(s, ins), halt);
    ResumeStarts(e, after);
    ServesAtOnce(e, after);
  }

  lemma ServesAtOnce(s: Sys, i: Input)
    requires Inv(s) && Asked(s.dm) && s.dm.fsm == F.Idle
    ensures StartsResume(s, i)
  {
    hide AC.Fields, DM.Next, Located, Bus;
    InvDmOk(s);
    ResumeTaken(s.dm, i.req, Bus(s, i.move));
  }

  // ---- The request is served in bounded time ----

  // Hart steps to the dret, with the rest of a running command before them.
  function StepsToDret(s: Sys): nat
  {
    if !Asked(s.dm) || s.dm.fsm == F.Res then ResumeSteps(s)
    else if RunsCommand(s.dm) then Steps(s) + 41
    else 41
  }

  lemma StepsToDretBound(s: Sys)
    ensures 0 < StepsToDret(s) <= 133
  {
    hide ResumeSteps, Steps;
    ResumeStepsBound(s);
    StepsPositive(s);
  }

  // A hart that still has to execute its dret, and runs no program buffer first.
  predicate Due(s: Sys)
  {
    && Serves(s.dm) && s.hart.mode == Parked && (Asked(s.dm) || Returning(s))
    && (RunsCommand(s.dm) ==> !Cmd(s).postexec)
  }

  lemma AfterCommand(s: Sys, i: Input)
    requires Inv(s) && Allowed(s, i) && Due(s) && RunsCommand(s.dm) && !WritesTo(i.req, DmControl)
    ensures var s' := Next(s, i); Due(s') && StepsToDret(s') + Count(i.move == Tick) <= StepsToDret(s)
  {
    hide AC.Fields, Next, Steps, ResumeSteps, Inv, ReportsResume, StartsResume, Acknowledged, Answered;
    RunningIsAsked(s);
    StepNearer(s, i);
    StepsPositive(s);
    StepKeepsInv(s, i);
    ServingStep(s, i);
    if ReportsResume(s, i) { ReportsInRes(s, i); }
    AskedIsParked(Next(s, i));
    LeavesBusy(s, i);
  }

  lemma RunningIsAsked(s: Sys)
    requires Inv(s) && Due(s) && RunsCommand(s.dm)
    ensures Asked(s.dm)
  {
    hide AC.Fields, HartAt;
  }

  lemma AskedIsParked(s: Sys)
    requires Inv(s) && Asked(s.dm)
    ensures s.hart.mode == Parked || RunsCommand(s.dm)
  {
    hide AC.Fields, Located;
  }

  lemma LeavesBusy(s: Sys, i: Input)
    requires Inv(s) && Allowed(s, i) && RunsCommand(s.dm)
    ensures Next(s, i).dm.fsm != F.Res
  {
    hide AC.Fields, AC.TargetOf, AC.Unsupported, DM.Next, Located, Bus, MW.DecodeBus;
    InvDmOk(s);
    FsmStep(s.dm, i.req, Bus(s, i.move));
  }

  lemma AfterIdle(s: Sys, i: Input)
    requires Inv(s) && Allowed(s, i) && Due(s) && Asked(s.dm) && s.dm.fsm == F.Idle && !WritesTo(i.req, DmControl)
    ensures var s' := Next(s, i); Due(s') && StepsToDret(s') + Count(i.move == Tick) <= StepsToDret(s)
  {
    hide AC.Fields, Next, ResumeSteps, Inv, ReportsResume, StartsResume, Acknowledged, Answered;
    StepKeepsInv(s, i);
    ServingStep(s, i);
    if ReportsResume(s, i) { ReportsInRes(s, i); }
    AskedIsParked(Next(s, i));
    ResumeStepsBound(Next(s, i));
  }

  lemma AfterResume(s: Sys, i: Input)
    requires Inv(s) && Allowed(s, i) && Due(s) && Resuming(s) && !WritesTo(i.req, DmControl)
    ensures var s' := Next(s, i);
            Drets(s, i) || (Due(s') && StepsToDret(s') + Count(i.move == Tick) <= StepsToDret(s))
  {
    hide AC.Fields, Next, ResumeSteps, Inv, ReportsResume, StartsResume, Steps, Drets, Unreported, Returning;
    StepKeepsInv(s, i);
    ServingStep(s, i);
    ReturnBalanced(s, i);
    ResumeNearer(s, i);
    ResumingSplit(s);
    if Next(s, i).hart.mode == Running { RunningServed(Next(s, i)); }
    else { ResumingSplit(Next(s, i)); }
  }

  lemma RunningServed(s: Sys)
    requires Inv(s) && s.hart.mode == Running
    ensures !Asked(s.dm) && !Returning(s)
  {
  }

  // A hart on its way out is asked to resume, or has reported.
  lemma ResumingSplit(s: Sys)
    requires Inv(s) && Serves(s.dm) && Resuming(s)
    ensures Asked(s.dm) <==> !Returning(s)
    ensures !RunsCommand(s.dm) && (Asked(s.dm) ==> s.dm.fsm == F.Res)
  {
    hide AC.Fields, HartAt;
  }

  // Every hart step brings the dret nearer, or is it.
  lemma DueNearer(s: Sys, i: Input)
    requires Inv(s) && Allowed(s, i) && Due(s) && !WritesTo(i.req, DmControl)
    ensures var s' := Next(s, i);
            Drets(s, i) || (Due(s') && StepsToDret(s') + Count(i.move == Tick) <= StepsToDret(s))
  {
    hide AC.Fields, Inv, Next, Allowed, StepsToDret, Drets, Returning;
    if RunsCommand(s.dm) { AfterCommand(s, i); }
    else if Asked(s.dm) && s.dm.fsm == F.Idle { AfterIdle(s, i); }
    else { AfterResume(s, i); }
  }

  lemma {:induction false} DretInTime(s: Sys, ins: seq<Input>)
    requires Inv(s) && AllowedRun(s, ins) && Due(s) && LeavesControl(ins) && Ticks(ins) >= StepsToDret(s)
    ensures Total(Drets, s, ins) > 0
    decreases |ins|
  {
    hide Inv, Next, Due, StepsToDret, Drets;
    StepsToDretBound(s);
    assert !WritesTo(ins[0].req, DmControl);
    assert forall k | 0 <= k < |ins[1..]| :: ins[1..][k] == ins[k + 1];
    StepKeepsInv(s, ins[0]);
    DueNearer(s, ins[0]);
    if !Drets(s, ins[0]) { DretInTime(Next(s, ins[0]), ins[1..]); }
  }

  // A request to resume is served within 133 steps of the hart, a running command
  // included: the hart is back in user code, and the acknowledge is there to be read.
  lemma ResumeIsServed(s: Sys, ins: seq<Input>)
    requires Inv(s) && AllowedRun(s, ins) && Asked(s.dm) && LeavesControl(ins) && Ticks(ins) >= 133
    requires RunsCommand(s.dm) ==> s.hart.mode == Parked && !Cmd(s).postexec
    ensures Total(Drets, s, ins) == 1 && Acknowledged(Run(s, ins).dm)
  {
    hide Next, Drets, StepsToDret, ReportsResume, StartsResume, LeavesControl, AC.Fields, Located;
    AskedIsNotReturning(s);
    StepsToDretBound(s);
    DretInTime(s, ins);
    RequestServedOnce(s, ins);
  }
}
