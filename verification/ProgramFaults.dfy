/** A fault in the program buffer: what the scratch registers held when the buffer was
    entered is what the user gets back, and a write of s0 by the same command is undone. */
module ProgramFaults {
  import opened Words
  import opened Dmi
  import opened DebugRom
  import opened Hart
  import opened System
  import opened Protocol
  import opened HartSteps
  import opened RomSteps
  import opened CodeSteps
  import opened CommandSteps
  import opened Atomicity
  import opened Commands
  import opened CommandErrors
  import opened Refinement
  import opened Handshake
  import opened Progress
  import opened Completion
  import Isa
  import F = CommandFsm
  import CR = ControlRegs
  import MW = MemWindow
  import AC = AbstractCommand
  import DM = DebugModule

  // ---- What an access does to s0 ----

  function S0(u: User): Word { u.gpr[Isa.S0 as int] }
  function A0(u: User): Word { u.gpr[Isa.A0 as int] }

  lemma AccessOnS0(c: AC.Command, fpu: bool, u: User)
    ensures S0(Access(c, fpu, u)) == if WritesS0(c) then SignExtend(u.data[0], c.aarsize) else S0(u)
  {
    hide AC.TargetOf, SignExtend, LowPart;
    if c.transfer && AC.TargetOf(c.regno).Gpr? { SavedIndex(AC.TargetOf(c.regno).n); }
  }

  // The command writes s0, and not with the value it has.
  predicate ChangesS0(c: AC.Command, u: User)
  {
    WritesS0(c) && SignExtend(u.data[0], c.aarsize) != S0(u)
  }

  // ---- From the command to the program buffer ----

  // The s0 that a fault in the program buffer would bring back.
  function FallbackS0(s: Sys): Word
  {
    if s.hart.mode == Program || PastWriteOfS0(s) then Scratch0(s) else S0(UserOf(s))
  }

  // Past the write of s0 a command with a program buffer goes straight into it.
  lemma RestGoesOn(s: Sys, i: Input)
    requires Executing(s, i) && PastWriteOfS0(s) && Cmd(s).postexec
    ensures var s' := Next(s, i); (PastWriteOfS0(s') || s'.hart.mode == Program) && Scratch0(s') == Scratch0(s)
  {
    hide AC.Fields, AC.TargetOf, AC.Unsupported, Next, Isa.Decode, HartAt, FsmAt, Located, Faults, Execute, MW.FlatWord;
    hide UserOf, SameUserRegs;
    RestKeepsCopy(s, i);
    if EntersProgram(s) { EnterProgramStep(s, i); }
    else {
      AtWordHere(s);
      if Faults(s.hart, Current(s)) { FaultBeforeAccess(s, i); }
      CodeStep(s, i);
      CodeNext(s, i);
      WordOffset(Off(s));
      hide Inv;
    }
  }

  lemma EntryKeepsFallback(s: Sys, i: Input)
    requires Executing(s, i) && !PastWriteOfS0(s) && EntersProgram(s)
    ensures FallbackS0(Next(s, i)) == FallbackS0(s)
  {
    hide AC.Fields, Inv, Next, UserOf, WritesS0, PastWriteOfS0, EntersProgram;
    EntrySaves(s, i);
    EnterProgramStep(s, i);
  }

  lemma CommitKeepsFallback(s: Sys, i: Input)
    requires Executing(s, i) && !PastWriteOfS0(s) && Commits(s)
    ensures FallbackS0(Next(s, i)) == FallbackS0(s) && Next(s, i).hart.mode == Parked
  {
    hide AC.Fields, AC.TargetOf, Inv, Next, UserOf, Access, Faults, Isa.Decode;
    CommitStep(s, i);
    AccessOnS0(Cmd(s), s.hart.fpu, UserOf(s));
    if WritesS0(Cmd(s)) { WriteOfS0KeepsCopy(s, i); }
  }

  lemma WaitKeepsFallback(s: Sys, i: Input)
    requires RunningParked(s, i) && (i.move != Tick || s.hart.ir.None?)
    ensures FallbackS0(Next(s, i)) == FallbackS0(s) && Next(s, i).hart.mode == Parked
  {
    hide AC.Fields, AC.TargetOf, AC.Unsupported, DM.Next, Inv, UserOf, SameUserRegs, Evolves, MW.FlatWord, Bus;
    WaitStep(s, i);
    WaitKeepsUser(s, i);
  }

  lemma FallbackStays(s: Sys, i: Input)
    requires RunningParked(s, i) && Cmd(s).postexec
    ensures FallbackS0(Next(s, i)) == FallbackS0(s)
    ensures Next(s, i).hart.mode == Program ==> Scratch1(Next(s, i)) == A0(UserOf(Next(s, i)))
  {
    hide AC.Fields, Inv, Next, WritesS0, PastWriteOfS0, Commits, EntersProgram;
    if i.move != Tick || s.hart.ir.None? { WaitKeepsFallback(s, i); }
    else {
      if EntersProgram(s) { EntrySaves(s, i); EnterProgramStep(s, i); }
      if PastWriteOfS0(s) {
        RestGoesOn(s, i);
        RestKeepsCopy(s, i);
        if !EntersProgram(s) { RestIsNoProgram(s, i); }
      }
      else if EntersProgram(s) { EntryKeepsFallback(s, i); }
      else if Commits(s) { CommitKeepsFallback(s, i); }
      else { ParkedStaysOut(s, i); RunningRefines(s, i); }
    }
  }

  lemma {:induction false} FallbackOfRun(s: Sys, ins: seq<Input>)
    requires Inv(s) && AllowedRun(s, ins) && BusyRun(s, ins) && s.hart.mode == Parked
             && Run(s, ins).hart.mode == Program
    ensures FallbackS0(Run(s, ins)) == FallbackS0(s) && Cmd(s).postexec
    ensures Scratch1(Run(s, ins)) == A0(UserOf(Run(s, ins)))
    decreases |ins|
  {
    hide Inv, Next, FallbackS0, UserOf, AC.Fields;
    StepKeepsInv(s, ins[0]);
    StepNearer(s, ins[0]);
    var s' := Next(s, ins[0]);
    if !RunsCommand(s'.dm) { IdleIsNoProgram(s'); }
    if s'.hart.mode == Parked { FallbackOfRun(s', ins[1..]); } else { BusyIsNotRunning(s'); }
    FallbackStays(s, ins[0]);
  }

  // At every entry into the program buffer dscratch1 is the user's a0, and dscratch0 is
  // the s0 the user had when the command was taken: the user's s0 exactly unless the
  // command has just changed it.
  lemma EntryScratch(s: Sys, ins: seq<Input>)
    requires Inv(s) && AllowedRun(s, ins) && BusyRun(s, ins) && s.dm.fsm == F.Go && Run(s, ins).hart.mode == Program
    ensures var e := Run(s, ins);
            && Scratch1(e) == A0(UserOf(e)) && Scratch0(e) == S0(UserOf(s))
            && (Scratch0(e) == S0(UserOf(e)) <==> !ChangesS0(Cmd(s), UserOf(s)))
  {
    hide AC.Fields, Next, UserOf, Access, Located, WritesS0, SignExtend;
    FallbackOfRun(s, ins);
    CommandIsAtomic(s, ins);
    AccessOnS0(Cmd(s), s.hart.fpu, UserOf(s));
  }

  // ---- From the program buffer to the fault, and on to the end ----

  // Program-buffer code that leaves the two scratch registers alone.
  predicate LeavesScratch(s: Sys, ins: seq<Input>)
    decreases |ins|
  {
    ins == [] ||
    (s.hart.mode == Program
     && Scratch0(Next(s, ins[0])) == Scratch0(s) && Scratch1(Next(s, ins[0])) == Scratch1(s)
     && LeavesScratch(Next(s, ins[0]), ins[1..]))
  }

  lemma {:induction false} ScratchStays(s: Sys, ins: seq<Input>)
    requires LeavesScratch(s, ins)
    ensures Scratch0(Run(s, ins)) == Scratch0(s) && Scratch1(Run(s, ins)) == Scratch1(s)
    decreases |ins|
  {
    hide Next, Scratch0, Scratch1;
    if ins != [] { ScratchStays(Next(s, ins[0]), ins[1..]); }
  }

  // A user's state with another s0 and a0.
  function WithPair(u: User, s0: Word, a0: Word): User
  {
    u.(gpr := u.gpr[Isa.S0 as int := s0][Isa.A0 as int := a0])
  }

  lemma FaultRestores(s: Sys, i: Input)
    requires Inv(s) && Allowed(s, i) && s.hart.mode == Program && i.move == ProgramFault
    ensures var s' := Next(s, i);
            && UserOf(s') == WithPair(UserOf(s), Scratch0(s), Scratch1(s)) && Doomed(s') && !Pending(s') && Exits(s')
  {
    hide AC.Fields, DM.Next, MW.DecodeBus, MW.Stored, UserCsr, WrittenData, WrittenProgbuf, Access, Traps;
    ProgramModeStep(s, i);
    ProgramRefines(s, i, MachineOf(s));
    NoWrite(UserOf(s));
  }

  // A hart on its way out of a command, past everything that could run the buffer again.
  predicate Exits(s: Sys)
  {
    s.dm.fsm == F.Exec && s.hart.mode == Parked && Off(s) >= 0x800 && !Unrun(s)
  }

  lemma RomLeads(off: Offset, s0: Word)
    requires 0x800 <= off < 0x89c
    ensures RomNext(off, s0) >= 0x800 || RomNext(off, s0) == WHERETO
  {
  }

  lemma ExitsOn(s: Sys, i: Input)
    requires RunningParked(s, i) && Exits(s)
    ensures var s' := Next(s, i); s'.hart.mode != Program && (RunsCommand(s'.dm) ==> Exits(s'))
  {
    hide AC.Fields, Inv, Next, UserOf, SameUserRegs, RomNext, Execute, Listing, MW.FlatWord, Bus, MW.DecodeBus;
    StepBalanced(s, i);
    if i.move != Tick || s.hart.ir.None? { WaitStep(s, i); WaitKeepsUser(s, i); }
    else {
      InRom(s);
      NotDret(s);
      if StoresNothing(Off(s)) { RomStep(s, i); RomLeads(Off(s), S0Of(s.hart.gpr)); }
      else { ReportStep(s, i); StaysInExec(s, i); }
    }
  }

  // A running command stays in Exec until it ends.
  lemma StaysInExec(s: Sys, i: Input)
    requires Inv(s) && Allowed(s, i) && s.dm.fsm == F.Exec
    ensures RunsCommand(Next(s, i).dm) ==> Next(s, i).dm.fsm == F.Exec
  {
    hide AC.Fields, AC.TargetOf, AC.Unsupported, DM.Next, Located, Bus, MW.DecodeBus;
    InvDmOk(s);
    FsmStep(s.dm, i.req, Bus(s, i.move));
  }

  lemma {:induction false} ExitsToIdle(s: Sys, ins: seq<Input>)
    requires Inv(s) && AllowedRun(s, ins) && BusyRun(s, ins) && Exits(s)
    ensures Run(s, ins).hart.mode != Program
    decreases |ins|
  {
    hide Inv, Next, Exits;
    assert s.hart.mode != Program by { ExitingIsParked(s); }
    if ins != [] {
      StepKeepsInv(s, ins[0]);
      ExitsOn(s, ins[0]);
      if RunsCommand(Next(s, ins[0]).dm) { ExitsToIdle(Next(s, ins[0]), ins[1..]); }
    }
  }

  lemma ExitingIsParked(s: Sys)
    requires Exits(s)
    ensures s.hart.mode == Parked && RunsCommand(s.dm)
  {
  }

  // Over every run from a command through any program-buffer code that leaves the
  // scratch registers alone to a fault of it and the end of busy: a0 is that of the
  // entry, s0 is that of before the command, every other register is as the program
  // left it, and cmderr says exception. So a change of s0 by the command is undone,
  // and nothing else about s0 and a0 differs from the entry.
  lemma FaultUndoesS0(s: Sys, ins: seq<Input>, e: Sys, prog: seq<Input>, p: Sys, fault: Input, rest: seq<Input>,
      end: Sys)
    requires Inv(s) && AllowedRun(s, ins) && BusyRun(s, ins) && s.dm.fsm == F.Go
    requires e == Run(s, ins) && e.hart.mode == Program
    requires AllowedRun(e, prog) && LeavesScratch(e, prog)
    requires p == Run(e, prog) && p.hart.mode == Program && Allowed(p, fault) && fault.move == ProgramFault
    requires AllowedRun(Next(p, fault), rest) && BusyRun(Next(p, fault), rest)
    requires end == Run(Next(p, fault), rest) && end.dm.fsm == F.Idle
    ensures UserOf(end) == WithPair(UserOf(p), S0(UserOf(s)), A0(UserOf(e)))
    ensures S0(UserOf(end)) == S0(UserOf(e)) <==> !ChangesS0(Cmd(s), UserOf(s))
    ensures end.dm.dmi.cmderr != ERR_NONE && (Discreet(rest) ==> end.dm.dmi.cmderr == ERR_EXCEPTION)
  {
    hide AC.Fields, Next, UserOf, Access, Located, ChangesS0, Traps, Discreet, Scratch0, Scratch1, LeavesScratch;
    RunKeepsInv(s, ins);
    EntryScratch(s, ins);
    ScratchStays(e, prog);
    RunKeepsInv(e, prog);
    FaultRestores(p, fault);
    StepKeepsInv(p, fault);
    OutcomeOfRun(Next(p, fault), rest);
    VerdictOfRun(Next(p, fault), rest);
  }

  // ---- A command whose write is undone ----

  // A command on its way to its code, or in it.
  predicate Underway(s: Sys)
  {
    RunsCommand(s.dm) && s.hart.mode == Parked && (Unrun(s) || (s.dm.fsm == F.Exec && 0x338 <= Off(s) < 0x360))
  }

  lemma UnrunOn(s: Sys, i: Input)
    requires RunningParked(s, i) && Unrun(s)
    ensures var s' := Next(s, i); s'.hart.mode == Program || Underway(s')
  {
    hide AC.Fields, Next, UserOf, SameUserRegs, HartAt, FsmAt;
    StepBalanced(s, i);
    StepKeepsInv(s, i);
    if RunsWhereto(s, i) {
      InExec(s);
      if EntersProgram(s) { EnterProgramStep(s, i); } else { WheretoStep(s, i); }
    }
  }

  lemma CodeOn(s: Sys, i: Input)
    requires RunningParked(s, i) && s.dm.fsm == F.Exec && 0x338 <= Off(s) < 0x360 && !Doomed(s) && Cmd(s).postexec
    ensures var s' := Next(s, i); s'.hart.mode == Program || Underway(s')
  {
    hide AC.Fields, AC.TargetOf, AC.Unsupported, Next, UserOf, SameUserRegs, HartAt, FsmAt, Located, Traps, Faults;
    hide Isa.Decode;
    if i.move != Tick || s.hart.ir.None? { WaitStep(s, i); WaitKeepsUser(s, i); }
    else {
      CodeArea(s, i);
      AtWordHere(s);
      WordOffset(Off(s));
      if Faults(s.hart, Current(s)) { FaultTraps(s, i); FaultBeforeAccess(s, i); }
    }
  }

  lemma UnderwayOn(s: Sys, i: Input)
    requires RunningParked(s, i) && Underway(s) && !Doomed(s) && Cmd(s).postexec
    ensures var s' := Next(s, i); s'.hart.mode == Program || Underway(s')
  {
    hide AC.Fields, Inv, Next, Unrun, Doomed;
    if Unrun(s) { UnrunOn(s, i); } else { CodeOn(s, i); }
  }

  // A command with a program buffer that does not trap always enters it.
  lemma {:induction false} ProgramIsEntered(s: Sys, ins: seq<Input>)
    requires Inv(s) && AllowedRun(s, ins) && BusyRun(s, ins) && Underway(s) && !Doomed(s) && Cmd(s).postexec
    ensures Run(s, ins).hart.mode == Program || Underway(Run(s, ins))
    decreases |ins|
  {
    hide Inv, Next, Underway, Doomed, AC.Fields;
    if ins != [] {
      var s' := Next(s, ins[0]);
      StepKeepsInv(s, ins[0]);
      StepNearer(s, ins[0]);
      DoomStays(s, ins[0]);
      UnderwayOn(s, ins[0]);
      if s'.hart.mode == Program { BusyStops(s', ins[1..]); }
      else { UnderwayRuns(s'); ProgramIsEntered(s', ins[1..]); }
    }
  }

  lemma BusyStops(s: Sys, ins: seq<Input>)
    requires BusyRun(s, ins) && s.hart.mode == Program
    ensures Run(s, ins) == s
  {
  }

  lemma UnderwayRuns(s: Sys)
    requires Underway(s)
    ensures RunsCommand(s.dm) && s.hart.mode == Parked
  {
  }

  lemma {:induction false} RunConcat(s: Sys, a: seq<Input>, b: seq<Input>)
    requires AllowedRun(s, a) && AllowedRun(Run(s, a), b)
    ensures AllowedRun(s, a + b) && Run(s, a + b) == Run(Run(s, a), b)
    decreases |a|
  {
    hide Next, Allowed;
    if a == [] {
      assert a + b == b;
    } else {
      RunConcat(Next(s, a[0]), a[1..], b);
      assert (a + b)[1..] == a[1..] + b;
    }
  }

  const FAULT := Input(None, ProgramFault)

  // For every command that writes s0 and has a program buffer, a fault of the buffer at
  // its first instruction undoes the write: when busy falls, nothing has changed.
  lemma WriteIsUndone(s: Sys) returns (ins: seq<Input>)
    requires Inv(s) && s.dm.fsm == F.Go && WritesS0(Cmd(s)) && Cmd(s).postexec
    ensures |ins| <= 185 && AllowedRun(s, ins)
    ensures var end := Run(s, ins);
            end.dm.fsm == F.Idle && UserOf(end) == UserOf(s) && end.dm.dmi.cmderr == ERR_EXCEPTION
  {
    hide AC.Fields, Inv, Next, UserOf, Access, Located, ChangesS0, Discreet, Scratch0, Scratch1, Steps, Underway, Exits;
    hide WritesS0, Doomed, Unrun;
    var a := CommandIsCarriedOut(s);
    WritesDoNotTrap(s);
    ProgramIsEntered(s, a);
    var e := Run(s, a);
    RunKeepsInv(s, a);
    if e.dm.fsm == F.Idle { IdleIsNotUnderway(e); }
    FaultRestores(e, FAULT);
    var f := Next(e, FAULT);
    StepKeepsInv(e, FAULT);
    ExitingIsParked(f);
    var b := StepsToDone(f);
    StepsPositive(f);
    ExitsToIdle(f, b);
    FaultUndoesS0(s, a, e, [], e, FAULT, b, Run(f, b));
    OnlyS0(Cmd(s), s.hart.fpu, UserOf(s));
    assert ([FAULT] + b)[1..] == b;
    RunConcat(s, a, [FAULT] + b);
    ins := a + ([FAULT] + b);
  }

  lemma IdleIsNotUnderway(s: Sys)
    requires s.dm.fsm == F.Idle
    ensures !Underway(s)
  {
  }

  lemma WritesDoNotTrap(s: Sys)
    requires Inv(s) && s.dm.fsm == F.Go && WritesS0(Cmd(s))
    ensures Underway(s) && !Doomed(s)
  {
    hide AC.Fields, AC.TargetOf, HartAt;
  }

  lemma OnlyS0(c: AC.Command, fpu: bool, u: User)
    requires WritesS0(c)
    ensures WithPair(Access(c, fpu, u), S0(u), A0(Access(c, fpu, u))) == u
  {
    hide AC.TargetOf, SignExtend;
  }

  // Write s0, 32 bits wide, then run the program buffer.
  const WRITE_S0_AND_RUN: Word := 0x0027_1008

  // One such state: the debugger writes 0, busy falls, and s0 is still what it was.
  lemma WriteCanBeUndone(page: Page, gpr: RegFile, fpr: RegFile, fpu: bool, csr: map<int, Word>, path: MW.ReadPath)
    returns (ins: seq<Input>)
    requires DSCRATCH0 in csr && DSCRATCH1 in csr && MHARTID in csr && csr[MHARTID] == 0 && csr[DSCRATCH0] != 0
    ensures var s := Polling(page, WRITE_S0_AND_RUN, gpr, fpr, fpu, csr, path);
            && Inv(s) && s.dm.fsm == F.Go && AllowedRun(s, ins) && Run(s, ins).dm.fsm == F.Idle
            && S0(Access(Cmd(s), fpu, UserOf(s))) == 0 && S0(UserOf(Run(s, ins))) == csr[DSCRATCH0] != 0
  {
    hide AC.Fields, Inv, Next, Access, AC.Unsupported, TargetsScratch, WritesS0, CR.ResetRegs, SignExtend, Run;
    hide AllowedRun;
    var s := Polling(page, WRITE_S0_AND_RUN, gpr, fpr, fpu, csr, path);
    WordFields();
    PollingSatisfiesInv(page, WRITE_S0_AND_RUN, gpr, fpr, fpu, csr, path);
    AccessOnS0(Cmd(s), fpu, UserOf(s));
    ins := WriteIsUndone(s);
  }

  lemma WordFields()
    ensures var c := AC.Fields(WRITE_S0_AND_RUN);
            !AC.Unsupported(c) && !TargetsScratch(c) && WritesS0(c) && c.postexec && SignExtend(0, c.aarsize) == 0
    ensures CR.ResetRegs().data == [0, 0]
  {
  }
}
