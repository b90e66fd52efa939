/** An abstract command is one atomic register access: whatever the debugger sends
    while it runs and however the hart stalls, the user's state changes once, at
    one instruction, and by exactly the access the command asks for. */
module Atomicity {
  import opened Words
  import opened DebugRom
  import opened Hart
  import opened System
  import opened Protocol
  import opened HartSteps
  import opened RomSteps
  import opened CodeSteps
  import opened CommandSteps
  import Isa
  import F = CommandFsm
  import MW = MemWindow
  import AC = AbstractCommand
  import DM = DebugModule

  // ---- The invariant over every step ----

  lemma ParkedStepKeepsInv(s: Sys, i: Input)
    requires Executing(s, i)
    ensures Inv(Next(s, i))
  {
    hide AC.Fields, Next, HartAt, FsmAt, Located, SameUserRegs, Evolves, Execute, Isa.Decode, DataAccess;
    hide Faults, MW.FlatWord;
    var off := Off(s);
    if off >= 0x800 {
      InRom(s);
      if off == 0x89c { DretStep(s, i); }
      else if StoresNothing(off) { RomStep(s, i); }
      else { ReportStep(s, i); }
    } else if EntersProgram(s) { EnterProgramStep(s, i); }
    else if Commits(s) { CommitStep(s, i); }
    else {
      BelowRom(s);
      if off == WHERETO { WheretoStep(s, i); } else { CodeStep(s, i); }
    }
  }

  lemma InRom(s: Sys)
    requires Inv(s) && s.hart.mode == Parked && Off(s) >= 0x800
    ensures Off(s) < 0x8a0 && Off(s) & 3 == 0
  {
    hide AC.Fields, FsmAt;
  }

  lemma BelowRom(s: Sys)
    requires Inv(s) && s.hart.mode == Parked && Off(s) < 0x800
    ensures Off(s) == WHERETO || 0x338 <= Off(s) < 0x360
  {
    hide AC.Fields, FsmAt;
  }

  // The generated code stores to data0 and nowhere else.
  lemma CodeNeverHandshakes(s: Sys, i: Input)
    requires Executing(s, i) && Off(s) < 0x800
    ensures !Handshakes(Bus(s, Tick))
  {
    hide AC.Fields, MW.DecodeBus, AC.TargetOf, AC.Unsupported, Isa.Decode, HartAt, FsmAt, Located, MW.CodeIndex;
    hide DmOk, Address, Faults, AtWord, AtCode, WriteOf, Misaligned;
    BelowRom(s);
    if Off(s) == WHERETO {
      WheretoInstruction(s, i);
      OnlyStoresStore(s.hart, Current(s));
    } else {
      AtWordHere(s);
      CodeInstruction(s, i);
      WordOffset(Off(s));
      if Faults(s.hart, Current(s)) {
        FaultingIsQuiet(s.hart, Current(s));
      } else if Current(s).Store? || Current(s).FloatStore? {
        StoringWords(Cmd(s), Off(s), MW.CodeIndex(Off(s)));
        BaseInA0(s.hart, s.page, s.dm, Off(s), MW.CodeIndex(Off(s)));
        DataAddress(s.hart, s.page, Cmd(s).aarsize);
        DataStore(s.page, Address(s.hart, Isa.A0, DATA as Word), s.dm.regs.data, Cmd(s).aarsize,
                  if Current(s).Store? then Get(s.hart.gpr, Current(s).rs2) else s.hart.fpr[Current(s).rs2 as int]);
      } else {
        OnlyStoresStore(s.hart, Current(s));
      }
    }
  }

  // Every step of hart and debug module, in every mode and under every allowed DMI
  // request, keeps the joint invariant.
  lemma StepKeepsInv(s: Sys, i: Input)
    requires Inv(s) && Allowed(s, i)
    ensures Inv(Next(s, i))
  {
    hide Inv, Next;
    match s.hart.mode
    case Running => RunningStep(s, i);
    case Program => ProgramModeStep(s, i);
    case Parked =>
      if i.move == Tick && s.hart.ir.Some? { ParkedStepKeepsInv(s, i); } else { WaitStep(s, i); }
  }

  lemma {:induction false} RunKeepsInv(s: Sys, ins: seq<Input>)
    requires Inv(s) && AllowedRun(s, ins)
    ensures Inv(Run(s, ins))
    decreases |ins|
  {
    hide Inv, Next;
    if ins != [] {
      StepKeepsInv(s, ins[0]);
      RunKeepsInv(Next(s, ins[0]), ins[1..]);
    }
  }

  // ---- What the running command will have done ----

  predicate RunsCommand(d: DM.Dm) { d.fsm == F.Go || d.fsm == F.Exec }

  // Places of a hart that has taken the command but not yet made its access.
  predicate BeforeAccess(off: Offset, c: AC.Command)
  {
    0x880 <= off <= 0x888 || off == WHERETO || 0x338 <= off <= AccessPoint(c)
  }

  predicate Pending(s: Sys)
  {
    s.dm.fsm == F.Go || (s.dm.fsm == F.Exec && s.hart.mode == Parked && BeforeAccess(Off(s), Cmd(s)))
  }

  // The user's state once the command is through.
  function Outcome(s: Sys): User
  {
    if Pending(s) then Access(Cmd(s), s.hart.fpu, UserOf(s)) else UserOf(s)
  }

  // ---- It is settled from the moment the command is taken ----

  predicate SameUser(s: Sys, s': Sys)
  {
    UserOf(s') == UserOf(s) && Cmd(s') == Cmd(s) && s'.hart.fpu == s.hart.fpu
  }

  lemma QuietKeepsUser(s: Sys, i: Input)
    requires RunsCommand(s.dm) && SameUserRegs(s, Next(s, i)) && Evolves(s.dm, Next(s, i).dm) && !i.move.UserStep?
             && !i.move.ProgramStep?
    ensures SameUser(s, Next(s, i)) && Next(s, i).dm.fsm == s.dm.fsm
  {
    hide AC.Fields, DM.Next, S0Saved, A0Saved, UserCsr, Execute, Isa.Decode, DataAccess, MW.FlatWord, Bus, DmOk;
  }

  lemma RomOutcome(s: Sys, i: Input)
    requires Executing(s, i) && RunsCommand(s.dm) && 0x800 <= Off(s) < 0x89c && StoresNothing(Off(s))
    ensures Outcome(Next(s, i)) == Outcome(s)
  {
    hide AC.Fields, AC.TargetOf, AC.Unsupported, Next, HartAt, Located, Execute, Isa.Decode, UserOf, Access, Evolves;
    RomStep(s, i);
    QuietKeepsUser(s, i);
    PlaceOf(s);
    hide Inv, FsmAt, BeforeAccess, SameUserRegs;
    if s.dm.fsm == F.Exec {
      RomKeepsPending(s.dm.fsm, s.dm.halted, Off(s), S0Of(s.hart.gpr), Cmd(s));
    }
  }

  // No instruction of the ROM takes the hart past the access, or back before it.
  lemma RomKeepsPending(fsm: F.State, halted: bool, off: Offset, s0: Word, c: AC.Command)
    requires FsmAt(fsm, halted, off, s0) && 0x800 <= off < 0x89c && off & 3 == 0 && fsm == F.Exec
    ensures BeforeAccess(RomNext(off, s0), c) <==> BeforeAccess(off, c)
  {
    hide AC.TargetOf;
  }

  lemma PlaceOf(s: Sys)
    requires Inv(s) && s.hart.mode == Parked
    ensures FsmAt(s.dm.fsm, s.dm.halted, Off(s), S0Of(s.hart.gpr)) && Off(s) & 3 == 0
  {
    hide AC.Fields, HartAt, FsmAt;
  }

  // A report of the running command is not the store that ends it, or is.
  lemma ReportOutcome(s: Sys, i: Input)
    requires Executing(s, i) && RunsCommand(s.dm) && 0x800 <= Off(s) < 0x8a0 && !StoresNothing(Off(s))
    ensures Outcome(Next(s, i)) == Outcome(s)
  {
    hide AC.Fields, AC.TargetOf, AC.Unsupported, DM.Next, HartAt, Located, Isa.Decode, Access, MW.DecodeBus;
    hide Bus, MW.FlatWord, S0Saved, A0Saved, Executed;
    ReportStep(s, i);
    PlaceOf(s);
    RegsStep(s.dm, i.req, Bus(s, Tick));
    FsmStep(s.dm, i.req, Bus(s, Tick));
  }

  lemma WheretoOutcome(s: Sys, i: Input)
    requires Executing(s, i) && s.dm.fsm == F.Exec && Off(s) == WHERETO && !EntersProgram(s)
    ensures Outcome(Next(s, i)) == Outcome(s)
  {
    hide AC.Fields, AC.TargetOf, AC.Unsupported, Next, Inv, Located, Access, UserOf, SameUserRegs, Evolves;
    WheretoStep(s, i);
    QuietKeepsUser(s, i);
  }

  // Entering the program buffer: the access is made, or there is none to make.
  lemma ProgramEntryOutcome(s: Sys, i: Input)
    requires Executing(s, i) && s.dm.fsm == F.Exec && EntersProgram(s)
    ensures Outcome(Next(s, i)) == Outcome(s)
  {
    hide AC.Fields, AC.TargetOf, AC.Unsupported, Next, Inv, Located, UserOf, SameUserRegs, Evolves;
    EnterProgramStep(s, i);
    QuietKeepsUser(s, i);
  }

  // Where a word of the code leads.
  lemma CodeNext(s: Sys, i: Input)
    requires Executing(s, i) && 0x338 <= Off(s) < 0x360 && !RunsOn(s)
    ensures var off' := Execute(s.hart, Current(s), s.page, LoadedWord(s)).pc.off;
            if Faults(s.hart, Current(s)) then off' == EXCEPTION_VECTOR
            else if Off(s) == 0x35c then off' == ENTRY
            else off' == Off(s) + 4
  {
    hide AC.Fields, AC.TargetOf, AC.Unsupported, Isa.Decode, Faults, DataAccess, MW.FlatWord, AtCode, HartAt;
    hide FsmAt, PcAdd, MW.CodeIndex, Sum, Addr;
    AtWordHere(s);
    CodeInstruction(s, i);
    WordOffset(Off(s));
    if !Faults(s.hart, Current(s)) && Off(s) < 0x35c {
      StraightAdvances(s.hart, Current(s), s.page, LoadedWord(s));
      PcStep(s.page, Off(s));
    }
  }

  lemma CodeOutcome(s: Sys, i: Input)
    requires Executing(s, i) && s.dm.fsm == F.Exec && 0x338 <= Off(s) < 0x360 && !Commits(s) && !RunsOn(s)
    ensures Outcome(Next(s, i)) == Outcome(s)
  {
    hide AC.Fields, AC.TargetOf, AC.Unsupported, Next, Located, UserOf, SameUserRegs, Evolves, Execute;
    hide Isa.Decode, MW.FlatWord, Faults, DataAccess, Traps;
    CodeStep(s, i);
    QuietKeepsUser(s, i);
    CodeNext(s, i);
    if Faults(s.hart, Current(s)) { FaultTraps(s, i); }
    AtWordHere(s);
    hide Inv, AtWord;
  }

  // The conservation law behind atomicity. While a command runs, no stall, no fetch,
  // no instruction and no DMI request changes the state it will leave.
  lemma OutcomeIsSettled(s: Sys, i: Input)
    requires Inv(s) && Allowed(s, i) && RunsCommand(s.dm) && s.hart.mode == Parked
    ensures Outcome(Next(s, i)) == Outcome(s)
  {
    hide AC.Fields, AC.TargetOf, Next, Located, UserOf, SameUserRegs, Evolves, Outcome, Isa.Decode, Faults;
    hide HartAt, FsmAt;
    if i.move != Tick || s.hart.ir.None? { WaitOutcome(s, i); }
    else if Off(s) >= 0x800 {
      InRom(s);
      if StoresNothing(Off(s)) { NotDret(s); RomOutcome(s, i); } else { ReportOutcome(s, i); }
    } else {
      BelowRom(s);
      InExec(s);
      if EntersProgram(s) { ProgramEntryOutcome(s, i); }
      else if Commits(s) { CommitOutcome(s, i); }
      else if Off(s) == WHERETO { WheretoOutcome(s, i); }
      else { CodeOutcome(s, i); }
    }
  }

  lemma WaitOutcome(s: Sys, i: Input)
    requires Inv(s) && Allowed(s, i) && RunsCommand(s.dm) && s.hart.mode == Parked
             && (i.move != Tick || s.hart.ir.None?)
    ensures Outcome(Next(s, i)) == Outcome(s)
  {
    hide AC.Fields, AC.TargetOf, AC.Unsupported, DM.Next, Inv, Access, UserOf, SameUserRegs, Evolves;
    WaitStep(s, i);
    WaitKeepsUser(s, i);
  }

  lemma WaitKeepsUser(s: Sys, i: Input)
    requires Inv(s) && Allowed(s, i) && RunsCommand(s.dm) && s.hart.mode == Parked
             && (i.move != Tick || s.hart.ir.None?)
    ensures SameUser(s, Next(s, i)) && Next(s, i).dm.fsm == s.dm.fsm
  {
    hide AC.Fields, AC.TargetOf, AC.Unsupported, DM.Next, S0Saved, A0Saved, UserCsr, MW.FlatWord, Bus, DmOk, Located;
    WaitStep(s, i);
  }

  lemma CommitOutcome(s: Sys, i: Input)
    requires Executing(s, i) && s.dm.fsm == F.Exec && Commits(s)
    ensures Outcome(Next(s, i)) == Outcome(s)
  {
    hide AC.Fields, AC.TargetOf, AC.Unsupported, Next, Inv, Access, UserOf, Faults;
    CommitStep(s, i);
  }

  lemma NotDret(s: Sys)
    requires Inv(s) && s.hart.mode == Parked && RunsCommand(s.dm) && Off(s) >= 0x800
    ensures Off(s) < 0x890
  {
    hide AC.Fields, HartAt;
  }

  lemma VectorPlaces(s: Sys)
    requires Inv(s) && s.hart.mode == Parked && RunsCommand(s.dm) && 0x800 <= Off(s) < 0x818
    ensures Off(s) == ENTRY || Off(s) == EXCEPTION_VECTOR
  {
    hide AC.Fields, AtBaseCode, AtPoll, AtGoing, AtCode;
  }
}
