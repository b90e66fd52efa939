/** Total correctness of a command: a hart that keeps stepping carries it out. */
module Completion {
  import opened Words
  import opened Dmi
  import opened DebugRom
  import opened Hart
  import opened System
  import opened Protocol
  import opened Atomicity
  import opened Commands
  import opened CommandErrors
  import opened Progress
  import F = CommandFsm
  import CR = ControlRegs
  import MW = MemWindow
  import AC = AbstractCommand
  import DM = DebugModule
  import DC = DmiControl

  const TICK := Input(None, Tick)

  lemma TickAllowed(s: Sys)
    ensures Allowed(s, TICK)
  {
  }

  lemma LeavesBusyIdle(s: Sys)
    requires Inv(s) && RunsCommand(s.dm)
    ensures !RunsCommand(Next(s, TICK).dm) ==> Next(s, TICK).dm.fsm == F.Idle
  {
    hide AC.Fields, AC.TargetOf, AC.Unsupported, DM.Next, Located, Bus, MW.DecodeBus;
    TickAllowed(s);
    InvDmOk(s);
    FsmStep(s.dm, None, Bus(s, Tick));
  }

  // Where a run of the module's own code for a command ends.
  predicate Done(s: Sys) { s.dm.fsm == F.Idle || s.hart.mode == Program }

  // The run in which the hart never stalls and the debugger waits.
  lemma {:induction false} StepsToDone(s: Sys) returns (ins: seq<Input>)
    requires Inv(s) && RunsCommand(s.dm) && s.hart.mode == Parked
    ensures |ins| <= Steps(s) && AllowedRun(s, ins) && BusyRun(s, ins) && Discreet(ins)
    ensures Done(Run(s, ins)) && (Run(s, ins).hart.mode == Program ==> Cmd(s).postexec)
    decreases Steps(s)
  {
    hide Inv, Next, Allowed, Steps, AC.Fields, Discreet;
    TickAllowed(s);
    StepKeepsInv(s, TICK);
    StepNearer(s, TICK);
    StepsPositive(s);
    LeavesBusyIdle(s);
    var s' := Next(s, TICK);
    if RunsCommand(s'.dm) && s'.hart.mode == Parked {
      var rest := StepsToDone(s');
      ins := [TICK] + rest;
      assert ins[1..] == rest;
      TickIsDiscreet(rest);
    } else {
      if !RunsCommand(s'.dm) { IdleIsNoProgram(s'); }
      ins := [TICK];
      assert ins[1..] == [];
      TickIsDiscreet([]);
      assert ins == [TICK] + [];
    }
  }

  lemma TickIsDiscreet(rest: seq<Input>)
    ensures Discreet(rest) ==> Discreet([TICK] + rest)
    ensures Discreet([])
  {
  }

  lemma IdleIsNoProgram(s: Sys)
    requires Inv(s) && !RunsCommand(s.dm)
    ensures s.hart.mode != Program
  {
  }

  // Every command that has been taken can be brought to its end, or to its program
  // buffer, in at most 92 steps of the hart, and has then made its access.
  lemma CommandIsCarriedOut(s: Sys) returns (ins: seq<Input>)
    requires Inv(s) && s.dm.fsm == F.Go
    ensures |ins| <= 92 && AllowedRun(s, ins) && BusyRun(s, ins) && Discreet(ins) && Done(Run(s, ins))
    ensures Run(s, ins).hart.mode == Program ==> Cmd(s).postexec
    ensures UserOf(Run(s, ins)) == Access(Cmd(s), s.hart.fpu, UserOf(s))
  {
    hide Next, Steps, AC.Fields, Located, UserOf, Access, Discreet;
    ins := StepsToDone(s);
    StepsPositive(s);
    CommandIsAtomic(s, ins);
  }

  // There is such a state for every supported command: the hart in the polling loop,
  // the command just taken.
  function Polling(page: Page, command: Word, gpr: RegFile, fpr: RegFile, fpu: bool, csr: map<int, Word>,
      path: MW.ReadPath): Sys
  {
    Sys(page,
        DM.Dm(F.Go, DC.Regs(ERR_NONE, false), CR.ResetRegs().(dmactive := true, command := command), true, false, path),
        Hart(Parked, Pc(page, ENTRY_LOOP), None, gpr[10 := PageBase(page)], fpr, fpu, csr))
  }

  lemma PollingSatisfiesInv(page: Page, command: Word, gpr: RegFile, fpr: RegFile, fpu: bool, csr: map<int, Word>,
      path: MW.ReadPath)
    requires DSCRATCH0 in csr && DSCRATCH1 in csr && MHARTID in csr && csr[MHARTID] == 0
    requires !AC.Unsupported(AC.Fields(command)) && !TargetsScratch(AC.Fields(command))
    ensures var s := Polling(page, command, gpr, fpr, fpu, csr, path);
            && Inv(s) && s.dm.fsm == F.Go
            && UserOf(s).gpr == gpr[8 := csr[DSCRATCH0]][10 := csr[DSCRATCH1]]
  {
    hide AC.Fields, AC.Unsupported, TargetsScratch, PageBase, CR.ResetRegs;
    ResetFields();
  }

  lemma ResetFields()
    ensures !CR.ResetRegs().ndmreset
  {
  }
}
