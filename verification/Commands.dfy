/** Whole runs of an abstract command, from the DMI write that starts it to the
    cycle in which the debugger sees it done. */
module Commands {
  import opened Words
  import opened Dmi
  import opened DebugRom
  import opened Hart
  import opened System
  import opened Protocol
  import opened HartSteps
  import opened RomSteps
  import opened CommandSteps
  import opened Atomicity
  import Isa
  import F = CommandFsm
  import CR = ControlRegs
  import MW = MemWindow
  import AC = AbstractCommand
  import DM = DebugModule
  import DC = DmiControl

  // A run in which a command is in progress before every step.
  predicate BusyRun(s: Sys, ins: seq<Input>)
    decreases |ins|
  {
    ins == [] || (RunsCommand(s.dm) && s.hart.mode == Parked && BusyRun(Next(s, ins[0]), ins[1..]))
  }

  lemma {:induction false} OutcomeOfRun(s: Sys, ins: seq<Input>)
    requires Inv(s) && AllowedRun(s, ins) && BusyRun(s, ins)
    ensures Inv(Run(s, ins)) && Outcome(Run(s, ins)) == Outcome(s)
    decreases |ins|
  {
    hide Inv, Next, Outcome;
    if ins != [] {
      StepKeepsInv(s, ins[0]);
      OutcomeIsSettled(s, ins[0]);
      OutcomeOfRun(Next(s, ins[0]), ins[1..]);
    }
  }

  // A command that has been taken is one atomic register access: when the module
  // stops being busy, or when the hart enters the program buffer, the user's state
  // is the old one with that access made, for every interleaving of hart steps and
  // DMI requests in between.
  lemma CommandIsAtomic(s: Sys, ins: seq<Input>)
    requires Inv(s) && AllowedRun(s, ins) && BusyRun(s, ins) && s.dm.fsm == F.Go
    requires var end := Run(s, ins); end.dm.fsm == F.Idle || end.hart.mode == Program
    ensures Inv(Run(s, ins)) && UserOf(Run(s, ins)) == Access(Cmd(s), s.hart.fpu, UserOf(s))
  {
    hide AC.Fields, Next, UserOf, Access, Located;
    OutcomeOfRun(s, ins);
  }

  // ---- Between commands ----

  // A parked hart that runs no command changes none of the user's registers, and
  // stores nothing to the data registers.
  lemma IdleStep(s: Sys, i: Input)
    requires Inv(s) && Allowed(s, i) && s.hart.mode == Parked && !RunsCommand(s.dm)
    ensures Inv(Next(s, i)) && SameUserRegs(s, Next(s, i))
    ensures var st := MW.DecodeBus(Bus(s, i.move));
            st != MW.WriteData && st != MW.WriteException && st != MW.WriteGoing
              && (s.dm.fsm == F.Idle ==> st != MW.WriteResuming)
  {
    hide AC.Fields, Next, HartAt, Located, SameUserRegs, Evolves, Execute, Isa.Decode, DataAccess, Faults;
    hide MW.FlatWord, MW.DecodeBus, Bus;
    StepKeepsInv(s, i);
    PlaceOf(s);
    if i.move != Tick || s.hart.ir.None? {
      WaitStep(s, i);
      WaitBus(s, i.move);
    } else {
      InRom(s);
      if StoresNothing(Off(s)) { QuietInRom(s, i); } else { ReportStep(s, i); }
      if Off(s) == 0x89c { DretStep(s, i); }
      else if StoresNothing(Off(s)) { RomStep(s, i); }
    }
  }

  lemma QuietInRom(s: Sys, i: Input)
    requires Executing(s, i) && Off(s) >= 0x800 && StoresNothing(Off(s))
    ensures !Stores(MW.DecodeBus(Bus(s, Tick)))
  {
    hide AC.Fields, HartAt, FsmAt, Isa.Decode, DataAccess, Faults, Listing, MW.DecodeBus;
    InRom(s);
    RomInstruction(s, i);
    RomStoresNothing(Off(s));
    OnlyStoresStore(s.hart, Current(s));
  }

  // The data registers and the program buffer as a DMI request leaves them.
  function WrittenData(data: CR.Data, req: Option<Request>): CR.Data
  {
    if req.Some? && Writes(req.value) && req.value.reg.Data? then data[req.value.reg.i := req.value.data] else data
  }

  function WrittenProgbuf(progbuf: CR.Progbuf, req: Option<Request>): CR.Progbuf
  {
    if req.Some? && Writes(req.value) && req.value.reg.Progbuf? then progbuf[req.value.reg.j := req.value.data]
      else progbuf
  }

  // While no command runs, the debugger alone writes them.
  lemma IdleData(d: DM.Dm, req: Option<Request>, b: MW.BusRequest)
    requires DmOk(d) && !DM.Busy(d) && MW.DecodeBus(b) != MW.WriteData
    ensures var d' := DM.Next(d, req, b);
            && d'.regs.data == WrittenData(d.regs.data, req) && d'.regs.progbuf == WrittenProgbuf(d.regs.progbuf, req)
            && d'.regs.command == (if WritesTo(req, Command) then req.value.data else d.regs.command)
  {
    hide AC.Fields, MW.DecodeBus, MW.Stored, MW.NextPath, F.Next, F.Out, DC.Next, CR.Next, CR.Written, TargetsScratch;
    hide CR.DmactiveField, CR.NdmresetField, CR.AutoDataField;
    CR.BusyGating(d.regs, false, req, DM.StoredData(d, b), d.resuming);
  }

  // The user's state in an idle cycle: only what the debugger writes changes.
  lemma IdleUser(s: Sys, i: Input)
    requires Inv(s) && Allowed(s, i) && s.hart.mode == Parked && s.dm.fsm == F.Idle
    ensures UserOf(Next(s, i)) == UserOf(s).(data := WrittenData(UserOf(s).data, i.req),
            progbuf := WrittenProgbuf(UserOf(s).progbuf, i.req))
  {
    hide AC.Fields, DM.Next, HartAt, Located, Inv, MW.FlatWord, MW.DecodeBus, Bus, UserGpr, UserCsr;
    hide WrittenData, WrittenProgbuf, NextHart;
    InvDmOk(s);
    IdleStep(s, i);
    IdleData(s.dm, i.req, Bus(s, i.move));
  }

  lemma InvDmOk(s: Sys)
    requires Inv(s)
    ensures DmOk(s.dm) && HartOk(s.hart)
  {
  }

  // ---- Taking a command ----

  // A valid command in an idle cycle is taken exactly when the hart is halted, the
  // command is supported, and no resume starts in that cycle.
  lemma CommandTaken(d: DM.Dm, req: Option<Request>, b: MW.BusRequest)
    requires DmOk(d) && d.fsm == F.Idle
    ensures var st := MW.DecodeBus(b);
            DM.Next(d, req, b).fsm == F.Go <==>
              d.dmi.cmdValid && d.halted && !AC.Unsupported(DM.CommandOf(d)) && !F.StartsResume(DM.FsmInputs(d, st))
  {
    hide AC.Fields, AC.Unsupported, AC.TargetOf, MW.DecodeBus, MW.Stored, MW.NextPath, CR.Next, DC.Next, CR.Written;
  }

  // What the run assumption on the command register is for: the command that runs is
  // the one that was accepted exactly when the debugger does not write another in the
  // cycle in which it is taken; the check for support was made on the first.
  lemma WindowWriteReplaces(d: DM.Dm, req: Option<Request>, b: MW.BusRequest)
    requires DmOk(d) && d.fsm == F.Idle && MW.DecodeBus(b) != MW.WriteData && DM.Next(d, req, b).fsm == F.Go
    ensures DM.Next(d, req, b).regs.command == d.regs.command <==>
              !(WritesTo(req, Command) && req.value.data != d.regs.command)
    ensures !AC.Unsupported(DM.CommandOf(d))
  {
    hide AC.Fields, AC.Unsupported, MW.DecodeBus, DM.Next;
    CommandTaken(d, req, b);
    IdleData(d, req, b);
  }

  // The accesses that start a command: a write of the command register, and an access
  // to a data register that abstractauto has armed.
  predicate Starts(d: DM.Dm, req: Option<Request>) { req.Some? && DC.Triggers(d.regs.autoData, req.value) }

  // What asks a halted hart to resume: a request that is not answered, and no halt
  // asked for beside it.
  predicate AsksResume(d: DM.Dm) { d.regs.resumereq && !d.resuming && !d.regs.haltreq }

  // A resume has been asked for and not yet reported. In Idle it starts in this cycle.
  predicate Asked(d: DM.Dm) { d.halted && AsksResume(d) }

  // The module's side of an idle cycle that accepts a command, beside any hart.
  lemma IdleAccepts(d: DM.Dm, req: Option<Request>, b: MW.BusRequest)
    requires DmOk(d) && d.fsm == F.Idle && !d.dmi.cmdValid && Starts(d, req)
    requires MW.DecodeBus(b) != MW.WriteResuming && MW.DecodeBus(b) != MW.WriteException
    ensures var d' := DM.Next(d, req, b);
            && d'.fsm == (if Asked(d) then F.Res else F.Idle)
            && d'.dmi == DC.Regs(d.dmi.cmderr, true) && AsksResume(d') == AsksResume(d)
            && d'.halted == (d.halted || MW.DecodeBus(b) == MW.WriteHalted)
  {
    hide AC.Fields, AC.Unsupported, AC.TargetOf, MW.DecodeBus, MW.Stored, MW.NextPath, CR.Next, CR.Written, DC.AutoExec;
    CR.RequestBits(d.regs, false, req, DM.StoredData(d, b), d.resuming);
  }

  // The cycle in which an unsupported command is refused.
  lemma CommandRefused(d: DM.Dm, req: Option<Request>, b: MW.BusRequest)
    requires DmOk(d) && d.fsm == F.Idle && !Asked(d) && d.dmi.cmdValid && d.halted
    requires AC.Unsupported(DM.CommandOf(d)) && MW.DecodeBus(b) != MW.WriteException
    ensures var d' := DM.Next(d, req, b);
            d'.fsm == F.Idle && (!WritesTo(req, AbstractCS) ==> d'.dmi.cmderr == ERR_NOT_SUPPORTED)
  {
    hide AC.Fields, AC.Unsupported, AC.TargetOf, MW.DecodeBus, MW.Stored, MW.NextPath, CR.Next, CR.Written;
  }

  // The user's state with what a request writes to the data registers or the program
  // buffer.
  function Written(u: User, req: Option<Request>): User
  {
    u.(data := WrittenData(u.data, req), progbuf := WrittenProgbuf(u.progbuf, req))
  }

  // The command a request starts: the one it writes, or the one that is there.
  function StartedCommand(s: Sys, req: Option<Request>): AC.Command
  {
    if WritesTo(req, Command) then AC.Fields(req.value.data) else Cmd(s)
  }

  // A command started on a halted hart, by the debugger's write of it or by an access
  // that abstractauto has armed, is taken two cycles later if it is supported; a
  // command that is not sets cmderr and runs nothing. So far the user's state has only
  // what the debugger wrote.
  lemma CommandStarts(s: Sys, i1: Input, i2: Input)
    requires Inv(s) && s.dm.fsm == F.Idle && s.dm.halted && !s.dm.dmi.cmdValid && !Asked(s.dm)
    requires Allowed(s, i1) && Allowed(Next(s, i1), i2) && Starts(s.dm, i1.req)
    ensures var c, s2 := StartedCommand(s, i1.req), Next(Next(s, i1), i2);
            && Inv(s2) && UserOf(s2) == Written(Written(UserOf(s), i1.req), i2.req) && Cmd(s2) == c
            && (if !AC.Unsupported(c) then s2.dm.fsm == F.Go
                else s2.dm.fsm == F.Idle && (!WritesTo(i2.req, AbstractCS) ==> s2.dm.dmi.cmderr == ERR_NOT_SUPPORTED))
  {
    hide AC.Fields, AC.Unsupported, DM.Next, MW.DecodeBus, Bus, UserOf, Inv, NextHart, Located, HartOk, DC.Triggers;
    hide WrittenData, WrittenProgbuf;
    var s1 := Next(s, i1);
    HaltedIsParked(s);
    InvDmOk(s);
    IdleStep(s, i1);
    IdleAccepts(s.dm, i1.req, Bus(s, i1.move));
    IdleUser(s, i1);
    IdleData(s.dm, i1.req, Bus(s, i1.move));
    HaltedIsParked(s1);
    InvDmOk(s1);
    IdleUser(s1, i2);
    IdleStep(s1, i2);
    CommandTaken(s1.dm, i2.req, Bus(s1, i2.move));
    RegsStep(s1.dm, i2.req, Bus(s1, i2.move));
    if AC.Unsupported(Cmd(s1)) { CommandRefused(s1.dm, i2.req, Bus(s1, i2.move)); }
  }

  // A valid command that does not start disappears without an error.
  lemma Drops(d: DM.Dm, b: MW.BusRequest)
    requires DmOk(d) && !RunsCommand(d) && MW.DecodeBus(b) != MW.WriteException && DM.Next(d, None, b).fsm != F.Go
    requires !AC.Unsupported(DM.CommandOf(d))
    ensures DM.Next(d, None, b).dmi == DC.Regs(d.dmi.cmderr, false)
  {
    hide AC.Fields, AC.Unsupported, AC.TargetOf, MW.DecodeBus, MW.Stored, MW.NextPath, CR.Next, CR.Written;
  }

  // A module that runs no command hears none of a command's reports.
  lemma HearsNoCommand(s: Sys, i: Input)
    requires Inv(s) && Allowed(s, i) && !RunsCommand(s.dm)
    ensures var st := MW.DecodeBus(Bus(s, i.move));
            && st != MW.WriteData && st != MW.WriteException && st != MW.WriteGoing
            && (s.dm.fsm == F.Idle ==> st != MW.WriteResuming)
  {
    hide AC.Fields, DmOk, HartOk, Located, MW.DecodeBus, DM.Next, NextHart;
    if s.hart.mode == Parked { IdleStep(s, i); }
    QuietBus();
  }

  // Exactly when a supported command that an idle module accepts is run: the hart is
  // halted by then, and no resume is asked for when the command arrives. Otherwise the
  // command is lost, and no error says so.
  lemma CommandIsRun(s: Sys, i1: Input, i2: Input)
    requires Inv(s) && s.dm.fsm == F.Idle && !s.dm.dmi.cmdValid
    requires Allowed(s, i1) && Allowed(Next(s, i1), i2) && Starts(s.dm, i1.req)
    requires !AC.Unsupported(StartedCommand(s, i1.req))
    ensures var halted, d := s.dm.halted || MW.DecodeBus(Bus(s, i1.move)) == MW.WriteHalted, Next(Next(s, i1), i2).dm;
            && (d.fsm == F.Go <==> halted && !AsksResume(s.dm))
            && (d.fsm != F.Go && i2.req.None? ==> d.dmi == DC.Regs(s.dm.dmi.cmderr, false))
  {
    hide AC.Fields, AC.Unsupported, DM.Next, MW.DecodeBus, Bus, UserOf, NextHart, Located, HartOk, DC.Triggers;
    var s1 := Next(s, i1);
    HearsNoCommand(s, i1);
    InvDmOk(s);
    IdleAccepts(s.dm, i1.req, Bus(s, i1.move));
    IdleData(s.dm, i1.req, Bus(s, i1.move));
    StepKeepsInv(s, i1);
    InvDmOk(s1);
    FsmStep(s1.dm, i2.req, Bus(s1, i2.move));
    HearsNoCommand(s1, i2);
    hide Inv;
    if s1.dm.fsm == F.Idle { CommandTaken(s1.dm, i2.req, Bus(s1, i2.move)); }
    if i2.req.None? && Next(s1, i2).dm.fsm != F.Go { Drops(s1.dm, Bus(s1, i2.move)); }
  }

  lemma HaltedIsParked(s: Sys)
    requires Inv(s) && s.dm.halted && s.dm.fsm == F.Idle
    ensures s.hart.mode == Parked
  {
    hide AC.Fields, Located;
  }

  // From the DMI access that starts a supported command to the end of its busy period:
  // one register access, on the state as the debugger left it.
  lemma DebuggerAccess(s: Sys, i1: Input, i2: Input, ins: seq<Input>)
    requires Inv(s) && s.dm.fsm == F.Idle && s.dm.halted && !s.dm.dmi.cmdValid && !Asked(s.dm)
    requires Allowed(s, i1) && Allowed(Next(s, i1), i2) && Starts(s.dm, i1.req)
    requires !AC.Unsupported(StartedCommand(s, i1.req))
    requires var s2 := Next(Next(s, i1), i2);
             AllowedRun(s2, ins) && BusyRun(s2, ins)
               && (Run(s2, ins).dm.fsm == F.Idle || Run(s2, ins).hart.mode == Program)
    ensures UserOf(Run(Next(Next(s, i1), i2), ins))
            == Access(StartedCommand(s, i1.req), s.hart.fpu, Written(Written(UserOf(s), i1.req), i2.req))
  {
    hide AC.Fields, AC.Unsupported, Next, UserOf, Access, Inv, StartedCommand, Written;
    CommandStarts(s, i1, i2);
    FpuStays(s, i1);
    FpuStays(Next(s, i1), i2);
    CommandIsAtomic(Next(Next(s, i1), i2), ins);
  }

  lemma FpuStays(s: Sys, i: Input)
    ensures Next(s, i).hart.fpu == s.hart.fpu
  {
    hide DM.Next, Execute;
  }

  // Reading a register back after writing it returns the data that was written, at
  // every size; x0 is the exception.
  lemma ReadBack(w: AC.Command, r: AC.Command, fpu: bool, u: User)
    requires w.transfer && w.write && r == w.(write := false)
    requires w.aarsize < 3 && !Traps(w, fpu, u) && AC.TargetOf(w.regno) != AC.Gpr(0)
    ensures Access(r, fpu, Access(w, fpu, u)).data == u.data
  {
    hide AC.TargetOf, LowPart, SignExtend;
    LowOfExtended(u.data[0], w.aarsize);
    assert u.data[0 := u.data[0]] == u.data;
  }

  lemma LowOfExtended(d: Word, size: bv3)
    requires size < 3
    ensures LowPart(d, SignExtend(d, size), size) == d
  {
    ExtensionKeepsByte(d);
    ExtensionKeepsHalf(d);
    WholeExtension(d);
    hide Lane, SignExtend;
    SameLanes(LowPart(d, SignExtend(d, size), size), d);
  }

  lemma ExtensionKeepsByte(d: Word)
    ensures Lane(SignExtend(d, 0), 0) == Lane(d, 0)
  {
  }

  lemma ExtensionKeepsHalf(d: Word)
    ensures Lane(SignExtend(d, 1), 0) == Lane(d, 0) && Lane(SignExtend(d, 1), 1) == Lane(d, 1)
  {
  }

  lemma WholeExtension(d: Word)
    ensures SignExtend(d, 2) == d
  {
  }

  // ---- Where the assumptions come from ----

  // What the debugger may send apart from timing: it keeps the module active and out
  // of reset, and does not name a scratch register.
  predicate Permitted(req: Option<Request>)
  {
    && (WritesTo(req, DmControl) ==> CR.DmactiveField(req.value.data) && !CR.NdmresetField(req.value.data))
    && (WritesTo(req, Command) ==> !TargetsScratch(AC.Fields(req.value.data)))
  }

  predicate Spaced(ins: seq<Input>)
  {
    forall k | 0 < k < |ins| :: ins[k - 1].req.None? || ins[k].req.None?
  }

  predicate MovesAllowed(s: Sys, ins: seq<Input>)
    decreases |ins|
  {
    ins != [] ==> AllowedMove(s.hart, ins[0].move) && MovesAllowed(Next(s, ins[0]), ins[1..])
  }

  lemma OnlyRequestsStart(s: Sys, i: Input)
    requires i.req.None?
    ensures !Next(s, i).dm.dmi.cmdValid
  {
    hide AC.Fields, CR.Next, MW.NextPath, F.Next, F.Out, NextHart, Bus, MW.DecodeBus;
  }

  // A debugger whose requests are never accepted in neighbouring cycles, as the JTAG
  // transport guarantees, cannot replace a command before it reports busy.
  lemma {:induction false} SpacedRunAllowed(s: Sys, ins: seq<Input>)
    requires ins != [] && ins[0].req.Some? ==> !s.dm.dmi.cmdValid
    requires Spaced(ins) && MovesAllowed(s, ins) && forall k | 0 <= k < |ins| :: Permitted(ins[k].req)
    ensures AllowedRun(s, ins)
    decreases |ins|
  {
    hide Next, Permitted, AllowedMove;
    if ins != [] {
      var rest := ins[1..];
      if rest != [] && rest[0].req.Some? {
        assert ins[0].req.None? && ins[1].req.Some?;
        OnlyRequestsStart(s, ins[0]);
      }
      assert forall k | 0 <= k < |rest| :: rest[k] == ins[k + 1];
      SpacedRunAllowed(Next(s, ins[0]), rest);
      assert Permitted(ins[0].req);
      PermittedIsAllowed(s, ins[0]);
    }
  }

  lemma PermittedIsAllowed(s: Sys, i: Input)
    requires Permitted(i.req) && AllowedMove(s.hart, i.move) && (i.req.Some? ==> !s.dm.dmi.cmdValid)
    ensures Allowed(s, i)
  {
    hide AllowedMove, AC.Fields;
  }

  // A module that has just been activated beside a hart in user code satisfies the
  // invariant.
  lemma ActivationEstablishesInv(page: Page, h: Hart, path: MW.ReadPath)
    requires h.mode == Running && h.ir.None? && HartOk(h)
    ensures Inv(Sys(page,
            DM.Dm(F.Idle, DC.Regs(ERR_NONE, false), CR.ResetRegs().(dmactive := true), false, false, path), h))
  {
    hide CR.ResetRegs;
    ResetCommand();
  }

  lemma ResetCommand()
    ensures var r := CR.ResetRegs(); r.command == 0 && !r.ndmreset && !r.haltreq && !r.resumereq
    ensures !TargetsScratch(AC.Fields(0))
  {
  }

  // ---- A command that is lost ----

  // Write s0, 32 bits wide.
  const WRITE_S0: Word := 0x0023_1008

  const COMMAND := Input(Some(Request(Command, OP_WRITE, WRITE_S0)), Stall)
  const PAUSE := Input(None, Stall)

  // A hart in the polling loop, beside a module that has just been asked to resume it.
  function AboutToResume(page: Page, gpr: RegFile, fpr: RegFile, fpu: bool, csr: map<int, Word>, path: MW.ReadPath): Sys
  {
    Sys(page,
        DM.Dm(F.Idle, DC.Regs(ERR_NONE, false), CR.ResetRegs().(dmactive := true, resumereq := true), true, false,
          path),
        Hart(Parked, Pc(page, ENTRY_LOOP), None, gpr[10 := PageBase(page)], fpr, fpu, csr))
  }

  // A command written in that cycle is accepted, is supported, and is lost.
  lemma CommandCanBeLost(page: Page, gpr: RegFile, fpr: RegFile, fpu: bool, csr: map<int, Word>, path: MW.ReadPath)
    requires DSCRATCH0 in csr && DSCRATCH1 in csr && MHARTID in csr && csr[MHARTID] == 0
    ensures var s := AboutToResume(page, gpr, fpr, fpu, csr, path);
            && Inv(s) && Allowed(s, COMMAND) && Allowed(Next(s, COMMAND), PAUSE)
            && Starts(s.dm, COMMAND.req) && !AC.Unsupported(StartedCommand(s, COMMAND.req))
            && Next(Next(s, COMMAND), PAUSE).dm.fsm != F.Go
            && Next(Next(s, COMMAND), PAUSE).dm.dmi == DC.Regs(ERR_NONE, false)
  {
    hide AC.Fields, AC.Unsupported, TargetsScratch, PageBase, CR.ResetRegs, Next, DC.AutoExec;
    var s := AboutToResume(page, gpr, fpr, fpu, csr, path);
    ResetCommand();
    WritesS0Word();
    CommandIsRun(s, COMMAND, PAUSE);
  }

  lemma WritesS0Word()
    ensures !AC.Unsupported(AC.Fields(WRITE_S0)) && !TargetsScratch(AC.Fields(WRITE_S0))
            && WritesS0(AC.Fields(WRITE_S0))
  {
  }
}
