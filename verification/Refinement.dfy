/** A parked hart and its debug module refine a machine with no code, no scratch
    registers and no handshake: the user's state, changed by whole register
    accesses and by the debugger's writes of the data registers. */
module Refinement {
  import opened Words
  import opened Dmi
  import opened DebugRom
  import opened Hart
  import opened System
  import opened Protocol
  import opened HartSteps
  import opened RomSteps
  import opened CodeSteps
  import opened CommandSteps
  import opened Atomicity
  import opened Commands
  import Isa
  import F = CommandFsm
  import CR = ControlRegs
  import MW = MemWindow
  import AC = AbstractCommand
  import DM = DebugModule

  // The user's state, and the s0 and a0 that a fault in the program buffer brings back.
  datatype Machine = Machine(user: User, s0: Word, a0: Word)

  // What the hart visibly does in a cycle. User code and program-buffer code are any
  // code; the latter may also write the saved pair.
  datatype HartEvent =
    | Nothing
    | Accesses(c: AC.Command)
    | Enters(c: AC.Command)
    | Halts(dpc: Word, dcsr: Word)
    | UserRuns(gpr: RegFile, fpr: RegFile, csr: map<int, Word>)
    | ProgramRuns(gpr: RegFile, fpr: RegFile, csr: map<int, Word>, bus: MW.BusRequest)
    | ProgramTraps

  // Beside it, the debugger's write of the data registers or the program buffer.
  datatype Event = Event(hart: HartEvent, req: Option<Request>)

  // A command keeps the s0 it found; a program buffer that it enters saves s0 and a0,
  // but for the s0 that the command itself has just written.
  function HartEffect(m: Machine, e: HartEvent, fpu: bool): Machine
  {
    var u := m.user;
    match e
    case Nothing => m
    case Accesses(c) => m.(user := Access(c, fpu, u), s0 := u.gpr[Isa.S0 as int])
    case Enters(c) => Machine(u, if WritesS0(c) then m.s0 else u.gpr[Isa.S0 as int], u.gpr[Isa.A0 as int])
    case Halts(dpc, dcsr) =>
      m.(user := u.(csr := u.csr[Isa.CSR_DCSR as int := dcsr][Isa.CSR_DPC as int := dpc]))
    case UserRuns(gpr, fpr, csr) => m.(user := u.(gpr := gpr, fpr := fpr, csr := UserCsr(csr)))
    case ProgramRuns(gpr, fpr, csr, b) =>
      var data := if MW.DecodeBus(b) == MW.WriteData then MW.Stored(u.data, b.addr, b.be, b.wdata) else u.data;
      Machine(u.(gpr := gpr, fpr := fpr, csr := UserCsr(csr), data := data), CsrOr0(csr, DSCRATCH0),
        CsrOr0(csr, DSCRATCH1))
    case ProgramTraps => m.(user := u.(gpr := u.gpr[Isa.S0 as int := m.s0][Isa.A0 as int := m.a0]))
  }

  function Effect(m: Machine, e: Event, fpu: bool): Machine
  {
    var m' := HartEffect(m, e.hart, fpu);
    m'.(user := Written(m'.user, e.req))
  }

  // In the module's own code the hart is visible only where it makes an access, and
  // where it leaves for the program buffer.
  function HartEventOf(s: Sys, i: Input): HartEvent
  {
    var m := i.move;
    match s.hart.mode
    case Running =>
      if m.EnterDebug? then Halts(m.dpc, m.dcsr)
      else if m.UserStep? then UserRuns(m.gpr, m.fpr, m.csr)
      else Nothing
    case Parked =>
      if m != Tick then Nothing
      else if Commits(s) then Accesses(Cmd(s))
      else if EntersProgram(s) then Enters(Cmd(s))
      else Nothing
    case Program =>
      if m.ProgramStep? then ProgramRuns(m.gpr, m.fpr, m.csr, m.bus)
      else if m == ProgramFault then ProgramTraps
      else Nothing
  }

  // A debugger's write is visible while the module is not busy.
  function EventOf(s: Sys, i: Input): Event
  {
    Event(HartEventOf(s, i), if DM.Busy(s.dm) then None else i.req)
  }

  // ---- Where the saved pair is kept ----

  // In the generated code, past the write of s0.
  predicate PastWriteOfS0(s: Sys)
  {
    s.dm.fsm == F.Exec && s.hart.mode == Parked && 0x34c <= Off(s) < 0x360 && WritesS0(Cmd(s))
  }

  function Scratch0(s: Sys): Word { CsrOr0(s.hart.csr, DSCRATCH0) }
  function Scratch1(s: Sys): Word { CsrOr0(s.hart.csr, DSCRATCH1) }

  predicate Pairs(s: Sys, m: Machine)
  {
    && (PastWriteOfS0(s) ==> Scratch0(s) == m.s0)
    && (s.hart.mode == Program ==> Scratch0(s) == m.s0 && Scratch1(s) == m.a0)
  }

  predicate Matches(s: Sys, m: Machine) { m.user == UserOf(s) && Pairs(s, m) }

  // The machine at the start of a run.
  function MachineOf(s: Sys): Machine { Machine(UserOf(s), Scratch0(s), Scratch1(s)) }

  lemma ReportKeepsUser(s: Sys, i: Input)
    requires Executing(s, i) && RunsCommand(s.dm) && 0x800 <= Off(s) < 0x8a0 && !StoresNothing(Off(s))
    ensures UserOf(Next(s, i)) == UserOf(s)
  {
    hide AC.Fields, AC.TargetOf, AC.Unsupported, DM.Next, HartAt, Located, Isa.Decode, MW.DecodeBus, Bus;
    hide MW.FlatWord, S0Saved, A0Saved, Executed;
    ReportStep(s, i);
    InvDmOk(s);
    RegsStep(s.dm, i.req, Bus(s, Tick));
    hide Inv;
  }

  // A cycle of a running command changes the user's state only at the access.
  lemma RunningRefines(s: Sys, i: Input)
    requires Inv(s) && Allowed(s, i) && RunsCommand(s.dm) && s.hart.mode == Parked
    ensures UserOf(Next(s, i)) == if i.move == Tick && Commits(s) then Access(Cmd(s), s.hart.fpu, UserOf(s))
            else UserOf(s)
  {
    hide AC.Fields, AC.TargetOf, Next, Located, UserOf, SameUserRegs, Evolves, Isa.Decode, Faults, HartAt;
    hide FsmAt, Execute, Access;
    if i.move != Tick || s.hart.ir.None? { WaitKeepsUser(s, i); }
    else if Off(s) >= 0x800 {
      InRom(s);
      NotDret(s);
      if StoresNothing(Off(s)) { RomStep(s, i); QuietKeepsUser(s, i); } else { ReportKeepsUser(s, i); }
    } else {
      BelowRom(s);
      InExec(s);
      if Commits(s) { CommitStep(s, i); }
      else {
        if EntersProgram(s) { EnterProgramStep(s, i); }
        else if Off(s) == WHERETO { WheretoStep(s, i); }
        else { CodeStep(s, i); }
        QuietKeepsUser(s, i);
      }
    }
  }

  // A cycle between commands, with or without a resume under way.
  lemma IdleRefines(s: Sys, i: Input)
    requires Inv(s) && Allowed(s, i) && !RunsCommand(s.dm) && s.hart.mode == Parked
    ensures UserOf(Next(s, i)) == Written(UserOf(s), if DM.Busy(s.dm) then None else i.req)
    ensures !Commits(s) && !EntersProgram(s)
  {
    hide AC.Fields, DM.Next, HartAt, Located, MW.FlatWord, MW.DecodeBus, Bus, UserGpr, UserCsr, NextHart;
    PlaceOf(s);
    if s.dm.fsm == F.Idle { IdleUser(s, i); }
    else {
      InvDmOk(s);
      IdleStep(s, i);
      RegsStep(s.dm, i.req, Bus(s, i.move));
    }
    hide Inv;
  }

  // The data registers and the program buffer while the hart itself stores nothing.
  lemma DataRefines(d: DM.Dm, req: Option<Request>, b: MW.BusRequest)
    requires DmOk(d) && AllowedRequest(d, req) && MW.DecodeBus(b) != MW.WriteData
    ensures var d', r := DM.Next(d, req, b), if DM.Busy(d) then None else req;
            d'.regs.data == WrittenData(d.regs.data, r) && d'.regs.progbuf == WrittenProgbuf(d.regs.progbuf, r)
  {
    hide AC.Fields, MW.DecodeBus, DM.Next;
    if DM.Busy(d) { RegsStep(d, req, b); } else { IdleData(d, req, b); }
  }

  lemma HaltKeepsScratch(csr: map<int, Word>, m: Move)
    requires m.EnterDebug?
    ensures UserCsr(HaltCsrs(csr, m)) == UserCsr(csr)[Isa.CSR_DCSR as int := m.dcsr][Isa.CSR_DPC as int := m.dpc]
  {
  }

  // A cycle of user code, or the halt that ends it.
  lemma UserCodeRefines(s: Sys, i: Input, m: Machine)
    requires Inv(s) && Allowed(s, i) && s.hart.mode == Running && m.user == UserOf(s)
    ensures UserOf(Next(s, i)) == Effect(m, EventOf(s, i), s.hart.fpu).user
  {
    hide AC.Fields, DM.Next, MW.DecodeBus, UserCsr, DM.Busy, HaltCsrs, Inv, WrittenData, WrittenProgbuf, AllowedMove;
    InvDmOk(s);
    QuietBus();
    DataRefines(s.dm, i.req, Bus(s, i.move));
    if i.move.EnterDebug? { HaltKeepsScratch(s.hart.csr, i.move); }
  }

  // A cycle of program-buffer code, with its store if it makes one, or its end.
  lemma ProgramRefines(s: Sys, i: Input, m: Machine)
    requires Inv(s) && Allowed(s, i) && s.hart.mode == Program && Matches(s, m)
    ensures UserOf(Next(s, i)) == Effect(m, EventOf(s, i), s.hart.fpu).user
  {
    hide AC.Fields, DM.Next, MW.DecodeBus, MW.Stored, UserCsr, WrittenData, WrittenProgbuf, Access;
    assert s.dm.fsm == F.Exec;
    InvDmOk(s);
    hide Inv, DmOk;
    QuietBus();
    NoWrite(UserOf(s));
    if MW.DecodeBus(Bus(s, i.move)) == MW.WriteData { DataStep(s.dm, i.req, Bus(s, i.move)); }
    else { DataRefines(s.dm, i.req, Bus(s, i.move)); }
  }

  lemma NoWrite(u: User)
    ensures forall data: CR.Data :: WrittenData(data, None) == data
    ensures WrittenProgbuf(u.progbuf, None) == u.progbuf
  {
  }

  lemma ParkedRefines(s: Sys, i: Input, m: Machine)
    requires Inv(s) && Allowed(s, i) && s.hart.mode == Parked && m.user == UserOf(s)
    ensures UserOf(Next(s, i)) == Effect(m, EventOf(s, i), s.hart.fpu).user
  {
    hide AC.Fields, Inv, Next, UserOf, Access, Commits, EntersProgram;
    if RunsCommand(s.dm) { RunningRefines(s, i); } else { IdleRefines(s, i); }
  }

  // ---- The pair in one step ----

  // The word that writes s0 leaves the copy of the old one alone.
  lemma WriteOfS0KeepsCopy(s: Sys, i: Input)
    requires Executing(s, i) && Commits(s) && WritesS0(Cmd(s))
    ensures Scratch0(Next(s, i)) == UserOf(s).gpr[Isa.S0 as int]
  {
    hide AC.Fields, AC.TargetOf, AC.Unsupported, DM.Next, Isa.Decode, HartAt, FsmAt, Located, MW.FlatWord, UserCsr;
    hide Bus, PcAdd, Loaded, Faults;
    CommitPlace(s, i);
  }

  // The words after it write no CSR.
  lemma RestKeepsCopy(s: Sys, i: Input)
    requires Executing(s, i) && PastWriteOfS0(s)
    ensures Next(s, i).hart.csr == s.hart.csr && !Commits(s)
  {
    hide AC.Fields, AC.TargetOf, AC.Unsupported, DM.Next, Isa.Decode, HartAt, FsmAt, Located, MW.FlatWord, UserCsr;
    hide Bus, PcAdd, AtCode, MW.CodeIndex;
    AtWordHere(s);
    WordOffset(Off(s));
    CodeInstruction(s, i);
  }

  // At both ways into the program buffer.
  lemma EntrySaves(s: Sys, i: Input)
    requires Executing(s, i) && EntersProgram(s)
    ensures Next(s, i).hart.csr == s.hart.csr
    ensures Scratch1(s) == UserOf(s).gpr[Isa.A0 as int]
    ensures if WritesS0(Cmd(s)) then PastWriteOfS0(s) else Scratch0(s) == UserOf(s).gpr[Isa.S0 as int]
  {
    hide AC.Fields, AC.TargetOf, AC.Unsupported, DM.Next, Isa.Decode, FsmAt, Bus, MW.FlatWord, UserCsr, Execute;
    InExec(s);
    EntryInstruction(s, i);
  }

  lemma RomLeadsOut(off: Offset, s0: Word)
    requires 0x800 <= off < 0x89c
    ensures !(0x34c <= RomNext(off, s0) < 0x360)
  {
  }

  lemma RomStaysOut(s: Sys, i: Input)
    requires Executing(s, i) && Off(s) >= 0x800
    ensures !PastWriteOfS0(Next(s, i)) && Next(s, i).hart.mode != Program
  {
    hide AC.Fields, Next, HartAt, Located, UserOf, SameUserRegs, Execute, Isa.Decode, DataAccess, Evolves, Inv;
    hide WritesS0, MW.DecodeBus, Bus, StoresNothing, RomNext, Listing, MW.FlatWord, Allowed, Report;
    InRom(s);
    if Off(s) == 0x89c { DretStep(s, i); }
    else if StoresNothing(Off(s)) { RomStep(s, i); RomLeadsOut(Off(s), S0Of(s.hart.gpr)); }
    else { ReportStep(s, i); }
  }

  // Every other step of a parked hart stays out of the code past the write of s0.
  lemma ParkedStaysOut(s: Sys, i: Input)
    requires Executing(s, i) && !PastWriteOfS0(s) && !Commits(s) && !EntersProgram(s)
    ensures !PastWriteOfS0(Next(s, i)) && Next(s, i).hart.mode != Program
  {
    hide AC.Fields, AC.TargetOf, AC.Unsupported, Next, HartAt, FsmAt, Located, UserOf, SameUserRegs, Execute;
    hide Isa.Decode;
    hide MW.FlatWord, Faults, DataAccess, Evolves, RomNext;
    if Off(s) >= 0x800 { RomStaysOut(s, i); }
    else {
      BelowRom(s);
      InExec(s);
      if Off(s) == WHERETO { WheretoStep(s, i); }
      else { AtWordHere(s); CodeStep(s, i); CodeNext(s, i); WordOffset(Off(s)); CodeCommand(s, i); }
    }
  }

  // A write of s0 is made in word 4, and word 4 of it does not fault.
  lemma CodeCommand(s: Sys, i: Input)
    requires Executing(s, i) && 0x338 <= Off(s) < 0x360 && !Commits(s) && !RunsOn(s)
    ensures Cmd(Next(s, i)) == Cmd(s)
    ensures WritesS0(Cmd(s)) && Off(s) == 0x348 ==> Faults(s.hart, Current(s))
  {
    hide AC.Fields, AC.TargetOf, AC.Unsupported, Next, HartAt, Located, Isa.Decode, Faults, UserOf, SameUserRegs;
    hide Execute, MW.FlatWord;
    InExec(s);
    CodeStep(s, i);
  }

  lemma WaitPairs(s: Sys, i: Input, m: Machine)
    requires Inv(s) && Allowed(s, i) && Pairs(s, m) && s.hart.mode == Parked && (i.move != Tick || s.hart.ir.None?)
    ensures Pairs(Next(s, i), m)
  {
    hide AC.Fields, AC.TargetOf, AC.Unsupported, DM.Next, HartAt, Located, MW.FlatWord, SameUserRegs, Bus;
    WaitStep(s, i);
    PlaceOf(s);
  }

  lemma ParkedPairs(s: Sys, i: Input, m: Machine)
    requires Executing(s, i) && Matches(s, m)
    ensures Pairs(Next(s, i), HartEffect(m, HartEventOf(s, i), s.hart.fpu))
  {
    hide AC.Fields, Inv, Next, UserOf, Access, WritesS0;
    if EntersProgram(s) { EntrySaves(s, i); EnterProgramStep(s, i); }
    else if PastWriteOfS0(s) { RestKeepsCopy(s, i); RestIsNoProgram(s, i); }
    else if Commits(s) {
      CommitStep(s, i);
      if WritesS0(Cmd(s)) { WriteOfS0KeepsCopy(s, i); }
    }
    else { ParkedStaysOut(s, i); }
  }

  lemma RestIsNoProgram(s: Sys, i: Input)
    requires Executing(s, i) && PastWriteOfS0(s) && !EntersProgram(s) && !Commits(s)
    ensures Next(s, i).hart.mode != Program
  {
    hide AC.Fields, Next, UserOf, HartAt, FsmAt;
    CodeStep(s, i);
  }

  lemma StepPairs(s: Sys, i: Input, m: Machine)
    requires Inv(s) && Allowed(s, i) && Matches(s, m)
    ensures Pairs(Next(s, i), Effect(m, EventOf(s, i), s.hart.fpu))
  {
    hide AC.Fields, Inv, DM.Next, UserOf, Access, WritesS0, Commits, EntersProgram, Executed, Written, HaltCsrs;
    hide MW.Stored;
    if s.hart.mode == Parked {
      if i.move == Tick && s.hart.ir.Some? { ParkedPairs(s, i, m); } else { WaitPairs(s, i, m); NoEvent(s, i); }
    }
  }

  lemma NoEvent(s: Sys, i: Input)
    requires s.hart.mode == Parked && (i.move != Tick || s.hart.ir.None?)
    ensures HartEventOf(s, i) == Nothing
  {
    hide AC.Fields, Faults;
  }

  lemma StepRefines(s: Sys, i: Input, m: Machine)
    requires Inv(s) && Allowed(s, i) && Matches(s, m)
    ensures Matches(Next(s, i), Effect(m, EventOf(s, i), s.hart.fpu))
  {
    hide Inv, Next, UserOf, Effect, EventOf, Pairs;
    StepPairs(s, i, m);
    match s.hart.mode
    case Running => UserCodeRefines(s, i, m);
    case Program => ProgramRefines(s, i, m);
    case Parked => ParkedRefines(s, i, m);
  }

  // ---- Over whole runs ----

  function Events(s: Sys, ins: seq<Input>): seq<Event>
    decreases |ins|
  {
    if ins == [] then [] else [EventOf(s, ins[0])] + Events(Next(s, ins[0]), ins[1..])
  }

  function Effects(m: Machine, es: seq<Event>, fpu: bool): Machine
    decreases |es|
  {
    if es == [] then m else Effects(Effect(m, es[0], fpu), es[1..], fpu)
  }

  // Over every run, through any number of halts, commands, program buffers, faults and
  // resumes, the user's state is what the visible events make of it, and the scratch
  // registers of a hart in the program buffer hold the saved pair.
  lemma {:induction false} RunRefines(s: Sys, m: Machine, ins: seq<Input>)
    requires Inv(s) && AllowedRun(s, ins) && Matches(s, m)
    ensures Matches(Run(s, ins), Effects(m, Events(s, ins), s.hart.fpu))
    decreases |ins|
  {
    hide Inv, Next, Matches, Effect, EventOf;
    if ins != [] {
      StepKeepsInv(s, ins[0]);
      StepRefines(s, ins[0], m);
      FpuStays(s, ins[0]);
      RunRefines(Next(s, ins[0]), Effect(m, EventOf(s, ins[0]), s.hart.fpu), ins[1..]);
      assert Events(s, ins)[1..] == Events(Next(s, ins[0]), ins[1..]);
    }
  }

  lemma {:induction false} AllowedPrefix(s: Sys, ins: seq<Input>, n: nat)
    requires AllowedRun(s, ins) && n <= |ins|
    ensures AllowedRun(s, ins[..n])
    decreases n
  {
    hide Next, Allowed;
    if n > 0 {
      AllowedPrefix(Next(s, ins[0]), ins[1..], n - 1);
      assert ins[..n][1..] == ins[1..][..n - 1];
    }
  }

  // Whenever the hart is outside the module's code, in user code or in the program
  // buffer, all 32 registers are the user's, in place, with every event so far.
  lemma ContextInPlace(s: Sys, ins: seq<Input>, n: nat)
    requires Inv(s) && AllowedRun(s, ins) && n <= |ins|
    ensures var e := Run(s, ins[..n]);
            e.hart.mode != Parked ==>
              e.hart.gpr == Effects(MachineOf(s), Events(s, ins[..n]), s.hart.fpu).user.gpr
  {
    hide Inv, Next, Effects, Events, AllowedRun, Run;
    AllowedPrefix(s, ins, n);
    RunRefines(s, MachineOf(s), ins[..n]);
  }
}
