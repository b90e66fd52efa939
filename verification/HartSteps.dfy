/** One step of the parked hart, place by place: the invariant is kept and the
    user's registers stay what they were. */
module HartSteps {
  import opened Words
  import opened Dmi
  import opened DebugRom
  import opened Hart
  import opened System
  import opened Protocol
  import F = CommandFsm
  import MW = MemWindow
  import AC = AbstractCommand
  import DM = DebugModule

  // ---- What a clock of the debug module may do beside the hart ----

  // The module's side of a cycle in which the hart stores nothing.
  predicate Evolves(d: DM.Dm, d': DM.Dm)
  {
    && DmOk(d')
    && d'.halted == d.halted
    && (d.fsm == F.Go || d.fsm == F.Exec ==> d'.fsm == d.fsm)
    && (d.fsm == F.Res ==> d'.fsm == if d.resuming then F.Idle else F.Res)
    && (d.fsm == F.Idle ==> d'.fsm != F.Exec && (d'.fsm != F.Idle ==> d.halted))
    && (DM.Busy(d) ==> d'.regs.command == d.regs.command)
    && (DM.Busy(d) ==> d'.regs.data == d.regs.data && d'.regs.progbuf == d.regs.progbuf)
    && !(d'.fsm == F.Res && d'.resuming)
  }

  predicate Stores(st: MW.Strobe)
  {
    st == MW.WriteHalted || st == MW.WriteGoing || st == MW.WriteResuming || st == MW.WriteException
      || st == MW.WriteData
  }

  lemma QuietEvolves(d: DM.Dm, req: Option<Request>, b: MW.BusRequest)
    requires DmOk(d) && AllowedRequest(d, req) && !Stores(MW.DecodeBus(b))
    ensures Evolves(d, DM.Next(d, req, b))
  {
    hide MW.DecodeBus, DM.Next, DM.CommandOf, AC.Unsupported;
    RegsStep(d, req, b);
    FsmStep(d, req, b);
    DmStep(d, req, b);
  }

  // ---- Where a parked hart is, its instruction does not change under it ----

  predicate Unanswered(d: DM.Dm, off: Offset)
  {
    d.fsm == F.Res && d.resuming ==> off == 0x894
  }

  lemma FsmStaysAt(d: DM.Dm, d': DM.Dm, off: Offset, s0: Word)
    requires FsmAt(d.fsm, d.halted, off, s0) && Unanswered(d, off) && Evolves(d, d')
    ensures FsmAt(d'.fsm, d'.halted, off, s0)
  {
    hide DmOk, DM.CommandOf;
  }

  // Outside the generated code a place does not depend on the command.
  lemma HartAtAnyCommand(g: RegFile, csr: map<int, Word>, page: Page, off: Offset, c: AC.Command, data0: Word,
      c': AC.Command, data0': Word)
    requires HartAt(g, csr, page, off, c, data0) && off >= 0x360
    ensures HartAt(g, csr, page, off, c', data0')
  {
    hide AtCode, AtBaseCode, AtPoll, AtGoing, MW.CodeIndex;
  }

  // The module's clock does not move a waiting hart out of its place.
  lemma StaysLocated(h: Hart, page: Page, d: DM.Dm, d': DM.Dm)
    requires Located(h, page, d) && Unanswered(d, h.pc.off) && Evolves(d, d')
    ensures Located(h, page, d')
  {
    hide DmOk, AC.Fields, HartAt, S0Of;
    FsmStaysAt(d, d', h.pc.off, S0Of(h.gpr));
    if h.pc.off < 0x360 {
      assert d.fsm == F.Exec;
    } else {
      HartAtAnyCommand(h.gpr, h.csr, page, h.pc.off, DM.CommandOf(d), d.regs.data[0], DM.CommandOf(d'),
        d'.regs.data[0]);
    }
  }

  lemma InstructionStays(h: Hart, page: Page, d: DM.Dm, d': DM.Dm)
    requires Located(h, page, d) && Evolves(d, d')
    ensures InstructionAt(d', h.pc.off) == InstructionAt(d, h.pc.off)
  {
    hide AC.Unsupported, TargetsScratch;
    hide AC.Fields, AC.TargetOf, MW.CodeIndex, SignExtend, AC.CodeWord, RomWord;
  }

  // ---- Waiting and fetching ----

  predicate SameUserRegs(s: Sys, s': Sys)
  {
    && UserGpr(s'.hart, Off(s'), Cmd(s')) == UserGpr(s.hart, Off(s), Cmd(s))
    && s'.hart.fpr == s.hart.fpr
    && UserCsr(s'.hart.csr) == UserCsr(s.hart.csr)
  }

  lemma UserGprAnyCommand(h: Hart, off: Offset, c: AC.Command, c': AC.Command)
    requires off >= 0x360
    ensures UserGpr(h, off, c) == UserGpr(h, off, c')
  {
  }

  lemma WaitBus(s: Sys, m: Move)
    requires s.hart.mode == Parked && (m != Tick || s.hart.ir.None?)
    ensures !Stores(MW.DecodeBus(Bus(s, m)))
  {
  }

  // A parked hart that stalls or fetches.
  lemma WaitStep(s: Sys, i: Input)
    requires Inv(s) && Allowed(s, i) && s.hart.mode == Parked && (i.move != Tick || s.hart.ir.None?)
    ensures var s' := Next(s, i);
            && Inv(s') && SameUserRegs(s, s') && Evolves(s.dm, s'.dm)
            && s'.hart.mode == Parked && s'.hart.pc == s.hart.pc && s'.hart.gpr == s.hart.gpr
  {
    hide AC.Fields, AC.TargetOf, AC.Unsupported, DM.Next, HartAt, FsmAt, Bus, MW.DecodeBus, S0Saved, A0Saved;
    var b, s' := Bus(s, i.move), Next(s, i);
    WaitBus(s, i.move);
    QuietEvolves(s.dm, i.req, b);
    StaysLocated(s.hart, s.page, s.dm, s'.dm);
    InstructionStays(s.hart, s.page, s.dm, s'.dm);
    hide InstructionAt;
    CommandStays(s, s'.dm);
  }

  // The user's general registers do not change with a command the hart is not running.
  lemma CommandStays(s: Sys, d': DM.Dm)
    requires Located(s.hart, s.page, s.dm) && Evolves(s.dm, d')
    ensures UserGpr(s.hart, Off(s), DM.CommandOf(d')) == UserGpr(s.hart, Off(s), Cmd(s))
  {
    hide AC.Fields, HartAt, DmOk;
    if Off(s) >= 0x360 {
      UserGprAnyCommand(s.hart, Off(s), Cmd(s), DM.CommandOf(d'));
    } else {
      assert s.dm.fsm == F.Exec;
    }
  }
}
