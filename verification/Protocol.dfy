/** The joint invariant of hart and debug module: for every place the hart can be
    in the module's code, what its scratch registers hold and what state the
    command machine is in. */
module Protocol {
  import opened Words
  import opened Dmi
  import opened DebugRom
  import opened Hart
  import opened System
  import F = CommandFsm
  import CR = ControlRegs
  import MW = MemWindow
  import AC = AbstractCommand
  import DM = DebugModule
  import DC = DmiControl

  function S0Of(g: RegFile): Word { g[8] }
  function A0Of(g: RegFile): Word { g[10] }

  predicate HartOk(h: Hart)
  {
    DSCRATCH0 in h.csr && DSCRATCH1 in h.csr && MHARTID in h.csr && h.csr[MHARTID] == 0
  }

  predicate DmOk(d: DM.Dm)
  {
    && d.regs.dmactive && !d.regs.ndmreset
    && (d.fsm == F.Go || d.fsm == F.Exec ==> d.halted && !AC.Unsupported(DM.CommandOf(d)))
    && !TargetsScratch(DM.CommandOf(d))
    && (d.regs.resumereq && d.resuming ==> d.fsm == F.Res)
  }

  // ---- What the hart's registers hold ----

  predicate ScratchHoldsUser(g: RegFile, csr: map<int, Word>)
  {
    CsrOr0(csr, DSCRATCH0) == S0Of(g) && CsrOr0(csr, DSCRATCH1) == A0Of(g)
  }

  // _entry and _exception compute the base of the window in a0.
  predicate AtBaseCode(g: RegFile, page: Page, off: Offset)
  {
    && (off == 0x828 ==> A0Of(g) == Addr(Pc(page, 0x824)))
    && (off == 0x82c ==> A0Of(g) == PageWord(page))
    && (off == 0x864 ==> A0Of(g) == Addr(Pc(page, 0x860)))
    && (off == 0x868 ==> A0Of(g) == PageWord(page))
    && (off == 0x86c ==> A0Of(g) == PageBase(page))
  }

  // entry_loop works with the base in a0 and the hart number, zero, in s0.
  predicate AtPoll(g: RegFile, page: Page, off: Offset)
  {
    && A0Of(g) == PageBase(page)
    && (off == 0x834 || off == 0x838 || off == 0x84c ==> S0Of(g) == 0)
    && (off == 0x83c || off == 0x850 ==> S0Of(g) == PageBase(page))
  }

  predicate AtGoing(g: RegFile, csr: map<int, Word>, page: Page, off: Offset)
  {
    && (off == 0x87c ==> A0Of(g) == PageBase(page))
    && (off >= 0x884 ==> CsrOr0(csr, DSCRATCH1) == A0Of(g))
    && (off == 0x888 ==> CsrOr0(csr, DSCRATCH0) == S0Of(g))
  }

  // What s0 carries between the two halves of a move through it.
  function Borrowed(csr: map<int, Word>, c: AC.Command, data0: Word): Word
  {
    if c.write then SignExtend(data0, c.aarsize)
    else if AC.TargetOf(c.regno).Csr? then CsrOr0(csr, AC.TargetOf(c.regno).addr as int)
    else CsrOr0(csr, DSCRATCH1)
  }

  predicate Readable(csr: map<int, Word>, c: AC.Command)
  {
    AC.TargetOf(c.regno).Csr? && !c.write ==> AC.TargetOf(c.regno).addr as int in csr
  }

  // A write of s0 loads it without a copy.
  predicate WritesS0(c: AC.Command) { c.transfer && c.write && AC.TargetOf(c.regno) == AC.Gpr(8) }

  // The words at which dscratch0 still, or again, is a copy of s0.
  predicate CopiesS0(c: AC.Command, k: nat)
  {
    k <= 4 || (!WritesS0(c) && (k >= 8 || !AC.BorrowsS0(AC.TargetOf(c.regno))))
  }

  // Word k of the generated code. Whatever can fault finds the user's s0 and a0 in
  // the scratch registers.
  predicate AtCode(g: RegFile, csr: map<int, Word>, page: Page, c: AC.Command, data0: Word, k: nat)
  {
    && k < 10
    && (k > 0 ==> c.transfer)
    && (!c.transfer ==> !c.postexec)
    && (k == 0 ==> ScratchHoldsUser(g, csr))
    && (CopiesS0(c, k) ==> CsrOr0(csr, DSCRATCH0) == S0Of(g))
    && (k == 9 ==> CsrOr0(csr, DSCRATCH1) == A0Of(g))
    && (k == 2 ==> A0Of(g) == Addr(Pc(page, 0x33c)))
    && (k == 3 ==> A0Of(g) == PageWord(page))
    && (4 <= k <= 8 ==> A0Of(g) == PageBase(page))
    && (k == 6 && AC.BorrowsS0(AC.TargetOf(c.regno)) ==> S0Of(g) == Borrowed(csr, c, data0) && Readable(csr, c))
  }

  predicate HartAt(g: RegFile, csr: map<int, Word>, page: Page, off: Offset, c: AC.Command, data0: Word)
  {
    if off < 0x360 then
      if off < 0x338 then off == WHERETO && ScratchHoldsUser(g, csr)
      else AtCode(g, csr, page, c, data0, MW.CodeIndex(off))
    else if off < 0x818 then off == ENTRY || (off == RESUME && A0Of(g) == PageBase(page)) || off == EXCEPTION_VECTOR
    else if off < 0x830 then AtBaseCode(g, page, off)
    else if off < 0x860 then AtPoll(g, page, off)
    else if off < 0x87c then AtBaseCode(g, page, off)
    else if off < 0x88c then AtGoing(g, csr, page, off)
    else off < 0x8a0 && (off <= 0x890 ==> A0Of(g) == PageBase(page))
  }

  // ---- What state the command machine is in ----

  // No command runs and the hart is not reported halted.
  predicate Quiet(fsm: F.State, halted: bool)
  {
    !halted && (fsm == F.Idle || fsm == F.Res)
  }

  // Past its HALTED store: no command is still running, and a GO or RESUME flag
  // that has been read is not withdrawn before it is answered.
  predicate FsmAtPoll(fsm: F.State, halted: bool, off: Offset, s0: Word)
  {
    && halted && fsm != F.Exec
    && (off == 0x840 && s0 & 1 != 0 ==> fsm == F.Go)
    && (off == 0x844 && s0 != 0 ==> fsm == F.Go)
    && (off == 0x854 && s0 & 2 != 0 ==> fsm == F.Res)
    && (off == 0x858 && s0 != 0 ==> fsm == F.Res)
  }

  predicate FsmAt(fsm: F.State, halted: bool, off: Offset, s0: Word)
  {
    if off < 0x800 then fsm == F.Exec
    else if off < 0x818 then
      if off == ENTRY then fsm == F.Exec || Quiet(fsm, halted)
      else if off == RESUME then fsm == F.Res && halted
      else fsm == F.Exec
    else if off < 0x830 then fsm == F.Exec || Quiet(fsm, halted)
    else if off <= 0x834 then halted || Quiet(fsm, halted)
    else if off < 0x860 then FsmAtPoll(fsm, halted, off, s0)
    else if off < 0x87c then fsm == F.Exec
    else if off == 0x87c then fsm == F.Go
    else if off < 0x88c then fsm == F.Exec
    else if off <= 0x890 then fsm == F.Res && halted
    else Quiet(fsm, halted)
  }

  // Every place a parked hart can be.
  predicate Located(h: Hart, page: Page, d: DM.Dm)
  {
    var off := h.pc.off;
    && h.pc.page == page && off & 3 == 0
    && HartAt(h.gpr, h.csr, page, off, DM.CommandOf(d), d.regs.data[0])
    && FsmAt(d.fsm, d.halted, off, S0Of(h.gpr))
  }

  // The one place where the state machine has yet to notice the acknowledge.
  predicate JustResumed(h: Hart, off: Offset)
  {
    h.mode == Parked && off == 0x894 && h.ir.None?
  }

  predicate Inv(s: Sys)
  {
    && HartOk(s.hart)
    && DmOk(s.dm)
    && (s.dm.fsm == F.Res && s.dm.resuming ==> JustResumed(s.hart, Off(s)))
    && match s.hart.mode
       case Running => s.hart.ir.None? && Quiet(s.dm.fsm, s.dm.halted)
       case Program => s.hart.ir.None? && s.dm.fsm == F.Exec
       case Parked =>
         && Located(s.hart, s.page, s.dm)
         && (s.hart.ir.Some? ==> s.hart.ir.value == InstructionAt(s.dm, Off(s)))
  }

  // ---- One clock of the debug module ----

  // The register file while active: busy gating, and the command that cannot change
  // in the cycle in which it is taken.
  lemma RegsStep(d: DM.Dm, req: Option<Request>, b: MW.BusRequest)
    requires DmOk(d) && AllowedRequest(d, req)
    ensures var d' := DM.Next(d, req, b);
            && d'.regs.dmactive && !d'.regs.ndmreset
            && !TargetsScratch(DM.CommandOf(d'))
            && (DM.Busy(d) || d.dmi.cmdValid ==> d'.regs.command == d.regs.command)
            && (DM.Busy(d) ==> d'.regs.progbuf == d.regs.progbuf && d'.regs.autoData == d.regs.autoData)
            && (DM.Busy(d) && MW.DecodeBus(b) != MW.WriteData ==> d'.regs.data == d.regs.data)
  {
    hide AC.Fields, MW.DecodeBus, MW.Stored, MW.NextPath, F.Next, F.Out, DC.Next, CR.Next, CR.Written, TargetsScratch;
    hide CR.DmactiveField, CR.NdmresetField, CR.AutoDataField;
    CR.BusyGating(d.regs, DM.Busy(d), req, DM.StoredData(d, b), d.resuming);
  }

  // What a cycle does to the state machine and the flags.
  lemma FsmStep(d: DM.Dm, req: Option<Request>, b: MW.BusRequest)
    requires DmOk(d) && AllowedRequest(d, req)
    ensures var d', st := DM.Next(d, req, b), MW.DecodeBus(b);
            && d'.halted == (st == MW.WriteHalted || (d.halted && st != MW.WriteResuming))
            && (d'.resuming ==> st == MW.WriteResuming || d.resuming)
            && (d.fsm == F.Go ==> d'.fsm == if st == MW.WriteGoing then F.Exec else F.Go)
            && (d.fsm == F.Exec ==> d'.fsm == if st == MW.WriteHalted then F.Idle else F.Exec)
            && (d.fsm == F.Res ==> d'.fsm == if d.resuming then F.Idle else F.Res)
            && (d.fsm == F.Idle ==> d'.fsm != F.Exec && (d'.fsm != F.Idle ==> d.halted))
            && (d.fsm == F.Idle && d'.fsm == F.Go ==> d.dmi.cmdValid && !AC.Unsupported(DM.CommandOf(d)))
            && (d.fsm == F.Idle && d'.fsm == F.Res ==> !d.resuming)
  {
    hide AC.Fields, AC.Unsupported, AC.TargetOf, MW.DecodeBus, MW.Stored, MW.NextPath, CR.Next, DC.Next, CR.Written;
  }

  lemma ResumingStep(d: DM.Dm, req: Option<Request>, b: MW.BusRequest)
    requires DmOk(d)
    ensures DM.Next(d, req, b).resuming <==>
              (MW.DecodeBus(b) == MW.WriteResuming || d.resuming)
              && !(!d.regs.resumereq && WritesTo(req, DmControl) && CR.ResumereqField(req.value.data))
  {
    hide AC.Fields, AC.Unsupported, AC.TargetOf, MW.DecodeBus, MW.Stored, MW.NextPath, CR.Next, DC.Next, F.Next;
    hide F.Out, CR.ResumereqField;
    CR.RequestBits(d.regs, DM.Busy(d), req, None, d.resuming);
  }

  lemma RequestBitsAfter(d: DM.Dm, req: Option<Request>, b: MW.BusRequest)
    requires DmOk(d)
    ensures var r := DM.Next(d, req, b).regs;
            && r.haltreq == (if WritesTo(req, DmControl) then CR.HaltreqField(req.value.data) else d.regs.haltreq)
            && r.resumereq
               == ((if WritesTo(req, DmControl) then CR.ResumereqField(req.value.data) else d.regs.resumereq)
                               && !(d.regs.resumereq && d.resuming))
  {
    hide AC.Fields, AC.Unsupported, AC.TargetOf, MW.DecodeBus, MW.NextPath, CR.Next, F.Next, F.Out;
    hide CR.ResumereqField, CR.HaltreqField;
    CR.RequestBits(d.regs, DM.Busy(d), req, DM.StoredData(d, b), d.resuming);
  }

  // The module's own invariant is kept as long as the hart reports resuming only in
  // answer to a resume.
  lemma DmStep(d: DM.Dm, req: Option<Request>, b: MW.BusRequest)
    requires DmOk(d) && AllowedRequest(d, req)
    requires MW.DecodeBus(b) == MW.WriteResuming ==> d.fsm == F.Res
    ensures DmOk(DM.Next(d, req, b))
  {
    hide AC.Fields, AC.Unsupported, AC.TargetOf, MW.DecodeBus, DM.Next;
    RegsStep(d, req, b);
    FsmStep(d, req, b);
    ResumingStep(d, req, b);
    RequestBitsAfter(d, req, b);
  }
}
