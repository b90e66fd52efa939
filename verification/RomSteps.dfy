/** The parked hart executing the debug ROM, routine by routine. */
module RomSteps {
  import opened Words
  import opened DebugRom
  import opened Hart
  import opened System
  import opened Protocol
  import opened HartSteps
  import opened Isa
  import F = CommandFsm
  import MW = MemWindow
  import AC = AbstractCommand
  import DM = DebugModule

  // A parked hart about to execute what it fetched.
  predicate Executing(s: Sys, i: Input)
  {
    Inv(s) && Allowed(s, i) && s.hart.mode == Parked && i.move == Tick && s.hart.ir.Some?
  }

  function Current(s: Sys): Instr
    requires s.hart.ir.Some?
  {
    Decode(s.hart.ir.value)
  }

  lemma RomInstruction(s: Sys, i: Input)
    requires Executing(s, i) && 0x800 <= Off(s) < 0x8a0
    ensures Current(s) == Listing(Off(s))
  {
    hide Decode, Listing, RomWord, HartAt, FsmAt;
    ImageIsListing(Off(s));
  }

  // The hart ends up in a place again.
  predicate Lands(h': Hart, page: Page, d: DM.Dm)
  {
    Located(h', page, d) && h'.mode == Parked && h'.ir.None? && HartOk(h')
  }

  // It lands, and the user's registers are where its new place says they are.
  predicate Settles(h: Hart, h': Hart, page: Page, d: DM.Dm)
  {
    var c := DM.CommandOf(d);
    && Lands(h', page, d)
    && UserGpr(h', h'.pc.off, c) == UserGpr(h, h.pc.off, c)
    && h'.fpr == h.fpr
    && UserCsr(h'.csr) == UserCsr(h.csr)
  }

  predicate Ready(h: Hart, page: Page, d: DM.Dm)
  {
    HartOk(h) && h.mode == Parked && Located(h, page, d)
    && (d.fsm == F.Exec ==> d.halted) && !d.regs.ndmreset
  }

  // ---- Arithmetic of the window ----

  lemma PcStep(page: Page, off: Offset)
    requires off < 0xff0
    ensures PcAdd(Pc(page, off), 4) == Pc(page, off + 4)
  {
  }

  // Where the jumps and branches of the module's code lead, on any page.
  function Distance(here: Offset, target: Offset): Word { (target as Word) - (here as Word) }

  lemma ToEntry(page: Page)
    ensures PcAdd(Pc(page, ENTRY), Distance(ENTRY, ENTRY_BODY)) == Pc(page, ENTRY_BODY)
  {
  }

  lemma ToResume(page: Page)
    ensures PcAdd(Pc(page, RESUME), Distance(RESUME, RESUME_BODY)) == Pc(page, RESUME_BODY)
  {
  }

  lemma ToException(page: Page)
    ensures PcAdd(Pc(page, EXCEPTION_VECTOR), Distance(EXCEPTION_VECTOR, EXCEPTION_BODY)) == Pc(page, EXCEPTION_BODY)
  {
  }

  lemma ToGoing(page: Page)
    ensures PcAdd(Pc(page, 0x844), Distance(0x844, GOING_BODY)) == Pc(page, GOING_BODY)
  {
  }

  lemma ToResumeVector(page: Page)
    ensures PcAdd(Pc(page, 0x858), Distance(0x858, RESUME)) == Pc(page, RESUME)
  {
  }

  lemma ToLoop(page: Page)
    ensures PcAdd(Pc(page, 0x85c), Distance(0x85c, ENTRY_LOOP)) == Pc(page, ENTRY_LOOP)
  {
  }

  lemma ToWhereto(page: Page)
    ensures PcAdd(Pc(page, 0x888), Distance(0x888, WHERETO)) == Pc(page, WHERETO)
  {
  }

  lemma ToCode(page: Page)
    ensures PcAdd(Pc(page, WHERETO), 0x38) == Pc(page, ABSTRACT)
  {
  }

  lemma ToProgram(page: Page)
    ensures PcAdd(Pc(page, WHERETO), 0x60) == Pc(page, PROGBUF)
  {
  }

  lemma VectorTargets(page: Page)
    ensures PcAdd(Pc(page, ENTRY), Distance(ENTRY, ENTRY_BODY)) == Pc(page, ENTRY_BODY)
    ensures PcAdd(Pc(page, RESUME), Distance(RESUME, RESUME_BODY)) == Pc(page, RESUME_BODY)
    ensures PcAdd(Pc(page, EXCEPTION_VECTOR), Distance(EXCEPTION_VECTOR, EXCEPTION_BODY)) == Pc(page, EXCEPTION_BODY)
  {
    hide PcAdd, Distance;
    ToEntry(page);
    ToResume(page);
    ToException(page);
  }

  lemma PollTargets(page: Page)
    ensures PcAdd(Pc(page, 0x844), Distance(0x844, GOING_BODY)) == Pc(page, GOING_BODY)
    ensures PcAdd(Pc(page, 0x858), Distance(0x858, RESUME)) == Pc(page, RESUME)
    ensures PcAdd(Pc(page, 0x85c), Distance(0x85c, ENTRY_LOOP)) == Pc(page, ENTRY_LOOP)
  {
    hide PcAdd, Distance;
    ToGoing(page);
    ToResumeVector(page);
    ToLoop(page);
  }

  lemma WheretoTargets(page: Page)
    ensures PcAdd(Pc(page, 0x888), Distance(0x888, WHERETO)) == Pc(page, WHERETO)
    ensures PcAdd(Pc(page, WHERETO), 0x38) == Pc(page, ABSTRACT)
    ensures PcAdd(Pc(page, WHERETO), 0x60) == Pc(page, PROGBUF)
  {
    hide PcAdd, Distance;
    ToWhereto(page);
    ToCode(page);
    ToProgram(page);
  }

  // auipc, srli and slli turn any address in the window into its base.
  lemma BaseArithmetic(page: Page, off: Offset)
    ensures Sum(Addr(Pc(page, off)), 0) == Addr(Pc(page, off))
    ensures ShiftRight(Addr(Pc(page, off)), 12) == PageWord(page)
    ensures ShiftLeft(PageWord(page), 12) == PageBase(page)
  {
    AddressToPage(page, off);
    PageToBase(page);
    hide PageWord, PageBase, ShiftLeft, ShiftRight, Addr;
  }

  lemma AddressToPage(page: Page, off: Offset)
    ensures ShiftRight(Addr(Pc(page, off)), 12) == PageWord(page)
  {
  }

  lemma PageToBase(page: Page)
    ensures ShiftLeft(PageWord(page), 12) == PageBase(page)
  {
  }

  lemma WindowAddress(page: Page, off: Offset)
    ensures OffsetOf(Sum(PageBase(page), off as Word)) == off
    ensures At(Sum(PageBase(page), off as Word)) == (off & 3) as bv2
    ensures Sum(0, PageBase(page)) == PageBase(page)
  {
  }

  lemma ScratchInvisible(csr: map<int, Word>, a: int, v: Word)
    requires a == DSCRATCH0 || a == DSCRATCH1
    ensures UserCsr(csr[a := v]) == UserCsr(csr)
  {
  }

  // ---- Instructions that store nothing ----

  // The jumps at the three entry points.
  lemma VectorStep(h: Hart, page: Page, d: DM.Dm, word: Word)
    requires Ready(h, page, d) && 0x800 <= h.pc.off < 0x818
    ensures Settles(h, Execute(h, Vectors(h.pc.off), page, word), page, d)
  {
    hide AC.Fields, AC.TargetOf, AtCode, UserCsr, PcAdd, Addr, PageBase, PageWord, Sum, ShiftLeft, ShiftRight;
    VectorTargets(page);
  }

  lemma SaveStep(h: Hart, page: Page, d: DM.Dm, word: Word)
    requires Ready(h, page, d) && 0x818 <= h.pc.off < 0x824
    ensures Settles(h, Execute(h, EntryCode(h.pc.off), page, word), page, d)
  {
    hide AC.Fields, AC.TargetOf, AtCode, UserCsr, PcAdd, Addr, PageBase, PageWord, Sum, ShiftLeft, ShiftRight;
    PcStep(page, h.pc.off);
    ScratchInvisible(h.csr, DSCRATCH0, S0Of(h.gpr));
    ScratchInvisible(h.csr, DSCRATCH1, A0Of(h.gpr));
  }

  lemma EntryBaseStep(h: Hart, page: Page, d: DM.Dm, word: Word)
    requires Ready(h, page, d) && 0x824 <= h.pc.off < 0x830
    ensures Settles(h, Execute(h, EntryCode(h.pc.off), page, word), page, d)
  {
    hide AC.Fields, AC.TargetOf, AtCode, UserCsr, PcAdd, Addr, PageBase, PageWord, Sum, ShiftLeft, ShiftRight;
    PcStep(page, h.pc.off);
    BaseArithmetic(page, 0x824);
  }

  lemma ExceptionBaseStep(h: Hart, page: Page, d: DM.Dm, word: Word)
    requires Ready(h, page, d) && 0x860 <= h.pc.off < 0x86c
    ensures Settles(h, Execute(h, ExceptionCode(h.pc.off), page, word), page, d)
  {
    hide AC.Fields, AC.TargetOf, AtCode, UserCsr, PcAdd, Addr, PageBase, PageWord, Sum, ShiftLeft, ShiftRight;
    PcStep(page, h.pc.off);
    BaseArithmetic(page, 0x860);
  }

  lemma ExceptionRestoreStep(h: Hart, page: Page, d: DM.Dm, word: Word)
    requires Ready(h, page, d) && 0x870 <= h.pc.off < 0x87c
    ensures Settles(h, Execute(h, ExceptionCode(h.pc.off), page, word), page, d)
  {
    hide AC.Fields, AC.TargetOf, AtCode, UserCsr, PcAdd, Addr, PageBase, PageWord, Sum, ShiftLeft, ShiftRight;
    PcStep(page, h.pc.off);
  }

  // A flag byte, loaded, says what the state machine offers.
  lemma FlagBits(d: DM.Dm)
    requires !d.regs.ndmreset
    ensures var s0 := Loaded(4, MW.FlatWord(DM.ViewOf(d), FLAGS), 0);
            (s0 & 1 != 0 <==> d.fsm == F.Go) && (s0 & 2 != 0 <==> d.fsm == F.Res)
  {
    hide AC.Fields;
  }

  lemma PollGoStep(h: Hart, page: Page, d: DM.Dm, word: Word)
    requires Ready(h, page, d) && 0x838 <= h.pc.off < 0x848
    requires h.pc.off == 0x83c ==> word == MW.FlatWord(DM.ViewOf(d), FLAGS)
    ensures Settles(h, Execute(h, PollGoCode(h.pc.off), page, word), page, d)
  {
    hide AC.Fields, AC.TargetOf, AtCode, UserCsr, PcAdd, Addr, PageBase, PageWord, Sum, ShiftLeft, ShiftRight;
    hide MW.FlatWord, DM.ViewOf, Loaded;
    PcStep(page, h.pc.off);
    PollTargets(page);
    WindowAddress(page, FLAGS);
    FlagBits(d);
  }

  lemma PollResumeStep(h: Hart, page: Page, d: DM.Dm, word: Word)
    requires Ready(h, page, d) && 0x848 <= h.pc.off < 0x854
    requires h.pc.off == 0x850 ==> word == MW.FlatWord(DM.ViewOf(d), FLAGS)
    ensures Settles(h, Execute(h, PollResumeCode(h.pc.off), page, word), page, d)
  {
    hide AC.Fields, AC.TargetOf, AtCode, UserCsr, PcAdd, Addr, PageBase, PageWord, Sum, ShiftLeft, ShiftRight;
    hide MW.FlatWord, DM.ViewOf, Loaded;
    PcStep(page, h.pc.off);
    WindowAddress(page, FLAGS);
    FlagBits(d);
  }

  lemma PollEndStep(h: Hart, page: Page, d: DM.Dm, word: Word)
    requires Ready(h, page, d) && 0x854 <= h.pc.off < 0x860
    ensures Settles(h, Execute(h, PollResumeCode(h.pc.off), page, word), page, d)
  {
    hide AC.Fields, AC.TargetOf, AtCode, UserCsr, PcAdd, Addr, PageBase, PageWord, Sum, ShiftLeft, ShiftRight;
    hide MW.FlatWord, DM.ViewOf, Loaded;
    PcStep(page, h.pc.off);
    PollTargets(page);
  }

  lemma PollStartStep(h: Hart, page: Page, d: DM.Dm, word: Word)
    requires Ready(h, page, d) && h.pc.off == 0x830
    ensures Settles(h, Execute(h, PollGoCode(0x830), page, word), page, d)
  {
    hide AC.Fields, AC.TargetOf, AtCode, UserCsr, PcAdd, Addr, PageBase, PageWord, Sum, ShiftLeft, ShiftRight;
    PcStep(page, h.pc.off);
  }

  lemma GoingStep(h: Hart, page: Page, d: DM.Dm, word: Word)
    requires Ready(h, page, d) && 0x880 <= h.pc.off < 0x88c
    ensures Settles(h, Execute(h, GoingCode(h.pc.off), page, word), page, d)
  {
    hide AC.Fields, AC.TargetOf, AtCode, UserCsr, PcAdd, Addr, PageBase, PageWord, Sum, ShiftLeft, ShiftRight;
    PcStep(page, h.pc.off);
    WheretoTargets(page);
  }

  lemma ResumeStep(h: Hart, page: Page, d: DM.Dm, word: Word)
    requires Ready(h, page, d) && 0x88c <= h.pc.off < 0x89c && h.pc.off != 0x890
    ensures Settles(h, Execute(h, ResumeCode(h.pc.off), page, word), page, d)
  {
    hide AC.Fields, AC.TargetOf, AtCode, UserCsr, PcAdd, Addr, PageBase, PageWord, Sum, ShiftLeft, ShiftRight;
    PcStep(page, h.pc.off);
  }

  // ---- The same, as steps of the system ----

  // The word a load of the parked hart gets.
  function LoadedWord(s: Sys): Word
    requires s.hart.ir.Some?
  {
    MW.FlatWord(DM.ViewOf(s.dm), OffsetOf(DataAccess(s.hart, Current(s)).addr))
  }

  predicate StoresNothing(off: Offset)
  {
    off != 0x834 && off != 0x86c && off != 0x87c && off != 0x890
  }

  lemma FlagLoad(h: Hart, page: Page, d: DM.Dm)
    requires Ready(h, page, d) && (h.pc.off == 0x83c || h.pc.off == 0x850)
    ensures OffsetOf(DataAccess(h, Listing(h.pc.off)).addr) == FLAGS
  {
    hide AC.Fields, UserCsr, FsmAt, PcAdd, Addr, PageBase, Sum;
    WindowAddress(page, FLAGS);
  }

  lemma RomSettles(h: Hart, page: Page, d: DM.Dm, word: Word)
    requires Ready(h, page, d) && 0x800 <= h.pc.off < 0x89c && StoresNothing(h.pc.off)
    requires word == MW.FlatWord(DM.ViewOf(d), OffsetOf(DataAccess(h, Listing(h.pc.off)).addr))
    ensures Settles(h, Execute(h, Listing(h.pc.off), page, word), page, d)
  {
    hide Ready, Settles, Execute, DataAccess, MW.FlatWord;
    hide Vectors, EntryCode, PollGoCode, PollResumeCode, ExceptionCode, GoingCode, ResumeCode;
    var off := h.pc.off;
    if off == 0x83c || off == 0x850 { FlagLoad(h, page, d); }
    OffsetsAreWords(h, page, d);
    if off < 0x818 { VectorStep(h, page, d, word); }
    else if off < 0x824 { SaveStep(h, page, d, word); }
    else if off < 0x830 { EntryBaseStep(h, page, d, word); }
    else if off < 0x834 { PollStartStep(h, page, d, word); }
    else if off < 0x848 { PollGoStep(h, page, d, word); }
    else if off < 0x854 { PollResumeStep(h, page, d, word); }
    else if off < 0x860 { PollEndStep(h, page, d, word); }
    else if off < 0x86c { ExceptionBaseStep(h, page, d, word); }
    else if off < 0x87c { ExceptionRestoreStep(h, page, d, word); }
    else if off < 0x88c { GoingStep(h, page, d, word); }
    else { ResumeStep(h, page, d, word); }
  }

  lemma OffsetsAreWords(h: Hart, page: Page, d: DM.Dm)
    requires Ready(h, page, d)
    ensures h.pc.off & 3 == 0
  {
    hide HartAt, FsmAt;
  }

  // An instruction that stores nothing and lands on a known place.
  lemma LiftLanding(s: Sys, i: Input)
    requires Executing(s, i) && !Stores(MW.DecodeBus(Bus(s, Tick)))
    requires Lands(Execute(s.hart, Current(s), s.page, LoadedWord(s)), s.page, s.dm)
    ensures var s' := Next(s, i);
            && Inv(s') && Evolves(s.dm, s'.dm)
            && s'.hart == Execute(s.hart, Current(s), s.page, LoadedWord(s))
            && UserGpr(s'.hart, Off(s'), Cmd(s')) == UserGpr(s'.hart, Off(s'), Cmd(s))
  {
    hide AC.Fields, AC.TargetOf, AC.Unsupported, DM.Next, FsmAt, Bus, MW.DecodeBus, S0Saved, A0Saved, Execute;
    hide Decode, DataAccess, MW.FlatWord;
    hide AtCode, AtBaseCode, AtPoll, AtGoing;
    var h', s' := Execute(s.hart, Current(s), s.page, LoadedWord(s)), Next(s, i);
    assert Executed(s) == h';
    hide HartAt;
    QuietEvolves(s.dm, i.req, Bus(s, Tick));
    StaysLocated(h', s.page, s.dm, s'.dm);
    CommandStays(s.(hart := h'), s'.dm);
  }

  lemma OnlyStoresStore(h: Hart, ins: Instr)
    requires !ins.Store? && !ins.FloatStore?
    ensures !Stores(MW.DecodeBus(DataAccess(h, ins)))
  {
  }

  lemma RomStoresNothing(off: Offset)
    requires 0x800 <= off < 0x8a0 && off & 3 == 0 && StoresNothing(off)
    ensures !Listing(off).Store? && !Listing(off).FloatStore?
  {
  }

  // ---- The four stores of the ROM ----

  function Report(off: Offset): MW.Strobe
  {
    match off
    case 0x834 => MW.WriteHalted
    case 0x86c => MW.WriteException
    case 0x87c => MW.WriteGoing
    case _ => MW.WriteResuming
  }

  lemma ReportBus(h: Hart, page: Page, d: DM.Dm)
    requires Ready(h, page, d) && h.pc.off >= 0x800 && !StoresNothing(h.pc.off)
    ensures !Faults(h, Listing(h.pc.off))
    ensures MW.DecodeBus(DataAccess(h, Listing(h.pc.off))) == Report(h.pc.off)
  {
    hide AC.Fields, UserCsr, FsmAt, PcAdd, Addr, PageBase, Sum;
    WindowAddress(page, HALTED);
    WindowAddress(page, EXCEPTION);
    WindowAddress(page, GOING);
    WindowAddress(page, RESUMING);
  }

  // A report advances the hart; its registers stay where they are.
  lemma ReportAdvances(h: Hart, page: Page, d: DM.Dm, word: Word)
    requires Ready(h, page, d) && h.pc.off >= 0x800 && !StoresNothing(h.pc.off) && !Faults(h, Listing(h.pc.off))
    ensures var off := h.pc.off; Execute(h, Listing(off), page, word) == h.(pc := Pc(page, off + 4), ir := None)
  {
    hide AC.Fields, UserCsr, FsmAt, HartAt, PcAdd, Addr, PageBase, Sum, Faults;
    PcStep(page, h.pc.off);
  }

  // The place after a report holds what it needs.
  lemma ReportPlace(h: Hart, page: Page, d: DM.Dm, c: AC.Command, data0: Word)
    requires Ready(h, page, d) && h.pc.off >= 0x800 && !StoresNothing(h.pc.off)
    ensures var off := h.pc.off;
            HartAt(h.gpr, h.csr, page, off + 4, c, data0)
            && UserGpr(h.(pc := Pc(page, off + 4), ir := None), off + 4, c) == UserGpr(h, off, DM.CommandOf(d))
  {
    hide AC.Fields, AC.TargetOf, AtCode, UserCsr, PageBase, FsmAt;
  }

  lemma ReportFsm(h: Hart, page: Page, d: DM.Dm, d': DM.Dm, off: Offset)
    requires Ready(h, page, d) && h.pc.off == off && off >= 0x800 && !StoresNothing(off)
    requires d'.halted == (Report(off) == MW.WriteHalted || (d.halted && Report(off) != MW.WriteResuming))
    requires d.fsm == F.Go ==> d'.fsm == if Report(off) == MW.WriteGoing then F.Exec else F.Go
    requires d.fsm == F.Exec ==> d'.fsm == if Report(off) == MW.WriteHalted then F.Idle else F.Exec
    requires d.fsm == F.Res ==> !d.resuming && d'.fsm == F.Res
    requires d.fsm == F.Idle ==> d'.fsm != F.Exec && (d'.fsm != F.Idle ==> d.halted)
    ensures FsmAt(d'.fsm, d'.halted, off + 4, S0Of(h.gpr))
  {
    hide AC.Fields, HartAt;
  }

  lemma ReportStep(s: Sys, i: Input)
    requires Executing(s, i) && 0x800 <= Off(s) < 0x8a0 && !StoresNothing(Off(s))
    ensures Inv(Next(s, i)) && SameUserRegs(s, Next(s, i))
    ensures Next(s, i).hart == s.hart.(pc := Pc(s.page, Off(s) + 4), ir := None)
    ensures MW.DecodeBus(Bus(s, Tick)) == Report(Off(s))
  {
    hide AC.Fields, AC.TargetOf, AC.Unsupported, DM.Next, MW.DecodeBus, Execute, Decode, Listing, DataAccess;
    hide MW.FlatWord, HartAt, FsmAt;
    hide Faults, S0Saved, A0Saved;
    var s', off := Next(s, i), Off(s);
    RomInstruction(s, i);
    ReportBus(s.hart, s.page, s.dm);
    ReportAdvances(s.hart, s.page, s.dm, LoadedWord(s));
    if off == 0x890 { ResumingRes(s); }
    DmStep(s.dm, i.req, Bus(s, Tick));
    FsmStep(s.dm, i.req, Bus(s, Tick));
    ReportPlace(s.hart, s.page, s.dm, Cmd(s'), s'.dm.regs.data[0]);
    ReportFsm(s.hart, s.page, s.dm, s'.dm, off);
  }

  lemma ResumingRes(s: Sys)
    requires Inv(s) && s.hart.mode == Parked && Off(s) == 0x890
    ensures s.dm.fsm == F.Res
  {
    hide AC.Fields, HartAt;
  }

  // dret: the hart runs user code again, with the user's registers.
  lemma DretStep(s: Sys, i: Input)
    requires Executing(s, i) && Off(s) == 0x89c
    ensures Inv(Next(s, i)) && SameUserRegs(s, Next(s, i)) && Next(s, i).hart.mode == Running
  {
    hide AC.Fields, AC.TargetOf, AC.Unsupported, DM.Next, MW.DecodeBus, Decode, MW.FlatWord, HartAt, PcOf, DataAccess;
    RomInstruction(s, i);
    OnlyStoresStore(s.hart, Current(s));
    QuietEvolves(s.dm, i.req, Bus(s, Tick));
  }

  // ---- Where each quiet instruction of the ROM leads ----

  function RomNext(off: Offset, s0: Word): Offset
  {
    match off
    case 0x800 => ENTRY_BODY
    case 0x808 => RESUME_BODY
    case 0x810 => EXCEPTION_BODY
    case 0x844 => if s0 != 0 then GOING_BODY else 0x848
    case 0x858 => if s0 != 0 then RESUME else 0x85c
    case 0x85c => ENTRY_LOOP
    case 0x878 => ENTRY
    case 0x888 => WHERETO
    case _ => off + 4
  }

  predicate IsJump(off: Offset)
  {
    off == 0x800 || off == 0x808 || off == 0x810 || off == 0x844 || off == 0x858 || off == 0x85c || off == 0x878
      || off == 0x888
  }

  lemma VectorsLand(h: Hart, page: Page, d: DM.Dm, word: Word)
    requires Ready(h, page, d) && IsJump(h.pc.off) && h.pc.off < 0x818
    ensures Execute(h, Vectors(h.pc.off), page, word).pc.off == RomNext(h.pc.off, S0Of(h.gpr))
  {
    hide AC.Fields, HartAt, FsmAt, UserCsr, PcAdd, Addr, PageBase, Sum;
    VectorTargets(page);
  }

  lemma PollsLand(h: Hart, page: Page, d: DM.Dm, word: Word)
    requires Ready(h, page, d) && IsJump(h.pc.off) && 0x818 <= h.pc.off < 0x860
    ensures Execute(h, Listing(h.pc.off), page, word).pc.off == RomNext(h.pc.off, S0Of(h.gpr))
  {
    hide AC.Fields, HartAt, FsmAt, UserCsr, PcAdd, Addr, PageBase, Sum;
    PollTargets(page);
    PcStep(page, h.pc.off);
  }

  lemma ExitsLand(h: Hart, page: Page, d: DM.Dm, word: Word)
    requires Ready(h, page, d) && IsJump(h.pc.off) && h.pc.off >= 0x860
    ensures Execute(h, Listing(h.pc.off), page, word).pc.off == RomNext(h.pc.off, S0Of(h.gpr))
  {
    hide AC.Fields, HartAt, FsmAt, UserCsr, PcAdd, Addr, PageBase, Sum;
    WheretoTargets(page);
  }

  lemma JumpsLand(h: Hart, page: Page, d: DM.Dm, word: Word)
    requires Ready(h, page, d) && IsJump(h.pc.off)
    ensures Execute(h, Listing(h.pc.off), page, word).pc.off == RomNext(h.pc.off, S0Of(h.gpr))
  {
    hide Ready, Execute, RomNext, IsJump, Vectors, PollGoCode, PollResumeCode, ExceptionCode, GoingCode;
    if h.pc.off < 0x818 { VectorsLand(h, page, d, word); }
    else if h.pc.off < 0x860 { PollsLand(h, page, d, word); }
    else { ExitsLand(h, page, d, word); }
  }

  lemma StraightAdvances(h: Hart, ins: Instr, page: Page, word: Word)
    requires !Faults(h, ins) && !ins.Jal? && !ins.Branch? && !ins.Ebreak? && !ins.Dret?
    ensures Execute(h, ins, page, word).pc == PcAdd(h.pc, 4)
  {
    hide Faults, PcAdd, Addr, Sum, ShiftLeft, ShiftRight, BitAnd, Loaded, CsrOr0, Address, PcOf, At, Set, Get;
  }

  lemma NeverFaults(h: Hart, off: Offset)
    requires HartOk(h) && 0x800 <= off < 0x89c && off & 3 == 0 && StoresNothing(off)
    ensures !Faults(h, Listing(off))
    ensures var ins := Listing(off); !IsJump(off) ==> !ins.Jal? && !ins.Branch? && !ins.Ebreak? && !ins.Dret?
  {
    hide Sum;
  }

  lemma OthersAdvance(h: Hart, page: Page, d: DM.Dm, word: Word)
    requires Ready(h, page, d) && 0x800 <= h.pc.off < 0x89c && !IsJump(h.pc.off) && StoresNothing(h.pc.off)
    ensures Execute(h, Listing(h.pc.off), page, word).pc.off == h.pc.off + 4
  {
    hide AC.Fields, HartAt, FsmAt, PcAdd, Execute, Faults, Listing, IsJump, StoresNothing;
    NeverFaults(h, h.pc.off);
    StraightAdvances(h, Listing(h.pc.off), page, word);
    PcStep(page, h.pc.off);
  }

  // The quiet instructions of the ROM, as steps of the system.
  lemma RomStep(s: Sys, i: Input)
    requires Executing(s, i) && 0x800 <= Off(s) < 0x89c && StoresNothing(Off(s))
    ensures var s' := Next(s, i);
            && Inv(s') && SameUserRegs(s, s') && Evolves(s.dm, s'.dm)
            && s'.hart == Execute(s.hart, Listing(Off(s)), s.page, LoadedWord(s))
            && Off(s') == RomNext(Off(s), S0Of(s.hart.gpr)) && s'.hart.mode == Parked && s'.hart.ir.None?
  {
    hide AC.Fields, AC.TargetOf, AC.Unsupported, Next, MW.DecodeBus, Execute, Decode, Listing, DataAccess;
    hide MW.FlatWord, HartAt, FsmAt, Located;
    RomInstruction(s, i);
    OffsetsAreWords(s.hart, s.page, s.dm);
    RomStoresNothing(Off(s));
    OnlyStoresStore(s.hart, Current(s));
    RomSettles(s.hart, s.page, s.dm, LoadedWord(s));
    LiftLanding(s, i);
    if IsJump(Off(s)) { JumpsLand(s.hart, s.page, s.dm, LoadedWord(s)); }
      else { OthersAdvance(s.hart, s.page, s.dm, LoadedWord(s)); }
  }
}
