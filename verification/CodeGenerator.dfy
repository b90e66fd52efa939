/** The generated code on its own: ten words, interpreted from any state of the
    hart, make the access of the command and nothing else. */
module CodeGenerator {
  import opened Words
  import opened DebugRom
  import opened Hart
  import opened Isa
  import opened Protocol
  import opened RomSteps
  import CM = CommandSteps
  import CS = CodeSteps
  import Sys = System
  import CR = ControlRegs
  import MW = MemWindow
  import AC = AbstractCommand

  // All that the code can touch.
  datatype Machine = Machine(hart: Hart, data: CR.Data)

  // The window with the current data registers.
  function Window(v: MW.View, m: Machine): MW.View { v.(data := m.data) }

  function Fetched(m: Machine, v: MW.View): Instr { Decode(MW.FlatWord(Window(v, m), m.hart.pc.off)) }

  // Fetch a word from the window and execute it, with its load or store.
  function Step(m: Machine, page: Page, v: MW.View): Machine
  {
    Perform(m, page, v, Fetched(m, v))
  }

  function Perform(m: Machine, page: Page, v: MW.View, ins: Instr): Machine
  {
    var b := DataAccess(m.hart, ins);
    Machine(Execute(m.hart, ins, page, MW.FlatWord(Window(v, m), OffsetOf(b.addr))),
            if MW.DecodeBus(b) == MW.WriteData then MW.Stored(m.data, b.addr, b.be, b.wdata) else m.data)
  }

  function Steps(m: Machine, page: Page, v: MW.View, n: nat): Machine
    decreases n
  {
    if n == 0 then m else Steps(Step(m, page, v), page, v, n - 1)
  }

  // The state as its user would name it.
  function UserOf(m: Machine, v: MW.View): Sys.User
  {
    Sys.User(m.hart.gpr, m.hart.fpr, Sys.UserCsr(m.hart.csr), m.data, v.progbuf)
  }

  // ---- The parts of the code ----

  predicate HasScratch(h: Hart) { DSCRATCH0 in h.csr && DSCRATCH1 in h.csr }

  predicate Ready(m: Machine, page: Page, v: MW.View, off: Offset)
  {
    && m.hart.pc == Pc(page, off) && m.hart.ir.None? && HasScratch(m.hart)
    && !AC.Unsupported(v.cmd) && v.cmd.transfer && !Sys.TargetsScratch(v.cmd)
  }

  lemma CodeFetched(m: Machine, v: MW.View, k: nat)
    requires ABSTRACT <= m.hart.pc.off < PROGBUF && k == MW.CodeIndex(m.hart.pc.off) && k < 10 && !AC.Unsupported(v.cmd)
    ensures Fetched(m, v) == AC.Routine(v.cmd, k)
  {
    hide AC.CodeWord, AC.Unsupported, Decode, AC.Routine, MW.CodeIndex;
    AC.CodeDecodes(v.cmd, k);
  }

  lemma Indices()
    ensures MW.CodeIndex(0x338) == 0 && MW.CodeIndex(0x33c) == 1 && MW.CodeIndex(0x340) == 2 && MW.CodeIndex(0x344) == 3
    ensures MW.CodeIndex(0x348) == 4 && MW.CodeIndex(0x34c) == 5 && MW.CodeIndex(0x350) == 6 && MW.CodeIndex(0x354) == 7
    ensures MW.CodeIndex(0x358) == 8 && MW.CodeIndex(0x35c) == 9
  {
  }

  // Words 0 to 3 save a0 and load it with the base of the window.
  function Prepared(m: Machine, page: Page): Machine
  {
    var h := m.hart;
    m.(hart := h.(pc := Pc(page, 0x348), gpr := h.gpr[10 := PageBase(page)], csr := h.csr[DSCRATCH1 := A0Of(h.gpr)]))
  }

  lemma SaveA0(m: Machine, page: Page, v: MW.View)
    requires Ready(m, page, v, 0x338)
    ensures var h := m.hart;
            Step(m, page, v) == m.(hart := h.(pc := Pc(page, 0x33c), csr := h.csr[DSCRATCH1 := A0Of(h.gpr)]))
  {
    hide AC.Unsupported, AC.TargetOf, Decode, MW.FlatWord, PcAdd, Addr, PageBase, Sum, AC.Move, Fetched;
    Indices();
    CodeFetched(m, v, 0);
    PcStep(page, 0x338);
  }

  lemma LoadBase(m: Machine, page: Page, v: MW.View, off: Offset)
    requires Ready(m, page, v, off)
    requires off == 0x33c || (off == 0x340 && A0Of(m.hart.gpr) == Addr(Pc(page, 0x33c)))
             || (off == 0x344 && A0Of(m.hart.gpr) == PageWord(page))
    ensures var h := m.hart;
            Step(m, page, v) == m.(hart := h.(pc := Pc(page, off + 4), gpr := h.gpr[10 :=
              if off == 0x33c then Addr(Pc(page, 0x33c)) else if off == 0x340 then PageWord(page) else PageBase(page)]))
  {
    hide AC.Unsupported, AC.TargetOf, Decode, MW.FlatWord, PcAdd, Addr, PageBase, PageWord, Sum, ShiftLeft;
    hide ShiftRight, AC.Move, Fetched;
    Indices();
    CodeFetched(m, v, if off == 0x33c then 1 else if off == 0x340 then 2 else 3);
    PcStep(page, off);
    BaseArithmetic(page, 0x33c);
  }

  lemma Prologue(m: Machine, page: Page, v: MW.View)
    requires Ready(m, page, v, 0x338)
    ensures Steps(m, page, v, 4) == Prepared(m, page) && Ready(Prepared(m, page), page, v, 0x348)
  {
    hide AC.Unsupported, AC.TargetOf, Step, Addr, PageBase, PageWord;
    var m1 := Step(m, page, v);
    SaveA0(m, page, v);
    var m2 := Step(m1, page, v);
    LoadBase(m1, page, v, 0x33c);
    var m3 := Step(m2, page, v);
    LoadBase(m2, page, v, 0x340);
    var m4 := Step(m3, page, v);
    LoadBase(m3, page, v, 0x344);
    assert Steps(m, page, v, 4) == Steps(m1, page, v, 3);
    assert Steps(m1, page, v, 3) == Steps(m2, page, v, 2);
    assert Steps(m2, page, v, 2) == Steps(m3, page, v, 1);
    assert Steps(m3, page, v, 1) == m4;
    var g := m.hart.gpr;
    assert g[10 := Addr(Pc(page, 0x33c))][10 := PageWord(page)][10 := PageBase(page)] == g[10 := PageBase(page)];
  }

  lemma SplitSteps(m: Machine, page: Page, v: MW.View, a: nat, b: nat)
    ensures Steps(m, page, v, a + b) == Steps(Steps(m, page, v, a), page, v, b)
    decreases a
  {
    hide Step;
    if a > 0 { SplitSteps(Step(m, page, v), page, v, a - 1, b); }
  }

  // ---- Words 4 to 7: the access ----

  // The command can be carried out from this state.
  predicate Feasible(m: Machine, v: MW.View)
  {
    match AC.TargetOf(v.cmd.regno)
    case Gpr(_) => true
    case Fpr(_) => m.hart.fpu && v.cmd.aarsize == 2
    case Csr(a) => a as int in m.hart.csr && (v.cmd.write ==> !ReadOnlyCsr(a))
  }

  // What words 4 to 7 do to the state that words 0 to 3 have prepared: the access, on
  // the user's registers, with a0 still in dscratch1.
  predicate Accessed(m: Machine, m': Machine, page: Page, v: MW.View)
  {
    var u := Sys.Access(v.cmd, m.hart.fpu, Owner(m, v));
    && m'.hart.pc == Pc(page, 0x358) && m'.hart.ir.None? && HasScratch(m'.hart)
    && Owner(m', v) == u
  }

  // The user's state when a0 is in dscratch1.
  function Owner(m: Machine, v: MW.View): Sys.User
  {
    UserOf(m, v).(gpr := m.hart.gpr[10 := CsrOr0(m.hart.csr, DSCRATCH1)])
  }

  predicate AtData(m: Machine, page: Page) { A0Of(m.hart.gpr) == PageBase(page) }

  lemma DataWord(m: Machine, page: Page, v: MW.View)
    requires AtData(m, page)
    ensures var a := Address(m.hart, A0, DATA as Word);
            && OffsetOf(a) == DATA && At(a) == 0 && (forall f3 :: !Misaligned(a, f3))
            && MW.FlatWord(Window(v, m), DATA) == m.data[0]
  {
    hide PageBase, Sum;
    WindowAddress(page, DATA);
  }

  // A load from, or a store to, data0 by the code.
  lemma LoadData(m: Machine, page: Page, v: MW.View, size: bv3, n: RegIndex)
    requires AtData(m, page) && size < 3 && m.hart.pc.page == page && m.hart.pc.off < 0xff0
    ensures var h := m.hart;
            Perform(m, page, v, Load(size, n, A0, DATA as Word))
            == m.(hart := h.(pc := Pc(page, h.pc.off + 4), ir := None,
              gpr := Set(h.gpr, n, SignExtend(m.data[0], size))))
  {
    hide PageBase, PcAdd, SignExtend, Misaligned, Address, MW.FlatWord;
    DataWord(m, page, v);
    PcStep(page, m.hart.pc.off);
  }

  lemma StoreData(m: Machine, page: Page, v: MW.View, size: bv3, n: RegIndex)
    requires AtData(m, page) && size < 3 && m.hart.pc.page == page && m.hart.pc.off < 0xff0
    ensures var h := m.hart;
            Perform(m, page, v, Store(size, n, A0, DATA as Word))
            == Machine(h.(pc := Pc(page, h.pc.off + 4), ir := None),
              m.data[0 := Sys.LowPart(m.data[0], Get(h.gpr, n), size)])
  {
    hide PageBase, PcAdd, Misaligned, Address, MW.FlatWord, MW.DecodeBus, MW.Stored, WriteOf, Sys.LowPart, At;
    DataWord(m, page, v);
    PcStep(page, m.hart.pc.off);
    CS.DataStore(page, Address(m.hart, A0, DATA as Word), m.data, size, Get(m.hart.gpr, n));
  }

  lemma LoadFloat(m: Machine, page: Page, v: MW.View, n: RegIndex)
    requires AtData(m, page) && m.hart.fpu && m.hart.pc.page == page && m.hart.pc.off < 0xff0
    ensures var h := m.hart;
            Perform(m, page, v, FloatLoad(2, n, A0, DATA as Word))
            == m.(hart := h.(pc := Pc(page, h.pc.off + 4), ir := None, fpr := h.fpr[n as int := m.data[0]]))
  {
    hide PageBase, PcAdd, Misaligned, Address, MW.FlatWord;
    DataWord(m, page, v);
    PcStep(page, m.hart.pc.off);
  }

  lemma StoreFloat(m: Machine, page: Page, v: MW.View, n: RegIndex)
    requires AtData(m, page) && m.hart.fpu && m.hart.pc.page == page && m.hart.pc.off < 0xff0
    ensures var h := m.hart;
            Perform(m, page, v, FloatStore(2, n, A0, DATA as Word))
            == Machine(h.(pc := Pc(page, h.pc.off + 4), ir := None), m.data[0 := h.fpr[n as int]])
  {
    hide PageBase, PcAdd, Misaligned, Address, MW.FlatWord, MW.DecodeBus, MW.Stored, WriteOf, Sys.LowPart, At;
    DataWord(m, page, v);
    PcStep(page, m.hart.pc.off);
    CS.DataStore(page, Address(m.hart, A0, DATA as Word), m.data, 2, m.hart.fpr[n as int]);
    CM.WholeWord(m.data[0], m.hart.fpr[n as int]);
  }

  // Direct commands: word 4 makes the access, the others are nops.
  lemma DirectWord(m: Machine, page: Page, v: MW.View)
    requires Ready(m, page, v, 0x348) && AtData(m, page) && Feasible(m, v) && !AC.BorrowsS0(AC.TargetOf(v.cmd.regno))
    ensures var m', u := Step(m, page, v), Sys.Access(v.cmd, m.hart.fpu, Owner(m, v));
            Ready(m', page, v, 0x34c) && Owner(m', v) == u
  {
    hide AC.TargetOf, Decode, MW.FlatWord, PcAdd, PageBase, Sum, SignExtend, Fetched, Perform, Sys.LowPart;
    hide MW.CodeIndex, ReadOnlyCsr;
    Indices();
    CodeFetched(m, v, 4);
    var size := v.cmd.aarsize;
    match AC.TargetOf(v.cmd.regno)
    case Gpr(n) =>
      CS.SavedIndex(n);
      if v.cmd.write { LoadData(m, page, v, size, n); } else { StoreData(m, page, v, size, n); }
    case Fpr(n) =>
      if v.cmd.write { LoadFloat(m, page, v, n); } else { StoreFloat(m, page, v, n); }
    case Csr(_) =>
  }

  lemma NopWord(m: Machine, page: Page, v: MW.View, off: Offset)
    requires Ready(m, page, v, off) && (off == 0x34c || off == 0x350 || off == 0x354)
             && !AC.BorrowsS0(AC.TargetOf(v.cmd.regno))
    ensures Step(m, page, v) == m.(hart := m.hart.(pc := Pc(page, off + 4)))
            && Ready(Step(m, page, v), page, v, off + 4)
  {
    hide AC.TargetOf, AC.Unsupported, Decode, MW.FlatWord, PcAdd, Fetched, MW.CodeIndex, Sys.TargetsScratch;
    Indices();
    CodeFetched(m, v, if off == 0x34c then 5 else if off == 0x350 then 6 else 7);
    PcStep(page, off);
  }

  lemma DirectAccess(m: Machine, page: Page, v: MW.View)
    requires Ready(m, page, v, 0x348) && AtData(m, page) && Feasible(m, v) && !AC.BorrowsS0(AC.TargetOf(v.cmd.regno))
    ensures Accessed(m, Steps(m, page, v, 4), page, v) && Ready(Steps(m, page, v, 4), page, v, 0x358)
  {
    hide AC.TargetOf, AC.Unsupported, Step, Sys.Access, Sys.TargetsScratch;
    var m1 := Step(m, page, v);
    DirectWord(m, page, v);
    var m2 := Step(m1, page, v);
    NopWord(m1, page, v, 0x34c);
    var m3 := Step(m2, page, v);
    NopWord(m2, page, v, 0x350);
    NopWord(m3, page, v, 0x354);
    FourSteps(m, page, v);
  }

  lemma FourSteps(m: Machine, page: Page, v: MW.View)
    ensures Steps(m, page, v, 4) == Step(Step(Step(Step(m, page, v), page, v), page, v), page, v)
  {
    hide Step;
    var m1 := Step(m, page, v);
    var m2 := Step(m1, page, v);
    var m3 := Step(m2, page, v);
    assert Steps(m, page, v, 4) == Steps(m1, page, v, 3);
    assert Steps(m1, page, v, 3) == Steps(m2, page, v, 2);
    assert Steps(m2, page, v, 2) == Steps(m3, page, v, 1);
  }

  // Commands that move the value through s0.
  lemma BorrowWord(m: Machine, page: Page, v: MW.View)
    requires Ready(m, page, v, 0x348) && AC.BorrowsS0(AC.TargetOf(v.cmd.regno))
    ensures Step(m, page, v)
            == m.(hart := m.hart.(pc := Pc(page, 0x34c), csr := m.hart.csr[DSCRATCH0 := S0Of(m.hart.gpr)]))
  {
    hide AC.TargetOf, AC.Unsupported, Decode, MW.FlatWord, PcAdd, Fetched, MW.CodeIndex, Sys.TargetsScratch;
    Indices();
    CodeFetched(m, v, 4);
    PcStep(page, 0x348);
  }

  function Register(v: MW.View): int
  {
    var t := AC.TargetOf(v.cmd.regno);
    if t.Csr? then t.addr as int else DSCRATCH1
  }

  lemma FetchWord(m: Machine, page: Page, v: MW.View)
    requires Ready(m, page, v, 0x34c) && AC.BorrowsS0(AC.TargetOf(v.cmd.regno)) && AtData(m, page) && Feasible(m, v)
    ensures Step(m, page, v) == m.(hart := m.hart.(pc := Pc(page, 0x350), gpr := m.hart.gpr[8 :=
              if v.cmd.write then SignExtend(m.data[0], v.cmd.aarsize) else CsrOr0(m.hart.csr, Register(v))]))
  {
    hide AC.TargetOf, Decode, MW.FlatWord, PcAdd, PageBase, Sum, SignExtend, Fetched, MW.CodeIndex;
    hide Sys.TargetsScratch, ReadOnlyCsr;
    Indices();
    CodeFetched(m, v, 5);
    PcStep(page, 0x34c);
    if v.cmd.write { LoadData(m, page, v, v.cmd.aarsize, S0); hide Perform; }
  }

  lemma MoveWord(m: Machine, page: Page, v: MW.View)
    requires Ready(m, page, v, 0x350) && AC.BorrowsS0(AC.TargetOf(v.cmd.regno)) && AtData(m, page) && Feasible(m, v)
    ensures Step(m, page, v) ==
            if v.cmd.write then
              m.(hart := m.hart.(pc := Pc(page, 0x354), csr := m.hart.csr[Register(v) := S0Of(m.hart.gpr)]))
            else Machine(m.hart.(pc := Pc(page, 0x354)),
              m.data[0 := Sys.LowPart(m.data[0], S0Of(m.hart.gpr), v.cmd.aarsize)])
  {
    hide AC.TargetOf, Decode, MW.FlatWord, PcAdd, PageBase, Sum, Fetched, MW.CodeIndex, Sys.TargetsScratch;
    hide Sys.LowPart;
    Indices();
    CodeFetched(m, v, 6);
    PcStep(page, 0x350);
    if !v.cmd.write { StoreData(m, page, v, v.cmd.aarsize, S0); hide Perform; }
  }

  lemma ReturnWord(m: Machine, page: Page, v: MW.View)
    requires Ready(m, page, v, 0x354) && AC.BorrowsS0(AC.TargetOf(v.cmd.regno))
    ensures Step(m, page, v)
            == m.(hart := m.hart.(pc := Pc(page, 0x358), gpr := m.hart.gpr[8 := m.hart.csr[DSCRATCH0]]))
  {
    hide AC.TargetOf, AC.Unsupported, Decode, MW.FlatWord, PcAdd, Fetched, MW.CodeIndex, Sys.TargetsScratch;
    Indices();
    CodeFetched(m, v, 7);
    PcStep(page, 0x354);
  }

  // The state after word 7: the value is where it belongs, and s0 is back.
  function Moved(m: Machine, page: Page, v: MW.View): Machine
  {
    var h, size := m.hart, v.cmd.aarsize;
    var saved := h.csr[DSCRATCH0 := S0Of(h.gpr)];
    if v.cmd.write then m.(hart := h.(pc := Pc(page, 0x358), csr := saved[Register(v) := SignExtend(m.data[0], size)]))
    else Machine(h.(pc := Pc(page, 0x358), csr := saved),
      m.data[0 := Sys.LowPart(m.data[0], CsrOr0(h.csr, Register(v)), size)])
  }

  lemma BorrowedWords(m: Machine, page: Page, v: MW.View)
    requires Ready(m, page, v, 0x348) && AtData(m, page) && Feasible(m, v) && AC.BorrowsS0(AC.TargetOf(v.cmd.regno))
    ensures Steps(m, page, v, 4) == Moved(m, page, v)
  {
    hide AC.TargetOf, AC.Unsupported, Step, Steps, PageBase, SignExtend, Sys.LowPart, ReadOnlyCsr;
    var m1 := Step(m, page, v);
    BorrowWord(m, page, v);
    var m2 := Step(m1, page, v);
    FetchWord(m1, page, v);
    var m3 := Step(m2, page, v);
    MoveWord(m2, page, v);
    ReturnWord(m3, page, v);
    FourSteps(m, page, v);
    var x := S0Of(m2.hart.gpr);
    assert m.hart.gpr[8 := x][8 := m.hart.gpr[8]] == m.hart.gpr;
  }

  lemma BorrowedAccess(m: Machine, page: Page, v: MW.View)
    requires Ready(m, page, v, 0x348) && AtData(m, page) && Feasible(m, v) && AC.BorrowsS0(AC.TargetOf(v.cmd.regno))
    ensures Accessed(m, Steps(m, page, v, 4), page, v) && Ready(Steps(m, page, v, 4), page, v, 0x358)
  {
    hide AC.TargetOf, AC.Unsupported, Steps, PageBase, SignExtend, Sys.LowPart, ReadOnlyCsr;
    BorrowedWords(m, page, v);
  }

  // Words 8 and 9: a0 comes back, and the code ends, in the ebreak or in the program
  // buffer.
  lemma Epilogue(m: Machine, page: Page, v: MW.View)
    requires Ready(m, page, v, 0x358)
    ensures var h := m.hart;
            Steps(m, page, v, 2) == m.(hart := h.(pc := Pc(page, if v.cmd.postexec then PROGBUF else ENTRY),
                                                  gpr := h.gpr[10 := h.csr[DSCRATCH1]]))
  {
    hide AC.Unsupported, AC.TargetOf, AC.Move, Decode, MW.FlatWord, PcAdd, Fetched, MW.CodeIndex, Sys.TargetsScratch;
    Indices();
    CodeFetched(m, v, 8);
    PcStep(page, 0x358);
    var m1 := Step(m, page, v);
    assert m1 == m.(hart := m.hart.(pc := Pc(page, 0x35c), gpr := m.hart.gpr[10 := m.hart.csr[DSCRATCH1]]));
    CodeFetched(m1, v, 9);
    PcStep(page, 0x35c);
    assert Steps(m, page, v, 2) == Steps(m1, page, v, 1);
    assert Steps(m1, page, v, 1) == Step(m1, page, v);
  }

  // For every command that can be carried out, every state of the hart and every page:
  // the ten words make the access of the command, on the user's registers as they
  // stand, and leave every other register, CSR but the scratch ones, and data word.
  lemma CodeMakesAccess(m: Machine, page: Page, v: MW.View)
    requires Ready(m, page, v, ABSTRACT) && Feasible(m, v)
    ensures var m' := Steps(m, page, v, 10);
            && UserOf(m', v) == Sys.Access(v.cmd, m.hart.fpu, UserOf(m, v))
            && m'.hart.pc == Pc(page, if v.cmd.postexec then PROGBUF else ENTRY)
  {
    hide AC.Unsupported, AC.TargetOf, Step, Steps, Sys.Access, Sys.TargetsScratch, Feasible, PageBase, Accessed;
    hide Sys.UserCsr;
    SplitSteps(m, page, v, 4, 6);
    var m4 := Prepared(m, page);
    SplitSteps(m4, page, v, 4, 2);
    Prologue(m, page, v);
    PreparedOwner(m, page, v);
    if AC.BorrowsS0(AC.TargetOf(v.cmd.regno)) { BorrowedAccess(m4, page, v); } else { DirectAccess(m4, page, v); }
    var m8 := Steps(m4, page, v, 4);
    Epilogue(m8, page, v);
    ReturnedUser(m, m8, page, v);
  }

  lemma PreparedOwner(m: Machine, page: Page, v: MW.View)
    requires Ready(m, page, v, ABSTRACT) && Feasible(m, v)
    ensures var m4 := Prepared(m, page);
            Owner(m4, v) == UserOf(m, v) && AtData(m4, page) && Feasible(m4, v) && m4.hart.fpu == m.hart.fpu
  {
    hide AC.Unsupported, AC.TargetOf, PageBase;
    ScratchInvisible(m.hart.csr, DSCRATCH1, A0Of(m.hart.gpr));
    assert m.hart.gpr[10 := PageBase(page)][10 := m.hart.gpr[10]] == m.hart.gpr;
  }

  lemma ReturnedUser(m: Machine, m8: Machine, page: Page, v: MW.View)
    requires Accessed(Prepared(m, page), m8, page, v) && Owner(Prepared(m, page), v) == UserOf(m, v)
    ensures var m' := m8.(hart := m8.hart.(pc := Pc(page, if v.cmd.postexec then PROGBUF else ENTRY),
                                           gpr := m8.hart.gpr[10 := m8.hart.csr[DSCRATCH1]]));
            UserOf(m', v) == Sys.Access(v.cmd, m.hart.fpu, UserOf(m, v))
  {
    hide Sys.Access, PageBase;
  }
}
