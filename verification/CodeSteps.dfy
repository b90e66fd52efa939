/** The parked hart executing the whereto jump and the generated code: every
    instruction either leaves the user's registers alone or makes the whole
    access of the command, and an exception finds them intact. */
module CodeSteps {
  import opened Words
  import opened Dmi
  import opened DebugRom
  import opened Hart
  import opened System
  import opened Protocol
  import opened HartSteps
  import opened RomSteps
  import opened Isa
  import F = CommandFsm
  import CR = ControlRegs
  import MW = MemWindow
  import AC = AbstractCommand
  import DM = DebugModule

  // ---- What the hart has fetched ----

  lemma InExec(s: Sys)
    requires Inv(s) && s.hart.mode == Parked && Off(s) < 0x800
    ensures s.dm.fsm == F.Exec && s.dm.halted && !AC.Unsupported(Cmd(s)) && !TargetsScratch(Cmd(s))
  {
    hide AC.Fields, AC.Unsupported, AC.TargetOf, HartAt;
  }

  lemma CodeOffsets(s: Sys)
    requires Inv(s) && s.hart.mode == Parked && 0x338 <= Off(s) < 0x800
    ensures Off(s) < 0x360 && MW.CodeIndex(Off(s)) < 10
    ensures AtCode(s.hart.gpr, s.hart.csr, s.page, Cmd(s), s.dm.regs.data[0], MW.CodeIndex(Off(s)))
    ensures Off(s) & 3 == 0
  {
    hide AC.Fields, AC.Unsupported, AC.TargetOf, MW.CodeIndex, FsmAt;
  }

  lemma CodeInstruction(s: Sys, i: Input)
    requires Executing(s, i) && 0x338 <= Off(s) < 0x360 && MW.CodeIndex(Off(s)) < 10
    ensures Current(s) == AC.Routine(Cmd(s), MW.CodeIndex(Off(s)))
  {
    hide AC.Fields, AC.Unsupported, AC.CodeWord, AC.Routine, Decode, HartAt, FsmAt, MW.CodeIndex;
    InExec(s);
    AC.CodeDecodes(Cmd(s), MW.CodeIndex(Off(s)));
  }

  // The offsets of the generated words.
  lemma WordOffset(off: Offset)
    requires 0x338 <= off < 0x360 && off & 3 == 0
    ensures var k := MW.CodeIndex(off);
            off == match k case 0 => 0x338 case 1 => 0x33c case 2 => 0x340 case 3 => 0x344 case 4 => 0x348
                           case 5 => 0x34c case 6 => 0x350 case 7 => 0x354 case 8 => 0x358 case _ => 0x35c
  {
    match off
    case 0x338 => case 0x33c => case 0x340 => case 0x344 => case 0x348 =>
    case 0x34c => case 0x350 => case 0x354 => case 0x358 => case _ =>
  }

  // ---- Instructions that leave the user's registers alone ----

  // A parked hart about to execute word k of the code of command c.
  predicate AtWord(h: Hart, page: Page, d: DM.Dm, off: Offset, k: nat)
  {
    && Ready(h, page, d) && h.pc.off == off
    && AtCode(h.gpr, h.csr, page, DM.CommandOf(d), d.regs.data[0], k)
    && d.fsm == F.Exec && !AC.Unsupported(DM.CommandOf(d)) && !TargetsScratch(DM.CommandOf(d))
  }

  lemma PrologueStep(h: Hart, page: Page, d: DM.Dm, word: Word)
    requires AtWord(h, page, d, 0x338, 0) && DM.CommandOf(d).transfer
    ensures Settles(h, Execute(h, AC.Routine(DM.CommandOf(d), 0), page, word), page, d)
  {
    hide AC.Fields, AC.TargetOf, AC.Unsupported, UserCsr, PcAdd, Addr, PageBase, PageWord, Sum, ShiftLeft, ShiftRight;
    PcStep(page, h.pc.off);
    ScratchInvisible(h.csr, DSCRATCH1, A0Of(h.gpr));
  }

  lemma BaseStep1(h: Hart, page: Page, d: DM.Dm, word: Word)
    requires AtWord(h, page, d, 0x33c, 1)
    ensures Settles(h, Execute(h, Auipc(A0, 0), page, word), page, d)
  {
    hide AC.Fields, AC.TargetOf, AC.Unsupported, UserCsr, PcAdd, Addr, PageBase, PageWord, Sum, ShiftLeft, ShiftRight;
    PcStep(page, 0x33c);
    BaseArithmetic(page, 0x33c);
  }

  lemma BaseStep2(h: Hart, page: Page, d: DM.Dm, word: Word)
    requires AtWord(h, page, d, 0x340, 2)
    ensures Settles(h, Execute(h, Srli(A0, A0, 12), page, word), page, d)
  {
    hide AC.Fields, AC.TargetOf, AC.Unsupported, UserCsr, PcAdd, Addr, PageBase, PageWord, Sum, ShiftLeft, ShiftRight;
    PcStep(page, 0x340);
    BaseArithmetic(page, 0x33c);
  }

  lemma BaseStep3(h: Hart, page: Page, d: DM.Dm, word: Word)
    requires AtWord(h, page, d, 0x344, 3)
    ensures Settles(h, Execute(h, Slli(A0, A0, 12), page, word), page, d)
  {
    hide AC.Fields, AC.TargetOf, AC.Unsupported, UserCsr, PcAdd, Addr, PageBase, PageWord, Sum, ShiftLeft, ShiftRight;
    PcStep(page, 0x344);
    BaseArithmetic(page, 0x33c);
  }

  // Loads and stores of the generated code address data0 and do not fault.
  lemma DataAddress(h: Hart, page: Page, f3: bv3)
    requires A0Of(h.gpr) == PageBase(page)
    ensures var a := Address(h, A0, DATA as Word); OffsetOf(a) == DATA && At(a) == 0 && !Misaligned(a, f3)
  {
    hide PageBase, Sum;
    WindowAddress(page, DATA);
  }

  lemma BorrowStep(h: Hart, page: Page, d: DM.Dm, word: Word)
    requires AtWord(h, page, d, 0x348, 4) && AC.BorrowsS0(AC.TargetOf(DM.CommandOf(d).regno))
    ensures Settles(h, Execute(h, Csrrw(CSR_DSCRATCH0, 0, S0), page, word), page, d)
  {
    hide AC.Fields, AC.TargetOf, AC.Unsupported, UserCsr, PcAdd, Addr, PageBase, Sum;
    PcStep(page, 0x348);
    ScratchInvisible(h.csr, DSCRATCH0, S0Of(h.gpr));
  }

  lemma BorrowLoadStep(h: Hart, page: Page, d: DM.Dm)
    requires AtWord(h, page, d, 0x34c, 5) && AC.BorrowsS0(AC.TargetOf(DM.CommandOf(d).regno)) && DM.CommandOf(d).write
    ensures var c := DM.CommandOf(d);
            Settles(h, Execute(h, Load(c.aarsize, S0, A0, DATA as Word), page, d.regs.data[0]), page, d)
  {
    hide AC.Fields, AC.TargetOf, UserCsr, PcAdd, Addr, PageBase, Sum, SignExtend, Misaligned;
    PcStep(page, 0x34c);
    DataAddress(h, page, DM.CommandOf(d).aarsize);
    hide At;
  }

  lemma BorrowReadStep(h: Hart, page: Page, d: DM.Dm, word: Word, reg: bv12)
    requires var c := DM.CommandOf(d);
             AtWord(h, page, d, 0x34c, 5) && AC.BorrowsS0(AC.TargetOf(c.regno)) && !c.write
             && reg == (if AC.TargetOf(c.regno).Csr? then AC.TargetOf(c.regno).addr else CSR_DSCRATCH1)
    requires !Faults(h, Csrrs(reg, S0, 0))
    ensures Settles(h, Execute(h, Csrrs(reg, S0, 0), page, word), page, d)
  {
    hide AC.Fields, AC.TargetOf, AC.Unsupported, UserCsr, PcAdd, Addr, PageBase, Sum, SignExtend;
    PcStep(page, 0x34c);
  }

  lemma ReturnS0Step(h: Hart, page: Page, d: DM.Dm, word: Word)
    requires AtWord(h, page, d, 0x354, 7) && AC.BorrowsS0(AC.TargetOf(DM.CommandOf(d).regno))
    ensures Settles(h, Execute(h, Csrrs(CSR_DSCRATCH0, S0, 0), page, word), page, d)
  {
    hide AC.Fields, AC.TargetOf, AC.Unsupported, UserCsr, PcAdd, Addr, PageBase, Sum;
    PcStep(page, 0x354);
  }

  lemma NopStep(h: Hart, page: Page, d: DM.Dm, word: Word, off: Offset, k: nat)
    requires (off == 0x34c && k == 5) || (off == 0x350 && k == 6) || (off == 0x354 && k == 7)
    requires AtWord(h, page, d, off, k) && !AC.BorrowsS0(AC.TargetOf(DM.CommandOf(d).regno))
    ensures Settles(h, Execute(h, Nop(), page, word), page, d)
  {
    hide AC.Fields, AC.TargetOf, AC.Unsupported, UserCsr, PcAdd, Addr, PageBase, Sum;
    PcStep(page, off);
  }

  lemma RestoreA0Step(h: Hart, page: Page, d: DM.Dm, word: Word)
    requires AtWord(h, page, d, 0x358, 8)
    ensures Settles(h, Execute(h, Csrrs(CSR_DSCRATCH1, A0, 0), page, word), page, d)
  {
    hide AC.Fields, AC.TargetOf, AC.Unsupported, UserCsr, PcAdd, Addr, PageBase, Sum;
    PcStep(page, 0x358);
  }

  lemma EbreakStep(h: Hart, page: Page, d: DM.Dm, word: Word)
    requires AtWord(h, page, d, 0x35c, 9)
    ensures Settles(h, Execute(h, Ebreak, page, word), page, d)
  {
    hide AC.Fields, AC.TargetOf, AC.Unsupported, UserCsr, PageBase, Sum;
  }

  // Where an instruction of the code can fault, the scratch registers hold the
  // user's s0 and a0, so the exception path finds the context complete.
  lemma FaultSettles(h: Hart, page: Page, d: DM.Dm, word: Word, ins: Instr, off: Offset, k: nat)
    requires (off == 0x338 && k == 0) || (off == 0x348 && k == 4) || (off == 0x34c && k == 5)
             || (off == 0x350 && k == 6)
    requires AtWord(h, page, d, off, k)
    requires k > 4 ==> AC.BorrowsS0(AC.TargetOf(DM.CommandOf(d).regno))
    requires Faults(h, ins)
    ensures Settles(h, Execute(h, ins, page, word), page, d)
  {
    hide AC.Fields, AC.TargetOf, AC.Unsupported, UserCsr, PageBase, Sum, Faults;
  }

  // ---- The instruction that makes the access: register writes ----

  lemma SavedIndex(n: RegIndex)
    ensures n as int == 10 <==> n == A0
    ensures n as int == 8 <==> n == S0
  {
  }

  lemma SetBesideA0(g: RegFile, n: RegIndex, v: Word, a0: Word)
    requires n != A0
    ensures Set(g, n, v)[A0 as int := a0] == Set(g[A0 as int := a0], n, v)
  {
    SavedIndex(n);
  }

  lemma LoadCommits(h: Hart, page: Page, d: DM.Dm, n: RegIndex)
    requires var c := DM.CommandOf(d);
             AtWord(h, page, d, 0x348, 4) && c.write && AC.TargetOf(c.regno) == AC.Gpr(n) && n != A0
    ensures var c := DM.CommandOf(d);
            var h' := Execute(h, Load(c.aarsize, n, A0, DATA as Word), page, d.regs.data[0]);
            && Lands(h', page, d) && h'.fpr == h.fpr && h'.csr == h.csr && h'.pc.off == 0x34c
            && UserGpr(h', 0x34c, c) == Set(UserGpr(h, 0x348, c), n, SignExtend(d.regs.data[0], c.aarsize))
  {
    hide AC.Fields, AC.TargetOf, UserCsr, PcAdd, Addr, PageBase, Sum, SignExtend, Misaligned;
    PcStep(page, 0x348);
    DataAddress(h, page, DM.CommandOf(d).aarsize);
    hide At;
    SavedIndex(n);
    SetBesideA0(h.gpr, n, SignExtend(d.regs.data[0], DM.CommandOf(d).aarsize), CsrOr0(h.csr, DSCRATCH1));
  }

  lemma FloatLoadCommits(h: Hart, page: Page, d: DM.Dm, n: RegIndex)
    requires var c := DM.CommandOf(d); AtWord(h, page, d, 0x348, 4) && AC.TargetOf(c.regno) == AC.Fpr(n)
    requires h.fpu && DM.CommandOf(d).aarsize == 2
    ensures var c := DM.CommandOf(d);
            var h' := Execute(h, FloatLoad(c.aarsize, n, A0, DATA as Word), page, d.regs.data[0]);
            && Lands(h', page, d) && h'.fpr == h.fpr[n as int := d.regs.data[0]] && h'.csr == h.csr
            && h'.pc.off == 0x34c
            && UserGpr(h', 0x34c, c) == UserGpr(h, 0x348, c)
  {
    hide AC.Fields, AC.TargetOf, UserCsr, PcAdd, Addr, PageBase, Sum, Misaligned;
    PcStep(page, 0x348);
    DataAddress(h, page, DM.CommandOf(d).aarsize);
  }

  lemma CsrVisible(csr: map<int, Word>, n: int, v: Word)
    requires n != DSCRATCH0 && n != DSCRATCH1
    ensures UserCsr(csr[n := v]) == UserCsr(csr)[n := v]
    ensures CsrOr0(csr[n := v], DSCRATCH0) == CsrOr0(csr, DSCRATCH0)
    ensures CsrOr0(csr[n := v], DSCRATCH1) == CsrOr0(csr, DSCRATCH1)
  {
  }

  // The csrw after a load into s0: of a CSR, or of dscratch1, where the user's a0 is.
  lemma CsrWriteCommits(h: Hart, page: Page, d: DM.Dm, word: Word, reg: bv12)
    requires var c := DM.CommandOf(d);
             AtWord(h, page, d, 0x350, 6) && AC.BorrowsS0(AC.TargetOf(c.regno)) && c.write
             && reg == (if AC.TargetOf(c.regno).Csr? then AC.TargetOf(c.regno).addr else CSR_DSCRATCH1)
    requires !Faults(h, Csrrw(reg, 0, S0))
    ensures var c, h' := DM.CommandOf(d), Execute(h, Csrrw(reg, 0, S0), page, word);
            var v := SignExtend(d.regs.data[0], c.aarsize);
            && Lands(h', page, d) && h'.fpr == h.fpr && h'.pc.off == 0x354
            && (if AC.TargetOf(c.regno).Csr? then
                  UserGpr(h', 0x354, c) == UserGpr(h, 0x350, c) && UserCsr(h'.csr) == UserCsr(h.csr)[reg as int := v]
                else
                  UserGpr(h', 0x354, c) == Set(UserGpr(h, 0x350, c), A0, v) && UserCsr(h'.csr) == UserCsr(h.csr))
  {
    hide AC.Fields, AC.TargetOf, AC.Unsupported, PcAdd, Addr, PageBase, Sum, SignExtend;
    PcStep(page, 0x350);
    var v := S0Of(h.gpr);
    if AC.TargetOf(DM.CommandOf(d).regno).Csr? {
      CsrVisible(h.csr, reg as int, v);
    } else {
      ScratchInvisible(h.csr, DSCRATCH1, v);
    }
    hide UserCsr;
  }

  // ---- The instruction that makes the access: stores to data0 ----

  lemma DataStore(page: Page, addr: Word, data: CR.Data, size: bv3, v: Word)
    requires OffsetOf(addr) == DATA && At(addr) == 0
    ensures var b := WriteOf(addr, size, v);
            && MW.DecodeBus(b) == MW.WriteData
            && MW.Stored(data, b.addr, b.be, b.wdata) == data[0 := LowPart(data[0], v, size)]
  {
    hide AccessLanes, Merge;
    assert MW.SelectsData(addr, 0) && !MW.SelectsData(addr, 1);
  }

  // The module's side of a store to the data registers by the running command.
  lemma DataStep(d: DM.Dm, req: Option<Request>, b: MW.BusRequest)
    requires DmOk(d) && AllowedRequest(d, req) && d.fsm == F.Exec && MW.DecodeBus(b) == MW.WriteData
    ensures var d' := DM.Next(d, req, b);
            && DmOk(d') && d'.fsm == F.Exec && d'.halted == d.halted && d'.regs.command == d.regs.command
            && d'.regs.data == MW.Stored(d.regs.data, b.addr, b.be, b.wdata) && d'.regs.progbuf == d.regs.progbuf
  {
    hide AC.Fields, AC.Unsupported, AC.TargetOf, MW.DecodeBus, MW.Stored, MW.NextPath, F.Next, F.Out, DC.Next;
    hide CR.Next, CR.Written, TargetsScratch;
    hide CR.DmactiveField, CR.NdmresetField, CR.AutoDataField;
    CR.BusyGating(d.regs, true, req, DM.StoredData(d, b), d.resuming);
    DmStep(d, req, b);
    FsmStep(d, req, b);
  }

  // The place after the store does not depend on the data registers.
  lemma StoreAdvances(h: Hart, page: Page, d: DM.Dm, data0: Word)
    requires (AtWord(h, page, d, 0x348, 4) && !AC.BorrowsS0(AC.TargetOf(DM.CommandOf(d).regno)))
             || (AtWord(h, page, d, 0x350, 6) && AC.BorrowsS0(AC.TargetOf(DM.CommandOf(d).regno)))
    ensures var h', c := Advance(h), DM.CommandOf(d);
            && h'.pc == Pc(page, h.pc.off + 4)
            && HartAt(h'.gpr, h'.csr, page, h'.pc.off, c, data0) && h'.pc.off < 0x360 && h'.pc.off & 3 == 0
            && UserGpr(h', h'.pc.off, c) == UserGpr(h, h.pc.off, c)
  {
    hide AC.Fields, AC.TargetOf, AC.Unsupported, PcAdd, Addr, PageBase, UserCsr;
    PcStep(page, h.pc.off);
  }

  lemma BaseInA0(h: Hart, page: Page, d: DM.Dm, off: Offset, k: nat)
    requires AtWord(h, page, d, off, k) && 4 <= k <= 8
    ensures A0Of(h.gpr) == PageBase(page)
  {
    hide AC.Fields, AC.TargetOf, AC.Unsupported;
  }

  lemma LiftStore(s: Sys, i: Input, size: bv3, v: Word)
    requires Executing(s, i) && s.dm.fsm == F.Exec
    requires (AtWord(s.hart, s.page, s.dm, 0x348, 4) && !AC.BorrowsS0(AC.TargetOf(Cmd(s).regno)))
             || (AtWord(s.hart, s.page, s.dm, 0x350, 6) && AC.BorrowsS0(AC.TargetOf(Cmd(s).regno)))
    requires Bus(s, Tick) == WriteOf(Address(s.hart, A0, DATA as Word), size, v)
    requires Execute(s.hart, Current(s), s.page, LoadedWord(s)) == Advance(s.hart)
    ensures var s' := Next(s, i);
            && Inv(s') && SameUserRegs(s, s') && s'.dm.fsm == F.Exec && s'.hart == Advance(s.hart)
            && s'.dm.regs.data == s.dm.regs.data[0 := LowPart(s.dm.regs.data[0], v, size)]
            && s'.dm.regs.progbuf == s.dm.regs.progbuf && s'.dm.regs.command == s.dm.regs.command
            && Off(s') == Off(s) + 4
  {
    hide AC.Fields, AC.TargetOf, AC.Unsupported, DM.Next, MW.DecodeBus, MW.Stored, LowPart, S0Saved, A0Saved;
    hide Execute, Decode, MW.FlatWord;
    hide AtCode, AtBaseCode, AtPoll, AtGoing, Bus, WriteOf, PcAdd, Misaligned, At;
    var s' := Next(s, i);
    if Off(s) == 0x348 { BaseInA0(s.hart, s.page, s.dm, 0x348, 4); } else { BaseInA0(s.hart, s.page, s.dm, 0x350, 6); }
    DataAddress(s.hart, s.page, size);
    DataStore(s.page, Address(s.hart, A0, DATA as Word), s.dm.regs.data, size, v);
    DataStep(s.dm, i.req, Bus(s, Tick));
    StoreAdvances(s.hart, s.page, s.dm, s'.dm.regs.data[0]);
  }

  // ---- Any word of the code ----

  // Where the access is made: word 6 if the value moves through s0, else word 4.
  function AccessPoint(c: AC.Command): Offset
  {
    if AC.BorrowsS0(AC.TargetOf(c.regno)) then 0x350 else 0x348
  }

  // The hart is about to make the access of the command it executes.
  predicate Commits(s: Sys)
  {
    && s.hart.mode == Parked && s.hart.ir.Some?
    && Cmd(s).transfer && Off(s) == AccessPoint(Cmd(s)) && !Faults(s.hart, Current(s))
  }

  predicate RunsOn(s: Sys) { Off(s) == 0x35c && Cmd(s).postexec }

  lemma DataLoad(h: Hart, page: Page, d: DM.Dm, off: Offset, k: nat, ins: Instr)
    requires AtWord(h, page, d, off, k) && 4 <= k <= 8
    requires (ins.Load? || ins.FloatLoad?) && ins.rs1 == A0 && ins.offset == DATA as Word && !Faults(h, ins)
    ensures MW.FlatWord(DM.ViewOf(d), OffsetOf(DataAccess(h, ins).addr)) == d.regs.data[0]
  {
    hide AC.Fields, AC.TargetOf, AC.Unsupported, AtCode, Misaligned, Address, Ready, Faults;
    BaseInA0(h, page, d, off, k);
    DataAddress(h, page, 2);
  }

  lemma WordSettles(h: Hart, page: Page, d: DM.Dm, word: Word, off: Offset, k: nat)
    requires AtWord(h, page, d, off, k) && k == MW.CodeIndex(off) && 0x338 <= off < 0x360 && off & 3 == 0
    requires k == 9 ==> !DM.CommandOf(d).postexec
    requires off == AccessPoint(DM.CommandOf(d)) && DM.CommandOf(d).transfer ==>
               Faults(h, AC.Routine(DM.CommandOf(d), k))
    requires word == MW.FlatWord(DM.ViewOf(d), OffsetOf(DataAccess(h, AC.Routine(DM.CommandOf(d), k)).addr))
    ensures Settles(h, Execute(h, AC.Routine(DM.CommandOf(d), k), page, word), page, d)
  {
    hide AC.Fields, AC.TargetOf, AC.Unsupported, AtCode, Ready, Settles, Execute, DataAccess, MW.FlatWord;
    hide MW.CodeIndex, TargetsScratch, Misaligned;
    WordOffset(off);
    var c := DM.CommandOf(d);
    CodeTransfers(h, page, d, off, k);
    match k
    case 0 => if c.transfer { PrologueStep(h, page, d, word); }
      else { FaultSettles(h, page, d, word, Illegal, off, k); }
    case 1 => BaseStep1(h, page, d, word);
    case 2 => BaseStep2(h, page, d, word);
    case 3 => BaseStep3(h, page, d, word);
    case 8 => RestoreA0Step(h, page, d, word);
    case 9 => EbreakStep(h, page, d, word);
    case _ => MoveSettles(h, page, d, word, off, k);
  }

  lemma CodeTransfers(h: Hart, page: Page, d: DM.Dm, off: Offset, k: nat)
    requires AtWord(h, page, d, off, k)
    ensures k < 10 && (k > 0 ==> DM.CommandOf(d).transfer)
  {
    hide AC.Fields, AC.TargetOf, AC.Unsupported;
  }

  lemma MoveSettles(h: Hart, page: Page, d: DM.Dm, word: Word, off: Offset, k: nat)
    requires AtWord(h, page, d, off, k) && 4 <= k < 8
    requires off == match k case 4 => 0x348 case 5 => 0x34c case 6 => 0x350 case _ => 0x354
    requires off == AccessPoint(DM.CommandOf(d)) ==> Faults(h, AC.Move(DM.CommandOf(d), k))
    requires word == MW.FlatWord(DM.ViewOf(d), OffsetOf(DataAccess(h, AC.Move(DM.CommandOf(d), k)).addr))
    ensures Settles(h, Execute(h, AC.Move(DM.CommandOf(d), k), page, word), page, d)
  {
    hide AC.Fields, AC.TargetOf, AC.Unsupported, AtCode, Ready, Settles, Execute, DataAccess, MW.FlatWord;
    hide TargetsScratch, Faults;
    var c := DM.CommandOf(d);
    var ins := AC.Move(c, k);
    if !AC.BorrowsS0(AC.TargetOf(c.regno)) {
      if k == 4 { FaultSettles(h, page, d, word, ins, off, k); } else { NopStep(h, page, d, word, off, k); }
    } else {
      match k
      case 4 => BorrowStep(h, page, d, word);
      case 5 =>
        if Faults(h, ins) {
          FaultSettles(h, page, d, word, ins, off, k);
        } else if c.write {
          DataLoad(h, page, d, off, k, ins);
          BorrowLoadStep(h, page, d);
        } else {
          BorrowReadStep(h, page, d, word, ins.csr);
        }
      case 6 => FaultSettles(h, page, d, word, ins, off, k);
      case _ => ReturnS0Step(h, page, d, word);
    }
  }
}
