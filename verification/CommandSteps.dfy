/** The generated code as steps of the whole system: the one step that makes a
    command's access, and all the others, which leave the user's state alone. */
module CommandSteps {
  import opened Words
  import opened Dmi
  import opened DebugRom
  import opened Hart
  import opened System
  import opened Protocol
  import opened HartSteps
  import opened RomSteps
  import opened CodeSteps
  import opened Isa
  import F = CommandFsm
  import MW = MemWindow
  import AC = AbstractCommand
  import DM = DebugModule

  // ---- The steps of the generated code, as steps of the system ----

  lemma AtWordHere(s: Sys)
    requires Inv(s) && s.hart.mode == Parked && 0x338 <= Off(s) < 0x800
    ensures AtWord(s.hart, s.page, s.dm, Off(s), MW.CodeIndex(Off(s)))
    ensures Off(s) < 0x360 && Off(s) & 3 == 0 && MW.CodeIndex(Off(s)) < 10
  {
    hide AC.Fields, AC.TargetOf, AC.Unsupported, AtCode, MW.CodeIndex, HartAt, FsmAt;
    InExec(s);
    CodeOffsets(s);
  }

  lemma FaultingIsQuiet(h: Hart, ins: Instr)
    requires Faults(h, ins)
    ensures !Stores(MW.DecodeBus(DataAccess(h, ins)))
  {
    hide Faults;
  }

  lemma StoringWords(c: AC.Command, off: Offset, k: nat)
    requires k == MW.CodeIndex(off) && 0x338 <= off < 0x360 && off & 3 == 0 && k < 10
    requires AC.Routine(c, k).Store? || AC.Routine(c, k).FloatStore?
    ensures off == AccessPoint(c) && c.transfer
  {
    hide AC.TargetOf, MW.CodeIndex;
    WordOffset(off);
  }

  // Every word but the one that makes the access, and the nop into the program buffer.
  lemma CodeStep(s: Sys, i: Input)
    requires Executing(s, i) && 0x338 <= Off(s) < 0x800 && !Commits(s) && !RunsOn(s)
    ensures Inv(Next(s, i)) && SameUserRegs(s, Next(s, i)) && Evolves(s.dm, Next(s, i).dm)
    ensures Next(s, i).hart == Execute(s.hart, Current(s), s.page, LoadedWord(s))
    ensures Next(s, i).hart.mode == Parked && Next(s, i).hart.ir.None?
  {
    hide AC.Fields, AC.TargetOf, AC.Unsupported, AC.Routine, Next, MW.DecodeBus, Execute, Decode, DataAccess;
    hide MW.FlatWord, MW.CodeIndex;
    hide HartAt, FsmAt, Located, Faults, AtCode;
    var k := MW.CodeIndex(Off(s));
    AtWordHere(s);
    CodeInstruction(s, i);
    WordOffset(Off(s));
    if Faults(s.hart, Current(s)) {
      FaultingIsQuiet(s.hart, Current(s));
    } else {
      if Current(s).Store? || Current(s).FloatStore? { StoringWords(Cmd(s), Off(s), k); }
      OnlyStoresStore(s.hart, Current(s));
    }
    WordSettles(s.hart, s.page, s.dm, LoadedWord(s), Off(s), k);
    LiftLanding(s, i);
  }

  // ---- The access ----

  // A commit is at word 4 or word 6 of a supported transfer.
  lemma CommitPlace(s: Sys, i: Input)
    requires Executing(s, i) && Commits(s)
    ensures var c := Cmd(s);
            && s.dm.fsm == F.Exec
            && Current(s) == AC.Move(c, if AC.BorrowsS0(AC.TargetOf(c.regno)) then 6 else 4)
            && (if AC.BorrowsS0(AC.TargetOf(c.regno)) then AtWord(s.hart, s.page, s.dm, 0x350, 6)
                else AtWord(s.hart, s.page, s.dm, 0x348, 4))
  {
    hide AC.Fields, AC.TargetOf, AC.Unsupported, AC.Move, Decode, HartAt, FsmAt, Located, Faults, AtCode;
    hide MW.CodeIndex;
    AtWordHere(s);
    InExec(s);
    CodeInstruction(s, i);
    WordOffset(Off(s));
  }

  predicate Accesses(s: Sys, s': Sys)
  {
    && Inv(s') && UserOf(s') == Access(Cmd(s), s.hart.fpu, UserOf(s)) && !Traps(Cmd(s), s.hart.fpu, UserOf(s))
    && s'.dm.fsm == F.Exec && s'.dm.regs.command == s.dm.regs.command
    && s'.hart.mode == Parked && s'.hart.ir.None? && s'.hart.fpu == s.hart.fpu && Off(s') == Off(s) + 4
  }

  lemma CommitGprWrite(s: Sys, i: Input, n: RegIndex)
    requires Executing(s, i) && Commits(s)
    requires AC.TargetOf(Cmd(s).regno) == AC.Gpr(n) && n != A0 && Cmd(s).write
    ensures Accesses(s, Next(s, i))
  {
    hide AC.Fields, AC.TargetOf, AC.Unsupported, Next, MW.DecodeBus, Execute, Decode, DataAccess, MW.FlatWord;
    hide HartAt, FsmAt, Located, Faults, AtCode, SignExtend, UserGpr, UserCsr, DmOk, Set;
    CommitPlace(s, i);
    DataLoad(s.hart, s.page, s.dm, 0x348, 4, Current(s));
    LoadCommits(s.hart, s.page, s.dm, n);
    OnlyStoresStore(s.hart, Current(s));
    LiftLanding(s, i);
  }

  lemma CommitFprWrite(s: Sys, i: Input, n: RegIndex)
    requires Executing(s, i) && Commits(s)
    requires AC.TargetOf(Cmd(s).regno) == AC.Fpr(n) && Cmd(s).write
    ensures Accesses(s, Next(s, i))
  {
    hide AC.Fields, AC.TargetOf, AC.Unsupported, Next, MW.DecodeBus, Execute, Decode, DataAccess, MW.FlatWord;
    hide HartAt, FsmAt, Located, AtCode, SignExtend, UserGpr, UserCsr, DmOk, Set, Misaligned;
    CommitPlace(s, i);
    DataLoad(s.hart, s.page, s.dm, 0x348, 4, Current(s));
    FloatLoadCommits(s.hart, s.page, s.dm, n);
    OnlyStoresStore(s.hart, Current(s));
    LiftLanding(s, i);
  }

  // The CSR a write through s0 goes to: the one named, or the one a0 is kept in.
  function WrittenCsr(c: AC.Command): bv12
  {
    var t := AC.TargetOf(c.regno);
    if t.Csr? then t.addr else CSR_DSCRATCH1
  }

  lemma CsrWriteInstruction(s: Sys, i: Input)
    requires Executing(s, i) && Commits(s)
    requires AC.BorrowsS0(AC.TargetOf(Cmd(s).regno)) && Cmd(s).write
    ensures Current(s) == Csrrw(WrittenCsr(Cmd(s)), 0, S0) && AtWord(s.hart, s.page, s.dm, 0x350, 6) && Off(s) == 0x350
    ensures s.dm.fsm == F.Exec && !TargetsScratch(Cmd(s))
  {
    hide AC.Fields, AC.TargetOf, Decode, HartAt, FsmAt, Located, AtCode, Faults;
    CommitPlace(s, i);
  }

  lemma CsrIsUsers(csr: map<int, Word>, a: int)
    ensures a in csr && a != DSCRATCH0 && a != DSCRATCH1 ==> a in UserCsr(csr) && UserCsr(csr)[a] == csr[a]
  {
  }

  lemma CommitCsrWrite(s: Sys, i: Input)
    requires Executing(s, i) && Commits(s)
    requires AC.BorrowsS0(AC.TargetOf(Cmd(s).regno)) && Cmd(s).write
    ensures Accesses(s, Next(s, i))
  {
    hide AC.Fields, AC.TargetOf, AC.Unsupported, Next, MW.DecodeBus, Execute, Decode, DataAccess, MW.FlatWord;
    hide Inv, AtWord, SignExtend, UserGpr, ReadOnlyCsr, UserCsr, Set;
    CsrWriteInstruction(s, i);
    CsrIsUsers(s.hart.csr, WrittenCsr(Cmd(s)) as int);
    CsrWriteCommits(s.hart, s.page, s.dm, LoadedWord(s), WrittenCsr(Cmd(s)));
    OnlyStoresStore(s.hart, Current(s));
    LiftLanding(s, i);
  }

  lemma WholeWord(prior: Word, v: Word)
    ensures LowPart(prior, v, 2) == v
  {
    SameLanes(LowPart(prior, v, 2), v);
  }

  // The stored value is the register the command names, as the user sees it.
  lemma StoredValue(h: Hart, page: Page, d: DM.Dm, k: nat)
    requires var c := DM.CommandOf(d); var t := AC.TargetOf(c.regno);
             !c.write && if AC.BorrowsS0(t) then k == 6 && AtWord(h, page, d, 0x350, 6)
                         else k == 4 && AtWord(h, page, d, 0x348, 4) && (t.Fpr? ==> h.fpu && c.aarsize == 2)
    ensures var c := DM.CommandOf(d); var t, ins := AC.TargetOf(c.regno), AC.Move(c, k);
            && !Faults(h, ins) && (ins.Store? || ins.FloatStore?) && ins.rs1 == A0 && ins.offset == DATA as Word
            && ins.funct3 == c.aarsize
            && (ins.Store? ==> Get(h.gpr, ins.rs2) == match t case Gpr(n) => Get(UserGpr(h, h.pc.off, c), n)
                                                              case Csr(a) => CsrOr0(h.csr, a as int) case _ => 0)
            && (t.Csr? ==> t.addr as int in h.csr && !TargetsScratch(c))
            && (ins.FloatStore? ==> t == AC.Fpr(ins.rs2))
            && (t.Fpr? <==> ins.FloatStore?)
  {
    hide AC.Fields, AC.TargetOf, PageBase, Sum, Misaligned, UserCsr, HartAt, FsmAt, SignExtend;
    DataAddress(h, page, DM.CommandOf(d).aarsize);
    if AC.TargetOf(DM.CommandOf(d).regno).Gpr? { SavedIndex(AC.TargetOf(DM.CommandOf(d).regno).n); }
    hide OffsetOf;
  }

  lemma CommitRead(s: Sys, i: Input)
    requires Executing(s, i) && Commits(s) && !Cmd(s).write
    ensures Accesses(s, Next(s, i))
  {
    hide AC.Fields, AC.TargetOf, AC.Unsupported, AC.Move, Next, MW.DecodeBus, Decode, MW.FlatWord, WriteOf, LowPart;
    hide HartAt, FsmAt, Located, AtCode, UserGpr, DmOk, Misaligned, PcAdd;
    CommitPlace(s, i);
    var t, ins := AC.TargetOf(Cmd(s).regno), Current(s);
    if t.Fpr? { FprFault(s); }
    StoredValue(s.hart, s.page, s.dm, if AC.BorrowsS0(t) then 6 else 4);
    var v := if ins.Store? then Get(s.hart.gpr, ins.rs2) else s.hart.fpr[ins.rs2 as int];
    WholeWord(s.dm.regs.data[0], v);
    LiftStore(s, i, Cmd(s).aarsize, v);
  }

  lemma FprFault(s: Sys)
    requires s.hart.ir.Some? && Commits(s) && AC.TargetOf(Cmd(s).regno).Fpr? && Current(s) == AC.Move(Cmd(s), 4)
    ensures s.hart.fpu && Cmd(s).aarsize == 2
  {
    hide AC.Fields, AC.TargetOf, Decode, Misaligned;
  }

  // The one access of a command, at the one word that makes it.
  lemma CommitStep(s: Sys, i: Input)
    requires Executing(s, i) && Commits(s)
    ensures Accesses(s, Next(s, i))
  {
    hide AC.Fields, AC.TargetOf, AC.Unsupported, Next, HartAt, FsmAt, Located, Accesses, Decode, Faults;
    match AC.TargetOf(Cmd(s).regno)
    case Gpr(n) =>
      if !Cmd(s).write { CommitRead(s, i); }
      else if n == A0 { CommitCsrWrite(s, i); }
      else { CommitGprWrite(s, i, n); }
    case Fpr(n) => if Cmd(s).write { CommitFprWrite(s, i, n); } else { CommitRead(s, i); }
    case Csr(_) => if Cmd(s).write { CommitCsrWrite(s, i); } else { CommitRead(s, i); }
  }

  // A word that faults names a register that is not there, or is the illegal one.
  lemma FaultingWord(h: Hart, c: AC.Command, k: nat)
    requires HartOk(h) && k < 10 && !AC.Unsupported(c) && (k > 0 ==> c.transfer)
    requires 4 <= k <= 8 ==> !Misaligned(Address(h, A0, DATA as Word), c.aarsize)
    requires Faults(h, AC.Routine(c, k))
    ensures c.transfer ==>
              match AC.TargetOf(c.regno)
              case Gpr(_) => false
              case Fpr(_) => !h.fpu || c.aarsize != 2
              case Csr(a) => a as int !in h.csr || (c.write && ReadOnlyCsr(a))
  {
    hide AC.TargetOf, Misaligned, Address;
  }

  // A command's code faults only if the command cannot be carried out.
  lemma FaultTraps(s: Sys, i: Input)
    requires Executing(s, i) && 0x338 <= Off(s) < 0x800 && Faults(s.hart, Current(s))
    ensures Traps(Cmd(s), s.hart.fpu, UserOf(s))
  {
    hide AC.Fields, AC.TargetOf, AC.Unsupported, AC.Routine, HartAt, FsmAt, Located, Decode, UserGpr;
    hide Misaligned, MW.CodeIndex, Faults, ReadOnlyCsr, UserCsr;
    var k := MW.CodeIndex(Off(s));
    AtWordHere(s);
    InExec(s);
    CodeInstruction(s, i);
    if 4 <= k <= 8 { BaseIfMoving(s, k); }
    FaultingWord(s.hart, Cmd(s), k);
    CsrOnlyUsers(s.hart.csr);
  }

  lemma CsrOnlyUsers(csr: map<int, Word>)
    ensures UserCsr(csr).Keys <= csr.Keys
  {
  }

  lemma BaseIfMoving(s: Sys, k: nat)
    requires AtWord(s.hart, s.page, s.dm, Off(s), k) && 4 <= k < 10
    ensures k <= 8 ==> !Misaligned(Address(s.hart, A0, DATA as Word), Cmd(s).aarsize)
  {
    hide AC.Fields, AC.TargetOf, AC.Unsupported, Ready, AtCode, Misaligned;
    if k <= 8 {
      BaseInA0(s.hart, s.page, s.dm, Off(s), k);
      DataAddress(s.hart, s.page, Cmd(s).aarsize);
    }
  }

  // ---- Into the code, and into the program buffer ----

  // What whereto holds while a command runs.
  lemma WheretoInstruction(s: Sys, i: Input)
    requires Executing(s, i) && Off(s) == WHERETO
    ensures Current(s) == Jal(0, if Cmd(s).postexec && !Cmd(s).transfer then 0x60 else 0x38)
  {
    hide AC.Fields, AC.TargetOf, HartAt, FsmAt, Decode, EncodeJal;
    InExec(s);
    JalRoundTrip(0, 0x60);
    JalRoundTrip(0, 0x38);
  }

  predicate EntersProgram(s: Sys)
  {
    && s.hart.mode == Parked && s.hart.ir.Some?
    && (if Off(s) == WHERETO then Cmd(s).postexec && !Cmd(s).transfer else RunsOn(s))
  }

  lemma WheretoStep(s: Sys, i: Input)
    requires Executing(s, i) && Off(s) == WHERETO && !EntersProgram(s)
    ensures var s' := Next(s, i);
            Inv(s') && SameUserRegs(s, s') && Evolves(s.dm, s'.dm) && Off(s') == ABSTRACT && s'.hart.mode == Parked
              && s'.hart.ir.None?
  {
    hide AC.Fields, AC.TargetOf, AC.Unsupported, Next, MW.DecodeBus, Decode, DataAccess, MW.FlatWord, PcAdd;
    hide Sum, Addr;
    WheretoInstruction(s, i);
    WheretoTargets(s.page);
    OnlyStoresStore(s.hart, Current(s));
    WheretoSettles(s.hart, s.page, s.dm, LoadedWord(s));
    LiftLanding(s, i);
  }

  lemma WheretoSettles(h: Hart, page: Page, d: DM.Dm, word: Word)
    requires Ready(h, page, d) && h.pc.off == WHERETO && d.fsm == F.Exec
             && !(DM.CommandOf(d).postexec && !DM.CommandOf(d).transfer)
    ensures Settles(h, Execute(h, Jal(0, 0x38), page, word), page, d)
  {
    hide AC.Fields, AC.TargetOf, AC.Unsupported, PcAdd, Sum, Addr, UserCsr;
    WheretoTargets(page);
  }

  lemma EntryInstruction(s: Sys, i: Input)
    requires Executing(s, i) && EntersProgram(s)
    ensures Execute(s.hart, Current(s), s.page, LoadedWord(s)) == s.hart.(pc := Pc(s.page, PROGBUF), ir := None)
    ensures UserGpr(s.hart, Off(s), Cmd(s)) == s.hart.gpr && !Current(s).Store? && !Current(s).FloatStore?
  {
    hide AC.Fields, AC.TargetOf, AC.Unsupported, Decode, DataAccess, MW.FlatWord, PcAdd, Sum, Addr, FsmAt;
    if Off(s) == WHERETO {
      WheretoInstruction(s, i);
      WheretoTargets(s.page);
    } else {
      CodeInstruction(s, i);
      PcStep(s.page, 0x35c);
    }
  }

  // The jump from whereto and the nop at the end of the code both enter the program
  // buffer with the user's registers in place.
  lemma EnterProgramStep(s: Sys, i: Input)
    requires Executing(s, i) && EntersProgram(s)
    ensures var s' := Next(s, i);
            && Inv(s') && SameUserRegs(s, s') && Evolves(s.dm, s'.dm)
            && s'.hart.mode == Program && s'.hart.gpr == UserOf(s).gpr && s'.hart.pc == Pc(s.page, PROGBUF)
  {
    hide AC.Fields, AC.TargetOf, AC.Unsupported, DM.Next, MW.DecodeBus, Decode, DataAccess, MW.FlatWord;
    hide Execute, S0Saved, A0Saved, HartAt, FsmAt;
    InExec(s);
    EntryInstruction(s, i);
    OnlyStoresStore(s.hart, Current(s));
    QuietEvolves(s.dm, i.req, Bus(s, Tick));
  }

  // ---- User code and program-buffer code ----

  lemma RunningStep(s: Sys, i: Input)
    requires Inv(s) && Allowed(s, i) && s.hart.mode == Running
    ensures Inv(Next(s, i)) && Evolves(s.dm, Next(s, i).dm)
    ensures !i.move.UserStep? && !i.move.EnterDebug? ==> SameUserRegs(s, Next(s, i))
    ensures var h' := Next(s, i).hart;
            h'.mode == Running || (h'.mode == Parked && h'.pc == Pc(s.page, ENTRY) && h'.ir.None?)
  {
    hide AC.Fields, AC.TargetOf, AC.Unsupported, DM.Next;
    QuietEvolves(s.dm, i.req, Bus(s, i.move));
  }

  // The module's side of a cycle of program-buffer code.
  lemma ProgramEvolves(d: DM.Dm, req: Option<Request>, b: MW.BusRequest)
    requires DmOk(d) && AllowedRequest(d, req) && d.fsm == F.Exec && !Handshakes(b)
    ensures var d' := DM.Next(d, req, b);
            DmOk(d') && d'.fsm == F.Exec && d'.halted && d'.regs.command == d.regs.command
              && d'.regs.progbuf == d.regs.progbuf
    ensures !Stores(MW.DecodeBus(b)) ==> Evolves(d, DM.Next(d, req, b))
  {
    hide AC.Fields, AC.Unsupported, AC.TargetOf, MW.DecodeBus, DM.Next;
    if MW.DecodeBus(b) == MW.WriteData { DataStep(d, req, b); } else { QuietEvolves(d, req, b); }
  }

  lemma ProgramModeStep(s: Sys, i: Input)
    requires Inv(s) && Allowed(s, i) && s.hart.mode == Program
    ensures Inv(Next(s, i)) && Next(s, i).dm.fsm == F.Exec && Cmd(Next(s, i)) == Cmd(s)
    ensures !i.move.ProgramStep? ==> Evolves(s.dm, Next(s, i).dm)
    ensures !i.move.ProgramStep? && !i.move.ProgramFault? ==> SameUserRegs(s, Next(s, i))
    ensures var h' := Next(s, i).hart;
            h'.mode == Program
              || (h'.mode == Parked && (h'.pc.off == ENTRY || h'.pc.off == EXCEPTION_VECTOR) && h'.ir.None?)
  {
    hide AC.Fields, AC.TargetOf, AC.Unsupported, DM.Next, MW.DecodeBus;
    assert !i.move.ProgramStep? ==> Bus(s, i.move) == QUIET;
    QuietBus();
    ProgramEvolves(s.dm, i.req, Bus(s, i.move));
  }

  lemma QuietBus()
    ensures MW.DecodeBus(QUIET) == MW.NoStrobe && !Handshakes(QUIET)
  {
  }
}
