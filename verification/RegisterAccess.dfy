/** What a debugger gets for a command word: from the DMI write of the number of a
    command to the number that a read of data0, or of abstractcs, brings back. */
module RegisterAccess {
  import opened Words
  import opened Numbers
  import opened Dmi
  import opened DmiView
  import opened System
  import opened Protocol
  import opened Atomicity
  import opened Commands
  import opened Hart
  import opened CommandErrors
  import opened CommandWords
  import F = CommandFsm
  import DC = DmiControl
  import CR = ControlRegs
  import MW = MemWindow
  import AC = AbstractCommand
  import DM = DebugModule

  // A module that can take a command.
  predicate Free(s: Sys)
  {
    Inv(s) && s.dm.fsm == F.Idle && s.dm.halted && !s.dm.dmi.cmdValid && !Asked(s.dm)
  }

  // The debugger writes a command word, waits for a cycle, and lets it run.
  predicate Commanded(s: Sys, w: Word, i1: Input, i2: Input, ins: seq<Input>)
  {
    && Free(s) && i1.req == Some(WriteAt(0x17, w)) && i2.req.None?
    && Allowed(s, i1) && Allowed(Next(s, i1), i2)
    && AllowedRun(Next(Next(s, i1), i2), ins) && BusyRun(Next(Next(s, i1), i2), ins)
  }

  function End(s: Sys, i1: Input, i2: Input, ins: seq<Input>): Sys { System.Run(Next(Next(s, i1), i2), ins) }

  lemma CommandWritten(s: Sys, w: Word, i1: Input, i2: Input)
    requires i1.req == Some(WriteAt(0x17, w)) && i2.req.None?
    ensures Starts(s.dm, i1.req) && StartedCommand(s, i1.req) == AC.Fields(w)
    ensures Written(Written(UserOf(s), i1.req), i2.req) == UserOf(s)
  {
    hide AC.Fields, UserOf;
  }

  // The word with the number of an access to register p makes that access.
  lemma WordMakesAccess(s: Sys, w: Word, i1: Input, i2: Input, ins: seq<Input>, p: Place, size: int, write: bool,
      postexec: bool)
    requires Commanded(s, w, i1, i2, ins) && AccessWord(w, p, size, write, postexec)
    requires Accessible(p, size, write, s.hart.fpu, UserOf(s).csr.Keys)
    requires var e := End(s, i1, i2, ins); e.dm.fsm == F.Idle || e.hart.mode == Program
    ensures Holds(UserOf(s), p) && Accessed(p, size, write, UserOf(s), UserOf(End(s, i1, i2, ins)))
  {
    hide AC.Fields, AC.Unsupported, Named, Next, UserOf, Inv, Access, Accessed, Accessible, Allowed, RegisterAt;
    AccessWordFields(w, p, size, write, postexec);
    CommandWritten(s, w, i1, i2);
    DebuggerAccess(s, i1, i2, ins);
    AccessByNumber(AC.Fields(w), p, s.hart.fpu, UserOf(s));
  }

  // The reply has the old value of data0 with its low bits replaced by those of register
  // p; data0 is the reply, and nothing else has changed.
  predicate IsRead(u: User, p: Place, size: int, r: Response, u': User)
  {
    && Holds(u, p) && r.resp == 0 && r.data as int == Replaced(u.data[0] as int, Value(u, p), size)
    && u' == u.(data := [r.data, u.data[1]])
  }

  // Register p has the low bits of v, sign-extended, and nothing else has changed.
  predicate IsWritten(u: User, p: Place, size: int, v: Word, u': User)
  {
    Holds(u, p) && ChangesOnly(u, u', p) && (p == X(0) || Value(u', p) == Extended(v as int, size))
  }

  // When busy falls after a read, data0 reads back its old value with the low bits
  // replaced by those of the register, and the registers are what they were.
  lemma RegisterIsRead(s: Sys, u: User, w: Word, i1: Input, i2: Input, ins: seq<Input>, e: Sys, p: Place, size: int,
      r: Response, other: Response)
    requires Commanded(s, w, i1, i2, ins) && AccessWord(w, p, size, false, false) && u == UserOf(s)
    requires Accessible(p, size, false, s.hart.fpu, u.csr.Keys) && e == End(s, i1, i2, ins) && e.dm.fsm == F.Idle
    requires r == DM.Respond(e.dm, ReadAt(0x04), other)
    ensures IsRead(u, p, size, r, UserOf(e))
  {
    hide AC.Fields, AC.Unsupported, Named, Next, Inv, Access, Accessible, Allowed, UserGpr, UserCsr, Replaced, Value;
    WordMakesAccess(s, w, i1, i2, ins, p, size, false, false);
    ShownIsContent(e.dm, D(0), other);
  }

  // ---- Data first, then the command ----

  // A cycle that starts no command and asks for no resume.
  predicate Harmless(d: DM.Dm, req: Option<Request>)
  {
    !Starts(d, req) && !WritesTo(req, DmControl)
  }

  lemma FreeStep(s: Sys, i: Input)
    requires Free(s) && Allowed(s, i) && Harmless(s.dm, i.req)
    ensures Free(Next(s, i)) && UserOf(Next(s, i)) == Written(UserOf(s), i.req)
    ensures Next(s, i).hart.fpu == s.hart.fpu
  {
    hide AC.Fields, AC.Unsupported, DM.Next, MW.DecodeBus, Bus, UserOf, NextHart, Located, HartOk, DC.Triggers;
    hide WrittenData, WrittenProgbuf;
    HaltedIsParked(s);
    InvDmOk(s);
    StepKeepsInv(s, i);
    IdleStep(s, i);
    IdleUser(s, i);
    FpuStays(s, i);
    IdleStays(s.dm, i.req, Bus(s, i.move));
    hide Inv, Next;
  }

  lemma IdleStays(d: DM.Dm, req: Option<Request>, b: MW.BusRequest)
    requires DmOk(d) && d.fsm == F.Idle && d.halted && !d.dmi.cmdValid && !Asked(d) && Harmless(d, req)
    requires MW.DecodeBus(b) != MW.WriteResuming
    ensures var d' := DM.Next(d, req, b); d'.fsm == F.Idle && d'.halted && !d'.dmi.cmdValid && !Asked(d')
  {
    hide AC.Fields, AC.Unsupported, AC.TargetOf, MW.DecodeBus, MW.Stored, MW.NextPath, CR.Next, CR.Written, DC.AutoExec;
    CR.RequestBits(d.regs, false, req, DM.StoredData(d, b), d.resuming);
  }

  predicate Pause(ins: seq<Input>) { forall k | 0 <= k < |ins| :: ins[k].req.None? }

  lemma {:induction false} PauseKeeps(s: Sys, gap: seq<Input>)
    requires Free(s) && AllowedRun(s, gap) && Pause(gap)
    ensures Free(System.Run(s, gap)) && UserOf(System.Run(s, gap)) == UserOf(s)
    ensures System.Run(s, gap).hart.fpu == s.hart.fpu
    decreases |gap|
  {
    hide Free, Next, UserOf, Allowed;
    if gap != [] {
      assert gap[0].req.None?;
      assert forall k | 0 <= k < |gap[1..]| :: gap[1..][k] == gap[k + 1];
      FreeStep(s, gap[0]);
      NothingWritten(UserOf(s));
      PauseKeeps(Next(s, gap[0]), gap[1..]);
    }
  }

  lemma NothingWritten(u: User)
    ensures Written(u, None) == u
  {
  }

  lemma DataWritten(s: Sys, v: Word, i: Input)
    requires i.req == Some(WriteAt(0x04, v)) && !Bit(s.dm.regs.autoData as int, 1)
    ensures Harmless(s.dm, i.req) && Written(UserOf(s), i.req) == UserOf(s).(data := [v, UserOf(s).data[1]])
  {
    hide UserOf, Bit, DC.Triggers;
    StartsByNumber(s.dm.regs.autoData, 0x04, 2, v);
  }

  // Data0 written with v, any pause, and the word of a write command: when busy falls
  // the register has the low bits of v, sign-extended; data0 still has v, and nothing
  // else has changed.
  lemma RegisterIsWritten(s: Sys, u: User, v: Word, i: Input, gap: seq<Input>, t: Sys, w: Word, i1: Input, i2: Input,
      ins: seq<Input>, e: Sys, p: Place, size: int)
    requires Free(s) && Allowed(s, i) && i.req == Some(WriteAt(0x04, v)) && !Bit(s.dm.regs.autoData as int, 1)
    requires AllowedRun(Next(s, i), gap) && Pause(gap) && t == System.Run(Next(s, i), gap)
    requires Commanded(t, w, i1, i2, ins) && AccessWord(w, p, size, true, false)
    requires u == UserOf(s).(data := [v, UserOf(s).data[1]]) && e == End(t, i1, i2, ins) && e.dm.fsm == F.Idle
    requires Accessible(p, size, true, s.hart.fpu, u.csr.Keys)
    ensures IsWritten(u, p, size, v, UserOf(e))
  {
    hide Free, AC.Fields, Next, UserOf, Allowed, Accessible, Extended, Value, ChangesOnly, RegisterAt, Bit, Harmless;
    DataWritten(s, v, i);
    FreeStep(s, i);
    PauseKeeps(Next(s, i), gap);
    WordMakesAccess(t, w, i1, i2, ins, p, size, true, false);
  }

  // ---- What abstractcs says ----

  // The field at bits 8 to 10 of a read of abstractcs.
  function ShownError(d: DM.Dm, other: Response): int
  {
    (DM.Respond(d, ReadAt(0x16), other).data as int / 0x100) % 8
  }

  lemma ErrorField(n: int, e: int)
    requires 0 <= e < 8 && n == 2 + 0x100 * e + 8 * 0x100_0000
    ensures (n / 0x100) % 8 == e
  {
    PartOf(n, 0x100, 8, 0x1_0000, e, 2);
  }

  lemma ErrorIsShown(d: DM.Dm, other: Response)
    ensures ShownError(d, other) == d.dmi.cmderr as int
  {
    hide DM.Respond;
    StatusShown(d, other);
    ErrorRange(d.dmi.cmderr);
    ErrorField(DM.Respond(d, ReadAt(0x16), other).data as int, d.dmi.cmderr as int);
  }

  lemma ErrorRange(e: bv3)
    ensures 0 <= e as int < 8
  {
  }

  lemma AcceptedKeepsError(s: Sys, w: Word, i1: Input, i2: Input)
    requires Free(s) && Allowed(s, i1) && Allowed(Next(s, i1), i2)
    requires i1.req == Some(WriteAt(0x17, w)) && i2.req.None? && !AC.Unsupported(AC.Fields(w))
    ensures Next(Next(s, i1), i2).dm.dmi.cmderr == s.dm.dmi.cmderr
  {
    hide AC.Fields, AC.Unsupported, DM.Next, MW.DecodeBus, Bus, UserOf, NextHart, Located, HartOk, DC.Triggers;
    var s1 := Next(s, i1);
    CommandWritten(s, w, i1, i2);
    HearsNoCommand(s, i1);
    InvDmOk(s);
    IdleAccepts(s.dm, i1.req, Bus(s, i1.move));
    IdleData(s.dm, i1.req, Bus(s, i1.move));
    StepKeepsInv(s, i1);
    HearsNoCommand(s1, i2);
    InvDmOk(s1);
    hide Inv;
    SilentCycle(s1.dm, Bus(s1, i2.move));
  }

  lemma SilentCycle(d: DM.Dm, b: MW.BusRequest)
    requires DmOk(d) && d.fsm == F.Idle && !AC.Unsupported(DM.CommandOf(d)) && MW.DecodeBus(b) != MW.WriteException
    ensures DM.Next(d, None, b).dmi.cmderr == d.dmi.cmderr
  {
    hide AC.Fields, AC.Unsupported, AC.TargetOf, MW.DecodeBus, MW.Stored, MW.NextPath, CR.Next, CR.Written;
  }

  // When busy falls abstractcs shows error 3 if the register cannot be accessed, and what
  // it showed before if it can; as long as the debugger leaves the busy registers alone.
  lemma TrapIsShown(s: Sys, w: Word, i1: Input, i2: Input, ins: seq<Input>, p: Place, size: int, write: bool,
      other: Response)
    requires Commanded(s, w, i1, i2, ins) && AccessWord(w, p, size, write, false) && Discreet(ins)
    requires End(s, i1, i2, ins).dm.fsm == F.Idle
    ensures ShownError(End(s, i1, i2, ins).dm, other)
            == if Accessible(p, size, write, s.hart.fpu, UserOf(s).csr.Keys) then ShownError(s.dm, other) else 3
  {
    hide AC.Fields, AC.Unsupported, Named, Next, UserOf, Traps, Accessible, Allowed, RegisterAt, Discreet, ShownError;
    hide Located;
    AccessWordFields(w, p, size, write, false);
    CommandWritten(s, w, i1, i2);
    CommandStarts(s, i1, i2);
    FpuStays(s, i1);
    FpuStays(Next(s, i1), i2);
    AcceptedKeepsError(s, w, i1, i2);
    CommandReportsTraps(Next(Next(s, i1), i2), ins);
    TrapsByNumber(AC.Fields(w), p, s.hart.fpu, UserOf(s));
    ErrorIsShown(s.dm, other);
    ErrorIsShown(End(s, i1, i2, ins).dm, other);
    ExceptionNumber();
  }

  lemma ExceptionNumber()
    ensures ERR_EXCEPTION as int == 3 && ERR_NOT_SUPPORTED as int == 2
  {
  }

  // The number of a word that is no supported command.
  predicate Refused(n: int)
  {
    || n >= 0x100_0000 || (n / 0x10_0000) % 8 >= 3 || Bit(n, 0x8_0000)
    || (Bit(n, 0x2_0000) && n % 0x1_0000 >= 0x4000)
  }

  lemma RefusedDigits(n: int, cmdtype: int, zero: bool, aarsize: int, incr: bool, exec: bool, transfer: bool,
      write: bool, regno: int)
    requires 0 <= cmdtype < 256 && 0 <= aarsize < 8 && 0 <= regno < 0x1_0000
    requires n == WordNumber(cmdtype, zero, aarsize, incr, exec, transfer, write, regno)
    ensures Refused(n) <==> cmdtype > 0 || aarsize >= 3 || incr || (transfer && regno >= 0x4000)
  {
    var e := Flag(write);
    var d := Flag(exec) * 2 + Flag(transfer);
    var b := (cmdtype * 2 + Flag(zero)) * 8 + aarsize;
    DivOf(n / 0x1_0000, 0x1_0000, regno);
    PartOf(n, 0x10_0000, 8, cmdtype * 2 + Flag(zero), aarsize, Flag(incr) * 0x8_0000 + d * 0x2_0000 + e * 0x1_0000
      + regno);
    PartOf(n, 0x8_0000, 2, b, Flag(incr), d * 0x2_0000 + e * 0x1_0000 + regno);
    PartOf(n, 0x2_0000, 2, (b * 2 + Flag(incr)) * 2 + Flag(exec), Flag(transfer), e * 0x1_0000 + regno);
    DivOf(((b * 2 + Flag(incr)) * 2 + Flag(exec)) * 4 + Flag(transfer) * 2 + e, 0x1_0000, regno);
  }

  lemma RefusedIsUnsupported(w: Word)
    ensures AC.Unsupported(AC.Fields(w)) <==> Refused(w as int)
  {
    hide AC.Fields, AC.Unsupported, Bit23, WordNumber, Refused;
    var c := AC.Fields(w);
    FieldsMakeWord(w);
    SupportedByNumber(c);
    FieldRanges(c);
    RefusedDigits(w as int, c.cmdtype as int, Bit23(w), c.aarsize as int, c.postincrement, c.postexec, c.transfer,
      c.write, c.regno as int);
  }

  lemma FieldRanges(c: AC.Command)
    ensures 0 <= c.cmdtype as int < 256 && 0 <= c.aarsize as int < 8 && 0 <= c.regno as int < 0x1_0000
  {
  }

  // A command of another type, of another size, with post-increment, or of a reserved
  // register sets error 2, and runs nothing.
  lemma UnsupportedIsShown(s: Sys, w: Word, i1: Input, i2: Input, other: Response)
    requires Free(s) && Allowed(s, i1) && Allowed(Next(s, i1), i2)
    requires i1.req == Some(WriteAt(0x17, w)) && i2.req.None? && Refused(w as int)
    ensures var e := Next(Next(s, i1), i2);
            e.dm.fsm == F.Idle && UserOf(e) == UserOf(s) && ShownError(e.dm, other) == 2
  {
    hide AC.Fields, AC.Unsupported, Next, UserOf, Allowed, ShownError, Located, Refused;
    RefusedIsUnsupported(w);
    CommandWritten(s, w, i1, i2);
    CommandStarts(s, i1, i2);
    ErrorIsShown(Next(Next(s, i1), i2).dm, other);
    ExceptionNumber();
  }
}
