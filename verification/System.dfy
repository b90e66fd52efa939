/** One hart and one debug module, clocked together: in each cycle the DMI may
    deliver a request and the hart may take its next bus step, or stall. */
module System {
  import opened Words
  import opened Dmi
  import opened DebugRom
  import opened Hart
  import Isa
  import CR = ControlRegs
  import MW = MemWindow
  import AC = AbstractCommand
  import DM = DebugModule

  datatype Sys = Sys(page: Page, dm: DM.Dm, hart: Hart)

  // What the hart does in a cycle. A halt writes dpc and dcsr. A parked hart takes the next micro-step of the
  // code it is given: a fetch, or the execution of what it fetched. User code and
  // program-buffer code are any code; the latter may use the bus.
  datatype Move =
    | Stall
    | Tick
    | EnterDebug(dpc: Word, dcsr: Word)
    | UserStep(gpr: RegFile, fpr: RegFile, csr: map<int, Word>)
    | ProgramStep(gpr: RegFile, fpr: RegFile, csr: map<int, Word>, bus: MW.BusRequest)
    | ProgramEnd
    | ProgramFault

  datatype Input = Input(req: Option<Request>, move: Move)

  function InstructionAt(d: DM.Dm, off: Offset): Word
  {
    MW.FlatWord(DM.ViewOf(d), off)
  }

  // The bus request of the hart in this cycle.
  function Bus(s: Sys, m: Move): MW.BusRequest
  {
    if s.hart.mode == Parked && m == Tick then
      if s.hart.ir.None? then ReadOf(Addr(s.hart.pc)) else DataAccess(s.hart, Isa.Decode(s.hart.ir.value))
    else if s.hart.mode == Program && m.ProgramStep? then m.bus
    else QUIET
  }

  // A parked hart executes; a jump to the program buffer leaves the module's code.
  function Executed(s: Sys): Hart
    requires s.hart.ir.Some?
  {
    var i := Isa.Decode(s.hart.ir.value);
    var word := MW.FlatWord(DM.ViewOf(s.dm), OffsetOf(DataAccess(s.hart, i).addr));
    var h := Execute(s.hart, i, s.page, word);
    if h.mode == Parked && h.pc == Pc(s.page, PROGBUF) then h.(mode := Program) else h
  }

  function HaltCsrs(csr: map<int, Word>, m: Move): map<int, Word>
    requires m.EnterDebug?
  {
    csr[Isa.CSR_DCSR as int := m.dcsr][Isa.CSR_DPC as int := m.dpc]
  }

  function NextHart(s: Sys, m: Move): Hart
  {
    var h := s.hart;
    match h.mode
    case Running =>
      if m.EnterDebug? then h.(mode := Parked, pc := Pc(s.page, ENTRY), ir := None, csr := HaltCsrs(h.csr, m))
      else if m.UserStep? then h.(gpr := m.gpr, fpr := m.fpr, csr := m.csr)
      else h
    case Parked =>
      if m != Tick then h
      else if h.ir.None? then h.(ir := Some(InstructionAt(s.dm, h.pc.off)))
      else Executed(s)
    case Program =>
      if m.ProgramStep? then h.(gpr := m.gpr, fpr := m.fpr, csr := m.csr)
      else if m == ProgramEnd then h.(mode := Parked, pc := Pc(s.page, ENTRY))
      else if m == ProgramFault then h.(mode := Parked, pc := Pc(s.page, EXCEPTION_VECTOR))
      else h
  }

  function Next(s: Sys, i: Input): (s': Sys)
  {
    Sys(s.page, DM.Next(s.dm, i.req, Bus(s, i.move)), NextHart(s, i.move))
  }

  // ---- Assumptions on the environment ----

  // Commands that access one of the two scratch registers the code itself uses.
  predicate TargetsScratch(c: AC.Command)
  {
    var t := AC.TargetOf(c.regno);
    c.transfer && !AC.Unsupported(c) && t.Csr? && (t.addr as int == DSCRATCH0 || t.addr as int == DSCRATCH1)
  }

  // The debugger keeps the module active and out of reset, does not start an access to
  // the scratch registers, and does not replace a command in the one cycle in which it
  // has been accepted but does not yet report busy.
  predicate AllowedRequest(d: DM.Dm, req: Option<Request>)
  {
    && (WritesTo(req, DmControl) ==> CR.DmactiveField(req.value.data) && !CR.NdmresetField(req.value.data))
    && (WritesTo(req, Command) && !DM.Busy(d) ==> !d.dmi.cmdValid && !TargetsScratch(AC.Fields(req.value.data)))
  }

  predicate KeepsCsrs(csr: map<int, Word>, csr': map<int, Word>)
  {
    csr'.Keys == csr.Keys && MHARTID in csr && csr'[MHARTID] == csr[MHARTID]
  }

  // Only the module's own code stores to the four handshake addresses.
  predicate Handshakes(b: MW.BusRequest)
  {
    MW.DecodeBus(b) in {MW.WriteHalted, MW.WriteGoing, MW.WriteResuming, MW.WriteException}
  }

  predicate AllowedMove(h: Hart, m: Move)
  {
    && (m.UserStep? ==> KeepsCsrs(h.csr, m.csr))
    && (m.ProgramStep? ==> KeepsCsrs(h.csr, m.csr) && !Handshakes(m.bus))
  }

  predicate Allowed(s: Sys, i: Input)
  {
    AllowedRequest(s.dm, i.req) && AllowedMove(s.hart, i.move)
  }

  // ---- Runs ----

  function Run(s: Sys, ins: seq<Input>): (s': Sys)
    decreases |ins|
  {
    if ins == [] then s else Run(Next(s, ins[0]), ins[1..])
  }

  predicate AllowedRun(s: Sys, ins: seq<Input>)
    decreases |ins|
  {
    ins == [] || (Allowed(s, ins[0]) && AllowedRun(Next(s, ins[0]), ins[1..]))
  }

  // ---- The user's state, wherever it is kept ----

  datatype User = User(gpr: RegFile, fpr: RegFile, csr: map<int, Word>, data: CR.Data, progbuf: CR.Progbuf)

  function UserCsr(csr: map<int, Word>): map<int, Word>
  {
    csr - {DSCRATCH0, DSCRATCH1}
  }

  // The offsets at which the user's s0 is in dscratch0, and a0 in dscratch1.
  predicate S0Saved(off: Offset, c: AC.Command)
  {
    || 0x820 <= off <= 0x85c
    || off == RESUME || off == EXCEPTION_VECTOR
    || 0x860 <= off <= 0x874 || 0x87c <= off <= 0x884 || 0x88c <= off <= 0x898
    || (0x34c <= off <= 0x354 && c.transfer && AC.BorrowsS0(AC.TargetOf(c.regno)))
  }

  predicate A0Saved(off: Offset)
  {
    || 0x824 <= off <= 0x85c
    || off == RESUME || off == EXCEPTION_VECTOR
    || 0x860 <= off <= 0x870 || 0x87c <= off <= 0x880 || 0x88c <= off <= 0x894
    || 0x33c <= off <= 0x358
  }

  function UserGpr(h: Hart, off: Offset, c: AC.Command): RegFile
  {
    if h.mode != Parked then h.gpr
    else
      var g := if S0Saved(off, c) then h.gpr[Isa.S0 as int := CsrOr0(h.csr, DSCRATCH0)] else h.gpr;
      if A0Saved(off) then g[Isa.A0 as int := CsrOr0(h.csr, DSCRATCH1)] else g
  }

  // The hart's place in the window.
  function Off(s: Sys): Offset { s.hart.pc.off }

  function Cmd(s: Sys): AC.Command { DM.CommandOf(s.dm) }

  function UserOf(s: Sys): User
  {
    User(UserGpr(s.hart, Off(s), Cmd(s)), s.hart.fpr, UserCsr(s.hart.csr), s.dm.regs.data, s.dm.regs.progbuf)
  }

  // ---- The atomic meaning of a command ----

  // Commands that end in an exception instead of an access.
  predicate Traps(c: AC.Command, fpu: bool, u: User)
  {
    if !c.transfer then !c.postexec
    else match AC.TargetOf(c.regno)
      case Gpr(_) => false
      case Fpr(_) => !fpu || c.aarsize != 2
      case Csr(a) => a as int !in u.csr || (c.write && ReadOnlyCsr(a))
  }

  function LowPart(prior: Word, v: Word, size: bv3): Word
  {
    Merge(prior, v, AccessLanes(size, 0))
  }

  // One register access: a write takes data0, sign-extended from the access size; a
  // read replaces as many low bytes of data0.
  function Access(c: AC.Command, fpu: bool, u: User): (u': User)
  {
    if Traps(c, fpu, u) || !c.transfer then u
    else
      var d := u.data[0];
      match AC.TargetOf(c.regno)
      case Gpr(n) =>
        if c.write then u.(gpr := Set(u.gpr, n, SignExtend(d, c.aarsize)))
        else u.(data := u.data[0 := LowPart(d, Get(u.gpr, n), c.aarsize)])
      case Fpr(n) =>
        if c.write then u.(fpr := u.fpr[n as int := d]) else u.(data := u.data[0 := u.fpr[n as int]])
      case Csr(a) =>
        if c.write then u.(csr := u.csr[a as int := SignExtend(d, c.aarsize)])
        else u.(data := u.data[0 := LowPart(d, u.csr[a as int], c.aarsize)])
  }
}
