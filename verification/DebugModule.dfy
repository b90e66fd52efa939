/** DM_top without the system bus: the command path from the DMI to the window. */
module DebugModule {
  import opened Words
  import opened Dmi
  import F = CommandFsm
  import DC = DmiControl
  import CR = ControlRegs
  import MW = MemWindow
  import AC = AbstractCommand

  datatype Dm = Dm(fsm: F.State, dmi: DC.Regs, regs: CR.Regs, halted: bool, resuming: bool, path: MW.ReadPath)

  function CommandOf(d: Dm): AC.Command { AC.Fields(d.regs.command) }

  predicate Busy(d: Dm) { d.fsm != F.Idle }

  // The inputs of the command state machine in a cycle with strobe `st`.
  function FsmInputs(d: Dm, st: MW.Strobe): F.Inputs
  {
    F.Inputs(d.dmi.cmdValid, d.halted, AC.Unsupported(CommandOf(d)), d.regs.resumereq, d.resuming, d.regs.haltreq,
             st == MW.WriteGoing, st == MW.WriteException, d.regs.ndmreset, st == MW.WriteHalted)
  }

  // What the memory side sees in this cycle.
  function ViewOf(d: Dm): MW.View
  {
    var live := !d.regs.ndmreset;
    MW.View(Busy(d), d.fsm == F.Go && live, d.fsm == F.Res && live, d.regs.resumereq,
            CommandOf(d), d.regs.data, d.regs.progbuf)
  }

  function StoredData(d: Dm, b: MW.BusRequest): Option<CR.Data>
  {
    if MW.DecodeBus(b) == MW.WriteData then Some(MW.Stored(d.regs.data, b.addr, b.be, b.wdata)) else None
  }

  // One clock with an accepted DMI request and a request of the hart.
  function Next(d: Dm, req: Option<Request>, b: MW.BusRequest): (d': Dm)
  {
    var st := MW.DecodeBus(b);
    var i := FsmInputs(d, st);
    var written := CR.Written(d.regs, Busy(d), req);
    Dm(F.Next(d.fsm, i),
       DC.Next(d.dmi, F.Out(d.fsm, i).error, Busy(d), d.regs.autoData, req),
       CR.Next(d.regs, Busy(d), req, StoredData(d, b), d.resuming),
       MW.NextHalted(d.halted, st, d.regs.ndmreset),
       MW.NextResuming(d.resuming, st, d.regs.ndmreset, CR.ClearsAck(d.regs, written)),
       MW.NextPath(d.path, ViewOf(d), b))
  }

  function Respond(d: Dm, r: Request, other: Response): Response
  {
    CR.Respond(d.regs, Busy(d), d.dmi.cmderr, r, other)
  }

  /** The module instances, wired as DM_top wires them. */
  class Module {
    const fsm: F.CommandUnit
    const dmi: DC.DmiUnit
    const file: CR.ControlFile
    const mem: MW.DebugMemory

    function State(): Dm
      reads fsm, dmi, file, mem, mem.rom
    {
      Dm(fsm.state, DC.Regs(dmi.cmderr, dmi.cmdValid), file.State(), mem.halted, mem.resuming, mem.Path())
    }

    constructor ()
      ensures State() == Dm(F.Idle, DC.Regs(ERR_NONE, false), CR.ResetRegs(), false, false,
              MW.ReadPath((0, 0), false, false, 0))
      ensures fresh(fsm) && fresh(dmi) && fresh(file) && fresh(mem) && fresh(mem.rom)
    {
      fsm := new F.CommandUnit();
      dmi := new DC.DmiUnit();
      file := new CR.ControlFile();
      mem := new MW.DebugMemory();
    }

    // The control units.
    method ClockControl(d: Dm, req: Option<Request>, full: bool, empty: bool, respReady: bool, st: MW.Strobe)
      returns (accepted: Option<Request>, push: bool, pop: bool, o: F.Outputs)
      requires d == State()
      modifies fsm, dmi
      ensures accepted == if full then None else req
      ensures push == accepted.Some? && pop == (respReady && !empty)
      ensures o == F.Out(d.fsm, FsmInputs(d, st)) && fsm.state == F.Next(d.fsm, FsmInputs(d, st))
      ensures DC.Regs(dmi.cmderr, dmi.cmdValid) == DC.Next(d.dmi, o.error, Busy(d), d.regs.autoData, accepted)
    {
      hide F.Next, DC.Next, FsmInputs;
      o := fsm.Clock(FsmInputs(d, st));
      accepted, push, pop := dmi.Clock(req, full, empty, respReady, o.error, o.cmdbusy, d.regs.autoData);
    }

    // The register file and the memory side, which see the state machine's outputs.
    method ClockData(d: Dm, o: F.Outputs, accepted: Option<Request>, b: MW.BusRequest)
      requires d.regs == file.State() && d.halted == mem.halted && d.resuming == mem.resuming && d.path == mem.Path()
      requires o == F.Out(d.fsm, FsmInputs(d, MW.DecodeBus(b)))
      modifies file, mem, mem.rom
      ensures file.State() == CR.Next(d.regs, Busy(d), accepted, StoredData(d, b), d.resuming)
      ensures mem.halted == MW.NextHalted(d.halted, MW.DecodeBus(b), d.regs.ndmreset)
      ensures mem.resuming == MW.NextResuming(d.resuming, MW.DecodeBus(b), d.regs.ndmreset,
                                              CR.ClearsAck(d.regs, CR.Written(d.regs, Busy(d), accepted)))
      ensures mem.Path() == MW.NextPath(d.path, ViewOf(d), b)
    {
      hide MW.DecodeBus, MW.NextPath, MW.NextHalted, MW.NextResuming, CR.Next, CR.Written, StoredData;
      var view := MW.View(o.cmdbusy, o.go, o.resume, d.regs.resumereq, CommandOf(d), d.regs.data, d.regs.progbuf);
      assert view == ViewOf(d);
      hide F.Out, ViewOf, FsmInputs;
      var clearAck := file.Clock(o.cmdbusy, accepted, StoredData(d, b), d.resuming);
      var _ := mem.Clock(view, b, d.regs.ndmreset, clearAck);
    }

    method Clock(req: Option<Request>, full: bool, empty: bool, respReady: bool, b: MW.BusRequest, other: Response)
      returns (accepted: Option<Request>, resp: Response, push: bool, pop: bool, rdata: Word, debugReq: bool)
      modifies fsm, dmi, file, mem, mem.rom
      ensures accepted == if full then None else req
      ensures State() == Next(old(State()), accepted, b)
      ensures req.Some? ==> resp == Respond(old(State()), req.value, other)
      ensures push == accepted.Some? && pop == (respReady && !empty)
      ensures rdata == MW.Rdata(old(State()).path) && debugReq == old(State()).regs.haltreq
    {
      hide MW.DecodeBus, MW.NextPath, MW.NextHalted, MW.NextResuming, CR.Next, CR.Respond, CR.Written, F.Next;
      hide DC.Next, MW.Rdata;
      hide ViewOf, StoredData;
      var d := State();
      rdata := mem.Output();
      var o;
      accepted, push, pop, o := ClockControl(d, req, full, empty, respReady, MW.DecodeBus(b));
      debugReq, resp := o.debugReq, other;
      if req.Some? {
        resp := file.Reply(o.cmdbusy, d.dmi.cmderr, req.value, other);
      }
      ClockData(d, o, accepted, b);
    }
  }
}
