/** DM_ControlUnit1: accepts DMI requests, keeps cmderr, and raises cmd_valid. */
module DmiControl {
  import opened Words
  import opened Dmi

  datatype Regs = Regs(cmderr: bv3, cmdValid: bool)

  // cmderr is write-1-to-clear, three bits from bit 8 of abstractcs.
  function ClearField(data: Word): bv3 { ((data >> 8) & 7) as bv3 }

  predicate AutoExec(autoData: bv12, i: DataIndex)
  {
    if i == 0 then autoData & 1 != 0 else autoData & 2 != 0
  }

  function NextError(cmderr: bv3, error: Option<bv3>, busy: bool, req: Option<Request>): (e: bv3)
  {
    if req.Some? && NeedsIdle(req.value) && busy && cmderr == ERR_NONE then ERR_BUSY
    else if WritesTo(req, AbstractCS) && !busy then !ClearField(req.value.data) & cmderr
    else if error.Some? then error.value
    else cmderr
  }

  // The accesses that (re)start a command.
  predicate Triggers(autoData: bv12, r: Request)
  {
    (Writes(r) && r.reg == Command) || ((Reads(r) || Writes(r)) && r.reg.Data? && AutoExec(autoData, r.reg.i))
  }

  function Next(s: Regs, error: Option<bv3>, busy: bool, autoData: bv12, req: Option<Request>): (s': Regs)
  {
    Regs(NextError(s.cmderr, error, busy, req), !busy && req.Some? && Triggers(autoData, req.value))
  }

  class DmiUnit {
    var cmderr: bv3
    var cmdValid: bool

    constructor ()
      ensures cmderr == ERR_NONE && !cmdValid
    {
      cmderr, cmdValid := ERR_NONE, false;
    }

    // What an accepted request makes of cmderr and cmd_valid.
    static method Decide(cmderr: bv3, cmderrIn: bv3, busy: bool, autoData: bv12, r: Request)
        returns (cmderrD: bv3, cmdValidD: bool)
      ensures cmderrD == if NeedsIdle(r) && busy && cmderr == ERR_NONE then ERR_BUSY
                         else if WritesTo(Some(r), AbstractCS) && !busy then !ClearField(r.data) & cmderr
                         else cmderrIn
      ensures cmdValidD == (!busy && Triggers(autoData, r))
    {
      hide AutoExec, ClearField;
      cmderrD, cmdValidD := cmderrIn, false;
      var refused := busy && cmderr == ERR_NONE;
      if Reads(r) {
        match r.reg {
          case Data(i) => if !busy { cmdValidD := AutoExec(autoData, i); } else if refused { cmderrD := ERR_BUSY; }
          case Progbuf(_) => if refused { cmderrD := ERR_BUSY; }
          case _ =>
        }
      } else if Writes(r) {
        match r.reg {
          case Data(i) => if !busy { cmdValidD := AutoExec(autoData, i); } else if refused { cmderrD := ERR_BUSY; }
          case AbstractCS => if !busy { cmderrD := !ClearField(r.data) & cmderr; }
            else if refused { cmderrD := ERR_BUSY; }
          case Command => if !busy { cmdValidD := true; } else if refused { cmderrD := ERR_BUSY; }
          case AbstractAuto => if refused { cmderrD := ERR_BUSY; }
          case Progbuf(_) => if refused { cmderrD := ERR_BUSY; }
          case _ =>
        }
      }
    }

    // A request is accepted when the response queue has room; one response is
    // pushed for it and one popped when the consumer is ready.
    method Clock(req: Option<Request>, full: bool, empty: bool, respReady: bool,
                 error: Option<bv3>, busy: bool, autoData: bv12)
      returns (accepted: Option<Request>, push: bool, pop: bool)
      modifies this
      ensures accepted == if full then None else req
      ensures push == accepted.Some? && pop == (respReady && !empty)
      ensures Regs(cmderr, cmdValid) == Next(Regs(old(cmderr), old(cmdValid)), error, busy, autoData, accepted)
    {
      hide Triggers, ClearField, NeedsIdle;
      accepted := if full then None else req;
      push := req.Some? && !full;
      pop := respReady && !empty;
      var cmderrD, cmdValidD := cmderr, false;
      if error.Some? {
        cmderrD := error.value;
      }
      if accepted.Some? {
        cmderrD, cmdValidD := Decide(cmderr, cmderrD, busy, autoData, accepted.value);
      }
      cmderr, cmdValid := cmderrD, cmdValidD;
    }
  }
}
