/** DM_ControlUnit2: the state machine that hands a command or a resume to the hart. */
module CommandFsm {
  import opened Words
  import opened Dmi

  datatype State = Idle | Go | Res | Exec

  datatype Inputs = Inputs(
    cmdValid: bool, halted: bool, unsupported: bool,
    resumereq: bool, resuming: bool, haltreq: bool,
    going: bool, exception: bool, ndmreset: bool, haltedStore: bool)

  datatype Outputs = Outputs(go: bool, resume: bool, cmdbusy: bool, error: Option<bv3>, debugReq: bool)

  // A resume is started from Idle only, and beats a command that arrives with it.
  predicate StartsResume(i: Inputs) { i.resumereq && !i.resuming && !i.haltreq && i.halted }
  predicate StartsCommand(i: Inputs) { i.cmdValid && i.halted && !i.unsupported }

  function Next(s: State, i: Inputs): (s': State)
  {
    if i.ndmreset then Idle
    else match s
      case Idle => if StartsResume(i) then Res else if StartsCommand(i) then Go else Idle
      case Go => if i.going then Exec else Go
      case Res => if i.resuming then Idle else Res
      case Exec => if i.haltedStore then Idle else Exec
  }

  function Out(s: State, i: Inputs): Outputs
  {
    Outputs(s == Go && !i.ndmreset, s == Res && !i.ndmreset, s != Idle,
            if i.exception then Some(ERR_EXCEPTION)
            else if s == Idle && i.cmdValid && i.halted && i.unsupported then Some(ERR_NOT_SUPPORTED)
            else None,
            i.haltreq)
  }

  class CommandUnit {
    var state: State

    constructor ()
      ensures state == Idle
    {
      state := Idle;
    }

    // The case statement, before the overrides.
    method Decide(i: Inputs) returns (stateD: State, go: bool, resume: bool, cmdbusy: bool, error: Option<bv3>)
      ensures !i.ndmreset ==> stateD == Next(state, i)
      ensures go <==> state == Go
      ensures resume <==> state == Res
      ensures cmdbusy <==> state != Idle
      ensures !i.exception ==> error == Out(state, i).error
    {
      cmdbusy, go, resume, error, stateD := true, false, false, None, state;
      match state {
        case Idle =>
          cmdbusy := false;
          if i.cmdValid {
            if i.halted {
              if !i.unsupported {
                stateD := Go;
              } else {
                error := Some(if i.unsupported then ERR_NOT_SUPPORTED else ERR_HALT_RESUME);
              }
            }
          }
          if i.resumereq && !i.resuming && !i.haltreq && i.halted {
            stateD := Res;
          }
        case Go =>
          go := true;
          if i.going { stateD := Exec; }
        case Res =>
          resume := true;
          if i.resuming { stateD := Idle; }
        case Exec =>
          if i.haltedStore { stateD := Idle; }
      }
    }

    method Clock(i: Inputs) returns (o: Outputs)
      modifies this
      ensures state == Next(old(state), i)
      ensures o == Out(old(state), i)
    {
      var stateD, go, resume, cmdbusy, error := Decide(i);
      // an exception report has priority over every other error
      if i.exception {
        error := Some(ERR_EXCEPTION);
      }
      if i.ndmreset {
        stateD, go, resume := Idle, false, false;
      }
      o := Outputs(go, resume, cmdbusy, error, i.haltreq);
      state := stateD;
    }
  }
}
