/** DTM_top: the dtmcs and dmi data registers and the machine that turns Update-DR
    into DMI requests. */
module Dtm {
  import opened Tap

  type Bits2 = b: Bits | |b| == 2 witness [false, false]
  type Bits7 = b: Bits | |b| == 7 witness seq(7, _ => false)
  type Bits41 = b: Bits | |b| == 41 witness seq(41, _ => false)

  datatype State = Idle | Read | WaitReadValid | Write | WaitWriteValid
  datatype Error = NoError | OpFailed | Busy

  // The two-bit codes of operations and of errors, bit 0 first.
  const NOP: Bits2 := [false, false]
  const READ: Bits2 := [true, false]
  const WRITE: Bits2 := [false, true]

  function Code(e: Error): Bits2
  {
    match e
    case NoError => [false, false]
    case OpFailed => [false, true]
    case Busy => [true, true]
  }

  datatype Status = Success | Failed | BusyStatus | Reserved
  datatype Response = Response(data: Bits32, status: Status)
  datatype Request = Request(address: Bits7, data: Bits32, write: bool)

  // One tck cycle: the pins, and what the clock-domain crossing offers.
  datatype Input = Input(tms: bool, tdi: bool, ready: bool, resp: Option<Response>)
  datatype Option<+T> = None | Some(value: T)

  datatype Dtm = Dtm(tap: Tap, dtmcs: Bits32, state: State, dr: Bits41, address: Bits7, data: Bits32, error: Error)

  // ---- The fields of the registers ----

  function Op(dr: Bits41): Bits2 { dr[0..2] }
  function Payload(dr: Bits41): Bits32 { dr[2..34] }
  function Address(dr: Bits41): Bits7 { dr[34..41] }
  function Packed(address: Bits7, data: Bits32, op: Bits2): Bits41 { op + data + address }

  // dtmcs as captured: version 1, seven address bits, dmistat, idle hint 1.
  function DtmcsWord(e: Error): Bits32
  {
    [true, false, false, false] + [true, true, true, false, false, false] + Code(e) + [true, false, false]
    + [false, false, false]
      + [false, false, false, false, false, false, false, false, false, false, false, false, false, false]
  }

  predicate Dmireset(dtmcs: Bits32) { dtmcs[16] }
  predicate Dmihardreset(dtmcs: Bits32) { dtmcs[17] }

  // ---- What the controller is doing ----

  predicate Selected(d: Dtm, r: Select) { Selects(d.tap.ir) == r }
  predicate Capturing(d: Dtm) { d.tap.state == CaptureDr }
  predicate Shifting(d: Dtm) { d.tap.state == ShiftDr }
  predicate Updating(d: Dtm) { d.tap.state == UpdateDr }

  // Test-Logic-Reset, or dmihardreset on an update of dtmcs.
  predicate Clears(d: Dtm)
  {
    d.tap.state == TestLogicReset || (Selected(d, Select.Dtmcs) && Updating(d) && Dmihardreset(d.dtmcs))
  }

  // ---- One clock ----

  function NextDtmcs(d: Dtm, tdi: bool): Bits32
  {
    if !Selected(d, Select.Dtmcs) then d.dtmcs
    else if Capturing(d) then DtmcsWord(d.error)
    else if Shifting(d) then Shifted(d.dtmcs, tdi)
    else d.dtmcs
  }

  predicate Launches(d: Dtm)
  {
    !Clears(d) && d.state == Idle && Selected(d, Select.Dmi) && Updating(d) && d.error == NoError
      && (Op(d.dr) == READ || Op(d.dr) == WRITE)
  }

  function NextMachine(d: Dtm, i: Input): State
  {
    match d.state
    case Idle => if !Launches(d) then Idle else if Op(d.dr) == READ then Read else Write
    case Read => if i.ready then WaitReadValid else Read
    case WaitReadValid => if i.resp.Some? then Idle else WaitReadValid
    case Write => if i.ready then WaitWriteValid else Write
    case WaitWriteValid => if i.resp.Some? then Idle else WaitWriteValid
  }

  // What a read leaves in the data register.
  function ReadResult(r: Response): Bits32
  {
    match r.status
    case Success => r.data
    case Failed => DEAD_BEEF
    case BusyStatus => B051_B051
    case Reserved => BAAD_CODE
  }

  const DEAD_BEEF: Bits32 := Nibbles([0xf, 0xe, 0xe, 0xb, 0xd, 0xa, 0xe, 0xd])
  const B051_B051: Bits32 := Nibbles([0x1, 0x5, 0x0, 0xb, 0x1, 0x5, 0x0, 0xb])
  const BAAD_CODE: Bits32 := Nibbles([0xe, 0xd, 0x0, 0xc, 0xd, 0xa, 0xa, 0xb])

  function Nibbles(n: seq<bv4>): (b: Bits)
    ensures |b| == 4 * |n|
  {
    if n == [] then [] else [n[0] & 1 != 0, n[0] & 2 != 0, n[0] & 4 != 0, n[0] & 8 != 0] + Nibbles(n[1..])
  }

  // The update that latches address and data does so whatever the operation is.
  predicate Latches(d: Dtm)
  {
    d.state == Idle && Selected(d, Select.Dmi) && Updating(d) && d.error == NoError
  }

  predicate Ends(d: Dtm, i: Input) { (d.state == WaitReadValid || d.state == WaitWriteValid) && i.resp.Some? }

  // Too early: an update of any register while a transaction runs, a capture of any
  // register while a read runs, or a busy response.
  predicate TooEarly(d: Dtm, i: Input)
  {
    || (Updating(d) && d.state != Idle)
    || (Capturing(d) && (d.state == Read || d.state == WaitReadValid))
    || (Ends(d, i) && i.resp.value.status == BusyStatus)
  }

  function NextError(d: Dtm, i: Input): Error
  {
    if Updating(d) && Dmireset(d.dtmcs) && Selected(d, Select.Dtmcs) then NoError
    else if d.error != NoError then d.error
    else if Ends(d, i) && i.resp.value.status == Failed then OpFailed
    else if TooEarly(d, i) then Busy
    else NoError
  }

  // A capture after a failed operation leaves the register as it was.
  function NextDr(d: Dtm, i: Input): Bits41
  {
    if !Selected(d, Select.Dmi) then d.dr
    else if Capturing(d) then
      if d.error == Busy || TooEarly(d, i) then Packed(d.address, d.data, Code(Busy))
      else if d.error == NoError then Packed(d.address, d.data, Code(NoError))
      else d.dr
    else if Shifting(d) then Shifted(d.dr, i.tdi)
    else d.dr
  }

  function Next(d: Dtm, i: Input, idcodeValue: Bits32): Dtm
  {
    var tap := NextTap(d.tap, i.tms, i.tdi, idcodeValue);
    var dtmcs := NextDtmcs(d, i.tdi);
    if Clears(d) then Dtm(tap, dtmcs, Idle, Zeros(41), Zeros(7), Zeros(32), NoError)
    else
      Dtm(tap, dtmcs, NextMachine(d, i), NextDr(d, i),
          if Latches(d) then Address(d.dr) else d.address,
          if Latches(d) then Payload(d.dr)
          else if d.state == WaitReadValid && i.resp.Some? then ReadResult(i.resp.value)
          else d.data,
          NextError(d, i))
  }

  function Zeros(n: nat): (z: Bits)
    ensures |z| == n
  {
    seq(n, _ => false)
  }

  // ---- Outputs ----

  function TdoOf(d: Dtm): bool { Tdo(d.tap, d.dtmcs[0], d.dr[0]) }

  predicate Requests(d: Dtm) { !Clears(d) && (d.state == Read || d.state == Write) }

  function RequestOf(d: Dtm): Request { Request(d.address, d.data, d.state == Write) }

  function Reset(idcodeValue: Bits32): Dtm
  {
    Dtm(ResetTap(idcodeValue), Zeros(32), Idle, Zeros(41), Zeros(7), Zeros(32), NoError)
  }

  class DtmTop {
    const tap: TapController
    var dtmcs: Bits32
    var state: State
    var dr: Bits41
    var address: Bits7
    var data: Bits32
    var error: Error

    function Contents(): Dtm
      reads this, tap
    {
      Dtm(tap.Contents(), dtmcs, state, dr, address, data, error)
    }

    constructor (idcodeValue: Bits32)
      ensures Contents() == Reset(idcodeValue) && tap.idcodeValue == idcodeValue && fresh(tap)
    {
      tap := new TapController(idcodeValue);
      dtmcs, state, dr, address, data, error := Zeros(32), Idle, Zeros(41), Zeros(7), Zeros(32), NoError;
    }

    // The asynchronous reset, TRST.
    method Clear()
      modifies this, tap
      ensures Contents() == Reset(tap.idcodeValue)
    {
      tap.Clear();
      dtmcs, state, dr, address, data, error := Zeros(32), Idle, Zeros(41), Zeros(7), Zeros(32), NoError;
    }

    // The machine and its two error flags.
    static method Machine(d: Dtm, i: Input)
        returns (state: State, address: Bits7, data: Bits32, error: Error, busy: bool)
      requires !Clears(d)
      ensures state == NextMachine(d, i) && error == NextError(d, i) && busy == TooEarly(d, i)
      ensures address == if Latches(d) then Address(d.dr) else d.address
      ensures data == if Latches(d) then Payload(d.dr)
                      else if d.state == WaitReadValid && i.resp.Some? then ReadResult(i.resp.value)
                      else d.data
    {
      hide ReadResult, Address, Payload, Op;
      state, address, data, error, busy := d.state, d.address, d.data, d.error, false;
      var failed := false;
      match d.state {
        case Idle =>
          if Selected(d, Select.Dmi) && Updating(d) && d.error == NoError {
            address, data := Address(d.dr), Payload(d.dr);
            if Op(d.dr) == READ { state := Read; } else if Op(d.dr) == WRITE { state := Write; }
          }
        case Read => if i.ready { state := WaitReadValid; }
        case WaitReadValid =>
          if i.resp.Some? {
            data := ReadResult(i.resp.value);
            failed, busy := i.resp.value.status == Failed, i.resp.value.status == BusyStatus;
            state := Idle;
          }
        case Write => if i.ready { state := WaitWriteValid; }
        case WaitWriteValid =>
          if i.resp.Some? {
            failed, busy := i.resp.value.status == Failed, i.resp.value.status == BusyStatus;
            state := Idle;
          }
      }
      if Updating(d) && d.state != Idle { busy := true; }
      if Capturing(d) && (d.state == Read || d.state == WaitReadValid) { busy := true; }
      if busy && d.error == NoError { error := Busy; }
      if failed && d.error == NoError { error := OpFailed; }
      if Updating(d) && Dmireset(d.dtmcs) && Selected(d, Select.Dtmcs) { error := NoError; }
    }

    method Clock(i: Input) returns (tdo: bool, request: Option<Request>)
      modifies this, tap
      ensures Contents() == Next(old(Contents()), i, tap.idcodeValue)
      ensures tdo == TdoOf(old(Contents()))
      ensures request == if Requests(old(Contents())) then Some(RequestOf(old(Contents()))) else None
    {
      hide NextMachine, NextError, TooEarly, Latches, Clears, DtmcsWord, Packed, Address, Payload, ReadResult;
      hide Op, NextTap, Tdo;
      var d := Contents();
      request := if Requests(d) then Some(RequestOf(d)) else None;
      tdo := tap.Clock(i.tms, i.tdi, dtmcs[0], dr[0]);
      dtmcs := NextDtmcs(d, i.tdi);
      if Clears(d) {
        state, dr, address, data, error := Idle, Zeros(41), Zeros(7), Zeros(32), NoError;
      } else {
        var drD, busy := d.dr, false;
        state, address, data, error, busy := Machine(d, i);
        if Capturing(d) && Selected(d, Select.Dmi) {
          if d.error == NoError && !busy { drD := Packed(d.address, d.data, Code(NoError)); }
          else if d.error == Busy || busy { drD := Packed(d.address, d.data, Code(Busy)); }
        }
        if Shifting(d) && Selected(d, Select.Dmi) { drD := Shifted(d.dr, i.tdi); }
        dr := drD;
      }
    }
  }
}
