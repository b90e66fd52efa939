/** The JTAG driver of the testbench: it bit-bangs the pins, remembers which
    instruction it loaded last, and skips the load when it can. */
module Driver {
  import opened Tap
  import opened Dtm
  import opened Scan
  import DT = DmiTransactions

  // The register that a scan in state s moves bits through.
  function Side(s: TapState, d: Dtm): Bits
  {
    if s == ShiftIr then d.tap.irShift else Register(d)
  }

  predicate IsShift(s: TapState) { s == ShiftDr || s == ShiftIr }

  // The transport is free: no transaction, no error.
  predicate Calm(d: Dtm) { d.state == Idle && d.error == NoError }

  // An error stays as it is.
  predicate Sticks(d: Dtm, d': Dtm) { d.error != NoError ==> d'.error == d.error }

  // Error e has been shown somewhere between d and d': the one that stood in d, if any,
  // and one that still stands in d'.
  predicate Shows(d: Dtm, d': Dtm, e: Error)
  {
    (Calm(d) ==> e == NoError) && (d.error != NoError ==> e == d.error) && (e != NoError ==> d'.error == e)
  }

  // The states whose clock can change the instruction or the transaction side.
  predicate Acts(s: TapState) { s == TestLogicReset || s == UpdateDr }

  // ---- Single clocks ----

  lemma TapClock(d: Dtm, i: Input, id: Bits32)
    ensures var d' := Next(d, i, id);
            && d'.tap.state == NextState(d.tap.state, i.tms)
            && (d.tap.state != TestLogicReset && d.tap.state != UpdateIr ==> d'.tap.ir == d.tap.ir)
            && (d.tap.state == UpdateIr ==> d'.tap.ir == d.tap.irShift)
            && (d.tap.state == TestLogicReset ==> d'.tap.ir == IDCODE && Calm(d'))
            && (d.tap.state != ShiftIr && d.tap.state != CaptureIr && d.tap.state != TestLogicReset ==>
               d'.tap.irShift == d.tap.irShift)
  {
    hide NextMachine, NextError, NextDr, NextDtmcs, DtmcsWord, Packed, Address, Payload, ReadResult, NextIdcode;
    hide NextBypass, Selects, NextState;
  }

  lemma ShiftClock(d: Dtm, i: Input, id: Bits32)
    requires IsShift(d.tap.state)
    ensures var d', s := Next(d, i, id), d.tap.state;
            && [TdoOf(d)] + Side(s, d') == Side(s, d) + [i.tdi] && d'.tap.ir == d.tap.ir
  {
    if d.tap.state == ShiftDr {
      hide Next, Register, TdoOf;
      ScanStep(d, i, id);
    } else {
      hide NextMachine, NextError, NextDr, NextDtmcs, DtmcsWord, Packed, Address, Payload, ReadResult;
      hide NextIdcode, NextBypass, Selects, NextState;
      var r := d.tap.irShift;
      assert [r[0]] + (r[1..] + [i.tdi]) == r + [i.tdi];
    }
  }

  lemma RegisterHolds(d: Dtm, i: Input, id: Bits32)
    requires d.tap.state == Exit1Dr || d.tap.state == UpdateDr
    ensures !Clears(d) ==> Register(Next(d, i, id)) == Register(d)
  {
    hide NextMachine, NextError, DtmcsWord, Packed, Address, Payload, ReadResult, Selects, NextState;
  }

  lemma CalmClock(d: Dtm, i: Input, id: Bits32)
    requires Calm(d) && !Acts(d.tap.state)
    ensures Calm(Next(d, i, id)) && !Launches(d) && Answer(d, i) == []
  {
    hide NextDr, NextDtmcs, DtmcsWord, Packed, Address, Payload, ReadResult, NextTap, Selects;
  }

  lemma ErrorClock(d: Dtm, i: Input, id: Bits32)
    requires !Acts(d.tap.state)
    ensures Sticks(d, Next(d, i, id))
  {
    hide NextDr, NextDtmcs, DtmcsWord, Packed, Address, Payload, ReadResult, NextTap, Selects;
  }

  // ---- The state of a read between its order and its capture ----

  // Since the order: no answer yet and a read under way, or one answer, whose result
  // and error the machine now holds.
  predicate Reading(d: Dtm, since: seq<Response>)
  {
    if since == [] then (d.state == Read || d.state == WaitReadValid) && (d.error == NoError || d.error == Busy)
    else
      && |since| == 1 && d.state == Idle
      && (d.error == NoError ==>
         since[0].status != Failed && since[0].status != BusyStatus && d.data == ReadResult(since[0]))
  }

  function Answer(d: Dtm, i: Input): seq<Response>
  {
    if Ends(d, i) then [i.resp.value] else []
  }

  lemma ReadingClock(d: Dtm, i: Input, id: Bits32, since: seq<Response>)
    requires Reading(d, since) && !Acts(d.tap.state)
    ensures Reading(Next(d, i, id), since + Answer(d, i)) && !Launches(d)
  {
    hide NextDr, NextDtmcs, DtmcsWord, Packed, Address, Payload, ReadResult, NextTap, Selects;
  }

  // What the scan after a read shows.
  predicate ShowsRead(d: Dtm, since: seq<Response>)
  {
    Op(d.dr) == Code(NoError) ==> Calm(d) && Answered(since, Payload(d.dr))
  }

  // The one answer since the order is good, and v is its result.
  predicate Answered(since: seq<Response>, v: Bits32)
  {
    |since| == 1 && since[0].status != Failed && since[0].status != BusyStatus && v == ReadResult(since[0])
  }

  lemma ReadingCapture(d: Dtm, i: Input, id: Bits32, since: seq<Response>)
    requires Reading(d, since) && Capturing(d) && Selected(d, Select.Dmi) && Op(d.dr) != Code(NoError)
    ensures ShowsRead(Next(d, i, id), since + Answer(d, i))
  {
    hide NextDtmcs, DtmcsWord, Address, ReadResult, NextTap, Selects;
  }

  // What the clock-domain crossing does in each tck cycle, whatever it is.
  datatype Crossing = Crossing(ready: bool, resp: Option<Response>)

  // What a clock with a given TMS leaves as it was: the instruction outside its update,
  // a free transport, a read in progress, and the list of orders.
  predicate Follows(d: Dtm, d': Dtm, tms: bool, newOrders: seq<Request>, since: seq<Response>, since': seq<Response>)
  {
    var s := d.tap.state;
    && d'.tap.state == NextState(s, tms)
    && (s != TestLogicReset && s != UpdateIr ==> d'.tap.ir == d.tap.ir)
    && (s == UpdateIr ==> d'.tap.ir == d.tap.irShift)
    && (s == TestLogicReset ==> d'.tap.ir == IDCODE && Calm(d'))
    && (s == Exit1Ir ==> d'.tap.irShift == d.tap.irShift)
    && (!Acts(s) && Calm(d) ==> Calm(d') && since' == since)
    && (!Acts(s) && Reading(d, since) ==> Reading(d', since'))
    && (!Acts(s) ==> Sticks(d, d'))
    && (s != UpdateDr ==> newOrders == [])
  }

  // A scan touches neither the instruction nor the transport.
  predicate Keeps(d: Dtm, d': Dtm, since: seq<Response>, since': seq<Response>)
  {
    && d'.tap.ir == d.tap.ir && (Calm(d) ==> Calm(d') && since' == since) && (Reading(d, since) ==> Reading(d', since'))
    && Sticks(d, d')
  }

  // After a scan of as many bits as the register is long, it holds those bits.
  predicate Scanned(d: Dtm, d': Dtm, wdata: Bits, tmsLast: bool, since: seq<Response>, since': seq<Response>)
  {
    && d'.tap.state == NextState(d.tap.state, tmsLast) && Keeps(d, d', since, since')
    && Side(d.tap.state, d') == (Side(d.tap.state, d) + wdata)[|wdata|..]
  }

  class JtagDriver {
    const dut: DtmTop
    const crossing: nat -> Crossing
    var tms: bool
    var tdi: bool
    var irSelect: Bits5
    var cycle: nat

    // The orders the transport has taken, and the answers since the last of them.
    ghost var orders: seq<Request>
    ghost var since: seq<Response>

    constructor (dut: DtmTop, crossing: nat -> Crossing)
      ensures this.dut == dut && this.crossing == crossing && irSelect == IDCODE
    {
      this.dut, this.crossing := dut, crossing;
      tms, tdi, irSelect, cycle, orders, since := false, false, IDCODE, 0, [], [];
    }

    function D(): Dtm
      reads dut, dut.tap
    {
      dut.Contents()
    }

    function Pins(): Input
      reads this
    {
      var c := crossing(cycle);
      Input(tms, tdi, c.ready, c.resp)
    }

    // The driver and the controller agree, and the controller rests.
    ghost predicate Synced()
      reads this, dut, dut.tap
    {
      D().tap.state == RunTestIdle && D().tap.ir == irSelect && !tms
    }

    method Clock() returns (tdo: bool)
      modifies this`cycle, this`orders, this`since, dut, dut.tap
      ensures D() == Next(old(D()), old(Pins()), dut.tap.idcodeValue)
      ensures tdo == TdoOf(old(D()))
      ensures orders == old(orders) + if Launches(old(D())) then [DT.Order(old(D()))] else []
      ensures since == (if Launches(old(D())) then [] else old(since)) + Answer(old(D()), old(Pins()))
    {
      hide Next, TdoOf, Launches, Ends;
      var i := Pins();
      orders := orders + if Launches(D()) then [DT.Order(D())] else [];
      since := (if Launches(D()) then [] else since) + Answer(D(), i);
      var request;
      tdo, request := dut.Clock(i);
      cycle := cycle + 1;
    }

    method WriteTms(v: bool)
      modifies this`tms, this`cycle, this`orders, this`since, dut, dut.tap
      ensures tms == v
      ensures exists i: Input ::
                && D() == Next(old(D()), i, dut.tap.idcodeValue)
                && (!Launches(old(D())) ==> since == old(since) + Answer(old(D()), i))
      ensures orders == old(orders) + if Launches(old(D())) then [DT.Order(old(D()))] else []
      ensures Follows(old(D()), D(), v, orders[|old(orders)|..], old(since), since)
      ensures Launches(old(D())) ==> since == []
    {
      tms := v;
      ghost var d, i := D(), Pins();
      var _ := Clock();
      FollowsNext(d, i, dut.tap.idcodeValue, old(since));
    }

    // One bit of a scan: the register chain moves on, the rest follows.
    method ShiftBit(bit: bool, v: bool) returns (tdo: bool)
      requires IsShift(D().tap.state)
      modifies this`tms, this`tdi, this`cycle, this`orders, this`since, dut, dut.tap
      ensures tms == v && tdi == bit
      ensures [tdo] + Side(old(D()).tap.state, D()) == Side(old(D()).tap.state, old(D())) + [bit]
      ensures orders == old(orders) && Follows(old(D()), D(), v, [], old(since), since)
    {
      tdi, tms := bit, v;
      ghost var d, i := D(), Pins();
      tdo := Clock();
      FollowsNext(d, i, dut.tap.idcodeValue, old(since));
      ShiftClock(d, i, dut.tap.idcodeValue);
    }

    // Write bits, the first one first, with TMS set along with the last.
    method WriteBits(wdata: Bits, tmsLast: bool)
      requires wdata != [] && IsShift(D().tap.state) && !tms
      modifies this`tms, this`tdi, this`cycle, this`orders, this`since, dut, dut.tap
      ensures !tms && orders == old(orders)
      ensures Scanned(old(D()), D(), wdata, tmsLast, old(since), since)
    {
      var _ := ReadWriteBits(wdata, tmsLast);
    }

    // The same, and what comes out on TDO meanwhile.
    method ReadWriteBits(wdata: Bits, tmsLast: bool) returns (rdata: Bits)
      requires wdata != [] && IsShift(D().tap.state) && !tms
      modifies this`tms, this`tdi, this`cycle, this`orders, this`since, dut, dut.tap
      ensures !tms && orders == old(orders)
      ensures Scanned(old(D()), D(), wdata, tmsLast, old(since), since)
      ensures |rdata| == |wdata| && rdata == (Side(old(D()).tap.state, old(D())) + wdata)[..|wdata|]
    {
      hide Follows, Reading, Calm, Side, NextState;
      rdata := [];
      ghost var d0, s := D(), D().tap.state;
      for i := 0 to |wdata|
        invariant !tms || i == |wdata|
        invariant |rdata| == i && rdata + Side(s, D()) == Side(s, d0) + wdata[..i]
        invariant orders == old(orders) && Keeps(d0, D(), old(since), since)
        invariant D().tap.state == if i < |wdata| then s else NextState(s, tmsLast)
      {
        ghost var d, before := D(), since;
        var last := i == |wdata| - 1;
        var bit := ShiftBit(wdata[i], last && tmsLast);
        ShiftKeeps(d0, d, D(), last && tmsLast, old(since), before, since);
        OneMoreBit(rdata, Side(s, d), bit, Side(s, D()), Side(s, d0), wdata, i);
        rdata := rdata + [bit];
      }
      tms := false;
      assert wdata[..|wdata|] == wdata;
      Split(rdata, Side(s, D()), Side(s, d0) + wdata);
    }

    // From Run-Test/Idle to Capture-DR.
    method EnterCapture()
      requires Synced()
      modifies this`tms, this`cycle, this`orders, this`since, dut, dut.tap
      ensures D().tap.state == TapState.CaptureDr && !tms && orders == old(orders) && D().dr == old(D()).dr
      ensures Keeps(old(D()), D(), old(since), since)
    {
      hide Next, Reading, Calm, Register, Launches;
      ghost var d0 := D();
      WriteTms(true);
      ghost var d1 := D();
      WriteTms(false);
      ghost var i0: Input :| d1 == Next(d0, i0, dut.tap.idcodeValue);
      ghost var i1: Input :| D() == Next(d1, i1, dut.tap.idcodeValue);
      QuietDr(d0, i0, dut.tap.idcodeValue);
      QuietDr(d1, i1, dut.tap.idcodeValue);
    }

    // From Run-Test/Idle to Shift-DR.
    method ShiftDr()
      requires Synced()
      modifies this`tms, this`cycle, this`orders, this`since, dut, dut.tap
      ensures D().tap.state == TapState.ShiftDr && !tms && orders == old(orders)
      ensures Keeps(old(D()), D(), old(since), since)
      ensures D().tap.ir == IDCODE ==> Register(D()) == dut.tap.idcodeValue
      ensures D().tap.ir == DTMCSR ==> exists e :: Register(D()) == DtmcsWord(e) && Shows(old(D()), D(), e)
      ensures D().tap.ir == DMIACCESS && Reading(old(D()), old(since)) && Op(old(D()).dr) != Code(NoError) ==>
                ShowsRead(D(), since)
    {
      hide Next, Reading, Register, DtmcsWord, ShowsRead, Launches;
      EnterCapture();
      ghost var d, before := D(), since;
      WriteTms(false);
      ghost var i: Input :| D() == Next(d, i, dut.tap.idcodeValue) && since == before + Answer(d, i);
      CaptureShows(d, i, dut.tap.idcodeValue, before);
    }

    // From Exit1-DR, or from Shift-DR with one more shift, to Update-DR.
    method EnterUpdate(exit1: bool)
      requires D().tap.state == if exit1 then TapState.ShiftDr else TapState.Exit1Dr
      modifies this`tms, this`cycle, this`orders, this`since, dut, dut.tap
      ensures D().tap.state == TapState.UpdateDr && D().tap.ir == old(D()).tap.ir && orders == old(orders)
      ensures Calm(old(D())) ==> Calm(D()) && since == old(since)
      ensures !exit1 ==> Register(D()) == Register(old(D()))
      ensures Sticks(old(D()), D())
    {
      hide Next, Reading, Calm, Register, Launches;
      if exit1 { WriteTms(true); }
      ghost var d := D();
      WriteTms(true);
      ghost var i: Input :| D() == Next(d, i, dut.tap.idcodeValue);
      RegisterHolds(d, i, dut.tap.idcodeValue);
    }

    // Through Update-DR to rest; u is the state in Update-DR.
    method UpdateDr(exit1: bool) returns (ghost u: Dtm)
      requires D().tap.state == if exit1 then TapState.ShiftDr else TapState.Exit1Dr
      modifies this`tms, this`cycle, this`orders, this`since, dut, dut.tap
      ensures D().tap.state == RunTestIdle && !tms && D().tap.ir == old(D()).tap.ir
      ensures u.tap.state == TapState.UpdateDr && u.tap.ir == old(D()).tap.ir && (Calm(old(D())) ==> Calm(u))
      ensures Calm(old(D())) && !Launches(u) ==> since == old(since)
      ensures !exit1 ==> Register(u) == Register(old(D()))
      ensures Sticks(old(D()), u)
      ensures exists i :: D() == Next(u, i, dut.tap.idcodeValue)
      ensures orders == old(orders) + if Launches(u) then [DT.Order(u)] else []
      ensures Launches(u) ==> since == []
    {
      hide Next, Reading, Calm, Register, Launches;
      EnterUpdate(exit1);
      u := D();
      WriteTms(false);
      if Calm(u) { IdleAnswersNothing(u); }
    }

    // From Run-Test/Idle to Shift-IR.
    method ShiftIr()
      requires Synced()
      modifies this`tms, this`cycle, this`orders, this`since, dut, dut.tap
      ensures D().tap.state == TapState.ShiftIr && !tms && orders == old(orders) && (Calm(old(D())) ==> Calm(D()))
      ensures Sticks(old(D()), D())
    {
      hide Next, Reading, Calm, Launches;
      WriteTms(true);
      WriteTms(true);
      WriteTms(false);
      WriteTms(false);
    }

    // From Exit1-IR through Update-IR to rest.
    method UpdateIr()
      requires D().tap.state == TapState.Exit1Ir
      modifies this`tms, this`cycle, this`orders, this`since, dut, dut.tap
      ensures D().tap.state == RunTestIdle && !tms && orders == old(orders) && (Calm(old(D())) ==> Calm(D()))
      ensures D().tap.ir == old(D()).tap.irShift && Sticks(old(D()), D())
    {
      hide Next, Reading, Calm, Launches;
      WriteTms(true);
      WriteTms(false);
    }

    // Load an instruction, unless it is the one remembered.
    method SetIr(opcode: Bits5)
      requires Synced()
      modifies this, dut, dut.tap
      ensures Synced() && irSelect == opcode && orders == old(orders)
      ensures (Calm(old(D())) ==> Calm(D())) && Sticks(old(D()), D())
    {
      hide Next, Reading, Calm, Register;
      if irSelect == opcode { return; }
      ShiftIr();
      ghost var d := D();
      WriteBits(opcode, true);
      FullScan(d, D(), opcode);
      UpdateIr();
      irSelect := opcode;
    }

    method WaitIdle(cycles: nat)
      requires Synced()
      modifies this`cycle, this`orders, this`since, dut, dut.tap
      ensures Synced() && orders == old(orders) && D().dr == old(D()).dr
      ensures Keeps(old(D()), D(), old(since), since)
    {
      hide Next, Reading, Calm, Launches;
      for k := 0 to cycles
        invariant Synced() && orders == old(orders) && D().dr == old(D()).dr
        invariant Keeps(old(D()), D(), old(since), since)
      {
        ghost var d, i, before := D(), Pins(), since;
        var _ := Clock();
        FollowsNext(d, i, dut.tap.idcodeValue, before);
        QuietDr(d, i, dut.tap.idcodeValue);
      }
    }

    // Six clocks with TMS high and one low, from any state.
    method SoftReset()
      modifies this, dut, dut.tap
      ensures Synced() && irSelect == IDCODE && Calm(D())
    {
      hide Next, Reading, Launches;
      tms, tdi := true, false;
      for k := 0 to 6
        invariant tms && OnesFrom(D(), k)
      {
        ghost var d, i := D(), Pins();
        var _ := Clock();
        TapClock(d, i, dut.tap.idcodeValue);
        OnesStep(d, D(), k);
      }
      tms := false;
      ghost var d, i := D(), Pins();
      var _ := Clock();
      TapClock(d, i, dut.tap.idcodeValue);
      irSelect := IDCODE;
    }

    // TRST low for two clocks, then one clock.
    method ResetMaster()
      modifies this, dut, dut.tap
      ensures D().tap.ir == IDCODE && irSelect == IDCODE && tms
    {
      tms, tdi := true, false;
      dut.Clear();
      cycle := cycle + 2;
      irSelect := IDCODE;
      ghost var d, i := D(), Pins();
      var _ := Clock();
      TapClock(d, i, dut.tap.idcodeValue);
    }
  }

  lemma IdleAnswersNothing(d: Dtm)
    requires Calm(d)
    ensures forall i: Input :: Answer(d, i) == []
  {
  }

  // Outside capture and shift the DMI register holds.
  lemma QuietDr(d: Dtm, i: Input, id: Bits32)
    requires !Capturing(d) && !Shifting(d) && !Acts(d.tap.state)
    ensures Next(d, i, id).dr == d.dr
  {
    hide NextMachine, NextError, NextDtmcs, DtmcsWord, Packed, Address, Payload, ReadResult, NextTap, Selects;
  }

  lemma CaptureShows(d: Dtm, i: Input, id: Bits32, since: seq<Response>)
    requires Capturing(d)
    ensures var d' := Next(d, i, id);
            && (d.tap.ir == IDCODE ==> Register(d') == id)
            && (d.tap.ir == DTMCSR ==> Register(d') == DtmcsWord(d.error))
            && (d.tap.ir == DMIACCESS && Reading(d, since) && Op(d.dr) != Code(NoError) ==>
               ShowsRead(d', since + Answer(d, i)))
  {
    hide Next, Register, DtmcsWord, ShowsRead, Op, Packed;
    CaptureStep(d, i, id);
    if d.tap.ir == DMIACCESS && Reading(d, since) && Op(d.dr) != Code(NoError) { ReadingCapture(d, i, id, since); }
    assert IDCODE[4] != DTMCSR[4] && IDCODE[4] != DMIACCESS[4] && DTMCSR[0] != DMIACCESS[0];
  }

  // A scan of exactly the register's length leaves the bits sent.
  lemma FullScan(d: Dtm, d': Dtm, wdata: Bits)
    requires Side(d.tap.state, d') == (Side(d.tap.state, d) + wdata)[|wdata|..] && |Side(d.tap.state, d)| == |wdata|
    ensures Side(d.tap.state, d') == wdata
  {
    hide Side;
  }

  // After k clocks with TMS high the controller is on its way to reset.
  predicate OnesFrom(d: Dtm, k: nat)
  {
    && (k >= 1 ==> d.tap.state in {TestLogicReset, SelectDrScan, Exit1Dr, UpdateDr, Exit2Dr, SelectIrScan, Exit1Ir,
       UpdateIr, Exit2Ir})
    && (k >= 2 ==> d.tap.state in {TestLogicReset, SelectDrScan, SelectIrScan, UpdateDr, UpdateIr})
    && (k >= 3 ==> d.tap.state in {TestLogicReset, SelectDrScan, SelectIrScan})
    && (k >= 4 ==> d.tap.state in {TestLogicReset, SelectIrScan})
    && (k >= 5 ==> d.tap.state == TestLogicReset)
  }

  lemma OnesStep(d: Dtm, d': Dtm, k: nat)
    requires OnesFrom(d, k) && d'.tap.state == NextState(d.tap.state, true)
    ensures OnesFrom(d', k + 1)
  {
  }

  lemma ShiftKeeps(d0: Dtm, d: Dtm, d': Dtm, v: bool, since0: seq<Response>, since: seq<Response>,
      since': seq<Response>)
    requires Keeps(d0, d, since0, since) && IsShift(d.tap.state) && Follows(d, d', v, [], since, since')
    ensures Keeps(d0, d', since0, since') && d'.tap.state == if v then NextState(d.tap.state, true) else d.tap.state
  {
    hide Reading;
  }

  lemma OneMoreBit(seen: Bits, r: Bits, bit: bool, r': Bits, r0: Bits, wdata: Bits, i: nat)
    requires i < |wdata| && seen + r == r0 + wdata[..i] && [bit] + r' == r + [wdata[i]]
    ensures (seen + [bit]) + r' == r0 + wdata[..i + 1]
  {
    assert (seen + [bit]) + r' == seen + (r + [wdata[i]]);
    assert seen + (r + [wdata[i]]) == (seen + r) + [wdata[i]];
    assert wdata[..i + 1] == wdata[..i] + [wdata[i]];
  }

  lemma FollowsNext(d: Dtm, i: Input, id: Bits32, since: seq<Response>)
    ensures Follows(d, Next(d, i, id), i.tms, if Launches(d) then [DT.Order(d)] else [], since,
                    (if Launches(d) then [] else since) + Answer(d, i))
    ensures Launches(d) ==> Answer(d, i) == []
  {
    hide Next, Reading, NextState, Selects, Clears;
    TapClock(d, i, id);
    if !Acts(d.tap.state) { ErrorClock(d, i, id); }
    if !Acts(d.tap.state) && Calm(d) { CalmClock(d, i, id); }
    if !Acts(d.tap.state) && Reading(d, since) { ReadingClock(d, i, id, since); }
  }

  lemma PackedFields(address: Bits7, data: Bits32, op: Bits2)
    ensures var dr := Packed(address, data, op); Op(dr) == op && Payload(dr) == data && Address(dr) == address
  {
  }

  lemma InstructionsDiffer()
    ensures IDCODE != DTMCSR && IDCODE != DMIACCESS && DTMCSR != DMIACCESS && READ != WRITE && READ != NOP
            && WRITE != NOP
    ensures Code(NoError) == NOP
  {
    assert IDCODE[4] != DTMCSR[4] && IDCODE[4] != DMIACCESS[4] && DTMCSR[0] != DMIACCESS[0];
    assert READ[0] != WRITE[0] && READ[0] != NOP[0] && WRITE[1] != NOP[1];
  }

  /** What the debugger does, on top of the driver. */
  class RiscvDbg {
    const jtag: JtagDriver

    constructor (jtag: JtagDriver)
      ensures this.jtag == jtag
    {
      this.jtag := jtag;
    }

    // Whatever happened before, the driver and the controller agree afterwards.
    method ResetMaster()
      modifies jtag, jtag.dut, jtag.dut.tap
      ensures jtag.Synced() && jtag.irSelect == IDCODE && Calm(jtag.D())
    {
      jtag.ResetMaster();
      jtag.SoftReset();
    }

    // One pass that replaces the selected register: to Shift-DR, the bits, and through
    // Update-DR; u is the state in Update-DR.
    method WriteRegister(bits: Bits) returns (ghost u: Dtm)
      requires jtag.Synced() && |bits| == |Register(jtag.D())|
      modifies jtag`tms, jtag`tdi, jtag`cycle, jtag`orders, jtag`since, jtag.dut, jtag.dut.tap
      ensures jtag.Synced()
      ensures u.tap.state == TapState.UpdateDr && u.tap.ir == old(jtag.D()).tap.ir && Register(u) == bits
      ensures old(Calm(jtag.D())) ==> Calm(u)
      ensures exists i :: jtag.D() == Next(u, i, jtag.dut.tap.idcodeValue)
      ensures jtag.orders == old(jtag.orders) + if Launches(u) then [DT.Order(u)] else []
      ensures Launches(u) ==> jtag.since == []
    {
      hide Next, Reading, Calm, Follows, ShowsRead, DtmcsWord, Launches, Register;
      jtag.ShiftDr();
      ghost var d := jtag.D();
      SameWidth(old(jtag.D()), d);
      jtag.WriteBits(bits, true);
      FullScan(d, jtag.D(), bits);
      u := jtag.UpdateDr(false);
    }

    // Thirty-two shifts and a thirty-third on the way out.
    method GetIdcode() returns (idcode: Bits32)
      requires jtag.Synced()
      modifies jtag, jtag.dut, jtag.dut.tap
      ensures jtag.Synced() && jtag.irSelect == IDCODE && jtag.orders == old(jtag.orders)
      ensures idcode == jtag.dut.tap.idcodeValue
    {
      hide Next, Reading, Calm, Follows, ShowsRead, DtmcsWord, Sticks, Shows, Register, Launches, Answer, Ends;
      InstructionsDiffer();
      jtag.SetIr(IDCODE);
      jtag.ShiftDr();
      ghost var r := Register(jtag.D());
      idcode := jtag.ReadWriteBits(Zeros(32), false);
      Split(r, Zeros(32), r + Zeros(32));
      ghost var u := jtag.UpdateDr(true);
      NoOrderFrom(u);
    }

    // An order of the address and data, taken exactly once if the transport is free;
    // and nothing else in any case, whether or not the instruction had to be loaded.
    method WriteDmi(address: Bits7, data: Bits32)
      requires jtag.Synced()
      modifies jtag, jtag.dut, jtag.dut.tap
      ensures jtag.Synced() && jtag.irSelect == DMIACCESS
      ensures jtag.orders == old(jtag.orders) || jtag.orders == old(jtag.orders) + [Request(address, data, true)]
      ensures old(Calm(jtag.D())) ==> jtag.orders == old(jtag.orders) + [Request(address, data, true)]
    {
      hide Next, Reading, Calm, Follows, ShowsRead, DtmcsWord, Packed;
      jtag.SetIr(DMIACCESS);
      DmiWidth(jtag.D());
      ghost var u := WriteRegister(Packed(address, data, WRITE));
      OrderFrom(u, address, data, WRITE);
    }

    // dmireset clears the error; dmihardreset frees the transport altogether.
    method WriteDtmcs(data: Bits32)
      requires jtag.Synced()
      modifies jtag, jtag.dut, jtag.dut.tap
      ensures jtag.Synced() && jtag.irSelect == DTMCSR && jtag.orders == old(jtag.orders)
      ensures Dmireset(data) ==> jtag.D().error == NoError
      ensures Dmihardreset(data) || (Dmireset(data) && old(Calm(jtag.D()))) ==> Calm(jtag.D())
    {
      hide Next, Reading, Calm, Follows, ShowsRead, DtmcsWord, Launches, Dmireset, Dmihardreset, Op, Answer, Ends;
      jtag.SetIr(DTMCSR);
      InstructionsDiffer();
      ghost var u := WriteRegister(data);
      ghost var i :| jtag.D() == Next(u, i, jtag.dut.tap.idcodeValue);
      DtmcsUpdate(u, i, jtag.dut.tap.idcodeValue, data);
    }

    method ResetDmi()
      requires jtag.Synced()
      modifies jtag, jtag.dut, jtag.dut.tap
      ensures jtag.Synced() && jtag.irSelect == DTMCSR && jtag.orders == old(jtag.orders) && jtag.D().error == NoError
    {
      WriteDtmcs(Zeros(32)[16 := true]);
    }

    // The error shown is the transport's at the capture: none if the transport was free,
    // the one that stood if there was one, and otherwise one that came and stays.
    method ReadDtmcs() returns (data: Bits32)
      requires jtag.Synced()
      modifies jtag, jtag.dut, jtag.dut.tap
      ensures jtag.Synced() && jtag.irSelect == DTMCSR && jtag.orders == old(jtag.orders)
      ensures exists e :: data == DtmcsWord(e) && Shows(old(jtag.D()), jtag.D(), e)
    {
      hide Next, Reading, Calm, Follows, ShowsRead, DtmcsWord, Launches;
      jtag.SetIr(DTMCSR);
      jtag.ShiftDr();
      ghost var d, r := jtag.D(), Register(jtag.D());
      data := jtag.ReadWriteBits(Zeros(32), true);
      Split(r, Zeros(32), r + Zeros(32));
      InstructionsDiffer();
      FullScan(d, jtag.D(), Zeros(32));
      ghost var u := jtag.UpdateDr(false);
      NoOrderFrom(u);
      ghost var i :| jtag.D() == Next(u, i, jtag.dut.tap.idcodeValue);
      ZerosKeepError(u, i, jtag.dut.tap.idcodeValue);
    }

    // The first scan of a read.
    method OrderRead(address: Bits7)
      requires jtag.Synced() && jtag.irSelect == DMIACCESS
      modifies jtag, jtag.dut, jtag.dut.tap
      ensures jtag.Synced() && jtag.irSelect == DMIACCESS
      ensures jtag.orders == old(jtag.orders) || jtag.orders == old(jtag.orders) + [Request(address, Zeros(32), false)]
      ensures old(Calm(jtag.D())) ==> jtag.orders == old(jtag.orders) + [Request(address, Zeros(32), false)]
      ensures old(Calm(jtag.D())) ==> Reading(jtag.D(), jtag.since) && Op(jtag.D().dr) != Code(NoError)
    {
      hide Next, Reading, Calm, Follows, ShowsRead, DtmcsWord, Packed, Launches;
      DmiWidth(jtag.D());
      ghost var u := WriteRegister(Packed(address, Zeros(32), READ));
      OrderFrom(u, address, Zeros(32), READ);
      ghost var i :| jtag.D() == Next(u, i, jtag.dut.tap.idcodeValue);
      if Launches(u) { ReadLaunched(u, i, jtag.dut.tap.idcodeValue, address); }
    }

    // A read order, a pause, and a second scan that brings back the result. Reported
    // success means that the order was answered, well, and with that data.
    method ReadDmi(address: Bits7, waitCycles: nat) returns (data: Bits32, op: Bits2)
      requires jtag.Synced()
      modifies jtag, jtag.dut, jtag.dut.tap
      ensures jtag.Synced() && jtag.irSelect == DMIACCESS
      ensures jtag.orders == old(jtag.orders) || jtag.orders == old(jtag.orders) + [Request(address, Zeros(32), false)]
      ensures old(Calm(jtag.D())) ==> jtag.orders == old(jtag.orders) + [Request(address, Zeros(32), false)]
      ensures old(Calm(jtag.D())) && op == Code(NoError) ==> Answered(jtag.since, data)
    {
      hide Next, Reading, Calm, Follows, ShowsRead, DtmcsWord, Packed, Answered, Launches;
      jtag.SetIr(DMIACCESS);
      OrderRead(address);
      jtag.WaitIdle(waitCycles);
      data, op := Collect(address);
    }

    // The second scan of a read, which orders nothing.
    method Collect(address: Bits7) returns (data: Bits32, op: Bits2)
      requires jtag.Synced() && jtag.irSelect == DMIACCESS
      modifies jtag, jtag.dut, jtag.dut.tap
      ensures jtag.Synced() && jtag.irSelect == DMIACCESS && jtag.orders == old(jtag.orders)
      ensures old(Reading(jtag.D(), jtag.since)) && old(Op(jtag.D().dr)) != Code(NoError) && op == Code(NoError) ==>
                Answered(jtag.since, data)
    {
      hide Next, Reading, Calm, Follows, DtmcsWord, Packed, Answered, Launches, Op, Payload;
      jtag.ShiftDr();
      ghost var d := jtag.D();
      var bits := Packed(address, Zeros(32), NOP);
      var rdata := jtag.ReadWriteBits(bits, true);
      DmiScan(d, jtag.D(), bits);
      Split(d.dr, bits, d.dr + bits);
      op, data := Op(rdata), Payload(rdata);
      ghost var u := jtag.UpdateDr(false);
      OrderFrom(u, address, Zeros(32), NOP);
      InstructionsDiffer();
    }
  }

  // An update of another register is no order.
  lemma NoOrderFrom(u: Dtm)
    requires u.tap.ir != DMIACCESS
    ensures !Launches(u)
  {
    hide Clears;
  }

  lemma DmiWidth(d: Dtm)
    requires d.tap.ir == DMIACCESS
    ensures |Register(d)| == 41
  {
    InstructionsDiffer();
  }

  lemma DmiScan(d: Dtm, d': Dtm, bits: Bits41)
    requires d.tap.state == ShiftDr && d.tap.ir == DMIACCESS && d'.tap.ir == DMIACCESS
    requires Side(ShiftDr, d') == (Side(ShiftDr, d) + bits)[|bits|..]
    ensures d'.dr == bits && Register(d') == d'.dr
  {
    InstructionsDiffer();
    FullScan(d, d', bits);
  }

  lemma DtmcsUpdate(u: Dtm, i: Input, id: Bits32, data: Bits32)
    requires u.tap.state == UpdateDr && u.tap.ir == DTMCSR && Register(u) == data
    ensures !Launches(u) && (Dmireset(data) ==> Next(u, i, id).error == NoError)
    ensures Dmihardreset(data) || (Dmireset(data) && Calm(u)) ==> Calm(Next(u, i, id))
  {
    hide NextDr, NextDtmcs, DtmcsWord, ReadResult, NextTap, Packed, Op, Payload, Address;
    InstructionsDiffer();
  }

  lemma ZerosKeepError(u: Dtm, i: Input, id: Bits32)
    requires u.tap.state == UpdateDr && u.tap.ir == DTMCSR && Register(u) == Zeros(32)
    ensures Sticks(u, Next(u, i, id))
  {
    hide NextDr, NextDtmcs, DtmcsWord, ReadResult, NextTap, Packed, Op, Payload, Address;
    InstructionsDiffer();
  }

  // An update of the DMI register in a free transport is an order, if the operation is
  // a read or a write.
  lemma OrderFrom(u: Dtm, address: Bits7, data: Bits32, op: Bits2)
    requires u.tap.state == UpdateDr && u.tap.ir == DMIACCESS && Register(u) == Packed(address, data, op)
    ensures Launches(u) ==> DT.Order(u) == Request(address, data, op == WRITE) && (op == READ || op == WRITE)
    ensures Calm(u) && (op == READ || op == WRITE) ==> Launches(u)
  {
    hide Packed, Op, Payload, Address;
    InstructionsDiffer();
    PackedFields(address, data, op);
  }

  lemma ReadLaunched(u: Dtm, i: Input, id: Bits32, address: Bits7)
    requires Launches(u) && Register(u) == Packed(address, Zeros(32), READ) && u.tap.ir == DMIACCESS
    ensures Reading(Next(u, i, id), []) && Op(Next(u, i, id).dr) != Code(NoError)
  {
    hide NextDtmcs, DtmcsWord, ReadResult, NextTap, Packed, Op, Payload, Address;
    InstructionsDiffer();
    PackedFields(address, Zeros(32), READ);
  }
}
