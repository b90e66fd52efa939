/** The scan law: what a pass through the data-register states does, for every TMS
    and TDI trace and whatever the DMI side does meanwhile. */
module Scan {
  import opened Tap
  import opened Dtm

  // The register between TDI and TDO.
  function Register(d: Dtm): Bits
  {
    match Selects(d.tap.ir)
    case Dmi => d.dr
    case Dtmcs => d.dtmcs
    case Idcode => d.tap.idcode
    case Bypass => [d.tap.bypass]
  }

  // From the first shift to the last exit; Pause detours included.
  predicate InScan(s: TapState) { s == ShiftDr || s == Exit1Dr || s == PauseDr || s == Exit2Dr }

  function Bit(b: bool, v: bool): Bits { if b then [v] else [] }

  function Run(d: Dtm, ins: seq<Input>, idcodeValue: Bits32): Dtm
    decreases |ins|
  {
    if ins == [] then d else Run(Next(d, ins[0], idcodeValue), ins[1..], idcodeValue)
  }

  // The bits that come out on TDO, and the bits that go in, at the clocks in Shift-DR.
  function Emitted(d: Dtm, ins: seq<Input>, idcodeValue: Bits32): Bits
    decreases |ins|
  {
    if ins == [] then [] else Bit(Shifting(d), TdoOf(d)) + Emitted(Next(d, ins[0], idcodeValue), ins[1..], idcodeValue)
  }

  function Taken(d: Dtm, ins: seq<Input>, idcodeValue: Bits32): Bits
    decreases |ins|
  {
    if ins == [] then [] else Bit(Shifting(d), ins[0].tdi) + Taken(Next(d, ins[0], idcodeValue), ins[1..], idcodeValue)
  }

  predicate StaysInScan(d: Dtm, ins: seq<Input>, idcodeValue: Bits32)
    decreases |ins|
  {
    ins != [] ==> InScan(d.tap.state) && StaysInScan(Next(d, ins[0], idcodeValue), ins[1..], idcodeValue)
  }

  // Registers that are not selected.
  predicate OthersHold(d: Dtm, d': Dtm)
  {
    && (!Selected(d, Select.Dmi) ==> d'.dr == d.dr)
    && (!Selected(d, Select.Dtmcs) ==> d'.dtmcs == d.dtmcs)
    && (!Selected(d, Select.Idcode) ==> d'.tap.idcode == d.tap.idcode)
    && (!Selected(d, Select.Bypass) ==> d'.tap.bypass == d.tap.bypass)
  }

  lemma ScanStep(d: Dtm, i: Input, idcodeValue: Bits32)
    requires InScan(d.tap.state)
    ensures var d' := Next(d, i, idcodeValue);
            && Bit(Shifting(d), TdoOf(d)) + Register(d') == Register(d) + Bit(Shifting(d), i.tdi)
            && d'.tap.ir == d.tap.ir && OthersHold(d, d')
  {
    hide NextMachine, NextError, DtmcsWord, Packed, Address, Payload, ReadResult, Op, Selects, NextState;
    if Shifting(d) {
      var r := Register(d);
      assert [r[0]] + (r[1..] + [i.tdi]) == r + [i.tdi];
    }
  }

  // Everything that has come out, followed by what the register holds, is what it
  // held followed by everything that has gone in.
  lemma {:induction false} ScanConserves(d: Dtm, ins: seq<Input>, idcodeValue: Bits32)
    requires StaysInScan(d, ins, idcodeValue)
    ensures var end := Run(d, ins, idcodeValue);
            && Emitted(d, ins, idcodeValue) + Register(end) == Register(d) + Taken(d, ins, idcodeValue)
            && |Emitted(d, ins, idcodeValue)| == |Taken(d, ins, idcodeValue)|
            && end.tap.ir == d.tap.ir && OthersHold(d, end)
    decreases |ins|
  {
    hide Next, Register, TdoOf, Selects;
    if ins == [] {
      assert [] + Register(d) == Register(d) + [];
    } else {
      var d' := Next(d, ins[0], idcodeValue);
      ScanStep(d, ins[0], idcodeValue);
      ScanConserves(d', ins[1..], idcodeValue);
      Chain(Bit(Shifting(d), TdoOf(d)), Emitted(d', ins[1..], idcodeValue), Register(Run(d, ins, idcodeValue)),
        Register(d'),
            Register(d), Bit(Shifting(d), ins[0].tdi), Taken(d', ins[1..], idcodeValue));
    }
  }

  lemma Chain(a: Bits, b: Bits, c: Bits, m: Bits, p: Bits, q: Bits, r: Bits)
    requires a + m == p + q && b + c == m + r
    ensures (a + b) + c == p + (q + r)
  {
    assert (a + b) + c == a + (b + c);
    assert a + (m + r) == (a + m) + r;
    assert (p + q) + r == p + (q + r);
  }

  // The value Capture-DR puts into the selected register.
  function Captured(d: Dtm, i: Input, idcodeValue: Bits32): Bits
  {
    match Selects(d.tap.ir)
    case Dmi =>
      if d.error == Busy || TooEarly(d, i) then Packed(d.address, d.data, Code(Busy))
      else if d.error == NoError then Packed(d.address, d.data, Code(NoError))
      else d.dr
    case Dtmcs => DtmcsWord(d.error)
    case Idcode => idcodeValue
    case Bypass => [false]
  }

  lemma CaptureStep(d: Dtm, i: Input, idcodeValue: Bits32)
    requires Capturing(d)
    ensures var d' := Next(d, i, idcodeValue);
            && Register(d') == Captured(d, i, idcodeValue)
            && d'.tap.ir == d.tap.ir && OthersHold(d, d')
  {
    hide NextMachine, NextError, DtmcsWord, Packed, Address, Payload, ReadResult, Op, Selects, NextState, TooEarly;
  }

  // From Capture-DR to Update-DR by any route: with k clocks in Shift-DR the selected
  // register ends as the last bits, and TDO shows the first k bits, of the captured
  // value followed by the bits sent; every other register holds.
  lemma ScanLaw(d: Dtm, ins: seq<Input>, idcodeValue: Bits32)
    requires Capturing(d) && ins != [] && StaysInScan(Next(d, ins[0], idcodeValue), ins[1..], idcodeValue)
    ensures var d1, end := Next(d, ins[0], idcodeValue), Run(d, ins, idcodeValue);
            var sent, seen := Taken(d1, ins[1..], idcodeValue), Emitted(d1, ins[1..], idcodeValue);
            var stream := Captured(d, ins[0], idcodeValue) + sent;
            && seen == stream[..|sent|] && Register(end) == stream[|sent|..]
            && (|sent| == |Register(d)| ==> Register(end) == sent && seen == Captured(d, ins[0], idcodeValue))
            && end.tap.ir == d.tap.ir && OthersHold(d, end)
  {
    hide Next, Captured, Selects, TdoOf, TooEarly;
    var d1 := Next(d, ins[0], idcodeValue);
    CaptureStep(d, ins[0], idcodeValue);
    ScanConserves(d1, ins[1..], idcodeValue);
    SameWidth(d, d1);
    var sent, seen := Taken(d1, ins[1..], idcodeValue), Emitted(d1, ins[1..], idcodeValue);
    Split(seen, Register(Run(d, ins, idcodeValue)), Captured(d, ins[0], idcodeValue) + sent);
    if |sent| == |Register(d)| {
      Split(seen, Register(Run(d, ins, idcodeValue)), Register(d1) + sent);
      Split(Register(d1), sent, Register(d1) + sent);
    }
  }

  lemma SameWidth(d: Dtm, d': Dtm)
    requires d'.tap.ir == d.tap.ir
    ensures |Register(d')| == |Register(d)| > 0
  {
    hide Selects;
  }

  lemma Split(a: Bits, b: Bits, s: Bits)
    requires a + b == s
    ensures a == s[..|a|] && b == s[|a|..]
  {
  }

  // ---- The same for the instruction register ----

  predicate InIrScan(s: TapState) { s == ShiftIr || s == Exit1Ir || s == PauseIr || s == Exit2Ir }

  function EmittedIr(d: Dtm, ins: seq<Input>, idcodeValue: Bits32): Bits
    decreases |ins|
  {
    if ins == [] then []
    else Bit(d.tap.state == ShiftIr, TdoOf(d)) + EmittedIr(Next(d, ins[0], idcodeValue), ins[1..], idcodeValue)
  }

  function TakenIr(d: Dtm, ins: seq<Input>, idcodeValue: Bits32): Bits
    decreases |ins|
  {
    if ins == [] then []
    else Bit(d.tap.state == ShiftIr, ins[0].tdi) + TakenIr(Next(d, ins[0], idcodeValue), ins[1..], idcodeValue)
  }

  predicate StaysInIrScan(d: Dtm, ins: seq<Input>, idcodeValue: Bits32)
    decreases |ins|
  {
    ins != [] ==> InIrScan(d.tap.state) && StaysInIrScan(Next(d, ins[0], idcodeValue), ins[1..], idcodeValue)
  }

  lemma IrScanStep(d: Dtm, i: Input, idcodeValue: Bits32)
    requires InIrScan(d.tap.state)
    ensures var d', shifts := Next(d, i, idcodeValue), d.tap.state == ShiftIr;
            && Bit(shifts, TdoOf(d)) + d'.tap.irShift == d.tap.irShift + Bit(shifts, i.tdi)
            && d'.tap.ir == d.tap.ir
  {
    hide NextMachine, NextError, NextDr, NextDtmcs, DtmcsWord, Packed, Address, Payload, ReadResult, Selects, NextState;
    hide NextIdcode, NextBypass;
    if d.tap.state == ShiftIr {
      var r := d.tap.irShift;
      assert [r[0]] + (r[1..] + [i.tdi]) == r + [i.tdi];
    }
  }

  lemma {:induction false} IrScanConserves(d: Dtm, ins: seq<Input>, idcodeValue: Bits32)
    requires StaysInIrScan(d, ins, idcodeValue)
    ensures var end := Run(d, ins, idcodeValue);
            && EmittedIr(d, ins, idcodeValue) + end.tap.irShift == d.tap.irShift + TakenIr(d, ins, idcodeValue)
            && |EmittedIr(d, ins, idcodeValue)| == |TakenIr(d, ins, idcodeValue)| && end.tap.ir == d.tap.ir
    decreases |ins|
  {
    hide Next, TdoOf;
    if ins != [] {
      var d' := Next(d, ins[0], idcodeValue);
      IrScanStep(d, ins[0], idcodeValue);
      IrScanConserves(d', ins[1..], idcodeValue);
      var shifts := d.tap.state == ShiftIr;
      Chain(Bit(shifts, TdoOf(d)), EmittedIr(d', ins[1..], idcodeValue), Run(d, ins, idcodeValue).tap.irShift,
            d'.tap.irShift, d.tap.irShift, Bit(shifts, ins[0].tdi), TakenIr(d', ins[1..], idcodeValue));
    }
  }

  lemma IrCaptureAndUpdate(d: Dtm, i: Input, idcodeValue: Bits32)
    ensures d.tap.state == CaptureIr ==> Next(d, i, idcodeValue).tap.irShift == [true, false, true, false, false]
    ensures d.tap.state == UpdateIr ==> Next(d, i, idcodeValue).tap.ir == d.tap.irShift
  {
    hide NextMachine, NextError, NextDr, NextDtmcs, DtmcsWord, Packed, Address, Payload, ReadResult, Selects, NextState;
    hide NextIdcode, NextBypass;
  }

  // From Capture-IR to the clock in Update-IR by any route: the instruction is the last
  // five bits of the captured 00101 followed by the bits sent, and TDO shows the others.
  lemma IrScanLaw(d: Dtm, ins: seq<Input>, u: Input, idcodeValue: Bits32)
    requires d.tap.state == CaptureIr && ins != [] && StaysInIrScan(Next(d, ins[0], idcodeValue), ins[1..], idcodeValue)
    requires Run(d, ins, idcodeValue).tap.state == UpdateIr
    ensures var d1 := Next(d, ins[0], idcodeValue);
            var sent, seen := TakenIr(d1, ins[1..], idcodeValue), EmittedIr(d1, ins[1..], idcodeValue);
            var stream := [true, false, true, false, false] + sent;
            seen == stream[..|sent|] && Next(Run(d, ins, idcodeValue), u, idcodeValue).tap.ir == stream[|sent|..]
  {
    hide Next, TdoOf;
    var d1, end := Next(d, ins[0], idcodeValue), Run(d, ins, idcodeValue);
    IrCaptureAndUpdate(d, ins[0], idcodeValue);
    IrScanConserves(d1, ins[1..], idcodeValue);
    IrCaptureAndUpdate(end, u, idcodeValue);
    var sent, seen := TakenIr(d1, ins[1..], idcodeValue), EmittedIr(d1, ins[1..], idcodeValue);
    Split(seen, end.tap.irShift, [true, false, true, false, false] + sent);
  }
}
