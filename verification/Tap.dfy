/** DTM_JTAG_TAP: the sixteen-state controller, the instruction register, and the
    idcode and bypass data registers. Registers are bit sequences, bit 0 first. */
module Tap {

  type Bits = seq<bool>
  type Bits5 = b: Bits | |b| == 5 witness [false, false, false, false, false]
  type Bits32 = b: Bits | |b| == 32 witness seq(32, _ => false)

  datatype TapState =
    | TestLogicReset | RunTestIdle
    | SelectDrScan | CaptureDr | ShiftDr | Exit1Dr | PauseDr | Exit2Dr | UpdateDr
    | SelectIrScan | CaptureIr | ShiftIr | Exit1Ir | PauseIr | Exit2Ir | UpdateIr

  function NextState(s: TapState, tms: bool): TapState
  {
    match s
    case TestLogicReset => if tms then TestLogicReset else RunTestIdle
    case RunTestIdle => if tms then SelectDrScan else RunTestIdle
    case SelectDrScan => if tms then SelectIrScan else CaptureDr
    case CaptureDr => if tms then Exit1Dr else ShiftDr
    case ShiftDr => if tms then Exit1Dr else ShiftDr
    case Exit1Dr => if tms then UpdateDr else PauseDr
    case PauseDr => if tms then Exit2Dr else PauseDr
    case Exit2Dr => if tms then UpdateDr else ShiftDr
    case UpdateDr => if tms then SelectDrScan else RunTestIdle
    case SelectIrScan => if tms then TestLogicReset else CaptureIr
    case CaptureIr => if tms then Exit1Ir else ShiftIr
    case ShiftIr => if tms then Exit1Ir else ShiftIr
    case Exit1Ir => if tms then UpdateIr else PauseIr
    case PauseIr => if tms then Exit2Ir else PauseIr
    case Exit2Ir => if tms then UpdateIr else ShiftIr
    case UpdateIr => if tms then SelectDrScan else RunTestIdle
  }

  // ---- Instructions ----

  const IDCODE: Bits5 := [true, false, false, false, false]
  const DTMCSR: Bits5 := [false, false, false, false, true]
  const DMIACCESS: Bits5 := [true, false, false, false, true]
  const CAPTURED_IR: Bits5 := [true, false, true, false, false]

  datatype Select = Bypass | Idcode | Dtmcs | Dmi

  // Every instruction without a register of its own selects bypass.
  function Selects(ir: Bits5): Select
  {
    if ir == IDCODE then Idcode else if ir == DTMCSR then Dtmcs else if ir == DMIACCESS then Dmi else Bypass
  }

  // ---- The controller ----

  datatype Tap = Tap(state: TapState, irShift: Bits5, ir: Bits5, idcode: Bits32, bypass: bool)

  function Shifted(r: Bits, tdi: bool): (r': Bits)
    requires r != []
    ensures |r'| == |r|
  {
    r[1..] + [tdi]
  }

  function NextIrShift(t: Tap, tdi: bool): Bits5
  {
    match t.state
    case TestLogicReset => [false, false, false, false, false]
    case CaptureIr => CAPTURED_IR
    case ShiftIr => Shifted(t.irShift, tdi)
    case _ => t.irShift
  }

  function NextIr(t: Tap): Bits5
  {
    match t.state
    case TestLogicReset => IDCODE
    case UpdateIr => t.irShift
    case _ => t.ir
  }

  function NextIdcode(t: Tap, tdi: bool, idcodeValue: Bits32): Bits32
  {
    if t.state == TestLogicReset || (t.state == CaptureDr && Selects(t.ir) == Idcode) then idcodeValue
    else if t.state == ShiftDr && Selects(t.ir) == Idcode then Shifted(t.idcode, tdi)
    else t.idcode
  }

  function NextBypass(t: Tap, tdi: bool): bool
  {
    if t.state == TestLogicReset || (t.state == CaptureDr && Selects(t.ir) == Bypass) then false
    else if t.state == ShiftDr && Selects(t.ir) == Bypass then tdi
    else t.bypass
  }

  function NextTap(t: Tap, tms: bool, tdi: bool, idcodeValue: Bits32): Tap
  {
    Tap(NextState(t.state, tms), NextIrShift(t, tdi), NextIr(t), NextIdcode(t, tdi, idcodeValue), NextBypass(t, tdi))
  }

  // The bit on TDO; the two registers kept elsewhere hand in their lowest bits.
  function Tdo(t: Tap, dtmcsTdo: bool, dmiTdo: bool): bool
  {
    if t.state == ShiftIr then t.irShift[0]
    else match Selects(t.ir)
      case Idcode => t.idcode[0]
      case Dtmcs => dtmcsTdo
      case Dmi => dmiTdo
      case Bypass => t.bypass
  }

  function ResetTap(idcodeValue: Bits32): Tap
  {
    Tap(TestLogicReset, [false, false, false, false, false], IDCODE, idcodeValue, false)
  }

  class TapController {
    const idcodeValue: Bits32
    var state: TapState
    var irShift: Bits5
    var ir: Bits5
    var idcode: Bits32
    var bypass: bool

    function Contents(): Tap
      reads this
    {
      Tap(state, irShift, ir, idcode, bypass)
    }

    constructor (idcodeValue: Bits32)
      ensures this.idcodeValue == idcodeValue && Contents() == ResetTap(idcodeValue)
    {
      this.idcodeValue := idcodeValue;
      state, irShift, ir, idcode, bypass :=
        TestLogicReset, [false, false, false, false, false], IDCODE, idcodeValue, false;
    }

    // The asynchronous reset, TRST.
    method Clear()
      modifies this
      ensures Contents() == ResetTap(idcodeValue)
    {
      state, irShift, ir, idcode, bypass :=
        TestLogicReset, [false, false, false, false, false], IDCODE, idcodeValue, false;
    }

    method ClockIr(tdi: bool)
      modifies this`irShift, this`ir
      ensures irShift == NextIrShift(old(Contents()), tdi) && ir == NextIr(old(Contents()))
    {
      var shiftD, irD := irShift, ir;
      if state == ShiftIr { shiftD := irShift[1..] + [tdi]; }
      if state == CaptureIr { shiftD := CAPTURED_IR; }
      if state == UpdateIr { irD := irShift; }
      if state == TestLogicReset { shiftD, irD := [false, false, false, false, false], IDCODE; }
      irShift, ir := shiftD, irD;
    }

    method ClockData(tdi: bool)
      modifies this`idcode, this`bypass
      ensures idcode == NextIdcode(old(Contents()), tdi, idcodeValue) && bypass == NextBypass(old(Contents()), tdi)
    {
      var idcodeD, bypassD := idcode, bypass;
      var selected := Selects(ir);
      if state == CaptureDr {
        if selected == Idcode { idcodeD := idcodeValue; }
        if selected == Bypass { bypassD := false; }
      }
      if state == ShiftDr {
        if selected == Idcode { idcodeD := idcode[1..] + [tdi]; }
        if selected == Bypass { bypassD := tdi; }
      }
      if state == TestLogicReset { idcodeD, bypassD := idcodeValue, false; }
      idcode, bypass := idcodeD, bypassD;
    }

    method Clock(tms: bool, tdi: bool, dtmcsTdo: bool, dmiTdo: bool) returns (tdo: bool)
      modifies this
      ensures Contents() == NextTap(old(Contents()), tms, tdi, idcodeValue)
      ensures tdo == Tdo(old(Contents()), dtmcsTdo, dmiTdo)
    {
      hide NextIrShift, NextIr, NextIdcode, NextBypass, Selects;
      tdo := Tdo(Contents(), dtmcsTdo, dmiTdo);
      ClockData(tdi);
      ghost var middle := Contents();
      ClockIr(tdi);
      IrIgnoresData(old(Contents()), middle, tdi);
      state := NextState(state, tms);
    }
  }

  lemma IrIgnoresData(t: Tap, t': Tap, tdi: bool)
    requires t'.state == t.state && t'.irShift == t.irShift && t'.ir == t.ir
    ensures NextIrShift(t', tdi) == NextIrShift(t, tdi) && NextIr(t') == NextIr(t)
  {
  }

  // ---- What the state diagram promises ----

  function Steps(s: TapState, tms: seq<bool>): TapState
    decreases |tms|
  {
    if tms == [] then s else Steps(NextState(s, tms[0]), tms[1..])
  }

  // Five clocks with TMS high reach Test-Logic-Reset from every state, and four do not.
  lemma FiveOnesReset(s: TapState)
    ensures Steps(s, [true, true, true, true, true]) == TestLogicReset
    ensures Steps(ShiftDr, [true, true, true, true]) != TestLogicReset
  {
    var five := [true, true, true, true, true];
    assert five[1..] == [true, true, true, true] && five[1..][1..] == [true, true, true];
    assert five[1..][1..][1..] == [true, true] && five[1..][1..][1..][1..] == [true];
  }

  // The states of a data scan, or of an instruction scan.
  datatype Column = Column(capture: TapState, shift: TapState, pause: TapState, update: TapState)

  function ColumnOf(ir: bool): Column
  {
    if ir then Column(CaptureIr, ShiftIr, PauseIr, UpdateIr) else Column(CaptureDr, ShiftDr, PauseDr, UpdateDr)
  }

  // TMS as it is while the controller waits: high in reset, low elsewhere.
  predicate Steady(tms: seq<bool>, level: bool) { forall k | 0 <= k < |tms| :: tms[k] == level }

  lemma {:induction false} Waits(s: TapState, tms: seq<bool>)
    requires s in {TestLogicReset, RunTestIdle, ShiftDr, PauseDr, ShiftIr, PauseIr} && Steady(tms, s == TestLogicReset)
    ensures Steps(s, tms) == s
    decreases |tms|
  {
    if tms != [] { Waits(s, tms[1..]); }
  }

  lemma {:induction false} StepsJoined(s: TapState, a: seq<bool>, b: seq<bool>)
    ensures Steps(s, a + b) == Steps(Steps(s, a), b)
    decreases |a|
  {
    if a == [] {
      assert a + b == b;
    } else {
      assert (a + b)[1..] == a[1..] + b;
      StepsJoined(NextState(s, a[0]), a[1..], b);
    }
  }

  lemma OneStep(s: TapState, a: bool)
    ensures Steps(s, [a]) == NextState(s, a)
  {
    assert [a][1..] == [];
  }

  lemma TwoSteps(s: TapState, a: bool, b: bool)
    ensures Steps(s, [a, b]) == NextState(NextState(s, a), b)
  {
    assert [a, b][1..] == [b];
    OneStep(NextState(s, a), b);
  }

  // From each state in which the controller can wait, what a debugger drives on TMS to
  // get to the next one; `low` is any number of low clocks.
  lemma ScanPaths(ir: bool, low: seq<bool>)
    requires Steady(low, false)
    ensures var c := ColumnOf(ir);
            && Steps(RunTestIdle, (if ir then [true, true] else [true]) + [false]) == c.capture
            && Steps(c.capture, [false] + low) == c.shift && Steps(c.capture, [true, true]) == c.update
            && Steps(c.shift, [true, true]) == c.update && Steps(c.shift, [true, false] + low) == c.pause
            && Steps(c.pause, [true, true]) == c.update && Steps(c.pause, [true, false] + low) == c.shift
            && Steps(c.update, [false] + low) == RunTestIdle && Steps(c.update, [true, false]) == CaptureDr
    ensures Steps(RunTestIdle, [true, true] + [true]) == TestLogicReset
    ensures Steps(TestLogicReset, [false] + low) == RunTestIdle
  {
    hide Steps;
    var c := ColumnOf(ir);
    Waits(c.shift, low);
    Waits(c.pause, low);
    Waits(RunTestIdle, low);
    StepsJoined(RunTestIdle, if ir then [true, true] else [true], [false]);
    StepsJoined(RunTestIdle, [true, true], [true]);
    StepsJoined(c.capture, [false], low);
    StepsJoined(c.shift, [true, false], low);
    StepsJoined(c.pause, [true, false], low);
    StepsJoined(c.update, [false], low);
    StepsJoined(TestLogicReset, [false], low);
    OneStep(RunTestIdle, true);
    OneStep(SelectDrScan, false);
    OneStep(SelectIrScan, false);
    OneStep(SelectIrScan, true);
    OneStep(c.capture, false);
    OneStep(c.update, false);
    OneStep(TestLogicReset, false);
    TwoSteps(RunTestIdle, true, true);
    TwoSteps(c.capture, true, true);
    TwoSteps(c.shift, true, true);
    TwoSteps(c.shift, true, false);
    TwoSteps(c.pause, true, true);
    TwoSteps(c.pause, true, false);
    TwoSteps(c.update, true, false);
  }
}
