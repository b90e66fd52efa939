/** Accesses from the JTAG pins: transport, crossings and module joined, with every
    answer the module's own. A scan is one access of one register, at one instant. */
module JtagAccess {
  import opened Words
  import opened Numbers
  import D = Dmi
  import MW = MemWindow
  import DM = DebugModule
  import Tap
  import T = Dtm
  import V = DmiView
  import L = Link
  import DT = DmiTransactions
  import CP = Composition
  import SN = ScanNumbers

  datatype Pair = Pair(link: L.Link, dm: DM.Dm)

  // One edge of either clock. `bus` is what the hart does, `other` what the registers
  // outside this model answer.
  datatype Cycle = Cycle(step: L.Step, bus: MW.BusRequest, other: D.Response)

  // The request that the module accepts in a cycle, and its answer.
  function Heard(p: Pair, c: Cycle): Option<D.Request>
  {
    if L.Accepts(p.link, c.step) then Some(CP.Decoded(p.link.toDm.value.value)) else None
  }

  predicate Honest(p: Pair, c: Cycle)
  {
    Heard(p, c).Some? ==> c.step.answer == SN.Encoded(DM.Respond(p.dm, Heard(p, c).value, c.other))
  }

  function Next(p: Pair, c: Cycle, id: Tap.Bits32): Pair
  {
    Pair(L.Next(p.link, c.step, id), if c.step.Clk? then DM.Next(p.dm, Heard(p, c), c.bus) else p.dm)
  }

  function Run(p: Pair, cs: seq<Cycle>, id: Tap.Bits32): Pair
    decreases |cs|
  {
    if cs == [] then p else Run(Next(p, cs[0], id), cs[1..], id)
  }

  // The accesses of a run: each request, and the module as it was when it answered.
  datatype Exchange = Exchange(sent: T.Request, dm: DM.Dm, other: D.Response)

  function Answer(x: Exchange): D.Response { DM.Respond(x.dm, CP.Decoded(x.sent), x.other) }

  function Exchanges(p: Pair, cs: seq<Cycle>, id: Tap.Bits32): seq<Exchange>
    decreases |cs|
  {
    if cs == [] then []
    else
      (if L.Accepts(p.link, cs[0].step) then [Exchange(p.link.toDm.value.value, p.dm, cs[0].other)] else [])
      + Exchanges(Next(p, cs[0], id), cs[1..], id)
  }

  // ---- One transaction ----

  // Honest cycles, in which the transport is busy and nothing resets it.
  predicate Busy(p: Pair, cs: seq<Cycle>, id: Tap.Bits32)
    decreases |cs|
  {
    cs != [] ==>
      && p.link.dtm.state != T.Idle && !T.Clears(p.link.dtm) && Honest(p, cs[0])
      && Busy(Next(p, cs[0], id), cs[1..], id)
  }

  predicate Reading(d: T.Dtm) { d.state == T.Read || d.state == T.WaitReadValid }

  // The transport after its transaction has ended with a response.
  predicate Concludes(d: T.Dtm, r: T.Response, e: T.Dtm)
  {
    e.state == T.Idle && e.address == d.address && e.data == if Reading(d) then T.ReadResult(r) else d.data
  }

  // The request that the module has not yet accepted, or the response that the transport
  // has not yet seen.
  function Unheard(l: L.Link): seq<T.Request>
  {
    if l.dtm.state == T.Read || l.dtm.state == T.Write then [T.RequestOf(l.dtm)]
    else if l.toDm.Some? then [l.toDm.value.value]
    else []
  }

  function Unseen(l: L.Link): seq<T.Response>
  {
    if l.queue != [] then [l.queue[0].value] else if l.toDtm.Some? then [l.toDtm.value.value] else []
  }

  // What one cycle does to them.
  lemma LinkCycle(l: L.Link, s: L.Step, id: Tap.Bits32)
    requires L.Inv(l) && l.dtm.state != T.Idle && !T.Clears(l.dtm)
    ensures var l' := L.Next(l, s, id);
            && L.Inv(l') && |Unheard(l)| + |Unseen(l)| == 1
            && (if L.Delivers(l, s) then Unheard(l) == [] && Unheard(l') == [] && Concludes(l.dtm, Unseen(l)[0], l'.dtm)
                else
                  && l'.dtm.state != T.Idle && l'.dtm.address == l.dtm.address && l'.dtm.data == l.dtm.data
                  && (Reading(l'.dtm) <==> Reading(l.dtm))
                  && if L.Accepts(l, s) then
                       Unheard(l) == [l.toDm.value.value] && Unheard(l') == [] && Unseen(l') == [s.answer]
                     else Unheard(l') == Unheard(l) && Unseen(l') == Unseen(l))
  {
    hide T.NextDr, T.NextDtmcs, T.NextError, T.DtmcsWord, T.Packed, T.Address, T.Payload, T.ReadResult, T.Clears;
    hide Tap.NextTap, T.Op;
  }

  // Whatever the delays, the transaction ends with the module's answer to its own
  // request, and the module hears nothing else meanwhile.
  lemma {:induction false} TransactionIsAnswered(p: Pair, cs: seq<Cycle>, id: Tap.Bits32)
    requires L.Inv(p.link) && p.link.dtm.state != T.Idle && Busy(p, cs, id)
    requires Run(p, cs, id).link.dtm.state == T.Idle
    ensures var xs, e := Exchanges(p, cs, id), Run(p, cs, id);
            && L.Inv(e.link) && |xs| == |Unheard(p.link)|
            && (forall k | 0 <= k < |xs| :: xs[k].sent == Unheard(p.link)[k])
            && (|xs| == 1 ==> Concludes(p.link.dtm, SN.Encoded(Answer(xs[0])), e.link.dtm))
            && (|xs| == 0 ==> Unseen(p.link) != [] && Concludes(p.link.dtm, Unseen(p.link)[0], e.link.dtm))
    decreases |cs|
  {
    hide L.Inv, L.Next, L.Accepts, L.Delivers, DM.Next, DM.Respond, Unheard, Unseen, T.Clears, T.ReadResult, CP.Decoded;
    hide SN.Encoded;
    var p', c := Next(p, cs[0], id), cs[0];
    LinkCycle(p.link, c.step, id);
    OnlyClkAccepts(p.link, c.step);
    if p'.link.dtm.state == T.Idle {
      assert Busy(p', cs[1..], id) && cs[1..] == [];
    } else {
      TransactionIsAnswered(p', cs[1..], id);
    }
  }

  lemma OnlyClkAccepts(l: L.Link, s: L.Step)
    ensures L.Accepts(l, s) ==> s.Clk? && !L.Delivers(l, s) && l.toDm.Some?
  {
  }

  // ---- From scan to scan ----

  // Cycles of a free transport that nothing resets, and no update of the DMI register.
  predicate Resting(p: Pair, cs: seq<Cycle>, id: Tap.Bits32)
    decreases |cs|
  {
    cs != [] ==>
      !T.Clears(p.link.dtm) && !T.Latches(p.link.dtm) && Honest(p, cs[0]) && Resting(Next(p, cs[0], id), cs[1..], id)
  }

  lemma RestingCycle(l: L.Link, s: L.Step, id: Tap.Bits32)
    requires L.Inv(l) && l.dtm.state == T.Idle && l.dtm.error == T.NoError && !T.Clears(l.dtm) && !T.Latches(l.dtm)
    ensures var l' := L.Next(l, s, id);
            && L.Inv(l') && l'.dtm.state == T.Idle && l'.dtm.error == T.NoError
            && l'.dtm.address == l.dtm.address && l'.dtm.data == l.dtm.data && !L.Accepts(l, s)
  {
    hide T.Next, T.Clears, T.Latches, T.RequestOf;
    if s.Tck? { DT.IdleHolds(l.dtm, L.InputOf(l, s), id); }
  }

  lemma {:induction false} RestHolds(p: Pair, cs: seq<Cycle>, id: Tap.Bits32)
    requires L.Inv(p.link) && p.link.dtm.state == T.Idle && p.link.dtm.error == T.NoError && Resting(p, cs, id)
    ensures var d, e := p.link.dtm, Run(p, cs, id).link.dtm;
            && e.state == T.Idle && e.error == T.NoError && e.address == d.address && e.data == d.data
            && Exchanges(p, cs, id) == []
    decreases |cs|
  {
    hide L.Inv, L.Next, L.Accepts, DM.Next, Honest, T.Clears, T.Latches;
    if cs != [] {
      RestingCycle(p.link, cs[0].step, id);
      RestHolds(Next(p, cs[0], id), cs[1..], id);
    }
  }

  // An update of the DMI register on a free transport with the number of an operation,
  // a word and an address.
  predicate Scanned(p: Pair, c: Cycle, op: int, w: Word, a: bv7)
  {
    var d := p.link.dtm;
    && L.Inv(p.link) && c.step.Tck?
    && d.tap.state == Tap.UpdateDr && NumberOf(d.tap.ir) == 0x11 && d.state == T.Idle && d.error == T.NoError
    && NumberOf(d.dr) == op + 4 * (w as int) + 0x4_0000_0000 * (a as int)
  }

  lemma LaunchCycle(p: Pair, c: Cycle, op: int, w: Word, a: bv7, id: Tap.Bits32)
    requires (op == 1 || op == 2) && Scanned(p, c, op, w, a)
    ensures var p', d' := Next(p, c, id), Next(p, c, id).link.dtm;
            && L.Inv(p'.link) && p'.dm == p.dm && d'.state == (if op == 1 then T.Read else T.Write)
            && Unheard(p'.link) == [T.RequestOf(d')] && NumberOf(d'.address) == a as int && !L.Accepts(p.link, c.step)
            && CP.Decoded(T.RequestOf(d')) == D.Request(D.RegisterAt(a), if op == 1 then 1 else 2, w)
  {
    var d, i := p.link.dtm, L.InputOf(p.link, c.step);
    hide T.Next, NumberOf, CP.Decoded, D.RegisterAt, T.Clears, Tap.Selects, T.Op, T.RequestOf;
    SN.InstructionNumbers(d.tap.ir);
    L.StepKeepsInv(p.link, c.step, id);
    SN.ScanReachesModule(d, i, id, a, w, op);
    SN.OrderByNumber(d, i, id);
    SN.WordRange(w, a);
    SN.ThreeParts(NumberOf(d.dr), op, w as int, a as int);
  }

  // A scan and the cycles until the transport is free again.
  predicate Accesses(p: Pair, c: Cycle, cs: seq<Cycle>, op: int, w: Word, a: bv7, id: Tap.Bits32)
  {
    && (op == 1 || op == 2) && Scanned(p, c, op, w, a)
    && Busy(Next(p, c, id), cs, id) && Run(Next(p, c, id), cs, id).link.dtm.state == T.Idle
  }

  // The one access that a scan makes: the module hears one request, of that operation,
  // word and address, at an instant between the scan and the end of the transaction, and
  // the transport is left with the answer.
  lemma ScanIsOneAccess(p: Pair, c: Cycle, cs: seq<Cycle>, op: int, w: Word, a: bv7, id: Tap.Bits32)
    requires Accesses(p, c, cs, op, w, a, id)
    ensures var xs, e := Exchanges(Next(p, c, id), cs, id), Run(Next(p, c, id), cs, id);
            && Heard(p, c).None? && L.Inv(e.link) && e.link.dtm.state == T.Idle && |xs| == 1
            && CP.Decoded(xs[0].sent) == D.Request(D.RegisterAt(a), if op == 1 then 1 else 2, w)
            && NumberOf(e.link.dtm.address) == a as int
            && (op == 1 ==> e.link.dtm.data == T.ReadResult(SN.Encoded(Answer(xs[0]))))
  {
    LaunchCycle(p, c, op, w, a, id);
    hide L.Inv, L.Next, L.Accepts, DM.Next, T.Clears, CP.Decoded, D.RegisterAt, Scanned, NumberOf, SN.Encoded;
    TransactionIsAnswered(Next(p, c, id), cs, id);
  }

  // What a response puts into the data of the transport.
  function Brought(r: D.Response): int
  {
    if r.resp == 0 then r.data as int
    else if r.resp == 2 then 0xdead_beef else if r.resp == 3 then 0xb051_b051 else 0xbaad_c0de
  }

  // A read from scan to scan: the next capture of the DMI register shows the address and
  // what the register was when the module heard the request.
  lemma JtagReadReturns(p: Pair, c: Cycle, cs: seq<Cycle>, rest: seq<Cycle>, k: Cycle, w: Word, a: bv7, id: Tap.Bits32)
    requires Accesses(p, c, cs, 1, w, a, id)
    requires var e := Run(Next(p, c, id), cs, id); e.link.dtm.error == T.NoError && Resting(e, rest, id)
    requires var d := Run(Run(Next(p, c, id), cs, id), rest, id).link.dtm;
             T.Capturing(d) && NumberOf(d.tap.ir) == 0x11 && k.step.Tck?
    ensures var xs, f := Exchanges(Next(p, c, id), cs, id), Run(Run(Next(p, c, id), cs, id), rest, id);
            && |xs| == 1 && CP.Decoded(xs[0].sent) == D.Request(D.RegisterAt(a), 1, w)
            && NumberOf(Next(f, k, id).link.dtm.dr) == 4 * Brought(Answer(xs[0])) + 0x4_0000_0000 * (a as int)
  {
    ScanIsOneAccess(p, c, cs, 1, w, a, id);
    var e := Run(Next(p, c, id), cs, id);
    RestHolds(e, rest, id);
    var x, d := Exchanges(Next(p, c, id), cs, id)[0], Run(e, rest, id).link.dtm;
    hide Accesses, Run, Exchanges, Resting, NumberOf, CP.Decoded, D.RegisterAt, SN.Encoded, T.Next;
    hide T.ReadResult, Answer;
    SN.InstructionNumbers(d.tap.ir);
    DT.IdleCapture(d, L.InputOf(Run(e, rest, id).link, k.step), id);
    SN.PackedNumber(d.address, d.data, T.Code(T.NoError));
    SN.CodeNumbers();
    SN.ResultNumber(Answer(x));
    WordBitsNumber(Answer(x).data);
  }

  // ---- Written over JTAG, read back over JTAG ----

  predicate QuietHart(cs: seq<Cycle>)
  {
    forall k | 0 <= k < |cs| :: MW.DecodeBus(cs[k].bus) != MW.WriteData
  }

  predicate AllWell(xs: seq<Exchange>) { forall k | 0 <= k < |xs| :: Answer(xs[k]).resp == 0 }

  predicate WritesSlot(r: T.Request, t: V.Slot, v: Word)
  {
    CP.Decoded(r) == D.Request(D.RegisterAt(V.SlotAddress(t)), 2, v)
  }

  predicate IsRead(r: T.Request) { CP.Decoded(r).op == 1 }

  // The slot has the word, or the request that writes it is on its way.
  predicate WillHold(p: Pair, t: V.Slot, v: Word)
  {
    var rs := Unheard(p.link);
    p.dm.regs.dmactive && if rs != [] && WritesSlot(rs[0], t, v) then true
                          else V.Content(p.dm, t) == v && (rs != [] ==> IsRead(rs[0]))
  }

  lemma SlotKept(d: DM.Dm, req: Option<D.Request>, b: MW.BusRequest, t: V.Slot)
    requires d.regs.dmactive && MW.DecodeBus(b) != MW.WriteData && (req.Some? ==> req.value.op == 1)
    ensures var d' := DM.Next(d, req, b); d'.regs.dmactive && V.Content(d', t) == V.Content(d, t)
  {
    hide MW.DecodeBus, DM.Next, V.Shown, V.Content, V.SlotAddress, D.RegisterAt;
    V.CycleLeaves(d, V.Cycle(req, b), t, D.Response(0, 0));
    V.ShownIsContent(d, t, D.Response(0, 0));
    V.ShownIsContent(DM.Next(d, req, b), t, D.Response(0, 0));
  }

  lemma SlotWritten(d: DM.Dm, v: Word, b: MW.BusRequest, t: V.Slot, other: D.Response)
    requires d.regs.dmactive && MW.DecodeBus(b) != MW.WriteData
    requires DM.Respond(d, D.WriteAt(V.SlotAddress(t), v), other).resp == 0
    ensures var d' := DM.Next(d, Some(D.WriteAt(V.SlotAddress(t), v)), b); d'.regs.dmactive && V.Content(d', t) == v
  {
    var r := D.WriteAt(V.SlotAddress(t), v);
    V.SlotDecodes(t);
    hide MW.DecodeBus, DM.Next, V.Shown, V.Content, V.SlotAddress, D.RegisterAt, DM.Respond;
    assert r.op == 2 && r.reg == D.RegisterAt(V.SlotAddress(t));
    V.BusyRefuses(d, r, b, other);
    V.WriteIsShown(d, t, v, b, other);
    V.ShownIsContent(DM.Next(d, Some(r), b), t, other);
    V.NextSlots(d, Some(r), b);
  }

  lemma CycleHolds(p: Pair, c: Cycle, t: V.Slot, v: Word, id: Tap.Bits32)
    requires L.Inv(p.link) && p.link.dtm.state != T.Idle && !T.Clears(p.link.dtm) && WillHold(p, t, v)
    requires MW.DecodeBus(c.bus) != MW.WriteData
    requires L.Accepts(p.link, c.step) ==> Answer(Exchange(p.link.toDm.value.value, p.dm, c.other)).resp == 0
    ensures WillHold(Next(p, c, id), t, v)
    ensures L.Accepts(p.link, c.step) && IsRead(p.link.toDm.value.value) ==> V.Content(p.dm, t) == v
  {
    hide L.Inv, L.Next, L.Delivers, DM.Next, DM.Respond, Unheard, Unseen, T.Clears, T.ReadResult, CP.Decoded, V.Content;
    hide V.SlotAddress, D.RegisterAt, MW.DecodeBus, Concludes;
    LinkCycle(p.link, c.step, id);
    OnlyClkAccepts(p.link, c.step);
    if c.step.Clk? {
      if L.Accepts(p.link, c.step) && WritesSlot(p.link.toDm.value.value, t, v) {
        SlotWritten(p.dm, v, c.bus, t, c.other);
      } else {
        SlotKept(p.dm, Heard(p, c), c.bus, t);
      }
    }
  }

  // Over a transaction: the slot ends with the word, and a read finds it there.
  lemma {:induction false} BusyHolds(p: Pair, cs: seq<Cycle>, t: V.Slot, v: Word, id: Tap.Bits32)
    requires L.Inv(p.link) && Busy(p, cs, id) && QuietHart(cs) && AllWell(Exchanges(p, cs, id)) && WillHold(p, t, v)
    ensures WillHold(Run(p, cs, id), t, v)
    ensures var xs := Exchanges(p, cs, id);
            forall k | 0 <= k < |xs| && IsRead(xs[k].sent) :: V.Content(xs[k].dm, t) == v
    decreases |cs|
  {
    hide L.Inv, L.Next, L.Accepts, L.Delivers, DM.Next, Answer, T.Clears, V.Content, MW.DecodeBus, WillHold, IsRead;
    hide Honest, Unheard, Unseen, Concludes;
    if cs != [] {
      var c, p', xs := cs[0], Next(p, cs[0], id), Exchanges(Next(p, cs[0], id), cs[1..], id);
      LinkCycle(p.link, c.step, id);
      OnlyClkAccepts(p.link, c.step);
      if L.Accepts(p.link, c.step) {
        assert Exchanges(p, cs, id) == [Exchange(p.link.toDm.value.value, p.dm, c.other)] + xs;
        assert Answer(Exchanges(p, cs, id)[0]).resp == 0;
        assert forall k | 0 <= k < |xs| :: xs[k] == Exchanges(p, cs, id)[k + 1];
      } else {
        assert Exchanges(p, cs, id) == xs;
      }
      CycleHolds(p, c, t, v, id);
      BusyHolds(p', cs[1..], t, v, id);
    }
  }

  lemma {:induction false} RestKeepsSlot(p: Pair, cs: seq<Cycle>, t: V.Slot, id: Tap.Bits32)
    requires L.Inv(p.link) && p.link.dtm.state == T.Idle && p.link.dtm.error == T.NoError && Resting(p, cs, id)
    requires QuietHart(cs) && p.dm.regs.dmactive
    ensures var e := Run(p, cs, id);
            L.Inv(e.link) && e.dm.regs.dmactive && V.Content(e.dm, t) == V.Content(p.dm, t)
    decreases |cs|
  {
    hide L.Inv, L.Next, L.Accepts, DM.Next, Honest, T.Clears, T.Latches, V.Content, MW.DecodeBus;
    if cs != [] {
      RestingCycle(p.link, cs[0].step, id);
      if cs[0].step.Clk? { SlotKept(p.dm, Heard(p, cs[0]), cs[0].bus, t); }
      RestKeepsSlot(Next(p, cs[0], id), cs[1..], t, id);
    }
  }

  // An access that goes well: the module answers with status 0, the transport ends
  // without an error, and the hart leaves the data registers alone meanwhile.
  predicate Succeeds(p: Pair, c: Cycle, cs: seq<Cycle>, op: int, w: Word, a: bv7, e: Pair, id: Tap.Bits32)
  {
    && Accesses(p, c, cs, op, w, a, id) && e == Run(Next(p, c, id), cs, id) && e.link.dtm.error == T.NoError
    && AllWell(Exchanges(Next(p, c, id), cs, id)) && QuietHart(cs)
  }

  lemma AccessHolds(p: Pair, c: Cycle, cs: seq<Cycle>, op: int, w: Word, e: Pair, t: V.Slot, v: Word, id: Tap.Bits32)
    requires Succeeds(p, c, cs, op, w, V.SlotAddress(t), e, id) && p.dm.regs.dmactive
    requires (op == 2 && w == v) || (op == 1 && V.Content(p.dm, t) == v)
    ensures e.dm.regs.dmactive && V.Content(e.dm, t) == v && L.Inv(e.link) && e.link.dtm.state == T.Idle
    ensures op == 1 ==> var xs := Exchanges(Next(p, c, id), cs, id); |xs| == 1 && V.Content(xs[0].dm, t) == v
  {
    var a := V.SlotAddress(t);
    hide V.SlotAddress, D.RegisterAt, CP.Decoded, V.Content, NumberOf, Scanned, L.Next, DM.Next, L.Accepts, T.Clears;
    LaunchCycle(p, c, op, w, a, id);
    ScanIsOneAccess(p, c, cs, op, w, a, id);
    hide L.Inv;
    BusyHolds(Next(p, c, id), cs, t, v, id);
    IdleHasHeard(e.link);
  }

  lemma IdleHasHeard(l: L.Link)
    requires L.Inv(l) && l.dtm.state == T.Idle
    ensures Unheard(l) == []
  {
  }

  // A data register or program-buffer word that is written by one scan and read by
  // another is shown by the capture after it, whatever the delays between.
  lemma JtagReadsBack(p: Pair, c: Cycle, cs: seq<Cycle>, e: Pair, rest: seq<Cycle>, c2: Cycle, cs2: seq<Cycle>,
      e2: Pair, rest2: seq<Cycle>, k: Cycle, t: V.Slot, v: Word, w: Word, id: Tap.Bits32)
    requires p.dm.regs.dmactive && Succeeds(p, c, cs, 2, v, V.SlotAddress(t), e, id)
    requires Resting(e, rest, id) && QuietHart(rest)
    requires Succeeds(Run(e, rest, id), c2, cs2, 1, w, V.SlotAddress(t), e2, id) && Resting(e2, rest2, id)
    requires var d := Run(e2, rest2, id).link.dtm; T.Capturing(d) && NumberOf(d.tap.ir) == 0x11 && k.step.Tck?
    ensures NumberOf(Next(Run(e2, rest2, id), k, id).link.dtm.dr)
            == 4 * (v as int) + 0x4_0000_0000 * (V.SlotAddress(t) as int)
  {
    var p2, a := Run(e, rest, id), V.SlotAddress(t);
    AccessHolds(p, c, cs, 2, v, e, t, v, id);
    RestKeepsSlot(e, rest, t, id);
    AccessHolds(p2, c2, cs2, 1, w, e2, t, v, id);
    JtagReadReturns(p2, c2, cs2, rest2, k, w, a, id);
    var x := Exchanges(Next(p2, c2, id), cs2, id)[0];
    hide Run, Exchanges, Resting, Accesses, Next, V.SlotAddress, D.RegisterAt, CP.Decoded, NumberOf, V.Content;
    ReadAnswer(x.dm, t, w, x.other);
  }

  // The word of a read request does not matter.
  lemma ReadAnswer(d: DM.Dm, t: V.Slot, w: Word, other: D.Response)
    ensures DM.Respond(d, D.Request(D.RegisterAt(V.SlotAddress(t)), 1, w), other)
            == D.Response(V.Content(d, t), if DM.Busy(d) then 3 else 0)
  {
    V.SlotDecodes(t);
    V.ShownIsContent(d, t, other);
    hide V.SlotAddress, D.RegisterAt;
  }
}
