/** The DMI machine of the DTM over whole runs: requests are the Update-DR orders,
    each once and unaltered; errors stick; reads come back. */
module DmiTransactions {
  import opened Tap
  import opened Dtm
  import opened Scan

  // ---- Orders and requests ----

  // An order taken from Update-DR, as its request.
  function Order(d: Dtm): Request { Request(Address(d.dr), Payload(d.dr), Op(d.dr) == WRITE) }

  predicate Accepts(d: Dtm, i: Input) { Requests(d) && i.ready }

  function Launched(d: Dtm, ins: seq<Input>, id: Bits32): seq<Request>
    decreases |ins|
  {
    if ins == [] then [] else (if Launches(d) then [Order(d)] else []) + Launched(Next(d, ins[0], id), ins[1..], id)
  }

  // What becomes of an order: the module accepts it, or a reset discards it first.
  datatype Fate = Delivered(request: Request) | Discarded(request: Request)

  function FatesNow(d: Dtm, i: Input): seq<Fate>
  {
    if Accepts(d, i) then [Delivered(RequestOf(d))]
    else if Clears(d) && Pending(d) != [] then [Discarded(RequestOf(d))]
    else []
  }

  function Fates(d: Dtm, ins: seq<Input>, id: Bits32): seq<Fate>
    decreases |ins|
  {
    if ins == [] then [] else FatesNow(d, ins[0]) + Fates(Next(d, ins[0], id), ins[1..], id)
  }

  function RequestsOf(fates: seq<Fate>): (rs: seq<Request>)
    ensures |rs| == |fates|
  {
    seq(|fates|, k requires 0 <= k < |fates| => fates[k].request)
  }

  // The request that has been ordered and is neither accepted nor discarded yet.
  function Pending(d: Dtm): seq<Request>
  {
    if d.state == Read || d.state == Write then [RequestOf(d)] else []
  }

  lemma PendingStep(d: Dtm, i: Input, id: Bits32)
    ensures RequestsOf(FatesNow(d, i)) + Pending(Next(d, i, id))
            == Pending(d) + (if Launches(d) then [Order(d)] else [])
  {
    hide NextError, NextDr, NextDtmcs, DtmcsWord, Packed, Address, Payload, ReadResult, Clears, Selects, NextTap;
    assert READ[0] != WRITE[0];
  }

  // The orders launched meet their fates in order: each is accepted exactly once and
  // unaltered, or discarded by a reset before that, but for the one still pending at
  // either end. No reset is excluded.
  lemma {:induction false} OrdersArriveOnce(d: Dtm, ins: seq<Input>, id: Bits32)
    ensures RequestsOf(Fates(d, ins, id)) + Pending(Run(d, ins, id)) == Pending(d) + Launched(d, ins, id)
    decreases |ins|
  {
    hide Next, Clears, Launches, Order, Accepts, RequestOf, Pending, FatesNow;
    if ins != [] {
      var d' := Next(d, ins[0], id);
      var now, rest := FatesNow(d, ins[0]), Fates(d', ins[1..], id);
      var launched := if Launches(d) then [Order(d)] else [];
      var later, end := Launched(d', ins[1..], id), Pending(Run(d, ins, id));
      PendingStep(d, ins[0], id);
      OrdersArriveOnce(d', ins[1..], id);
      assert RequestsOf(now + rest) == RequestsOf(now) + RequestsOf(rest);
      calc {
        RequestsOf(now + rest) + end;
        RequestsOf(now) + (RequestsOf(rest) + end);
        RequestsOf(now) + (Pending(d') + later);
        (RequestsOf(now) + Pending(d')) + later;
        Pending(d) + (launched + later);
      }
    }
  }

  predicate NeverClears(d: Dtm, ins: seq<Input>, id: Bits32)
    decreases |ins|
  {
    ins != [] ==> !Clears(d) && NeverClears(Next(d, ins[0], id), ins[1..], id)
  }

  // Only a reset discards: without one, every order is delivered.
  lemma {:induction false} OnlyResetsDiscard(d: Dtm, ins: seq<Input>, id: Bits32)
    requires NeverClears(d, ins, id)
    ensures forall k | 0 <= k < |Fates(d, ins, id)| :: Fates(d, ins, id)[k].Delivered?
    decreases |ins|
  {
    hide Next, Clears, RequestOf;
    if ins != [] { OnlyResetsDiscard(Next(d, ins[0], id), ins[1..], id); }
  }

  // ---- Errors ----

  predicate ResetsError(d: Dtm) { Clears(d) || (Updating(d) && Selected(d, Select.Dtmcs) && Dmireset(d.dtmcs)) }

  lemma ErrorSticks(d: Dtm, i: Input, id: Bits32)
    requires d.error != NoError && !ResetsError(d)
    ensures Next(d, i, id).error == d.error && !Launches(d)
  {
    hide NextDr, NextDtmcs, Clears, Selects, NextTap, Packed, Address, Payload, ReadResult;
  }

  predicate NeverResets(d: Dtm, ins: seq<Input>, id: Bits32)
    decreases |ins|
  {
    ins != [] ==> !ResetsError(d) && NeverResets(Next(d, ins[0], id), ins[1..], id)
  }

  // After an error no order is launched, and the error stays, until dmireset,
  // dmihardreset or Test-Logic-Reset.
  lemma {:induction false} NothingAfterError(d: Dtm, ins: seq<Input>, id: Bits32)
    requires d.error != NoError && NeverResets(d, ins, id)
    ensures Launched(d, ins, id) == [] && Run(d, ins, id).error == d.error
    decreases |ins|
  {
    hide Next, ResetsError, Launches;
    if ins != [] {
      ErrorSticks(d, ins[0], id);
      NothingAfterError(Next(d, ins[0], id), ins[1..], id);
    }
  }

  // ---- Reads ----

  // A capture of the DMI register while a read is under way reports busy.
  lemma CaptureDuringRead(d: Dtm, i: Input, id: Bits32)
    requires Capturing(d) && Selected(d, Select.Dmi) && (d.state == Read || d.state == WaitReadValid)
    ensures Op(Next(d, i, id).dr) == Code(Busy) && Next(d, i, id).error != NoError
  {
    hide NextDtmcs, Selects, NextTap, Address, ReadResult;
  }

  // The DMI side stays as it is while the machine is idle and takes no new order.
  predicate NoOrders(d: Dtm, ins: seq<Input>, id: Bits32)
    decreases |ins|
  {
    ins != [] ==> !Clears(d) && !Latches(d) && NoOrders(Next(d, ins[0], id), ins[1..], id)
  }

  lemma IdleHolds(d: Dtm, i: Input, id: Bits32)
    requires d.state == Idle && d.error == NoError && !Clears(d) && !Latches(d)
    ensures var d' := Next(d, i, id);
            d'.state == Idle && d'.error == NoError && d'.address == d.address && d'.data == d.data
  {
    hide NextDtmcs, Selects, NextTap, Address, Payload, ReadResult, NextDr;
  }

  lemma {:induction false} IdleRunHolds(d: Dtm, ins: seq<Input>, id: Bits32)
    requires d.state == Idle && d.error == NoError && NoOrders(d, ins, id)
    ensures var d' := Run(d, ins, id);
            d'.state == Idle && d'.error == NoError && d'.address == d.address && d'.data == d.data
    decreases |ins|
  {
    hide Next, Clears, Latches;
    if ins != [] {
      IdleHolds(d, ins[0], id);
      IdleRunHolds(Next(d, ins[0], id), ins[1..], id);
    }
  }

  // Once a read has been answered in time, the next capture of the DMI register
  // shows the address, the data of the response, and no error.
  lemma CaptureReturnsRead(d: Dtm, i: Input, v: Bits32, ins: seq<Input>, c: Input, id: Bits32)
    requires d.state == WaitReadValid && d.error == NoError && !Clears(d) && !Updating(d) && !Capturing(d)
    requires i.resp == Some(Response(v, Success))
    requires NoOrders(Next(d, i, id), ins, id)
    requires var e := Run(Next(d, i, id), ins, id); Capturing(e) && Selected(e, Select.Dmi)
    ensures var e := Next(Run(Next(d, i, id), ins, id), c, id);
            e.dr == Packed(d.address, v, Code(NoError)) && e.error == NoError
  {
    ReadAnswered(d, i, v, id);
    hide Next;
    IdleRunHolds(Next(d, i, id), ins, id);
    IdleCapture(Run(Next(d, i, id), ins, id), c, id);
  }

  lemma ReadAnswered(d: Dtm, i: Input, v: Bits32, id: Bits32)
    requires d.state == WaitReadValid && d.error == NoError && !Clears(d) && !Updating(d) && !Capturing(d)
    requires i.resp == Some(Response(v, Success))
    ensures var e := Next(d, i, id); e.state == Idle && e.error == NoError && e.address == d.address && e.data == v
  {
    hide NextDtmcs, Selects, NextTap, Address, Payload, NextDr;
  }

  lemma IdleCapture(d: Dtm, c: Input, id: Bits32)
    requires Capturing(d) && Selected(d, Select.Dmi) && d.state == Idle && d.error == NoError
    ensures var e := Next(d, c, id); e.dr == Packed(d.address, d.data, Code(NoError)) && e.error == NoError
  {
    hide NextDtmcs, Selects, NextTap, Address, Payload, ReadResult, Packed;
  }

  // The operation code a failed access leaves behind is not reported: the capture
  // that should show it leaves the register as the last scan left it.
  lemma FailureIsNotCaptured(d: Dtm, i: Input, id: Bits32)
    requires Capturing(d) && Selected(d, Select.Dmi) && d.error == OpFailed && d.state == Idle
    ensures Next(d, i, id).dr == d.dr && Next(d, i, id).error == OpFailed
  {
    hide NextDtmcs, Selects, NextTap, Address, Payload, ReadResult, Packed;
  }
}
