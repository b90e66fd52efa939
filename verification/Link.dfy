/** The transport and the debug module joined: each clock-domain crossing is a
    one-place channel of any delay, and the module queues its responses. */
module Link {
  import opened Tap
  import opened Dtm
  import T = Dtm

  // A request or response with the number of the order it belongs to.
  datatype Tagged<T> = Tagged(tag: nat, value: T)

  const DEPTH: nat := 2

  // `sent` counts the requests that have entered the first channel.
  datatype Link = Link(
    dtm: Dtm, sent: nat, toDm: Option<Tagged<Request>>, queue: seq<Tagged<Response>>, toDtm: Option<Tagged<Response>>)

  // One edge of either clock. The channels and the module may take any time: what
  // could move in a cycle moves only if the step says so.
  datatype Step =
    | Tck(tms: bool, tdi: bool, send: bool, deliver: bool)
    | Clk(take: bool, answer: Response, forward: bool)

  function InputOf(l: Link, s: Step): Input
    requires s.Tck?
  {
    Input(s.tms, s.tdi, s.send && l.toDm.None?, if s.deliver && l.toDtm.Some? then Some(l.toDtm.value.value) else None)
  }

  predicate Sends(l: Link, s: Step) { s.Tck? && Requests(l.dtm) && s.send && l.toDm.None? }
  predicate Delivers(l: Link, s: Step) { s.Tck? && s.deliver && l.toDtm.Some? }

  // The module accepts a request when its queue has room, and answers it at once.
  predicate Accepts(l: Link, s: Step) { s.Clk? && s.take && l.toDm.Some? && |l.queue| < DEPTH }
  predicate Forwards(l: Link, s: Step) { s.Clk? && s.forward && l.queue != [] && l.toDtm.None? }

  function Next(l: Link, s: Step, id: Bits32): Link
  {
    match s
    case Tck(_, _, _, _) =>
      Link(T.Next(l.dtm, InputOf(l, s), id),
           if Sends(l, s) then l.sent + 1 else l.sent,
           if Sends(l, s) then Some(Tagged(l.sent, RequestOf(l.dtm))) else l.toDm,
           l.queue,
           if Delivers(l, s) then None else l.toDtm)
    case Clk(_, answer, _) =>
      var popped := if Forwards(l, s) then l.queue[1..] else l.queue;
      Link(l.dtm, l.sent,
           if Accepts(l, s) then None else l.toDm,
           if Accepts(l, s) then popped + [Tagged(l.toDm.value.tag, answer)] else popped,
           if Forwards(l, s) then Some(l.queue[0]) else l.toDtm)
  }

  // ---- At most one order is under way ----

  predicate Waits(d: Dtm) { d.state == WaitReadValid || d.state == WaitWriteValid }

  predicate Current(l: Link, tag: nat) { tag + 1 == l.sent }

  // The transport waits exactly while its last request, or the response to it, is in
  // one of the three places between.
  predicate Inv(l: Link)
  {
    if Waits(l.dtm) then
      || (l.toDm.Some? && l.queue == [] && l.toDtm.None? && Current(l, l.toDm.value.tag))
      || (l.toDm.None? && |l.queue| == 1 && l.toDtm.None? && Current(l, l.queue[0].tag))
      || (l.toDm.None? && l.queue == [] && l.toDtm.Some? && Current(l, l.toDtm.value.tag))
    else
      l.toDm.None? && l.queue == [] && l.toDtm.None?
  }

  // A reset finds the transport waiting for a response, which will then come to a
  // machine that does not expect it.
  predicate CutsShort(d: Dtm) { Clears(d) && Waits(d) }

  // Every step of either clock keeps it, resets of the transport included, as long as
  // none finds a request in flight; so the queue never holds more than one response.
  lemma StepKeepsInv(l: Link, s: Step, id: Bits32)
    requires Inv(l) && !CutsShort(l.dtm)
    ensures Inv(Next(l, s, id)) && |Next(l, s, id).queue| <= 1
  {
    hide NextDr, NextDtmcs, NextError, DtmcsWord, Packed, Address, Payload, ReadResult, NextTap, Clears;
    hide Launches, RequestOf;
  }

  predicate NeverCutsShort(l: Link, ss: seq<Step>, id: Bits32)
    decreases |ss|
  {
    ss != [] ==> !CutsShort(l.dtm) && NeverCutsShort(Next(l, ss[0], id), ss[1..], id)
  }

  function Run(l: Link, ss: seq<Step>, id: Bits32): Link
    decreases |ss|
  {
    if ss == [] then l else Run(Next(l, ss[0], id), ss[1..], id)
  }

  lemma {:induction false} RunKeepsInv(l: Link, ss: seq<Step>, id: Bits32)
    requires Inv(l) && NeverCutsShort(l, ss, id)
    ensures Inv(Run(l, ss, id))
    decreases |ss|
  {
    hide Inv, Next, CutsShort;
    if ss != [] {
      StepKeepsInv(l, ss[0], id);
      RunKeepsInv(Next(l, ss[0], id), ss[1..], id);
    }
  }

  // ---- Responses find their requests ----

  // A response is delivered only to a transport that waits, and it answers the
  // request the transport sent last.
  lemma ResponseMatchesRequest(l: Link, ss: seq<Step>, s: Step, id: Bits32)
    requires Inv(l) && NeverCutsShort(l, ss, id)
    ensures var e := Run(l, ss, id); Delivers(e, s) ==> Waits(e.dtm) && Current(e, e.toDtm.value.tag)
  {
    hide Next, NeverCutsShort, Run;
    RunKeepsInv(l, ss, id);
  }

  // ---- Requests keep their distance ----

  predicate AllTck(ss: seq<Step>) { forall k | 0 <= k < |ss| :: ss[k].Tck? }

  lemma {:induction false} QueueKeepsBusy(l: Link, ss: seq<Step>, id: Bits32)
    requires Inv(l) && NeverCutsShort(l, ss, id) && AllTck(ss) && l.queue != []
    ensures var e := Run(l, ss, id); e.queue == l.queue && e.toDm.None?
    decreases |ss|
  {
    hide Inv, Clears, CutsShort, T.Next, Waits, InputOf;
    if ss == [] {
      QueuedMeansTaken(l);
    } else {
      StepKeepsInv(l, ss[0], id);
      QueueKeepsBusy(Next(l, ss[0], id), ss[1..], id);
    }
  }

  lemma QueuedMeansTaken(l: Link)
    requires Inv(l) && l.queue != []
    ensures l.toDm.None?
  {
  }

  // Two requests are never accepted in neighbouring cycles of the module, however
  // many JTAG clocks lie between them.
  lemma NoNeighbours(l: Link, c: Step, ss: seq<Step>, c': Step, id: Bits32)
    requires Inv(l) && !CutsShort(l.dtm) && Accepts(l, c) && c'.Clk?
    requires AllTck(ss) && NeverCutsShort(Next(l, c, id), ss, id)
    ensures !Accepts(Run(Next(l, c, id), ss, id), c')
  {
    hide T.Next, Clears, CutsShort;
    StepKeepsInv(l, c, id);
    QueueKeepsBusy(Next(l, c, id), ss, id);
  }
}
