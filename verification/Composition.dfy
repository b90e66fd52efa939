/** From the JTAG pins to the run theorems: what a debugger sends over the transport
    reaches the module as the requests of an allowed run. */
module Composition {
  import opened Words
  import opened Numbers
  import opened System
  import opened Commands
  import D = Dmi
  import L = Link
  import Tap
  import T = Dtm

  // ---- The requests the module accepts, one entry per module clock ----

  function Accepted(l: L.Link, ss: seq<L.Step>, id: Tap.Bits32): seq<Option<T.Request>>
    decreases |ss|
  {
    if ss == [] then []
    else
      var rest := Accepted(L.Next(l, ss[0], id), ss[1..], id);
      if ss[0].Tck? then rest
      else [if L.Accepts(l, ss[0]) then Some(l.toDm.value.value) else None] + rest
  }

  predicate Apart<T>(reqs: seq<Option<T>>)
  {
    forall k | 0 < k < |reqs| :: reqs[k - 1].None? || reqs[k].None?
  }

  // A module with a response in its queue accepts nothing in its next clock, however
  // many JTAG clocks come first.
  lemma {:induction false} QueuedAcceptsNothing(l: L.Link, ss: seq<L.Step>, id: Tap.Bits32)
    requires L.Inv(l) && L.NeverCutsShort(l, ss, id) && l.queue != []
    ensures Accepted(l, ss, id) != [] ==> Accepted(l, ss, id)[0].None?
    decreases |ss|
  {
    hide L.Inv, T.Next, T.Clears, L.CutsShort, L.InputOf, L.Waits;
    if ss != [] {
      L.QueuedMeansTaken(l);
      L.StepKeepsInv(l, ss[0], id);
      if ss[0].Tck? { QueuedAcceptsNothing(L.Next(l, ss[0], id), ss[1..], id); }
    }
  }

  // Over every run of transport, crossings and module, for every delay of theirs, no
  // two requests are accepted in neighbouring clocks of the module.
  lemma {:induction false} AcceptedAreSpaced(l: L.Link, ss: seq<L.Step>, id: Tap.Bits32)
    requires L.Inv(l) && L.NeverCutsShort(l, ss, id)
    ensures Apart(Accepted(l, ss, id))
    decreases |ss|
  {
    hide L.Inv, T.Next, T.Clears, L.CutsShort, L.InputOf, L.Waits;
    if ss != [] {
      var l' := L.Next(l, ss[0], id);
      L.StepKeepsInv(l, ss[0], id);
      AcceptedAreSpaced(l', ss[1..], id);
      if L.Accepts(l, ss[0]) { QueuedAcceptsNothing(l', ss[1..], id); }
    }
  }

  // ---- The same requests as the module decodes them ----

  function Decoded(r: T.Request): D.Request
  {
    var op := if r.write then D.OP_WRITE else D.OP_READ;
    D.Request(D.RegisterAt(SevenOf(r.address)), op, WordOf(r.data))
  }

  // One clock of the system per clock of the module: the accepted requests beside the
  // moves of the hart.
  function Inputs(reqs: seq<Option<T.Request>>, moves: seq<Move>): seq<Input>
    requires |reqs| == |moves|
  {
    seq(|reqs|, k requires 0 <= k < |reqs| =>
      Input(if reqs[k].Some? then Some(Decoded(reqs[k].value)) else None, moves[k]))
  }

  // What the debugger sends over JTAG to a module with no command just accepted makes
  // an allowed run: all it has to leave alone is dmactive, ndmreset and the scratch
  // registers. The timing is the transport's.
  lemma JtagRunIsAllowed(l: L.Link, ss: seq<L.Step>, id: Tap.Bits32, s: Sys, moves: seq<Move>)
    requires L.Inv(l) && L.NeverCutsShort(l, ss, id) && |moves| == |Accepted(l, ss, id)|
    requires var ins := Inputs(Accepted(l, ss, id), moves);
             MovesAllowed(s, ins) && forall k | 0 <= k < |ins| :: Permitted(ins[k].req)
    requires !s.dm.dmi.cmdValid
    ensures AllowedRun(s, Inputs(Accepted(l, ss, id), moves))
  {
    hide L.Inv, L.NeverCutsShort, Decoded, Permitted, MovesAllowed, AllowedRun;
    var reqs := Accepted(l, ss, id);
    hide Accepted;
    AcceptedAreSpaced(l, ss, id);
    SpacedRunAllowed(s, Inputs(reqs, moves));
  }
}
