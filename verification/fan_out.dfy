/**
 Fault-isolated sequential fan-out, the loop shared by the plugin managers'
 `emit_event` and the error collector's `_notify_handlers`: every handler in
 the list is called in list order, a raising handler is caught and logged, and
 the next one still runs.
 */
module FanOut {
  import opened Common

  /** One call made during a fan-out, and whether that handler raised. */
  datatype Delivery<H> = Delivery(handler: H, faulted: bool)

  /** Call every handler of `hs` in order; `fails(h)` tells whether `h` raises. */
  function Deliver<H>(hs: seq<H>, fails: H -> bool): (r: seq<Delivery<H>>)
    ensures |r| == |hs|
  {
    if hs == [] then [] else [Delivery(hs[0], fails(hs[0]))] + Deliver(hs[1..], fails)
  }

  /** The handlers called, in call order. */
  function Called<H>(ds: seq<Delivery<H>>): seq<H>
  {
    if ds == [] then [] else [ds[0].handler] + Called(ds[1..])
  }

  /** The handlers whose fault was caught and logged, in call order. */
  function Logged<H>(ds: seq<Delivery<H>>): seq<H>
  {
    if ds == [] then [] else (if ds[0].faulted then [ds[0].handler] else []) + Logged(ds[1..])
  }

  /** Every handler is called, in registration order, whatever earlier handlers did. */
  lemma {:induction false} DeliverCallsAllInOrder<H>(hs: seq<H>, fails: H -> bool)
    ensures Called(Deliver(hs, fails)) == hs
  {
    if hs != [] {
      DeliverCallsAllInOrder(hs[1..], fails);
      assert hs == [hs[0]] + hs[1..];
    }
  }

  /** Exactly the raising handlers are logged, once each, in call order. */
  lemma {:induction false} DeliverLogsFaults<H(!new)>(hs: seq<H>, fails: H -> bool)
    ensures Logged(Deliver(hs, fails)) == Filter(hs, fails)
  {
    if hs != [] {
      DeliverLogsFaults(hs[1..], fails);
    }
  }

  /** With no failing handler nothing is logged. */
  lemma {:induction false} DeliverQuiet<H>(hs: seq<H>, fails: H -> bool)
    requires forall i :: 0 <= i < |hs| ==> !fails(hs[i])
    ensures Logged(Deliver(hs, fails)) == []
  {
    if hs != [] {
      DeliverQuiet(hs[1..], fails);
    }
  }
}
