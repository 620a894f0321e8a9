/**
 * The main loop's routing: every event read from one port's channel is handed
 * to the applier of the other port, in the order the loop receives them, until
 * the first fatal cause arrives on the error channel.
 */
module EventRouter {
  import opened SerialTypes

  datatype Side = Left | Right

  function Opposite(s: Side): Side
  {
    if s == Left then Right else Left
  }

  /** What one pass of the loop's select receives. */
  datatype Received = FromLeft(event: SerialData) | FromRight(event: SerialData) | Fatal(cause: string)

  /** An applier started for `event` on the port at `to`. */
  datatype Dispatch = Dispatch(to: Side, event: SerialData)

  function Source(r: Received): Side
    requires !r.Fatal?
  {
    if r.FromLeft? then Left else Right
  }

  /** The first |dispatched| receipts were events, each handed to the port opposite its source. */
  predicate Routes(inbox: seq<Received>, dispatched: seq<Dispatch>)
  {
    && |dispatched| <= |inbox|
    && forall i :: 0 <= i < |dispatched| ==>
         !inbox[i].Fatal? && dispatched[i] == Dispatch(Opposite(Source(inbox[i])), inbox[i].event)
  }

  /**
   * MainLoop over the receipts in the order the select yields them. It returns
   * the first fatal cause, or None when the receipts run out with the loop still
   * waiting.
   */
  method MainLoop(inbox: seq<Received>) returns (dispatched: seq<Dispatch>, cause: Option<string>)
    ensures Routes(inbox, dispatched)
    ensures cause.Some? ==> |dispatched| < |inbox| && inbox[|dispatched|] == Fatal(cause.value)
    ensures cause.None? ==> |dispatched| == |inbox|
  {
    dispatched := [];
    var i := 0;
    while i < |inbox|
      invariant i == |dispatched| <= |inbox|
      invariant Routes(inbox, dispatched)
    {
      match inbox[i]
      case FromLeft(e) =>
        dispatched := dispatched + [Dispatch(Right, e)];
        i := i + 1;
      case FromRight(e) =>
        dispatched := dispatched + [Dispatch(Left, e)];
        i := i + 1;
      case Fatal(c) =>
        cause := Some(c);
        return;
    }
    cause := None;
  }

  function EventOf(r: Received, side: Side): seq<SerialData>
  {
    if !r.Fatal? && Source(r) == side then [r.event] else []
  }

  function HandedTo(d: Dispatch, side: Side): seq<SerialData>
  {
    if d.to == side then [d.event] else []
  }

  /** The events received from `side`, in order. */
  function EventsFrom(inbox: seq<Received>, side: Side): seq<SerialData>
  {
    if inbox == [] then [] else EventsFrom(inbox[..|inbox| - 1], side) + EventOf(inbox[|inbox| - 1], side)
  }

  /** The events handed to the port at `side`, in order. */
  function EventsTo(dispatched: seq<Dispatch>, side: Side): seq<SerialData>
  {
    if dispatched == [] then [] else EventsTo(dispatched[..|dispatched| - 1], side) + HandedTo(dispatched[|dispatched| - 1], side)
  }

  /**
   * Routing neither loses, duplicates nor reorders the events of one source:
   * the port opposite `side` is handed exactly the events `side` sent, in order.
   */
  lemma {:induction false} RoutingKeepsSourceOrder(inbox: seq<Received>, dispatched: seq<Dispatch>, side: Side)
    requires Routes(inbox, dispatched)
    ensures EventsTo(dispatched, Opposite(side)) == EventsFrom(inbox[..|dispatched|], side)
    decreases |dispatched|
  {
    if dispatched != [] {
      var n := |dispatched|;
      assert Routes(inbox, dispatched[..n - 1]);
      RoutingKeepsSourceOrder(inbox, dispatched[..n - 1], side);
      assert inbox[..n][..n - 1] == inbox[..n - 1];
    }
  }

  /** No event reaches the port it came from. */
  lemma {:induction false} NothingReturnsToItsSource(inbox: seq<Received>, dispatched: seq<Dispatch>, side: Side)
    requires Routes(inbox, dispatched)
    requires forall i :: 0 <= i < |inbox| ==> inbox[i].Fatal? || Source(inbox[i]) == side
    ensures EventsTo(dispatched, side) == []
    decreases |dispatched|
  {
    if dispatched != [] {
      var n := |dispatched|;
      assert Routes(inbox, dispatched[..n - 1]);
      NothingReturnsToItsSource(inbox, dispatched[..n - 1], side);
    }
  }
}
