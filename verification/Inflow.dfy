/**
 The receiver's queue, with every message known by its arrival number.

 The network may deliver at any time, and a replay request discards the whole queue.
 */
module Inflow {
  import opened Wrappers

  datatype Traffic = Arrive | Discard

  /** Arrival numbers of the queued messages, and how many messages have ever arrived. */
  datatype Inflow = Inflow(queue: seq<nat>, arrived: nat)

  const NOTHING := Inflow([], 0)

  function Deliver(inflow: Inflow, t: Traffic): Inflow {
    match t
    case Arrive => Inflow(inflow.queue + [inflow.arrived], inflow.arrived + 1)
    case Discard => Inflow([], inflow.arrived)
  }

  function DeliverAll(inflow: Inflow, ts: seq<Traffic>): Inflow
    decreases |ts|
  {
    if ts == [] then inflow else DeliverAll(Deliver(inflow, ts[0]), ts[1..])
  }

  /** How many messages one drain takes. */
  function Taken(queued: nat, limit: Option<nat>): nat {
    if limit.Some? && limit.value < queued then limit.value else queued
  }

  function Drained(inflow: Inflow, count: nat): Inflow
    requires count <= |inflow.queue|
  {
    inflow.(queue := inflow.queue[count..])
  }

  /** The queued messages are the last ones that arrived, in order. */
  ghost predicate Fifo(inflow: Inflow) {
    && |inflow.queue| <= inflow.arrived
    && forall i :: 0 <= i < |inflow.queue| ==> inflow.queue[i] == inflow.arrived - |inflow.queue| + i
  }

  /** How many messages have left the queue, drained or discarded. */
  function Gone(inflow: Inflow): int {
    inflow.arrived - |inflow.queue|
  }

  /** How many of the first k messages are still queued. */
  function Ahead(queue: seq<nat>, k: nat): nat {
    if queue == [] then 0 else (if queue[0] < k then 1 else 0) + Ahead(queue[1..], k)
  }

  function AtLeastZero(n: int): nat {
    if n < 0 then 0 else n
  }

  lemma {:induction false} AheadIs(inflow: Inflow, k: nat)
    requires Fifo(inflow) && k <= inflow.arrived
    ensures Ahead(inflow.queue, k) == AtLeastZero(k - Gone(inflow))
    decreases |inflow.queue|
  {
    if inflow.queue != [] {
      AheadIs(inflow.(queue := inflow.queue[1..]), k);
    }
  }

  lemma DeliverKeepsFifo(inflow: Inflow, t: Traffic)
    requires Fifo(inflow)
    ensures Fifo(Deliver(inflow, t)) && Gone(inflow) <= Gone(Deliver(inflow, t))
    ensures t == Arrive ==> Gone(Deliver(inflow, t)) == Gone(inflow)
    ensures inflow.arrived <= Deliver(inflow, t).arrived
  {
  }

  ghost predicate NoDiscard(ts: seq<Traffic>) {
    forall i :: 0 <= i < |ts| ==> ts[i] == Arrive
  }

  /** Traffic never brings a message back; without a discard it takes none away. */
  lemma {:induction false} TrafficKeepsFifo(inflow: Inflow, ts: seq<Traffic>)
    requires Fifo(inflow)
    ensures Fifo(DeliverAll(inflow, ts)) && Gone(inflow) <= Gone(DeliverAll(inflow, ts))
    ensures NoDiscard(ts) ==> Gone(DeliverAll(inflow, ts)) == Gone(inflow)
    ensures NoDiscard(ts) ==> DeliverAll(inflow, ts).arrived == inflow.arrived + |ts|
    ensures inflow.arrived <= DeliverAll(inflow, ts).arrived
    decreases |ts|
  {
    if ts != [] {
      DeliverKeepsFifo(inflow, ts[0]);
      TrafficKeepsFifo(Deliver(inflow, ts[0]), ts[1..]);
      assert NoDiscard(ts) ==> NoDiscard(ts[1..]);
    }
  }

  lemma DrainKeepsFifo(inflow: Inflow, count: nat)
    requires Fifo(inflow) && count <= |inflow.queue|
    ensures Fifo(Drained(inflow, count)) && Gone(Drained(inflow, count)) == Gone(inflow) + count
  {
  }

  /** The receiver's inbox; the network changes it between the client's own steps. */
  class Inbox {
    var queue: seq<nat>
    var arrived: nat

    ghost function View(): Inflow
      reads this
    {
      Inflow(queue, arrived)
    }

    constructor ()
      ensures View() == NOTHING
    {
      queue, arrived := [], 0;
    }

    method Receive(ts: seq<Traffic>)
      modifies this
      ensures View() == DeliverAll(old(View()), ts)
    {
      for i := 0 to |ts|
        invariant DeliverAll(View(), ts[i..]) == DeliverAll(old(View()), ts)
      {
        assert ts[i..][1..] == ts[i + 1..];
        match ts[i]
        case Arrive =>
          queue, arrived := queue + [arrived], arrived + 1;
        case Discard =>
          queue := [];
      }
    }

    /** Take messages from the front, at most the limit. */
    method DrainQueue(limit: Option<nat>) returns (count: nat)
      modifies this
      ensures count == Taken(old(|queue|), limit) && count <= old(|queue|)
      ensures View() == Drained(old(View()), count)
    {
      count := 0;
      while queue != [] && (limit.None? || count < limit.value)
        invariant count <= old(|queue|) && (limit.Some? ==> count <= limit.value)
        invariant queue == old(queue)[count..] && arrived == old(arrived)
        decreases |queue|
      {
        queue := queue[1..];
        count := count + 1;
      }
    }

    /** One drain, with the traffic before and after it. */
    method DrainBetween(before: seq<Traffic>, limit: Option<nat>, after: seq<Traffic>) returns (count: nat)
      modifies this
      ensures var arrived := DeliverAll(old(View()), before);
        count == Taken(|arrived.queue|, limit) && View() == DeliverAll(Drained(arrived, count), after)
    {
      Receive(before);
      count := DrainQueue(limit);
      Receive(after);
    }
  }
}
