/**
 Holding a local batch until the messages queued before it have been drained.

 A managed client prepares its edits through the coalescing window, drains the receiver's queue, and sends what it
 prepared unless it is held. The hold is a counter; the timing window can be flushed without looking at it.
 */
module BacklogHold {
  import opened Wrappers
  import opened Inflow
  import C = Coalescing
  import E = EmitterBatching
  import W = CoalescingWindow

  /** A moment of the run: how many messages had arrived, and how many of them were queued. */
  datatype Point = Point(arrived: nat, depth: nat)

  /**
   A client between calls. `frozen` is the moment when the retained batch was frozen, `joined` the one when its
   last edit joined it. Since the freeze `taken` messages were drained, and `lost` of those by updates that raised
   and so did not report them.
   */
  datatype State = State(
    client: W.Publisher, inflow: Inflow, ahead: nat, frozen: Point, joined: Point, taken: nat, lost: nat)

  const START := State(W.START, NOTHING, 0, Point(0, 0), Point(0, 0), 0, 0)

  /**
   An edit, traffic between calls, an update or a flush. In an update `before` and `after` is the traffic around
   the drain, and `raised` says whether applying raised; `ready` says whether the client may publish, `accepted`
   whether the sender takes the batch.
   */
  datatype Move =
    | Notice(e: C.Event)
    | Between(t: Traffic)
    | Update(now: real, before: seq<Traffic>, limit: Option<nat>, after: seq<Traffic>, raised: bool, ready: bool,
             accepted: bool)
    | Flush(ready: bool, accepted: bool)

  function Here(s: State): Point {
    Point(s.inflow.arrived, |s.inflow.queue|)
  }

  /** The client after it prepared p; new edits in the retained batch join it now. */
  function Joined(s: State, p: W.Publisher): State {
    s.(client := p, joined := if p.frozen > s.client.frozen then Here(s) else s.joined)
  }

  /** A batch that was not there before is frozen now, and the counter takes the queue's depth. */
  function Frozen(s: State, p: W.Publisher): State {
    var j := Joined(s, p);
    if s.client.emitter.prepared.None? && p.emitter.prepared.Some?
    then j.(frozen := Here(s), ahead := |s.inflow.queue|, taken := 0, lost := 0)
    else j
  }

  /** The counter after a report: reduced by the drain, and never above what is queued. */
  function Reduced(ahead: nat, count: nat, queued: nat): nat {
    var left := AtLeastZero(ahead - count);
    if left <= queued then left else queued
  }

  /** The drain of an update, and the traffic around it. */
  function DrainCount(s: State, before: seq<Traffic>, limit: Option<nat>): nat {
    Taken(|DeliverAll(s.inflow, before).queue|, limit)
  }

  function AfterDrain(s: State, before: seq<Traffic>, limit: Option<nat>, after: seq<Traffic>): State {
    var arrived := DeliverAll(s.inflow, before);
    var count := Taken(|arrived.queue|, limit);
    s.(inflow := DeliverAll(Drained(arrived, count), after), taken := s.taken + count)
  }

  function Step(seconds: real, s: State, m: Move): State {
    match m
    case Notice(e) => s.(client := W.Step(seconds, s.client, W.Notice(e)))
    case Between(t) => s.(inflow := Deliver(s.inflow, t))
    case Update(now, before, limit, after, raised, ready, accepted) =>
      var (p, handed) := W.Readied(seconds, s.client, now);
      var f := Frozen(s, p);
      var count, d := DrainCount(f, before, limit), AfterDrain(f, before, limit, after);
      if raised then d.(lost := f.lost + count)
      else
        var ahead := Reduced(f.ahead, count, |d.inflow.queue|);
        d.(ahead := ahead, client := W.Offer(p, handed && ready && ahead == 0 && accepted))
    case Flush(ready, accepted) =>
      if s.client.deadline.None? || !ready then s
      else
        var p := W.Prepared(s.client, E.PrepareCoalesced);
        Joined(s, p).(client := W.Offer(p, accepted))
  }

  function Run(seconds: real, moves: seq<Move>): State {
    if moves == [] then START else Step(seconds, Run(seconds, moves[..|moves| - 1]), moves[|moves| - 1])
  }

  // ---------------------------------------------------------------- the client publishes as its window does

  /** A move as the publisher alone sees it: an update may send unless applying raised or the batch is held. */
  function PublisherMove(seconds: real, s: State, m: Move): Option<W.Move> {
    match m
    case Notice(e) => Some(W.Notice(e))
    case Between(_) => None
    case Update(now, _, _, _, raised, ready, accepted) =>
      Some(W.Update(now, ready && !raised && Step(seconds, s, m).ahead == 0, accepted))
    case Flush(ready, accepted) => Some(W.Flush(ready, accepted))
  }

  function Published(seconds: real, moves: seq<Move>): seq<W.Move> {
    if moves == [] then []
    else
      var init := moves[..|moves| - 1];
      var own := PublisherMove(seconds, Run(seconds, init), moves[|moves| - 1]);
      Published(seconds, init) + (if own == None then [] else [own.value])
  }

  lemma StepPublishes(seconds: real, s: State, m: Move)
    ensures var own := PublisherMove(seconds, s, m);
      Step(seconds, s, m).client == if own == None then s.client else W.Step(seconds, s.client, own.value)
  {
  }

  lemma RunAppend(seconds: real, moves: seq<W.Move>, own: Option<W.Move>)
    ensures var all := moves + (if own == None then [] else [own.value]);
      && W.RunMoves(seconds, all)
         == (if own == None then W.RunMoves(seconds, moves) else W.Step(seconds, W.RunMoves(seconds, moves), own.value))
      && W.Edits(all) == W.Edits(moves) + (if own.Some? && own.value.Notice? then [own.value.e] else [])
  {
    if own.Some? {
      TakeOfConcat(moves, [own.value]);
    } else {
      assert moves + [] == moves;
    }
  }

  /** The client's publishing part is a run of the window protocol, over the same edits. */
  lemma {:induction false} RunPublishes(seconds: real, moves: seq<Move>)
    ensures Run(seconds, moves).client == W.RunMoves(seconds, Published(seconds, moves))
    ensures W.Edits(Published(seconds, moves)) == Noticed(moves)
  {
    if moves != [] {
      var init, m := moves[..|moves| - 1], moves[|moves| - 1];
      RunPublishes(seconds, init);
      StepPublishes(seconds, Run(seconds, init), m);
      RunAppend(seconds, Published(seconds, init), PublisherMove(seconds, Run(seconds, init), m));
    }
  }

  function Noticed(moves: seq<Move>): seq<C.Event> {
    if moves == [] then []
    else Noticed(moves[..|moves| - 1]) + (if moves[|moves| - 1].Notice? then [moves[|moves| - 1].e] else [])
  }

  /** Whatever is held, flushed, lost or refused, what is delivered means exactly the edits in order. */
  lemma ClientConserves<R>(
    sem: (C.Op, C.State<R>) -> C.State<R>, seconds: real, moves: seq<Move>, start: C.State<R>)
    ensures C.Run(sem, E.Delivered(Run(seconds, moves).client.emitter), start) == C.Run(sem, Noticed(moves), start)
  {
    RunPublishes(seconds, moves);
    W.WindowConserves(sem, seconds, Published(seconds, moves), start);
  }

  lemma ClientCounted(seconds: real, moves: seq<Move>)
    ensures W.Counted(Run(seconds, moves).client)
  {
    RunPublishes(seconds, moves);
    W.RunCounted(seconds, Published(seconds, moves));
  }

  // ---------------------------------------------------------------- the invariant

  /** The point lies in the past of the queue. */
  ghost predicate PointFits(p: Point, inflow: Inflow) {
    p.depth <= p.arrived <= inflow.arrived && p.arrived - p.depth <= Gone(inflow)
  }

  /** The counter covers every message ahead of the batch, and every reported drain has reduced it. */
  ghost predicate Safe(s: State) {
    && Fifo(s.inflow)
    && PointFits(s.frozen, s.inflow)
    && PointFits(s.joined, s.inflow)
    && Ahead(s.inflow.queue, s.frozen.arrived) <= s.ahead <= AtLeastZero(s.frozen.depth + s.lost - s.taken)
    && s.lost <= s.taken
  }

  /**
   Reporting a drain keeps the counter at or above the first k messages still queued, whatever is delivered or
   discarded after the drain; it keeps it equal to them when nothing is discarded.
   */
  lemma ReportCovers(ahead: nat, arrived: Inflow, k: nat, count: nat, after: seq<Traffic>)
    requires Fifo(arrived) && count <= |arrived.queue| && k <= arrived.arrived
    ensures var queue := DeliverAll(Drained(arrived, count), after).queue;
      && (Ahead(arrived.queue, k) <= ahead ==> Ahead(queue, k) <= Reduced(ahead, count, |queue|))
      && (Ahead(arrived.queue, k) == ahead && NoDiscard(after) ==> Ahead(queue, k) == Reduced(ahead, count, |queue|))
  {
    DrainKeepsFifo(arrived, count);
    TrafficKeepsFifo(Drained(arrived, count), after);
    AheadIs(arrived, k);
    AheadIs(DeliverAll(Drained(arrived, count), after), k);
  }

  lemma FrozenSafe(s: State, p: W.Publisher)
    requires Safe(s)
    ensures Safe(Frozen(s, p)) && Safe(Joined(s, p))
  {
    AheadIs(s.inflow, s.inflow.arrived);
  }

  lemma DrainOrder(inflow: Inflow, before: seq<Traffic>, count: nat, after: seq<Traffic>, k: nat)
    requires Fifo(inflow) && count <= |DeliverAll(inflow, before).queue| && k <= inflow.arrived
    ensures var arrived := DeliverAll(inflow, before);
      var end := DeliverAll(Drained(arrived, count), after);
      && Fifo(arrived) && Fifo(end)
      && Gone(inflow) + count <= Gone(end) && inflow.arrived <= arrived.arrived <= end.arrived
      && Ahead(arrived.queue, k) <= Ahead(inflow.queue, k)
      && Ahead(end.queue, k) <= AtLeastZero(Ahead(inflow.queue, k) - count)
  {
    var arrived := DeliverAll(inflow, before);
    TrafficKeepsFifo(inflow, before);
    DrainKeepsFifo(arrived, count);
    TrafficKeepsFifo(Drained(arrived, count), after);
    AheadIs(inflow, k);
    AheadIs(arrived, k);
    AheadIs(DeliverAll(Drained(arrived, count), after), k);
  }

  lemma RaisedSafe(f: State, end: Inflow, count: nat)
    requires Safe(f) && Fifo(end) && Gone(f.inflow) <= Gone(end) && f.inflow.arrived <= end.arrived
    requires Ahead(end.queue, f.frozen.arrived) <= f.ahead
    ensures Safe(f.(inflow := end, taken := f.taken + count, lost := f.lost + count))
  {
  }

  lemma ReportedSafe(f: State, end: Inflow, count: nat)
    requires Safe(f) && Fifo(end) && Gone(f.inflow) <= Gone(end) && f.inflow.arrived <= end.arrived
    requires Ahead(end.queue, f.frozen.arrived) <= Reduced(f.ahead, count, |end.queue|)
    ensures Safe(f.(inflow := end, taken := f.taken + count, ahead := Reduced(f.ahead, count, |end.queue|)))
  {
  }

  lemma DrainSafe(f: State, before: seq<Traffic>, limit: Option<nat>, after: seq<Traffic>)
    requires Safe(f)
    ensures var count, d := DrainCount(f, before, limit), AfterDrain(f, before, limit, after);
      && Safe(d.(lost := f.lost + count))
      && Safe(d.(ahead := Reduced(f.ahead, count, |d.inflow.queue|)))
  {
    var arrived, count := DeliverAll(f.inflow, before), DrainCount(f, before, limit);
    var end := AfterDrain(f, before, limit, after).inflow;
    DrainOrder(f.inflow, before, count, after, f.frozen.arrived);
    ReportCovers(f.ahead, arrived, f.frozen.arrived, count, after);
    RaisedSafe(f, end, count);
    ReportedSafe(f, end, count);
  }

  lemma BetweenSafe(s: State, t: Traffic)
    requires Safe(s)
    ensures Safe(s.(inflow := Deliver(s.inflow, t)))
  {
    DeliverKeepsFifo(s.inflow, t);
    AheadIs(s.inflow, s.frozen.arrived);
    AheadIs(Deliver(s.inflow, t), s.frozen.arrived);
  }

  /** What the publisher holds does not matter to the counter. */
  lemma SafeForAnyClient(s: State, client: W.Publisher)
    requires Safe(s)
    ensures Safe(s.(client := client))
  {
  }

  lemma UpdateSafe(seconds: real, s: State, m: Move)
    requires Safe(s) && m.Update?
    ensures Safe(Step(seconds, s, m))
  {
    var p := W.Readied(seconds, s.client, m.now).0;
    var f := Frozen(s, p);
    var d := AfterDrain(f, m.before, m.limit, m.after);
    FrozenSafe(s, p);
    DrainSafe(f, m.before, m.limit, m.after);
    var reported := d.(ahead := Reduced(f.ahead, DrainCount(f, m.before, m.limit), |d.inflow.queue|));
    SafeForAnyClient(reported, Step(seconds, s, m).client);
  }

  lemma StepSafe(seconds: real, s: State, m: Move)
    requires Safe(s)
    ensures Safe(Step(seconds, s, m))
  {
    match m
    case Notice(e) => SafeForAnyClient(s, W.Step(seconds, s.client, W.Notice(e)));
    case Between(t) => BetweenSafe(s, t);
    case Update(_, _, _, _, _, _, _) => UpdateSafe(seconds, s, m);
    case Flush(_, accepted) =>
      var p := W.Prepared(s.client, E.PrepareCoalesced);
      FrozenSafe(s, p);
      SafeForAnyClient(Joined(s, p), W.Offer(p, accepted));
  }

  /**
   Whatever arrives, is drained, is discarded, is flushed or fails, the counter never falls below the number of
   messages still ahead of the frozen batch, and it is zero once the messages drained since the freeze make up for
   those queued at the freeze and those lost to updates that raised.
   */
  lemma {:induction false} RunIsSafe(seconds: real, moves: seq<Move>)
    ensures var s := Run(seconds, moves);
      && Safe(s)
      && (s.taken >= s.frozen.depth + s.lost ==> s.ahead == 0)
  {
    if moves != [] {
      RunIsSafe(seconds, moves[..|moves| - 1]);
      StepSafe(seconds, Run(seconds, moves[..|moves| - 1]), moves[|moves| - 1]);
    }
  }

  // ---------------------------------------------------------------- what a batch leaves behind

  /** The move hands the retained batch to the sender. */
  ghost predicate Leaves(seconds: real, s: State, m: Move) {
    |Step(seconds, s, m).client.emitter.sent| > |s.client.emitter.sent|
  }

  /** A batch leaves by an update that is not held, or by a flush. */
  lemma LeavesHow(seconds: real, s: State, m: Move)
    requires Leaves(seconds, s, m)
    ensures m.Update? || m.Flush?
    ensures m.Update? ==> !m.raised && Step(seconds, s, m).ahead == 0
    ensures m.Flush? ==> Step(seconds, s, m).inflow == s.inflow && Step(seconds, s, m).frozen == s.frozen
    ensures m.Flush? ==> s.client.deadline.Some?
  {
  }

  /**
   A batch leaves with nothing left of what was queued before it was frozen, exactly when it leaves by an update
   or a flush finds none of that queued; a flush does not look at the hold.
   */
  lemma LeavesBehindIff(seconds: real, moves: seq<Move>, m: Move)
    requires Leaves(seconds, Run(seconds, moves), m)
    ensures var s, t := Run(seconds, moves), Run(seconds, moves + [m]);
      Ahead(t.inflow.queue, t.frozen.arrived) == 0 <==> m.Update? || Ahead(s.inflow.queue, s.frozen.arrived) == 0
  {
    TakeOfConcat(moves, [m]);
    LeavesHow(seconds, Run(seconds, moves), m);
    RunIsSafe(seconds, moves + [m]);
  }

  /** How many messages have left the queue since the point, drained or discarded. */
  function GoneSince(s: State, p: Point): int {
    Gone(s.inflow) - (p.arrived - p.depth)
  }

  /**
   In every reachable state, nothing is left of what was queued when the last edit joined the batch, exactly when
   at least as many messages have left the queue since as were queued then.
   */
  lemma JoinedBehindIff(seconds: real, moves: seq<Move>)
    ensures var s := Run(seconds, moves);
      Ahead(s.inflow.queue, s.joined.arrived) == 0 <==> GoneSince(s, s.joined) >= s.joined.depth
  {
    RunIsSafe(seconds, moves);
    AheadIs(Run(seconds, moves).inflow, Run(seconds, moves).joined.arrived);
  }

  /** An update without a limit leaves nothing that was queued when its edits joined. */
  lemma UnlimitedUpdateWaits(seconds: real, moves: seq<Move>, m: Move)
    requires m.Update? && m.limit == None
    ensures var t := Run(seconds, moves + [m]); Ahead(t.inflow.queue, t.joined.arrived) == 0
  {
    var s := Run(seconds, moves);
    TakeOfConcat(moves, [m]);
    RunIsSafe(seconds, moves);
    var p := W.Readied(seconds, s.client, m.now).0;
    var f := Frozen(s, p);
    FrozenSafe(s, p);
    DrainOrder(f.inflow, m.before, DrainCount(f, m.before, m.limit), m.after, f.joined.arrived);
    AheadBounded(f.inflow.queue, f.joined.arrived);
    DrainsAll(f, m.before, m.after);
  }

  lemma {:induction false} AheadBounded(queue: seq<nat>, k: nat)
    ensures Ahead(queue, k) <= |queue|
  {
    if queue != [] {
      AheadBounded(queue[1..], k);
    }
  }

  lemma DrainsAll(f: State, before: seq<Traffic>, after: seq<Traffic>)
    requires Safe(f)
    ensures Ahead(AfterDrain(f, before, None, after).inflow.queue, f.joined.arrived) == 0
  {
    var arrived := DeliverAll(f.inflow, before);
    var end := DeliverAll(Drained(arrived, |arrived.queue|), after);
    TrafficKeepsFifo(f.inflow, before);
    DrainKeepsFifo(arrived, |arrived.queue|);
    TrafficKeepsFifo(Drained(arrived, |arrived.queue|), after);
    AheadIs(end, f.joined.arrived);
  }

  // ---------------------------------------------------------------- without a window

  /** Without a window no edit joins a batch after it was frozen. */
  ghost predicate Plain(s: State) {
    W.Counted(s.client) && s.client.deadline.None? && (s.client.emitter.prepared.Some? ==> s.joined == s.frozen)
  }

  lemma StepPlain(s: State, m: Move)
    requires Plain(s)
    ensures Plain(Step(0.0, s, m))
    ensures Leaves(0.0, s, m) ==> m.Update? && Step(0.0, s, m).joined == Step(0.0, s, m).frozen
  {
    StepPublishes(0.0, s, m);
    var own := PublisherMove(0.0, s, m);
    if own.Some? {
      W.StepCounted(0.0, s.client, own.value);
    }
  }

  lemma {:induction false} RunPlain(moves: seq<Move>)
    ensures Plain(Run(0.0, moves))
  {
    if moves != [] {
      RunPlain(moves[..|moves| - 1]);
      StepPlain(Run(0.0, moves[..|moves| - 1]), moves[|moves| - 1]);
    }
  }

  /** If the move sends a batch, nothing is left of what was queued when the batch's last edit joined it. */
  ghost predicate Waits(seconds: real, s: State, m: Move) {
    Leaves(seconds, s, m) ==>
      Ahead(Step(seconds, s, m).inflow.queue, Step(seconds, s, m).joined.arrived) == 0
  }

  lemma PlainWaits(moves: seq<Move>, m: Move)
    ensures Waits(0.0, Run(0.0, moves), m)
  {
    var s := Run(0.0, moves);
    RunPlain(moves);
    StepPlain(s, m);
    RunIsSafe(0.0, moves);
    StepSafe(0.0, s, m);
    if Leaves(0.0, s, m) {
      LeavesHow(0.0, s, m);
    }
  }

  lemma RunNext(seconds: real, moves: seq<Move>, m: Move)
    ensures Run(seconds, moves + [m]) == Step(seconds, Run(seconds, moves), m)
  {
    TakeOfConcat(moves, [m]);
  }

  lemma RunOne(seconds: real, m: Move)
    ensures Run(seconds, [m]) == Step(seconds, START, m)
  {
    RunNext(seconds, [], m);
    assert [] + [m] == [m];
  }

  /** An edit joins a batch that was frozen before a message came in, and leaves ahead of that message. */
  function OvertakingRun(x: C.Event): seq<Move> {
    [Notice(x)] + [Update(0.0, [], None, [], false, false, false)] + [Between(Arrive)] + [Notice(x)]
  }

  lemma FirstBatch(seconds: real, x: C.Event)
    requires seconds > 0.0 && x.Other?
    ensures var s := Run(seconds, [Notice(x)] + [Update(0.0, [], None, [], false, false, false)]);
      && s.client.emitter == E.EmitterState([], Some([x]), []) && s.client.deadline.None?
      && s.client.frozen == 1 && s.client.noticed == 1 && s.inflow == NOTHING && s.ahead == 0
  {
    var m := Update(0.0, [], None, [], false, false, false);
    RunOne(seconds, Notice(x));
    RunNext(seconds, [Notice(x)], m);
    var s := Run(seconds, [Notice(x)]);
    assert s.client.emitter == E.EmitterState([], None, [x]) && s.inflow == NOTHING;
    assert !W.IsTransformOnly([x]) by { assert [x][0].Other?; }
    assert Drained(NOTHING, 0) == NOTHING;
  }

  lemma OvertakingState(seconds: real, x: C.Event)
    requires seconds > 0.0 && x.Other?
    ensures var s := Run(seconds, OvertakingRun(x));
      && s.client.emitter == E.EmitterState([], Some([x]), [x]) && s.client.deadline.None?
      && s.client.frozen == 1 && s.client.noticed == 2
      && s.inflow == Inflow([0], 1) && s.ahead == 0
  {
    var first := [Notice(x)] + [Update(0.0, [], None, [], false, false, false)];
    FirstBatch(seconds, x);
    RunNext(seconds, first, Between(Arrive));
    RunNext(seconds, first + [Between(Arrive)], Notice(x));
    assert [] + [0] == [0];
  }

  lemma OvertakingLeaves(seconds: real, s: State, x: C.Event)
    requires seconds > 0.0 && x.Other? && s.client.emitter == E.EmitterState([], Some([x]), [x])
    requires s.client.deadline.None? && s.client.frozen == 1 && s.client.noticed == 2
    requires s.inflow == Inflow([0], 1) && s.ahead == 0
    ensures !Waits(seconds, s, Update(0.0, [], Some(0), [], false, true, true))
  {
    var m := Update(0.0, [], Some(0), [], false, true, true);
    assert C.MergeAll([x], [x]) == [x, x] by {
      assert [x][..0] == [];
      assert C.MergeOne([x], x) == [x] + [x];
    }
    assert !W.IsTransformOnly([x, x]) by { assert [x, x][0].Other?; }
    assert [0][0..] == [0];
    assert Step(seconds, s, m).inflow == s.inflow && Step(seconds, s, m).joined == Point(1, 1);
    assert Ahead([0], 1) == 1;
  }

  /**
   Whatever was queued when a batch's last edit joined it is always gone when the batch leaves, exactly when there
   is no window; the same holds of updates alone.
   */
  lemma EditsWaitIff(seconds: real)
    requires seconds >= 0.0
    ensures (forall moves, m :: Waits(seconds, Run(seconds, moves), m)) <==> seconds == 0.0
    ensures (forall moves, m: Move :: m.Update? ==> Waits(seconds, Run(seconds, moves), m)) <==> seconds == 0.0
  {
    if seconds == 0.0 {
      forall moves, m ensures Waits(seconds, Run(seconds, moves), m) {
        PlainWaits(moves, m);
      }
    } else {
      OvertakingState(seconds, C.Other(0));
      OvertakingLeaves(seconds, Run(seconds, OvertakingRun(C.Other(0))), C.Other(0));
    }
  }

  // ---------------------------------------------------------------- the counter

  class BacklogHold {
    var ahead: nat

    constructor ()
      ensures ahead == 0
    {
      ahead := 0;
    }

    predicate Holding()
      reads this
    {
      ahead > 0
    }

    method Freeze(queued: nat)
      modifies this
      ensures ahead == queued
    {
      ahead := queued;
    }

    method Drained(count: nat, queued: nat)
      modifies this
      ensures ahead == Reduced(old(ahead), count, queued)
    {
      var left := if ahead - count > 0 then ahead - count else 0;
      ahead := if left < queued then left else queued;
    }
  }
}
