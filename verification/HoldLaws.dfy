/** When the hold is exact, when it is sure to end, and inputs at its edges. */
module HoldLaws {
  import opened Wrappers
  import opened Inflow
  import opened H = BacklogHold
  import C = Coalescing
  import E = EmitterBatching
  import W = CoalescingWindow

  /** Nothing is discarded and no apply raises. */
  ghost predicate Undisturbed(m: Move) {
    match m
    case Notice(_) => true
    case Between(t) => t == Arrive
    case Update(_, before, _, after, raised, _, _) => NoDiscard(before) && NoDiscard(after) && !raised
    case Flush(_, _) => true
  }

  ghost predicate Exact(s: State) {
    s.ahead == Ahead(s.inflow.queue, s.frozen.arrived)
  }

  lemma FrozenExact(s: State, p: W.Publisher)
    requires Safe(s) && Exact(s)
    ensures Exact(Frozen(s, p))
  {
    AheadIs(s.inflow, s.inflow.arrived);
  }

  lemma UpdateExact(seconds: real, s: State, m: Move)
    requires Safe(s) && Exact(s) && m.Update? && Undisturbed(m)
    ensures Exact(Step(seconds, s, m))
  {
    var p := W.Readied(seconds, s.client, m.now).0;
    var f := Frozen(s, p);
    var arrived := DeliverAll(f.inflow, m.before);
    FrozenSafe(s, p);
    FrozenExact(s, p);
    TrafficKeepsFifo(f.inflow, m.before);
    AheadIs(f.inflow, f.frozen.arrived);
    AheadIs(arrived, f.frozen.arrived);
    ReportCovers(f.ahead, arrived, f.frozen.arrived, DrainCount(f, m.before, m.limit), m.after);
  }

  /** Undisturbed, the counter is exactly the number of messages still ahead of the frozen batch. */
  lemma {:induction false} UndisturbedIsExact(seconds: real, moves: seq<Move>)
    requires forall m <- moves :: Undisturbed(m)
    ensures Exact(Run(seconds, moves))
  {
    if moves != [] {
      var init, m := moves[..|moves| - 1], moves[|moves| - 1];
      UndisturbedIsExact(seconds, init);
      RunIsSafe(seconds, init);
      var s := Run(seconds, init);
      assert Undisturbed(m);
      match m
      case Notice(_) =>
      case Between(t) =>
        DeliverKeepsFifo(s.inflow, t);
        AheadIs(s.inflow, s.frozen.arrived);
        AheadIs(Deliver(s.inflow, t), s.frozen.arrived);
      case Update(_, _, _, _, _, _, _) => UpdateExact(seconds, s, m);
      case Flush(_, _) =>
    }
  }

  // ---------------------------------------------------------------- when the hold ends

  /** The run ends with these counts. */
  ghost predicate Counts(seconds: real, moves: seq<Move>, depth: nat, taken: nat, lost: nat) {
    var s := Run(seconds, moves);
    s.frozen.depth == depth && s.taken == taken && s.lost == lost
  }

  function Arrivals(n: nat): (r: seq<Move>)
    ensures |r| == n
  {
    if n == 0 then [] else Arrivals(n - 1) + [Between(Arrive)]
  }

  lemma {:induction false} ArrivalsQueue(seconds: real, n: nat)
    ensures var s := Run(seconds, Arrivals(n)); |s.inflow.queue| == n && s == START.(inflow := s.inflow)
  {
    if n > 0 {
      ArrivalsQueue(seconds, n - 1);
      RunNext(seconds, Arrivals(n - 1), Between(Arrive));
    }
  }

  function Burst(n: nat): (r: seq<Traffic>)
    ensures |r| == n && forall i :: 0 <= i < n ==> r[i] == Arrive
  {
    seq(n, i => Arrive)
  }

  lemma {:induction false} BurstQueue(inflow: Inflow, ts: seq<Traffic>)
    requires forall i :: 0 <= i < |ts| ==> ts[i] == Arrive
    ensures |DeliverAll(inflow, ts).queue| == |inflow.queue| + |ts|
    decreases |ts|
  {
    if ts != [] {
      BurstQueue(Deliver(inflow, ts[0]), ts[1..]);
    }
  }

  /** An update that raises takes `lost` messages, and the next one reports the rest. */
  function LossyRun(depth: nat, taken: nat, lost: nat): seq<Move>
    requires lost <= taken
  {
    Arrivals(depth) + [Notice(C.Other(0))]
    + [Update(0.0, Burst(lost + taken), Some(lost), [], true, false, false)]
    + [Update(0.0, [], Some(taken - lost), [], false, false, false)]
  }

  lemma LosingUpdate(seconds: real, s: State, depth: nat, taken: nat, lost: nat)
    requires lost <= taken && |s.inflow.queue| == depth
    requires s.client.emitter.prepared.None? && s.client.emitter.dirty != []
    ensures var t := Step(seconds, s, Update(0.0, Burst(lost + taken), Some(lost), [], true, false, false));
      && t.frozen.depth == depth && t.taken == lost == t.lost && t.ahead == depth
      && |t.inflow.queue| == depth + taken && t.client.emitter.prepared.Some?
  {
    BurstQueue(s.inflow, Burst(lost + taken));
  }

  lemma ReportingUpdate(seconds: real, s: State, depth: nat, taken: nat, lost: nat)
    requires lost <= taken < depth + lost && |s.inflow.queue| == depth + taken && s.client.emitter.prepared.Some?
    requires s.frozen.depth == depth && s.taken == lost == s.lost && s.ahead == depth
    ensures var t := Step(seconds, s, Update(0.0, [], Some(taken - lost), [], false, false, false));
      t.frozen.depth == depth && t.taken == taken && t.lost == lost && t.ahead == depth + lost - taken
  {
  }

  lemma LosingRun(seconds: real, depth: nat, taken: nat, lost: nat, first: seq<Move>, losing: Move)
    requires lost <= taken && first == Arrivals(depth) + [Notice(C.Other(0))]
    requires losing == Update(0.0, Burst(lost + taken), Some(lost), [], true, false, false)
    ensures var t := Run(seconds, first + [losing]);
      && t.frozen.depth == depth && t.taken == lost == t.lost && t.ahead == depth
      && |t.inflow.queue| == depth + taken && t.client.emitter.prepared.Some?
  {
    ArrivalsQueue(seconds, depth);
    RunNext(seconds, Arrivals(depth), Notice(C.Other(0)));
    RunNext(seconds, first, losing);
    LosingUpdate(seconds, Run(seconds, first), depth, taken, lost);
  }

  lemma LossyRunHolds(seconds: real, depth: nat, taken: nat, lost: nat)
    requires lost <= taken < depth + lost
    ensures Counts(seconds, LossyRun(depth, taken, lost), depth, taken, lost)
    ensures Run(seconds, LossyRun(depth, taken, lost)).ahead == depth + lost - taken
  {
    var first := Arrivals(depth) + [Notice(C.Other(0))];
    var losing := Update(0.0, Burst(lost + taken), Some(lost), [], true, false, false);
    LosingRun(seconds, depth, taken, lost, first, losing);
    RunNext(seconds, first + [losing], Update(0.0, [], Some(taken - lost), [], false, false, false));
    ReportingUpdate(seconds, Run(seconds, first + [losing]), depth, taken, lost);
  }

  /**
   Among the runs with these counts the counter is sure to be zero exactly when the drains make up for the
   messages queued at the freeze and for those lost; so the depth alone suffices exactly when nothing was lost.
   */
  lemma HoldEndsIff(seconds: real, depth: nat, taken: nat, lost: nat)
    requires lost <= taken
    ensures (forall moves :: Counts(seconds, moves, depth, taken, lost) ==> Run(seconds, moves).ahead == 0)
       <==> taken >= depth + lost
  {
    if taken >= depth + lost {
      forall moves | Counts(seconds, moves, depth, taken, lost) ensures Run(seconds, moves).ahead == 0 {
        RunIsSafe(seconds, moves);
      }
    } else {
      LossyRunHolds(seconds, depth, taken, lost);
    }
  }

  /**
   However much arrives, a batch that the window hands out is released by the update whose drain makes up for the
   messages queued at the freeze and those lost since, once the client is ready and the sender accepts.
   */
  lemma DrainReleases(seconds: real, moves: seq<Move>, m: Move)
    requires var s := Run(seconds, moves);
      && m.Update? && !m.raised && m.ready && m.accepted && s.client.emitter.prepared.Some?
      && W.Readied(seconds, s.client, m.now).1
      && s.taken + DrainCount(s, m.before, m.limit) >= s.frozen.depth + s.lost
    ensures Leaves(seconds, Run(seconds, moves), m)
    ensures var t := Run(seconds, moves + [m]); Ahead(t.inflow.queue, t.frozen.arrived) == 0
  {
    var s := Run(seconds, moves);
    RunNext(seconds, moves, m);
    RunIsSafe(seconds, moves);
    RunIsSafe(seconds, moves + [m]);
    ClientCounted(seconds, moves);
    ReadiedKeeps(seconds, s.client, m.now);
  }

  /** Preparing keeps a retained batch, and sends nothing. */
  lemma ReadiedKeeps(seconds: real, s: W.Publisher, now: real)
    requires W.Counted(s) && s.emitter.prepared.Some?
    ensures var p := W.Readied(seconds, s, now).0;
      p.emitter.prepared.Some? && p.emitter.prepared.value != [] && p.emitter.sent == s.emitter.sent
  {
    W.MergeNotEmpty(s.emitter.prepared.value, s.emitter.dirty);
  }

  // ---------------------------------------------------------------- two inputs

  lemma FourthUpdate(seconds: real, s: State)
    requires s.client.emitter.prepared.Some? && s.client.emitter.dirty == []
    requires s.inflow == Inflow([2, 3], 4) && s.ahead == 2 && s.frozen == Point(2, 2) && s.taken == 2 == s.lost
    ensures var t := Step(seconds, s, Update(0.0, [], Some(1), [], false, true, true));
      t.inflow == Inflow([3], 4) && t.ahead == 1 && t.taken == 3 && t.frozen == Point(2, 2)
      && t.client.emitter == W.Readied(seconds, s.client, 0.0).0.emitter
  {
    assert [2, 3][1..] == [3];
  }

  lemma RaisingUpdate(seconds: real, s: State)
    requires s.client.emitter.prepared.None? && s.client.emitter.dirty == [C.Other(0)] && s.inflow == Inflow([0, 1], 2)
    ensures var t := Step(seconds, s, Update(0.0, [], None, [], true, true, true));
      && t.inflow == Inflow([], 2) && t.ahead == 2 && t.frozen == Point(2, 2) && t.taken == 2 == t.lost
      && t.client.emitter.prepared.Some? && t.client.emitter.dirty == []
  {
  }

  /**
   Two messages queued at the freeze, both taken by an update that raises, then one of two later ones drained:
   nothing queued before the batch is left, more was drained than was queued, and the batch is still held.
   */
  lemma RaisedDrainStillHolds(seconds: real)
    ensures var s := Run(seconds, Arrivals(2) + [Notice(C.Other(0))]
                                  + [Update(0.0, [], None, [], true, true, true)]
                                  + [Between(Arrive)] + [Between(Arrive)]
                                  + [Update(0.0, [], Some(1), [], false, true, true)]);
      s.frozen.depth == 2 && s.taken == 3 && Ahead(s.inflow.queue, s.frozen.arrived) == 0 && s.ahead == 1
      && s.client.emitter.prepared.Some?
  {
    var a := Arrivals(2) + [Notice(C.Other(0))];
    var b := a + [Update(0.0, [], None, [], true, true, true)];
    TwoArrivals(seconds);
    RunNext(seconds, Arrivals(2), Notice(C.Other(0)));
    RunNext(seconds, a, Update(0.0, [], None, [], true, true, true));
    RaisingUpdate(seconds, Run(seconds, a));
    RunNext(seconds, b, Between(Arrive));
    RunNext(seconds, b + [Between(Arrive)], Between(Arrive));
    assert [] + [2] + [3] == [2, 3];
    var c := b + [Between(Arrive)] + [Between(Arrive)];
    RunNext(seconds, c, Update(0.0, [], Some(1), [], false, true, true));
    FourthUpdate(seconds, Run(seconds, c));
  }

  lemma TwoArrivals(seconds: real)
    ensures Run(seconds, Arrivals(2)) == START.(inflow := Inflow([0, 1], 2))
  {
    RunNext(seconds, Arrivals(0), Between(Arrive));
    RunNext(seconds, Arrivals(1), Between(Arrive));
    assert Arrivals(2) == Arrivals(1) + [Between(Arrive)] && Arrivals(1) == Arrivals(0) + [Between(Arrive)];
    assert [] + [0] + [1] == [0, 1];
  }

  /** A transform held by the window and by one queued message leaves with a flush, ahead of that message. */
  lemma FlushLeavesAhead(seconds: real, x: C.Event)
    requires seconds > 0.0 && x.SetXformTrs?
    ensures var moves := Arrivals(2) + [Notice(x)] + [Update(0.0, [], Some(1), [], false, true, true)];
      var s := Run(seconds, moves);
      && s.ahead == 1 && Ahead(s.inflow.queue, s.frozen.arrived) == 1
      && Leaves(seconds, s, Flush(true, true))
      && Ahead(Run(seconds, moves + [Flush(true, true)]).inflow.queue, s.frozen.arrived) == 1
  {
    var m := Update(0.0, [], Some(1), [], false, true, true);
    var before := Arrivals(2) + [Notice(x)];
    TwoArrivals(seconds);
    RunNext(seconds, Arrivals(2), Notice(x));
    RunNext(seconds, before, m);
    RunNext(seconds, before + [m], Flush(true, true));
    assert [0, 1][1..] == [1];
    HeldTransform(seconds, Run(seconds, before), x);
  }

  lemma HeldTransform(seconds: real, s: State, x: C.Event)
    requires seconds > 0.0 && x.SetXformTrs? && s.inflow == Inflow([0, 1], 2)
    requires s.client.emitter == E.EmitterState([], None, [x]) && s.client.deadline.None?
    ensures var t := Step(seconds, s, Update(0.0, [], Some(1), [], false, true, true));
      && t.inflow == Inflow([1], 2) && t.ahead == 1 && t.frozen == Point(2, 2) && Ahead(t.inflow.queue, 2) == 1
      && Leaves(seconds, t, Flush(true, true)) && Step(seconds, t, Flush(true, true)).inflow == t.inflow
  {
    assert [0, 1][1..] == [1];
    assert W.IsTransformOnly([x]);
    assert C.MergeAll([x], []) == [x];
    assert Ahead([1], 2) == 1;
  }
}
