/**
 Placing lifecycle events below a natively imported root after that root's last control event.

 The proofs speak of positions in the input, so that equal events stay apart.
 */
module NativeOrdering {
  import opened Wrappers
  import opened PathCover

  /** Reference, payload and variant events control a root; ensure, delete and rename are lifecycle. */
  datatype Kind = Control | Lifecycle | Other

  datatype Event = Event(kind: Kind, prim: string, fields: string)

  // ---------------------------------------------------------------- controlled roots

  /** The controlled roots in first-seen order, and the position of each one's last control event. */
  datatype Controls = Controls(order: seq<string>, last: map<string, nat>)

  predicate IsControl(roots: set<string>, e: Event) {
    e.kind.Control? && e.prim in roots
  }

  function Note(roots: set<string>, c: Controls, e: Event, index: nat): Controls {
    if !IsControl(roots, e) then c
    else Controls(if e.prim in c.last then c.order else c.order + [e.prim], c.last[e.prim := index])
  }

  function LastControls(roots: set<string>, events: seq<Event>): Controls {
    if events == [] then Controls([], map[])
    else Note(roots, LastControls(roots, events[..|events| - 1]), events[|events| - 1], |events| - 1)
  }

  /** A root is controlled iff some event controls it, and then its last such position is recorded. */
  lemma {:induction false} LastControlsMeaning(roots: set<string>, events: seq<Event>, root: string)
    ensures root in LastControls(roots, events).last
       <==> exists i :: 0 <= i < |events| && IsControl(roots, events[i]) && events[i].prim == root
    ensures root in LastControls(roots, events).order <==> root in LastControls(roots, events).last
    ensures var last := LastControls(roots, events).last;
      root in last ==>
        && last[root] < |events| && IsControl(roots, events[last[root]]) && events[last[root]].prim == root
        && forall i :: last[root] < i < |events| ==> !(IsControl(roots, events[i]) && events[i].prim == root)
  {
    if events != [] {
      var init := events[..|events| - 1];
      LastControlsMeaning(roots, init, root);
      assert forall i :: 0 <= i < |init| ==> init[i] == events[i];
    }
  }

  function InsertByLength(x: string, s: seq<string>): (r: seq<string>)
    ensures forall y :: y in r <==> y == x || y in s
    ensures (forall i, j :: 0 <= i < j < |s| ==> |s[i]| >= |s[j]|) ==>
      (forall i, j :: 0 <= i < j < |r| ==> |r[i]| >= |r[j]|)
  {
    if s == [] || |x| >= |s[0]| then [x] + s
    else
      var rest := InsertByLength(x, s[1..]);
      HeadTail(s);
      assert (forall i, j :: 0 <= i < j < |s| ==> |s[i]| >= |s[j]|) ==> forall y <- rest :: |y| <= |s[0]|;
      [s[0]] + rest
  }

  /** Longest first, ties in the order given. */
  function LongestFirst(s: seq<string>): (r: seq<string>)
    ensures forall y :: y in r <==> y in s
    ensures forall i, j :: 0 <= i < j < |r| ==> |r[i]| >= |r[j]|
  {
    if s == [] then [] else InsertByLength(s[0], LongestFirst(s[1..]))
  }

  /** The first listed root strictly above a prim. */
  function OwnerOf(ordered: seq<string>, prim: string): (r: Option<string>)
    ensures r.Some? ==> r.value in ordered && prim != r.value && AtOrBelow(prim, r.value)
    ensures r.None? ==> forall root <- ordered :: prim == root || !AtOrBelow(prim, root)
  {
    if ordered == [] then None
    else if prim != ordered[0] && AtOrBelow(prim, ordered[0]) then Some(ordered[0])
    else
      HeadTail(ordered);
      OwnerOf(ordered[1..], prim)
  }

  /** When no two roots are nested, a prim strictly below a root has that root for its owner. */
  lemma OwnerIsUnique(roots: set<string>, ordered: seq<string>, prim: string, root: string)
    requires forall r <- roots :: IsPath(r)
    requires Antichain(roots) && forall r <- ordered :: r in roots
    requires root in ordered && prim != root && AtOrBelow(prim, root)
    ensures OwnerOf(ordered, prim) == Some(root)
  {
    RootsAreNested(prim, root, OwnerOf(ordered, prim).value);
  }

  // ---------------------------------------------------------------- the new order, as positions

  datatype Plan = Plan(ordered: seq<string>, last: map<string, nat>)

  function PlanFor(roots: set<string>, events: seq<Event>): Plan {
    var c := LastControls(roots, events);
    Plan(LongestFirst(c.order), c.last)
  }

  predicate IsDeferred(plan: Plan, e: Event) {
    e.kind.Lifecycle? && OwnerOf(plan.ordered, e.prim).Some?
  }

  predicate IsDeferredTo(plan: Plan, e: Event, root: string) {
    e.kind.Lifecycle? && OwnerOf(plan.ordered, e.prim) == Some(root)
  }

  ghost predicate Positions(events: seq<Event>, order: seq<nat>) {
    forall k :: 0 <= k < |order| ==> order[k] < |events|
  }

  /** Positions below n whose event is deferred to a root, ascending. */
  function DeferredTo(plan: Plan, events: seq<Event>, root: string, n: nat): (r: seq<nat>)
    requires n <= |events|
    ensures forall i :: i in r <==> 0 <= i < n && IsDeferredTo(plan, events[i], root)
    ensures Positions(events, r)
    ensures forall p, q :: 0 <= p < q < |r| ==> r[p] < r[q]
  {
    if n == 0 then []
    else
      var before := DeferredTo(plan, events, root, n - 1);
      assert forall p :: 0 <= p < |before| ==> before[p] in before;
      if IsDeferredTo(plan, events[n - 1], root) then before + [n - 1] else before
  }

  /** What follows a retained position: the events deferred to the root it controls last. */
  function Followers(plan: Plan, events: seq<Event>, i: nat): seq<nat>
    requires i < |events|
  {
    if events[i].prim in plan.last && plan.last[events[i].prim] == i
    then DeferredTo(plan, events, events[i].prim, |events|) else []
  }

  /** A retained position with its followers. */
  function Block(plan: Plan, events: seq<Event>, i: nat): seq<nat>
    requires i < |events|
  {
    [i] + Followers(plan, events, i)
  }

  /** The new order of the positions below n and of what was deferred to them. */
  function Placed(plan: Plan, events: seq<Event>, n: nat): seq<nat>
    requires n <= |events|
  {
    if n == 0 then []
    else if IsDeferred(plan, events[n - 1]) then Placed(plan, events, n - 1)
    else Placed(plan, events, n - 1) + Block(plan, events, n - 1)
  }

  function Order(roots: set<string>, events: seq<Event>): seq<nat> {
    Placed(PlanFor(roots, events), events, |events|)
  }

  // ---------------------------------------------------------------- what the order promises

  /** Each owner's last control is a retained position that controls it. */
  ghost predicate Sound(plan: Plan, events: seq<Event>) {
    forall root <- plan.ordered ::
      root in plan.last && plan.last[root] < |events| && events[plan.last[root]].kind.Control?
      && events[plan.last[root]].prim == root
  }

  lemma PlanIsSound(roots: set<string>, events: seq<Event>)
    ensures Sound(PlanFor(roots, events), events)
  {
    forall root | root in PlanFor(roots, events).ordered
      ensures root in PlanFor(roots, events).last && PlanFor(roots, events).last[root] < |events|
      ensures events[PlanFor(roots, events).last[root]].kind.Control?
      ensures events[PlanFor(roots, events).last[root]].prim == root
    {
      LastControlsMeaning(roots, events, root);
    }
  }

  /** The owner a position is deferred to, if it is deferred. */
  ghost function OwnerAt(plan: Plan, events: seq<Event>, i: nat): Option<string> {
    if i < |events| && IsDeferred(plan, events[i]) then OwnerOf(plan.ordered, events[i].prim) else None
  }

  /** A position is placed once the pass reaches it, or reaches the last control of its owner. */
  ghost predicate Reached(plan: Plan, events: seq<Event>, n: nat, i: nat) {
    && i < |events|
    && match OwnerAt(plan, events, i)
       case None => i < n
       case Some(root) => root in plan.last && plan.last[root] < n
  }

  lemma BlockHolds(plan: Plan, events: seq<Event>, k: nat, i: nat)
    requires Sound(plan, events) && k < |events|
    ensures i in Block(plan, events, k)
       <==> i == k || (OwnerAt(plan, events, i).Some? && plan.last[OwnerAt(plan, events, i).value] == k)
  {
  }

  lemma {:induction false} PlacedHolds(plan: Plan, events: seq<Event>, n: nat, i: nat)
    requires Sound(plan, events) && n <= |events|
    ensures i in Placed(plan, events, n) <==> Reached(plan, events, n, i)
  {
    if n > 0 {
      PlacedHolds(plan, events, n - 1, i);
      BlockHolds(plan, events, n - 1, i);
      if !IsDeferred(plan, events[n - 1]) {
        InConcat(Placed(plan, events, n - 1), Block(plan, events, n - 1), i);
      }
    }
  }

  lemma {:induction false} PlacedIsDistinct(plan: Plan, events: seq<Event>, n: nat)
    requires Sound(plan, events) && n <= |events|
    ensures Distinct(Placed(plan, events, n))
  {
    if n > 0 {
      PlacedIsDistinct(plan, events, n - 1);
      if !IsDeferred(plan, events[n - 1]) {
        var before, block := Placed(plan, events, n - 1), Block(plan, events, n - 1);
        forall i | i in block ensures i !in before {
          PlacedHolds(plan, events, n - 1, i);
        }
        DistinctConcat([n - 1], Followers(plan, events, n - 1));
        DistinctConcat(before, block);
      }
    }
  }

  /** Positions that must not swap are both retained, or both deferred to one root. */
  ghost predicate StreamsKept(plan: Plan, events: seq<Event>, order: seq<nat>) {
    forall p, q | 0 <= p < q < |order| && OwnerAt(plan, events, order[p]) == OwnerAt(plan, events, order[q]) ::
      order[p] < order[q]
  }

  lemma BlockKeepsStreams(plan: Plan, events: seq<Event>, n: nat)
    requires n < |events| && !IsDeferred(plan, events[n])
    ensures StreamsKept(plan, events, Block(plan, events, n))
  {
    var followers := Followers(plan, events, n);
    forall q | 0 <= q < |followers| ensures OwnerAt(plan, events, followers[q]).Some? {
      assert followers[q] in followers;
    }
  }

  /** A position placed earlier is below every position of the block that is in its stream. */
  lemma EarlierIsBelow(plan: Plan, events: seq<Event>, n: nat, i: nat, j: nat)
    requires Sound(plan, events) && n < |events| && !IsDeferred(plan, events[n])
    requires i in Placed(plan, events, n) && j in Block(plan, events, n)
    requires OwnerAt(plan, events, i) == OwnerAt(plan, events, j)
    ensures i < j
  {
    PlacedHolds(plan, events, n, i);
    BlockHolds(plan, events, n, j);
  }

  lemma StreamsConcat(plan: Plan, events: seq<Event>, a: seq<nat>, b: seq<nat>)
    requires StreamsKept(plan, events, a) && StreamsKept(plan, events, b)
    requires forall i, j | i in a && j in b && OwnerAt(plan, events, i) == OwnerAt(plan, events, j) :: i < j
    ensures StreamsKept(plan, events, a + b)
  {
  }

  lemma BlockJoinsStreams(plan: Plan, events: seq<Event>, n: nat)
    requires Sound(plan, events) && n < |events| && !IsDeferred(plan, events[n])
    requires StreamsKept(plan, events, Placed(plan, events, n))
    ensures StreamsKept(plan, events, Placed(plan, events, n) + Block(plan, events, n))
  {
    var before, block := Placed(plan, events, n), Block(plan, events, n);
    forall i, j | i in before && j in block && OwnerAt(plan, events, i) == OwnerAt(plan, events, j)
      ensures i < j
    {
      EarlierIsBelow(plan, events, n, i, j);
    }
    BlockKeepsStreams(plan, events, n);
    StreamsConcat(plan, events, before, block);
  }

  lemma {:induction false} PlacedKeepsStreams(plan: Plan, events: seq<Event>, n: nat)
    requires Sound(plan, events) && n <= |events|
    ensures StreamsKept(plan, events, Placed(plan, events, n))
  {
    if n > 0 {
      PlacedKeepsStreams(plan, events, n - 1);
      if !IsDeferred(plan, events[n - 1]) {
        BlockJoinsStreams(plan, events, n - 1);
      }
    }
  }

  /** A deferred position comes after the last control of its owner. */
  ghost predicate OwnerBefore(plan: Plan, events: seq<Event>, order: seq<nat>, q: nat)
    requires q < |order|
  {
    match OwnerAt(plan, events, order[q])
    case None => true
    case Some(root) => root in plan.last && plan.last[root] in order[..q]
  }

  lemma {:induction false} PlacedPutsOwnersFirst(plan: Plan, events: seq<Event>, n: nat, q: nat)
    requires Sound(plan, events) && n <= |events| && q < |Placed(plan, events, n)|
    ensures OwnerBefore(plan, events, Placed(plan, events, n), q)
  {
    var order, before := Placed(plan, events, n), Placed(plan, events, n - 1);
    if q < |before| {
      PlacedPutsOwnersFirst(plan, events, n - 1, q);
      assert order[..q] == before[..q];
    } else if q > |before| {
      assert order[q] in Followers(plan, events, n - 1);
      assert order[..q][|before|] == n - 1;
    }
  }

  /** The order is a permutation of the positions that keeps every stream in order. */
  lemma OrderIsPermutation(roots: set<string>, events: seq<Event>)
    ensures Distinct(Order(roots, events))
    ensures forall i :: i in Order(roots, events) <==> 0 <= i < |events|
    ensures StreamsKept(PlanFor(roots, events), events, Order(roots, events))
  {
    var plan := PlanFor(roots, events);
    PlanIsSound(roots, events);
    PlacedIsDistinct(plan, events, |events|);
    PlacedKeepsStreams(plan, events, |events|);
    forall i: nat ensures i in Order(roots, events) <==> 0 <= i < |events| {
      PlacedHolds(plan, events, |events|, i);
    }
  }

  /** Position i is a lifecycle event strictly below a root that position c controls. */
  ghost predicate MustFollow(roots: set<string>, events: seq<Event>, i: nat, c: nat) {
    && i < |events| && c < |events|
    && events[i].kind.Lifecycle? && IsControl(roots, events[c])
    && events[i].prim != events[c].prim && AtOrBelow(events[i].prim, events[c].prim)
  }

  ghost predicate LifecycleFollows(roots: set<string>, events: seq<Event>, order: seq<nat>) {
    forall q, c: nat | 0 <= q < |order| && MustFollow(roots, events, order[q], c) :: c in order[..q]
  }

  lemma {:induction false} AntichainFollows(roots: set<string>, events: seq<Event>)
    requires Antichain(roots) && forall r <- roots :: IsPath(r)
    ensures LifecycleFollows(roots, events, Order(roots, events))
  {
    var plan, order := PlanFor(roots, events), Order(roots, events);
    PlanIsSound(roots, events);
    OrderIsPermutation(roots, events);
    forall q, c: nat | 0 <= q < |order| && MustFollow(roots, events, order[q], c) ensures c in order[..q]
    {
      var root := events[c].prim;
      forall r | r in plan.ordered ensures r in roots { LastControlsMeaning(roots, events, r); }
      LastControlsMeaning(roots, events, root);
      OwnerIsUnique(roots, plan.ordered, events[order[q]].prim, root);
      PlacedPutsOwnersFirst(plan, events, |events|, q);
      ControlsStayBefore(roots, events, c, plan.last[root], q);
    }
  }

  /** A control event no later than another one of its root stays no later. */
  lemma ControlsStayBefore(roots: set<string>, events: seq<Event>, c: nat, last: nat, q: nat)
    requires c <= last < |events| && events[c].kind.Control? && events[last].kind.Control?
    requires q <= |Order(roots, events)| && last in Order(roots, events)[..q]
    ensures c in Order(roots, events)[..q]
  {
    var plan, order := PlanFor(roots, events), Order(roots, events);
    OrderIsPermutation(roots, events);
    var p :| 0 <= p < q && order[p] == last;
    assert c in order;
    var b :| 0 <= b < |order| && order[b] == c;
    assert OwnerAt(plan, events, c) == OwnerAt(plan, events, last);
    assert b <= p;
    assert order[..q][b] == c;
  }

  /** Two nested roots, controlled inner first: the lifecycle event goes right after the inner control. */
  function NestedBatch(outer: string, inner: string): seq<Event> {
    [Event(Control, inner, ""), Event(Lifecycle, inner + "/x", ""), Event(Control, outer, "")]
  }

  lemma NestedPlan(roots: set<string>, outer: string, inner: string)
    requires outer in roots && inner in roots && IsPath(outer) && IsPath(inner)
    requires outer != inner && AtOrBelow(inner, outer)
    ensures PlanFor(roots, NestedBatch(outer, inner)) == Plan([inner, outer], map[inner := 0, outer := 2])
  {
    var events := NestedBatch(outer, inner);
    assert events[..2] == [events[0], events[1]] && events[..2][..1] == [events[0]];
    assert LastControls(roots, [events[0]]) == Controls([inner], map[inner := 0]);
    assert LastControls(roots, events[..2]) == Controls([inner], map[inner := 0]);
    assert LastControls(roots, events) == Controls([inner, outer], map[inner := 0, outer := 2]);
    RootComesFirst(inner, outer);
    assert [inner, outer][1..] == [outer] && [outer][1..] == [];
    assert LongestFirst([outer]) == [outer];
    assert LongestFirst([inner, outer]) == [inner, outer];
  }

  /** The child below the inner root is strictly below both roots. */
  lemma ChildIsBelow(outer: string, inner: string)
    requires IsPath(outer) && IsPath(inner) && outer != inner && AtOrBelow(inner, outer)
    ensures AtOrBelow(inner + "/x", inner) && AtOrBelow(inner + "/x", outer)
    ensures |outer| < |inner| < |inner + "/x"|
  {
    var life := inner + "/x";
    RootComesFirst(inner, outer);
    assert RStrip(inner) == inner;
    assert life[..|inner| + 1] == inner + "/";
    BelowTransitive(life, inner, outer);
  }

  lemma NestedBatchFails(roots: set<string>, outer: string, inner: string)
    requires outer in roots && inner in roots && IsPath(outer) && IsPath(inner)
    requires outer != inner && AtOrBelow(inner, outer)
    ensures !LifecycleFollows(roots, NestedBatch(outer, inner), Order(roots, NestedBatch(outer, inner)))
  {
    var events := NestedBatch(outer, inner);
    var plan, order := PlanFor(roots, events), Order(roots, events);
    NestedPlan(roots, outer, inner);
    PlanIsSound(roots, events);
    ChildIsBelow(outer, inner);
    assert OwnerAt(plan, events, 1) == Some(inner);
    PlacedHolds(plan, events, 2, 1);
    PlacedHolds(plan, events, 2, 2);
    var early := Placed(plan, events, 2);
    var q :| 0 <= q < |early| && early[q] == 1;
    assert order == early + Block(plan, events, 2);
    assert order[q] == 1 && order[..q] == early[..q];
    assert MustFollow(roots, events, order[q], 2);
  }

  /** Lifecycle events follow their roots' controls in every batch exactly when no two roots are nested. */
  lemma LifecycleFollowsIff(roots: set<string>)
    requires forall r <- roots :: IsPath(r)
    ensures (forall events :: LifecycleFollows(roots, events, Order(roots, events))) <==> Antichain(roots)
  {
    if Antichain(roots) {
      forall events ensures LifecycleFollows(roots, events, Order(roots, events)) {
        AntichainFollows(roots, events);
      }
    } else {
      var inner, outer :| inner in roots && outer in roots && AtOrBelow(inner, outer) && inner != outer;
      NestedBatchFails(roots, outer, inner);
    }
  }

  // ---------------------------------------------------------------- the passes

  ghost function Gather(events: seq<Event>, order: seq<nat>): (r: seq<Event>)
    requires Positions(events, order)
    ensures |r| == |order|
    ensures forall k :: 0 <= k < |r| ==> r[k] == events[order[k]]
  {
    seq(|order|, k requires 0 <= k < |order| && Positions(events, order) => events[order[k]])
  }

  function ListFor(deferred: map<string, seq<Event>>, root: string): seq<Event> {
    if root in deferred then deferred[root] else []
  }

  method CollectControls(roots: set<string>, events: seq<Event>) returns (plan: Plan)
    ensures plan == PlanFor(roots, events)
  {
    var order: seq<string>, last: map<string, nat> := [], map[];
    for index := 0 to |events|
      invariant Controls(order, last) == LastControls(roots, events[..index])
    {
      TakeNext(events, index);
      var e := events[index];
      if e.kind.Control? {
        if e.prim in roots {
          order := if e.prim in last then order else order + [e.prim];
          last := last[e.prim := index];
        }
      }
    }
    TakeAll(events);
    plan := Plan(LongestFirst(order), last);
  }

  /** A retained position with its event. */
  datatype Retained = Retained(index: nat, event: Event)

  /** The position after the k-th retained one's predecessor, where the k-th gap starts. */
  function GapStart(retained: seq<Retained>, k: nat): nat
    requires k <= |retained|
  {
    if k == 0 then 0 else retained[k - 1].index + 1
  }

  function GapEnd(retained: seq<Retained>, k: nat, n: nat): nat
    requires k <= |retained|
  {
    if k < |retained| then retained[k].index else n
  }

  /** The retained positions below n are listed in order, and the gaps hold only deferred ones. */
  ghost predicate Lists(retained: seq<Retained>, plan: Plan, events: seq<Event>, n: nat)
    requires n <= |events|
  {
    && (forall k :: 0 <= k < |retained| ==>
          retained[k].index < n && retained[k].event == events[retained[k].index]
          && !IsDeferred(plan, retained[k].event))
    && (forall k :: 0 <= k <= |retained| ==> GapStart(retained, k) <= GapEnd(retained, k, n))
    && (forall k, i :: 0 <= k <= |retained| && GapStart(retained, k) <= i < GapEnd(retained, k, n) ==>
          IsDeferred(plan, events[i]))
  }

  lemma ListsNext(retained: seq<Retained>, plan: Plan, events: seq<Event>, n: nat)
    requires n < |events| && Lists(retained, plan, events, n)
    ensures IsDeferred(plan, events[n]) ==> Lists(retained, plan, events, n + 1)
    ensures !IsDeferred(plan, events[n]) ==> Lists(retained + [Retained(n, events[n])], plan, events, n + 1)
  {
    if !IsDeferred(plan, events[n]) {
      var next := retained + [Retained(n, events[n])];
      forall k | 0 <= k <= |retained|
        ensures GapStart(next, k) == GapStart(retained, k) && GapEnd(next, k, n + 1) == GapEnd(retained, k, n)
      {
      }
    }
  }

  /** Each root's queue holds what is deferred to it among the positions below n. */
  ghost predicate Queues(deferred: map<string, seq<Event>>, plan: Plan, events: seq<Event>, n: nat)
    requires n <= |events|
  {
    forall root :: ListFor(deferred, root) == Gather(events, DeferredTo(plan, events, root, n))
  }

  lemma QueuesNext(deferred: map<string, seq<Event>>, plan: Plan, events: seq<Event>, n: nat)
    requires n < |events| && Queues(deferred, plan, events, n)
    ensures !IsDeferred(plan, events[n]) ==> Queues(deferred, plan, events, n + 1)
    ensures IsDeferred(plan, events[n]) ==>
      var root := OwnerOf(plan.ordered, events[n].prim).value;
      Queues(deferred[root := ListFor(deferred, root) + [events[n]]], plan, events, n + 1)
  {
    if IsDeferred(plan, events[n]) {
      var owner := OwnerOf(plan.ordered, events[n].prim).value;
      var next := deferred[owner := ListFor(deferred, owner) + [events[n]]];
      forall root ensures ListFor(next, root) == Gather(events, DeferredTo(plan, events, root, n + 1)) {
        assert ListFor(deferred, root) == Gather(events, DeferredTo(plan, events, root, n));
      }
    } else {
      forall root ensures ListFor(deferred, root) == Gather(events, DeferredTo(plan, events, root, n + 1)) {
        assert ListFor(deferred, root) == Gather(events, DeferredTo(plan, events, root, n));
      }
    }
  }

  method SplitDeferred(plan: Plan, events: seq<Event>)
    returns (deferred: map<string, seq<Event>>, retained: seq<Retained>)
    ensures Queues(deferred, plan, events, |events|)
    ensures Lists(retained, plan, events, |events|)
  {
    deferred, retained := map[], [];
    for index := 0 to |events|
      invariant Queues(deferred, plan, events, index)
      invariant Lists(retained, plan, events, index)
    {
      ListsNext(retained, plan, events, index);
      QueuesNext(deferred, plan, events, index);
      var owner := OwnerOf(plan.ordered, events[index].prim);
      if owner.Some? && events[index].kind.Lifecycle? {
        deferred := deferred[owner.value := ListFor(deferred, owner.value) + [events[index]]];
      } else {
        retained := retained + [Retained(index, events[index])];
      }
    }
  }

  lemma PlacedInRange(plan: Plan, events: seq<Event>, n: nat)
    requires Sound(plan, events) && n <= |events|
    ensures Positions(events, Placed(plan, events, n))
  {
    var order := Placed(plan, events, n);
    forall k | 0 <= k < |order| ensures order[k] < |events| {
      PlacedHolds(plan, events, n, order[k]);
    }
  }

  lemma GatherConcat(events: seq<Event>, a: seq<nat>, b: seq<nat>)
    requires Positions(events, a) && Positions(events, b)
    ensures Positions(events, a + b)
    ensures Gather(events, a + b) == Gather(events, a) + Gather(events, b)
  {
  }

  /** The output once the pass has reached position n. */
  ghost function Output(plan: Plan, events: seq<Event>, n: nat): seq<Event>
    requires Sound(plan, events) && n <= |events|
  {
    PlacedInRange(plan, events, n);
    Gather(events, Placed(plan, events, n))
  }

  /** The queue that a retained position lets out. */
  function Released(plan: Plan, events: seq<Event>, deferred: map<string, seq<Event>>, n: nat): seq<Event>
    requires n < |events|
  {
    if events[n].prim in plan.last && plan.last[events[n].prim] == n then ListFor(deferred, events[n].prim) else []
  }

  /** Placing one retained event appends it and the queue it lets out. */
  lemma OutputNext(plan: Plan, events: seq<Event>, deferred: map<string, seq<Event>>, n: nat)
    requires Sound(plan, events) && Queues(deferred, plan, events, |events|)
    requires n < |events| && !IsDeferred(plan, events[n])
    ensures Output(plan, events, n + 1)
         == Output(plan, events, n) + ([events[n]] + Released(plan, events, deferred, n))
  {
    PlacedInRange(plan, events, n);
    GatherConcat(events, [n], Followers(plan, events, n));
    GatherConcat(events, Placed(plan, events, n), Block(plan, events, n));
    assert Gather(events, [n]) == [events[n]];
    assert Gather(events, Followers(plan, events, n)) == Released(plan, events, deferred, n);
  }

  lemma {:induction false} PlacedSkips(plan: Plan, events: seq<Event>, m: nat, n: nat)
    requires m <= n <= |events| && forall i :: m <= i < n ==> IsDeferred(plan, events[i])
    ensures Placed(plan, events, n) == Placed(plan, events, m)
  {
    if m < n {
      PlacedSkips(plan, events, m, n - 1);
    }
  }

  lemma {:induction false} NoRootsNoChange(events: seq<Event>, n: nat)
    requires n <= |events|
    ensures |Placed(PlanFor({}, events), events, n)| == n
    ensures forall k :: 0 <= k < n ==> Placed(PlanFor({}, events), events, n)[k] == k
  {
    var plan := PlanFor({}, events);
    if n > 0 {
      NoRootsNoChange(events, n - 1);
      PlanIsSound({}, events);
      forall root ensures root !in plan.last && root !in plan.ordered { LastControlsMeaning({}, events, root); }
    }
  }

  lemma GapSkipped(retained: seq<Retained>, plan: Plan, events: seq<Event>, k: nat)
    requires Lists(retained, plan, events, |events|) && k <= |retained|
    ensures GapStart(retained, k) <= GapEnd(retained, k, |events|) <= |events|
    ensures Placed(plan, events, GapEnd(retained, k, |events|)) == Placed(plan, events, GapStart(retained, k))
    ensures k < |retained| ==>
      retained[k].event == events[retained[k].index] && !IsDeferred(plan, retained[k].event)
  {
    PlacedSkips(plan, events, GapStart(retained, k), GapEnd(retained, k, |events|));
  }

  /** The last pass: each retained event, then the queue of the root it controls last. */
  method Assemble(plan: Plan, events: seq<Event>, deferred: map<string, seq<Event>>, retained: seq<Retained>)
    returns (result: seq<Event>)
    requires Sound(plan, events)
    requires Queues(deferred, plan, events, |events|) && Lists(retained, plan, events, |events|)
    ensures result == Output(plan, events, |events|)
  {
    result := [];
    GapSkipped(retained, plan, events, 0);
    for k := 0 to |retained|
      invariant GapStart(retained, k) <= |events| && result == Output(plan, events, GapStart(retained, k))
    {
      var index, event := retained[k].index, retained[k].event;
      GapSkipped(retained, plan, events, k);
      OutputNext(plan, events, deferred, index);
      result := result + ([event] + Released(plan, events, deferred, index));
    }
    GapSkipped(retained, plan, events, |retained|);
  }

  method OrderNativeCompositionEvents(roots: set<string>, events: seq<Event>) returns (result: seq<Event>)
    ensures Positions(events, Order(roots, events))
    ensures result == Gather(events, Order(roots, events))
  {
    PlanIsSound(roots, events);
    PlacedInRange(PlanFor(roots, events), events, |events|);
    if roots == {} {
      NoRootsNoChange(events, |events|);
      return events;
    }
    var plan := CollectControls(roots, events);
    var deferred, retained := SplitDeferred(plan, events);
    result := Assemble(plan, events, deferred, retained);
  }
}
