/**
 Applying routed records: consecutive records with one target are handed over as one run.

 What a run does is the caller's: a function from the content of all layers, a target and the run's events to
 the new content, which may also raise part of the way. Authoring needs an unmuted target.
 */
module RoutedRecords {
  import opened Wrappers
  import L = LogicalLayerRouter
  import opened ProtocolEvents
  import A = ApplyOrder
  import P = ApplyPositions

  /** Records of a non-collaboration kind go to the session layer whatever their key says. */
  datatype Record<E> = Record(nonCollaboration: bool, layerKey: string, event: E)

  datatype Target = Session | Layer(identifier: string)

  datatype Routed<E> = Routed(target: Target, event: E)

  datatype Run<E> = Run(target: Target, events: seq<E>)

  /** Content after some work, and whether that work raised. */
  datatype Progress<S> = Progress(content: S, raised: bool)

  type ApplyRun<!S, !E> = (S, Target, seq<E>) -> Progress<S>

  // ---------------------------------------------------------------- routes

  /** Where a record goes, if it can be routed at all. */
  ghost function RouteOf<E>(router: L.LogicalLayerRouter, record: Record<E>): (r: Option<Target>)
    requires router.KeysKnown()
    reads router
  {
    if record.nonCollaboration then Some(Session)
    else if record.layerKey == "" || !router.ready || record.layerKey !in router.layerKeys then None
    else Some(Layer(router.layers[record.layerKey]))
  }

  ghost predicate Routable<E>(router: L.LogicalLayerRouter, records: seq<Record<E>>)
    requires router.KeysKnown()
    reads router
  {
    forall i :: 0 <= i < |records| ==> RouteOf(router, records[i]).Some?
  }

  ghost function Routes<E>(router: L.LogicalLayerRouter, records: seq<Record<E>>): (r: seq<Routed<E>>)
    requires router.KeysKnown() && Routable(router, records)
    reads router
    ensures |r| == |records|
  {
    seq(|records|, i requires 0 <= i < |records| && router.KeysKnown() && Routable(router, records) reads router =>
      Routed(RouteOf(router, records[i]).value, records[i].event))
  }

  method ResolveRoutes<E>(router: L.LogicalLayerRouter, records: seq<Record<E>>)
    returns (ok: bool, routed: seq<Routed<E>>)
    requires router.KeysKnown()
    ensures ok <==> Routable(router, records)
    ensures ok ==> routed == Routes(router, records)
  {
    routed := [];
    for i := 0 to |records|
      invariant |routed| == i
      invariant forall j :: 0 <= j < i ==>
        RouteOf(router, records[j]).Some? && routed[j] == Routed(RouteOf(router, records[j]).value, records[j].event)
    {
      var target := Session;
      if !records[i].nonCollaboration {
        if records[i].layerKey == "" {
          return false, routed;
        }
        var layer := router.LayerFor(records[i].layerKey);
        if layer.None? {
          return false, routed;
        }
        target := Layer(layer.value);
      }
      routed := routed + [Routed(target, records[i].event)];
    }
    ok := true;
  }

  // ---------------------------------------------------------------- runs

  function Tagged<E>(target: Target, events: seq<E>): (r: seq<Routed<E>>)
    ensures |r| == |events| && forall i :: 0 <= i < |r| ==> r[i] == Routed(target, events[i])
  {
    seq(|events|, i requires 0 <= i < |events| => Routed(target, events[i]))
  }

  function Flatten<E>(runs: seq<Run<E>>): seq<Routed<E>> {
    if runs == [] then [] else Tagged(runs[0].target, runs[0].events) + Flatten(runs[1..])
  }

  /** The runs read off in order are the records, none is empty, and neighbours differ in target. */
  ghost predicate IsGrouping<E>(runs: seq<Run<E>>, routed: seq<Routed<E>>) {
    && Flatten(runs) == routed
    && (forall i :: 0 <= i < |runs| ==> runs[i].events != [])
    && (forall i :: 0 < i < |runs| ==> runs[i - 1].target != runs[i].target)
  }

  /** Put one record in front of grouped records. */
  function Prepend<E>(r: Routed<E>, runs: seq<Run<E>>): seq<Run<E>> {
    if runs != [] && runs[0].target == r.target
    then [Run(r.target, [r.event] + runs[0].events)] + runs[1..]
    else [Run(r.target, [r.event])] + runs
  }

  function Runs<E>(routed: seq<Routed<E>>): seq<Run<E>> {
    if routed == [] then [] else Prepend(routed[0], Runs(routed[1..]))
  }

  lemma TaggedHead<E>(r: Routed<E>, events: seq<E>)
    ensures Tagged(r.target, [r.event] + events) == [r] + Tagged(r.target, events)
  {
  }

  lemma PrependGroups<E>(r: Routed<E>, runs: seq<Run<E>>, routed: seq<Routed<E>>)
    requires IsGrouping(runs, routed)
    ensures IsGrouping(Prepend(r, runs), [r] + routed)
  {
    var longer := Prepend(r, runs);
    if runs != [] && runs[0].target == r.target {
      TaggedHead(r, runs[0].events);
      assert longer[1..] == runs[1..];
      ConcatAssociates([r], Tagged(r.target, runs[0].events), Flatten(runs[1..]));
    } else {
      assert longer[1..] == runs;
      assert Tagged(r.target, [r.event]) == [r];
    }
  }

  lemma {:induction false} RunsAreGrouping<E>(routed: seq<Routed<E>>)
    ensures IsGrouping(Runs(routed), routed)
  {
    if routed != [] {
      RunsAreGrouping(routed[1..]);
      PrependGroups(routed[0], Runs(routed[1..]), routed[1..]);
      HeadTail(routed);
    }
  }

  /** The first run of a grouping takes every leading record with its target. */
  lemma FirstRunIsMaximal<E>(runs: seq<Run<E>>, routed: seq<Routed<E>>)
    requires IsGrouping(runs, routed) && runs != []
    ensures 0 < |runs[0].events| <= |routed|
    ensures routed[..|runs[0].events|] == Tagged(runs[0].target, runs[0].events)
    ensures routed[|runs[0].events|..] == Flatten(runs[1..])
    ensures |runs[0].events| < |routed| ==> routed[|runs[0].events|].target != runs[0].target
  {
    var rest := runs[1..];
    if rest != [] {
      assert rest[0] == runs[1] && runs[0].target != runs[1].target;
      assert Flatten(rest)[0] == Routed(rest[0].target, rest[0].events[0]);
    }
  }

  /** A shorter first run stops before a record of its own target. */
  lemma StopsShort<E>(routed: seq<Routed<E>>, a: Run<E>, b: Run<E>)
    requires a.target == b.target && |b.events| <= |routed|
    requires routed[..|b.events|] == Tagged(b.target, b.events)
    ensures |a.events| < |b.events| ==> routed[|a.events|].target == a.target
  {
    assert |a.events| < |b.events| ==> routed[..|b.events|][|a.events|] == routed[|a.events|];
  }

  /** There is only one way to group records. */
  lemma {:induction false} GroupingIsUnique<E>(a: seq<Run<E>>, b: seq<Run<E>>, routed: seq<Routed<E>>)
    requires IsGrouping(a, routed) && IsGrouping(b, routed)
    ensures a == b
  {
    if a == [] || b == [] {
      if a != [] { FirstRunIsMaximal(a, routed); }
      if b != [] { FirstRunIsMaximal(b, routed); }
    } else {
      FirstRunIsMaximal(a, routed);
      FirstRunIsMaximal(b, routed);
      var m, n := |a[0].events|, |b[0].events|;
      assert a[0].target == routed[0].target == b[0].target by {
        assert routed[0] == routed[..m][0] == routed[..n][0];
      }
      StopsShort(routed, a[0], b[0]);
      StopsShort(routed, b[0], a[0]);
      forall i | 0 <= i < m ensures a[0].events[i] == b[0].events[i] {
        assert routed[..m][i] == Routed(a[0].target, a[0].events[i]);
      }
      assert a[0] == b[0];
      GroupingIsUnique(a[1..], b[1..], routed[m..]);
      assert a == [a[0]] + a[1..] && b == [b[0]] + b[1..];
    }
  }

  /** A run before records of another target. */
  lemma RunInFront<E>(run: Run<E>, runs: seq<Run<E>>, routed: seq<Routed<E>>)
    requires IsGrouping(runs, routed) && run.events != []
    requires routed != [] ==> routed[0].target != run.target
    ensures IsGrouping([run] + runs, Tagged(run.target, run.events) + routed)
  {
    assert ([run] + runs)[1..] == runs;
    if runs != [] {
      FirstRunIsMaximal(runs, routed);
      assert routed[0] == routed[..|runs[0].events|][0];
    }
  }

  /** Cutting a maximal run off the front leaves the runs of the rest. */
  lemma CutFirstRun<E>(routed: seq<Routed<E>>, end: nat, events: seq<E>)
    requires 0 < end <= |routed| && |events| == end
    requires forall i :: 0 <= i < end ==> routed[i] == Routed(routed[0].target, events[i])
    requires end < |routed| ==> routed[end].target != routed[0].target
    ensures Runs(routed) == [Run(routed[0].target, events)] + Runs(routed[end..])
  {
    RunsAreGrouping(routed);
    RunsAreGrouping(routed[end..]);
    assert Tagged(routed[0].target, events) == routed[..end];
    assert routed[..end] + routed[end..] == routed;
    RunInFront(Run(routed[0].target, events), Runs(routed[end..]), routed[end..]);
    GroupingIsUnique([Run(routed[0].target, events)] + Runs(routed[end..]), Runs(routed), routed);
  }

  // ---------------------------------------------------------------- effect

  /** Go on with one more piece of work unless something raised. */
  function Then<S, E>(applyRun: ApplyRun<S, E>, p: Progress<S>, target: Target, events: seq<E>): Progress<S> {
    if p.raised then p else applyRun(p.content, target, events)
  }

  function ApplyRuns<S, E>(applyRun: ApplyRun<S, E>, p: Progress<S>, runs: seq<Run<E>>): Progress<S>
    decreases |runs|
  {
    if runs == [] then p
    else ApplyRuns(applyRun, Then(applyRun, p, runs[0].target, runs[0].events), runs[1..])
  }

  /** Each record alone at its own target. */
  function ApplyEach<S, E>(applyRun: ApplyRun<S, E>, p: Progress<S>, routed: seq<Routed<E>>): Progress<S>
    decreases |routed|
  {
    if routed == [] then p
    else ApplyEach(applyRun, Then(applyRun, p, routed[0].target, [routed[0].event]), routed[1..])
  }

  /** Applying two pieces at one target is applying them one after the other. */
  ghost predicate SplitsAt<S, E>(applyRun: ApplyRun<S, E>, c: S, target: Target, a: seq<E>, b: seq<E>) {
    applyRun(c, target, a + b) == Then(applyRun, applyRun(c, target, a), target, b)
  }

  ghost predicate Splits<S(!new), E(!new)>(applyRun: ApplyRun<S, E>) {
    forall c, target, a, b | a != [] && b != [] :: SplitsAt(applyRun, c, target, a, b)
  }

  lemma {:induction false} RaisedStays<S, E>(
    applyRun: ApplyRun<S, E>, p: Progress<S>, runs: seq<Run<E>>, routed: seq<Routed<E>>)
    requires p.raised
    ensures ApplyRuns(applyRun, p, runs) == p && ApplyEach(applyRun, p, routed) == p
    decreases |runs| + |routed|
  {
    if runs != [] {
      RaisedStays(applyRun, p, runs[1..], routed);
    } else if routed != [] {
      RaisedStays(applyRun, p, runs, routed[1..]);
    }
  }

  lemma {:induction false} GroupedAsEach<S(!new), E(!new)>(
    applyRun: ApplyRun<S, E>, p: Progress<S>, routed: seq<Routed<E>>)
    requires Splits(applyRun)
    ensures ApplyRuns(applyRun, p, Runs(routed)) == ApplyEach(applyRun, p, routed)
    decreases |routed|
  {
    if routed != [] {
      var r, rest := routed[0], Runs(routed[1..]);
      RunsAreGrouping(routed[1..]);
      var q := Then(applyRun, p, r.target, [r.event]);
      GroupedAsEach(applyRun, q, routed[1..]);
      if rest != [] && rest[0].target == r.target {
        assert p.raised || SplitsAt(applyRun, p.content, r.target, [r.event], rest[0].events);
        assert Runs(routed)[1..] == rest[1..];
      } else {
        assert Runs(routed)[1..] == rest;
      }
    }
  }

  lemma {:induction false} EachConcat<S, E>(
    applyRun: ApplyRun<S, E>, p: Progress<S>, a: seq<Routed<E>>, b: seq<Routed<E>>)
    ensures ApplyEach(applyRun, p, a + b) == ApplyEach(applyRun, ApplyEach(applyRun, p, a), b)
    decreases |a|
  {
    if a == [] {
      assert a + b == b;
    } else {
      TailOfConcat(a, b);
      EachConcat(applyRun, Then(applyRun, p, a[0].target, [a[0].event]), a[1..], b);
    }
  }

  lemma OneRun<S, E>(applyRun: ApplyRun<S, E>, p: Progress<S>, target: Target, events: seq<E>)
    requires events != []
    ensures ApplyRuns(applyRun, p, Runs(Tagged(target, events))) == Then(applyRun, p, target, events)
  {
    var routed := Tagged(target, events);
    CutFirstRun(routed, |events|, events);
    assert routed[|events|..] == [];
  }

  ghost predicate SameAsEach<S, E>(applyRun: ApplyRun<S, E>, c: S, routed: seq<Routed<E>>) {
    ApplyRuns(applyRun, Progress(c, false), Runs(routed)) == ApplyEach(applyRun, Progress(c, false), routed)
  }

  /**
   Grouping is the same as applying each record alone, for every content and every record list, exactly when
   the callback treats a run as its pieces one after the other.
   */
  lemma GroupingRefinesRecordsIff<S(!new), E(!new)>(applyRun: ApplyRun<S, E>)
    ensures (forall c, routed :: SameAsEach(applyRun, c, routed)) <==> Splits(applyRun)
  {
    if Splits(applyRun) {
      forall c, routed ensures SameAsEach(applyRun, c, routed) {
        GroupedAsEach(applyRun, Progress(c, false), routed);
      }
    }
    if forall c, routed :: SameAsEach(applyRun, c, routed) {
      forall c, target, a: seq<E>, b: seq<E> | a != [] && b != [] ensures SplitsAt(applyRun, c, target, a, b) {
        SplitsFromEach(applyRun, c, target, a, b);
      }
    }
  }

  lemma SplitsFromEach<S(!new), E(!new)>(applyRun: ApplyRun<S, E>, c: S, target: Target, a: seq<E>, b: seq<E>)
    requires forall c, routed :: SameAsEach(applyRun, c, routed)
    requires a != [] && b != []
    ensures SplitsAt(applyRun, c, target, a, b)
  {
    var p, ta, tb := Progress(c, false), Tagged(target, a), Tagged(target, b);
    var q := applyRun(c, target, a);
    assert Tagged(target, a + b) == ta + tb;
    OneRun(applyRun, p, target, a + b);
    OneRun(applyRun, p, target, a);
    OneRun(applyRun, q, target, b);
    EachConcat(applyRun, p, ta, tb);
    assert SameAsEach(applyRun, c, ta + tb) && SameAsEach(applyRun, c, ta);
    if q.raised {
      RaisedStays(applyRun, q, [], tb);
    } else {
      assert SameAsEach(applyRun, q.content, tb);
    }
  }

  // ---------------------------------------------------------------- the batch applier

  /** The batch applier as a callback: the content is the list of events applied so far. */
  function BatchApplier(): ApplyRun<seq<Event>, Event> {
    (applied: seq<Event>, target: Target, events: seq<Event>) => Progress(applied + A.Executed(events), false)
  }

  /** The events of records in order. */
  function EventsOf<E>(routed: seq<Routed<E>>): (r: seq<E>)
    ensures |r| == |routed| && forall i :: 0 <= i < |r| ==> r[i] == routed[i].event
  {
    seq(|routed|, i requires 0 <= i < |routed| => routed[i].event)
  }

  /** What the batch applier applies for the runs, in order. */
  function ExecutedRuns(runs: seq<Run<Event>>): seq<Event> {
    if runs == [] then [] else A.Executed(runs[0].events) + ExecutedRuns(runs[1..])
  }

  lemma {:induction false} RunsApply(p: Progress<seq<Event>>, runs: seq<Run<Event>>)
    requires !p.raised
    ensures ApplyRuns(BatchApplier(), p, runs) == Progress(p.content + ExecutedRuns(runs), false)
    decreases |runs|
  {
    if runs == [] {
      assert p.content + ExecutedRuns(runs) == p.content;
    } else {
      var q := Then(BatchApplier(), p, runs[0].target, runs[0].events);
      assert q == Progress(p.content + A.Executed(runs[0].events), false);
      RunsApply(q, runs[1..]);
      ConcatAssociates(p.content, A.Executed(runs[0].events), ExecutedRuns(runs[1..]));
    }
  }

  lemma {:induction false} EachApplies(p: Progress<seq<Event>>, routed: seq<Routed<Event>>)
    requires !p.raised
    ensures ApplyEach(BatchApplier(), p, routed) == Progress(p.content + EventsOf(routed), false)
    decreases |routed|
  {
    if routed == [] {
      assert p.content + EventsOf(routed) == p.content;
    } else {
      var r := routed[0];
      P.RunsAlone(r.event);
      var q := Then(BatchApplier(), p, r.target, [r.event]);
      assert q == Progress(p.content + [r.event], false);
      EachApplies(q, routed[1..]);
      assert EventsOf(routed) == [r.event] + EventsOf(routed[1..]);
      ConcatAssociates(p.content, [r.event], EventsOf(routed[1..]));
    }
  }

  ghost predicate AllUnmoved(runs: seq<Run<Event>>) {
    forall i :: 0 <= i < |runs| ==> A.Executed(runs[i].events) == runs[i].events
  }

  lemma SameFront(x: seq<Event>, a: seq<Event>, y: seq<Event>, b: seq<Event>)
    requires |x| == |a|
    ensures x + y == a + b <==> x == a && y == b
  {
    TakeOfConcat(x, y);
    TakeOfConcat(a, b);
    assert y == (x + y)[|x|..] && b == (a + b)[|a|..];
  }

  lemma UnmovedSplit(runs: seq<Run<Event>>)
    requires runs != []
    ensures AllUnmoved(runs) <==> A.Executed(runs[0].events) == runs[0].events && AllUnmoved(runs[1..])
  {
    HeadTail(runs);
    if A.Executed(runs[0].events) == runs[0].events && AllUnmoved(runs[1..]) {
      forall i | 0 <= i < |runs| ensures A.Executed(runs[i].events) == runs[i].events {
        if i > 0 { assert runs[i] == runs[1..][i - 1]; }
      }
    }
  }

  lemma EventsSplit(runs: seq<Run<Event>>)
    requires runs != []
    ensures EventsOf(Flatten(runs)) == runs[0].events + EventsOf(Flatten(runs[1..]))
  {
  }

  lemma {:induction false} UnmovedRuns(runs: seq<Run<Event>>)
    ensures ExecutedRuns(runs) == EventsOf(Flatten(runs)) <==> AllUnmoved(runs)
  {
    if runs != [] {
      var events, rest := runs[0].events, runs[1..];
      UnmovedRuns(rest);
      P.ExecutedLength(events);
      EventsSplit(runs);
      SameFront(A.Executed(events), events, ExecutedRuns(rest), EventsOf(Flatten(rest)));
      UnmovedSplit(runs);
    }
  }

  lemma SameConcat(c: seq<Event>, x: seq<Event>, y: seq<Event>)
    ensures c + x == c + y <==> x == y
  {
    assert x == (c + x)[|c|..] && y == (c + y)[|c|..];
  }

  /**
   For every content and every list of records: handing the runs to the batch applier is applying each record
   alone exactly when no run holds two events out of slot order without a barrier from one to the other.
   */
  lemma BatchGroupingIff(applied: seq<Event>, routed: seq<Routed<Event>>)
    ensures SameAsEach(BatchApplier(), applied, routed)
       <==> forall i :: 0 <= i < |Runs(routed)| ==> P.StretchesOrdered(Runs(routed)[i].events)
  {
    var runs := Runs(routed);
    RunsAreGrouping(routed);
    RunsApply(Progress(applied, false), runs);
    EachApplies(Progress(applied, false), routed);
    SameConcat(applied, ExecutedRuns(runs), EventsOf(routed));
    UnmovedRuns(runs);
    forall i | 0 <= i < |runs|
      ensures A.Executed(runs[i].events) == runs[i].events <==> P.StretchesOrdered(runs[i].events)
    {
      P.BatchUnmovedIff(runs[i].events);
    }
  }

  // ---------------------------------------------------------------- applying

  /** The content of all layers, and what one run does to it. */
  class Author<S, E> {
    var content: S
    const applyRun: ApplyRun<S, E>

    constructor (content: S, applyRun: ApplyRun<S, E>)
      ensures this.content == content && this.applyRun == applyRun
    {
      this.content, this.applyRun := content, applyRun;
    }

    /** Author one run; the edit target must not be muted. */
    method Apply(stage: L.Stage, run: Run<E>) returns (outcome: Outcome)
      requires run.target.Layer? ==> !stage.IsLayerMuted(run.target.identifier)
      modifies this
      ensures Progress(content, outcome.Raised?) == applyRun(old(content), run.target, run.events)
    {
      var after := applyRun(content, run.target, run.events);
      content := after.content;
      outcome := if after.raised then Raised else Done;
    }

    /** The nested loop: find the end of each run, hand it over, go on after it. */
    method ApplyRouted(stage: L.Stage, routed: seq<Routed<E>>) returns (outcome: Outcome)
      requires forall r <- routed :: r.target.Layer? ==> !stage.IsLayerMuted(r.target.identifier)
      modifies this
      ensures Progress(content, outcome.Raised?)
           == ApplyRuns(applyRun, Progress(old(content), false), Runs(routed))
    {
      var start := 0;
      outcome := Done;
      assert routed[0..] == routed;
      while start < |routed| && outcome.Done?
        invariant 0 <= start <= |routed|
        invariant ApplyRuns(applyRun, Progress(content, outcome.Raised?), Runs(routed[start..]))
               == ApplyRuns(applyRun, Progress(old(content), false), Runs(routed))
        decreases |routed| - start
      {
        var target, end := routed[start].target, start + 1;
        var events := [routed[start].event];
        while end < |routed| && routed[end].target == target
          invariant start < end <= |routed| && |events| == end - start
          invariant forall i :: 0 <= i < end - start ==> routed[start + i] == Routed(target, events[i])
        {
          events := events + [routed[end].event];
          end := end + 1;
        }
        CutFirstRun(routed[start..], end - start, events);
        assert routed[start..][end - start..] == routed[end..];
        ghost var rest := Runs(routed[end..]);
        assert ([Run(target, events)] + rest)[1..] == rest;
        assert routed[start] in routed;
        outcome := Apply(stage, Run(target, events));
        start := end;
      }
      if outcome.Raised? {
        RaisedStays(applyRun, Progress(content, true), Runs(routed[start..]), []);
      }
    }

    /**
     Resolve every route, make the target layers writable, apply the runs, and mute again what was muted,
     whether or not a run raised.
     */
    method ApplyRoutedRecords(router: L.LogicalLayerRouter, records: seq<Record<E>>) returns (outcome: Outcome)
      requires router.Valid() && router.KeysKnown()
      modifies this, router.stage
      ensures router.Valid() && router.KeysKnown()
      ensures router.stage == old(router.stage)
      ensures (router.stage == null || !Routable(router, records)) ==> outcome == Raised && content == old(content)
      ensures (router.stage != null && Routable(router, records)) ==>
        Progress(content, outcome.Raised?)
        == ApplyRuns(applyRun, Progress(old(content), false), Runs(Routes(router, records)))
      ensures router.stage != null ==> router.stage.View() == old(router.stage.View())
    {
      var ok, routed := ResolveRoutes(router, records);
      if !ok || router.stage == null {
        return Raised;
      }
      var stage: L.Stage := router.stage;
      var identifiers := set i | 0 <= i < |routed| && routed[i].target.Layer?
                                 && stage.IsLayerMuted(routed[i].target.identifier) :: routed[i].target.identifier;
      ghost var before := stage.mutedLayers;
      if identifiers != {} {
        stage.MuteAndUnmuteLayers({}, identifiers);
      }
      forall i | 0 <= i < |routed| && routed[i].target.Layer?
        ensures !stage.IsLayerMuted(routed[i].target.identifier) {
        if routed[i].target.identifier in before {
          assert routed[i].target.identifier in identifiers;
        }
      }
      outcome := ApplyRouted(stage, routed);
      if identifiers != {} {
        stage.MuteAndUnmuteLayers(identifiers, {});
      }
      assert stage.mutedLayers == before;
    }
  }
}
