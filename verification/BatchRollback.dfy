/**
 Running a scoped batch and rolling it back.

 The events run in the batch's execution order until one raises. Footprints say what an applier may do, so an
 event that changes less than it may is part of every statement here.
 */
module BatchRollback {
  import opened Wrappers
  import opened SpecPaths
  import opened ProtocolEvents
  import opened LayerRollback
  import opened RollbackLaws
  import opened EventFootprints
  import opened ApplyScope
  import A = ApplyOrder
  import P = ApplyPositions

  // ---------------------------------------------------------------- running a batch

  /** Every layer along the way holds the ancestors of the specs that it holds. */
  ghost predicate LayersFrom(order: seq<Event>, entry: Specs, layers: seq<Specs>) {
    && 1 <= |layers| <= |order| + 1
    && layers[0] == entry
    && forall i :: 0 <= i < |layers| ==> PrefixClosed(layers[i])
  }

  /** The layers after each event of a prefix of the order; only the last event may have raised. */
  ghost predicate Execution(order: seq<Event>, entry: Specs, layers: seq<Specs>) {
    && LayersFrom(order, entry, layers)
    && (forall i :: 0 <= i < |layers| - 1 ==> StepWithin(order[i], layers[i], layers[i + 1]))
    && forall i :: 0 <= i < |layers| - 2 ==> CompleteStep(order[i], layers[i], layers[i + 1])
  }

  /** No event has raised so far. */
  ghost predicate CompleteRun(order: seq<Event>, entry: Specs, layers: seq<Specs>) {
    && LayersFrom(order, entry, layers)
    && forall i :: 0 <= i < |layers| - 1 ==> CompleteStep(order[i], layers[i], layers[i + 1])
  }

  function Final(layers: seq<Specs>): Specs
    requires layers != []
  {
    layers[|layers| - 1]
  }

  /** The order is one of the scoped batch's own events. */
  ghost predicate OrderOf(events: seq<Event>, order: seq<Event>) {
    && ScopeOfBatch(events).Some?
    && (forall e <- events :: WellFormed(e))
    && forall e :: e in order <==> e in events
  }

  lemma ExecutedIsOrder(events: seq<Event>)
    requires ScopeOfBatch(events).Some? && forall e <- events :: WellFormed(e)
    ensures OrderOf(events, A.Executed(events))
  {
    A.ExecutedIsPermutation(events);
    forall e ensures e in A.Executed(events) <==> e in events {
      assert e in multiset(A.Executed(events)) <==> e in multiset(events);
    }
  }

  lemma OneMore(order: seq<Event>, entry: Specs, layers: seq<Specs>, l: Specs)
    requires CompleteRun(order, entry, layers) && |layers| <= |order|
    requires PrefixClosed(l) && StepWithin(order[|layers| - 1], Final(layers), l)
    ensures Execution(order, entry, layers + [l])
    ensures CompleteStep(order[|layers| - 1], Final(layers), l) ==> CompleteRun(order, entry, layers + [l])
  {
  }

  // ---------------------------------------------------------------- what the scope leaves out

  /** d may be missing after n events: it was on entry, or one took it away, and none created it again for certain. */
  predicate MayMiss(order: seq<Event>, entry: Specs, d: Path, n: nat)
    requires n <= |order|
  {
    if n == 0 then d !in entry
    else
      var e := order[n - 1];
      LayerWide(e) || Removes(e, d) || (MayMiss(order, entry, d, n - 1) && !SurelyCreates(e, d))
  }

  /** Event i may define d while it is missing; that makes a definition of x, which no scope path contains. */
  ghost predicate ExposedAt(events: seq<Event>, order: seq<Event>, entry: Specs, i: nat, d: Path, x: Path)
    requires ScopeOfBatch(events).Some?
  {
    && i < |order| && !LayerWide(order[i]) && d in Defines(order[i]) && MayMiss(order, entry, d, i)
    && x != ROOT && x != d && Under(x, d) && x in entry && Undefined(entry[x])
    && !UnderAny(ScopeOfBatch(events).value, x)
  }

  ghost predicate Exposed(events: seq<Event>, order: seq<Event>, entry: Specs)
    requires ScopeOfBatch(events).Some?
  {
    exists i, d, x :: ExposedAt(events, order, entry, i, d, x)
  }

  lemma ReachedIsInScope(entry: Specs, l: Specs, paths: seq<Path>, x: Path)
    requires ReachedByAny(l, paths, x) && SameAt(l, entry, x)
    ensures InScope(entry, paths, x)
  {
    var i :| 0 <= i < |paths| && Reaches(l, paths[i], x);
    if !Under(paths[i], x) {
      assert paths[i][..|x|] == x && Under(paths[i][..|x|], x);
    }
    assert Region(entry, paths[i], x);
  }

  lemma PresentInScope(entry: Specs, paths: seq<Path>, x: Path)
    requires PrefixClosed(entry) && x in entry
    ensures InScope(entry, paths, x) <==> UnderAny(paths, x)
  {
    if i :| 0 <= i < |paths| && Region(entry, paths[i], x) {
      assert Under(paths[i], x);
    }
    if i :| 0 <= i < |paths| && Under(paths[i], x) {
      assert Region(entry, paths[i], x);
    }
  }

  /** A prim that cannot be missing is there. */
  lemma {:induction false} PresentUnlessMissed(
    order: seq<Event>, entry: Specs, layers: seq<Specs>, n: nat, d: Path)
    requires Execution(order, entry, layers) && n < |layers| - 1
    requires AllPrim(d) && !MayMiss(order, entry, d, n)
    ensures d in layers[n]
  {
    if n > 0 {
      var e := order[n - 1];
      assert CompleteStep(e, layers[n - 1], layers[n]);
      if SurelyCreates(e, d) {
        var c :| c in Creates(e) && Under(d, c);
        AncestorPresent(layers[n], d, c);
      } else {
        PresentUnlessMissed(order, entry, layers, n - 1, d);
      }
    }
  }

  /** One event of a batch that exposes nothing keeps every change since entry inside the scope's regions. */
  lemma StepStaysConfined(
    events: seq<Event>, order: seq<Event>, entry: Specs, layers: seq<Specs>, n: nat)
    requires OrderOf(events, order) && Execution(order, entry, layers) && !Exposed(events, order, entry)
    requires n < |layers| - 1 && Confined(entry, ScopeOfBatch(events).value, layers[n])
    ensures Confined(entry, ScopeOfBatch(events).value, layers[n + 1])
  {
    var paths, e := ScopeOfBatch(events).value, order[n];
    assert e in order;
    forall x | !InScope(entry, paths, x) ensures SameAt(layers[n + 1], entry, x) {
      assert SameAt(layers[n], entry, x);
      BatchCovered(events, e, layers[n], x);
      if WritesBelow(e, layers[n], x) {
        ReachedIsInScope(entry, layers[n], paths, x);
      }
      if PromotesAny(e, layers[n], x) {
        NoPromotion(events, order, entry, layers, n, x);
      }
      assert SameAt(layers[n + 1], layers[n], x);
    }
  }

  lemma NoPromotion(
    events: seq<Event>, order: seq<Event>, entry: Specs, layers: seq<Specs>, n: nat, x: Path)
    requires OrderOf(events, order) && Execution(order, entry, layers) && n < |layers| - 1
    requires !LayerWide(order[n]) && PromotesAny(order[n], layers[n], x) && SameAt(layers[n], entry, x)
    requires !InScope(entry, ScopeOfBatch(events).value, x)
    ensures Exposed(events, order, entry)
  {
    var d :| d in Defines(order[n]) && Promotes(d, layers[n], x);
    assert order[n] in order;
    DefinesArePrims(order[n], d);
    PresentInScope(entry, ScopeOfBatch(events).value, x);
    if !MayMiss(order, entry, d, n) {
      PresentUnlessMissed(order, entry, layers, n, d);
    }
    assert ExposedAt(events, order, entry, n, d, x);
  }

  lemma {:induction false} ExecutionStaysConfined(
    events: seq<Event>, order: seq<Event>, entry: Specs, layers: seq<Specs>, n: nat)
    requires OrderOf(events, order) && Execution(order, entry, layers) && !Exposed(events, order, entry)
    requires n < |layers|
    ensures Confined(entry, ScopeOfBatch(events).value, layers[n])
  {
    if n > 0 {
      ExecutionStaysConfined(events, order, entry, layers, n - 1);
      StepStaysConfined(events, order, entry, layers, n - 1);
    }
  }

  // ---------------------------------------------------------------- runs that show it

  lemma RootIsNotRemoved(events: seq<Event>, e: Event)
    requires ScopeOfBatch(events).Some? && e in events
    ensures !LayerWide(e) && !Removes(e, ROOT)
  {
    ScopedEvent(events, e);
  }

  lemma {:induction false} ScopedEvent(events: seq<Event>, e: Event)
    requires ScopeOfBatch(events).Some? && e in events
    ensures ScopeOf(e).Some?
  {
    if e != events[|events| - 1] {
      ScopedEvent(events[..|events| - 1], e);
    }
  }

  lemma RemovesOnlyInScope(events: seq<Event>, e: Event, x: Path)
    requires ScopeOfBatch(events).Some? && e in events && !LayerWide(e) && Removes(e, x)
    ensures UnderAny(ScopeOfBatch(events).value, x)
  {
    var l: Specs := map[x := Over];
    BatchCovered(events, e, l, x);
    var paths := ScopeOfBatch(events).value;
    var i :| 0 <= i < |paths| && Reaches(l, paths[i], x);
    assert Under(paths[i], x);
  }

  /** One more event creates what it creates for certain, and does nothing else. */
  lemma CreatingStep(events: seq<Event>, order: seq<Event>, entry: Specs, before: seq<Specs>)
    returns (layers: seq<Specs>)
    requires OrderOf(events, order) && CompleteRun(order, entry, before) && |before| <= |order|
    ensures CompleteRun(order, entry, layers) && |layers| == |before| + 1
    ensures !LayerWide(order[|before| - 1])
    ensures Final(layers) == WithCreated(Final(before), order[|before| - 1])
  {
    var e := order[|before| - 1];
    assert e in order;
    RootIsNotRemoved(events, e);
    WithCreatedIsStep(e, Final(before));
    OneMore(order, entry, before, WithCreated(Final(before), e));
    layers := before + [WithCreated(Final(before), e)];
  }

  /** The first n events create what they create for certain, and do nothing else. */
  lemma {:induction false} QuietRun(events: seq<Event>, order: seq<Event>, entry: Specs, n: nat)
    returns (layers: seq<Specs>)
    requires OrderOf(events, order) && PrefixClosed(entry) && n <= |order|
    ensures CompleteRun(order, entry, layers) && |layers| == n + 1
    ensures forall x <- entry.Keys :: SameAt(Final(layers), entry, x)
  {
    if n == 0 {
      layers := [entry];
    } else {
      var before := QuietRun(events, order, entry, n - 1);
      layers := CreatingStep(events, order, entry, before);
    }
  }

  lemma MissingStep(
    events: seq<Event>, order: seq<Event>, entry: Specs, before: seq<Specs>, d: Path, x: Path)
    returns (layers: seq<Specs>)
    requires OrderOf(events, order) && CompleteRun(order, entry, before) && |before| <= |order|
    requires !LayerWide(order[|before| - 1]) && !SurelyCreates(order[|before| - 1], d)
    requires d !in Final(before) && x in entry && SameAt(Final(before), entry, x)
    ensures CompleteRun(order, entry, layers) && |layers| == |before| + 1
    ensures d !in Final(layers) && SameAt(Final(layers), entry, x)
  {
    layers := CreatingStep(events, order, entry, before);
  }

  lemma MayMissBefore(events: seq<Event>, order: seq<Event>, entry: Specs, n: nat, d: Path)
    requires OrderOf(events, order) && 0 < n <= |order| && MayMiss(order, entry, d, n)
    ensures !LayerWide(order[n - 1])
    ensures Removes(order[n - 1], d) || (MayMiss(order, entry, d, n - 1) && !SurelyCreates(order[n - 1], d))
  {
    assert order[n - 1] in order;
    RootIsNotRemoved(events, order[n - 1]);
  }

  lemma RemovingRun(events: seq<Event>, order: seq<Event>, entry: Specs, n: nat, d: Path, x: Path)
    returns (layers: seq<Specs>)
    requires OrderOf(events, order) && PrefixClosed(entry) && 0 < n <= |order|
    requires !LayerWide(order[n - 1]) && AllPrim(d) && Removes(order[n - 1], d)
    requires x in entry && !UnderAny(ScopeOfBatch(events).value, x)
    ensures CompleteRun(order, entry, layers) && |layers| == n + 1
    ensures d !in Final(layers) && SameAt(Final(layers), entry, x)
  {
    var before := QuietRun(events, order, entry, n - 1);
    layers := RemovingStep(events, order, entry, before, d, x);
  }

  lemma StartOfRun(order: seq<Event>, entry: Specs)
    requires PrefixClosed(entry)
    ensures CompleteRun(order, entry, [entry])
  {
  }

  /** Whatever may be missing is missing in some run that leaves the specs outside the scope alone. */
  lemma {:induction false} MissingRun(
    events: seq<Event>, order: seq<Event>, entry: Specs, n: nat, d: Path, x: Path)
    returns (layers: seq<Specs>)
    requires OrderOf(events, order) && PrefixClosed(entry) && n <= |order|
    requires AllPrim(d) && MayMiss(order, entry, d, n)
    requires x in entry && !UnderAny(ScopeOfBatch(events).value, x)
    ensures CompleteRun(order, entry, layers) && |layers| == n + 1
    ensures d !in Final(layers) && SameAt(Final(layers), entry, x)
  {
    if n == 0 {
      layers := [entry];
      StartOfRun(order, entry);
      return;
    }
    MayMissBefore(events, order, entry, n, d);
    if Removes(order[n - 1], d) {
      layers := RemovingRun(events, order, entry, n, d, x);
    } else {
      var before := MissingRun(events, order, entry, n - 1, d, x);
      layers := MissingStep(events, order, entry, before, d, x);
    }
  }

  lemma RemovingStep(
    events: seq<Event>, order: seq<Event>, entry: Specs, before: seq<Specs>, d: Path, x: Path)
    returns (layers: seq<Specs>)
    requires OrderOf(events, order) && CompleteRun(order, entry, before) && |before| <= |order|
    requires !LayerWide(order[|before| - 1]) && AllPrim(d) && Removes(order[|before| - 1], d)
    requires SameAt(Final(before), entry, x) && !UnderAny(ScopeOfBatch(events).value, x)
    ensures CompleteRun(order, entry, layers) && |layers| == |before| + 1
    ensures d !in Final(layers) && SameAt(Final(layers), entry, x)
  {
    var e, l := order[|before| - 1], Final(before);
    assert e in order;
    RootIsNotRemoved(events, e);
    RemoverCreatesNothing(e, d);
    WithoutIsStep(e, l);
    if Removes(e, x) {
      RemovesOnlyInScope(events, e, x);
    }
    assert SameAt(Without(l, e), l, x);
    OneMore(order, entry, before, Without(l, e));
    layers := before + [Without(l, e)];
  }

  /** An exposed spec really can be changed outside the scope. */
  lemma ExposedEscapes(events: seq<Event>, order: seq<Event>, entry: Specs, i: nat, d: Path, x: Path)
    returns (layers: seq<Specs>)
    requires OrderOf(events, order) && PrefixClosed(entry) && ExposedAt(events, order, entry, i, d, x)
    ensures Execution(order, entry, layers) && !SameAt(Final(layers), entry, x)
  {
    assert order[i] in order;
    DefinesArePrims(order[i], d);
    var before := MissingRun(events, order, entry, i, d, x);
    DefinitionIsStep(order[i], Final(before), d, x);
    OneMore(order, entry, before, WithDefinition(Final(before), d, x));
    layers := before + [WithDefinition(Final(before), d, x)];
  }

  lemma ExposedBatchEscapes(events: seq<Event>, entry: Specs, i: nat, d: Path, x: Path)
    returns (layers: seq<Specs>)
    requires ScopeOfBatch(events).Some? && PrefixClosed(entry) && forall e <- events :: WellFormed(e)
    requires ExposedAt(events, A.Executed(events), entry, i, d, x)
    ensures Execution(A.Executed(events), entry, layers) && !SameAt(Final(layers), entry, x)
  {
    ExecutedIsOrder(events);
    layers := ExposedEscapes(events, A.Executed(events), entry, i, d, x);
  }

  lemma ScopeSufficesForOrder(events: seq<Event>, order: seq<Event>, entry: Specs)
    requires OrderOf(events, order) && PrefixClosed(entry)
    ensures (forall layers :: Execution(order, entry, layers) ==>
               Confined(entry, ScopeOfBatch(events).value, Final(layers)))
       <==> !Exposed(events, order, entry)
  {
    if Exposed(events, order, entry) {
      var i, d, x :| ExposedAt(events, order, entry, i, d, x);
      var layers := ExposedEscapes(events, order, entry, i, d, x);
      PresentInScope(entry, ScopeOfBatch(events).value, x);
    } else {
      forall layers | Execution(order, entry, layers)
        ensures Confined(entry, ScopeOfBatch(events).value, Final(layers))
      {
        ExecutionStaysConfined(events, order, entry, layers, |layers| - 1);
      }
    }
  }

  /**
   The computed scope contains every change that the batch can make, exactly when no event in execution order
   may define a prim that is missing by then below an undefined spec that no scope path contains.
   */
  lemma ScopeSufficesIff(events: seq<Event>, entry: Specs)
    requires ScopeOfBatch(events).Some? && PrefixClosed(entry) && forall e <- events :: WellFormed(e)
    ensures (forall layers :: Execution(A.Executed(events), entry, layers) ==>
               Confined(entry, ScopeOfBatch(events).value, Final(layers)))
       <==> !Exposed(events, A.Executed(events), entry)
  {
    ExecutedIsOrder(events);
    ScopeSufficesForOrder(events, A.Executed(events), entry);
  }

  // ---------------------------------------------------------------- rolling a batch back

  function PlanOf(events: seq<Event>, entry: Specs): Plan
    requires ScopeOfBatch(events).Some? && PrefixClosed(entry)
  {
    PlanFor(entry, ScopeOfBatch(events).value)
  }

  /** Some event of the batch may take x away. */
  ghost predicate Removable(events: seq<Event>, x: Path) {
    exists e :: e in events && (LayerWide(e) || Removes(e, x))
  }

  /** Some event of the batch may take away the parent of a saved path. */
  ghost predicate ParentAtRisk(events: seq<Event>, saved: seq<Path>) {
    exists i :: 0 <= i < |saved| && |saved[i]| >= 2 && Removable(events, Parent(saved[i]))
  }

  /** A prim that no event of the batch may take away stays throughout. */
  lemma {:induction false} PrimStays(
    events: seq<Event>, order: seq<Event>, entry: Specs, layers: seq<Specs>, n: nat, x: Path)
    requires OrderOf(events, order) && Execution(order, entry, layers) && n < |layers|
    requires x in entry && AllPrim(x) && !Removable(events, x)
    ensures x in layers[n]
  {
    if n > 0 {
      PrimStays(events, order, entry, layers, n - 1, x);
      assert order[n - 1] in order && StepWithin(order[n - 1], layers[n - 1], layers[n]);
    }
  }

  lemma {:induction false} SavedFromPaths(l: Specs, paths: seq<Path>, i: nat)
    requires ROOT in l && i < |PlanFor(l, paths).saved|
    ensures PlanFor(l, paths).saved[i] in paths
  {
    var init := paths[..|paths| - 1];
    InitLast(paths);
    if i < |PlanFor(l, init).saved| {
      SavedFromPaths(l, init, i);
    }
  }

  lemma UnexposedRollback(
    events: seq<Event>, order: seq<Event>, entry: Specs, layers: seq<Specs>, backup: Specs, policy: MissingParent)
    requires OrderOf(events, order) && PrefixClosed(entry)
    requires BacksUp(backup, entry, PlanOf(events, entry).saved)
    requires Execution(order, entry, layers) && !Exposed(events, order, entry)
    requires policy == Raises ==> !ParentAtRisk(events, PlanOf(events, entry).saved)
    ensures Rollback(PlanOf(events, entry), backup, Final(layers), policy) == (entry, Done)
  {
    var paths, saved, after := ScopeOfBatch(events).value, PlanOf(events, entry).saved, Final(layers);
    ExecutionStaysConfined(events, order, entry, layers, |layers| - 1);
    if policy == Raises {
      forall i | 0 <= i < |saved| && |saved[i]| >= 2 ensures Parent(saved[i]) in after {
        SavedFromPaths(entry, paths, i);
        ScopeIsPrims(events, saved[i]);
        PlanIsValid(entry, paths);
        AncestorPresent(entry, Parent(saved[i]), saved[i]);
        PrimStays(events, order, entry, layers, |layers| - 1, Parent(saved[i]));
      }
      ParentsKeptFinishes(entry, paths, backup, after, |saved|);
      TakeAll(saved);
    }
    FinishedRollbackIsExact(entry, paths, backup, after, policy);
  }

  /** Taking a saved path's parent away makes a raising rollback raise. */
  lemma ParentAtRiskFails(events: seq<Event>, order: seq<Event>, entry: Specs, backup: Specs)
    returns (layers: seq<Specs>)
    requires OrderOf(events, order) && PrefixClosed(entry)
    requires ParentAtRisk(events, PlanOf(events, entry).saved)
    ensures Execution(order, entry, layers)
    ensures Rollback(PlanOf(events, entry), backup, Final(layers), Raises).1 == Raised
  {
    var plan := PlanOf(events, entry);
    var i :| 0 <= i < |plan.saved| && |plan.saved[i]| >= 2 && Removable(events, Parent(plan.saved[i]));
    var e :| e in events && (LayerWide(e) || Removes(e, Parent(plan.saved[i])));
    assert e in order;
    var j :| 0 <= j < |order| && order[j] == e;
    RootIsNotRemoved(events, e);
    var before := QuietRun(events, order, entry, j);
    WithoutIsStep(e, Final(before));
    OneMore(order, entry, before, Without(Final(before), e));
    layers := before + [Without(Final(before), e)];
    PlanIsValid(entry, ScopeOfBatch(events).value);
    DeletedParentRaises(plan, backup, Final(layers), i);
  }

  lemma FailedOrderIff(
    events: seq<Event>, order: seq<Event>, entry: Specs, backup: Specs, policy: MissingParent)
    requires OrderOf(events, order) && PrefixClosed(entry)
    requires BacksUp(backup, entry, PlanOf(events, entry).saved)
    ensures (forall layers :: Execution(order, entry, layers) ==>
               Rollback(PlanOf(events, entry), backup, Final(layers), policy) == (entry, Done))
       <==> && !Exposed(events, order, entry)
            && (policy == Raises ==> !ParentAtRisk(events, PlanOf(events, entry).saved))
  {
    if Exposed(events, order, entry) {
      var i, d, x :| ExposedAt(events, order, entry, i, d, x);
      var layers := ExposedEscapes(events, order, entry, i, d, x);
      PresentInScope(entry, ScopeOfBatch(events).value, x);
      UnscopedChangeSurvives(entry, ScopeOfBatch(events).value, backup, Final(layers), policy, x);
    } else if policy == Raises && ParentAtRisk(events, PlanOf(events, entry).saved) {
      var layers := ParentAtRiskFails(events, order, entry, backup);
    } else {
      forall layers | Execution(order, entry, layers)
        ensures Rollback(PlanOf(events, entry), backup, Final(layers), policy) == (entry, Done)
      {
        UnexposedRollback(events, order, entry, layers, backup, policy);
      }
    }
  }

  /**
   A batch that fails at any event of its execution order leaves the layer as it was, exactly when it exposes no
   undefined ancestor and, where a copy without a parent raises, cannot take the parent of a saved path away.
   */
  lemma FailedBatchIff(events: seq<Event>, entry: Specs, backup: Specs, policy: MissingParent)
    requires ScopeOfBatch(events).Some? && (forall e <- events :: WellFormed(e)) && PrefixClosed(entry)
    requires BacksUp(backup, entry, PlanOf(events, entry).saved)
    ensures (forall layers :: Execution(A.Executed(events), entry, layers) ==>
               Rollback(PlanOf(events, entry), backup, Final(layers), policy) == (entry, Done))
       <==> && !Exposed(events, A.Executed(events), entry)
            && (policy == Raises ==> !ParentAtRisk(events, PlanOf(events, entry).saved))
  {
    ExecutedIsOrder(events);
    FailedOrderIff(events, A.Executed(events), entry, backup, policy);
  }

  /** A parent at risk is a saved path that comes before its own saved ancestor. */
  lemma AtRiskIsLate(events: seq<Event>, entry: Specs)
    requires ScopeOfBatch(events).Some? && PrefixClosed(entry)
    requires ParentAtRisk(events, PlanOf(events, entry).saved)
    ensures LateAncestor(PlanOf(events, entry).saved)
  {
    var paths, plan := ScopeOfBatch(events).value, PlanOf(events, entry);
    var i :| 0 <= i < |plan.saved| && |plan.saved[i]| >= 2 && Removable(events, Parent(plan.saved[i]));
    var s := plan.saved[i];
    var e :| e in events && (LayerWide(e) || Removes(e, Parent(s)));
    RootIsNotRemoved(events, e);
    RemovesOnlyInScope(events, e, Parent(s));
    PlanIsValid(entry, paths);
    AncestorPresent(entry, Parent(s), s);
    PresentInScope(entry, paths, Parent(s));
    PlanCoversScope(entry, paths, Parent(s));
    if UnderAny(plan.created, Parent(s)) {
      CreatedIsMissing(entry, plan, Parent(s));
    }
    var k :| 0 <= k < |plan.saved| && Under(plan.saved[k], Parent(s));
    UnderTransitive(plan.saved[k], Parent(s), s);
    assert k != i && !(k < i);
    assert AncestorFrom(plan.saved, i + 1, s);
  }

  /** Whenever a saved path comes before its own saved ancestor, a block inside the scope makes the rollback raise. */
  lemma LateAncestorBatchFails(events: seq<Event>, entry: Specs, backup: Specs) returns (after: Specs)
    requires ScopeOfBatch(events).Some? && PrefixClosed(entry)
    requires BacksUp(backup, entry, PlanOf(events, entry).saved) && LateAncestor(PlanOf(events, entry).saved)
    ensures PrefixClosed(after) && Confined(entry, ScopeOfBatch(events).value, after)
    ensures Rollback(PlanOf(events, entry), backup, after, Raises).1 == Raised
  {
    after := LateAncestorFails(entry, ScopeOfBatch(events).value, backup);
  }
}
