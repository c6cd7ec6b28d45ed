/**
 The rollback scope of an event batch.

 The scope is computed from the events alone. It covers everything that the events may write, except for
 undefined ancestors of a prim that one of them defines.
 */
module ApplyScope {
  import opened Wrappers
  import opened SpecPaths
  import opened ProtocolEvents
  import opened LayerRollback
  import opened EventFootprints

  // ---------------------------------------------------------------- computing the scope

  /** The path up to and including its last prim element. */
  function GetPrimPath(p: Path): (r: Path)
    ensures Under(r, p)
  {
    if p == [] || p[|p| - 1].Prim? then p
    else
      UnderTransitive(GetPrimPath(Parent(p)), Parent(p), p);
      GetPrimPath(Parent(p))
  }

  /** Number of leading prim elements. */
  function LeadingPrims(p: Path): (n: nat)
    ensures n <= |p| && (forall i :: 0 <= i < n ==> p[i].Prim?) && (n < |p| ==> !p[n].Prim?)
  {
    if p == [] || !p[0].Prim? then 0 else 1 + LeadingPrims(p[1..])
  }

  /** The prim whose subtree holds a spec in this layer: the owner of the first variant selection, if any. */
  function OwningPrim(p: Path): Path {
    p[..LeadingPrims(p)]
  }

  function ScopeOf(e: Event): Option<seq<Path>> {
    if LayerWide(e) then None
    else if IsSpecKind(e.kind) then
      if OwningPrim(e.spec.path.value) == ROOT then None else Some([OwningPrim(e.spec.path.value)])
    else if e.prim.value == ROOT then None
    else match e.kind
      case RenamePrim => if e.newName == "" then None else Some([e.prim.value, RenamedTo(e)])
      case SetConnectableConnection => Some([e.prim.value] + Sources(e.sources))
      case _ => Some([e.prim.value])
  }

  function ScopeOfBatch(events: seq<Event>): Option<seq<Path>> {
    if events == [] then Some([])
    else
      var before, last := ScopeOfBatch(events[..|events| - 1]), ScopeOf(events[|events| - 1]);
      if before == None || last == None then None else Some(before.value + last.value)
  }

  lemma {:induction false} NoScopeStays(events: seq<Event>, n: nat)
    requires n <= |events| && ScopeOfBatch(events[..n]) == None
    ensures ScopeOfBatch(events) == None
    decreases |events|
  {
    if n < |events| {
      assert events[..|events| - 1][..n] == events[..n];
      NoScopeStays(events[..|events| - 1], n);
    } else {
      assert events[..n] == events;
    }
  }

  lemma {:induction false} LeadingPrimsOfPrefix(p: Path, k: nat)
    requires k <= LeadingPrims(p)
    ensures LeadingPrims(p[..k]) == k
  {
    if k > 0 {
      LeadingPrimsOfPrefix(p[1..], k - 1);
      assert p[..k][1..] == p[1..][..k - 1];
    }
  }

  lemma LeadingPrimsIs(p: Path, n: nat)
    requires n <= |p| && (forall i :: 0 <= i < n ==> p[i].Prim?) && (n < |p| ==> !p[n].Prim?)
    ensures LeadingPrims(p) == n
  {
  }

  /** Without variant selections the owning prim is the path's own prim. */
  lemma {:induction false} PrimPathWithoutVariants(p: Path)
    requires SpecPathForm(p) && forall i :: 0 <= i < |p| ==> !p[i].Variant?
    ensures GetPrimPath(p) == OwningPrim(p)
  {
    var n := LeadingPrims(p);
    if n == |p| {
    } else {
      var q := Parent(p);
      assert p[n].Property?;
      assert p[|p| - 1].Property?;
      LeadingPrimsIs(q, n);
      PrimPathWithoutVariants(q);
    }
  }

  /** The owning prim of a spec path, as the scan over its prefixes finds it. */
  method FindOwningPrim(specPath: Path) returns (prim: Path)
    requires SpecPathForm(specPath)
    ensures prim == OwningPrim(specPath)
  {
    for k := 1 to |specPath| + 1
      invariant forall i :: 0 <= i < k - 1 ==> !specPath[i].Variant?
    {
      var prefix := specPath[..k];
      if prefix[k - 1].Variant? {
        prim := GetPrimPath(prefix);
        assert Parent(prefix) == specPath[..k - 1];
        assert specPath[k - 1] == prefix[k - 1];
        LeadingPrimsIs(specPath, k - 1);
        assert k > 1 ==> Parent(prefix)[k - 2].Prim?;
        assert GetPrimPath(Parent(prefix)) == Parent(prefix);
        return;
      }
    }
    prim := GetPrimPath(specPath);
    PrimPathWithoutVariants(specPath);
  }

  /** The layer prims that one event may write, if they are known. */
  method EventPaths(event: Event) returns (paths: Option<seq<Path>>)
    requires SpecPathsFormed(event)
    ensures paths == ScopeOf(event)
  {
    if event.kind.SetStageMetadata? || event.kind.ReplaceSdfLayerContent? || event.kind.SetSublayers? {
      return None;
    }
    if event.kind.SetSdfSpecFields? || event.kind.EraseTimeSamples? {
      if event.spec.layerKind || event.spec.path == None {
        return None;
      }
      var primPath := FindOwningPrim(event.spec.path.value);
      return if primPath == ROOT then None else Some([primPath]);
    }
    if event.prim == None || event.prim == Some(ROOT) {
      return None;
    }
    if event.kind.RenamePrim? {
      return if event.newName == "" then None else Some([event.prim.value, RenamedTo(event)]);
    }
    if event.kind.SetConnectableConnection? {
      return Some([event.prim.value] + Sources(event.sources));
    }
    paths := Some([event.prim.value]);
  }

  method AtomicApplyPrimPaths(events: seq<Event>) returns (result: Option<seq<Path>>)
    requires forall e <- events :: SpecPathsFormed(e)
    ensures result == ScopeOfBatch(events)
  {
    var paths: seq<Path> := [];
    for n := 0 to |events|
      invariant ScopeOfBatch(events[..n]) == Some(paths)
    {
      assert events[n] in events;
      TakeNext(events, n);
      var own := EventPaths(events[n]);
      if own == None {
        NoScopeStays(events, n + 1);
        return None;
      }
      paths := paths + own.value;
    }
    TakeAll(events);
    result := Some(paths);
  }

  // ---------------------------------------------------------------- what the scope covers

  lemma {:induction false} OwnersStartAfterPrims(p: Path)
    ensures forall o <- VariantOwners(p) :: |o| >= LeadingPrims(p)
  {
    forall o | o in VariantOwners(p) ensures |o| >= LeadingPrims(p) {
      assert p[|o|].Variant?;
    }
  }

  /** A scoped event writes only in a subtree of its own scope or at a missing ancestor of one. */
  lemma EventCovered(e: Event, l: Specs, x: Path)
    requires ScopeOf(e).Some? && WritesBelow(e, l, x)
    ensures exists i :: 0 <= i < |ScopeOf(e).value| && Reaches(l, ScopeOf(e).value[i], x)
  {
    var scope := ScopeOf(e).value;
    if IsSpecKind(e.kind) {
      SpecEventCovered(e, l, x);
      assert Reaches(l, scope[0], x);
    } else if Removes(e, x) {
      assert Reaches(l, scope[0], x);
    } else if t :| t in Filled(e) && Under(t, x) && x !in l {
      assert scope[1] == t && Reaches(l, scope[1], x);
    } else {
      var t :| t in Touched(e) && (OwnPart(t, x) || (Under(x, t) && x !in l));
      var i :| 0 <= i < |scope| && scope[i] == t;
      assert Reaches(l, scope[i], x);
    }
  }

  lemma SpecEventCovered(e: Event, l: Specs, x: Path)
    requires IsSpecKind(e.kind)
    requires ScopeOf(e).Some? && WritesBelow(e, l, x)
    ensures Reaches(l, OwningPrim(e.spec.path.value), x)
  {
    var p, owner := e.spec.path.value, OwningPrim(e.spec.path.value);
    if Removes(e, x) {
      OwnerOfRemoved(p, x);
    } else {
      var t :| t in Touched(e) && (OwnPart(t, x) || (Under(x, t) && x !in l));
      OwnerOfTouched(p, t);
      ReachedFromBelow(l, owner, t, x);
    }
  }

  lemma OwnerOfTouched(p: Path, t: Path)
    requires t == p || t in VariantOwners(p)
    ensures Under(OwningPrim(p), t)
  {
    OwnersStartAfterPrims(p);
    assert t == p[..|t|];
    assert t[..LeadingPrims(p)] == p[..LeadingPrims(p)];
  }

  lemma ReachedFromBelow(l: Specs, p: Path, t: Path, x: Path)
    requires Under(p, t) && (Under(t, x) || (Under(x, t) && x !in l))
    ensures Reaches(l, p, x)
  {
    if Under(t, x) {
      UnderTransitive(p, t, x);
    } else if |p| <= |x| {
      UnderComparable(p, x, t);
    } else {
      UnderComparable(x, p, t);
    }
  }

  lemma OwnerOfRemoved(p: Path, x: Path)
    requires GoesWith(p, x)
    ensures Under(OwningPrim(p), x)
  {
    var n := LeadingPrims(p);
    if Under(p, x) {
      UnderTransitive(OwningPrim(p), p, x);
    } else {
      assert n <= |p| - 1;
      assert x[..n] == x[..|p| - 1][..n] == p[..|p| - 1][..n] == p[..n];
    }
  }

  /** x lies in the subtree of p, or is a missing ancestor of p. */
  predicate Reaches(l: Specs, p: Path, x: Path) {
    Under(p, x) || (Under(x, p) && x !in l)
  }

  ghost predicate ReachedByAny(l: Specs, paths: seq<Path>, x: Path) {
    exists i :: 0 <= i < |paths| && Reaches(l, paths[i], x)
  }

  lemma ReachedInConcat(l: Specs, a: seq<Path>, b: seq<Path>, x: Path)
    requires ReachedByAny(l, a, x) || ReachedByAny(l, b, x)
    ensures ReachedByAny(l, a + b, x)
  {
    if i :| 0 <= i < |a| && Reaches(l, a[i], x) {
      assert Reaches(l, (a + b)[i], x);
    } else {
      var i :| 0 <= i < |b| && Reaches(l, b[i], x);
      assert Reaches(l, (a + b)[|a| + i], x);
    }
  }

  /** All that any event of a scoped batch writes, promoted ancestors aside, is covered by the scope. */
  lemma {:induction false} BatchCovered(events: seq<Event>, e: Event, l: Specs, x: Path)
    requires ScopeOfBatch(events).Some? && e in events
    ensures !LayerWide(e)
    ensures WritesBelow(e, l, x) ==> ReachedByAny(l, ScopeOfBatch(events).value, x)
  {
    var init, last := events[..|events| - 1], events[|events| - 1];
    var before, own := ScopeOfBatch(init).value, ScopeOf(last).value;
    if e == last {
      if WritesBelow(e, l, x) {
        EventCovered(e, l, x);
        ReachedInConcat(l, before, own, x);
      }
    } else {
      assert e in init;
      BatchCovered(init, e, l, x);
      if WritesBelow(e, l, x) {
        ReachedInConcat(l, before, own, x);
      }
    }
  }

  lemma {:induction false} ScopeIsPrims(events: seq<Event>, p: Path)
    requires ScopeOfBatch(events).Some? && p in ScopeOfBatch(events).value
    requires forall e <- events :: WellFormed(e)
    ensures AllPrim(p)
  {
    var init, last := events[..|events| - 1], events[|events| - 1];
    assert last in events;
    if p in ScopeOfBatch(init).value {
      ScopeIsPrims(init, p);
    }
  }
}
