/**
 When a rollback is exact.

 A finished rollback always is, for a block that stays inside the scope. Whether it finishes depends on what a
 copy without a parent does.
 */
module RollbackLaws {
  import opened Wrappers
  import opened SpecPaths
  import opened LayerRollback

  ghost predicate Restored(l: Specs, now: Specs, p: Path) {
    forall x :: Under(p, x) ==> SameAt(now, l, x)
  }

  /** A saved path at or after position n sits strictly above p. */
  ghost predicate AncestorFrom(saved: seq<Path>, n: nat, p: Path) {
    p != ROOT && exists k :: n <= k < |saved| && Under(saved[k], Parent(p))
  }

  /** A path present on entry and when the block ends stays present throughout the rollback. */
  lemma {:induction false} KeptThrough(
    l: Specs, paths: seq<Path>, backup: Specs, after: Specs, policy: MissingParent, n: nat, x: Path)
    requires PrefixClosed(l) && BacksUp(backup, l, PlanFor(l, paths).saved)
    requires n <= |PlanFor(l, paths).saved| && x in l && x in after
    ensures x in Copied(l, paths, backup, after, policy, n).0
  {
    if n == 0 {
      KeptByRemoval(l, paths, after, x);
    } else {
      KeptThrough(l, paths, backup, after, policy, n - 1, x);
      TakeNext(PlanFor(l, paths).saved, n - 1);
      KeptByCopy(l, backup, Copied(l, paths, backup, after, policy, n - 1).0, PlanFor(l, paths).saved, n - 1, x);
    }
  }

  lemma KeptByRemoval(l: Specs, paths: seq<Path>, after: Specs, x: Path)
    requires PrefixClosed(l) && x in l && x in after
    ensures x in RemoveCreated(after, PlanFor(l, paths).created)
  {
    PlanIsValid(l, paths);
    if UnderAny(PlanFor(l, paths).created, x) {
      CreatedIsMissing(l, PlanFor(l, paths), x);
    }
    RemoveCreatedAt(after, PlanFor(l, paths).created, x);
  }

  lemma KeptByCopy(l: Specs, backup: Specs, now: Specs, saved: seq<Path>, i: nat, x: Path)
    requires BacksUp(backup, l, saved) && i < |saved| && x in l && x in now
    ensures x in CopySubtree(backup, now, saved[i])
  {
    if Under(saved[i], x) {
      assert SameAt(backup, l, x);
    }
    assert SameAt(CopySubtree(backup, now, saved[i]), if Under(saved[i], x) then backup else now, x);
  }

  lemma CreatedIsMissing(l: Specs, plan: Plan, x: Path)
    requires PrefixClosed(l) && PlanValid(l, plan) && UnderAny(plan.created, x)
    ensures x !in l
  {
    var i :| 0 <= i < |plan.created| && Under(plan.created[i], x);
    assert x[..|plan.created[i]|] == plan.created[i];
  }

  /** A parent that is missing when its child is copied back was itself saved, and later in the list. */
  lemma MissingParentIsSavedLater(
    l: Specs, paths: seq<Path>, backup: Specs, after: Specs, policy: MissingParent, n: nat)
    requires PrefixClosed(l) && Confined(l, paths, after) && BacksUp(backup, l, PlanFor(l, paths).saved)
    requires n < |PlanFor(l, paths).saved|
    requires !CanCopyTo(Copied(l, paths, backup, after, policy, n).0, PlanFor(l, paths).saved[n])
    ensures AncestorFrom(PlanFor(l, paths).saved, n + 1, PlanFor(l, paths).saved[n])
  {
    var plan := PlanFor(l, paths);
    var s := plan.saved[n];
    PlanIsValid(l, paths);
    AncestorPresent(l, Parent(s), s);
    if !UnderAny(plan.saved, Parent(s)) {
      if UnderAny(plan.created, Parent(s)) {
        CreatedIsMissing(l, plan, Parent(s));
      }
      PlanCoversScope(l, paths, Parent(s));
      assert SameAt(after, l, Parent(s));
      KeptThrough(l, paths, backup, after, policy, n, Parent(s));
    }
    var k :| 0 <= k < |plan.saved| && Under(plan.saved[k], Parent(s));
    if k < n {
      UnderTransitive(plan.saved[k], Parent(s), s);
    }
    assert k > n;
  }

  /** Copying the n-th saved subtree keeps the progress made so far. */
  lemma ProgressByCopy(l: Specs, backup: Specs, before: Specs, now: Specs, saved: seq<Path>, n: nat, j: nat)
    requires j < n <= |saved| && BacksUp(backup, l, saved) && now == CopySubtree(backup, before, saved[n - 1])
    requires j == n - 1 || Restored(l, before, saved[j]) || AncestorFrom(saved, n - 1, saved[j])
    ensures Restored(l, now, saved[j]) || AncestorFrom(saved, n, saved[j])
  {
    var s, q := saved[n - 1], saved[j];
    assert Restored(l, now, s) by {
      forall x | Under(s, x) ensures SameAt(now, l, x) {
        assert SameAt(backup, l, x);
      }
    }
    if j < n - 1 && Restored(l, before, q) {
      forall x | Under(q, x) ensures SameAt(now, l, x) {
        assert SameAt(before, l, x);
      }
    } else if j < n - 1 {
      var k :| n - 1 <= k < |saved| && Under(saved[k], Parent(q));
      if k == n - 1 {
        UnderTransitive(s, Parent(q), q);
        forall x | Under(q, x) ensures SameAt(now, l, x) {
          UnderTransitive(s, q, x);
        }
      }
    }
  }

  /** A skipped n-th copy keeps it too, as a saved ancestor of its path is still to come. */
  lemma ProgressBySkip(l: Specs, before: Specs, saved: seq<Path>, n: nat, j: nat)
    requires j < n <= |saved| && AncestorFrom(saved, n, saved[n - 1])
    requires j == n - 1 || Restored(l, before, saved[j]) || AncestorFrom(saved, n - 1, saved[j])
    ensures Restored(l, before, saved[j]) || AncestorFrom(saved, n, saved[j])
  {
    var s, q := saved[n - 1], saved[j];
    if j < n - 1 && !Restored(l, before, q) {
      var k :| n - 1 <= k < |saved| && Under(saved[k], Parent(q));
      if k == n - 1 {
        var k' :| n <= k' < |saved| && Under(saved[k'], Parent(s));
        UnderTransitive(Parent(s), s, Parent(q));
        UnderTransitive(saved[k'], Parent(s), Parent(q));
      }
    }
  }

  lemma LastCopy(l: Specs, paths: seq<Path>, backup: Specs, after: Specs, policy: MissingParent, n: nat)
    requires ROOT in l && 0 < n <= |PlanFor(l, paths).saved|
    requires Copied(l, paths, backup, after, policy, n).1 == Done
    ensures var before, p := Copied(l, paths, backup, after, policy, n - 1), PlanFor(l, paths).saved[n - 1];
      && before.1 == Done
      && Copied(l, paths, backup, after, policy, n).0
         == if CanCopyTo(before.0, p) then CopySubtree(backup, before.0, p) else before.0
  {
    TakeNext(PlanFor(l, paths).saved, n - 1);
  }

  /** After n copies each saved subtree is back, or a saved ancestor still to come brings it back. */
  lemma {:induction false} RestoreProgress(
    l: Specs, paths: seq<Path>, backup: Specs, after: Specs, policy: MissingParent, n: nat, j: nat)
    requires PrefixClosed(l) && Confined(l, paths, after)
    requires BacksUp(backup, l, PlanFor(l, paths).saved)
    requires j < n <= |PlanFor(l, paths).saved| && Copied(l, paths, backup, after, policy, n).1 == Done
    ensures var saved := PlanFor(l, paths).saved;
      Restored(l, Copied(l, paths, backup, after, policy, n).0, saved[j]) || AncestorFrom(saved, n, saved[j])
  {
    var saved := PlanFor(l, paths).saved;
    var before, now := Copied(l, paths, backup, after, policy, n - 1).0, Copied(l, paths, backup, after, policy, n).0;
    LastCopy(l, paths, backup, after, policy, n);
    if j < n - 1 {
      RestoreProgress(l, paths, backup, after, policy, n - 1, j);
    }
    if CanCopyTo(before, saved[n - 1]) {
      ProgressByCopy(l, backup, before, now, saved, n, j);
    } else {
      MissingParentIsSavedLater(l, paths, backup, after, policy, n - 1);
      ProgressBySkip(l, before, saved, n, j);
    }
  }

  /** A rollback that finishes restores exactly the entry layer. */
  lemma FinishedRollbackIsExact(l: Specs, paths: seq<Path>, backup: Specs, after: Specs, policy: MissingParent)
    requires PrefixClosed(l) && Confined(l, paths, after)
    requires BacksUp(backup, l, PlanFor(l, paths).saved)
    requires Rollback(PlanFor(l, paths), backup, after, policy).1 == Done
    ensures Rollback(PlanFor(l, paths), backup, after, policy).0 == l
  {
    var plan := PlanFor(l, paths);
    var base := RemoveCreated(after, plan.created);
    var now := Restore(base, backup, plan.saved, policy).0;
    PlanIsValid(l, paths);
    TakeAll(plan.saved);
    forall x ensures SameAt(now, l, x) {
      if j :| 0 <= j < |plan.saved| && Under(plan.saved[j], x) {
        RestoreProgress(l, paths, backup, after, policy, |plan.saved|, j);
      } else {
        RestoreOutside(base, backup, plan.saved, policy, x);
        RemoveCreatedAt(after, plan.created, x);
        PlanCoversScope(l, paths, x);
        if UnderAny(plan.created, x) {
          CreatedIsMissing(l, plan, x);
        }
      }
    }
    SameEverywhere(now, l);
  }

  /** What the block changed outside the scope stays changed. */
  lemma UnscopedChangeSurvives(
    l: Specs, paths: seq<Path>, backup: Specs, after: Specs, policy: MissingParent, x: Path)
    requires PrefixClosed(l) && !InScope(l, paths, x)
    ensures SameAt(Rollback(PlanFor(l, paths), backup, after, policy).0, after, x)
  {
    var plan := PlanFor(l, paths);
    PlanCoversScope(l, paths, x);
    RestoreOutside(RemoveCreated(after, plan.created), backup, plan.saved, policy, x);
    RemoveCreatedAt(after, plan.created, x);
  }

  /**
   When a copy without a parent is skipped, rollback restores the entry layer for every order and nesting
   of scope paths, exactly when the block stayed inside the scope.
   */
  lemma SkippingRollbackIsExact(l: Specs, paths: seq<Path>, backup: Specs, after: Specs)
    requires PrefixClosed(l) && BacksUp(backup, l, PlanFor(l, paths).saved)
    ensures Rollback(PlanFor(l, paths), backup, after, Skips).0 == l <==> Confined(l, paths, after)
  {
    if Confined(l, paths, after) {
      FinishedRollbackIsExact(l, paths, backup, after, Skips);
    } else {
      var x :| !InScope(l, paths, x) && !SameAt(after, l, x);
      UnscopedChangeSurvives(l, paths, backup, after, Skips, x);
    }
  }

  // ---------------------------------------------------------------- when a missing parent raises

  /** A saved path comes before a saved ancestor that may take its parent away. */
  ghost predicate LateAncestor(saved: seq<Path>) {
    exists i :: 0 <= i < |saved| && |saved[i]| >= 2 && AncestorFrom(saved, i + 1, saved[i])
  }

  lemma ParentIsKept(l: Specs, paths: seq<Path>, backup: Specs, after: Specs, n: nat)
    requires PrefixClosed(l) && PrefixClosed(after) && BacksUp(backup, l, PlanFor(l, paths).saved)
    requires n < |PlanFor(l, paths).saved|
    requires var s := PlanFor(l, paths).saved[n]; |s| >= 2 ==> Parent(s) in after
    ensures CanCopyTo(Copied(l, paths, backup, after, Raises, n).0, PlanFor(l, paths).saved[n])
  {
    var s := PlanFor(l, paths).saved[n];
    PlanIsValid(l, paths);
    if s != ROOT {
      AncestorPresent(l, Parent(s), s);
      assert |s| == 1 ==> Parent(s) == ROOT;
      KeptThrough(l, paths, backup, after, Raises, n, Parent(s));
    }
  }

  /** A rollback that finds the parent of every saved path below the top level makes every copy. */
  lemma {:induction false} ParentsKeptFinishes(
    l: Specs, paths: seq<Path>, backup: Specs, after: Specs, n: nat)
    requires PrefixClosed(l) && PrefixClosed(after) && BacksUp(backup, l, PlanFor(l, paths).saved)
    requires n <= |PlanFor(l, paths).saved|
    requires forall i :: 0 <= i < n && |PlanFor(l, paths).saved[i]| >= 2 ==> Parent(PlanFor(l, paths).saved[i]) in after
    ensures Copied(l, paths, backup, after, Raises, n).1 == Done
  {
    if n > 0 {
      ParentsKeptFinishes(l, paths, backup, after, n - 1);
      ParentIsKept(l, paths, backup, after, n - 1);
      TakeNext(PlanFor(l, paths).saved, n - 1);
    }
  }

  lemma {:induction false} OrderedRollbackFinishes(
    l: Specs, paths: seq<Path>, backup: Specs, after: Specs, n: nat)
    requires PrefixClosed(l) && PrefixClosed(after) && Confined(l, paths, after)
    requires BacksUp(backup, l, PlanFor(l, paths).saved) && !LateAncestor(PlanFor(l, paths).saved)
    requires n <= |PlanFor(l, paths).saved|
    ensures Copied(l, paths, backup, after, Raises, n).1 == Done
  {
    if n > 0 {
      var saved := PlanFor(l, paths).saved;
      OrderedRollbackFinishes(l, paths, backup, after, n - 1);
      TakeNext(saved, n - 1);
      if !CanCopyTo(Copied(l, paths, backup, after, Raises, n - 1).0, saved[n - 1]) {
        KeptThrough(l, paths, backup, after, Raises, n - 1, ROOT);
        assert |saved[n - 1]| >= 2;
        MissingParentIsSavedLater(l, paths, backup, after, Raises, n - 1);
      }
    }
  }

  /** The block that deletes the parent of a path whose saved ancestor comes later. */
  lemma LateAncestorFails(l: Specs, paths: seq<Path>, backup: Specs) returns (after: Specs)
    requires PrefixClosed(l) && BacksUp(backup, l, PlanFor(l, paths).saved)
    requires LateAncestor(PlanFor(l, paths).saved)
    ensures PrefixClosed(after) && Confined(l, paths, after)
    ensures Rollback(PlanFor(l, paths), backup, after, Raises).1 == Raised
  {
    var plan := PlanFor(l, paths);
    PlanIsValid(l, paths);
    var i :| 0 <= i < |plan.saved| && |plan.saved[i]| >= 2 && AncestorFrom(plan.saved, i + 1, plan.saved[i]);
    var parent := Parent(plan.saved[i]);
    var k :| i + 1 <= k < |plan.saved| && Under(plan.saved[k], parent);
    after := DeleteSubtree(l, parent);
    DeleteClosed(l, parent);
    forall x | !InScope(l, paths, x) ensures SameAt(after, l, x) {
      PlanCoversScope(l, paths, x);
      if Under(parent, x) {
        UnderTransitive(plan.saved[k], parent, x);
      }
    }
    DeletedParentRaises(plan, backup, after, i);
  }

  lemma DeletedParentRaises(plan: Plan, backup: Specs, after: Specs, i: nat)
    requires i < |plan.saved| && |plan.saved[i]| >= 2 && Parent(plan.saved[i]) !in after
    requires forall j :: 0 <= j < i ==> !Under(plan.saved[j], plan.saved[i])
    ensures Rollback(plan, backup, after, Raises).1 == Raised
  {
    var parent := Parent(plan.saved[i]);
    var base := RemoveCreated(after, plan.created);
    RemoveCreatedAt(after, plan.created, parent);
    forall j | 0 <= j < i ensures !Under(plan.saved[j], parent) {
      if Under(plan.saved[j], parent) {
        UnderTransitive(plan.saved[j], parent, plan.saved[i]);
      }
    }
    RestoreOutside(base, backup, plan.saved[..i], Raises, parent);
    TakeNext(plan.saved, i);
    RaisedStays(base, backup, plan.saved, i + 1);
  }

  lemma {:induction false} RaisedStays(l: Specs, backup: Specs, saved: seq<Path>, n: nat)
    requires n <= |saved| && Restore(l, backup, saved[..n], Raises).1 == Raised
    ensures Restore(l, backup, saved, Raises).1 == Raised
    decreases |saved|
  {
    if n < |saved| {
      assert saved[..|saved| - 1][..n] == saved[..n];
      RaisedStays(l, backup, saved[..|saved| - 1], n);
    } else {
      assert saved[..n] == saved;
    }
  }

  /**
   When a copy without a parent raises, every block inside the scope is rolled back exactly if and only if
   no saved path precedes a saved ancestor that can take its parent away.
   */
  lemma RaisingRollbackIsExactIff(l: Specs, paths: seq<Path>, backup: Specs)
    requires PrefixClosed(l) && BacksUp(backup, l, PlanFor(l, paths).saved)
    ensures (forall after :: PrefixClosed(after) && Confined(l, paths, after) ==>
               Rollback(PlanFor(l, paths), backup, after, Raises) == (l, Done))
       <==> !LateAncestor(PlanFor(l, paths).saved)
  {
    var plan := PlanFor(l, paths);
    if LateAncestor(plan.saved) {
      var after := LateAncestorFails(l, paths, backup);
    } else {
      forall after | PrefixClosed(after) && Confined(l, paths, after)
        ensures Rollback(plan, backup, after, Raises) == (l, Done)
      {
        OrderedRollbackFinishes(l, paths, backup, after, |plan.saved|);
        TakeAll(plan.saved);
        FinishedRollbackIsExact(l, paths, backup, after, Raises);
      }
    }
  }
}
