/** The rollback context object: saves on entry, restores in place on an exceptional exit. */
module ScopedAtomicApply {
  import opened Wrappers
  import opened SpecPaths
  import opened LayerRollback
  import opened RollbackLaws

  /** A scene-description layer, edited in place. */
  class Layer {
    var specs: Specs

    ghost predicate Valid()
      reads this
    {
      PrefixClosed(specs)
    }

    constructor Anonymous()
      ensures Valid() && specs == map[ROOT := Over]
    {
      specs := map[ROOT := Over];
    }

    method CreatePrimInLayer(p: Path)
      modifies this
      ensures specs == CreatePrim(old(specs), p)
    {
      specs := CreatePrim(specs, p);
    }
  }

  /** Replace the destination's subtree at p by the source's. */
  method CopySpec(src: Layer, dst: Layer, p: Path, policy: MissingParent) returns (outcome: Outcome)
    requires src != dst
    modifies dst
    ensures CanCopyTo(old(dst.specs), p) ==> outcome == Done && dst.specs == CopySubtree(src.specs, old(dst.specs), p)
    ensures !CanCopyTo(old(dst.specs), p) ==>
      dst.specs == old(dst.specs) && outcome == if policy == Raises then Raised else Done
  {
    if !CanCopyTo(dst.specs, p) {
      return if policy == Raises then Raised else Done;
    }
    dst.specs := CopySubtree(src.specs, dst.specs, p);
    outcome := Done;
  }

  lemma SavedIsNotAbove(plan: Plan, i: nat, x: Path, p: Path)
    requires i < |plan.saved| && Under(plan.saved[i], x) && !Covered(plan, p)
    ensures !Under(x, p)
  {
    if Under(x, p) {
      UnderTransitive(plan.saved[i], x, p);
    }
  }

  /** Saving one more uncovered path keeps the subtrees saved before it. */
  lemma BackupStep(l: Specs, backup: Specs, plan: Plan, p: Path)
    requires PrefixClosed(l) && p in l && !Covered(plan, p)
    requires ROOT in backup && BacksUp(backup, l, plan.saved)
    ensures var b := if p == ROOT then backup else CreatePrim(backup, Parent(p));
      CanCopyTo(b, p) && ROOT in CopySubtree(l, b, p) && BacksUp(CopySubtree(l, b, p), l, plan.saved + [p])
  {
    var b := if p == ROOT then backup else CreatePrim(backup, Parent(p));
    var saved := plan.saved + [p];
    var r := CopySubtree(l, b, p);
    assert SameAt(r, if Under(p, ROOT) then l else b, ROOT);
    forall i, x | 0 <= i < |saved| && Under(saved[i], x) ensures SameAt(r, l, x) {
      if !Under(p, x) {
        assert saved[i] == plan.saved[i];
        assert SameAt(backup, l, x);
        SavedIsNotAbove(plan, i, x, p);
        if p != ROOT && Under(x, Parent(p)) {
          UnderTransitive(x, Parent(p), p);
        }
      }
    }
  }

  lemma DeleteMissing(l: Specs, p: Path)
    requires PrefixClosed(l) && p !in l
    ensures DeleteSubtree(l, p) == l
  {
    forall x ensures SameAt(DeleteSubtree(l, p), l, x) {
      if x in l && Under(p, x) {
        AncestorPresent(l, p, x);
      }
    }
    SameEverywhere(DeleteSubtree(l, p), l);
  }

  class ScopedAtomicApply {
    const layer: Layer
    const paths: seq<Path>
    var backup: Layer
    var saved: seq<Path>
    var createdRoots: seq<Path>
    ghost var entry: Specs

    /** The context holds what it needs to bring the layer back to `entry`. */
    ghost predicate Armed()
      reads this, backup
    {
      && backup != layer
      && PrefixClosed(entry)
      && Plan(saved, createdRoots) == PlanFor(entry, paths)
      && BacksUp(backup.specs, entry, saved)
    }

    constructor (layer: Layer, paths: seq<Path>)
      ensures this.layer == layer && this.paths == paths
      ensures fresh(backup)
    {
      this.layer, this.paths := layer, paths;
      saved, createdRoots, entry := [], [], map[];
      backup := new Layer.Anonymous();
    }

    /** Topmost missing ancestor, found by climbing. */
    method Climb(path: Path) returns (root: Path)
      requires layer.Valid() && path !in layer.specs
      ensures root == ClimbRoot(layer.specs, path)
    {
      root := path;
      while Parent(root) != ROOT && Parent(root) !in layer.specs
        invariant root != ROOT && root !in layer.specs
        invariant ClimbRoot(layer.specs, root) == ClimbRoot(layer.specs, path)
        decreases |root|
      {
        root := Parent(root);
      }
    }

    method Enter()
      requires layer.Valid()
      modifies this
      ensures Armed() && fresh(backup)
      ensures entry == layer.specs
    {
      backup := new Layer.Anonymous();
      saved, createdRoots := [], [];
      entry := layer.specs;
      for i := 0 to |paths|
        invariant fresh(backup) && backup != layer
        invariant entry == layer.specs == old(layer.specs)
        invariant Plan(saved, createdRoots) == PlanFor(entry, paths[..i])
        invariant ROOT in backup.specs && BacksUp(backup.specs, entry, saved)
      {
        var path := paths[i];
        TakeNext(paths, i);
        ghost var plan := Plan(saved, createdRoots);
        if Covered(Plan(saved, createdRoots), path) {
          continue;
        }
        if path in layer.specs {
          BackupStep(entry, backup.specs, plan, path);
          if path != ROOT && Parent(path) != ROOT {
            backup.CreatePrimInLayer(Parent(path));
          } else if path != ROOT {
            assert CreatePrim(backup.specs, Parent(path)) == backup.specs by {
              CreateRoot(backup.specs);
            }
          }
          var copied := CopySpec(layer, backup, path, Raises);
          saved := saved + [path];
        } else {
          var root := Climb(path);
          createdRoots := createdRoots + [root];
        }
      }
      TakeAll(paths);
    }

    method RemoveCreatedRoots()
      requires Armed() && layer.Valid()
      modifies layer
      ensures layer.specs == RemoveCreated(old(layer.specs), createdRoots)
    {
      ghost var after := layer.specs;
      PlanIsValid(entry, paths);
      for i := 0 to |createdRoots|
        invariant layer.specs == RemoveCreated(after, createdRoots[..i])
        invariant layer.Valid()
      {
        var root := createdRoots[i];
        TakeNext(createdRoots, i);
        DeleteClosed(layer.specs, root);
        if root in layer.specs {
          layer.specs := DeleteSubtree(layer.specs, root);
        } else {
          DeleteMissing(layer.specs, root);
        }
      }
      TakeAll(createdRoots);
    }

    method RestoreSaved(policy: MissingParent) returns (outcome: Outcome)
      requires backup != layer
      modifies layer
      ensures (layer.specs, outcome) == Restore(old(layer.specs), backup.specs, saved, policy)
    {
      ghost var base := layer.specs;
      outcome := Done;
      for i := 0 to |saved|
        invariant outcome == Done
        invariant (layer.specs, outcome) == Restore(base, backup.specs, saved[..i], policy)
      {
        TakeNext(saved, i);
        outcome := CopySpec(backup, layer, saved[i], policy);
        if outcome == Raised {
          RestoreStaysRaised(base, backup.specs, saved, policy, i + 1);
          return;
        }
      }
      TakeAll(saved);
    }

    /** Leave the block; after an exception bring the saved and created subtrees back. */
    method Exit(raised: bool, policy: MissingParent) returns (outcome: Outcome)
      requires Armed() && layer.Valid()
      modifies layer
      ensures !raised ==> layer.specs == old(layer.specs) && outcome == Done
      ensures raised ==>
        (layer.specs, outcome) == Rollback(Plan(saved, createdRoots), backup.specs, old(layer.specs), policy)
      ensures raised && outcome == Done && Confined(entry, paths, old(layer.specs)) ==> layer.specs == entry
      ensures raised && policy == Skips ==>
        (layer.specs == entry <==> Confined(entry, paths, old(layer.specs)))
    {
      if !raised {
        return Done;
      }
      ghost var after := layer.specs;
      RemoveCreatedRoots();
      outcome := RestoreSaved(policy);
      if outcome == Done && Confined(entry, paths, after) {
        FinishedRollbackIsExact(entry, paths, backup.specs, after, policy);
      }
      if policy == Skips {
        SkippingRollbackIsExact(entry, paths, backup.specs, after);
      }
    }
  }

  lemma CreateRoot(l: Specs)
    requires ROOT in l
    ensures CreatePrim(l, ROOT) == l
  {
    forall x ensures SameAt(CreatePrim(l, ROOT), l, x) {
    }
    SameEverywhere(CreatePrim(l, ROOT), l);
  }

  lemma {:induction false} RestoreStaysRaised(l: Specs, backup: Specs, saved: seq<Path>, policy: MissingParent, n: nat)
    requires n <= |saved| && Restore(l, backup, saved[..n], policy).1 == Raised
    ensures Restore(l, backup, saved, policy) == Restore(l, backup, saved[..n], policy)
    decreases |saved|
  {
    if n < |saved| {
      assert saved[..|saved| - 1][..n] == saved[..n];
      RestoreStaysRaised(l, backup, saved[..|saved| - 1], policy, n);
    } else {
      assert saved[..n] == saved;
    }
  }
}
