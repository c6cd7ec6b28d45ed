/**
 Scoped rollback of a layer.

 A layer is a prefix-closed map from spec paths to spec data. The rollback context saves the subtrees of
 the scope paths that exist on entry and remembers, for the others, the topmost missing ancestor.
 Copying a spec replaces a whole subtree and needs the destination's parent. Whether a copy that misses
 its parent raises or is skipped is the layer library's choice, so it is a parameter here.
 */
module LayerRollback {
  import opened Wrappers
  import opened SpecPaths

  /** A freshly created spec is an empty `over`; beyond the specifier, what a spec holds is opaque. */
  datatype SpecData = Over | Authored(isDef: bool, content: int)

  type Specs = map<Path, SpecData>

  // ---------------------------------------------------------------- layers

  ghost predicate PrefixClosed(l: Specs) {
    ROOT in l && forall p, k :: p in l && 0 <= k <= |p| ==> p[..k] in l
  }

  /** Ancestors of a present path are present. */
  lemma AncestorPresent(l: Specs, a: Path, x: Path)
    requires PrefixClosed(l) && x in l && Under(a, x)
    ensures a in l
  {
  }

  /** The layers agree on x: both lack it, or both hold the same data there. */
  predicate SameAt(a: Specs, b: Specs, x: Path) {
    (x in a <==> x in b) && (x in a ==> a[x] == b[x])
  }

  lemma SameEverywhere(a: Specs, b: Specs)
    requires forall x :: SameAt(a, b, x)
    ensures a == b
  {
    forall x ensures x in a <==> x in b {
      assert SameAt(a, b, x);
    }
    forall x | x in a ensures a[x] == b[x] {
      assert SameAt(a, b, x);
    }
  }

  /** The destination with the source's subtree at p in place of its own. */
  function CopySubtree(src: Specs, dst: Specs, p: Path): (r: Specs)
    ensures forall x :: if Under(p, x) then SameAt(r, src, x) else SameAt(r, dst, x)
  {
    map x | x in src.Keys + dst.Keys && (if Under(p, x) then x in src else x in dst)
      :: if Under(p, x) then src[x] else dst[x]
  }

  function DeleteSubtree(l: Specs, p: Path): (r: Specs)
    ensures forall x :: if Under(p, x) then x !in r else SameAt(r, l, x)
  {
    map x | x in l && !Under(p, x) :: l[x]
  }

  /** The layer with missing specs created from the root down to p. */
  function CreatePrim(l: Specs, p: Path): (r: Specs)
    ensures forall x :: x in r <==> x in l || Under(x, p)
    ensures forall x :: x in l ==> r[x] == l[x]
  {
    var created := map k | 0 <= k <= |p| :: p[..k] := Over;
    assert forall x :: x in created <==> Under(x, p) by {
      forall x | Under(x, p) ensures x in created { assert p[..|x|] == x; }
    }
    created + l
  }

  // ---------------------------------------------------------------- entry

  datatype Plan = Plan(saved: seq<Path>, created: seq<Path>)

  predicate Covered(plan: Plan, p: Path) {
    UnderAny(plan.saved, p) || UnderAny(plan.created, p)
  }

  /** Topmost missing ancestor of a missing path. */
  function ClimbRoot(l: Specs, p: Path): (r: Path)
    requires p !in l && ROOT in l
    ensures r != ROOT && r !in l && Parent(r) in l && Under(r, p)
    decreases |p|
  {
    if Parent(p) in l then p
    else
      UnderTransitive(ClimbRoot(l, Parent(p)), Parent(p), p);
      ClimbRoot(l, Parent(p))
  }

  function PlanOne(l: Specs, plan: Plan, p: Path): Plan
    requires ROOT in l
  {
    if Covered(plan, p) then plan
    else if p in l then plan.(saved := plan.saved + [p])
    else plan.(created := plan.created + [ClimbRoot(l, p)])
  }

  function PlanFor(l: Specs, paths: seq<Path>): Plan
    requires ROOT in l
  {
    if paths == [] then Plan([], []) else PlanOne(l, PlanFor(l, paths[..|paths| - 1]), paths[|paths| - 1])
  }

  ghost predicate PlanValid(l: Specs, plan: Plan)
    requires ROOT in l
  {
    && (forall i :: 0 <= i < |plan.saved| ==> plan.saved[i] in l)
    && (forall i :: 0 <= i < |plan.created| ==>
          plan.created[i] != ROOT && plan.created[i] !in l && Parent(plan.created[i]) in l)
    && (forall i, j :: 0 <= i < j < |plan.saved| ==> !Under(plan.saved[i], plan.saved[j]))
  }

  lemma {:induction false} PlanIsValid(l: Specs, paths: seq<Path>)
    requires PrefixClosed(l)
    ensures PlanValid(l, PlanFor(l, paths))
  {
    if paths != [] {
      var plan, p := PlanFor(l, paths[..|paths| - 1]), paths[|paths| - 1];
      PlanIsValid(l, paths[..|paths| - 1]);
      if !Covered(plan, p) && p in l {
        assert forall i :: 0 <= i < |plan.saved| ==> !Under(plan.saved[i], p);
      }
    }
  }

  /** What a block may change for one scope path: its subtree, and whatever is below a missing ancestor. */
  ghost predicate Region(l: Specs, p: Path, x: Path) {
    Under(p, x) || exists k :: 0 <= k < |p| && p[..k] !in l && Under(p[..k], x)
  }

  ghost predicate InScope(l: Specs, paths: seq<Path>, x: Path) {
    exists i :: 0 <= i < |paths| && Region(l, paths[i], x)
  }

  /** On one path's ancestor chain, missing specs lie below present ones. */
  lemma MissingIsDeep(l: Specs, present: Path, missing: Path, p: Path)
    requires PrefixClosed(l) && present in l && missing !in l
    requires Under(present, p) && Under(missing, p)
    ensures |missing| > |present|
  {
    if |missing| <= |present| {
      UnderComparable(missing, present, p);
      AncestorPresent(l, missing, present);
    }
  }

  lemma RegionOfPresent(l: Specs, p: Path, x: Path)
    requires PrefixClosed(l) && p in l
    ensures Region(l, p, x) <==> Under(p, x)
  {
  }

  lemma RegionOfMissing(l: Specs, p: Path, r: Path, x: Path)
    requires PrefixClosed(l) && r != ROOT && r !in l && Parent(r) in l && Under(r, p)
    ensures Region(l, p, x) ==> Under(r, x)
    ensures Under(r, x) && (r == p || |r| < |p|) ==> Region(l, p, x)
  {
    if Under(p, x) {
      UnderTransitive(r, p, x);
    } else if k :| 0 <= k < |p| && p[..k] !in l && Under(p[..k], x) {
      UnderTransitive(Parent(r), r, p);
      MissingIsDeep(l, Parent(r), p[..k], p);
      UnderComparable(r, p[..k], p);
      UnderTransitive(r, p[..k], x);
    }
    if Under(r, x) && |r| < |p| {
      assert p[..|r|] == r;
    }
  }

  /** A covered path's region is already covered. */
  lemma CoveredRegion(l: Specs, plan: Plan, p: Path, x: Path)
    requires PrefixClosed(l) && PlanValid(l, plan) && Covered(plan, p) && Region(l, p, x)
    ensures Covered(plan, x)
  {
    if i :| 0 <= i < |plan.created| && Under(plan.created[i], p) {
      RegionOfMissing(l, p, plan.created[i], x);
    } else {
      var i :| 0 <= i < |plan.saved| && Under(plan.saved[i], p);
      var s := plan.saved[i];
      if Under(p, x) {
        UnderTransitive(s, p, x);
      } else {
        var k :| 0 <= k < |p| && p[..k] !in l && Under(p[..k], x);
        MissingIsDeep(l, s, p[..k], p);
        UnderComparable(s, p[..k], p);
        UnderTransitive(s, p[..k], x);
      }
      assert Under(plan.saved[i], x);
    }
  }

  /** The plan covers exactly the union of the scope paths' regions, whatever their order and nesting. */
  lemma {:induction false} PlanCoversScope(l: Specs, paths: seq<Path>, x: Path)
    requires PrefixClosed(l)
    ensures Covered(PlanFor(l, paths), x) <==> InScope(l, paths, x)
  {
    if paths != [] {
      var init, p := paths[..|paths| - 1], paths[|paths| - 1];
      var plan := PlanFor(l, init);
      PlanIsValid(l, init);
      PlanCoversScope(l, init, x);
      InScopeLast(l, paths, x);
      if Covered(plan, p) {
        if Region(l, p, x) { CoveredRegion(l, plan, p, x); }
      } else if p in l {
        UnderAnyAppend(plan.saved, p, x);
        RegionOfPresent(l, p, x);
      } else {
        UnderAnyAppend(plan.created, ClimbRoot(l, p), x);
        RegionOfMissing(l, p, ClimbRoot(l, p), x);
      }
    }
  }

  lemma InScopeLast(l: Specs, paths: seq<Path>, x: Path)
    requires paths != []
    ensures InScope(l, paths, x) <==>
      InScope(l, paths[..|paths| - 1], x) || Region(l, paths[|paths| - 1], x)
  {
    var init := paths[..|paths| - 1];
    if InScope(l, init, x) {
      var i :| 0 <= i < |init| && Region(l, init[i], x);
      assert Region(l, paths[i], x);
    }
    if i :| 0 <= i < |paths| && Region(l, paths[i], x) {
      assert i < |init| ==> Region(l, init[i], x);
    }
  }

  // ---------------------------------------------------------------- exit

  /** What a copy does when the destination's parent is missing. */
  datatype MissingParent = Raises | Skips

  /** Delete the created subtrees that the block left behind. */
  function RemoveCreated(l: Specs, roots: seq<Path>): Specs {
    if roots == [] then l
    else DeleteSubtree(RemoveCreated(l, roots[..|roots| - 1]), roots[|roots| - 1])
  }

  predicate CanCopyTo(l: Specs, p: Path) {
    p == ROOT || Parent(p) in l
  }

  /** Copy the saved subtrees back in order; the flag says whether every copy was made or skipped. */
  function Restore(l: Specs, backup: Specs, saved: seq<Path>, policy: MissingParent): (r: (Specs, Outcome))
    ensures policy == Skips ==> r.1 == Done
  {
    if saved == [] then (l, Done)
    else
      var (before, outcome) := Restore(l, backup, saved[..|saved| - 1], policy);
      var p := saved[|saved| - 1];
      if outcome == Raised then (before, Raised)
      else if CanCopyTo(before, p) then (CopySubtree(backup, before, p), Done)
      else (before, if policy == Raises then Raised else Done)
  }

  /** The layer after the block raised, from the layer the block left. */
  function Rollback(plan: Plan, backup: Specs, after: Specs, policy: MissingParent): (Specs, Outcome) {
    Restore(RemoveCreated(after, plan.created), backup, plan.saved, policy)
  }

  /** The rollback of the scope after its first n copies. */
  function Copied(
    l: Specs, paths: seq<Path>, backup: Specs, after: Specs, policy: MissingParent, n: nat): (Specs, Outcome)
    requires ROOT in l && n <= |PlanFor(l, paths).saved|
  {
    var plan := PlanFor(l, paths);
    Restore(RemoveCreated(after, plan.created), backup, plan.saved[..n], policy)
  }

  ghost predicate BacksUp(backup: Specs, l: Specs, saved: seq<Path>) {
    forall i, x :: 0 <= i < |saved| && Under(saved[i], x) ==> SameAt(backup, l, x)
  }

  /** The block changed nothing outside the scope paths' regions. */
  ghost predicate Confined(l: Specs, paths: seq<Path>, after: Specs) {
    forall x :: !InScope(l, paths, x) ==> SameAt(after, l, x)
  }

  lemma {:induction false} RemoveCreatedAt(l: Specs, roots: seq<Path>, x: Path)
    ensures if UnderAny(roots, x) then x !in RemoveCreated(l, roots) else SameAt(RemoveCreated(l, roots), l, x)
  {
    if roots != [] {
      var init, p := roots[..|roots| - 1], roots[|roots| - 1];
      RemoveCreatedAt(l, init, x);
      UnderAnyAppend(init, p, x);
      assert init + [p] == roots;
    }
  }

  lemma {:induction false} RemoveCreatedClosed(l: Specs, roots: seq<Path>)
    requires PrefixClosed(l) && forall i :: 0 <= i < |roots| ==> roots[i] != ROOT
    ensures PrefixClosed(RemoveCreated(l, roots))
  {
    if roots != [] {
      RemoveCreatedClosed(l, roots[..|roots| - 1]);
      DeleteClosed(RemoveCreated(l, roots[..|roots| - 1]), roots[|roots| - 1]);
    }
  }

  lemma DeleteClosed(l: Specs, p: Path)
    requires PrefixClosed(l) && p != ROOT
    ensures PrefixClosed(DeleteSubtree(l, p))
  {
    var r := DeleteSubtree(l, p);
    forall q, k | q in r && 0 <= k <= |q| ensures q[..k] in r {
      if Under(p, q[..k]) {
        UnderTransitive(p, q[..k], q);
      }
      assert q in l;
    }
  }

  /** Outside the saved subtrees, restoring changes nothing. */
  lemma {:induction false} RestoreOutside(l: Specs, backup: Specs, saved: seq<Path>, policy: MissingParent, x: Path)
    requires !UnderAny(saved, x)
    ensures SameAt(Restore(l, backup, saved, policy).0, l, x)
  {
    if saved != [] {
      var init, p := saved[..|saved| - 1], saved[|saved| - 1];
      UnderAnyAppend(init, p, x);
      assert init + [p] == saved;
      RestoreOutside(l, backup, init, policy, x);
    }
  }
}
