/** Paths of specs in a scene-description layer. */
module SpecPaths {

  datatype Elem = Prim(name: string) | Variant(variantSet: string, selection: string) | Property(name: string)

  type Path = seq<Elem>

  const ROOT: Path := []

  /** x is at or below root. */
  predicate Under(root: Path, x: Path) {
    |root| <= |x| && x[..|root|] == root
  }

  predicate UnderAny(roots: seq<Path>, x: Path) {
    exists i :: 0 <= i < |roots| && Under(roots[i], x)
  }

  function Parent(p: Path): Path
    requires p != ROOT
  {
    p[..|p| - 1]
  }

  /** The path of a prim names no variant selection and no property. */
  predicate AllPrim(p: Path) {
    forall i :: 0 <= i < |p| ==> p[i].Prim?
  }

  /** Properties come only after prims and variant selections. */
  predicate SpecPathForm(p: Path) {
    forall i, j :: 0 <= i < j < |p| && p[i].Property? ==> p[j].Property?
  }

  lemma UnderTransitive(a: Path, b: Path, c: Path)
    requires Under(a, b) && Under(b, c)
    ensures Under(a, c)
  {
    assert c[..|a|] == c[..|b|][..|a|];
  }

  lemma UnderComparable(a: Path, b: Path, x: Path)
    requires Under(a, x) && Under(b, x) && |a| <= |b|
    ensures Under(a, b)
  {
    assert x[..|b|][..|a|] == x[..|a|];
  }

  lemma UnderAnyAppend(roots: seq<Path>, p: Path, x: Path)
    ensures UnderAny(roots + [p], x) <==> UnderAny(roots, x) || Under(p, x)
  {
    var all := roots + [p];
    if i :| 0 <= i < |roots| && Under(roots[i], x) {
      assert Under(all[i], x);
    }
    assert all[|roots|] == p;
  }
}
