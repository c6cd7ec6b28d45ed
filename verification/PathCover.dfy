/** Prim paths as strings, and the smallest set of roots that covers a set of paths. */
module PathCover {
  import opened Wrappers
  import opened PrimIndex

  // ---------------------------------------------------------------- at or below

  function RStrip(s: string): string {
    if s != "" && s[|s| - 1] == '/' then RStrip(s[..|s| - 1]) else s
  }

  predicate AtOrBelow(path: string, root: string) {
    root == "/" || path == root || StartsWith(path, RStrip(root) + "/")
  }

  /** The text of an absolute prim path: the pseudo-root, or no separator at the end. */
  predicate IsPath(s: string) {
    s == "/" || (s != "" && s[0] == '/' && s[|s| - 1] != '/')
  }

  lemma BelowTransitive(q: string, p: string, r: string)
    requires IsPath(p) && IsPath(r)
    requires AtOrBelow(q, p) && AtOrBelow(p, r)
    ensures AtOrBelow(q, r)
  {
    if q != p && p != r && r != "/" {
      assert RStrip(p) == p && RStrip(r) == r;
      assert q[..|r| + 1] == q[..|p| + 1][..|r| + 1] == p[..|r| + 1];
    }
  }

  /** Two roots above one path are themselves one above the other. */
  lemma RootsAreNested(p: string, r: string, s: string)
    requires IsPath(r) && IsPath(s)
    requires AtOrBelow(p, r) && AtOrBelow(p, s)
    ensures AtOrBelow(r, s) || AtOrBelow(s, r)
  {
    if r != "/" && s != "/" {
      assert RStrip(r) == r && RStrip(s) == s;
      assert r == p[..|r|] by { assert p == r || p[..|r| + 1][..|r|] == r; }
      assert s == p[..|s|] by { assert p == s || p[..|s| + 1][..|s|] == s; }
      if |r| < |s| {
        assert p[..|r| + 1] == r + "/";
        assert s[..|r| + 1] == p[..|r| + 1];
      } else if |s| < |r| {
        assert p[..|s| + 1] == s + "/";
        assert r[..|s| + 1] == p[..|s| + 1];
      }
    }
  }

  // ---------------------------------------------------------------- the processing order

  /** Fewer separators first, then code point order. */
  predicate Before(a: string, b: string) {
    CountSlashes(a) < CountSlashes(b) || (CountSlashes(a) == CountSlashes(b) && Less(a, b))
  }

  /** A root comes before every path strictly below it. */
  lemma RootComesFirst(path: string, root: string)
    requires IsPath(path) && IsPath(root) && path != root && AtOrBelow(path, root)
    ensures Before(root, path) && |root| < |path|
  {
    if root == "/" {
      CountSlashesConcat(path[..1], path[1..]);
      assert path == path[..1] + path[1..] && path[..1] == "/";
      assert Less(root[1..], path[1..]);
    } else {
      assert RStrip(root) == root;
      CountSlashesConcat(root, "/");
      CountSlashesConcat(root + "/", path[|root| + 1..]);
      assert path == root + "/" + path[|root| + 1..];
      assert CountSlashes("/") == 1;
    }
  }

  ghost predicate Sorted(s: seq<string>) {
    forall i, j :: 0 <= i < j < |s| ==> !Before(s[j], s[i])
  }

  lemma NotBeforeTransitive(a: string, b: string, c: string)
    requires !Before(b, a) && !Before(c, b)
    ensures !Before(c, a)
  {
    if Less(c, a) && !Less(b, a) {
      LessTransitive(c, a, b);
    }
  }

  function Insert(x: string, s: seq<string>): (r: seq<string>)
    ensures forall y :: y in r <==> y == x || y in s
    ensures Sorted(s) ==> Sorted(r)
  {
    if s == [] || Before(x, s[0]) then
      var r := [x] + s;
      assert Sorted(s) ==> Sorted(r) by {
        if Sorted(s) && s != [] {
          assert !Before(s[0], x) by { BeforeAsymmetric(x, s[0]); }
          forall j | 0 <= j < |s| ensures !Before(s[j], x) {
            if j > 0 { NotBeforeTransitive(x, s[0], s[j]); }
          }
        }
      }
      r
    else
      var rest := Insert(x, s[1..]);
      var r := [s[0]] + rest;
      HeadTail(s);
      assert Sorted(s) ==> Sorted(s[1..]) && forall y <- s[1..] :: !Before(y, s[0]);
      assert Sorted(s) ==> forall y <- rest :: !Before(y, s[0]);
      r
  }

  lemma BeforeAsymmetric(a: string, b: string)
    requires Before(a, b)
    ensures !Before(b, a)
  {
    if Less(a, b) {
      LessAsymmetric(a, b);
    }
  }

  function SortedPaths(paths: seq<string>): (r: seq<string>)
    ensures Sorted(r) && forall y :: y in r <==> y in paths
  {
    if paths == [] then [] else Insert(paths[0], SortedPaths(paths[1..]))
  }

  // ---------------------------------------------------------------- minimal roots

  /** The paths with no other listed path above them. */
  ghost predicate IsMinimal(paths: seq<string>, p: string) {
    p in paths && forall q <- paths :: AtOrBelow(p, q) ==> q == p
  }

  ghost predicate Antichain(roots: set<string>) {
    forall r, s :: r in roots && s in roots && AtOrBelow(r, s) ==> r == s
  }

  ghost predicate Covers(roots: set<string>, path: string) {
    exists r :: r in roots && AtOrBelow(path, r)
  }

  function Elements(paths: seq<string>): set<string> {
    set p | p in paths
  }

  /** A path that no root found so far covers has no listed path above it. */
  lemma UncoveredIsMinimal(paths: seq<string>, ordered: seq<string>, found: seq<string>, i: nat)
    requires forall p <- paths :: IsPath(p)
    requires Sorted(ordered) && forall p :: p in ordered <==> p in paths
    requires i < |ordered| && forall r <- found :: r in paths
    requires forall j :: 0 <= j < i ==> exists r :: r in found && AtOrBelow(ordered[j], r)
    requires !exists r :: r in found && AtOrBelow(ordered[i], r)
    ensures IsMinimal(paths, ordered[i])
  {
    forall q <- paths | AtOrBelow(ordered[i], q) ensures q == ordered[i] {
      if q != ordered[i] {
        RootComesFirst(ordered[i], q);
        var j :| 0 <= j < |ordered| && ordered[j] == q;
        assert j < i;
        var r :| r in found && AtOrBelow(q, r);
        BelowTransitive(ordered[i], q, r);
      }
    }
  }

  method MinimalRoots(paths: seq<string>) returns (result: set<string>)
    requires forall p <- paths :: IsPath(p)
    ensures forall p :: p in result <==> IsMinimal(paths, p)
  {
    var ordered := SortedPaths(paths);
    var found: seq<string> := [];
    for i := 0 to |ordered|
      invariant forall r <- found :: IsMinimal(paths, r)
      invariant forall j :: 0 <= j < i ==> exists r :: r in found && AtOrBelow(ordered[j], r)
    {
      var path := ordered[i];
      if !exists r :: r in found && AtOrBelow(path, r) {
        UncoveredIsMinimal(paths, ordered, found, i);
        found := found + [path];
        assert path in found && forall r :: r in found[..|found| - 1] ==> r in found;
      }
    }
    result := Elements(found);
    forall p | IsMinimal(paths, p) ensures p in result {
      var j :| 0 <= j < |ordered| && ordered[j] == p;
      var r :| r in found && AtOrBelow(ordered[j], r);
    }
  }

  lemma {:induction false} MinimalAbove(paths: seq<string>, p: string) returns (r: string)
    requires forall q <- paths :: IsPath(q)
    requires p in paths
    ensures IsMinimal(paths, r) && AtOrBelow(p, r)
    decreases |p|
  {
    if q :| q in paths && AtOrBelow(p, q) && q != p {
      RootComesFirst(p, q);
      r := MinimalAbove(paths, q);
      BelowTransitive(p, q, r);
    } else {
      r := p;
    }
  }

  /** The minimal roots are no two nested, and cover exactly what the given paths cover. */
  lemma MinimalRootsCoverTheSame(paths: seq<string>, roots: set<string>)
    requires forall q <- paths :: IsPath(q)
    requires forall p :: p in roots <==> IsMinimal(paths, p)
    ensures Antichain(roots)
    ensures forall path :: Covers(roots, path) <==> Covers(Elements(paths), path)
  {
    forall path ensures Covers(roots, path) <==> Covers(Elements(paths), path) {
      if Covers(Elements(paths), path) {
        var q :| q in paths && AtOrBelow(path, q);
        var r := MinimalAbove(paths, q);
        BelowTransitive(path, q, r);
      }
    }
  }
}
