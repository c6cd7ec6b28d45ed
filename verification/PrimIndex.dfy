/**
 The emitter's sorted index of known prims beside the plain set it must agree with.

 A subtree purge takes one range of the index, from the prefix to the prefix followed by U+FFFF. Strings
 compare by code point, so that range misses names that start at or above U+FFFF.
 */
module PrimIndex {
  import opened Wrappers

  // ---------------------------------------------------------------- code point order

  predicate Less(a: string, b: string) {
    b != "" && (a == "" || a[0] < b[0] || (a[0] == b[0] && Less(a[1..], b[1..])))
  }

  lemma {:induction false} LessTransitive(a: string, b: string, c: string)
    requires Less(a, b) && !Less(c, b)
    ensures Less(a, c)
  {
    if a != "" && c != "" && a[0] == b[0] == c[0] {
      LessTransitive(a[1..], b[1..], c[1..]);
    }
  }

  lemma {:induction false} LessAsymmetric(a: string, b: string)
    requires Less(a, b)
    ensures !Less(b, a)
  {
    if a != "" && a[0] == b[0] {
      LessAsymmetric(a[1..], b[1..]);
    }
  }

  lemma {:induction false} LessTotal(a: string, b: string)
    ensures a == b || Less(a, b) || Less(b, a)
  {
    if a != "" && b != "" && a[0] == b[0] {
      LessTotal(a[1..], b[1..]);
      assert a == [a[0]] + a[1..] && b == [b[0]] + b[1..];
    }
  }

  const SENTINEL := '\U{FFFF}'

  predicate StartsWith(s: string, prefix: string) {
    |prefix| <= |s| && s[..|prefix|] == prefix
  }

  /** The strings that bisecting at the prefix and at the prefix plus U+FFFF cuts out. */
  predicate InRange(s: string, prefix: string) {
    !Less(s, prefix) && Less(s, prefix + [SENTINEL])
  }

  /** The range holds exactly the extensions of the prefix whose next character is below U+FFFF. */
  lemma {:induction false} RangeIsPrefix(s: string, prefix: string)
    ensures InRange(s, prefix)
       <==> StartsWith(s, prefix) && (s == prefix || s[|prefix|] < SENTINEL)
  {
    if prefix == "" {
      assert prefix + [SENTINEL] == [SENTINEL];
      assert Less(s, [SENTINEL]) <==> s == "" || s[0] < SENTINEL;
      assert s[..0] == "";
    } else {
      var bound := prefix + [SENTINEL];
      assert bound[1..] == prefix[1..] + [SENTINEL];
      if s != "" && s[0] == prefix[0] {
        RangeIsPrefix(s[1..], prefix[1..]);
        assert s == [s[0]] + s[1..] && prefix == [prefix[0]] + prefix[1..];
        assert StartsWith(s, prefix) <==> StartsWith(s[1..], prefix[1..]) by {
          if |prefix| <= |s| {
            assert s[..|prefix|] == [s[0]] + s[1..][..|prefix| - 1];
          }
        }
      } else {
        assert |prefix| <= |s| ==> s[..|prefix|][0] != prefix[0];
      }
    }
  }

  // ---------------------------------------------------------------- the plain set of known prims

  datatype Op =
    | Know(prim: string)
    | Forget(prim: string)
    | Purge(prim: string, includeRoot: bool, includeDescendants: bool)

  /** The prims that one purge removes. */
  function Removed(known: set<string>, op: Op): set<string>
    requires op.Purge?
  {
    (if op.includeDescendants then set s | s in known && InRange(s, op.prim + "/") else {})
    + (if op.includeRoot then {op.prim} else {})
  }

  function Step(known: set<string>, op: Op): set<string> {
    match op
    case Know(p) => known + {p}
    case Forget(p) => known - {p}
    case Purge(_, _, _) => known - Removed(known, op)
  }

  /** What a purge is meant to remove: the descendants, plus the root if asked. */
  function Meant(known: set<string>, op: Op): set<string>
    requires op.Purge?
  {
    (if op.includeDescendants then set s | s in known && StartsWith(s, op.prim + "/") else {})
    + (if op.includeRoot then {op.prim} else {})
  }

  /** A name right below the purged prim starts beyond the range's upper bound. */
  predicate BeyondRange(s: string, prefix: string) {
    StartsWith(s, prefix) && s != prefix && s[|prefix|] >= SENTINEL
  }

  /** A purge removes precisely the descendants if and only if no known child name starts at or above U+FFFF. */
  lemma PurgeIsExactIff(known: set<string>, op: Op)
    requires op.Purge? && op.includeDescendants
    ensures Step(known, op) == known - Meant(known, op)
       <==> forall s :: s in known ==> !BeyondRange(s, op.prim + "/")
  {
    var prefix := op.prim + "/";
    forall s | s in known ensures s in Removed(known, op) <==> s in Meant(known, op) && !BeyondRange(s, prefix) {
      RangeIsPrefix(s, prefix);
    }
    if s :| s in known && BeyondRange(s, prefix) {
      assert s in Step(known, op) && s in Meant(known, op);
    } else {
      assert Step(known, op) == known - Meant(known, op);
    }
  }

  /** A prim named with a supplementary-plane ideograph survives the purge of its parent. */
  lemma SupplementaryChildSurvives()
    ensures var known := {"/A", "/A/\U{20000}"};
      "/A/\U{20000}" in Step(known, Purge("/A", true, true))
      && "/A/\U{20000}" in Meant(known, Purge("/A", true, true))
  {
    var child := "/A/\U{20000}";
    assert "/A" + "/" == "/A/";
    assert child[..3] == "/A/";
    RangeIsPrefix(child, "/A/");
  }

  function MeantStep(known: set<string>, op: Op): set<string> {
    if op.Purge? then known - Meant(known, op) else Step(known, op)
  }

  function RunOps(ops: seq<Op>): set<string> {
    if ops == [] then {} else Step(RunOps(ops[..|ops| - 1]), ops[|ops| - 1])
  }

  function RunMeant(ops: seq<Op>): set<string> {
    if ops == [] then {} else MeantStep(RunMeant(ops[..|ops| - 1]), ops[|ops| - 1])
  }

  predicate BelowSentinel(s: string) {
    forall i :: 0 <= i < |s| ==> s[i] < SENTINEL
  }

  lemma {:induction false} RunKnows(ops: seq<Op>)
    requires forall i :: 0 <= i < |ops| ==> BelowSentinel(ops[i].prim)
    ensures forall s :: s in RunOps(ops) ==> BelowSentinel(s)
  {
    if ops != [] {
      RunKnows(ops[..|ops| - 1]);
    }
  }

  /** While every name stays below U+FFFF, the ranged purges do over any run what plain purges would do. */
  lemma {:induction false} RunIsMeant(ops: seq<Op>)
    requires forall i :: 0 <= i < |ops| ==> BelowSentinel(ops[i].prim)
    ensures RunOps(ops) == RunMeant(ops)
  {
    if ops != [] {
      var init, op := ops[..|ops| - 1], ops[|ops| - 1];
      RunIsMeant(init);
      RunKnows(init);
      if op.Purge? && op.includeDescendants {
        PurgeIsExactIff(RunOps(init), op);
      }
    }
  }

  // ---------------------------------------------------------------- the sorted index

  ghost predicate StrictlySorted(a: seq<string>) {
    forall i, j :: 0 <= i < j < |a| ==> Less(a[i], a[j])
  }

  /** Leftmost insertion point. */
  method BisectLeft(a: seq<string>, x: string) returns (lo: nat)
    requires StrictlySorted(a)
    ensures lo <= |a|
    ensures forall i :: 0 <= i < lo ==> Less(a[i], x)
    ensures forall i :: lo <= i < |a| ==> !Less(a[i], x)
  {
    lo := 0;
    var hi := |a|;
    while lo < hi
      invariant lo <= hi <= |a|
      invariant forall i :: 0 <= i < lo ==> Less(a[i], x)
      invariant forall i :: hi <= i < |a| ==> !Less(a[i], x)
    {
      var mid := (lo + hi) / 2;
      if Less(a[mid], x) {
        forall i | 0 <= i < mid ensures Less(a[i], x) {
          LessAsymmetric(a[i], a[mid]);
          SortedBelow(a[i], a[mid], x);
        }
        lo := mid + 1;
      } else {
        forall i | mid < i < |a| ensures !Less(a[i], x) {
          if Less(a[i], x) {
            SortedBelow(a[mid], a[i], x);
          }
        }
        hi := mid;
      }
    }
  }

  lemma SortedBelow(a: string, b: string, c: string)
    requires Less(a, b) && Less(b, c)
    ensures Less(a, c)
  {
    LessAsymmetric(b, c);
    LessTransitive(a, b, c);
  }

  class KnownPrims {
    var knownPrims: set<string>
    var knownIndex: seq<string>
    var primCache: map<string, int>
    var dirty: set<string>

    /** The index is sorted, duplicate-free, and holds exactly the known prims. */
    ghost predicate Valid()
      reads this
    {
      StrictlySorted(knownIndex) && forall s :: s in knownPrims <==> s in knownIndex
    }

    constructor ()
      ensures Valid() && knownPrims == {} && primCache == map[] && dirty == {}
    {
      knownPrims, knownIndex, primCache, dirty := {}, [], map[], {};
    }

    method KnowPrim(prim: string)
      requires Valid()
      modifies this`knownPrims, this`knownIndex
      ensures Valid() && knownPrims == Step(old(knownPrims), Know(prim))
    {
      if prim !in knownPrims {
        var at := BisectLeft(knownIndex, prim);
        InsertSorted(knownIndex, prim, at);
        knownPrims := knownPrims + {prim};
        knownIndex := knownIndex[..at] + [prim] + knownIndex[at..];
      }
    }

    method ForgetPrim(prim: string)
      requires Valid()
      modifies this`knownPrims, this`knownIndex
      ensures Valid() && knownPrims == Step(old(knownPrims), Forget(prim))
    {
      if prim in knownPrims {
        var at := BisectLeft(knownIndex, prim);
        FoundSorted(knownIndex, prim, at);
        CutSorted(knownIndex, at, at + 1);
        knownPrims := knownPrims - {prim};
        knownIndex := knownIndex[..at] + knownIndex[at + 1..];
      }
    }

    /** Cut the descendants' range out of the index and return it. */
    method CutDescendants(prim: string) returns (paths: seq<string>)
      requires Valid()
      modifies this`knownPrims, this`knownIndex
      ensures Valid() && knownPrims == Step(old(knownPrims), Purge(prim, false, true))
      ensures forall s :: s in paths <==> s in Removed(old(knownPrims), Purge(prim, false, true))
    {
      var prefix := prim + "/";
      var lo := BisectLeft(knownIndex, prefix);
      var hi := BisectLeft(knownIndex, prefix + [SENTINEL]);
      BoundsOrdered(knownIndex, prefix, lo, hi);
      CutRange(knownIndex, prefix, lo, hi);
      CutSorted(knownIndex, lo, hi);
      paths := knownIndex[lo..hi];
      knownIndex := knownIndex[..lo] + knownIndex[hi..];
      knownPrims := knownPrims - set s | s in paths;
    }

    /** Forget the cached state of each path. */
    method DropCaches(paths: seq<string>)
      modifies this`primCache, this`dirty
      ensures primCache == old(primCache) - (set s | s in paths)
      ensures dirty == old(dirty) - (set s | s in paths)
    {
      for i := 0 to |paths|
        invariant primCache == old(primCache) - (set s | s in paths[..i])
        invariant dirty == old(dirty) - (set s | s in paths[..i])
      {
        primCache := primCache - {paths[i]};
        dirty := dirty - {paths[i]};
        TakeNext(paths, i);
      }
      TakeAll(paths);
    }

    method PurgeCaches(prim: string, includeRoot: bool, includeDescendants: bool)
      requires Valid()
      modifies this
      ensures Valid()
      ensures var op := Purge(prim, includeRoot, includeDescendants);
        && knownPrims == Step(old(knownPrims), op)
        && primCache == old(primCache) - Removed(old(knownPrims), op)
        && dirty == old(dirty) - Removed(old(knownPrims), op)
    {
      ghost var removed := Removed(knownPrims, Purge(prim, includeRoot, includeDescendants));
      var paths: seq<string> := [];
      if includeDescendants {
        paths := CutDescendants(prim);
      }
      if includeRoot {
        ForgetPrim(prim);
        paths := paths + [prim];
      }
      assert (set s | s in paths) == removed;
      DropCaches(paths);
    }
  }

  lemma InsertSorted(a: seq<string>, x: string, at: nat)
    requires StrictlySorted(a) && at <= |a| && x !in a
    requires forall i :: 0 <= i < at ==> Less(a[i], x)
    requires forall i :: at <= i < |a| ==> !Less(a[i], x)
    ensures StrictlySorted(a[..at] + [x] + a[at..])
  {
    forall i | at <= i < |a| ensures Less(x, a[i]) {
      LessTotal(a[i], x);
      assert a[i] in a;
    }
    var r := a[..at] + [x] + a[at..];
    forall i, j | 0 <= i < j < |r| ensures Less(r[i], r[j]) {
      assert r[i] == if i < at then a[i] else if i == at then x else a[i - 1];
      assert r[j] == if j < at then a[j] else if j == at then x else a[j - 1];
    }
  }

  lemma FoundSorted(a: seq<string>, x: string, at: nat)
    requires StrictlySorted(a) && at <= |a| && x in a
    requires forall i :: 0 <= i < at ==> Less(a[i], x)
    requires forall i :: at <= i < |a| ==> !Less(a[i], x)
    ensures at < |a| && a[at] == x
  {
    var k :| 0 <= k < |a| && a[k] == x;
    if k < at {
      LessAsymmetric(a[k], x);
    }
  }

  lemma SliceHolds(a: seq<string>, lo: nat, hi: nat, k: nat)
    requires lo <= k < hi <= |a|
    ensures a[k] in a[lo..hi]
  {
    assert a[lo..hi][k - lo] == a[k];
  }

  lemma CutSorted(a: seq<string>, lo: nat, hi: nat)
    requires StrictlySorted(a) && lo <= hi <= |a|
    ensures StrictlySorted(a[..lo] + a[hi..])
    ensures forall s :: s in a[..lo] + a[hi..] <==> s in a && s !in a[lo..hi]
  {
    var r := a[..lo] + a[hi..];
    forall i | 0 <= i < |r| ensures r[i] == if i < lo then a[i] else a[i + hi - lo] {
    }
    forall s ensures s in r <==> s in a && s !in a[lo..hi] {
      if s in a[lo..hi] {
        var k :| lo <= k < hi && a[k] == s;
        forall i | 0 <= i < |a| && i != k ensures a[i] != s {
          if i < k { LessAsymmetric(a[i], a[k]); } else { LessAsymmetric(a[k], a[i]); }
        }
      } else if s in a {
        var k :| 0 <= k < |a| && a[k] == s;
        if lo <= k < hi {
          SliceHolds(a, lo, hi, k);
        }
        assert r[if k < lo then k else k - (hi - lo)] == s;
      }
    }
  }

  lemma CutRange(a: seq<string>, prefix: string, lo: nat, hi: nat)
    requires StrictlySorted(a) && lo <= |a| && hi <= |a|
    requires forall i :: 0 <= i < lo ==> Less(a[i], prefix)
    requires forall i :: lo <= i < |a| ==> !Less(a[i], prefix)
    requires forall i :: 0 <= i < hi ==> Less(a[i], prefix + [SENTINEL])
    requires forall i :: hi <= i < |a| ==> !Less(a[i], prefix + [SENTINEL])
    requires lo <= hi
    ensures forall s :: s in a[lo..hi] <==> s in a && InRange(s, prefix)
  {
    forall s | s in a && InRange(s, prefix) ensures s in a[lo..hi] {
      var k :| 0 <= k < |a| && a[k] == s;
      SliceHolds(a, lo, hi, k);
    }
    forall s | s in a[lo..hi] ensures s in a && InRange(s, prefix) {
      var k :| lo <= k < hi && a[k] == s;
    }
  }

  lemma BoundsOrdered(a: seq<string>, prefix: string, lo: nat, hi: nat)
    requires lo <= |a| && hi <= |a|
    requires forall i :: 0 <= i < lo ==> Less(a[i], prefix)
    requires forall i :: hi <= i < |a| ==> !Less(a[i], prefix + [SENTINEL])
    ensures lo <= hi
  {
    if hi < lo {
      PrefixBelowBound(prefix);
      SortedBelow(a[hi], prefix, prefix + [SENTINEL]);
    }
  }

  lemma {:induction false} PrefixBelowBound(prefix: string)
    ensures Less(prefix, prefix + [SENTINEL])
  {
    if prefix != "" {
      assert (prefix + [SENTINEL])[1..] == prefix[1..] + [SENTINEL];
      PrefixBelowBound(prefix[1..]);
    }
  }
}
