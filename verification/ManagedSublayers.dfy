/** One managed block of sublayers at the front of a stage's session layer. */
module ManagedSublayers {
  import opened Wrappers

  datatype Offset = Offset(shift: real, scale: real)

  const IDENTITY := Offset(0.0, 1.0)

  /** One session sublayer with its offset. */
  datatype Sublayer = Sublayer(path: string, offset: Offset)

  function Unmanaged(ids: set<string>): Sublayer -> bool { (s: Sublayer) => s.path !in ids }

  function Block(paths: seq<string>): (b: seq<Sublayer>)
    ensures |b| == |paths| && forall i :: 0 <= i < |b| ==> b[i] == Sublayer(paths[i], IDENTITY)
  {
    seq(|paths|, i requires 0 <= i < |paths| => Sublayer(paths[i], IDENTITY))
  }

  /** The managed block, then every other sublayer as it was. */
  function Replaced(session: seq<Sublayer>, managed: seq<string>, ids: set<string>): seq<Sublayer> {
    Block(managed) + Filter(Unmanaged(ids), session)
  }

  lemma {:induction false} FilterIsSubset(p: Sublayer -> bool, s: seq<Sublayer>)
    ensures forall x :: x in Filter(p, s) <==> x in s && p(x)
  {
    if s != [] {
      FilterIsSubset(p, s[1..]);
      HeadTail(s);
    }
  }

  lemma RefilledIs(s: seq<Sublayer>, managed: seq<string>, preserved: seq<Sublayer>)
    requires |s| == |managed| + |preserved|
    requires forall j :: 0 <= j < |managed| ==> s[j].path == managed[j] && s[j].offset == IDENTITY
    requires forall j :: 0 <= j < |preserved| ==>
      s[|managed| + j].path == preserved[j].path && s[|managed| + j].offset == preserved[j].offset
    ensures s == Block(managed) + preserved
  {
    forall i | |managed| <= i < |s| ensures s[i] == preserved[i - |managed|] {
      assert s[|managed| + (i - |managed|)] == s[i];
    }
  }

  /** The session layer's parallel path and offset lists. */
  class SessionLayer {
    var subLayerPaths: seq<string>
    var subLayerOffsets: seq<Offset>

    ghost predicate Valid()
      reads this
    {
      |subLayerPaths| == |subLayerOffsets|
    }

    function Sublayers(): (s: seq<Sublayer>)
      requires Valid()
      reads this
      ensures |s| == |subLayerPaths|
      ensures forall i :: 0 <= i < |s| ==> s[i] == Sublayer(subLayerPaths[i], subLayerOffsets[i])
    {
      seq(|subLayerPaths|, i requires 0 <= i < |subLayerPaths| && Valid() reads this
          => Sublayer(subLayerPaths[i], subLayerOffsets[i]))
    }

    constructor ()
      ensures Valid() && Sublayers() == []
    {
      subLayerPaths, subLayerOffsets := [], [];
    }

    /** Appending a path gives it the identity offset. */
    method Append(path: string)
      requires Valid()
      modifies this
      ensures Valid() && subLayerPaths == old(subLayerPaths) + [path]
      ensures subLayerOffsets == old(subLayerOffsets) + [IDENTITY]
    {
      subLayerPaths := subLayerPaths + [path];
      subLayerOffsets := subLayerOffsets + [IDENTITY];
    }

    /** The sublayers to keep, in order. */
    method Preserved(ids: set<string>) returns (preserved: seq<Sublayer>)
      requires Valid()
      ensures preserved == Filter(Unmanaged(ids), Sublayers())
    {
      ghost var before := Sublayers();
      preserved := [];
      for i := 0 to |subLayerPaths|
        invariant preserved == Filter(Unmanaged(ids), before[..i])
      {
        FilterConcat(Unmanaged(ids), before[..i], [before[i]]);
        TakeNext(before, i);
        if subLayerPaths[i] !in ids {
          preserved := preserved + [Sublayer(subLayerPaths[i], subLayerOffsets[i])];
        }
      }
      TakeAll(before);
    }

    /** Fill the empty lists: every new path comes with the identity offset. */
    method AppendAll(paths: seq<string>)
      requires subLayerPaths == [] && subLayerOffsets == []
      modifies this
      ensures Valid() && subLayerPaths == paths
      ensures forall j :: 0 <= j < |paths| ==> subLayerOffsets[j] == IDENTITY
    {
      for i := 0 to |paths|
        invariant Valid() && subLayerPaths == paths[..i]
        invariant forall j :: 0 <= j < i ==> subLayerOffsets[j] == IDENTITY
      {
        TakeNext(paths, i);
        Append(paths[i]);
      }
      TakeAll(paths);
    }

    /** Give the sublayers from position n on the offsets they had. */
    method RestoreOffsets(n: nat, preserved: seq<Sublayer>)
      requires Valid() && |subLayerPaths| == n + |preserved|
      modifies this`subLayerOffsets
      ensures Valid()
      ensures forall j :: 0 <= j < n ==> subLayerOffsets[j] == old(subLayerOffsets)[j]
      ensures forall j :: 0 <= j < |preserved| ==> subLayerOffsets[n + j] == preserved[j].offset
    {
      for i := 0 to |preserved|
        invariant Valid()
        invariant forall j :: 0 <= j < n ==> subLayerOffsets[j] == old(subLayerOffsets)[j]
        invariant forall j :: 0 <= j < i ==> subLayerOffsets[n + j] == preserved[j].offset
      {
        subLayerOffsets := subLayerOffsets[n + i := preserved[i].offset];
      }
    }

    /** Clear both lists and fill them again: all paths, then the offsets of the kept ones. */
    method Refill(managed: seq<string>, preserved: seq<Sublayer>)
      modifies this
      ensures Valid() && Sublayers() == Block(managed) + preserved
    {
      subLayerPaths, subLayerOffsets := [], [];
      AppendAll(managed + Paths(preserved));
      RestoreOffsets(|managed|, preserved);
      RefilledIs(Sublayers(), managed, preserved);
    }

    /** Install the managed block without disturbing unrelated sublayers. */
    method ReplaceManagedSublayers(managed: seq<string>, ids: set<string>)
      requires Valid() && forall p <- managed :: p in ids
      modifies this
      ensures Valid() && Sublayers() == Replaced(old(Sublayers()), managed, ids)
    {
      var preserved := Preserved(ids);
      var newPaths := managed + Paths(preserved);
      if newPaths == subLayerPaths {
        assert Paths(Sublayers()) == subLayerPaths;
        if forall i :: 0 <= i < |managed| ==> subLayerOffsets[i] == IDENTITY {
          UnchangedBlock(Sublayers(), managed, ids);
          return;
        }
      }
      Refill(managed, preserved);
    }
  }

  function Paths(s: seq<Sublayer>): (r: seq<string>)
    ensures |r| == |s| && forall i :: 0 <= i < |r| ==> r[i] == s[i].path
  {
    seq(|s|, i requires 0 <= i < |s| => s[i].path)
  }

  lemma {:induction false} FilterLength(p: Sublayer -> bool, s: seq<Sublayer>)
    ensures |Filter(p, s)| <= |s|
    ensures |Filter(p, s)| == |s| ==> Filter(p, s) == s
  {
    if s != [] { FilterLength(p, s[1..]); }
  }

  /** When the paths already line up and the block has identity offsets, there is nothing to do. */
  lemma UnchangedBlock(before: seq<Sublayer>, managed: seq<string>, ids: set<string>)
    requires forall p <- managed :: p in ids
    requires managed + Paths(Filter(Unmanaged(ids), before)) == Paths(before)
    requires forall i :: 0 <= i < |managed| ==> before[i].offset == IDENTITY
    ensures Replaced(before, managed, ids) == before
  {
    var n := |managed|;
    var head, tail := before[..n], before[n..];
    HeadIsBlock(before, managed, Filter(Unmanaged(ids), before));
    assert before == head + tail;
    assert Filter(Unmanaged(ids), before) == Filter(Unmanaged(ids), tail) by {
      FilterConcat(Unmanaged(ids), head, tail);
      FilterNone(Unmanaged(ids), head);
    }
    FilterLength(Unmanaged(ids), tail);
  }

  lemma HeadIsBlock(before: seq<Sublayer>, managed: seq<string>, kept: seq<Sublayer>)
    requires managed + Paths(kept) == Paths(before)
    requires forall i :: 0 <= i < |managed| ==> before[i].offset == IDENTITY
    ensures |before| == |managed| + |kept|
    ensures before[..|managed|] == Block(managed)
  {
    assert |Paths(before)| == |managed| + |Paths(kept)|;
    forall i | 0 <= i < |managed| ensures before[i] == Sublayer(managed[i], IDENTITY) {
      assert Paths(before)[i] == managed[i];
    }
  }
}
