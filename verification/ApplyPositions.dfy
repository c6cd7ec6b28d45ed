/** Where each event of a batch goes, position by position. */
module ApplyPositions {
  import opened Wrappers
  import opened ProtocolEvents
  import opened ApplyOrder

  function Below(k: Slot): Event -> bool { (e: Event) => SlotLess(SlotOf(e), k) }

  /** Where event i runs in its segment: after every smaller slot, and after its own slot's earlier events. */
  function Place(es: seq<Event>, i: nat): nat
    requires i < |es|
  {
    var k := SlotOf(es[i]);
    |Filter(Below(k), es)| + |Filter(HasSlot(k), es[..i])|
  }

  // ---------------------------------------------------------------- slots in an ordered sequence

  /** In slot order, the events of one slot stand right after those of smaller slots. */
  lemma {:induction false} SlotBlock(es: seq<Event>, k: Slot, m: nat)
    requires SlotOrdered(es) && m < |Filter(HasSlot(k), es)|
    ensures |Filter(Below(k), es)| + m < |es|
    ensures es[|Filter(Below(k), es)| + m] == Filter(HasSlot(k), es)[m]
  {
    var rest := es[1..];
    if SlotLess(SlotOf(es[0]), k) {
      SlotBlock(rest, k, m);
    } else {
      FilterNone(Below(k), es);
      FilterNone(Below(k), rest);
      if SlotOf(es[0]) == k {
        if m > 0 {
          SlotBlock(rest, k, m - 1);
        }
      } else {
        FilterNone(HasSlot(k), es);
      }
    }
  }

  lemma {:induction false} SmallerSlotsFit(es: seq<Event>, k': Slot, k: Slot)
    requires SlotLess(k', k)
    ensures |Filter(Below(k'), es)| + |Filter(HasSlot(k'), es)| <= |Filter(Below(k), es)|
  {
    if es != [] {
      SmallerSlotsFit(es[1..], k', k);
    }
  }

  lemma {:induction false} UpTo(es: seq<Event>, k: Slot)
    requires forall i :: 0 <= i < |es| ==> SlotLess(SlotOf(es[i]), k) || SlotOf(es[i]) == k
    ensures |Filter(Below(k), es)| + |Filter(HasSlot(k), es)| == |es|
  {
    if es != [] {
      UpTo(es[1..], k);
    }
  }

  // ---------------------------------------------------------------- one segment

  /** How many elements pass depends only on which elements there are. */
  lemma {:induction false} FilterCounts(p: Event -> bool, s: seq<Event>, x: Event)
    ensures multiset(Filter(p, s))[x] == if p(x) then multiset(s)[x] else 0
  {
    if s != [] {
      FilterCounts(p, s[1..], x);
      HeadTail(s);
      assert multiset([s[0]] + s[1..]) == multiset{s[0]} + multiset(s[1..]);
    }
  }

  lemma FilterSizes(p: Event -> bool, s: seq<Event>, t: seq<Event>)
    requires multiset(s) == multiset(t)
    ensures |Filter(p, s)| == |Filter(p, t)|
  {
    var m, n := multiset(Filter(p, s)), multiset(Filter(p, t));
    forall x: Event ensures m[x] == n[x] {
      FilterCounts(p, s, x);
      FilterCounts(p, t, x);
    }
    assert m == n;
    assert |m| == |Filter(p, s)| && |n| == |Filter(p, t)|;
  }

  lemma SegmentLength(es: seq<Event>)
    ensures |Segment(es)| == |es|
  {
    SegmentMultiset(es);
    assert |multiset(Segment(es))| == |Segment(es)| && |multiset(es)| == |es|;
  }

  /** In an ordered sequence the m-th event of a slot, counted as in another sequence. */
  lemma FoundIn(r: seq<Event>, k: Slot, below: nat, own: seq<Event>, m: nat, e: Event)
    requires SlotOrdered(r) && Filter(HasSlot(k), r) == own && |Filter(Below(k), r)| == below
    requires m < |own| && own[m] == e
    ensures below + m < |r| && r[below + m] == e
  {
    SlotBlock(r, k, m);
  }

  /** A segment's execution is in slot order and holds the same events of each slot. */
  lemma SegmentSlots(es: seq<Event>, k: Slot)
    requires k.rank <= 3
    ensures SlotOrdered(Segment(es)) && Filter(HasSlot(k), Segment(es)) == Filter(HasSlot(k), es)
    ensures |Filter(Below(k), Segment(es))| == |Filter(Below(k), es)|
  {
    SegmentOrdered(es);
    SegmentKeepsSlot(es, HasSlot(k), k);
    SegmentMultiset(es);
    FilterSizes(Below(k), Segment(es), es);
  }

  /** Each event is found at its place. */
  lemma FoundAtPlace(es: seq<Event>, i: nat)
    requires i < |es|
    ensures Place(es, i) < |Segment(es)| && Segment(es)[Place(es, i)] == es[i]
  {
    var k := SlotOf(es[i]);
    SegmentSlots(es, k);
    FilterAt(HasSlot(k), es, i);
    FoundIn(Segment(es), k, |Filter(Below(k), es)|, Filter(HasSlot(k), es), |Filter(HasSlot(k), es[..i])|, es[i]);
  }

  lemma SmallerSlotIsBefore(es: seq<Event>, i: nat, j: nat)
    requires i < |es| && j < |es| && SlotLess(SlotOf(es[j]), SlotOf(es[i]))
    ensures Place(es, j) < Place(es, i)
  {
    FilterAt(HasSlot(SlotOf(es[j])), es, j);
    SmallerSlotsFit(es, SlotOf(es[j]), SlotOf(es[i]));
  }

  lemma SameSlotKeepsOrder(es: seq<Event>, i: nat, j: nat)
    requires i < j < |es| && SlotOf(es[j]) == SlotOf(es[i])
    ensures Place(es, i) < Place(es, j)
  {
    FilterAt(HasSlot(SlotOf(es[j])), es[..j], i);
    assert es[..j][..i] == es[..i];
  }

  /**
   For any two positions of a barrier-free segment, the later event runs before the earlier one exactly when
   its slot is smaller. No two positions share a place, so the places are a permutation.
   */
  lemma LaterRunsFirstIff(es: seq<Event>, i: nat, j: nat)
    requires i < j < |es|
    ensures Place(es, j) < |Segment(es)| && Segment(es)[Place(es, j)] == es[j]
    ensures Place(es, i) < |Segment(es)| && Segment(es)[Place(es, i)] == es[i]
    ensures Place(es, i) != Place(es, j)
    ensures Place(es, j) < Place(es, i) <==> SlotLess(SlotOf(es[j]), SlotOf(es[i]))
  {
    FoundAtPlace(es, i);
    FoundAtPlace(es, j);
    if SlotLess(SlotOf(es[j]), SlotOf(es[i])) {
      SmallerSlotIsBefore(es, i, j);
    } else if SlotOf(es[j]) == SlotOf(es[i]) {
      SameSlotKeepsOrder(es, i, j);
    } else {
      SmallerSlotIsBefore(es, j, i);
    }
  }

  lemma OrderedStays(es: seq<Event>, i: nat)
    requires SlotOrdered(es) && i < |es|
    ensures Place(es, i) == i
  {
    var k := SlotOf(es[i]);
    FilterConcat(Below(k), es[..i], es[i..]);
    assert es == es[..i] + es[i..];
    FilterNone(Below(k), es[i..]);
    UpTo(es[..i], k);
  }

  /** A barrier-free batch runs as it is exactly when it is in slot order. */
  lemma SegmentUnmovedIff(es: seq<Event>)
    ensures Segment(es) == es <==> SlotOrdered(es)
  {
    SegmentOrdered(es);
    SegmentLength(es);
    if SlotOrdered(es) {
      forall i | 0 <= i < |es| ensures Segment(es)[i] == es[i] {
        OrderedStays(es, i);
        FoundAtPlace(es, i);
      }
    }
  }

  // ---------------------------------------------------------------- a batch with barriers

  /** Positions i and j, with no barrier from one to the other, run in the opposite order. */
  ghost predicate Swapped(es: seq<Event>, i: nat, j: nat) {
    i < j < |es| && SlotLess(SlotOf(es[j]), SlotOf(es[i])) && forall k :: i <= k <= j ==> !IsBarrier(es[k])
  }

  ghost predicate StretchesOrdered(es: seq<Event>) {
    forall i, j :: !Swapped(es, i, j)
  }

  lemma StretchesSplit(a: seq<Event>, b: Event, c: seq<Event>)
    requires IsBarrier(b)
    ensures StretchesOrdered(a + [b] + c) <==> StretchesOrdered(a) && StretchesOrdered(c)
  {
    var es, n := a + [b] + c, |a|;
    if StretchesOrdered(es) {
      forall i: nat, j: nat ensures !Swapped(a, i, j) {
        assert Swapped(a, i, j) ==> Swapped(es, i, j);
      }
      forall i: nat, j: nat ensures !Swapped(c, i, j) {
        assert Swapped(c, i, j) ==> Swapped(es, n + 1 + i, n + 1 + j) by {
          assert forall k :: 0 <= k < |c| ==> es[n + 1 + k] == c[k];
          assert forall k :: n + 1 <= k < |es| ==> es[k] == c[k - n - 1];
        }
      }
    }
    if StretchesOrdered(a) && StretchesOrdered(c) {
      forall i: nat, j: nat ensures !Swapped(es, i, j) {
        if Swapped(es, i, j) {
          SwappedOnOneSide(a, b, c, i, j);
        }
      }
    }
  }

  lemma SwappedOnOneSide(a: seq<Event>, b: Event, c: seq<Event>, i: nat, j: nat)
    requires IsBarrier(b) && Swapped(a + [b] + c, i, j)
    ensures Swapped(a, i, j) || (i > |a| && j > |a| && Swapped(c, i - |a| - 1, j - |a| - 1))
  {
    var es, n := a + [b] + c, |a|;
    assert es[n] == b;
    assert !(i <= n <= j);
    if j < n {
      SwappedInSlice(es, a, 0, i, j);
    } else {
      SwappedInSlice(es, c, n + 1, i - n - 1, j - n - 1);
    }
  }

  lemma SwappedInSlice(es: seq<Event>, part: seq<Event>, from: nat, i: nat, j: nat)
    requires from + |part| <= |es| && part == es[from..from + |part|]
    requires j < |part| && Swapped(es, from + i, from + j)
    ensures Swapped(part, i, j)
  {
    forall k | i <= k <= j ensures !IsBarrier(part[k]) {
      assert part[k] == es[from + k];
    }
  }

  lemma ExecutedLength(es: seq<Event>)
    ensures |Executed(es)| == |es|
  {
    ExecutedIsPermutation(es);
    assert |multiset(Executed(es))| == |Executed(es)| && |multiset(es)| == |es|;
  }

  /** A batch runs as it is exactly when no two events of a barrier-free stretch are out of slot order. */
  lemma {:induction false} BatchUnmovedIff(es: seq<Event>)
    ensures Executed(es) == es <==> StretchesOrdered(es)
    decreases |es|
  {
    if NoBarrier(es) {
      ScanWithoutBarrier(es);
      SegmentUnmovedIff(es);
      assert SlotOrdered(es) ==> StretchesOrdered(es);
      if StretchesOrdered(es) {
        forall i, j | 0 <= i < j < |es| ensures !SlotLess(SlotOf(es[j]), SlotOf(es[i])) {
          assert !Swapped(es, i, j);
        }
      }
    } else {
      var n :| 0 <= n < |es| && IsBarrier(es[n]);
      var a, b, c := es[..n], es[n], es[n + 1..];
      assert es == a + [b] + c;
      BarrierSplits(a, b, c);
      StretchesSplit(a, b, c);
      BatchUnmovedIff(a);
      BatchUnmovedIff(c);
      ExecutedLength(a);
      SplitEqual(Executed(a), a, [b], Executed(c), c);
    }
  }

  lemma RunsAlone(e: Event)
    ensures Executed([e]) == [e]
  {
    BatchUnmovedIff([e]);
  }

  lemma SplitEqual(x: seq<Event>, a: seq<Event>, b: seq<Event>, y: seq<Event>, c: seq<Event>)
    requires |x| == |a|
    ensures x + b + y == a + b + c <==> x == a && y == c
  {
    if x + b + y == a + b + c {
      TakeOfConcat(x, b + y);
      TakeOfConcat(a, b + c);
      ConcatAssociates(x, b, y);
      ConcatAssociates(a, b, c);
      assert y == (x + b + y)[|x| + |b|..] && c == (a + b + c)[|a| + |b|..];
    }
  }
}
