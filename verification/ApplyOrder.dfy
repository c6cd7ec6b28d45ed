/**
 Execution order of a batch.

 Deletes, renames and exact sample edits are barriers and keep their position. Between two barriers, events
 run class by class: creates (shallow first), other structural events, schema-only overs, values.
 */
module ApplyOrder {
  import opened Wrappers
  import opened SpecPaths
  import opened ProtocolEvents

  /** Kinds of the protocol table that are not structural. */
  predicate IsStructural(k: Kind) {
    !(k.SetXformTrs? || k.DeletePrim? || k.DeactivatePrim? || k.RenamePrim? || k.SetVisibility?
      || k.SetGprimAttrs? || k.SetPointInstancer?)
  }

  predicate IsCreateKind(k: Kind) {
    k.EnsurePrim? || k.SetStageMetadata?
  }

  predicate IsApiSchemaOver(e: Event) {
    e.kind.EnsurePrim? && e.typeName == "" && e.apiSchemas != []
  }

  predicate CreatesPrim(e: Event) {
    IsCreateKind(e.kind) && !IsApiSchemaOver(e)
  }

  predicate IsSampleHistoryBarrier(e: Event) {
    e.kind.EraseTimeSamples? || (e.kind.SetSdfSpecFields? && ("timeSamples" in e.spec.fields || e.spec.removed))
  }

  predicate IsBarrier(e: Event) {
    e.kind.DeletePrim? || e.kind.RenamePrim? || IsSampleHistoryBarrier(e)
  }

  /** The number of separators in the prim's path; the root's own path is one. */
  function Depth(e: Event): nat {
    if e.prim == None then 0 else if e.prim == Some(ROOT) then 1 else |e.prim.value|
  }

  /** Where an event runs inside its segment: class first, then depth for creates. */
  datatype Slot = Slot(rank: nat, depth: nat)

  function SlotOf(e: Event): Slot {
    if !IsStructural(e.kind) then Slot(3, 0)
    else if CreatesPrim(e) then Slot(0, Depth(e))
    else if IsApiSchemaOver(e) then Slot(2, 0)
    else Slot(1, 0)
  }

  predicate SlotLess(a: Slot, b: Slot) {
    a.rank < b.rank || (a.rank == b.rank && a.depth < b.depth)
  }

  // ---------------------------------------------------------------- one segment

  function IsStructuralCreate(): Event -> bool { (e: Event) => IsStructural(e.kind) && CreatesPrim(e) }
  function IsModify(): Event -> bool { (e: Event) => IsStructural(e.kind) && !CreatesPrim(e) && !IsApiSchemaOver(e) }
  function IsOver(): Event -> bool { (e: Event) => IsStructural(e.kind) && IsApiSchemaOver(e) }
  function IsValue(): Event -> bool { (e: Event) => !IsStructural(e.kind) }
  function HasSlot(k: Slot): Event -> bool { (e: Event) => SlotOf(e) == k }

  /** Insert after the last event that is at most as deep. */
  function InsertByDepth(es: seq<Event>, e: Event): seq<Event> {
    if es == [] || Depth(es[|es| - 1]) <= Depth(e) then es + [e]
    else InsertByDepth(es[..|es| - 1], e) + [es[|es| - 1]]
  }

  function SortByDepth(es: seq<Event>): seq<Event> {
    if es == [] then [] else InsertByDepth(SortByDepth(es[..|es| - 1]), es[|es| - 1])
  }

  ghost predicate DepthOrdered(es: seq<Event>) {
    forall i, j :: 0 <= i < j < |es| ==> Depth(es[i]) <= Depth(es[j])
  }

  ghost predicate NoDeeper(es: seq<Event>, d: nat) {
    forall i :: 0 <= i < |es| ==> Depth(es[i]) <= d
  }

  lemma {:induction false} InsertNoDeeper(es: seq<Event>, e: Event, d: nat)
    requires NoDeeper(es, d) && Depth(e) <= d
    ensures NoDeeper(InsertByDepth(es, e), d)
  {
    if es != [] && Depth(es[|es| - 1]) > Depth(e) {
      InsertNoDeeper(es[..|es| - 1], e, d);
    }
  }

  lemma {:induction false} InsertOrdered(es: seq<Event>, e: Event)
    requires DepthOrdered(es)
    ensures DepthOrdered(InsertByDepth(es, e))
  {
    if es != [] && Depth(es[|es| - 1]) > Depth(e) {
      var init, last := es[..|es| - 1], es[|es| - 1];
      InsertOrdered(init, e);
      assert forall i :: 0 <= i < |init| ==> init[i] == es[i];
      InsertNoDeeper(init, e, Depth(last));
      var r := InsertByDepth(init, e);
      assert forall i :: 0 <= i < |r| ==> InsertByDepth(es, e)[i] == r[i];
    }
  }

  lemma {:induction false} InsertMultiset(es: seq<Event>, e: Event)
    ensures multiset(InsertByDepth(es, e)) == multiset(es) + multiset{e}
  {
    if es != [] && Depth(es[|es| - 1]) > Depth(e) {
      InsertMultiset(es[..|es| - 1], e);
      InitLast(es);
    }
  }

  lemma {:induction false} SortOrdered(es: seq<Event>)
    ensures DepthOrdered(SortByDepth(es))
  {
    if es != [] {
      SortOrdered(es[..|es| - 1]);
      InsertOrdered(SortByDepth(es[..|es| - 1]), es[|es| - 1]);
    }
  }

  lemma {:induction false} SortMultiset(es: seq<Event>)
    ensures multiset(SortByDepth(es)) == multiset(es)
  {
    if es != [] {
      var init, last := es[..|es| - 1], es[|es| - 1];
      SortMultiset(init);
      InsertMultiset(SortByDepth(init), last);
      InitLast(es);
      assert multiset(init + [last]) == multiset(init) + multiset{last};
    }
  }

  lemma {:induction false} InsertStable(es: seq<Event>, e: Event, p: Event -> bool, d: nat)
    requires forall x :: p(x) ==> Depth(x) == d
    ensures Filter(p, InsertByDepth(es, e)) == Filter(p, es + [e])
  {
    if es == [] || Depth(es[|es| - 1]) <= Depth(e) {
    } else {
      var init, last := es[..|es| - 1], es[|es| - 1];
      InsertStable(init, e, p, d);
      InitLast(es);
      FilterConcat(p, InsertByDepth(init, e), [last]);
      FilterConcat(p, init, [e]);
      FilterConcat(p, es, [e]);
      FilterConcat(p, init, [last]);
    }
  }

  /** Creates of one depth keep their order. */
  lemma {:induction false} SortStable(es: seq<Event>, p: Event -> bool, d: nat)
    requires forall x :: p(x) ==> Depth(x) == d
    ensures Filter(p, SortByDepth(es)) == Filter(p, es)
  {
    if es != [] {
      var init, last := es[..|es| - 1], es[|es| - 1];
      SortStable(init, p, d);
      InsertStable(SortByDepth(init), last, p, d);
      FilterConcat(p, SortByDepth(init), [last]);
      FilterConcat(p, init, [last]);
      InitLast(es);
    }
  }

  /** The order in which one barrier-free segment runs. */
  function Segment(es: seq<Event>): seq<Event> {
    SortByDepth(Filter(IsStructuralCreate(), es))
    + Filter(IsModify(), es) + Filter(IsOver(), es) + Filter(IsValue(), es)
  }

  // ---------------------------------------------------------------- a segment is a stable sort by slot

  lemma {:induction false} FilterTwice(p: Event -> bool, q: Event -> bool, es: seq<Event>)
    requires forall x :: p(x) ==> q(x)
    ensures Filter(p, Filter(q, es)) == Filter(p, es)
  {
    if es != [] {
      FilterTwice(p, q, es[1..]);
      FilterConcat(p, if q(es[0]) then [es[0]] else [], Filter(q, es[1..]));
    }
  }

  lemma {:induction false} FilterDisjoint(p: Event -> bool, q: Event -> bool, es: seq<Event>)
    requires forall x :: p(x) ==> !q(x)
    ensures Filter(p, Filter(q, es)) == []
  {
    if es != [] {
      FilterDisjoint(p, q, es[1..]);
      FilterConcat(p, if q(es[0]) then [es[0]] else [], Filter(q, es[1..]));
    }
  }

  /** The class predicate of a slot's rank. */
  function InRank(r: nat): Event -> bool { (e: Event) => SlotOf(e).rank == r }

  lemma SegmentByRank(es: seq<Event>)
    ensures Segment(es)
         == SortByDepth(Filter(InRank(0), es)) + Filter(InRank(1), es) + Filter(InRank(2), es) + Filter(InRank(3), es)
  {
    FilterSame(IsStructuralCreate(), InRank(0), es);
    FilterSame(IsModify(), InRank(1), es);
    FilterSame(IsOver(), InRank(2), es);
    FilterSame(IsValue(), InRank(3), es);
  }

  lemma FilterRank(p: Event -> bool, k: Slot, r: nat, es: seq<Event>)
    requires forall x :: p(x) ==> SlotOf(x) == k
    ensures Filter(p, Filter(InRank(r), es)) == if r == k.rank then Filter(p, es) else []
  {
    if r == k.rank { FilterTwice(p, InRank(r), es); } else { FilterDisjoint(p, InRank(r), es); }
  }

  /** Events of one slot keep their order, none lost or added. */
  lemma SegmentKeepsSlot(es: seq<Event>, p: Event -> bool, k: Slot)
    requires k.rank <= 3 && forall x :: p(x) ==> SlotOf(x) == k
    ensures Filter(p, Segment(es)) == Filter(p, es)
  {
    SegmentByRank(es);
    var a, b, c, d := Filter(InRank(0), es), Filter(InRank(1), es), Filter(InRank(2), es), Filter(InRank(3), es);
    FilterConcat(p, SortByDepth(a) + b + c, d);
    FilterConcat(p, SortByDepth(a) + b, c);
    FilterConcat(p, SortByDepth(a), b);
    FilterRank(p, k, 0, es);
    FilterRank(p, k, 1, es);
    FilterRank(p, k, 2, es);
    FilterRank(p, k, 3, es);
    if k.rank == 0 {
      SortStable(a, p, k.depth);
    } else {
      SortFiltersNothing(a, p);
    }
    var fa, fb, fc, fd := Filter(p, SortByDepth(a)), Filter(p, b), Filter(p, c), Filter(p, d);
    assert Filter(p, Segment(es)) == fa + fb + fc + fd;
    assert fa + fb + fc + fd == Filter(p, es);
  }

  lemma {:induction false} FilterNothing(p: Event -> bool, es: seq<Event>)
    ensures Filter(p, es) == [] <==> forall x :: x in multiset(es) ==> !p(x)
  {
    if es != [] {
      FilterNothing(p, es[1..]);
      HeadTail(es);
    }
  }

  lemma SortFiltersNothing(es: seq<Event>, p: Event -> bool)
    requires Filter(p, es) == []
    ensures Filter(p, SortByDepth(es)) == []
  {
    SortMultiset(es);
    FilterNothing(p, es);
    FilterNothing(p, SortByDepth(es));
  }

  ghost predicate SlotOrdered(es: seq<Event>) {
    forall i, j :: 0 <= i < j < |es| ==> !SlotLess(SlotOf(es[j]), SlotOf(es[i]))
  }

  lemma {:induction false} FilterSound(p: Event -> bool, es: seq<Event>)
    ensures forall i :: 0 <= i < |Filter(p, es)| ==> p(Filter(p, es)[i])
  {
    if es != [] { FilterSound(p, es[1..]); }
  }

  lemma SortedHasRank(es: seq<Event>, r: nat)
    requires forall i :: 0 <= i < |es| ==> SlotOf(es[i]).rank == r
    ensures forall i :: 0 <= i < |SortByDepth(es)| ==> SlotOf(SortByDepth(es)[i]).rank == r
  {
    SortMultiset(es);
    forall i | 0 <= i < |SortByDepth(es)| ensures SlotOf(SortByDepth(es)[i]).rank == r {
      assert SortByDepth(es)[i] in multiset(es);
    }
  }

  /** A segment runs in slot order: creates by depth, then structural events, overs, values. */
  lemma SegmentOrdered(es: seq<Event>)
    ensures SlotOrdered(Segment(es))
  {
    SegmentByRank(es);
    var a, b, c, d := Filter(InRank(0), es), Filter(InRank(1), es), Filter(InRank(2), es), Filter(InRank(3), es);
    FilterSound(InRank(0), es);
    FilterSound(InRank(1), es);
    FilterSound(InRank(2), es);
    FilterSound(InRank(3), es);
    SortOrdered(a);
    SortedHasRank(a, 0);
    OrderedConcat(SortByDepth(a), b, 0, 1);
    OrderedConcat(SortByDepth(a) + b, c, 1, 2);
    OrderedConcat(SortByDepth(a) + b + c, d, 2, 3);
  }

  lemma OrderedConcat(a: seq<Event>, b: seq<Event>, r: nat, r': nat)
    requires r < r' && SlotOrdered(a)
    requires forall i :: 0 <= i < |a| ==> SlotOf(a[i]).rank <= r
    requires r' > 0 && forall i :: 0 <= i < |b| ==> SlotOf(b[i]).rank == r'
    ensures SlotOrdered(a + b)
    ensures forall i :: 0 <= i < |a + b| ==> SlotOf((a + b)[i]).rank <= r'
  {
  }

  function Is(e: Event): Event -> bool { (x: Event) => x == e }

  lemma {:induction false} CountIsFilter(es: seq<Event>, e: Event)
    ensures multiset(es)[e] == |Filter(Is(e), es)|
  {
    if es != [] {
      CountIsFilter(es[1..], e);
      HeadTail(es);
    }
  }

  /** Batches with the same occurrences of every event hold the same events. */
  lemma SameOccurrences(a: seq<Event>, b: seq<Event>)
    requires forall e :: Filter(Is(e), a) == Filter(Is(e), b)
    ensures multiset(a) == multiset(b)
  {
    forall e ensures multiset(a)[e] == multiset(b)[e] {
      CountIsFilter(a, e);
      CountIsFilter(b, e);
      assert Filter(Is(e), a) == Filter(Is(e), b);
    }
  }

  lemma SegmentMultiset(es: seq<Event>)
    ensures multiset(Segment(es)) == multiset(es)
  {
    forall e ensures Filter(Is(e), Segment(es)) == Filter(Is(e), es) {
      SegmentKeepsSlot(es, Is(e), SlotOf(e));
    }
    SameOccurrences(Segment(es), es);
  }

  // ---------------------------------------------------------------- a whole batch

  datatype Progress = Progress(executed: seq<Event>, segment: seq<Event>)

  /** What has run and what is still collected after reading the events. */
  function Scan(es: seq<Event>): Progress {
    if es == [] then Progress([], []) else Advance(Scan(es[..|es| - 1]), es[|es| - 1])
  }

  function Advance(s: Progress, e: Event): Progress {
    if IsBarrier(e) then Progress(s.executed + Segment(s.segment) + [e], [])
    else Progress(s.executed, s.segment + [e])
  }

  /** The order in which a batch runs. */
  function Executed(es: seq<Event>): seq<Event> {
    Scan(es).executed + Segment(Scan(es).segment)
  }

  lemma ScanAppend(es: seq<Event>, e: Event)
    ensures Scan(es + [e]) == Advance(Scan(es), e)
  {
    TakeOfConcat(es, [e]);
  }

  lemma AdvancePrefixed(head: seq<Event>, s: Progress, e: Event)
    ensures Advance(Progress(head + s.executed, s.segment), e)
         == Progress(head + Advance(s, e).executed, Advance(s, e).segment)
  {
    if IsBarrier(e) {
      ConcatAssociates(head, s.executed, Segment(s.segment));
      ConcatAssociates(head, s.executed + Segment(s.segment), [e]);
    }
  }

  lemma {:induction false} ScanSplits(a: seq<Event>, b: Event, c: seq<Event>)
    requires IsBarrier(b)
    ensures Scan(a + [b] + c) == Progress(Executed(a) + [b] + Scan(c).executed, Scan(c).segment)
  {
    if c == [] {
      ScanAppend(a, b);
      assert a + [b] + c == a + [b];
    } else {
      var init, last := c[..|c| - 1], c[|c| - 1];
      ScanSplits(a, b, init);
      InitLast(c);
      ConcatAssociates(a + [b], init, [last]);
      ScanAppend(a + [b] + init, last);
      ScanAppend(init, last);
      AdvancePrefixed(Executed(a) + [b], Scan(init), last);
    }
  }

  /** No event crosses a barrier. */
  lemma BarrierSplits(a: seq<Event>, b: Event, c: seq<Event>)
    requires IsBarrier(b)
    ensures Executed(a + [b] + c) == Executed(a) + [b] + Executed(c)
  {
    ScanSplits(a, b, c);
  }

  ghost predicate NoBarrier(es: seq<Event>) {
    forall i :: 0 <= i < |es| ==> !IsBarrier(es[i])
  }

  lemma {:induction false} NothingClosed(es: seq<Event>)
    requires NoBarrier(es)
    ensures Scan(es) == Progress([], es)
  {
    if es != [] {
      var init, last := es[..|es| - 1], es[|es| - 1];
      NothingClosed(init);
      InitLast(es);
    }
  }

  lemma ScanWithoutBarrier(es: seq<Event>)
    requires NoBarrier(es)
    ensures Executed(es) == Segment(es)
  {
    NothingClosed(es);
    NothingBefore(Segment(es));
  }

  lemma {:induction false} SegmentHasNoBarrier(es: seq<Event>)
    ensures NoBarrier(Scan(es).segment)
  {
    if es != [] { SegmentHasNoBarrier(es[..|es| - 1]); }
  }

  lemma SegmentKeepsUniform(es: seq<Event>, p: Event -> bool, k: Slot)
    requires NoBarrier(es) && k.rank <= 3
    requires forall x :: p(x) ==> IsBarrier(x) || SlotOf(x) == k
    ensures Filter(p, Segment(es)) == Filter(p, es)
  {
    var q := (x: Event) => p(x) && SlotOf(x) == k;
    SegmentMultiset(es);
    forall i | 0 <= i < |Segment(es)| ensures !IsBarrier(Segment(es)[i]) {
      assert Segment(es)[i] in multiset(es);
    }
    FilterSame(p, q, Segment(es));
    FilterSame(p, q, es);
    SegmentKeepsSlot(es, q, k);
  }

  lemma ScanStepKeepsUniform(t: Progress, last: Event, p: Event -> bool, k: Slot)
    requires IsBarrier(last) && NoBarrier(t.segment) && k.rank <= 3
    requires forall x :: p(x) ==> IsBarrier(x) || SlotOf(x) == k
    ensures Filter(p, t.executed + Segment(t.segment) + [last])
         == Filter(p, t.executed) + Filter(p, t.segment) + Filter(p, [last])
  {
    SegmentKeepsUniform(t.segment, p, k);
    FilterConcat(p, t.executed + Segment(t.segment), [last]);
    FilterConcat(p, t.executed, Segment(t.segment));
  }

  lemma {:induction false} ScanKeepsUniform(es: seq<Event>, p: Event -> bool, k: Slot)
    requires k.rank <= 3
    requires forall x :: p(x) ==> IsBarrier(x) || SlotOf(x) == k
    ensures Filter(p, Scan(es).executed) + Filter(p, Scan(es).segment) == Filter(p, es)
  {
    if es != [] {
      var init, last := es[..|es| - 1], es[|es| - 1];
      ScanKeepsUniform(init, p, k);
      InitLast(es);
      FilterConcat(p, init, [last]);
      if IsBarrier(last) {
        SegmentHasNoBarrier(init);
        ScanStepKeepsUniform(Scan(init), last, p, k);
      } else {
        FilterConcat(p, Scan(init).segment, [last]);
      }
    }
  }

  /**
   Events that share a slot, together with any barriers, keep their relative order over the whole batch:
   the sequence of events satisfying p is the same before and after reordering.
   */
  lemma ExecutedKeepsUniform(es: seq<Event>, p: Event -> bool, k: Slot)
    requires k.rank <= 3
    requires forall x :: p(x) ==> IsBarrier(x) || SlotOf(x) == k
    ensures Filter(p, Executed(es)) == Filter(p, es)
  {
    var s := Scan(es);
    ScanKeepsUniform(es, p, k);
    SegmentHasNoBarrier(es);
    SegmentKeepsUniform(s.segment, p, k);
    FilterConcat(p, s.executed, Segment(s.segment));
  }

  /** Every event runs exactly once. */
  lemma ExecutedIsPermutation(es: seq<Event>)
    ensures multiset(Executed(es)) == multiset(es)
  {
    forall e ensures Filter(Is(e), Executed(es)) == Filter(Is(e), es) {
      ExecutedKeepsUniform(es, Is(e), SlotOf(e));
    }
    SameOccurrences(Executed(es), es);
  }

  // ---------------------------------------------------------------- last writers

  /** Value that the last writer of a cell leaves. */
  function FinalValue<C(==), V>(writes: Event -> map<C, V>, es: seq<Event>, c: C): Option<V> {
    if es == [] then None
    else if c in writes(es[|es| - 1]) then Some(writes(es[|es| - 1])[c])
    else FinalValue(writes, es[..|es| - 1], c)
  }

  lemma {:induction false} FinalOfWriters<C, V>(writes: Event -> map<C, V>, es: seq<Event>, c: C)
    ensures FinalValue(writes, es, c) == FinalValue(writes, Filter((e: Event) => c in writes(e), es), c)
  {
    var p := (e: Event) => c in writes(e);
    if es != [] {
      var init, last := es[..|es| - 1], es[|es| - 1];
      FinalOfWriters(writes, init, c);
      InitLast(es);
      FilterConcat(p, init, [last]);
      var f := Filter(p, es);
      if p(last) {
        assert f == Filter(p, init) + [last];
      } else {
        assert f == Filter(p, init);
      }
    }
  }

  /** A cell whose writers share a slot, barriers aside, ends with the value its last writer gave it. */
  lemma LastWriterUnchanged<C, V>(writes: Event -> map<C, V>, es: seq<Event>, c: C, k: Slot)
    requires k.rank <= 3
    requires forall e: Event :: c in writes(e) ==> IsBarrier(e) || SlotOf(e) == k
    ensures FinalValue(writes, Executed(es), c) == FinalValue(writes, es, c)
  {
    var p := (e: Event) => c in writes(e);
    ExecutedKeepsUniform(es, p, k);
    FinalOfWriters(writes, es, c);
    FinalOfWriters(writes, Executed(es), c);
  }

  // ---------------------------------------------------------------- parents before children

  /** An ancestor other than the root, which is always there. */
  predicate StrictAncestor(a: Option<Path>, b: Option<Path>) {
    a.Some? && b.Some? && a.value != ROOT && a.value != b.value && Under(a.value, b.value)
  }

  lemma AncestorIsShallower(a: Event, b: Event)
    requires StrictAncestor(a.prim, b.prim)
    ensures Depth(a) < Depth(b)
  {
  }

  /** Between barriers no prim is created before its ancestor, and none is modified before it is created. */
  lemma ParentsFirst(es: seq<Event>, i: nat, j: nat)
    requires NoBarrier(es) && i < j < |Executed(es)|
    requires var later := Executed(es)[j]; IsStructural(later.kind) && CreatesPrim(later)
    ensures var e, later := Executed(es)[i], Executed(es)[j];
      IsStructural(e.kind) && CreatesPrim(e) && !StrictAncestor(later.prim, e.prim)
  {
    ScanWithoutBarrier(es);
    SegmentOrdered(es);
    var e, later := Executed(es)[i], Executed(es)[j];
    assert !SlotLess(SlotOf(later), SlotOf(e));
    if StrictAncestor(later.prim, e.prim) {
      AncestorIsShallower(later, e);
    }
  }

  // ---------------------------------------------------------------- applying a batch

  /** Reading one event closes the segment at a barrier, and extends it otherwise. */
  lemma ScanNext(events: seq<Event>, n: nat)
    requires n < |events|
    ensures var s, t := Scan(events[..n]), Scan(events[..n + 1]);
      if IsBarrier(events[n])
      then t.executed == s.executed + Segment(s.segment) + [events[n]] && t.segment == []
      else t.executed == s.executed && t.segment == s.segment + [events[n]]
  {
    TakeNext(events, n);
  }

  /** At a barrier, what has run, the collected segment and the barrier are next in execution order. */
  lemma BarrierReached(before: seq<Event>, events: seq<Event>, n: nat)
    requires n < |events| && IsBarrier(events[n])
    ensures var s := Scan(events[..n]);
      before + s.executed + Segment(s.segment) + [events[n]] <= before + Executed(events)
  {
    var s, rest := Scan(events[..n]), events[n + 1..];
    assert events == events[..n] + [events[n]] + rest;
    BarrierSplits(events[..n], events[n], rest);
    var head := s.executed + Segment(s.segment) + [events[n]];
    assert Executed(events) == head + Executed(rest);
    assert before + s.executed + Segment(s.segment) + [events[n]] == before + head;
  }

  /** Work that ends inside the closed segment or its barrier is a prefix of the whole execution. */
  lemma WithinExecution(before: seq<Event>, events: seq<Event>, n: nat, x: seq<Event>)
    requires n < |events| && IsBarrier(events[n])
    requires var s := Scan(events[..n]);
      before + s.executed <= x <= before + s.executed + Segment(s.segment) + [events[n]]
    ensures before <= x <= before + Executed(events)
  {
    BarrierReached(before, events, n);
  }

  lemma ClosedIsWithin(before: seq<Event>, events: seq<Event>)
    ensures before <= before + Scan(events).executed <= before + Executed(events)
  {
    ConcatAssociates(before, Scan(events).executed, Segment(Scan(events).segment));
  }

  /** The work up to and including a barrier, after what ran before the batch. */
  lemma ClosingWork(before: seq<Event>, events: seq<Event>, n: nat)
    requires n < |events| && IsBarrier(events[n])
    ensures before + Scan(events[..n]).executed + Segment(Scan(events[..n]).segment) + [events[n]]
         == before + Scan(events[..n + 1]).executed
  {
    var s := Scan(events[..n]);
    ScanNext(events, n);
    ConcatAssociates(before, s.executed, Segment(s.segment));
    ConcatAssociates(before, s.executed + Segment(s.segment), [events[n]]);
  }

  /** The stage as seen by the order of applied events; an applier may raise. */
  class Stage {
    const raises: Event -> bool
    var applied: seq<Event>

    constructor (raises: Event -> bool)
      ensures applied == [] && this.raises == raises
    {
      this.raises := raises;
      applied := [];
    }

    method ApplyEvent(e: Event) returns (outcome: Outcome)
      modifies this
      ensures outcome == if raises(e) then Raised else Done
      ensures applied == if raises(e) then old(applied) else old(applied) + [e]
    {
      if raises(e) {
        return Raised;
      }
      applied := applied + [e];
      outcome := Done;
    }

    /** Apply in order, stopping at the first event that raises. */
    method ApplyInOrder(es: seq<Event>) returns (outcome: Outcome)
      modifies this
      ensures old(applied) <= applied <= old(applied) + es
      ensures outcome == Done ==> applied == old(applied) + es
      ensures outcome == Raised ==> |applied| < |old(applied) + es| && raises((old(applied) + es)[|applied|])
    {
      ghost var before := applied;
      for i := 0 to |es|
        invariant applied == before + es[..i]
      {
        outcome := ApplyEvent(es[i]);
        if outcome == Raised {
          return;
        }
        assert before + es[..i] + [es[i]] == before + es[..i + 1];
      }
      TakeAll(es);
      outcome := Done;
    }

    method ApplySegment(events: seq<Event>) returns (outcome: Outcome)
      modifies this
      ensures old(applied) <= applied <= old(applied) + Segment(events)
      ensures outcome == Done ==> applied == old(applied) + Segment(events)
    {
      ghost var before := applied;
      var create := SortByDepth(Filter(IsStructuralCreate(), events));
      var modifications := Filter(IsModify(), events);
      var apiSchemaOvers := Filter(IsOver(), events);
      var structural := create + modifications + apiSchemaOvers;
      assert Segment(events) == structural + Filter(IsValue(), events);
      outcome := ApplyInOrder(structural);
      if outcome == Raised {
        assert before + Segment(events) == before + structural + Filter(IsValue(), events);
        return;
      }
      assert before + structural + Filter(IsValue(), events) == before + Segment(events);
      outcome := ApplyInOrder(Filter(IsValue(), events));
    }

    /** Run the collected segment, then the barrier that ends it. */
    method ApplyUpToBarrier(segment: seq<Event>, event: Event) returns (outcome: Outcome)
      modifies this
      ensures outcome == Done ==> applied == old(applied) + Segment(segment) + [event]
      ensures old(applied) <= applied <= old(applied) + Segment(segment) + [event]
    {
      if segment != [] {
        outcome := ApplySegment(segment);
        if outcome == Raised {
          return;
        }
      }
      outcome := ApplyEvent(event);
    }

    /** Run everything up to the last barrier and return the segment still open. */
    method ApplyClosedSegments(events: seq<Event>) returns (outcome: Outcome, segment: seq<Event>)
      modifies this
      ensures outcome == Done ==> applied == old(applied) + Scan(events).executed && segment == Scan(events).segment
      ensures old(applied) <= applied <= old(applied) + Executed(events)
    {
      ghost var before := applied;
      segment := [];
      for n := 0 to |events|
        invariant applied == before + Scan(events[..n]).executed
        invariant segment == Scan(events[..n]).segment
      {
        var event := events[n];
        ScanNext(events, n);
        if IsBarrier(event) {
          ClosingWork(before, events, n);
          outcome := ApplyUpToBarrier(segment, event);
          if outcome == Raised {
            WithinExecution(before, events, n, applied);
            return;
          }
          segment := [];
        } else {
          segment := segment + [event];
        }
      }
      TakeAll(events);
      ClosedIsWithin(before, events);
      outcome := Done;
    }

    /** Apply a batch: all of it in execution order, or a prefix of that order if an applier raises. */
    method ApplyEvents(events: seq<Event>) returns (outcome: Outcome)
      modifies this
      ensures outcome == Done ==> applied == old(applied) + Executed(events)
      ensures old(applied) <= applied <= old(applied) + Executed(events)
    {
      ghost var before := applied;
      var segment: seq<Event>;
      outcome, segment := ApplyClosedSegments(events);
      if outcome == Done {
        assert before + Executed(events) == applied + Segment(segment);
        if segment != [] {
          outcome := ApplySegment(segment);
        }
      }
    }
  }
}
