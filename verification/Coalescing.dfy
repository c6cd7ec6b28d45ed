/**
 Transform coalescing of an unsent event batch.

 A batch is a list of event dictionaries. Transform events write value cells; every other event is an
 arbitrary transformer of the whole receiver state, so nothing may be moved across it.
 */
module Coalescing {
  import opened Wrappers

  datatype Field = FieldT | FieldR | FieldS

  type Value = seq<real>

  /** The prim and optional time code a transform event writes at. */
  datatype Key = Key(prim: string, time: Option<real>)

  datatype Cell = Cell(key: Key, field: Field)

  /** Opaque identity of a non-transform event; its effect is a parameter of every law. */
  type Op = int

  datatype EventData =
    | SetXformTrs(key: Key, fields: seq<Field>, values: map<Field, Value>)
    | Other(op: Op)

  /** A transform event carries a value for each field that it lists. */
  predicate WellFormed(e: EventData) {
    e.SetXformTrs? ==> forall f <- e.fields :: f in e.values
  }

  type Event = e: EventData | WellFormed(e) witness Other(0)

  // ---------------------------------------------------------------- meaning of a batch

  datatype State<R> = State(cells: map<Cell, Value>, rest: R)

  /** Cells that one transform event writes. */
  function Writes(e: Event): (w: map<Cell, Value>)
    requires e.SetXformTrs?
    ensures forall c: Cell :: c in w <==> c.key == e.key && c.field in e.fields
    ensures forall c: Cell :: c in w ==> w[c] == e.values[c.field]
  {
    map f | f in e.fields :: Cell(e.key, f) := e.values[f]
  }

  /** One event's effect; `sem` interprets the events that are not transforms. */
  function Apply<R>(sem: (Op, State<R>) -> State<R>, e: Event, s: State<R>): State<R>
  {
    match e
    case SetXformTrs(_, _, _) => s.(cells := s.cells + Writes(e))
    case Other(op) => sem(op, s)
  }

  /** Effect of a batch, last event outermost. */
  function Run<R>(sem: (Op, State<R>) -> State<R>, es: seq<Event>, s: State<R>): State<R>
  {
    if es == [] then s
    else Apply(sem, es[|es| - 1], Run(sem, es[..|es| - 1], s))
  }

  lemma {:induction false} RunConcat<R>(sem: (Op, State<R>) -> State<R>, a: seq<Event>, b: seq<Event>, s: State<R>)
    ensures Run(sem, a + b, s) == Run(sem, b, Run(sem, a, s))
  {
    if b == [] {
      assert a + b == a;
    } else {
      InitOfConcat(a, b);
      RunConcat(sem, a, b[..|b| - 1], s);
    }
  }

  // ---------------------------------------------------------------- merging on values

  /** Fields in wire order. */
  function Canonical(fs: seq<Field>): (r: seq<Field>)
  {
    (if FieldT in fs then [FieldT] else [])
    + (if FieldR in fs then [FieldR] else [])
    + (if FieldS in fs then [FieldS] else [])
  }

  lemma CanonicalFields(fs: seq<Field>)
    ensures forall f :: f in Canonical(fs) <==> f in fs
  {
    forall f ensures f in Canonical(fs) <==> f in fs {
      match f
      case FieldT =>
      case FieldR =>
      case FieldS =>
    }
  }

  /** Values of `p` overlaid with the first n listed fields of `e`. */
  function Overlay(p: map<Field, Value>, e: Event, n: nat): (r: map<Field, Value>)
    requires e.SetXformTrs? && n <= |e.fields|
  {
    if n == 0 then p
    else Overlay(p, e, n - 1)[e.fields[n - 1] := e.values[e.fields[n - 1]]]
  }

  lemma {:induction false} OverlayAt(p: map<Field, Value>, e: Event, n: nat, f: Field)
    requires e.SetXformTrs? && n <= |e.fields|
    ensures f in e.fields[..n] ==> f in Overlay(p, e, n) && Overlay(p, e, n)[f] == e.values[f]
    ensures f !in e.fields[..n] ==> (f in Overlay(p, e, n) <==> f in p)
    ensures f !in e.fields[..n] && f in p ==> Overlay(p, e, n)[f] == p[f]
  {
    if n > 0 {
      OverlayAt(p, e, n - 1, f);
      assert e.fields[..n] == e.fields[..n - 1] + [e.fields[n - 1]];
    }
  }

  lemma OverlayAll(p: map<Field, Value>, e: Event)
    requires e.SetXformTrs?
    ensures forall f :: f in Overlay(p, e, |e.fields|) <==> f in p || f in e.fields
    ensures forall f :: f in Overlay(p, e, |e.fields|) ==>
      Overlay(p, e, |e.fields|)[f] == if f in e.fields then e.values[f] else p[f]
  {
    TakeAll(e.fields);
    forall f { OverlayAt(p, e, |e.fields|, f); }
  }

  function Merged(p: Event, e: Event): (r: Event)
    requires p.SetXformTrs? && e.SetXformTrs?
    ensures r.SetXformTrs? && r.key == p.key
  {
    OverlayAll(p.values, e);
    CanonicalFields(p.fields + e.fields);
    SetXformTrs(p.key, Canonical(p.fields + e.fields), Overlay(p.values, e, |e.fields|))
  }

  /** Position of the last transform with this key after the last barrier, or -1. */
  function LastMatch(es: seq<Event>, key: Key): (i: int)
    ensures -1 <= i < |es|
    ensures i >= 0 ==> es[i].SetXformTrs? && es[i].key == key
  {
    if es == [] then -1
    else
      var last := es[|es| - 1];
      if last.Other? then -1
      else if last.key == key then |es| - 1
      else LastMatch(es[..|es| - 1], key)
  }

  /** The batch after one more event. */
  function MergeOne(es: seq<Event>, e: Event): (r: seq<Event>)
  {
    if e.Other? || LastMatch(es, e.key) < 0 then es + [e]
    else
      var i := LastMatch(es, e.key);
      es[i := Merged(es[i], e)]
  }

  function MergeAll(es: seq<Event>, incoming: seq<Event>): (r: seq<Event>)
    decreases |incoming|
  {
    if incoming == [] then es
    else MergeOne(MergeAll(es, incoming[..|incoming| - 1]), incoming[|incoming| - 1])
  }

  lemma MergeAllNext(es: seq<Event>, incoming: seq<Event>, n: nat)
    requires n < |incoming|
    ensures MergeAll(es, incoming[..n + 1]) == MergeOne(MergeAll(es, incoming[..n]), incoming[n])
  {
    TakeNext(incoming, n);
  }

  // ---------------------------------------------------------------- merging preserves meaning

  lemma MergedAt(p: Event, e: Event, c: Cell)
    requires p.SetXformTrs? && e.SetXformTrs? && p.key == e.key
    ensures c in Writes(Merged(p, e)) <==> c in Writes(p) || c in Writes(e)
    ensures c in Writes(e) ==> Writes(Merged(p, e))[c] == Writes(e)[c]
    ensures c in Writes(p) && c !in Writes(e) ==> Writes(Merged(p, e))[c] == Writes(p)[c]
  {
    OverlayAll(p.values, e);
    CanonicalFields(p.fields + e.fields);
  }

  lemma WritesMerged(p: Event, e: Event)
    requires p.SetXformTrs? && e.SetXformTrs?
    requires p.key == e.key
    ensures Writes(Merged(p, e)) == Writes(p) + Writes(e)
  {
    forall c: Cell
      ensures c in Writes(Merged(p, e)) <==> c in Writes(p) + Writes(e)
      ensures c in Writes(Merged(p, e)) ==> Writes(Merged(p, e))[c] == (Writes(p) + Writes(e))[c]
    {
      MergedAt(p, e, c);
    }
  }

  lemma SumAssociates(a: map<Cell, Value>, b: map<Cell, Value>, c: map<Cell, Value>)
    ensures a + (b + c) == a + b + c
  {
  }

  lemma MergedWrites<R>(sem: (Op, State<R>) -> State<R>, p: Event, e: Event, s: State<R>)
    requires p.SetXformTrs? && e.SetXformTrs?
    requires p.key == e.key
    ensures Apply(sem, Merged(p, e), s) == Apply(sem, e, Apply(sem, p, s))
  {
    WritesMerged(p, e);
    SumAssociates(s.cells, Writes(p), Writes(e));
  }

  lemma TransformsCommute<R>(sem: (Op, State<R>) -> State<R>, a: Event, b: Event, s: State<R>)
    requires a.SetXformTrs? && b.SetXformTrs?
    requires a.key != b.key
    ensures Apply(sem, a, Apply(sem, b, s)) == Apply(sem, b, Apply(sem, a, s))
  {
    assert s.cells + Writes(a) + Writes(b) == s.cells + Writes(b) + Writes(a);
  }

  lemma {:induction false} MergeOneMeaning<R>(sem: (Op, State<R>) -> State<R>, es: seq<Event>, e: Event, s: State<R>)
    ensures Run(sem, MergeOne(es, e), s) == Apply(sem, e, Run(sem, es, s))
  {
    if e.Other? || LastMatch(es, e.key) < 0 {
      TakeOfConcat(es, [e]);
    } else {
      var pre, last, i := es[..|es| - 1], es[|es| - 1], LastMatch(es, e.key);
      var merged := MergeOne(es, e);
      if i == |es| - 1 {
        assert merged[..|merged| - 1] == pre;
        MergedWrites(sem, last, e, Run(sem, pre, s));
      } else {
        assert merged[..|merged| - 1] == MergeOne(pre, e);
        MergeOneMeaning(sem, pre, e, s);
        TransformsCommute(sem, last, e, Run(sem, pre, s));
      }
    }
  }

  /** Coalescing preserves meaning: for every start state and every reading of the other events. */
  lemma {:induction false} MergePreservesMeaning<R>(
    sem: (Op, State<R>) -> State<R>, pending: seq<Event>, incoming: seq<Event>, s: State<R>)
    ensures Run(sem, MergeAll(pending, incoming), s) == Run(sem, pending + incoming, s)
    decreases |incoming|
  {
    if incoming == [] {
      assert pending + incoming == pending;
    } else {
      var init, last := incoming[..|incoming| - 1], incoming[|incoming| - 1];
      MergePreservesMeaning(sem, pending, init, s);
      MergeOneMeaning(sem, MergeAll(pending, init), last, s);
      InitOfConcat(pending, incoming);
    }
  }

  function IsOther(): Event -> bool { (e: Event) => e.Other? }

  lemma {:induction false} FilterUpdate(es: seq<Event>, i: nat, e: Event)
    requires i < |es| && es[i].SetXformTrs? && e.SetXformTrs?
    ensures Filter(IsOther(), es[i := e]) == Filter(IsOther(), es)
  {
    if i > 0 {
      assert es[i := e][1..] == es[1..][i - 1 := e];
      FilterUpdate(es[1..], i - 1, e);
    }
  }

  lemma OneMergeKeepsOthers(es: seq<Event>, e: Event)
    ensures Filter(IsOther(), MergeOne(es, e)) == Filter(IsOther(), es) + Filter(IsOther(), [e])
  {
    if e.Other? || LastMatch(es, e.key) < 0 {
      FilterConcat(IsOther(), es, [e]);
    } else {
      FilterUpdate(es, LastMatch(es, e.key), Merged(es[LastMatch(es, e.key)], e));
    }
  }

  /** No non-transform event is lost, doubled or moved past another. */
  lemma {:induction false} MergeKeepsOtherEvents(pending: seq<Event>, incoming: seq<Event>)
    ensures Filter(IsOther(), MergeAll(pending, incoming))
         == Filter(IsOther(), pending) + Filter(IsOther(), incoming)
    decreases |incoming|
  {
    if incoming == [] {
    } else {
      var init, last := incoming[..|incoming| - 1], incoming[|incoming| - 1];
      MergeKeepsOtherEvents(pending, init);
      OneMergeKeepsOthers(MergeAll(pending, init), last);
      InitLast(incoming);
      FilterConcat(IsOther(), init, [last]);
      ConcatAssociates(Filter(IsOther(), pending), Filter(IsOther(), init), Filter(IsOther(), [last]));
    }
  }

  /** A second transform of one key within a barrier-free batch never adds an entry. */
  lemma {:induction false} RepeatedKeyAddsNothing(es: seq<Event>, e: Event)
    requires e.SetXformTrs?
    ensures |MergeOne(es, e)| == |es| <==>
      exists i :: 0 <= i < |es| && es[i].SetXformTrs? && es[i].key == e.key
                  && forall j :: i < j < |es| ==> es[j].SetXformTrs?
  {
    LastMatchExists(es, e.key);
  }

  lemma {:induction false} LastMatchExists(es: seq<Event>, key: Key)
    ensures LastMatch(es, key) >= 0 <==>
      exists i :: 0 <= i < |es| && es[i].SetXformTrs? && es[i].key == key
                  && forall j :: i < j < |es| ==> es[j].SetXformTrs?
  {
    if es != [] && !es[|es| - 1].Other? && es[|es| - 1].key != key {
      var pre := es[..|es| - 1];
      LastMatchExists(pre, key);
      if LastMatch(pre, key) >= 0 {
        var i :| 0 <= i < |pre| && pre[i].SetXformTrs? && pre[i].key == key
                 && forall j :: i < j < |pre| ==> pre[j].SetXformTrs?;
        assert es[i].SetXformTrs?;
        forall j | i < j < |es| ensures es[j].SetXformTrs? {
          assert j < |pre| ==> pre[j] == es[j];
        }
      } else if i :| 0 <= i < |es| && es[i].SetXformTrs? && es[i].key == key
                     && forall j :: i < j < |es| ==> es[j].SetXformTrs? {
        assert false;
      }
    }
  }

  // ---------------------------------------------------------------- the in-place algorithm

  /** One event dictionary, updated in place by the merge. */
  class EventDict {
    var event: Event

    constructor (e: Event)
      ensures event == e
    {
      event := e;
    }
  }

  /** A list object whose identity the emitter keeps across retries. */
  class EventList {
    var items: seq<EventDict>

    constructor (items: seq<EventDict>)
      ensures this.items == items
    {
      this.items := items;
    }
  }

  /** The dictionaries' current contents. */
  function View(items: seq<EventDict>): (v: seq<Event>)
    reads items
    ensures |v| == |items|
    ensures forall i :: 0 <= i < |v| ==> v[i] == items[i].event
  {
    seq(|items|, i requires 0 <= i < |items| reads items => items[i].event)
  }

  /** `candidates` names, for each key, the dictionary that a later transform of it replaces. */
  ghost predicate Tracks(candidates: map<Key, EventDict>, items: seq<EventDict>, v: seq<Event>)
    requires |v| == |items|
  {
    && (forall k :: k in candidates <==> LastMatch(v, k) >= 0)
    && (forall k :: k in candidates ==> candidates[k] == items[LastMatch(v, k)])
  }

  lemma {:induction false} LastMatchShape(a: seq<Event>, b: seq<Event>, key: Key)
    requires |a| == |b|
    requires forall i :: 0 <= i < |a| ==>
      a[i].Other? == b[i].Other? && (a[i].SetXformTrs? ==> a[i].key == b[i].key)
    ensures LastMatch(a, key) == LastMatch(b, key)
  {
    if a != [] {
      LastMatchShape(a[..|a| - 1], b[..|b| - 1], key);
    }
  }

  /** Appending one dictionary moves only its own key's candidate; a barrier forgets them all. */
  lemma TrackAppend(candidates: map<Key, EventDict>, items: seq<EventDict>, v: seq<Event>, d: EventDict, e: Event)
    requires |v| == |items| && Tracks(candidates, items, v)
    ensures Tracks(if e.Other? then map[] else candidates[e.key := d], items + [d], v + [e])
  {
    var v' := v + [e];
    assert v'[..|v'| - 1] == v;
    forall k ensures LastMatch(v', k) == if e.Other? then -1
                                         else if e.key == k then |v| else LastMatch(v, k) {
    }
  }

  /** Replacing a dictionary's values in place moves no candidate. */
  lemma TrackUpdate(candidates: map<Key, EventDict>, items: seq<EventDict>, v: seq<Event>, i: nat, e: Event)
    requires |v| == |items| && Tracks(candidates, items, v)
    requires i < |v| && v[i].SetXformTrs? && e.SetXformTrs? && v[i].key == e.key
    ensures Tracks(candidates, items, v[i := e])
  {
    forall k ensures LastMatch(v[i := e], k) == LastMatch(v, k) {
      LastMatchShape(v[i := e], v, k);
    }
  }

  /** Overlay one dictionary's listed fields on an earlier one. */
  method UpdateInPlace(previous: EventDict, event: EventDict)
    requires previous != event
    requires previous.event.SetXformTrs? && event.event.SetXformTrs?
    modifies previous
    ensures previous.event == Merged(old(previous.event), event.event)
  {
    var p := previous.event;
    var incomingFields := event.event.fields;
    var values := p.values;
    for n := 0 to |incomingFields|
      modifies {}
      invariant values == Overlay(p.values, event.event, n)
    {
      var field := incomingFields[n];
      values := values[field := event.event.values[field]];
    }
    OverlayAll(p.values, event.event);
    CanonicalFields(p.fields + incomingFields);
    previous.event := p.(fields := Canonical(p.fields + incomingFields), values := values);
  }

  /** Index the dictionaries after the last barrier by key. */
  method CollectCandidates(items: seq<EventDict>) returns (candidates: map<Key, EventDict>)
    ensures Tracks(candidates, items, View(items))
  {
    ghost var v := View(items);
    candidates := map[];
    for i := 0 to |items|
      invariant Tracks(candidates, items[..i], v[..i])
    {
      var d := items[i];
      TrackAppend(candidates, items[..i], v[..i], d, d.event);
      assert items[..i] + [d] == items[..i + 1];
      assert v[..i] + [d.event] == v[..i + 1];
      if d.event.Other? {
        candidates := map[];
      } else {
        candidates := candidates[d.event.key := d];
      }
    }
    assert items[..|items|] == items && v[..|v|] == v;
  }

  lemma ViewAppend(items: seq<EventDict>, d: EventDict)
    ensures View(items + [d]) == View(items) + [d.event]
  {
  }

  lemma SeqUpdate(v: seq<Event>, v': seq<Event>, i: nat)
    requires i < |v| == |v'|
    requires forall k :: 0 <= k < |v| && k != i ==> v'[k] == v[k]
    ensures v' == v[i := v'[i]]
  {
  }

  /** Fold one dictionary into its candidate; the candidate map stays as it is. */
  method ReplaceCandidate(
    pending: EventList, ghost candidates: map<Key, EventDict>, previous: EventDict, event: EventDict)
    requires event !in pending.items && Distinct(pending.items)
    requires event.event.SetXformTrs? && event.event.key in candidates
    requires Tracks(candidates, pending.items, View(pending.items))
    requires previous == candidates[event.event.key]
    modifies previous
    ensures View(pending.items) == MergeOne(old(View(pending.items)), event.event)
    ensures Tracks(candidates, pending.items, View(pending.items))
  {
    ghost var v := View(pending.items);
    ghost var i := LastMatch(v, event.event.key);
    TrackUpdate(candidates, pending.items, v, i, Merged(v[i], event.event));
    UpdateInPlace(previous, event);
    assert forall k :: 0 <= k < |v| && k != i ==> pending.items[k] != pending.items[i];
    SeqUpdate(v, View(pending.items), i);
  }

  /** Append one dictionary, which becomes its key's candidate; a barrier forgets every candidate. */
  method AppendCandidate(pending: EventList, candidates: map<Key, EventDict>, event: EventDict)
    returns (r: map<Key, EventDict>)
    requires Tracks(candidates, pending.items, View(pending.items))
    requires event.event.Other? || event.event.key !in candidates
    modifies pending
    ensures pending.items == old(pending.items) + [event]
    ensures View(pending.items) == MergeOne(old(View(pending.items)), event.event)
    ensures Tracks(r, pending.items, View(pending.items))
  {
    TrackAppend(candidates, pending.items, View(pending.items), event, event.event);
    ViewAppend(pending.items, event);
    pending.items := pending.items + [event];
    r := if event.event.Other? then map[] else candidates[event.event.key := event];
  }

  /** Fold one dictionary into its candidate if it has one, and append it otherwise. */
  method MergeEvent(pending: EventList, candidates: map<Key, EventDict>, event: EventDict)
    returns (r: map<Key, EventDict>)
    requires event !in pending.items && Distinct(pending.items)
    requires Tracks(candidates, pending.items, View(pending.items))
    modifies pending, pending.items
    ensures pending.items == old(pending.items) || pending.items == old(pending.items) + [event]
    ensures View(pending.items) == MergeOne(old(View(pending.items)), event.event)
    ensures Tracks(r, pending.items, View(pending.items))
  {
    if event.event.Other? || event.event.key !in candidates {
      r := AppendCandidate(pending, candidates, event);
    } else {
      var previous := candidates[event.event.key];
      assert previous in pending.items;
      ReplaceCandidate(pending, candidates, previous, event);
      r := candidates;
    }
  }

  /** Every dictionary of the list is an original one or an incoming one, and none occurs twice. */
  ghost predicate Ownership(original: seq<EventDict>, incoming: seq<EventDict>, n: nat, items: seq<EventDict>)
    requires n <= |incoming|
  {
    && original <= items && Distinct(items)
    && (forall i :: 0 <= i < |items| ==> items[i] in original || items[i] in incoming)
    && (forall j :: n <= j < |incoming| ==> incoming[j] !in items)
  }

  lemma OwnershipNext(original: seq<EventDict>, incoming: seq<EventDict>, n: nat, items: seq<EventDict>)
    requires n < |incoming| && Distinct(incoming) && Ownership(original, incoming, n, items)
    ensures Ownership(original, incoming, n + 1, items)
    ensures Ownership(original, incoming, n + 1, items + [incoming[n]])
  {
  }

  /** Append `incoming` to `pending`, replacing redundant transform values in place. */
  method MergeLatestTransformEvents(pending: EventList, incoming: seq<EventDict>) returns (r: EventList)
    requires Distinct(pending.items + incoming)
    modifies pending, pending.items, incoming
    ensures r == pending
    ensures View(pending.items) == MergeAll(old(View(pending.items)), old(View(incoming)))
    ensures Ownership(old(pending.items), incoming, |incoming|, pending.items)
  {
    ghost var before, added := View(pending.items), View(incoming);
    ghost var original := pending.items;
    var candidates := CollectCandidates(pending.items);
    DistinctParts(pending.items, incoming);
    for n := 0 to |incoming|
      invariant Ownership(original, incoming, n, pending.items)
      invariant forall j :: n <= j < |incoming| ==> incoming[j].event == added[j]
      invariant View(pending.items) == MergeAll(before, added[..n])
      invariant Tracks(candidates, pending.items, View(pending.items))
    {
      var event := incoming[n];
      MergeAllNext(before, added, n);
      OwnershipNext(original, incoming, n, pending.items);
      candidates := MergeEvent(pending, candidates, event);
    }
    assert added[..|incoming|] == added;
    r := pending;
  }
}
