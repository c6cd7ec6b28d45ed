/**
 The normal form of reference and payload list operations.

 Typed custom data is opaque: its text form and the parsing back are parameters that round-trip. So is the way
 a list operation stores one bucket; all that is asked of it is that it keeps a list without repeats.
 */
module ArcState {
  import opened Wrappers

  /** One entry of an arc event; a missing key reads as its default. */
  datatype Entry = Entry(position: Option<string>, assetPath: string, primPath: string,
                         offset: real, scale: real, fragment: string)

  datatype State = State(entries: seq<Entry>, authored: bool, isExplicit: bool)

  /** Text form of custom data; empty data has the empty text. */
  datatype Codec<!D> = Codec(serialize: D -> string, parse: string -> Option<D>, empty: D)

  ghost predicate RoundTrips<D(!new)>(c: Codec<D>) {
    c.serialize(c.empty) == "" && c.parse("") == Some(c.empty)
    && forall d :: c.parse(c.serialize(d)) == Some(d)
  }

  const LIST_OP_POSITIONS := ["added", "prepended", "appended", "deleted", "ordered"]

  predicate IsPosition(p: string) {
    p == "explicit" || p in LIST_OP_POSITIONS
  }

  // ---------------------------------------------------------------- canonical entries

  function Slashes(s: string): (r: string)
    ensures |r| == |s| && forall i :: 0 <= i < |s| ==> r[i] == if s[i] == '\\' then '/' else s[i]
  {
    seq(|s|, i requires 0 <= i < |s| => if s[i] == '\\' then '/' else s[i])
  }

  lemma SlashesTwice(s: string)
    ensures Slashes(Slashes(s)) == Slashes(s)
  {
  }

  /** Position of an entry of a list operation that is not explicit. */
  function BucketOf(e: Entry): string {
    if e.position.Some? then e.position.value else "prepended"
  }

  /** The normal form of one entry, or None for an entry that is refused. */
  function CanonicalEntry<D>(c: Codec<D>, e: Entry, isExplicit: bool, references: bool): Option<Entry> {
    var position := if e.position.Some? then e.position.value else if isExplicit then "explicit" else "prepended";
    if !IsPosition(position) then None
    else if isExplicit && position != "explicit" then None
    else if !isExplicit && position == "explicit" then None
    else if e.fragment != "" && (!references || c.parse(e.fragment).None?) then None
    else
      Some(Entry(if !isExplicit && position != "prepended" then Some(position) else None,
                 Slashes(e.assetPath), e.primPath, e.offset, e.scale,
                 if e.fragment == "" then "" else c.serialize(c.parse(e.fragment).value)))
  }

  /** What a normalized entry looks like. */
  ghost predicate IsCanonical<D>(c: Codec<D>, e: Entry, isExplicit: bool, references: bool) {
    && (e.position.Some? ==> !isExplicit && e.position.value != "prepended" && e.position.value in LIST_OP_POSITIONS)
    && Slashes(e.assetPath) == e.assetPath
    && (if references then c.parse(e.fragment).Some? && c.serialize(c.parse(e.fragment).value) == e.fragment
        else e.fragment == "")
  }

  lemma EntryIsCanonical<D(!new)>(c: Codec<D>, e: Entry, isExplicit: bool, references: bool)
    requires RoundTrips(c)
    ensures var r := CanonicalEntry(c, e, isExplicit, references);
      r.Some? ==> IsCanonical(c, r.value, isExplicit, references)
    ensures IsCanonical(c, e, isExplicit, references) ==> CanonicalEntry(c, e, isExplicit, references) == Some(e)
  {
    SlashesTwice(e.assetPath);
  }

  // ---------------------------------------------------------------- canonical states

  function CanonicalEntries<D>(
    c: Codec<D>, entries: seq<Entry>, isExplicit: bool, references: bool): Option<seq<Entry>>
  {
    if entries == [] then Some([])
    else
      var first := CanonicalEntry(c, entries[0], isExplicit, references);
      var rest := CanonicalEntries(c, entries[1..], isExplicit, references);
      if first.None? || rest.None? then None else Some([first.value] + rest.value)
  }

  function AtPosition(position: string): Entry -> bool {
    (e: Entry) => BucketOf(e) == position
  }

  function Bucket(entries: seq<Entry>, position: string): seq<Entry> {
    Filter(AtPosition(position), entries)
  }

  /** The buckets one after the other, each in its own order. */
  function Bucketed(entries: seq<Entry>, positions: seq<string>): seq<Entry> {
    if positions == [] then [] else Bucket(entries, positions[0]) + Bucketed(entries, positions[1..])
  }

  function CanonicalState<D>(
    c: Codec<D>, entries: seq<Entry>, authored: Option<bool>, isExplicit: bool, references: bool)
    : Option<State>
  {
    var isAuthored := if authored.Some? then authored.value else entries != [] || isExplicit;
    if !isAuthored && (entries != [] || isExplicit) then None
    else
      var normalized := CanonicalEntries(c, entries, isExplicit, references);
      if normalized.None? then None
      else
        Some(State(if isExplicit then normalized.value else Bucketed(normalized.value, LIST_OP_POSITIONS),
                   isAuthored, isExplicit))
  }

  ghost predicate AllCanonical<D>(c: Codec<D>, entries: seq<Entry>, isExplicit: bool, references: bool) {
    forall e <- entries :: IsCanonical(c, e, isExplicit, references)
  }

  lemma {:induction false} EntriesAreCanonical<D(!new)>(
    c: Codec<D>, entries: seq<Entry>, isExplicit: bool, references: bool)
    requires RoundTrips(c)
    ensures var r := CanonicalEntries(c, entries, isExplicit, references);
      r.Some? ==> AllCanonical(c, r.value, isExplicit, references)
    ensures AllCanonical(c, entries, isExplicit, references) ==>
      CanonicalEntries(c, entries, isExplicit, references) == Some(entries)
  {
    if entries != [] {
      EntryIsCanonical(c, entries[0], isExplicit, references);
      EntriesAreCanonical(c, entries[1..], isExplicit, references);
      HeadTail(entries);
    }
  }

  // ---------------------------------------------------------------- buckets

  lemma {:induction false} BucketMembers(entries: seq<Entry>, position: string)
    ensures forall e <- Bucket(entries, position) :: e in entries && BucketOf(e) == position
  {
    if entries != [] {
      BucketMembers(entries[1..], position);
    }
  }

  /** Taking a bucket out of one bucket leaves all of it or nothing. */
  lemma {:induction false} BucketOfBucket(entries: seq<Entry>, p: string, q: string)
    ensures Bucket(Bucket(entries, q), p) == if p == q then Bucket(entries, q) else []
  {
    if entries != [] {
      BucketOfBucket(entries[1..], p, q);
      FilterConcat(AtPosition(p), if BucketOf(entries[0]) == q then [entries[0]] else [], Bucket(entries[1..], q));
    }
  }

  lemma {:induction false} BucketOfBucketed(entries: seq<Entry>, positions: seq<string>, p: string)
    requires Distinct(positions)
    ensures Bucket(Bucketed(entries, positions), p) == if p in positions then Bucket(entries, p) else []
  {
    if positions != [] {
      DistinctTail(positions);
      BucketOfBucketed(entries, positions[1..], p);
      BucketOfBucket(entries, p, positions[0]);
      FilterConcat(AtPosition(p), Bucket(entries, positions[0]), Bucketed(entries, positions[1..]));
    }
  }

  lemma {:induction false} BucketedAgrees(a: seq<Entry>, b: seq<Entry>, positions: seq<string>)
    requires forall p <- positions :: Bucket(a, p) == Bucket(b, p)
    ensures Bucketed(a, positions) == Bucketed(b, positions)
  {
    if positions != [] {
      BucketedAgrees(a, b, positions[1..]);
    }
  }

  lemma {:induction false} BucketedMembers(entries: seq<Entry>, positions: seq<string>)
    ensures forall e <- Bucketed(entries, positions) :: e in entries
  {
    if positions != [] {
      BucketMembers(entries, positions[0]);
      BucketedMembers(entries, positions[1..]);
    }
  }

  lemma BucketedTwice(entries: seq<Entry>)
    ensures Bucketed(Bucketed(entries, LIST_OP_POSITIONS), LIST_OP_POSITIONS) == Bucketed(entries, LIST_OP_POSITIONS)
  {
    forall p <- LIST_OP_POSITIONS ensures Bucket(Bucketed(entries, LIST_OP_POSITIONS), p) == Bucket(entries, p) {
      BucketOfBucketed(entries, LIST_OP_POSITIONS, p);
    }
    BucketedAgrees(Bucketed(entries, LIST_OP_POSITIONS), entries, LIST_OP_POSITIONS);
  }

  /** A normal form is its own normal form. */
  lemma CanonicalIsIdempotent<D(!new)>(
    c: Codec<D>, entries: seq<Entry>, authored: Option<bool>, isExplicit: bool, references: bool, s: State)
    requires RoundTrips(c)
    requires CanonicalState(c, entries, authored, isExplicit, references) == Some(s)
    ensures AllCanonical(c, s.entries, s.isExplicit, references)
    ensures CanonicalState(c, s.entries, Some(s.authored), s.isExplicit, references) == Some(s)
  {
    var normalized := CanonicalEntries(c, entries, isExplicit, references).value;
    EntriesAreCanonical(c, entries, isExplicit, references);
    if !isExplicit {
      BucketedMembers(normalized, LIST_OP_POSITIONS);
      BucketedTwice(normalized);
    }
    EntriesAreCanonical(c, s.entries, isExplicit, references);
    if !s.authored {
      assert normalized == [];
      assert Bucketed(normalized, LIST_OP_POSITIONS) == [];
    }
  }

  // ---------------------------------------------------------------- list operations

  datatype Item<D> = Item(assetPath: string, primPath: string, offset: real, scale: real, customData: D)

  /** An authored list operation; a bucket that was never set is empty. */
  datatype ListOp<D> = ListOp(isExplicit: bool, explicitItems: seq<Item<D>>, buckets: map<string, seq<Item<D>>>)

  function ItemsAt<D>(op: ListOp<D>, position: string): seq<Item<D>> {
    if position in op.buckets then op.buckets[position] else []
  }

  /** What a list operation keeps of the items set on one bucket. */
  type Store<!D> = seq<Item<D>> -> seq<Item<D>>

  ghost predicate KeepsDistinct<D(!new)>(store: Store<D>) {
    forall items :: Distinct(items) ==> store(items) == items
  }

  /** One arc field of a prim spec: no spec, a spec without the field, or the field's list operation. */
  type Field<D> = Option<Option<ListOp<D>>>

  // ---------------------------------------------------------------- reading

  function EntryOf<D>(c: Codec<D>, item: Item<D>, position: Option<string>, references: bool): Entry {
    Entry(position, Slashes(item.assetPath), item.primPath, item.offset, item.scale,
          if references then c.serialize(item.customData) else "")
  }

  function PositionKey(position: string): Option<string> {
    if position == "prepended" then None else Some(position)
  }

  function ReadItems<D>(c: Codec<D>, items: seq<Item<D>>, position: Option<string>, references: bool): (r: seq<Entry>)
    ensures |r| == |items| && forall i :: 0 <= i < |r| ==> r[i] == EntryOf(c, items[i], position, references)
  {
    seq(|items|, i requires 0 <= i < |items| => EntryOf(c, items[i], position, references))
  }

  function ReadBuckets<D>(c: Codec<D>, op: ListOp<D>, positions: seq<string>, references: bool): seq<Entry> {
    if positions == [] then []
    else
      ReadBuckets(c, op, positions[..|positions| - 1], references)
      + ReadItems(c, ItemsAt(op, positions[|positions| - 1]), PositionKey(positions[|positions| - 1]), references)
  }

  function ReadState<D>(c: Codec<D>, field: Field<D>, references: bool): State {
    if field.None? || field.value.None? then State([], false, false)
    else
      var op := field.value.value;
      State(if op.isExplicit then ReadItems(c, op.explicitItems, None, references)
            else ReadBuckets(c, op, LIST_OP_POSITIONS, references),
            true, op.isExplicit)
  }

  // ---------------------------------------------------------------- applying

  function ItemOf<D>(c: Codec<D>, e: Entry, references: bool): Item<D> {
    Item(e.assetPath, e.primPath, e.offset, e.scale,
         if references && c.parse(e.fragment).Some? then c.parse(e.fragment).value else c.empty)
  }

  function ItemsOf<D>(c: Codec<D>, entries: seq<Entry>, references: bool): (r: seq<Item<D>>)
    ensures |r| == |entries| && forall i :: 0 <= i < |r| ==> r[i] == ItemOf(c, entries[i], references)
  {
    seq(|entries|, i requires 0 <= i < |entries| => ItemOf(c, entries[i], references))
  }

  /** Normalizing an entry changes neither its bucket nor the item it is stored as, slashes aside. */
  lemma CanonicalKeepsItem<D(!new)>(c: Codec<D>, e: Entry, isExplicit: bool, references: bool)
    requires RoundTrips(c) && CanonicalEntry(c, e, isExplicit, references).Some?
    ensures var r := CanonicalEntry(c, e, isExplicit, references).value;
      && ItemOf(c, r, references) == ItemOf(c, e, references).(assetPath := Slashes(e.assetPath))
      && (!isExplicit ==> BucketOf(r) == BucketOf(e) && BucketOf(e) in LIST_OP_POSITIONS)
      && (isExplicit ==> r.position == None && (e.position == None || e.position == Some("explicit")))
  {
    assert references && e.fragment != "" ==>
      c.parse(c.serialize(c.parse(e.fragment).value)) == Some(c.parse(e.fragment).value);
  }

  /** A list operation with one bucket set per position. */
  function SetBuckets<D>(c: Codec<D>, store: Store<D>, entries: seq<Entry>, positions: seq<string>, references: bool)
    : map<string, seq<Item<D>>>
  {
    if positions == [] then map[]
    else
      var position := positions[|positions| - 1];
      SetBuckets(c, store, entries, positions[..|positions| - 1], references)
        [position := store(ItemsOf(c, Bucket(entries, position), references))]
  }

  function OpOf<D>(c: Codec<D>, store: Store<D>, s: State, references: bool): ListOp<D> {
    if s.isExplicit then ListOp(true, store(ItemsOf(c, s.entries, references)), map[])
    else ListOp(false, [], SetBuckets(c, store, s.entries, LIST_OP_POSITIONS, references))
  }

  /** The field after a canonical state is applied; an unauthored one never creates a spec. */
  function AppliedField<D>(c: Codec<D>, store: Store<D>, field: Field<D>, s: State, references: bool): Field<D> {
    if s.authored then Some(Some(OpOf(c, store, s, references)))
    else if field.Some? then Some(None)
    else None
  }

  lemma {:induction false} SetBucketsAt<D>(
    c: Codec<D>, store: Store<D>, entries: seq<Entry>, positions: seq<string>, references: bool, p: string)
    requires p in positions
    ensures p in SetBuckets(c, store, entries, positions, references)
    ensures SetBuckets(c, store, entries, positions, references)[p] == store(ItemsOf(c, Bucket(entries, p), references))
  {
    var n := |positions| - 1;
    if p != positions[n] {
      assert positions == positions[..n] + [positions[n]];
      SetBucketsAt(c, store, entries, positions[..n], references, p);
    }
  }

  /** Entries in normal form at one position come back from the items they are stored as. */
  lemma ItemsReadBack<D(!new)>(
    c: Codec<D>, store: Store<D>, entries: seq<Entry>, isExplicit: bool, references: bool, position: Option<string>)
    requires RoundTrips(c) && KeepsDistinct(store)
    requires AllCanonical(c, entries, isExplicit, references) && Distinct(entries)
    requires forall e <- entries :: e.position == position
    ensures ReadItems(c, store(ItemsOf(c, entries, references)), position, references) == entries
  {
    var items := ItemsOf(c, entries, references);
    forall i | 0 <= i < |entries| ensures EntryOf(c, items[i], position, references) == entries[i] {
      assert entries[i] in entries;
    }
    assert Distinct(items);
  }

  lemma {:induction false} BucketDistinct(entries: seq<Entry>, position: string)
    requires Distinct(entries)
    ensures Distinct(Bucket(entries, position))
  {
    if entries != [] {
      var rest := entries[1..];
      BucketDistinct(rest, position);
      BucketMembers(rest, position);
      assert entries[0] !in rest;
    }
  }

  lemma {:induction false} BucketedAppend(entries: seq<Entry>, positions: seq<string>, p: string)
    ensures Bucketed(entries, positions + [p]) == Bucketed(entries, positions) + Bucket(entries, p)
  {
    if positions == [] {
      assert [p][1..] == [];
    } else {
      assert (positions + [p])[1..] == positions[1..] + [p];
      BucketedAppend(entries, positions[1..], p);
    }
  }

  lemma {:induction false} BucketsReadBack<D(!new)>(
    c: Codec<D>, store: Store<D>, entries: seq<Entry>, op: ListOp<D>, positions: seq<string>, references: bool)
    requires RoundTrips(c) && KeepsDistinct(store)
    requires AllCanonical(c, entries, false, references) && Distinct(entries)
    requires forall p <- positions :: ItemsAt(op, p) == store(ItemsOf(c, Bucket(entries, p), references))
    ensures ReadBuckets(c, op, positions, references) == Bucketed(entries, positions)
  {
    if positions != [] {
      var init, p := positions[..|positions| - 1], positions[|positions| - 1];
      InitLast(positions);
      BucketsReadBack(c, store, entries, op, init, references);
      BucketedAppend(entries, init, p);
      BucketMembers(entries, p);
      BucketDistinct(entries, p);
      ItemsReadBack(c, store, Bucket(entries, p), false, references, PositionKey(p));
    }
  }

  /** Applying a valid event without repeated entries and reading back gives its normal form. */
  lemma AppliedReadsBack<D(!new)>(
    c: Codec<D>, store: Store<D>, field: Field<D>,
    entries: seq<Entry>, authored: Option<bool>, isExplicit: bool, references: bool, s: State)
    requires RoundTrips(c) && KeepsDistinct(store)
    requires CanonicalState(c, entries, authored, isExplicit, references) == Some(s) && Distinct(s.entries)
    ensures ReadState(c, AppliedField(c, store, field, s, references), references) == s
  {
    CanonicalIsIdempotent(c, entries, authored, isExplicit, references, s);
    if s.authored && s.isExplicit {
      ItemsReadBack(c, store, s.entries, true, references, None);
    } else if s.authored {
      var op := OpOf(c, store, s, references);
      forall p <- LIST_OP_POSITIONS ensures ItemsAt(op, p) == store(ItemsOf(c, Bucket(s.entries, p), references)) {
        SetBucketsAt(c, store, s.entries, LIST_OP_POSITIONS, references, p);
      }
      BucketsReadBack(c, store, s.entries, op, LIST_OP_POSITIONS, references);
      BucketedFixed(c, entries, authored, references, s);
    } else {
      UnauthoredIsEmpty(c, entries, authored, isExplicit, references, s);
    }
  }

  lemma BucketedFixed<D(!new)>(c: Codec<D>, entries: seq<Entry>, authored: Option<bool>, references: bool, s: State)
    requires CanonicalState(c, entries, authored, false, references) == Some(s)
    ensures Bucketed(s.entries, LIST_OP_POSITIONS) == s.entries
  {
    BucketedTwice(CanonicalEntries(c, entries, false, references).value);
  }

  lemma UnauthoredIsEmpty<D(!new)>(
    c: Codec<D>, entries: seq<Entry>, authored: Option<bool>, isExplicit: bool, references: bool, s: State)
    requires CanonicalState(c, entries, authored, isExplicit, references) == Some(s) && !s.authored
    ensures s == State([], false, false)
  {
    BucketedMembers([], LIST_OP_POSITIONS);
    assert s.entries == Bucketed([], LIST_OP_POSITIONS);
  }

  // ---------------------------------------------------------------- what is read is normal

  lemma {:induction false} ReadBucketsMembers<D(!new)>(
    c: Codec<D>, op: ListOp<D>, positions: seq<string>, references: bool)
    requires RoundTrips(c) && forall p <- positions :: p in LIST_OP_POSITIONS
    ensures AllCanonical(c, ReadBuckets(c, op, positions, references), false, references)
  {
    if positions != [] {
      var init, p := positions[..|positions| - 1], positions[|positions| - 1];
      InitLast(positions);
      ReadBucketsMembers(c, op, init, references);
      ReadItemsCanonical(c, ItemsAt(op, p), PositionKey(p), false, references);
    }
  }

  lemma ReadItemsCanonical<D(!new)>(
    c: Codec<D>, items: seq<Item<D>>, position: Option<string>, isExplicit: bool, references: bool)
    requires RoundTrips(c)
    requires position.Some? ==> !isExplicit && position.value != "prepended" && position.value in LIST_OP_POSITIONS
    ensures AllCanonical(c, ReadItems(c, items, position, references), isExplicit, references)
  {
    forall i | 0 <= i < |items|
      ensures IsCanonical(c, ReadItems(c, items, position, references)[i], isExplicit, references)
    {
      SlashesTwice(items[i].assetPath);
    }
  }

  lemma {:induction false} OneBucket(entries: seq<Entry>, p: string, q: string)
    requires forall e <- entries :: BucketOf(e) == q
    ensures Bucket(entries, p) == if p == q then entries else []
  {
    if entries != [] {
      OneBucket(entries[1..], p, q);
      assert BucketOf(entries[0]) == q;
    }
  }

  lemma {:induction false} BucketOfRead<D>(
    c: Codec<D>, op: ListOp<D>, positions: seq<string>, references: bool, p: string)
    requires Distinct(positions)
    ensures Bucket(ReadBuckets(c, op, positions, references), p)
         == if p in positions then ReadItems(c, ItemsAt(op, p), PositionKey(p), references) else []
  {
    if positions != [] {
      var init, q := positions[..|positions| - 1], positions[|positions| - 1];
      DistinctInit(positions);
      var last := ReadItems(c, ItemsAt(op, q), PositionKey(q), references);
      BucketOfRead(c, op, init, references, p);
      FilterConcat(AtPosition(p), ReadBuckets(c, op, init, references), last);
      OneBucket(last, p, q);
    }
  }

  lemma {:induction false} ReadIsBucketed<D>(
    c: Codec<D>, op: ListOp<D>, entries: seq<Entry>, positions: seq<string>, references: bool)
    requires forall p <- positions :: Bucket(entries, p) == ReadItems(c, ItemsAt(op, p), PositionKey(p), references)
    ensures Bucketed(entries, positions) == ReadBuckets(c, op, positions, references)
  {
    if positions != [] {
      var init, p := positions[..|positions| - 1], positions[|positions| - 1];
      InitLast(positions);
      ReadIsBucketed(c, op, entries, init, references);
      BucketedAppend(entries, init, p);
    }
  }

  lemma ReadOpIsBucketed<D>(c: Codec<D>, op: ListOp<D>, references: bool, positions: seq<string>)
    requires Distinct(positions)
    ensures Bucketed(ReadBuckets(c, op, positions, references), positions) == ReadBuckets(c, op, positions, references)
  {
    var entries := ReadBuckets(c, op, positions, references);
    forall p <- positions ensures Bucket(entries, p) == ReadItems(c, ItemsAt(op, p), PositionKey(p), references) {
      BucketOfRead(c, op, positions, references, p);
    }
    ReadIsBucketed(c, op, entries, positions, references);
  }

  /** Whatever is authored, the state read from it is in normal form. */
  lemma ReadIsCanonical<D(!new)>(c: Codec<D>, field: Field<D>, references: bool)
    requires RoundTrips(c)
    ensures var s := ReadState(c, field, references);
      CanonicalState(c, s.entries, Some(s.authored), s.isExplicit, references) == Some(s)
  {
    var s := ReadState(c, field, references);
    if !s.authored {
      BucketedMembers([], LIST_OP_POSITIONS);
      assert Bucketed([], LIST_OP_POSITIONS) == [];
    } else if s.isExplicit {
      ReadItemsCanonical(c, field.value.value.explicitItems, None, true, references);
      EntriesAreCanonical(c, s.entries, true, references);
    } else {
      ReadBucketsMembers(c, field.value.value, LIST_OP_POSITIONS, references);
      ReadOpIsBucketed(c, field.value.value, references, LIST_OP_POSITIONS);
      EntriesAreCanonical(c, s.entries, false, references);
    }
  }

  /**
   An event is reported unchanged exactly when applying it leaves the normal form of what is authored as it is.
   */
  lemma UnchangedIff<D(!new)>(
    c: Codec<D>, store: Store<D>, field: Field<D>,
    entries: seq<Entry>, authored: Option<bool>, isExplicit: bool, references: bool, s: State)
    requires RoundTrips(c) && KeepsDistinct(store)
    requires CanonicalState(c, entries, authored, isExplicit, references) == Some(s) && Distinct(s.entries)
    ensures ReadState(c, field, references) == s
       <==> ReadState(c, AppliedField(c, store, field, s, references), references) == ReadState(c, field, references)
  {
    AppliedReadsBack(c, store, field, entries, authored, isExplicit, references, s);
  }

  // ---------------------------------------------------------------- the layer

  lemma {:induction false} BucketStep(entries: seq<Entry>, p: string)
    requires entries != []
    ensures var init, e := entries[..|entries| - 1], entries[|entries| - 1];
      Bucket(entries, p) == Bucket(init, p) + if BucketOf(e) == p then [e] else []
  {
    var init, e := entries[..|entries| - 1], entries[|entries| - 1];
    InitLast(entries);
    FilterConcat(AtPosition(p), init, [e]);
  }

  /** Every position's items, in order. */
  ghost predicate Groups<D>(
    c: Codec<D>, grouped: map<string, seq<Item<D>>>, entries: seq<Entry>, positions: seq<string>, references: bool)
  {
    && (forall p :: p in grouped <==> p in positions)
    && forall p <- positions :: grouped[p] == ItemsOf(c, Bucket(entries, p), references)
  }

  lemma GroupsNext<D>(
    c: Codec<D>, grouped: map<string, seq<Item<D>>>, entries: seq<Entry>, positions: seq<string>, references: bool)
    requires entries != [] && BucketOf(entries[|entries| - 1]) in positions
    requires Groups(c, grouped, entries[..|entries| - 1], positions, references)
    ensures var e := entries[|entries| - 1];
      Groups(c, grouped[BucketOf(e) := grouped[BucketOf(e)] + [ItemOf(c, e, references)]], entries, positions,
             references)
  {
    forall p <- positions
      ensures Bucket(entries, p) == Bucket(entries[..|entries| - 1], p)
           + if BucketOf(entries[|entries| - 1]) == p then [entries[|entries| - 1]] else []
    {
      BucketStep(entries, p);
    }
  }

  /** A layer's prim specs by path, each with one arc field. */
  class Layer<D(!new)> {
    const codec: Codec<D>
    const store: Store<D>
    var specs: map<string, Option<ListOp<D>>>

    constructor (codec: Codec<D>, store: Store<D>)
      ensures this.codec == codec && this.store == store && specs == map[]
    {
      this.codec, this.store, specs := codec, store, map[];
    }

    function FieldAt(path: string): Field<D>
      reads this
    {
      if path in specs then Some(specs[path]) else None
    }

    /** Read an exact list operation, bucket by bucket. */
    method ReadArcState(path: string, references: bool) returns (s: State)
      ensures s == ReadState(codec, FieldAt(path), references)
    {
      if path !in specs || specs[path].None? {
        return State([], false, false);
      }
      var op := specs[path].value;
      var entries: seq<Entry> := [];
      if op.isExplicit {
        entries := ReadBucket(op.explicitItems, None, references);
      } else {
        for i := 0 to |LIST_OP_POSITIONS|
          invariant entries == ReadBuckets(codec, op, LIST_OP_POSITIONS[..i], references)
        {
          var position := LIST_OP_POSITIONS[i];
          assert LIST_OP_POSITIONS[..i + 1] == LIST_OP_POSITIONS[..i] + [position];
          var bucket := ReadBucket(ItemsAt(op, position), PositionKey(position), references);
          entries := entries + bucket;
        }
        TakeAll(LIST_OP_POSITIONS);
      }
      s := State(entries, true, op.isExplicit);
    }

    method ReadBucket(items: seq<Item<D>>, position: Option<string>, references: bool) returns (entries: seq<Entry>)
      ensures entries == ReadItems(codec, items, position, references)
    {
      entries := [];
      for i := 0 to |items|
        invariant entries == ReadItems(codec, items[..i], position, references)
      {
        entries := entries + [EntryOf(codec, items[i], position, references)];
      }
      TakeAll(items);
    }

    method GroupByPosition(entries: seq<Entry>, positions: seq<string>, references: bool)
      returns (grouped: map<string, seq<Item<D>>>)
      requires forall e <- entries :: BucketOf(e) in positions
      ensures Groups(codec, grouped, entries, positions, references)
    {
      grouped := map p | p in positions :: [];
      for i := 0 to |entries|
        invariant Groups(codec, grouped, entries[..i], positions, references)
      {
        var position := BucketOf(entries[i]);
        TakeNext(entries, i);
        assert entries[i] in entries;
        GroupsNext(codec, grouped, entries[..i + 1], positions, references);
        grouped := grouped[position := grouped[position] + [ItemOf(codec, entries[i], references)]];
      }
      TakeAll(entries);
    }

    /** Set one bucket after the other. */
    method BuildBuckets(entries: seq<Entry>, positions: seq<string>, references: bool)
      returns (buckets: map<string, seq<Item<D>>>)
      requires forall e <- entries :: BucketOf(e) in positions
      ensures buckets == SetBuckets(codec, store, entries, positions, references)
    {
      var grouped := GroupByPosition(entries, positions, references);
      buckets := map[];
      for i := 0 to |positions|
        invariant buckets == SetBuckets(codec, store, entries, positions[..i], references)
      {
        TakeNext(positions, i);
        assert positions[i] in positions;
        buckets := buckets[positions[i] := store(grouped[positions[i]])];
      }
      TakeAll(positions);
    }

    /** Replace one spec's list operation; a refused event and an unmapped path change nothing. */
    method ApplyArcState(
      target: Option<string>, entries: seq<Entry>, authored: Option<bool>, isExplicit: bool, references: bool)
      returns (outcome: Outcome)
      requires RoundTrips(codec)
      modifies this
      ensures outcome.Done? <==>
        CanonicalState(codec, entries, authored, isExplicit, references).Some? && target.Some?
      ensures outcome.Raised? ==> specs == old(specs)
      ensures outcome.Done? ==>
        var s := CanonicalState(codec, entries, authored, isExplicit, references).value;
        && FieldAt(target.value) == AppliedField(codec, store, old(FieldAt(target.value)), s, references)
        && forall path :: path != target.value ==> FieldAt(path) == old(FieldAt(path))
    {
      var canonical := CanonicalState(codec, entries, authored, isExplicit, references);
      if canonical.None? || target.None? {
        return Raised;
      }
      outcome := Done;
      var s, path := canonical.value, target.value;
      if !s.authored {
        if path in specs {
          specs := specs[path := None];
        }
        return;
      }
      if s.isExplicit {
        specs := specs[path := Some(ListOp(true, store(ItemsOf(codec, s.entries, references)), map[]))];
      } else {
        CanonicalIsIdempotent(codec, entries, authored, isExplicit, references, s);
        var buckets := BuildBuckets(s.entries, LIST_OP_POSITIONS, references);
        specs := specs[path := Some(ListOp(false, [], buckets))];
      }
    }

    /** Whether an arc event differs from what is authored; None when the event is refused. */
    method ArcChanged(
      target: Option<string>, entries: seq<Entry>, authored: Option<bool>, isExplicit: bool, references: bool)
      returns (changed: Option<bool>)
      ensures target.None? ==> changed == Some(true)
      ensures target.Some? ==>
        var incoming := CanonicalState(codec, entries, authored, isExplicit, references);
        changed == if incoming.None? then None
                   else Some(ReadState(codec, FieldAt(target.value), references) != incoming.value)
    {
      if target.None? {
        return Some(true);
      }
      var current := ReadArcState(target.value, references);
      var incoming := CanonicalState(codec, entries, authored, isExplicit, references);
      changed := if incoming.None? then None else Some(current != incoming.value);
    }
  }
}
