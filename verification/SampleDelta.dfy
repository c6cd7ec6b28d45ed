/**
 Sample tables sent as deltas against a cache of fingerprints.

 What a value is transported as, and its fingerprint, are parameters. A value that has no transported form is
 sent by another route as an exact layer value; the cache keeps its time without a fingerprint.
 */
module SampleDelta {
  import opened Wrappers
  import opened ChangeRecords

  datatype Transport<!V, !W, !H> = Transport(convert: V -> Option<W>, fingerprint: W -> H)

  /** Fingerprint of each transported time; None for a time whose value was not transported. */
  type Cache<H> = map<Time, Option<H>>

  function Mark<V, W, H>(tr: Transport<V, W, H>, value: V): Option<H> {
    var w := tr.convert(value);
    if w.None? then None else Some(tr.fingerprint(w.value))
  }

  function Fingerprints<V, W, H>(tr: Transport<V, W, H>, table: map<Time, V>): Cache<H> {
    map t | t in table :: Mark(tr, table[t])
  }

  function Cached<H>(cached: Option<Cache<H>>): Cache<H> {
    if cached.None? then map[] else cached.value
  }

  // ---------------------------------------------------------------- the delta

  datatype Sample<W> = Sample(time: Time, value: W)

  predicate IsDirty<V, W, H(==)>(tr: Transport<V, W, H>, cached: Cache<H>, t: Time, value: V) {
    Mark(tr, value).Some? && !(t in cached && cached[t] == Mark(tr, value))
  }

  /** The changed samples among the listed times, in listed order. */
  function Dirty<V, W, H(==)>(
    tr: Transport<V, W, H>, cached: Cache<H>, table: map<Time, V>, times: seq<Time>): seq<Sample<W>>
    requires forall t <- times :: t in table
  {
    if times == [] then []
    else
      var init, t := times[..|times| - 1], times[|times| - 1];
      InitLast(times);
      Dirty(tr, cached, table, init)
      + if IsDirty(tr, cached, t, table[t]) then [Sample(t, tr.convert(table[t]).value)] else []
  }

  lemma DirtyNext<V, W, H>(tr: Transport<V, W, H>, cached: Cache<H>, table: map<Time, V>, times: seq<Time>, i: nat)
    requires i < |times| && forall t <- times :: t in table
    ensures Dirty(tr, cached, table, times[..i + 1])
         == Dirty(tr, cached, table, times[..i])
            + if IsDirty(tr, cached, times[i], table[times[i]])
              then [Sample(times[i], tr.convert(table[times[i]]).value)] else []
  {
    TakeNext(times, i);
  }

  function Marks<V, W, H>(tr: Transport<V, W, H>, table: map<Time, V>, times: seq<Time>): (r: Cache<H>)
    requires forall t <- times :: t in table
    ensures forall t :: t in r <==> t in times
    ensures forall t :: t in r ==> r[t] == Mark(tr, table[t])
  {
    if times == [] then map[]
    else
      var init, t := times[..|times| - 1], times[|times| - 1];
      InitLast(times);
      Marks(tr, table, init)[t := Mark(tr, table[t])]
  }

  lemma MarksNext<V, W, H>(tr: Transport<V, W, H>, table: map<Time, V>, times: seq<Time>, i: nat)
    requires i < |times| && forall t <- times :: t in table
    ensures Marks(tr, table, times[..i + 1]) == Marks(tr, table, times[..i])[times[i] := Mark(tr, table[times[i]])]
  {
    TakeNext(times, i);
  }

  /** Times lists a table's times once each. */
  ghost predicate Lists<V>(times: seq<Time>, table: map<Time, V>) {
    Distinct(times) && forall t :: t in times <==> t in table
  }

  lemma MarksAreFingerprints<V, W, H>(tr: Transport<V, W, H>, table: map<Time, V>, times: seq<Time>)
    requires Lists(times, table)
    ensures Marks(tr, table, times) == Fingerprints(tr, table)
    ensures table.Keys == set t | t in times
  {
  }

  /** The loop over the listed times. */
  method CompareSamples<V, W, H(==)>(
    tr: Transport<V, W, H>, times: seq<Time>, table: map<Time, V>, cached: Cache<H>, collectChanges: bool)
    returns (newCache: Cache<H>, dirty: seq<Sample<W>>)
    requires forall t <- times :: t in table
    ensures newCache == Marks(tr, table, times)
    ensures dirty == if collectChanges then Dirty(tr, cached, table, times) else []
  {
    newCache, dirty := map[], [];
    for i := 0 to |times|
      invariant newCache == Marks(tr, table, times[..i])
      invariant dirty == if collectChanges then Dirty(tr, cached, table, times[..i]) else []
    {
      var t := times[i];
      MarksNext(tr, table, times, i);
      DirtyNext(tr, cached, table, times, i);
      var value := tr.convert(table[t]);
      if value.None? {
        newCache := newCache[t := None];
      } else {
        var h := tr.fingerprint(value.value);
        newCache := newCache[t := Some(h)];
        if collectChanges && !(t in cached && cached[t] == Some(h)) {
          dirty := dirty + [Sample(t, value.value)];
        }
      }
    }
    TakeAll(times);
  }

  method DiffTimeSamples<V, W, H(==)>(
    tr: Transport<V, W, H>, times: seq<Time>, table: map<Time, V>, cached: Option<Cache<H>>, collectChanges: bool)
    returns (newCache: Cache<H>, dirty: seq<Sample<W>>, removed: set<Time>)
    requires Lists(times, table)
    ensures newCache == Fingerprints(tr, table)
    ensures dirty == if collectChanges then Dirty(tr, Cached(cached), table, times) else []
    ensures removed == Cached(cached).Keys - table.Keys
  {
    MarksAreFingerprints(tr, table, times);
    if times == [] {
      return map[], [], Cached(cached).Keys;
    }
    removed := Cached(cached).Keys - set t | t in times;
    newCache, dirty := CompareSamples(tr, times, table, Cached(cached), collectChanges);
  }

  // ---------------------------------------------------------------- the receiver

  function WriteAll<W>(recv: map<Time, W>, samples: seq<Sample<W>>): map<Time, W> {
    if samples == [] then recv
    else WriteAll(recv, samples[..|samples| - 1])[samples[|samples| - 1].time := samples[|samples| - 1].value]
  }

  /** The receiver's table after one delta: erase, then write. */
  function Received<V, W, H(==)>(
    tr: Transport<V, W, H>, recv: map<Time, W>, cached: Cache<H>, table: map<Time, V>, times: seq<Time>): map<Time, W>
    requires forall t <- times :: t in table
  {
    WriteAll(recv - (cached.Keys - table.Keys), Dirty(tr, cached, table, times))
  }

  lemma {:induction false} WrittenAt<V, W, H>(
    tr: Transport<V, W, H>, recv: map<Time, W>, cached: Cache<H>, table: map<Time, V>, times: seq<Time>, t: Time)
    requires forall x <- times :: x in table
    ensures var after := WriteAll(recv, Dirty(tr, cached, table, times));
      if t in times && IsDirty(tr, cached, t, table[t])
      then t in after && after[t] == tr.convert(table[t]).value
      else (t in after <==> t in recv) && (t in recv ==> after[t] == recv[t])
  {
    if times != [] {
      var init, last := times[..|times| - 1], times[|times| - 1];
      InitLast(times);
      WrittenAt(tr, recv, cached, table, init, t);
      var before, dirty := Dirty(tr, cached, table, init), Dirty(tr, cached, table, times);
      if IsDirty(tr, cached, last, table[last]) {
        assert dirty[..|dirty| - 1] == before;
      } else {
        assert dirty == before;
      }
      assert t in times <==> t in init || t == last;
    }
  }

  /** The cache tells the truth about the receiver. */
  ghost predicate Known<V, W, H>(tr: Transport<V, W, H>, recv: map<Time, W>, cached: Cache<H>) {
    && recv.Keys <= cached.Keys
    && forall t :: t in cached && cached[t].Some? ==> t in recv && tr.fingerprint(recv[t]) == cached[t].value
  }

  /** The receiver has no other times than the table's, and every transported value. */
  ghost predicate Exact<V, W, H>(tr: Transport<V, W, H>, recv: map<Time, W>, table: map<Time, V>) {
    && recv.Keys <= table.Keys
    && forall t :: t in table && tr.convert(table[t]).Some? ==> t in recv && recv[t] == tr.convert(table[t]).value
  }

  ghost predicate SameMark<V, W, H>(tr: Transport<V, W, H>, a: W, b: V) {
    tr.convert(b).Some? && tr.fingerprint(a) == tr.fingerprint(tr.convert(b).value)
  }

  /** A fingerprint never takes a transported value for another one. */
  ghost predicate Injective<V(!new), W(!new), H>(tr: Transport<V, W, H>) {
    forall a, b :: SameMark(tr, a, b) ==> a == tr.convert(b).value
  }

  /** The cache after a delta tells the truth whatever the fingerprint, and is the table's fingerprint. */
  lemma DeltaKeepsCacheTrue<V, W, H>(
    tr: Transport<V, W, H>, recv: map<Time, W>, cached: Cache<H>, table: map<Time, V>, times: seq<Time>)
    requires Known(tr, recv, cached) && Lists(times, table)
    ensures Known(tr, Received(tr, recv, cached, table, times), Fingerprints(tr, table))
  {
    var erased := recv - (cached.Keys - table.Keys);
    forall t ensures t in Received(tr, recv, cached, table, times) ==> t in table {
      WrittenAt(tr, erased, cached, table, times, t);
    }
    forall t | t in table && Mark(tr, table[t]).Some?
      ensures var after := Received(tr, recv, cached, table, times);
        t in after && Some(tr.fingerprint(after[t])) == Mark(tr, table[t])
    {
      WrittenAt(tr, erased, cached, table, times, t);
    }
  }

  lemma DeltaIsExact<V(!new), W(!new), H>(
    tr: Transport<V, W, H>, recv: map<Time, W>, cached: Cache<H>, table: map<Time, V>, times: seq<Time>)
    requires Known(tr, recv, cached) && Lists(times, table) && Injective(tr)
    ensures Exact(tr, Received(tr, recv, cached, table, times), table)
  {
    var after := Received(tr, recv, cached, table, times);
    DeltaKeepsCacheTrue(tr, recv, cached, table, times);
    forall t | t in table && tr.convert(table[t]).Some? ensures t in after && after[t] == tr.convert(table[t]).value {
      assert Fingerprints(tr, table)[t] == Mark(tr, table[t]);
      assert SameMark(tr, after[t], table[t]);
    }
  }

  ghost predicate AlwaysExact<V(!new), W(!new), H(!new)>(tr: Transport<V, W, H>) {
    forall recv, cached, table, times :: Known(tr, recv, cached) && Lists(times, table) ==>
      Exact(tr, Received(tr, recv, cached, table, times), table)
  }

  /** Every delta is exact precisely when the fingerprint tells transported values apart. */
  lemma ExactIffInjective<V(!new), W(!new), H(!new)>(tr: Transport<V, W, H>)
    ensures AlwaysExact(tr) <==> Injective(tr)
  {
    if Injective(tr) {
      forall recv, cached, table: map<Time, V>, times | Known(tr, recv, cached) && Lists(times, table)
        ensures Exact(tr, Received(tr, recv, cached, table, times), table)
      {
        DeltaIsExact(tr, recv, cached, table, times);
      }
    }
    if AlwaysExact(tr) {
      forall a, b | SameMark(tr, a, b) ensures a == tr.convert(b).value {
        var t := Time(0.0);
        var recv, cached, table := map[t := a], map[t := Some(tr.fingerprint(a))], map[t := b];
        assert Known(tr, recv, cached) && Lists([t], table);
        WrittenAt(tr, recv - (cached.Keys - table.Keys), cached, table, [t], t);
        assert Exact(tr, Received(tr, recv, cached, table, [t]), table);
        assert t in table;
      }
    }
  }

  // ---------------------------------------------------------------- runs

  /** A new table, listed, and the values that the exact route writes for it. */
  datatype Update<V, W> = Update(times: seq<Time>, table: map<Time, V>, exact: map<Time, W>)

  /** The exact route writes only at times whose value has no transported form. */
  ghost predicate Allowed<V, W, H>(tr: Transport<V, W, H>, u: Update<V, W>) {
    && Lists(u.times, u.table)
    && forall t :: t in u.exact ==> t in u.table && tr.convert(u.table[t]).None?
  }

  datatype Link<W, H> = Link(recv: map<Time, W>, cached: Cache<H>)

  ghost function After<V, W, H>(tr: Transport<V, W, H>, link: Link<W, H>, u: Update<V, W>): Link<W, H>
    requires Allowed(tr, u)
  {
    Link(Received(tr, link.recv, link.cached, u.table, u.times) + u.exact, Fingerprints(tr, u.table))
  }

  ghost function Run<V, W, H>(tr: Transport<V, W, H>, link: Link<W, H>, updates: seq<Update<V, W>>): Link<W, H>
    requires forall u <- updates :: Allowed(tr, u)
  {
    if updates == [] then link
    else
      var n := |updates| - 1;
      assert forall u :: u in updates[..n] ==> u in updates;
      After(tr, Run(tr, link, updates[..n]), updates[n])
  }

  lemma UpdateIsExact<V(!new), W(!new), H>(tr: Transport<V, W, H>, link: Link<W, H>, u: Update<V, W>)
    requires Allowed(tr, u) && Injective(tr) && Known(tr, link.recv, link.cached)
    ensures Known(tr, After(tr, link, u).recv, After(tr, link, u).cached)
    ensures Exact(tr, After(tr, link, u).recv, u.table)
  {
    DeltaKeepsCacheTrue(tr, link.recv, link.cached, u.table, u.times);
    DeltaIsExact(tr, link.recv, link.cached, u.table, u.times);
  }

  /** However often the table changes, the receiver ends with the last one, and the cache is its fingerprint. */
  lemma {:induction false} RunIsExact<V(!new), W(!new), H>(
    tr: Transport<V, W, H>, link: Link<W, H>, updates: seq<Update<V, W>>)
    requires forall u <- updates :: Allowed(tr, u)
    requires Injective(tr) && Known(tr, link.recv, link.cached)
    ensures Known(tr, Run(tr, link, updates).recv, Run(tr, link, updates).cached)
    ensures updates != [] ==>
      && Exact(tr, Run(tr, link, updates).recv, updates[|updates| - 1].table)
      && Run(tr, link, updates).cached == Fingerprints(tr, updates[|updates| - 1].table)
  {
    if updates != [] {
      var n := |updates| - 1;
      assert forall u :: u in updates[..n] ==> u in updates;
      assert updates[n] in updates;
      RunIsExact(tr, link, updates[..n]);
      UpdateIsExact(tr, Run(tr, link, updates[..n]), updates[n]);
    }
  }

  // ---------------------------------------------------------------- the emitter's caches

  /** An attribute of the stage and what the edit target owns of its samples. */
  datatype Attribute<V> = Attribute(name: string, times: seq<Time>, table: map<Time, V>)

  datatype Erasure = Erasure(property: string, times: set<Time>)

  /** The erasures for one attribute: its own name, and the receiver's name for it when that differs. */
  function Erasures(name: string, targetName: Option<string>, removed: set<Time>): seq<Erasure> {
    if removed == {} then []
    else
      [Erasure(name, removed)]
      + if targetName.Some? && targetName.value != name then [Erasure(targetName.value, removed)] else []
  }

  class SampleCaches<V, W, H(==)> {
    const transport: Transport<V, W, H>
    var caches: map<string, Cache<H>>
    var events: seq<Erasure>

    constructor (transport: Transport<V, W, H>)
      ensures this.transport == transport && caches == map[] && events == []
    {
      this.transport, caches, events := transport, map[], [];
    }

    function CacheOf(name: string): Option<Cache<H>>
      reads this
    {
      if name in caches then Some(caches[name]) else None
    }

    /** Update the cache, append the erasures, and return the changed samples. */
    method CollectSampleChanges(attr: Option<Attribute<V>>, targetName: Option<string>) returns (dirty: seq<Sample<W>>)
      requires attr.Some? ==> Lists(attr.value.times, attr.value.table)
      modifies this
      ensures attr.None? ==> dirty == [] && caches == old(caches) && events == old(events)
      ensures attr.Some? ==>
        var a, cached := attr.value, Cached(old(CacheOf(attr.value.name)));
        && dirty == Dirty(transport, cached, a.table, a.times)
        && events == old(events) + Erasures(a.name, targetName, cached.Keys - a.table.Keys)
        && Cached(CacheOf(a.name)) == Fingerprints(transport, a.table)
        && forall n :: n != a.name ==> CacheOf(n) == old(CacheOf(n))
    {
      dirty := [];
      if attr.None? {
        return;
      }
      var name := attr.value.name;
      var cached := CacheOf(name);
      if Cached(cached) == map[] && attr.value.times == [] {
        assert attr.value.table == map[];
        return;
      }
      var newCache, changed, removed :=
        DiffTimeSamples(transport, attr.value.times, attr.value.table, cached, true);
      if removed != {} {
        events := events + [Erasure(name, removed)];
        if targetName.Some? && targetName.value != name {
          events := events + [Erasure(targetName.value, removed)];
        }
      }
      caches := caches[name := newCache];
      dirty := changed;
    }
  }

  // ---------------------------------------------------------------- both names on the receiver

  function TableOf<W>(tables: map<string, map<Time, W>>, property: string): map<Time, W> {
    if property in tables then tables[property] else map[]
  }

  function Erase<W>(tables: map<string, map<Time, W>>, e: Erasure): map<string, map<Time, W>> {
    tables[e.property := TableOf(tables, e.property) - e.times]
  }

  function EraseAll<W>(tables: map<string, map<Time, W>>, es: seq<Erasure>): map<string, map<Time, W>>
    decreases |es|
  {
    if es == [] then tables else EraseAll(Erase(tables, es[0]), es[1..])
  }

  function TargetOf(name: string, targetName: Option<string>): string {
    if targetName.Some? then targetName.value else name
  }

  lemma ErasedAt<W>(
    tables: map<string, map<Time, W>>, name: string, targetName: Option<string>, removed: set<Time>, p: string)
    ensures TableOf(EraseAll(tables, Erasures(name, targetName, removed)), p)
         == if p == name || p == TargetOf(name, targetName) then TableOf(tables, p) - removed else TableOf(tables, p)
  {
    var es := Erasures(name, targetName, removed);
    if es != [] {
      var once := Erase(tables, es[0]);
      assert EraseAll(tables, es) == EraseAll(once, es[1..]);
      assert TableOf(once, p) == if p == name then TableOf(tables, p) - removed else TableOf(tables, p);
      if |es| == 2 {
        assert EraseAll(once, es[1..]) == EraseAll(Erase(once, es[1]), es[1..][1..]);
      }
    }
  }

  /**
   The receiver keeps ordinary values under the target name and exact values under the authored name. Both lose
   the deleted times, and the target's table is the delta's outcome.
   */
  lemma BothNamesAreErased<V, W, H>(
    tr: Transport<V, W, H>, tables: map<string, map<Time, W>>, name: string, targetName: Option<string>,
    cached: Cache<H>, table: map<Time, V>, times: seq<Time>)
    requires Lists(times, table)
    ensures var removed := cached.Keys - table.Keys;
      var target := TargetOf(name, targetName);
      var after := EraseAll(tables, Erasures(name, targetName, removed));
      && WriteAll(TableOf(after, target), Dirty(tr, cached, table, times))
         == Received(tr, TableOf(tables, target), cached, table, times)
      && TableOf(after, name) == TableOf(tables, name) - removed
      && forall p :: p != name && p != target ==> TableOf(after, p) == TableOf(tables, p)
  {
    var removed := cached.Keys - table.Keys;
    forall p { ErasedAt(tables, name, targetName, removed, p); }
  }
}
