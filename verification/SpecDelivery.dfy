/**
 What a receiver holds at one path after it has applied a prepared batch.

 A content has the fields of a spec, with the time samples kept apart. A set-fields event copies the named fields
 from the publisher's layer and leaves the others alone; a spec that the receiver lacks, or holds as another kind,
 is created first, with its kind's required fields. Deleting an ancestor is not a record of the path itself.
 */
module SpecDelivery {
  import opened Wrappers
  import opened ChangeRecords

  datatype Content = Missing | Held(kind: int, fields: map<string, int>, samples: map<Time, int>)

  /** The keys that the spec lists. */
  function Keys(c: Content): set<string>
    requires c.Held?
  {
    c.fields.Keys + (if c.samples == map[] then {} else {"timeSamples"})
  }

  function ViewOf(c: Content, isLayer: bool): SpecView {
    if c.Missing? then NoSpec else Spec(isLayer, Keys(c))
  }

  /** Samples are not among the fields, and a layer's own topology travels in events of its own. */
  predicate Fits(c: Content, isLayer: bool) {
    c.Held? ==> "timeSamples" !in c.fields && (isLayer ==> c.fields.Keys !! TOPOLOGY_FIELDS)
  }

  // ---------------------------------------------------------------- the receiver

  /** A spec without fields, where the receiver has none of the kind. */
  function Opened(r: Content, kind: int): Content {
    if r.Held? && r.kind == kind then r else Held(kind, map[], map[])
  }

  /** Copy the selected fields, absent ones included. */
  function Copied(r: Content, selected: set<string>, now: Content): Content
    requires r.Held? && now.Held?
  {
    Held(r.kind,
         map f | f in r.fields.Keys + now.fields.Keys && (if f in selected then f in now.fields else f in r.fields)
           :: if f in selected then now.fields[f] else r.fields[f],
         if "timeSamples" in selected then now.samples else r.samples)
  }

  function Written(r: Content, fields: set<string>, now: Content, required: set<string>): Content
    requires now.Held?
  {
    var created := !(r.Held? && r.kind == now.kind);
    Copied(Opened(r, now.kind), fields + (if created then required else {}), now)
  }

  function Erased(r: Content, times: set<Time>): Content {
    if r.Missing? then r else r.(samples := r.samples - times)
  }

  function SentFields(events: set<LayerEvent>, path: string): set<string> {
    set e, f | e in events && e.SetFields? && e.path == path && f in e.fields :: f
  }

  function SentTimes(events: set<LayerEvent>, path: string): set<Time> {
    set e, time | e in events && e.EraseSamples? && e.path == path && time in e.times :: time
  }

  predicate SetsFields(events: set<LayerEvent>, path: string) {
    exists e <- events :: e.SetFields? && e.path == path
  }

  /** What a receiver holds at the path after a batch; exact spec edits come before erased samples. */
  function Receive(
    r: Content, events: set<LayerEvent>, path: string, now: Content, required: set<string>): Content
  {
    if ReplaceContent in events then now
    else if RemoveSpec(path) in events then Missing
    else
      var written := if now.Held? && SetsFields(events, path)
                     then Written(r, SentFields(events, path), now, required) else r;
      Erased(written, SentTimes(events, path))
  }

  // ---------------------------------------------------------------- what records say about a content

  predicate SameField(a: map<string, int>, b: map<string, int>, f: string) {
    (f in a <==> f in b) && (f in a ==> a[f] == b[f])
  }

  predicate SameSample(a: map<Time, int>, b: map<Time, int>, time: Time) {
    (time in a <==> time in b) && (time in a ==> a[time] == b[time])
  }

  /** At most one field changed; the samples are a field too. */
  ghost predicate FieldEdited(field: string, a: Content, b: Content) {
    && a.Held? && b.Held? && a.kind == b.kind
    && (forall f :: f != field ==> SameField(a.fields, b.fields, f))
    && (field != "timeSamples" ==> a.samples == b.samples)
  }

  ghost predicate SampleEdited(time: Time, erased: bool, a: Content, b: Content) {
    && a.Held? && b.Held? && a.kind == b.kind && a.fields == b.fields
    && (forall t :: t != time ==> SameSample(a.samples, b.samples, t))
    && (time in b.samples <==> !erased)
  }

  /** The change recorded at a path took its content from a to b; creating a spec may bring any content. */
  ghost predicate Edited(c: Change, a: Content, b: Content) {
    match c
    case ReplaceLayerContent => true
    case CreateSpec(_) => a.Missing? && b.Held?
    case DeleteSpec(_) => a.Held? && b.Missing?
    case SetTimeSample(time, erased) =>
      if time == None then FieldEdited("timeSamples", a, b) else SampleEdited(time.value, erased, a, b)
    case SetSubLayers(field) => FieldEdited(field, a, b)
    case SetChildren => a == b
    case SetField(field) => FieldEdited(field, a, b)
  }

  /** The contents of a path before, between and after the records of its layer. */
  ghost predicate History(path: string, isLayer: bool, ms: seq<Mutation>, contents: seq<Content>) {
    && |contents| == |ms| + 1
    && (forall i :: 0 <= i < |contents| ==> Fits(contents[i], isLayer))
    && forall i :: 0 <= i < |ms| ==>
         if ms[i].path == path then Edited(ms[i].change, contents[i], contents[i + 1])
         else ms[i].change.ReplaceLayerContent? || contents[i + 1] == contents[i]
  }

  // ---------------------------------------------------------------- what an entry knows

  /** Without a creation, the fields and samples that the entry does not name are those at the start. */
  ghost predicate Kept(start: Content, now: Content, p: PathChanges) {
    && start.Held? && now.Held? && start.kind == now.kind
    && (forall f :: f !in p.fields ==> SameField(start.fields, now.fields, f))
    && ("timeSamples" !in p.fields ==>
          && (forall t :: t !in p.writtenTimes + p.erasedTimes ==> SameSample(start.samples, now.samples, t))
          && (forall t :: t in p.erasedTimes ==> t !in now.samples))
  }

  /** No sample stands at an erased time. */
  ghost predicate ErasedAreGone(now: Content, p: PathChanges) {
    now.Held? && "timeSamples" !in p.fields ==> forall t :: t in p.erasedTimes ==> t !in now.samples
  }

  /** What the entry of a path says about two of the path's contents, whenever its records began. */
  ghost predicate Tracks(start: Content, now: Content, p: PathChanges) {
    && (start.Held? && now.Missing? ==> RemovedSpec in p.flags)
    && (start.Missing? && now.Held? ==> Added in p.flags)
    && (now.Held? && Added !in p.flags ==> Kept(start, now, p))
    && (now.Held? && start.Held? && RemovedSpec !in p.flags ==> Kept(start, now, p))
    && (RemovedSpec !in p.flags ==> ErasedAreGone(now, p))
    && (TimeSamples !in p.flags ==> p.writtenTimes + p.erasedTimes == {})
    && (now.Missing? && RemovedSpec !in p.flags ==> p.writtenTimes + p.erasedTimes == {})
  }

  lemma FieldTracked(start: Content, a: Content, b: Content, p: PathChanges, q: PathChanges, field: string)
    requires Tracks(start, a, p) && FieldEdited(field, a, b)
    requires q.fields == p.fields + {field} && p.flags <= q.flags <= p.flags + {TimeSamples, SubLayers}
    requires q.writtenTimes == p.writtenTimes && q.erasedTimes == p.erasedTimes
    ensures Tracks(start, b, q)
  {
    if Kept(start, a, p) {
      forall f | f !in q.fields ensures SameField(start.fields, b.fields, f) {
        assert SameField(a.fields, b.fields, f);
        assert SameField(start.fields, a.fields, f);
      }
    }
  }

  lemma SampleTracked(
    start: Content, a: Content, b: Content, p: PathChanges, q: PathChanges, time: Time, erased: bool)
    requires Tracks(start, a, p) && SampleEdited(time, erased, a, b)
    requires q.flags == p.flags + {TimeSamples} && q.fields == p.fields
    requires q.writtenTimes == if erased then p.writtenTimes - {time} else p.writtenTimes + {time}
    requires q.erasedTimes == if erased then p.erasedTimes + {time} else p.erasedTimes - {time}
    ensures Tracks(start, b, q)
  {
    forall t ensures t in q.erasedTimes && t != time ==> t in p.erasedTimes && SameSample(a.samples, b.samples, t) {
    }
    if Kept(start, a, p) && "timeSamples" !in q.fields {
      forall t | t !in q.writtenTimes + q.erasedTimes ensures SameSample(start.samples, b.samples, t) {
        assert t !in p.writtenTimes + p.erasedTimes;
        assert SameSample(a.samples, b.samples, t);
      }
    }
  }

  lemma EditTracked(start: Content, a: Content, b: Content, c: LayerChanges, m: Mutation)
    requires m.path != "" && !m.change.ReplaceLayerContent?
    requires Tracks(start, a, PathEntry(c, m.path)) && Edited(m.change, a, b)
    ensures Tracks(start, b, PathEntry(MergeMutation(c, m), m.path))
  {
    var p, q := PathEntry(c, m.path), PathEntry(MergeMutation(c, m), m.path);
    match m.change
    case CreateSpec(_) => assert q == p.(flags := p.flags + {Added});
    case DeleteSpec(_) => assert q == p.(flags := p.flags + {RemovedSpec});
    case SetTimeSample(time, erased) =>
      if time == None {
        FieldTracked(start, a, b, p, q, "timeSamples");
      } else {
        SampleTracked(start, a, b, p, q, time.value, erased);
      }
    case SetSubLayers(field) => FieldTracked(start, a, b, p, q, field);
    case SetChildren =>
    case SetField(field) => FieldTracked(start, a, b, p, q, field);
  }

  lemma OthersUntouched(c: LayerChanges, m: Mutation, path: string)
    requires m.path != path
    ensures PathEntry(MergeMutation(c, m), path) == PathEntry(c, path)
  {
  }

  /** The entry of all records tracks the path from any content of its history on. */
  lemma {:induction false} HistoryTracked(
    path: string, isLayer: bool, ms: seq<Mutation>, contents: seq<Content>, k: nat)
    requires path != "" && History(path, isLayer, ms, contents) && k <= |ms|
    requires forall m <- ms :: !m.change.ReplaceLayerContent?
    ensures Tracks(contents[k], contents[|ms|], PathEntry(MergeAll(NO_CHANGES, ms), path))
    decreases |ms|, k
  {
    var p := PathEntry(MergeAll(NO_CHANGES, ms), path);
    if k == |ms| {
      if k > 0 {
        HistoryTracked(path, isLayer, ms, contents, 0);
        TracksItself(contents[0], contents[k], p);
      }
    } else {
      var n := |ms| - 1;
      HistoryTracked(path, isLayer, ms[..n], contents[..n + 1], k);
      if ms[n].path == path {
        EditTracked(contents[k], contents[n], contents[n + 1], MergeAll(NO_CHANGES, ms[..n]), ms[n]);
      } else {
        OthersUntouched(MergeAll(NO_CHANGES, ms[..n]), ms[n], path);
      }
    }
  }

  lemma TracksItself(start: Content, now: Content, p: PathChanges)
    requires Tracks(start, now, p)
    ensures Tracks(now, now, p)
  {
  }

  // ---------------------------------------------------------------- when a batch makes the contents equal

  /** A key that the spec lost by being deleted and created again as the same kind, and that no record names. */
  ghost predicate Relic(start: Content, now: Content, p: PathChanges, f: string) {
    && start.Held? && now.Held? && start.kind == now.kind && Added in p.flags
    && f in Keys(start) && f !in Keys(now) && f !in p.fields && !(f == "timeSamples" && TimeSamples in p.flags)
  }

  lemma SentAt(path: string, p: PathChanges, v: SpecView)
    ensures var events := EventsAt(path, p, v);
      && ReplaceContent !in events
      && (RemoveSpec(path) in events <==> v.NoSpec? && RemovedSpec in p.flags)
      && SentFields(events, path) == (if v.Spec? then OwnFields(p, v) else {})
      && SentTimes(events, path)
         == (if v.Spec? && TimeSamples in p.flags && p.ErasesSamplesOnly() then p.erasedTimes else {})
      && (SetsFields(events, path) <==> v.Spec? && (OwnFields(p, v) != {} || Added in p.flags))
  {
  }

  /** Which keys a publisher sends of a spec that it created since. */
  lemma AddedSends(p: PathChanges, now: Content, isLayer: bool, f: string)
    requires now.Held? && Added in p.flags && Fits(now, isLayer)
    ensures isLayer ==> f in TOPOLOGY_FIELDS ==> f !in OwnFields(p, ViewOf(now, isLayer))
    ensures !(isLayer && f in TOPOLOGY_FIELDS) ==>
      (f in OwnFields(p, ViewOf(now, isLayer))
       <==> f in Keys(now) || f in p.fields || (f == "timeSamples" && TimeSamples in p.flags))
  {
  }

  /** The spec that the receiver is left with, once it is of the same kind. */
  ghost predicate CopyComplete(r: Content, selected: set<string>, now: Content)
    requires r.Held? && now.Held?
  {
    && (forall f :: f !in selected ==> SameField(r.fields, now.fields, f))
    && ("timeSamples" !in selected ==> r.samples == now.samples)
  }

  lemma CopiedIff(r: Content, selected: set<string>, now: Content)
    requires r.Held? && now.Held? && r.kind == now.kind
    ensures Copied(r, selected, now) == now <==> CopyComplete(r, selected, now)
  {
    var w := Copied(r, selected, now);
    forall f ensures f in selected ==> SameField(w.fields, now.fields, f)
             ensures f !in selected ==> SameField(w.fields, r.fields, f) {
    }
    if CopyComplete(r, selected, now) {
      forall f ensures SameField(w.fields, now.fields, f) {
        assert f !in selected ==> SameField(r.fields, now.fields, f);
      }
      SameFields(w.fields, now.fields);
    }
  }

  lemma SameFields(a: map<string, int>, b: map<string, int>)
    requires forall f :: SameField(a, b, f)
    ensures a == b
  {
    forall f ensures f in a <==> f in b {
      assert SameField(a, b, f);
    }
    forall f | f in a ensures a[f] == b[f] {
      assert SameField(a, b, f);
    }
  }

  lemma SameSamples(a: map<Time, int>, b: map<Time, int>)
    requires forall t :: SameSample(a, b, t)
    ensures a == b
  {
    forall t ensures t in a <==> t in b {
      assert SameSample(a, b, t);
    }
    forall t | t in a ensures a[t] == b[t] {
      assert SameSample(a, b, t);
    }
  }

  /** A created spec gets all its keys; one of the same kind gets them too, and may keep others. */
  lemma AddedDelivered(start: Content, now: Content, p: PathChanges, isLayer: bool, required: set<string>)
    requires Fits(start, isLayer) && Fits(now, isLayer) && now.Held? && Added in p.flags
    ensures Written(start, OwnFields(p, ViewOf(now, isLayer)), now, required) == now
       <==> forall f :: !Relic(start, now, p, f)
  {
    var own := OwnFields(p, ViewOf(now, isLayer));
    if start.Held? && start.kind == now.kind {
      CopiedIff(start, own, now);
      RelicIsUnsent(start, now, p, isLayer);
      assert own + {} == own;
    } else {
      var empty := Held(now.kind, map[], map[]);
      CopiedIff(empty, own + required, now);
      forall f | f !in own + required ensures SameField(empty.fields, now.fields, f) {
        AddedSends(p, now, isLayer, f);
      }
      AddedSends(p, now, isLayer, "timeSamples");
    }
  }

  lemma RelicIsUnsent(start: Content, now: Content, p: PathChanges, isLayer: bool)
    requires Fits(start, isLayer) && Fits(now, isLayer) && Added in p.flags
    requires start.Held? && now.Held? && start.kind == now.kind
    ensures CopyComplete(start, OwnFields(p, ViewOf(now, isLayer)), now) <==> forall f :: !Relic(start, now, p, f)
  {
    var own := OwnFields(p, ViewOf(now, isLayer));
    AddedSends(p, now, isLayer, "timeSamples");
    if CopyComplete(start, own, now) {
      forall f ensures !Relic(start, now, p, f) {
        AddedSends(p, now, isLayer, f);
        assert f !in own ==> SameField(start.fields, now.fields, f);
      }
    }
    if forall f :: !Relic(start, now, p, f) {
      forall f | f !in own ensures SameField(start.fields, now.fields, f) {
        AddedSends(p, now, isLayer, f);
        assert !Relic(start, now, p, f);
      }
      assert !Relic(start, now, p, "timeSamples");
    }
  }

  /** Without a creation, what is not sent is as it was. */
  lemma KeptDelivered(start: Content, now: Content, p: PathChanges, isLayer: bool, required: set<string>)
    requires Fits(start, isLayer) && Fits(now, isLayer) && Added !in p.flags && Kept(start, now, p)
    requires TimeSamples !in p.flags ==> p.writtenTimes + p.erasedTimes == {}
    ensures var own := OwnFields(p, ViewOf(now, isLayer));
      var r := if own == {} then start else Written(start, own, now, required);
      Erased(r, if TimeSamples in p.flags && p.ErasesSamplesOnly() then p.erasedTimes else {}) == now
  {
    var own := OwnFields(p, ViewOf(now, isLayer));
    var r := if own == {} then start else Written(start, own, now, required);
    forall f ensures SameField(r.fields, now.fields, f) {
      assert f !in p.fields ==> SameField(start.fields, now.fields, f);
    }
    SameFields(r.fields, now.fields);
    var times := if TimeSamples in p.flags && p.ErasesSamplesOnly() then p.erasedTimes else {};
    var e := Erased(r, times);
    forall t ensures SameSample(e.samples, now.samples, t) {
      assert "timeSamples" !in p.fields && t !in p.writtenTimes + p.erasedTimes ==>
        SameSample(start.samples, now.samples, t);
    }
    SameSamples(e.samples, now.samples);
  }

  /**
   Once the entry has tracked the content from the start, a receiver that held the start's content holds the new
   one after the batch, exactly when no key was lost by deleting the spec and creating it again.
   */
  lemma EntryDelivers(
    start: Content, now: Content, path: string, p: PathChanges, isLayer: bool, required: set<string>)
    requires Tracks(start, now, p) && Fits(start, isLayer) && Fits(now, isLayer)
    ensures Receive(start, EventsAt(path, p, ViewOf(now, isLayer)), path, now, required) == now
       <==> forall f :: !Relic(start, now, p, f)
  {
    SentAt(path, p, ViewOf(now, isLayer));
    if now.Held? {
      if Added in p.flags {
        AddedDelivered(start, now, p, isLayer, required);
        var w := Written(start, OwnFields(p, ViewOf(now, isLayer)), now, required);
        assert w.samples - {} == w.samples;
      } else {
        KeptDelivered(start, now, p, isLayer, required);
      }
    }
  }

  lemma RelicIsFlagged(start: Content, now: Content, p: PathChanges, f: string)
    requires Tracks(start, now, p) && Relic(start, now, p, f)
    ensures Added in p.flags && RemovedSpec in p.flags
  {
    if RemovedSpec !in p.flags {
      assert Kept(start, now, p);
      assert SameField(start.fields, now.fields, f);
      SameSamples(start.samples, now.samples);
    }
  }

  /**
   For every history of a path, a receiver that held any earlier content of it holds the last one after the batch,
   exactly when no key was lost by deleting the spec and creating it again without a record that names the key.
   */
  lemma DeliveredIff(
    path: string, isLayer: bool, ms: seq<Mutation>, contents: seq<Content>, k: nat, required: set<string>)
    requires path != "" && History(path, isLayer, ms, contents) && k <= |ms|
    requires forall m <- ms :: !m.change.ReplaceLayerContent?
    ensures var held, now, p := contents[k], contents[|ms|], PathEntry(MergeAll(NO_CHANGES, ms), path);
      && (Receive(held, EventsAt(path, p, ViewOf(now, isLayer)), path, now, required) == now
          <==> forall f :: !Relic(held, now, p, f))
      && ((exists f :: Relic(held, now, p, f)) ==> Added in p.flags && RemovedSpec in p.flags)
  {
    var held, now, p := contents[k], contents[|ms|], PathEntry(MergeAll(NO_CHANGES, ms), path);
    HistoryTracked(path, isLayer, ms, contents, k);
    EntryDelivers(held, now, path, p, isLayer, required);
    if f :| Relic(held, now, p, f) {
      RelicIsFlagged(held, now, p, f);
    }
  }

  lemma RecreatedEntry(path: string, deletion: Mutation, creation: Mutation)
    requires path != "" && deletion.path == path && deletion.change == DeleteSpec(false)
    requires creation.path == path && creation.change == CreateSpec(false)
    ensures PathEntry(MergeAll(NO_CHANGES, [deletion, creation]), path)
         == PathChanges({RemovedSpec, Added}, {}, {}, {})
  {
    assert [deletion, creation][..1] == [deletion] && [deletion][..0] == [];
    assert MergeAll(NO_CHANGES, [deletion]) == MergeMutation(NO_CHANGES, deletion);
  }

  lemma RecreatedReceives(path: string, p: PathChanges, start: Content, now: Content, required: set<string>)
    requires p == PathChanges({RemovedSpec, Added}, {}, {}, {})
    requires start.Held? && now == Held(start.kind, start.fields, map[]) && start.fields == map["typeName" := 1]
    ensures EventsAt(path, p, ViewOf(now, false)) == {SetFields(path, {"typeName"})}
    ensures Receive(start, EventsAt(path, p, ViewOf(now, false)), path, now, required) == start
  {
    SentAt(path, p, ViewOf(now, false));
    assert OwnFields(p, ViewOf(now, false)) == {"typeName"};
    SameFields(Copied(start, {"typeName"}, now).fields, start.fields);
  }

  /** Deleting an attribute with samples and creating it again without any leaves them on receivers. */
  lemma RecreatedKeepsSamples(layer: string, path: string, kind: int, samples: map<Time, int>, required: set<string>)
    requires path != "" && samples != map[]
    ensures var ms := [Mutation(layer, path, DeleteSpec(false)), Mutation(layer, path, CreateSpec(false))];
      var start, now := Held(kind, map["typeName" := 1], samples), Held(kind, map["typeName" := 1], map[]);
      var events := EventsAt(path, PathEntry(MergeAll(NO_CHANGES, ms), path), ViewOf(now, false));
      && History(path, false, ms, [start, Missing, now])
      && events == {SetFields(path, {"typeName"})}
      && Receive(start, events, path, now, required) == start
      && start != now
  {
    var start, now := Held(kind, map["typeName" := 1], samples), Held(kind, map["typeName" := 1], map[]);
    RecreatedEntry(path, Mutation(layer, path, DeleteSpec(false)), Mutation(layer, path, CreateSpec(false)));
    RecreatedReceives(path, PathChanges({RemovedSpec, Added}, {}, {}, {}), start, now, required);
  }

  // ---------------------------------------------------------------- a batch of many paths

  lemma NothingForOthers(path: string, other: string, p: PathChanges, v: SpecView)
    requires other != path
    ensures forall e <- EventsAt(other, p, v) :: e != RemoveSpec(path)
    ensures forall e <- EventsAt(other, p, v) :: e.SetFields? || e.EraseSamples? ==> e.path != path
  {
  }

  /** At one path a batch does what the events of that path do. */
  lemma BatchAtPath(
    c: LayerChanges, view: string -> SpecView, revision: int, path: string, r: Content, now: Content,
    required: set<string>)
    requires !c.replacement
    ensures Receive(r, Materialized(c, view, revision), path, now, required)
         == Receive(r, EventsAt(path, PathEntry(c, path), view(path)), path, now, required)
  {
    var all, own := Materialized(c, view, revision), EventsAt(path, PathEntry(c, path), view(path));
    SentAt(path, PathEntry(c, path), view(path));
    forall e: LayerEvent | e == RemoveSpec(path) || ((e.SetFields? || e.EraseSamples?) && e.path == path)
      ensures e in all <==> e in own
    {
      forall other | other in c.paths && other != path ensures e !in EventsAt(other, c.paths[other], view(other)) {
        NothingForOthers(path, other, c.paths[other], view(other));
      }
    }
    assert SentFields(all, path) == SentFields(own, path);
    assert SentTimes(all, path) == SentTimes(own, path);
    assert SetsFields(all, path) <==> SetsFields(own, path) by {
      if e :| e in all && e.SetFields? && e.path == path {
        assert e in own;
      }
      if e :| e in own && e.SetFields? && e.path == path {
        assert e in all;
      }
    }
  }
}
