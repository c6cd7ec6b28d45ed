/**
 Merging native change records into one pending entry per layer.

 An entry is a value held only by the pending map. `serial` counts the records that changed the entry.
 */
module ChangeRecords {
  import opened Wrappers

  datatype Time = Time(code: real)

  datatype Change =
    | ReplaceLayerContent
    | CreateSpec(isPrim: bool)
    | DeleteSpec(isPrim: bool)
    | SetTimeSample(time: Option<Time>, erased: bool)
    | SetSubLayers(field: string)
    | SetChildren
    | SetField(field: string)

  datatype Mutation = Mutation(layer: string, path: string, change: Change)

  datatype Flag = Added | RemovedSpec | TimeSamples | SubLayers

  datatype PathChanges = PathChanges(
    flags: set<Flag>, fields: set<string>, writtenTimes: set<Time>, erasedTimes: set<Time>)
  {
    predicate ErasesSamplesOnly() {
      erasedTimes != {} && writtenTimes == {} && "timeSamples" !in fields && Added !in flags
    }
  }

  const NO_PATH_CHANGES := PathChanges({}, {}, {}, {})

  datatype LayerChanges = LayerChanges(
    serial: nat, replacement: bool, topology: bool, paths: map<string, PathChanges>)

  const NO_CHANGES := LayerChanges(0, false, false, map[])

  function PathEntry(c: LayerChanges, path: string): PathChanges {
    if path in c.paths then c.paths[path] else NO_PATH_CHANGES
  }

  /** Record flags and fields against one path. */
  function Add(c: LayerChanges, path: string, flags: set<Flag>, fields: set<string>): LayerChanges {
    var p := PathEntry(c, path);
    c.(paths := c.paths[path := p.(flags := p.flags + flags, fields := p.fields + fields)], serial := c.serial + 1)
  }

  function AddSample(p: PathChanges, time: Option<Time>, erased: bool): PathChanges {
    if time == None then p.(fields := p.fields + {"timeSamples"})
    else if erased then
      p.(writtenTimes := p.writtenTimes - {time.value}, erasedTimes := p.erasedTimes + {time.value})
    else
      p.(erasedTimes := p.erasedTimes - {time.value}, writtenTimes := p.writtenTimes + {time.value})
  }

  /** Records without a path and records of internal child tables change nothing. */
  predicate Effective(m: Mutation) {
    m.path != "" && !m.change.SetChildren?
  }

  function MergeMutation(c: LayerChanges, m: Mutation): LayerChanges {
    if !Effective(m) then c
    else match m.change
      case ReplaceLayerContent => c.(replacement := true, topology := true, serial := c.serial + 1)
      case CreateSpec(_) => Add(c, m.path, {Added}, {})
      case DeleteSpec(_) => Add(c, m.path, {RemovedSpec}, {})
      case SetTimeSample(time, erased) =>
        var added := Add(c, m.path, {TimeSamples}, {});
        added.(paths := added.paths[m.path := AddSample(added.paths[m.path], time, erased)])
      case SetSubLayers(field) => Add(c.(topology := true), m.path, {SubLayers}, {field})
      case SetField(field) => Add(c, m.path, {}, {field})
      case SetChildren => c
  }

  // ---------------------------------------------------------------- what an entry materializes to

  /** What a layer holds at a path: nothing can be published for a target path. */
  datatype SpecView = TargetPath | NoSpec | Spec(isLayer: bool, infoKeys: set<string>)

  /** An event of a prepared batch; field values and the order of the events are left open. */
  datatype LayerEvent =
    | ReplaceContent
    | Topology(revision: int)
    | RemoveSpec(path: string)
    | SetFields(path: string, fields: set<string>)
    | EraseSamples(path: string, times: set<Time>)

  const TOPOLOGY_FIELDS := {"subLayers", "subLayerOffsets"}

  function OwnFields(p: PathChanges, v: SpecView): set<string>
    requires v.Spec?
  {
    (p.fields
     + (if TimeSamples in p.flags && !p.ErasesSamplesOnly() then {"timeSamples"} else {})
     + (if Added in p.flags then v.infoKeys else {}))
    - (if v.isLayer then TOPOLOGY_FIELDS else {})
  }

  function EventsAt(path: string, p: PathChanges, v: SpecView): set<LayerEvent> {
    match v
    case TargetPath => {}
    case NoSpec => if RemovedSpec in p.flags then {RemoveSpec(path)} else {}
    case Spec(_, _) =>
      (if TimeSamples in p.flags && p.ErasesSamplesOnly() then {EraseSamples(path, p.erasedTimes)} else {})
      + (if OwnFields(p, v) == {} && Added !in p.flags then {} else {SetFields(path, OwnFields(p, v))})
  }

  function Materialized(c: LayerChanges, view: string -> SpecView, revision: int): set<LayerEvent> {
    (if c.topology then {Topology(revision)} else {})
    + (if c.replacement then {ReplaceContent}
       else set path, e | path in c.paths && e in EventsAt(path, c.paths[path], view(path)) :: e)
  }

  /** Nothing can be published for the changes at one path. */
  predicate SilentAt(p: PathChanges, v: SpecView) {
    match v
    case TargetPath => true
    case NoSpec => RemovedSpec !in p.flags
    case Spec(isLayer, _) =>
      Added !in p.flags && TimeSamples !in p.flags && p.fields <= (if isLayer then TOPOLOGY_FIELDS else {})
  }

  /** The entry is neither a replacement nor a topology change, and no changed path has anything to publish. */
  predicate NothingToSend(c: LayerChanges, view: string -> SpecView) {
    !c.replacement && !c.topology && forall path <- c.paths.Keys :: SilentAt(c.paths[path], view(path))
  }

  lemma SilentIff(path: string, p: PathChanges, v: SpecView)
    ensures EventsAt(path, p, v) == {} <==> SilentAt(p, v)
  {
    if v.NoSpec? && RemovedSpec in p.flags {
      assert RemoveSpec(path) in EventsAt(path, p, v);
    }
    if v.Spec? {
      if TimeSamples in p.flags {
        if p.ErasesSamplesOnly() {
          assert EraseSamples(path, p.erasedTimes) in EventsAt(path, p, v);
        } else {
          assert "timeSamples" in OwnFields(p, v);
          assert SetFields(path, OwnFields(p, v)) in EventsAt(path, p, v);
        }
      } else if Added in p.flags || OwnFields(p, v) != {} {
        assert SetFields(path, OwnFields(p, v)) in EventsAt(path, p, v);
        if Added !in p.flags {
          var field :| field in OwnFields(p, v);
          assert field in p.fields;
        }
      } else {
        forall field | field in p.fields ensures field in if v.isLayer then TOPOLOGY_FIELDS else {} {
          assert field !in OwnFields(p, v);
        }
      }
    }
  }

  /** An entry materializes to nothing exactly when there is nothing to send for it. */
  lemma MaterializesNothingIff(c: LayerChanges, view: string -> SpecView, revision: int)
    ensures Materialized(c, view, revision) == {} <==> NothingToSend(c, view)
  {
    var events := Materialized(c, view, revision);
    if c.topology {
      assert Topology(revision) in events;
    } else if c.replacement {
      assert ReplaceContent in events;
    } else {
      forall path | path in c.paths
        ensures SilentAt(c.paths[path], view(path)) <==> EventsAt(path, c.paths[path], view(path)) == {}
      {
        SilentIff(path, c.paths[path], view(path));
      }
      if events == {} {
        forall path | path in c.paths ensures EventsAt(path, c.paths[path], view(path)) == {} {
          forall e | e in EventsAt(path, c.paths[path], view(path)) ensures e in events {
          }
        }
      }
    }
  }

  /**
   The batch publishes what the record changed, given what the layer holds at the record's path. Of a deletion it
   publishes nothing when a spec is there again; what that means for receivers is the subject of SpecDelivery.
   */
  ghost predicate Carries(events: set<LayerEvent>, m: Mutation, v: SpecView) {
    ReplaceContent in events
    || match m.change
       case ReplaceLayerContent => false
       case SetSubLayers(_) => exists r :: Topology(r) in events
       case SetChildren => true
       case CreateSpec(_) =>
         v.Spec? ==> exists f :: SetFields(m.path, f) in events && (v.isLayer || v.infoKeys <= f)
       case DeleteSpec(_) => v.NoSpec? ==> RemoveSpec(m.path) in events
       case SetTimeSample(time, _) =>
         v.Spec? ==>
           (exists f :: SetFields(m.path, f) in events && "timeSamples" in f)
           || (exists times :: EraseSamples(m.path, times) in events && time.Some? && time.value in times)
       case SetField(field) =>
         v.Spec? && !(v.isLayer && field in TOPOLOGY_FIELDS) ==>
           exists f :: SetFields(m.path, f) in events && field in f
  }

  /** A batch publishes every record that its entry accounts for, as far as the layer still holds the spec. */
  lemma BatchCarries(c: LayerChanges, m: Mutation, view: string -> SpecView, revision: int)
    requires Effective(m) && Reflects(c, m)
    ensures Carries(Materialized(c, view, revision), m, view(m.path))
  {
    var events, v, p := Materialized(c, view, revision), view(m.path), PathEntry(c, m.path);
    if c.replacement {
      assert ReplaceContent in events;
    } else if m.change.SetSubLayers? {
      assert Topology(revision) in events;
    } else if m.path in c.paths {
      forall e | e in EventsAt(m.path, p, v) ensures e in events {
      }
      CarriedAt(p, m, v);
    }
  }

  /** At the record's own path. */
  lemma CarriedAt(p: PathChanges, m: Mutation, v: SpecView)
    requires m.change.CreateSpec? ==> Added in p.flags
    requires m.change.DeleteSpec? ==> RemovedSpec in p.flags
    requires m.change.SetField? ==> m.change.field in p.fields
    requires m.change.SetTimeSample? ==> TimeSamples in p.flags
    requires m.change.SetTimeSample? ==>
      if m.change.time == None then "timeSamples" in p.fields
      else m.change.time.value in p.writtenTimes + p.erasedTimes
    requires !m.change.ReplaceLayerContent? && !m.change.SetSubLayers?
    ensures Carries(EventsAt(m.path, p, v), m, v)
  {
    var events := EventsAt(m.path, p, v);
    if v.Spec? {
      var f := OwnFields(p, v);
      if m.change.SetTimeSample? {
        if p.ErasesSamplesOnly() {
          assert EraseSamples(m.path, p.erasedTimes) in events;
        } else {
          assert "timeSamples" in f && SetFields(m.path, f) in events;
        }
      } else if m.change.CreateSpec? {
        assert SetFields(m.path, f) in events;
      } else if m.change.SetField? && !(v.isLayer && m.change.field in TOPOLOGY_FIELDS) {
        assert m.change.field in f && SetFields(m.path, f) in events;
      }
    }
  }

  // ---------------------------------------------------------------- a merged record is never forgotten

  /** The entry still accounts for the record. */
  predicate Reflects(c: LayerChanges, m: Mutation) {
    var p := PathEntry(c, m.path);
    match m.change
    case ReplaceLayerContent => c.replacement && c.topology
    case CreateSpec(_) => Added in p.flags
    case DeleteSpec(_) => RemovedSpec in p.flags
    case SetTimeSample(time, _) =>
      TimeSamples in p.flags
      && (if time == None then "timeSamples" in p.fields
          else time.value in p.writtenTimes || time.value in p.erasedTimes)
    case SetSubLayers(field) => c.topology && SubLayers in p.flags && field in p.fields
    case SetField(field) => field in p.fields
    case SetChildren => true
  }

  lemma MergedIsReflected(c: LayerChanges, m: Mutation)
    requires Effective(m)
    ensures Reflects(MergeMutation(c, m), m)
    ensures MergeMutation(c, m).serial == c.serial + 1
  {
  }

  /** An entry only grows, time by time: flags, fields and touched times are never dropped. */
  predicate PathGrows(p: PathChanges, q: PathChanges) {
    p.flags <= q.flags && p.fields <= q.fields
    && p.writtenTimes + p.erasedTimes <= q.writtenTimes + q.erasedTimes
  }

  lemma MergeGrows(c: LayerChanges, m: Mutation, path: string)
    ensures PathGrows(PathEntry(c, path), PathEntry(MergeMutation(c, m), path))
    ensures c.replacement ==> MergeMutation(c, m).replacement
    ensures c.topology ==> MergeMutation(c, m).topology
  {
    if Effective(m) && m.change.SetTimeSample? {
      SampleGrows(PathEntry(c, path), m.change.time, m.change.erased);
    }
  }

  lemma SampleGrows(p: PathChanges, time: Option<Time>, erased: bool)
    ensures PathGrows(p, AddSample(p, time, erased))
  {
  }

  lemma EarlierStaysReflected(c: LayerChanges, m: Mutation, earlier: Mutation)
    requires Reflects(c, earlier)
    ensures Reflects(MergeMutation(c, m), earlier)
  {
    MergeGrows(c, m, earlier.path);
    var p, q := PathEntry(c, earlier.path), PathEntry(MergeMutation(c, m), earlier.path);
    if earlier.change.SetTimeSample? && earlier.change.time.Some? {
      assert earlier.change.time.value in p.writtenTimes + p.erasedTimes;
    }
  }

  // ---------------------------------------------------------------- sample records of one path

  datatype SampleRecord = Write(time: Time, value: int) | Erase(time: Time)

  /** The merged entry of a path that received these sample records. */
  function MergeSamples(rs: seq<SampleRecord>): PathChanges {
    if rs == [] then NO_PATH_CHANGES
    else
      var r := rs[|rs| - 1];
      AddSample(MergeSamples(rs[..|rs| - 1]), Some(r.time), r.Erase?)
  }

  /** Replaying the individual records on a sample table. */
  function Replay(table: map<Time, int>, rs: seq<SampleRecord>): map<Time, int> {
    if rs == [] then table
    else
      var before, r := Replay(table, rs[..|rs| - 1]), rs[|rs| - 1];
      match r
      case Write(time, value) => before[time := value]
      case Erase(time) => before - {time}
  }

  /** The last record at a time, if any. */
  function LastAt(rs: seq<SampleRecord>, time: Time): Option<SampleRecord> {
    if rs == [] then None
    else if rs[|rs| - 1].time == time then Some(rs[|rs| - 1])
    else LastAt(rs[..|rs| - 1], time)
  }

  /** Written and erased times are disjoint, split by the last record at each time. */
  lemma {:induction false} SplitByLastRecord(rs: seq<SampleRecord>, time: Time)
    ensures time in MergeSamples(rs).writtenTimes <==> LastAt(rs, time).Some? && LastAt(rs, time).value.Write?
    ensures time in MergeSamples(rs).erasedTimes <==> LastAt(rs, time).Some? && LastAt(rs, time).value.Erase?
    ensures MergeSamples(rs).fields == {} && MergeSamples(rs).flags == {}
  {
    if rs != [] {
      SplitByLastRecord(rs[..|rs| - 1], time);
    }
  }

  lemma TimesDisjoint(rs: seq<SampleRecord>)
    ensures MergeSamples(rs).writtenTimes !! MergeSamples(rs).erasedTimes
  {
    forall time | time in MergeSamples(rs).writtenTimes ensures time !in MergeSamples(rs).erasedTimes {
      SplitByLastRecord(rs, time);
    }
  }

  lemma {:induction false} ReplayAt(table: map<Time, int>, rs: seq<SampleRecord>, time: Time)
    ensures LastAt(rs, time) == None ==>
      (time in Replay(table, rs) <==> time in table) && (time in table ==> Replay(table, rs)[time] == table[time])
    ensures LastAt(rs, time).Some? && LastAt(rs, time).value.Erase? ==> time !in Replay(table, rs)
    ensures LastAt(rs, time).Some? && LastAt(rs, time).value.Write? ==>
      time in Replay(table, rs) && Replay(table, rs)[time] == LastAt(rs, time).value.value
  {
    if rs != [] {
      ReplayAt(table, rs[..|rs| - 1], time);
    }
  }

  /**
   Publishing only the erased times is exact for every table if and only if no written time survives the
   merge; whenever the merged entry claims to erase samples only, it does.
   */
  lemma ErasingIsExactIff(rs: seq<SampleRecord>)
    ensures (forall table: map<Time, int> :: Replay(table, rs) == table - MergeSamples(rs).erasedTimes)
       <==> MergeSamples(rs).writtenTimes == {}
    ensures MergeSamples(rs).ErasesSamplesOnly() ==>
      forall table: map<Time, int> :: Replay(table, rs) == table - MergeSamples(rs).erasedTimes
  {
    var merged := MergeSamples(rs);
    if merged.writtenTimes == {} {
      forall table: map<Time, int> ensures Replay(table, rs) == table - merged.erasedTimes {
        forall time ensures time in Replay(table, rs) <==> time in table - merged.erasedTimes {
          SplitByLastRecord(rs, time);
          ReplayAt(table, rs, time);
        }
        forall time | time in Replay(table, rs) ensures Replay(table, rs)[time] == table[time] {
          SplitByLastRecord(rs, time);
          ReplayAt(table, rs, time);
        }
      }
    } else {
      var time :| time in merged.writtenTimes;
      var empty: map<Time, int> := map[];
      SplitByLastRecord(rs, time);
      ReplayAt(empty, rs, time);
      assert time in Replay(empty, rs) && time !in empty - merged.erasedTimes;
    }
  }

  /** The pending entry of a path that received only sample records is the merge of those records. */
  lemma {:induction false} EntryOfSamples(layer: string, path: string, rs: seq<SampleRecord>)
    requires path != ""
    ensures var c := MergeAll(NO_CHANGES, SampleMutations(layer, path, rs));
      PathEntry(c, path) == MergeSamples(rs).(flags := if rs == [] then {} else {TimeSamples})
      && c.serial == |rs|
  {
    if rs != [] {
      var init := rs[..|rs| - 1];
      EntryOfSamples(layer, path, init);
      var ms := SampleMutations(layer, path, rs);
      assert ms[..|ms| - 1] == SampleMutations(layer, path, init);
    }
  }

  function SampleMutations(layer: string, path: string, rs: seq<SampleRecord>): (ms: seq<Mutation>)
    ensures |ms| == |rs|
    ensures forall i :: 0 <= i < |rs| ==>
      ms[i] == Mutation(layer, path, SetTimeSample(Some(rs[i].time), rs[i].Erase?))
  {
    if rs == [] then []
    else
      var r := rs[|rs| - 1];
      SampleMutations(layer, path, rs[..|rs| - 1]) + [Mutation(layer, path, SetTimeSample(Some(r.time), r.Erase?))]
  }

  function MergeAll(c: LayerChanges, ms: seq<Mutation>): LayerChanges {
    if ms == [] then c else MergeMutation(MergeAll(c, ms[..|ms| - 1]), ms[|ms| - 1])
  }
}
