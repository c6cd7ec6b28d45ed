/**
 The native change tracker: pending entries, prepared batches and serial numbers.

 What a pending entry materializes to depends on the layers' current content, so the content's shape is a
 parameter of each preparation. An entry that materializes to nothing is dropped.
 */
module DelegateTracker {
  import opened Wrappers
  import opened ChangeRecords
  import D = SpecDelivery

  datatype Batch = Batch(layer: string, events: set<LayerEvent>, serial: nat)

  /**
   History of one reachable layer: every record that changed its entry, and the positions where the current
   pending entry starts, where the prepared batch was built, up to which batches were acknowledged, where an
   acknowledgement last removed the entry, and where the entry was last dropped for materializing to nothing.
   */
  datatype Trail = Trail(
    history: seq<Mutation>, startAt: nat, builtAt: nat, ackedAt: nat, clearedAt: nat, droppedAt: nat)

  const NO_TRAIL := Trail([], 0, 0, 0, 0, 0)

  datatype TrackerState = TrackerState(
    tracked: set<string>, pending: map<string, LayerChanges>, prepared: map<string, Batch>,
    trails: map<string, Trail>)

  /** What the layers hold while changes are materialized, and the revision that topology events are bound to. */
  datatype Scene = Scene(view: (string, string) -> SpecView, revision: string -> int)

  function EventsFor(scene: Scene, l: string, c: LayerChanges): set<LayerEvent> {
    Materialized(c, ViewOf(scene, l), scene.revision(l))
  }

  type Materialize = (string, LayerChanges) -> set<LayerEvent>

  /** What the tracker materializes while the layers look as in the scene. */
  function MaterializeIn(scene: Scene): Materialize {
    (l, c) => EventsFor(scene, l, c)
  }

  function ViewOf(scene: Scene, l: string): string -> SpecView {
    path => scene.view(l, path)
  }

  function TrailOf(s: TrackerState, l: string): Trail {
    if l in s.trails then s.trails[l] else NO_TRAIL
  }

  // ---------------------------------------------------------------- steps

  /** Follow the reachable layers and forget the others. */
  function Sync(s: TrackerState, reachable: set<string>): TrackerState {
    TrackerState(
      reachable,
      map l | l in s.pending && l in reachable :: s.pending[l],
      map l | l in s.prepared && l in reachable :: s.prepared[l],
      map l | l in s.trails && l in reachable :: s.trails[l])
  }

  function EntryOf(s: TrackerState, l: string): LayerChanges {
    if l in s.pending then s.pending[l] else NO_CHANGES
  }

  /** The trail once the layer has a pending entry, which may be new. */
  function OpenTrail(s: TrackerState, l: string): Trail {
    var t := TrailOf(s, l);
    if l in s.pending then t else t.(startAt := |t.history|)
  }

  function MergeOne(s: TrackerState, m: Mutation): TrackerState {
    if m.layer !in s.tracked then s
    else
      var t := OpenTrail(s, m.layer);
      s.(pending := s.pending[m.layer := MergeMutation(EntryOf(s, m.layer), m)],
         trails := s.trails[m.layer := if Effective(m) then t.(history := t.history + [m]) else t])
  }

  function MergeMany(s: TrackerState, ms: seq<Mutation>): TrackerState {
    if ms == [] then s else MergeOne(MergeMany(s, ms[..|ms| - 1]), ms[|ms| - 1])
  }

  /** Layers with both a prim deletion and a prim creation among the records. */
  function ReplacedLayers(tracked: set<string>, ms: seq<Mutation>): set<string> {
    LayersWith(tracked, ms, DeleteSpec(true)) * LayersWith(tracked, ms, CreateSpec(true))
  }

  function LayersWith(tracked: set<string>, ms: seq<Mutation>, change: Change): set<string> {
    if ms == [] then {}
    else
      var m := ms[|ms| - 1];
      LayersWith(tracked, ms[..|ms| - 1], change)
      + (if m.layer in tracked && m.path != "" && m.change == change then {m.layer} else {})
  }

  function MarkReplaced(pending: map<string, LayerChanges>, layers: set<string>): map<string, LayerChanges> {
    map l | l in pending ::
      if l in layers then pending[l].(replacement := true, topology := true) else pending[l]
  }

  function Drain(s: TrackerState, ms: seq<Mutation>): TrackerState {
    var merged := MergeMany(s, ms);
    merged.(pending := MarkReplaced(merged.pending, ReplacedLayers(s.tracked, ms)))
  }

  function BatchFor(s: TrackerState, l: string, materialize: Materialize): Batch
    requires l in s.pending
  {
    Batch(l, materialize(l, s.pending[l]), s.pending[l].serial)
  }

  /** One batch per pending entry; entries with nothing to publish are dropped with their batch. */
  function Build(s: TrackerState, materialize: Materialize): TrackerState {
    s.(pending := map l | l in s.pending && materialize(l, s.pending[l]) != {} :: s.pending[l],
       prepared := map l | l in s.pending && materialize(l, s.pending[l]) != {} :: BatchFor(s, l, materialize),
       trails := map l | l in s.trails ::
         var t := s.trails[l];
         if l !in s.pending then t
         else if materialize(l, s.pending[l]) != {} then t.(builtAt := |t.history|)
         else t.(droppedAt := |t.history|))
  }

  function Acknowledge(s: TrackerState, b: Batch): TrackerState {
    if b.layer !in s.prepared || s.prepared[b.layer] != b then s
    else
      var l := b.layer;
      var t := TrailOf(s, l);
      s.(prepared := s.prepared - {l},
         pending := if l in s.pending && s.pending[l].serial == b.serial then s.pending - {l} else s.pending,
         trails := s.trails[l := t.(ackedAt := t.builtAt,
           clearedAt := if l in s.pending && s.pending[l].serial == b.serial then |t.history| else t.clearedAt)])
  }

  datatype Command =
    | SyncGraph(reachable: set<string>)
    | Prepare(reachable: set<string>, records: seq<Mutation>, scene: Scene)
    | Rebind(layer: string, events: set<LayerEvent>)
    | MarkSent(batch: Batch)

  function Step(s: TrackerState, c: Command): TrackerState {
    match c
    case SyncGraph(reachable) => Sync(s, reachable)
    case Prepare(reachable, records, scene) => Build(Drain(Sync(s, reachable), records), MaterializeIn(scene))
    case Rebind(layer, events) =>
      if layer in s.prepared then s.(prepared := s.prepared[layer := s.prepared[layer].(events := events)]) else s
    case MarkSent(batch) => Acknowledge(s, batch)
  }

  const INITIAL := TrackerState({}, map[], map[], map[])

  function RunCommands(cs: seq<Command>): TrackerState {
    if cs == [] then INITIAL else Step(RunCommands(cs[..|cs| - 1]), cs[|cs| - 1])
  }

  // ---------------------------------------------------------------- the invariant

  /** Everything before this position has left the pending map. */
  function ReleasedAt(t: Trail): nat {
    if t.clearedAt < t.droppedAt then t.droppedAt else t.clearedAt
  }

  ghost predicate TrailFits(t: Trail, entry: LayerChanges) {
    && t.startAt <= |t.history|
    && entry.serial == |t.history| - t.startAt
    && entry.paths == MergeAll(NO_CHANGES, t.history[t.startAt..]).paths
    && forall i :: t.startAt <= i < |t.history| ==> Reflects(entry, t.history[i])
  }

  ghost predicate PositionsFit(t: Trail) {
    t.clearedAt <= t.ackedAt <= |t.history| && t.droppedAt <= |t.history|
  }

  ghost predicate BatchFits(t: Trail, b: Batch, l: string) {
    b.layer == l && t.ackedAt <= t.builtAt <= |t.history| && b.serial == t.builtAt - t.startAt && t.startAt <= t.builtAt
  }

  ghost predicate LayerSafe(s: TrackerState, l: string) {
    && (l in s.pending ==> l in s.trails && TrailFits(s.trails[l], s.pending[l])
                           && s.trails[l].startAt == ReleasedAt(s.trails[l]))
    && (l in s.prepared ==> l in s.pending && BatchFits(s.trails[l], s.prepared[l], l))
    && (l in s.trails ==> PositionsFit(s.trails[l]) && l in s.tracked)
    && (l in s.trails && l !in s.pending ==> ReleasedAt(s.trails[l]) == |s.trails[l].history|)
  }

  ghost predicate Safe(s: TrackerState) {
    forall l :: LayerSafe(s, l)
  }

  lemma SyncSafe(s: TrackerState, reachable: set<string>)
    requires Safe(s)
    ensures Safe(Sync(s, reachable))
  {
    forall l ensures LayerSafe(Sync(s, reachable), l) {
      assert LayerSafe(s, l);
    }
  }

  lemma SamePathsAdd(c: LayerChanges, d: LayerChanges, path: string, flags: set<Flag>, fields: set<string>)
    requires c.paths == d.paths
    ensures Add(c, path, flags, fields).paths == Add(d, path, flags, fields).paths
  {
    assert PathEntry(c, path) == PathEntry(d, path);
  }

  lemma SamePathsMerge(c: LayerChanges, d: LayerChanges, m: Mutation)
    requires c.paths == d.paths
    ensures MergeMutation(c, m).paths == MergeMutation(d, m).paths
  {
    match m.change
    case ReplaceLayerContent =>
    case CreateSpec(_) => SamePathsAdd(c, d, m.path, {Added}, {});
    case DeleteSpec(_) => SamePathsAdd(c, d, m.path, {RemovedSpec}, {});
    case SetTimeSample(_, _) => SamePathsAdd(c, d, m.path, {TimeSamples}, {});
    case SetSubLayers(field) =>
      SamePathsAdd(c.(topology := true), d.(topology := true), m.path, {SubLayers}, {field});
    case SetChildren =>
    case SetField(field) => SamePathsAdd(c, d, m.path, {}, {field});
  }

  lemma MergeTrail(t: Trail, entry: LayerChanges, m: Mutation)
    requires TrailFits(t, entry) && Effective(m)
    ensures TrailFits(t.(history := t.history + [m]), MergeMutation(entry, m))
  {
    MergedIsReflected(entry, m);
    var h := t.history + [m];
    forall i | t.startAt <= i < |h| ensures Reflects(MergeMutation(entry, m), h[i]) {
      if i < |t.history| {
        EarlierStaysReflected(entry, m, t.history[i]);
      }
    }
    var own := t.history[t.startAt..];
    assert h[t.startAt..] == own + [m];
    TakeOfConcat(own, [m]);
    SamePathsMerge(entry, MergeAll(NO_CHANGES, own), m);
  }

  lemma OpenTrailFits(s: TrackerState, l: string)
    requires LayerSafe(s, l)
    ensures TrailFits(OpenTrail(s, l), EntryOf(s, l)) && PositionsFit(OpenTrail(s, l))
    ensures OpenTrail(s, l).startAt == ReleasedAt(OpenTrail(s, l))
  {
    var t := OpenTrail(s, l);
    if l !in s.pending {
      assert t.history[t.startAt..] == [];
    }
  }

  lemma MergedLayerSafe(s: TrackerState, m: Mutation)
    requires LayerSafe(s, m.layer) && m.layer in s.tracked
    ensures LayerSafe(MergeOne(s, m), m.layer)
  {
    OpenTrailFits(s, m.layer);
    if Effective(m) {
      MergeTrail(OpenTrail(s, m.layer), EntryOf(s, m.layer), m);
    }
  }

  lemma MergeOneSafe(s: TrackerState, m: Mutation)
    requires Safe(s)
    ensures Safe(MergeOne(s, m))
  {
    if m.layer in s.tracked {
      forall l ensures LayerSafe(MergeOne(s, m), l) {
        assert LayerSafe(s, l);
        if l == m.layer {
          MergedLayerSafe(s, m);
        }
      }
    }
  }

  lemma {:induction false} MergeManySafe(s: TrackerState, ms: seq<Mutation>)
    requires Safe(s)
    ensures Safe(MergeMany(s, ms)) && MergeMany(s, ms).tracked == s.tracked
  {
    if ms != [] {
      MergeManySafe(s, ms[..|ms| - 1]);
      MergeOneSafe(MergeMany(s, ms[..|ms| - 1]), ms[|ms| - 1]);
    }
  }

  function Concerns(l: string): Mutation -> bool { (m: Mutation) => m.layer == l && Effective(m) }

  /** Draining adds every effective record of a tracked layer to its history, in order, and nothing else. */
  lemma {:induction false} DrainRecordsAll(s: TrackerState, ms: seq<Mutation>, l: string)
    ensures TrailOf(MergeMany(s, ms), l).history
         == TrailOf(s, l).history + if l in s.tracked then Filter(Concerns(l), ms) else []
    ensures MergeMany(s, ms).tracked == s.tracked
  {
    if ms != [] {
      var init, m := ms[..|ms| - 1], ms[|ms| - 1];
      DrainRecordsAll(s, init, l);
      FilterConcat(Concerns(l), init, [m]);
      InitLast(ms);
    }
  }

  lemma DrainSafe(s: TrackerState, ms: seq<Mutation>)
    requires Safe(s)
    ensures Safe(Drain(s, ms))
  {
    MergeManySafe(s, ms);
    forall l ensures LayerSafe(Drain(s, ms), l) {
      assert LayerSafe(MergeMany(s, ms), l);
    }
  }

  lemma BuildSafe(s: TrackerState, materialize: Materialize)
    requires Safe(s)
    ensures Safe(Build(s, materialize))
  {
    forall l ensures LayerSafe(Build(s, materialize), l) {
      assert LayerSafe(s, l);
    }
  }

  lemma AcknowledgeSafe(s: TrackerState, b: Batch)
    requires Safe(s)
    ensures Safe(Acknowledge(s, b))
  {
    assert LayerSafe(s, b.layer);
    forall l ensures LayerSafe(Acknowledge(s, b), l) {
      assert LayerSafe(s, l);
    }
  }

  lemma StepSafe(s: TrackerState, c: Command)
    requires Safe(s)
    ensures Safe(Step(s, c))
  {
    match c
    case SyncGraph(reachable) => SyncSafe(s, reachable);
    case Prepare(reachable, records, scene) =>
      SyncSafe(s, reachable);
      DrainSafe(Sync(s, reachable), records);
      BuildSafe(Drain(Sync(s, reachable), records), MaterializeIn(scene));
    case Rebind(layer, events) =>
      forall l ensures LayerSafe(Step(s, c), l) {
        assert LayerSafe(s, l);
      }
    case MarkSent(batch) => AcknowledgeSafe(s, batch);
  }

  /** The record at position i of a layer's history is in the layer's pending entry. */
  ghost predicate IsPending(s: TrackerState, l: string, i: nat) {
    l in s.trails && l in s.pending && s.trails[l].startAt <= i < |s.trails[l].history|
    && Reflects(s.pending[l], s.trails[l].history[i])
  }

  /**
   In every reachable state, a record of a reachable layer is still pending unless an acknowledgement removed
   its entry or its entry was dropped for materializing to nothing, and only unless.
   */
  lemma {:induction false} PendingIff(cs: seq<Command>, l: string, i: nat)
    requires var s := RunCommands(cs); l in s.trails && i < |s.trails[l].history|
    ensures var s := RunCommands(cs);
      && (IsPending(s, l, i) <==> s.trails[l].clearedAt <= i && s.trails[l].droppedAt <= i)
      && (i < s.trails[l].clearedAt ==> i < s.trails[l].ackedAt)
  {
    RunSafe(cs);
    assert LayerSafe(RunCommands(cs), l);
  }

  /** Marking a sent batch after which nothing was merged, or a preparation with nothing to send. */
  ghost predicate EndsEntry(s: TrackerState, c: Command, l: string) {
    match c
    case SyncGraph(_) => false
    case Rebind(_, _) => false
    case MarkSent(b) =>
      b.layer == l && l in s.prepared && s.prepared[l] == b && TrailOf(s, l).builtAt == |TrailOf(s, l).history|
    case Prepare(reachable, records, scene) =>
      var pending := Drain(Sync(s, reachable), records).pending;
      l in pending && NothingToSend(pending[l], ViewOf(scene, l))
  }

  /** What building does to one layer. */
  lemma BuiltLayer(d: TrackerState, materialize: Materialize, l: string)
    requires l in d.pending && l in d.trails
    ensures var t, events := Build(d, materialize), materialize(l, d.pending[l]);
      && (l in t.pending <==> events != {}) && (l in t.prepared <==> events != {})
      && (events != {} ==> t.pending[l] == d.pending[l] && t.prepared[l] == Batch(l, events, d.pending[l].serial))
      && l in t.trails
      && t.trails[l] == if events != {} then d.trails[l].(builtAt := |d.trails[l].history|)
                        else d.trails[l].(droppedAt := |d.trails[l].history|)
  {
  }

  lemma PreparationEndsIff(s: TrackerState, reachable: set<string>, records: seq<Mutation>, scene: Scene, l: string)
    requires Safe(s) && l in s.pending && l in reachable
    ensures var d := Drain(Sync(s, reachable), records);
      && l in d.pending
      && (l !in Build(d, MaterializeIn(scene)).pending <==> NothingToSend(d.pending[l], ViewOf(scene, l)))
  {
    var d := Drain(Sync(s, reachable), records);
    SyncSafe(s, reachable);
    DrainSafe(Sync(s, reachable), records);
    DrainKeepsEntries(Sync(s, reachable), records, l);
    assert LayerSafe(d, l);
    BuiltLayer(d, MaterializeIn(scene), l);
    MaterializesNothingIff(d.pending[l], ViewOf(scene, l), scene.revision(l));
  }

  lemma AcknowledgementEndsIff(s: TrackerState, b: Batch, l: string)
    requires Safe(s) && l in s.pending
    ensures l !in Acknowledge(s, b).pending
       <==> b.layer == l && l in s.prepared && s.prepared[l] == b && TrailOf(s, l).builtAt == |TrailOf(s, l).history|
  {
    assert LayerSafe(s, l);
  }

  lemma BuildKeepsTracked(s: TrackerState, reachable: set<string>, records: seq<Mutation>, scene: Scene)
    ensures Build(Drain(Sync(s, reachable), records), MaterializeIn(scene)).tracked == reachable
  {
    DrainKeepsEntries(Sync(s, reachable), records, "");
  }

  /** The entry of a layer that stays reachable leaves the pending map in exactly these two ways. */
  lemma EntryEndsIff(s: TrackerState, c: Command, l: string)
    requires Safe(s) && l in s.pending && l in Step(s, c).tracked
    ensures l !in Step(s, c).pending <==> EndsEntry(s, c, l)
  {
    match c
    case SyncGraph(_) =>
    case Rebind(_, _) =>
    case MarkSent(b) => AcknowledgementEndsIff(s, b, l);
    case Prepare(reachable, records, scene) =>
      BuildKeepsTracked(s, reachable, records, scene);
      PreparationEndsIff(s, reachable, records, scene, l);
  }

  lemma {:induction false} DrainKeepsEntries(s: TrackerState, ms: seq<Mutation>, l: string)
    ensures MergeMany(s, ms).tracked == s.tracked
    ensures l in s.pending ==> l in MergeMany(s, ms).pending && l in Drain(s, ms).pending
  {
    if ms != [] {
      DrainKeepsEntries(s, ms[..|ms| - 1], l);
    }
  }

  lemma TargetsAreSilent(l: string, c: LayerChanges, revision: string -> int)
    requires !c.replacement && !c.topology
    ensures MaterializeIn(TargetsOnly(revision))(l, c) == {}
  {
    MaterializesNothingIff(c, ViewOf(TargetsOnly(revision), l), revision(l));
  }

  lemma FirstDrain(l: string, m: Mutation)
    requires m.layer == l && Effective(m) && m.change.SetField?
    ensures var d := Drain(Sync(INITIAL, {l}), [m]);
      && l in d.pending && !d.pending[l].replacement && !d.pending[l].topology
      && d.trails == map[l := Trail([m], 0, 0, 0, 0, 0)]
  {
    var synced := Sync(INITIAL, {l});
    assert [m][..0] == [];
    assert MergeMany(synced, [m]) == MergeOne(synced, m);
    assert NO_TRAIL.history + [m] == [m];
    assert MergeOne(synced, m).trails == map[l := Trail([m], 0, 0, 0, 0, 0)];
    assert MergeOne(synced, m).pending == map[l := MergeMutation(NO_CHANGES, m)];
    assert ReplacedLayers({l}, [m]) <= LayersWith({l}, [m], DeleteSpec(true));
    assert LayersWith({l}, [m], DeleteSpec(true)) == {};
  }

  /** A record at a target path is dropped by the first preparation, although nothing was ever marked sent. */
  lemma TargetRecordIsDropped(l: string, m: Mutation, revision: string -> int)
    requires m.layer == l && Effective(m) && m.change.SetField?
    ensures var s := RunCommands([Prepare({l}, [m], TargetsOnly(revision))]);
      && l in s.trails && s.trails[l] == Trail([m], 0, 0, 0, 0, 1)
      && l !in s.pending && l !in s.prepared
  {
    var c, d := Prepare({l}, [m], TargetsOnly(revision)), Drain(Sync(INITIAL, {l}), [m]);
    FirstDrain(l, m);
    TargetsAreSilent(l, d.pending[l], revision);
    BuiltLayer(d, MaterializeIn(TargetsOnly(revision)), l);
    assert [c][..0] == [];
    assert RunCommands([c]) == Step(INITIAL, c);
  }

  /** Every path is a target path. */
  function TargetsOnly(revision: string -> int): Scene {
    Scene((layer, path) => TargetPath, revision)
  }

  lemma {:induction false} RunSafe(cs: seq<Command>)
    ensures Safe(RunCommands(cs))
  {
    if cs != [] {
      RunSafe(cs[..|cs| - 1]);
      StepSafe(RunCommands(cs[..|cs| - 1]), cs[|cs| - 1]);
    }
  }

  /**
   Marking a prepared batch sent acknowledges exactly what it was built from, and drops the pending entry
   if and only if no record was merged after that; the serial test is exact although serials restart.
   */
  lemma MarkSentIsExact(cs: seq<Command>, b: Batch)
    requires b.layer in RunCommands(cs).prepared && RunCommands(cs).prepared[b.layer] == b
    ensures var s, t := RunCommands(cs), RunCommands(cs + [MarkSent(b)]);
      && TrailOf(t, b.layer).ackedAt == TrailOf(s, b.layer).builtAt
      && b.layer !in t.prepared
      && (b.layer !in t.pending <==> TrailOf(s, b.layer).builtAt == |TrailOf(s, b.layer).history|)
      && (b.layer in t.pending ==> b.layer in s.pending && t.pending[b.layer] == s.pending[b.layer])
  {
    RunSafe(cs);
    assert LayerSafe(RunCommands(cs), b.layer);
    TakeOfConcat(cs, [MarkSent(b)]);
  }

  /**
   The batch that a preparation builds for a layer publishes every record the layer's entry accounts for, as far
   as the layer still holds the spec.
   */
  lemma PreparedCoversAll(d: TrackerState, scene: Scene, l: string, i: nat)
    requires Safe(d) && l in d.pending && Materialized(d.pending[l], ViewOf(scene, l), scene.revision(l)) != {}
    requires l in d.trails && d.trails[l].startAt <= i < |d.trails[l].history| && Effective(d.trails[l].history[i])
    ensures var t := Build(d, MaterializeIn(scene));
      && l in t.prepared && l in t.trails && t.trails[l].builtAt == |t.trails[l].history|
      && Carries(t.prepared[l].events, d.trails[l].history[i], scene.view(l, d.trails[l].history[i].path))
  {
    assert LayerSafe(d, l);
    BuiltLayer(d, MaterializeIn(scene), l);
    BatchCarries(d.pending[l], d.trails[l].history[i], ViewOf(scene, l), scene.revision(l));
  }

  /** A fitting entry's events, at a path, for a receiver that held any content of the path since the entry began. */
  lemma EntryEventsDeliver(
    t: Trail, c: LayerChanges, view: string -> SpecView, revision: int, path: string, isLayer: bool,
    contents: seq<D.Content>, k: nat, required: set<string>)
    requires TrailFits(t, c) && path != "" && D.History(path, isLayer, EntryRecords(t), contents)
    requires k < |contents| && view(path) == D.ViewOf(contents[|contents| - 1], isLayer)
    ensures var now := contents[|contents| - 1];
      D.Receive(contents[k], Materialized(c, view, revision), path, now, required) == now
      <==> c.replacement || forall f :: !D.Relic(contents[k], now, PathEntry(c, path), f)
  {
    if c.replacement {
      assert ReplaceContent in Materialized(c, view, revision);
    } else {
      var now := contents[|contents| - 1];
      NoReplacementRecorded(t, c);
      D.BatchAtPath(c, view, revision, path, contents[k], now, required);
      D.DeliveredIff(path, isLayer, EntryRecords(t), contents, k, required);
    }
  }

  /**
   A receiver that held the content of a path at the entry's start or after any of its records holds the layer's
   content after the batch, exactly when the batch replaces the layer or no key was lost by re-creating the spec.
   */
  lemma PreparedDeliversIff(
    d: TrackerState, scene: Scene, l: string, path: string, isLayer: bool, contents: seq<D.Content>, k: nat,
    required: set<string>)
    requires Safe(d) && l in d.pending && l in Build(d, MaterializeIn(scene)).prepared
    requires l in d.trails && path != "" && D.History(path, isLayer, EntryRecords(d.trails[l]), contents)
    requires k < |contents| && scene.view(l, path) == D.ViewOf(contents[|contents| - 1], isLayer)
    ensures var batch, now := Build(d, MaterializeIn(scene)).prepared[l], contents[|contents| - 1];
      D.Receive(contents[k], batch.events, path, now, required) == now
      <==> d.pending[l].replacement || forall f :: !D.Relic(contents[k], now, PathEntry(d.pending[l], path), f)
  {
    assert LayerSafe(d, l);
    BuiltLayer(d, MaterializeIn(scene), l);
    EntryEventsDeliver(d.trails[l], d.pending[l], ViewOf(scene, l), scene.revision(l), path, isLayer, contents, k,
                       required);
  }

  /** The records of the pending entry. */
  function EntryRecords(t: Trail): seq<Mutation> {
    if t.startAt <= |t.history| then t.history[t.startAt..] else []
  }

  lemma NoReplacementRecorded(t: Trail, c: LayerChanges)
    requires TrailFits(t, c) && !c.replacement
    ensures forall m <- EntryRecords(t) :: !m.change.ReplaceLayerContent?
  {
    forall m | m in EntryRecords(t) ensures !m.change.ReplaceLayerContent? {
      var i :| 0 <= i < |EntryRecords(t)| && EntryRecords(t)[i] == m;
      assert m == t.history[t.startAt + i];
    }
  }

  // ---------------------------------------------------------------- the tracker object

  predicate HasLayer(prepared: seq<Batch>, l: string) {
    exists i :: 0 <= i < |prepared| && prepared[i].layer == l
  }

  /** The list holds exactly the map's batches, one per layer. */
  ghost predicate Represents(prepared: seq<Batch>, m: map<string, Batch>) {
    && (forall i, j :: 0 <= i < j < |prepared| ==> prepared[i].layer != prepared[j].layer)
    && (forall i :: 0 <= i < |prepared| ==> prepared[i].layer in m && m[prepared[i].layer] == prepared[i])
    && (forall l :: l in m ==> HasLayer(prepared, l))
  }

  lemma RepresentsPut(prepared: seq<Batch>, m: map<string, Batch>, i: nat, b: Batch)
    requires Represents(prepared, m) && i <= |prepared|
    requires if i < |prepared| then prepared[i].layer == b.layer else b.layer !in m
    ensures Represents(if i < |prepared| then prepared[i := b] else prepared + [b], m[b.layer := b])
  {
    var r := if i < |prepared| then prepared[i := b] else prepared + [b];
    forall l | l in m[b.layer := b] ensures HasLayer(r, l) {
      if l == b.layer {
        assert r[i].layer == l;
      } else {
        var k :| 0 <= k < |prepared| && prepared[k].layer == l;
        assert r[k].layer == l;
      }
    }
  }

  lemma RepresentsPop(prepared: seq<Batch>, m: map<string, Batch>, i: nat)
    requires Represents(prepared, m) && i < |prepared|
    ensures Represents(prepared[..i] + prepared[i + 1..], m - {prepared[i].layer})
  {
    var r := prepared[..i] + prepared[i + 1..];
    forall k | 0 <= k < |r| ensures r[k] == prepared[if k < i then k else k + 1] {
    }
    forall l | l in m - {prepared[i].layer} ensures HasLayer(r, l) {
      var k :| 0 <= k < |prepared| && prepared[k].layer == l;
      assert r[if k < i then k else k - 1].layer == l;
    }
  }

  function InLayers(keep: set<string>): Batch -> bool { (b: Batch) => b.layer in keep }

  function Kept(m: map<string, Batch>, keep: set<string>): map<string, Batch> {
    map l | l in m && l in keep :: m[l]
  }

  lemma KeptWithout(m: map<string, Batch>, keep: set<string>, l: string)
    requires l in m
    ensures Kept(m, keep) == if l in keep then Kept(m - {l}, keep)[l := m[l]] else Kept(m - {l}, keep)
    ensures l !in Kept(m - {l}, keep)
  {
  }

  lemma RepresentsTail(prepared: seq<Batch>, m: map<string, Batch>)
    requires Represents(prepared, m) && prepared != []
    ensures Represents(prepared[1..], m - {prepared[0].layer})
  {
    var rest := prepared[1..];
    forall l | l in m - {prepared[0].layer} ensures HasLayer(rest, l) {
      var k :| 0 <= k < |prepared| && prepared[k].layer == l;
      assert rest[k - 1].layer == l;
    }
  }

  lemma KeepFront(kept: seq<Batch>, m: map<string, Batch>, b: Batch, keeps: bool)
    requires Represents(kept, m) && b.layer !in m
    ensures Represents((if keeps then [b] else []) + kept, if keeps then m[b.layer := b] else m)
  {
    if keeps {
      RepresentsFront(kept, m, b);
    } else {
      assert [] + kept == kept;
    }
  }

  lemma {:induction false} RepresentsFilter(prepared: seq<Batch>, m: map<string, Batch>, keep: set<string>)
    requires Represents(prepared, m)
    ensures Represents(Filter(InLayers(keep), prepared), Kept(m, keep))
    decreases |prepared|
  {
    if prepared == [] {
      assert m == map[] by {
        forall l ensures l !in m { assert l in m ==> HasLayer(prepared, l); }
      }
    } else {
      var rest, b := prepared[1..], prepared[0];
      RepresentsTail(prepared, m);
      RepresentsFilter(rest, m - {b.layer}, keep);
      KeptWithout(m, keep, b.layer);
      KeepFront(Filter(InLayers(keep), rest), Kept(m - {b.layer}, keep), b, b.layer in keep);
    }
  }

  lemma RepresentsFront(prepared: seq<Batch>, m: map<string, Batch>, b: Batch)
    requires Represents(prepared, m) && b.layer !in m
    ensures Represents([b] + prepared, m[b.layer := b])
  {
    var r := [b] + prepared;
    forall l | l in m[b.layer := b] ensures HasLayer(r, l) {
      if l == b.layer {
        assert r[0].layer == l;
      } else {
        var k :| 0 <= k < |prepared| && prepared[k].layer == l;
        assert r[k + 1].layer == l;
      }
    }
  }

  /** The pending map once every entry outside `todo` has been materialized. */
  function PartPending(was: map<string, LayerChanges>, todo: set<string>, materialize: Materialize)
    : map<string, LayerChanges>
  {
    map l | l in was && (l in todo || materialize(l, was[l]) != {}) :: was[l]
  }

  function PartPrepared(
    was: map<string, LayerChanges>, wasPrepared: map<string, Batch>, todo: set<string>, materialize: Materialize)
    : map<string, Batch>
  {
    map l | l in was && (if l in todo then l in wasPrepared else materialize(l, was[l]) != {})
      :: if l in todo then wasPrepared[l] else Batch(l, materialize(l, was[l]), was[l].serial)
  }

  lemma PartNothing(was: map<string, LayerChanges>, wasPrepared: map<string, Batch>, materialize: Materialize)
    requires wasPrepared.Keys <= was.Keys
    ensures PartPending(was, was.Keys, materialize) == was
    ensures PartPrepared(was, wasPrepared, was.Keys, materialize) == wasPrepared
  {
    assert forall l :: l in wasPrepared ==> l in wasPrepared.Keys && l in was.Keys;
  }

  lemma PartStep(
    was: map<string, LayerChanges>, wasPrepared: map<string, Batch>, todo: set<string>, layer: string,
    materialize: Materialize)
    requires todo <= was.Keys && layer in todo
    ensures layer in PartPending(was, todo, materialize) && PartPending(was, todo, materialize)[layer] == was[layer]
    ensures var events := materialize(layer, was[layer]);
      var pending := PartPending(was, todo, materialize);
      var prepared := PartPrepared(was, wasPrepared, todo, materialize);
      && PartPending(was, todo - {layer}, materialize) == (if events == {} then pending - {layer} else pending)
      && PartPrepared(was, wasPrepared, todo - {layer}, materialize)
         == (if events == {} then prepared - {layer}
             else prepared[layer := Batch(layer, events, was[layer].serial)])
  {
  }

  lemma PartAll(s: TrackerState, materialize: Materialize)
    ensures PartPending(s.pending, {}, materialize) == Build(s, materialize).pending
    ensures PartPrepared(s.pending, s.prepared, {}, materialize) == Build(s, materialize).prepared
  {
  }

  class NativeSdfLayerChangeTracker {
    var tracked: set<string>
    var pending: map<string, LayerChanges>
    var prepared: seq<Batch>
    ghost var preparedMap: map<string, Batch>
    ghost var trails: map<string, Trail>

    ghost function Abstract(): TrackerState
      reads this
    {
      TrackerState(tracked, pending, preparedMap, trails)
    }

    ghost predicate Valid()
      reads this
    {
      Represents(prepared, preparedMap) && Safe(Abstract())
    }

    constructor ()
      ensures Valid() && Abstract() == INITIAL
    {
      tracked, pending, prepared, preparedMap, trails := {}, map[], [], map[], map[];
      new;
      assert Safe(Abstract());
    }

    method SyncGraph(reachable: set<string>)
      requires Valid()
      modifies this
      ensures Valid() && Abstract() == Sync(old(Abstract()), reachable)
    {
      SyncSafe(Abstract(), reachable);
      RepresentsFilter(prepared, preparedMap, reachable);
      trails := Sync(Abstract(), reachable).trails;
      preparedMap := Kept(preparedMap, reachable);
      tracked := reachable;
      pending := map l | l in pending && l in reachable :: pending[l];
      prepared := Filter(InLayers(reachable), prepared);
    }

    method MergeRecords(records: seq<Mutation>)
      modifies this`pending, this`trails
      ensures Abstract() == Drain(old(Abstract()), records)
    {
      ghost var before := Abstract();
      var deleteLayers: set<string>, createLayers: set<string> := {}, {};
      for n := 0 to |records|
        invariant Abstract() == MergeMany(before, records[..n])
        invariant deleteLayers == LayersWith(tracked, records[..n], DeleteSpec(true))
        invariant createLayers == LayersWith(tracked, records[..n], CreateSpec(true))
      {
        var record := records[n];
        TakeNext(records, n);
        if record.layer !in tracked {
          continue;
        }
        trails := MergeOne(Abstract(), record).trails;
        var changes := if record.layer in pending then pending[record.layer] else NO_CHANGES;
        pending := pending[record.layer := MergeMutation(changes, record)];
        if record.path != "" && record.change == CreateSpec(true) {
          createLayers := createLayers + {record.layer};
        } else if record.path != "" && record.change == DeleteSpec(true) {
          deleteLayers := deleteLayers + {record.layer};
        }
      }
      TakeAll(records);
      pending := MarkReplaced(pending, deleteLayers * createLayers);
    }

    method IndexOf(layer: string) returns (i: nat)
      requires Represents(prepared, preparedMap)
      ensures i <= |prepared|
      ensures i < |prepared| ==> prepared[i].layer == layer
      ensures i == |prepared| <==> layer !in preparedMap
    {
      i := 0;
      while i < |prepared| && prepared[i].layer != layer
        invariant i <= |prepared| && forall k :: 0 <= k < i ==> prepared[k].layer != layer
      {
        i := i + 1;
      }
    }

    /** Rebuild the prepared list from the pending entries, replacing or dropping each layer's batch. */
    method BuildBatches(materialize: Materialize)
      requires Represents(prepared, preparedMap) && preparedMap.Keys <= pending.Keys
      modifies this
      ensures Represents(prepared, preparedMap)
      ensures Abstract() == Build(old(Abstract()), materialize)
    {
      ghost var was, wasPrepared := pending, preparedMap;
      var todo := pending.Keys;
      PartNothing(was, wasPrepared, materialize);
      while todo != {}
        invariant todo <= was.Keys && Represents(prepared, preparedMap)
        invariant tracked == old(tracked) && trails == old(trails)
        invariant pending == PartPending(was, todo, materialize)
        invariant preparedMap == PartPrepared(was, wasPrepared, todo, materialize)
        decreases |todo|
      {
        var layer :| layer in todo;
        PartStep(was, wasPrepared, todo, layer, materialize);
        BuildOne(layer, pending[layer], materialize);
        todo := todo - {layer};
      }
      PartAll(old(Abstract()), materialize);
      trails := Build(old(Abstract()), materialize).trails;
    }

    /** Materialize one entry: publish it, or drop it together with its batch. */
    method BuildOne(layer: string, changes: LayerChanges, materialize: Materialize)
      requires Represents(prepared, preparedMap) && layer in pending && pending[layer] == changes
      modifies this`pending, this`prepared, this`preparedMap
      ensures Represents(prepared, preparedMap)
      ensures var events := materialize(layer, changes);
        && pending == (if events == {} then old(pending) - {layer} else old(pending))
        && preparedMap == (if events == {} then old(preparedMap) - {layer}
                           else old(preparedMap)[layer := Batch(layer, events, changes.serial)])
    {
      var events := materialize(layer, changes);
      var i := IndexOf(layer);
      if events == {} {
        if i < |prepared| {
          RepresentsPop(prepared, preparedMap, i);
          prepared := prepared[..i] + prepared[i + 1..];
        }
        preparedMap := preparedMap - {layer};
        pending := pending - {layer};
      } else {
        var batch := Batch(layer, events, changes.serial);
        RepresentsPut(prepared, preparedMap, i, batch);
        prepared := if i < |prepared| then prepared[i := batch] else prepared + [batch];
        preparedMap := preparedMap[layer := batch];
      }
    }

    method PrepareLocalChanges(reachable: set<string>, drained: seq<Mutation>, scene: Scene)
      returns (batches: seq<Batch>)
      requires Valid()
      modifies this
      ensures Valid() && Abstract() == Step(old(Abstract()), Prepare(reachable, drained, scene))
      ensures batches == prepared
    {
      SyncGraph(reachable);
      DrainSafe(Abstract(), drained);
      MergeRecords(drained);
      BuildSafe(Abstract(), MaterializeIn(scene));
      assert forall l :: l in preparedMap ==> LayerSafe(Abstract(), l);
      BuildBatches(MaterializeIn(scene));
      batches := prepared;
    }

    method MarkPreparedSent(batch: Batch) returns (outcome: Outcome)
      requires Valid()
      modifies this
      ensures Valid() && Abstract() == Step(old(Abstract()), MarkSent(batch))
      ensures outcome == Done <==> batch in old(prepared)
    {
      var i := IndexOf(batch.layer);
      if i == |prepared| || prepared[i] != batch {
        assert batch !in prepared;
        return Raised;
      }
      AcknowledgeSafe(Abstract(), batch);
      RepresentsPop(prepared, preparedMap, i);
      trails := Acknowledge(Abstract(), batch).trails;
      prepared := prepared[..i] + prepared[i + 1..];
      preparedMap := preparedMap - {batch.layer};
      if batch.layer in pending && pending[batch.layer].serial == batch.serial {
        pending := pending - {batch.layer};
      }
      outcome := Done;
    }
  }
}
