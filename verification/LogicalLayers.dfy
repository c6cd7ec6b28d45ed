/**
 The receiver's logical layers: portable layer keys mapped to local layers, and the block of session
 sublayers that composes them.

 A local layer is known by its identifier. Creating one yields an identifier that nothing else uses, so the
 identifiers of new layers are a parameter of each step.
 */
module LogicalLayers {
  import opened Wrappers
  import opened ManagedSublayers

  datatype Item = Item(layerKey: string, muted: bool)

  datatype LayerState = LayerState(generation: string, revision: int, layers: seq<Item>)

  /** What the router sees of a stage. */
  datatype StageView = StageView(session: seq<Sublayer>, muted: set<string>)

  /** The two directions of the key map. */
  datatype KeyMaps = KeyMaps(layers: map<string, string>, keysByIdentifier: map<string, string>)

  datatype RouterState = RouterState(
    maps: KeyMaps, generation: string, revision: int, ready: bool,
    layerKeys: seq<string>, muted: map<string, bool>, stage: Option<StageView>)

  const INITIAL := RouterState(KeyMaps(map[], map[]), "", -1, false, [], map[], None)

  /** Identifier of the layer created for a key. */
  type Identifiers = string -> string

  // ---------------------------------------------------------------- the key maps

  ghost predicate MutualInverses(m: KeyMaps) {
    && (forall k :: k in m.layers ==> m.layers[k] in m.keysByIdentifier && m.keysByIdentifier[m.layers[k]] == k)
    && (forall id :: id in m.keysByIdentifier ==>
          m.keysByIdentifier[id] in m.layers && m.layers[m.keysByIdentifier[id]] == id)
  }

  /** Existing keys keep their layer; the others get a new one. */
  function CreateMissing(m: KeyMaps, keys: seq<string>, ids: Identifiers): (r: KeyMaps)
    ensures r.layers.Keys == m.layers.Keys + set k <- keys
    ensures forall k :: k in r.layers ==> r.layers[k] == if k in m.layers then m.layers[k] else ids(k)
  {
    if keys == [] then m
    else
      var before, k := CreateMissing(m, keys[..|keys| - 1], ids), keys[|keys| - 1];
      assert keys == keys[..|keys| - 1] + [k];
      if k in before.layers then before
      else KeyMaps(before.layers[k := ids(k)], before.keysByIdentifier[ids(k) := k])
  }

  function ForgetOthers(m: KeyMaps, keys: seq<string>): KeyMaps {
    var removed := m.layers.Keys - set k <- keys;
    KeyMaps(m.layers - removed, m.keysByIdentifier - set k | k in removed && k in m.layers :: m.layers[k])
  }

  /** New layers get identifiers that nothing else has. */
  ghost predicate FreshIdentifiers(m: KeyMaps, stage: Option<StageView>, keys: seq<string>, ids: Identifiers) {
    && (forall k :: k in keys && k !in m.layers ==> ids(k) !in m.keysByIdentifier)
    && (forall k, k' :: k in keys && k' in keys && k !in m.layers && k' !in m.layers && k != k' ==> ids(k) != ids(k'))
    && (forall k :: k in keys && k !in m.layers && stage.Some? ==>
          ids(k) !in stage.value.muted && forall s <- stage.value.session :: s.path != ids(k))
  }

  lemma {:induction false} CreateKeepsInverses(m: KeyMaps, keys: seq<string>, ids: Identifiers)
    requires MutualInverses(m) && FreshIdentifiers(m, None, keys, ids)
    ensures MutualInverses(CreateMissing(m, keys, ids))
    ensures forall id :: id in CreateMissing(m, keys, ids).keysByIdentifier && id !in m.keysByIdentifier ==>
      exists k :: k in keys && k !in m.layers && id == ids(k)
  {
    if keys != [] {
      var init, k := keys[..|keys| - 1], keys[|keys| - 1];
      CreateKeepsInverses(m, init, ids);
      var before := CreateMissing(m, init, ids);
      if k !in before.layers {
        assert ids(k) !in before.keysByIdentifier;
      }
    }
  }

  lemma ForgetKeepsInverses(m: KeyMaps, keys: seq<string>)
    requires MutualInverses(m)
    ensures MutualInverses(ForgetOthers(m, keys))
  {
  }

  // ---------------------------------------------------------------- reconciling one advertised stack

  function Keys(items: seq<Item>): (ks: seq<string>)
    ensures |ks| == |items| && forall i :: 0 <= i < |ks| ==> ks[i] == items[i].layerKey
  {
    seq(|items|, i requires 0 <= i < |items| => items[i].layerKey)
  }

  function MutedOf(items: seq<Item>): (m: map<string, bool>)
    ensures m.Keys == set k <- Keys(items)
  {
    if items == [] then map[]
    else
      assert Keys(items) == Keys(items[..|items| - 1]) + [items[|items| - 1].layerKey];
      MutedOf(items[..|items| - 1])[items[|items| - 1].layerKey := items[|items| - 1].muted]
  }

  /** The advertised keys are non-empty and distinct. */
  ghost predicate WellFormed(items: seq<Item>) {
    (forall i :: 0 <= i < |items| ==> items[i].layerKey != "") && Distinct(Keys(items))
  }

  function IdentifierOf(layers: map<string, string>, k: string): string {
    if k in layers then layers[k] else ""
  }

  function Identities(layers: map<string, string>, keys: seq<string>): (r: seq<string>)
    ensures |r| == |keys| && forall i :: 0 <= i < |r| ==> r[i] == IdentifierOf(layers, keys[i])
  {
    seq(|keys|, i requires 0 <= i < |keys| => IdentifierOf(layers, keys[i]))
  }

  predicate IsMuted(muted: map<string, bool>, k: string) {
    k in muted && muted[k]
  }

  function DesiredMuted(layers: map<string, string>, keys: seq<string>, muted: map<string, bool>): set<string> {
    set k | k in keys && IsMuted(muted, k) :: IdentifierOf(layers, k)
  }

  /** Compose the layers of `keys` on a stage, dropping every other managed layer from it. */
  function Install(
    layers: map<string, string>, keys: seq<string>, muted: map<string, bool>, stage: StageView): StageView
  {
    if keys == [] then stage
    else StageView(Replaced(stage.session, Identities(layers, keys), layers.Values),
                   (stage.muted - layers.Values) + DesiredMuted(layers, keys, muted))
  }

  function Detach(layers: map<string, string>, stage: StageView): StageView {
    StageView(Replaced(stage.session, [], layers.Values), stage.muted - layers.Values)
  }

  /** Adopt a list of keys: create the missing layers, recompose the stage, then forget the removed ones. */
  function Reconcile(s: RouterState, keys: seq<string>, muted: map<string, bool>, ids: Identifiers): RouterState {
    var all := CreateMissing(s.maps, keys, ids);
    s.(maps := ForgetOthers(all, keys), layerKeys := keys, muted := muted,
       stage := if s.stage == None then None else Some(Install(all.layers, keys, muted, s.stage.value)))
  }

  datatype Reply = Refused | Ignored | Applied

  ghost function ReplyTo(s: RouterState, state: LayerState): Reply {
    if state.revision < 0 then Refused
    else if state.generation == s.generation && state.revision <= s.revision then Ignored
    else if !WellFormed(state.layers) then Refused
    else Applied
  }

  datatype Command =
    | ApplyState(state: LayerState, ids: Identifiers)
    | SynchronizeFrom(source: RouterState, ids: Identifiers)
    | Bind(stage: StageView)
    | Close

  ghost function Step(s: RouterState, c: Command): RouterState {
    match c
    case ApplyState(state, ids) =>
      if ReplyTo(s, state) != Applied then s
      else
        Reconcile(s, Keys(state.layers), MutedOf(state.layers), ids)
        .(generation := state.generation, revision := state.revision, ready := true)
    case SynchronizeFrom(source, ids) =>
      Reconcile(s, source.layerKeys, source.muted, ids)
      .(generation := source.generation, revision := source.revision, ready := source.ready)
    case Bind(stage) => s.(stage := Some(Install(s.maps.layers, s.layerKeys, s.muted, stage)))
    case Close => s.(stage := None)
  }

  // ---------------------------------------------------------------- the invariant

  ghost predicate ManagedPath(s: RouterState, path: string) {
    path in s.maps.keysByIdentifier
  }

  /** The session list is the active layers in order, then sublayers that are not managed. */
  ghost predicate Composed(s: RouterState, stage: StageView) {
    && |s.layerKeys| <= |stage.session|
    && stage.session[..|s.layerKeys|] == Block(Identities(s.maps.layers, s.layerKeys))
    && (forall i :: |s.layerKeys| <= i < |stage.session| ==> !ManagedPath(s, stage.session[i].path))
    && (forall k <- s.layerKeys :: IdentifierOf(s.maps.layers, k) in stage.muted <==> IsMuted(s.muted, k))
  }

  ghost predicate Consistent(s: RouterState) {
    && MutualInverses(s.maps)
    && Distinct(s.layerKeys)
    && s.maps.layers.Keys == (set k <- s.layerKeys)
    && (s.stage.Some? && s.layerKeys != [] ==> Composed(s, s.stage.value))
  }

  /** What the surroundings guarantee about one command. */
  ghost predicate Allowed(s: RouterState, c: Command) {
    match c
    case ApplyState(state, ids) => FreshIdentifiers(s.maps, s.stage, Keys(state.layers), ids)
    case SynchronizeFrom(source, ids) =>
      Distinct(source.layerKeys) && FreshIdentifiers(s.maps, s.stage, source.layerKeys, ids)
    case Bind(_) => true
    case Close => true
  }

  lemma KeysCovered(all: KeyMaps, keys: seq<string>, id: string)
    requires MutualInverses(all)
    ensures id in ForgetOthers(all, keys).keysByIdentifier ==> id in all.layers.Values
  {
    if id in ForgetOthers(all, keys).keysByIdentifier {
      assert all.keysByIdentifier[id] in all.layers;
    }
  }

  lemma SameIdentities(all: KeyMaps, keys: seq<string>)
    requires forall k <- keys :: k in all.layers
    ensures Identities(ForgetOthers(all, keys).layers, keys) == Identities(all.layers, keys)
    ensures forall k <- keys :: IdentifierOf(ForgetOthers(all, keys).layers, k) == all.layers[k]
  {
  }

  lemma MutedAsDesired(all: KeyMaps, keys: seq<string>, muted: map<string, bool>, k: string)
    requires MutualInverses(all) && (forall j <- keys :: j in all.layers) && k in keys
    ensures all.layers[k] in DesiredMuted(all.layers, keys, muted) <==> IsMuted(muted, k)
  {
    if j :| j in keys && IsMuted(muted, j) && IdentifierOf(all.layers, j) == all.layers[k] {
      assert all.keysByIdentifier[all.layers[j]] == j;
    }
  }

  /** Installing a non-empty stack composes it, whatever the stage held before. */
  lemma InstallComposes(s: RouterState, all: KeyMaps, stage: StageView)
    requires MutualInverses(all) && (forall k <- s.layerKeys :: k in all.layers) && s.layerKeys != []
    requires s.maps == ForgetOthers(all, s.layerKeys)
    ensures Composed(s, Install(all.layers, s.layerKeys, s.muted, stage))
  {
    var keys, after := s.layerKeys, Install(all.layers, s.layerKeys, s.muted, stage);
    SameIdentities(all, keys);
    var kept := Filter(Unmanaged(all.layers.Values), stage.session);
    FilterIsSubset(Unmanaged(all.layers.Values), stage.session);
    forall i | |keys| <= i < |after.session| ensures !ManagedPath(s, after.session[i].path) {
      assert after.session[i] == kept[i - |keys|];
      assert kept[i - |keys|] in kept;
      KeysCovered(all, keys, after.session[i].path);
    }
    forall k | k in keys ensures IdentifierOf(s.maps.layers, k) in after.muted <==> IsMuted(s.muted, k) {
      MutedAsDesired(all, keys, s.muted, k);
    }
  }

  lemma ReconcileConsistent(s: RouterState, keys: seq<string>, muted: map<string, bool>, ids: Identifiers)
    requires Consistent(s) && Distinct(keys) && FreshIdentifiers(s.maps, s.stage, keys, ids)
    ensures Consistent(Reconcile(s, keys, muted, ids))
  {
    var all := CreateMissing(s.maps, keys, ids);
    CreateKeepsInverses(s.maps, keys, ids);
    ForgetKeepsInverses(all, keys);
    var t := Reconcile(s, keys, muted, ids);
    if s.stage.Some? && keys != [] {
      InstallComposes(t, all, s.stage.value);
    }
  }

  lemma StepConsistent(s: RouterState, c: Command)
    requires Consistent(s) && Allowed(s, c)
    ensures Consistent(Step(s, c))
  {
    match c
    case ApplyState(state, ids) =>
      if ReplyTo(s, state) == Applied {
        ReconcileConsistent(s, Keys(state.layers), MutedOf(state.layers), ids);
      }
    case SynchronizeFrom(source, ids) => ReconcileConsistent(s, source.layerKeys, source.muted, ids);
    case Bind(stage) =>
      if s.layerKeys != [] {
        NothingToForget(s);
        InstallComposes(s, s.maps, stage);
        assert Composed(Step(s, c), Step(s, c).stage.value);
      }
    case Close =>
  }

  lemma NothingToForget(s: RouterState)
    requires Consistent(s)
    ensures ForgetOthers(s.maps, s.layerKeys) == s.maps
  {
    assert s.maps.layers.Keys - (set k <- s.layerKeys) == {};
  }

  ghost function RunCommands(cs: seq<Command>): RouterState {
    if cs == [] then INITIAL else Step(RunCommands(cs[..|cs| - 1]), cs[|cs| - 1])
  }

  ghost predicate AllowedRun(cs: seq<Command>) {
    forall i :: 0 <= i < |cs| ==> Allowed(RunCommands(cs[..i]), cs[i])
  }

  /**
   Over every run the two key maps are mutual inverses over exactly the advertised keys, and a bound stage
   with a non-empty stack shows the active layers in order, muted as advertised, before anything else.
   */
  lemma {:induction false} RunConsistent(cs: seq<Command>)
    requires AllowedRun(cs)
    ensures Consistent(RunCommands(cs))
  {
    if cs != [] {
      var n := |cs| - 1;
      forall i | 0 <= i < n ensures Allowed(RunCommands(cs[..n][..i]), cs[..n][i]) {
        assert cs[..n][..i] == cs[..i];
        assert Allowed(RunCommands(cs[..i]), cs[i]);
      }
      RunConsistent(cs[..n]);
      assert Allowed(RunCommands(cs[..n]), cs[n]);
      StepConsistent(RunCommands(cs[..n]), cs[n]);
    }
  }

  /** A key that survives an update keeps its layer; an update is taken only with a newer revision. */
  lemma AppliedStateIsNewer(s: RouterState, state: LayerState, ids: Identifiers)
    requires Consistent(s)
    ensures var t := Step(s, ApplyState(state, ids));
      && (ReplyTo(s, state) != Applied ==> t == s)
      && (ReplyTo(s, state) == Applied ==>
            && (t.generation == s.generation ==> t.revision > s.revision)
            && t.ready && t.layerKeys == Keys(state.layers)
            && forall k :: k in s.maps.layers && k in t.maps.layers ==> t.maps.layers[k] == s.maps.layers[k])
  {
  }

  /** Sublayers and mute flags that are not the router's stay as they were, in order. */
  lemma UnrelatedUntouched(s: RouterState, keys: seq<string>, muted: map<string, bool>, ids: Identifiers)
    requires Consistent(s) && s.stage.Some? && keys != []
    requires FreshIdentifiers(s.maps, s.stage, keys, ids)
    ensures var before, after := s.stage.value, Reconcile(s, keys, muted, ids).stage.value;
      && after.session[|keys|..] == Filter(Unmanaged(s.maps.layers.Values), before.session)
      && forall id :: id !in CreateMissing(s.maps, keys, ids).layers.Values ==>
           (id in after.muted <==> id in before.muted)
  {
    var all := CreateMissing(s.maps, keys, ids);
    var before, after := s.stage.value, Reconcile(s, keys, muted, ids).stage.value;
    forall i | 0 <= i < |before.session|
      ensures Unmanaged(all.layers.Values)(before.session[i]) <==> Unmanaged(s.maps.layers.Values)(before.session[i])
    {
      NewIdentifierIsFresh(s, keys, ids, before.session[i].path);
      assert before.session[i] in before.session;
    }
    FilterSame(Unmanaged(all.layers.Values), Unmanaged(s.maps.layers.Values), before.session);
    forall k | k in keys ensures IdentifierOf(all.layers, k) in all.layers.Values {
      assert k in all.layers;
    }
  }

  lemma NewIdentifierIsFresh(s: RouterState, keys: seq<string>, ids: Identifiers, path: string)
    ensures path in CreateMissing(s.maps, keys, ids).layers.Values <==>
      path in s.maps.layers.Values || exists k :: k in keys && k !in s.maps.layers && path == ids(k)
  {
    var all := CreateMissing(s.maps, keys, ids);
    if path in all.layers.Values {
      var k :| k in all.layers && all.layers[k] == path;
      assert k !in s.maps.layers ==> k in keys;
    }
    if k :| k in s.maps.layers && s.maps.layers[k] == path {
      assert k in all.layers && all.layers[k] == path;
    }
    if k :| k in keys && k !in s.maps.layers && path == ids(k) {
      assert k in all.layers && all.layers[k] == path;
    }
  }

  // ---------------------------------------------------------------- what is not the router's, over whole runs

  /** The sublayers and mute flags of a stage that are not the router's. */
  function Foreign(s: RouterState): StageView
    requires s.stage.Some?
  {
    StageView(Filter(Unmanaged(s.maps.layers.Values), s.stage.value.session),
              s.stage.value.muted - s.maps.layers.Values)
  }

  /** In a composed stage the foreign sublayers are all that follows the block. */
  lemma ForeignIsTail(s: RouterState)
    requires Consistent(s) && s.stage.Some? && s.layerKeys != []
    ensures Foreign(s).session == s.stage.value.session[|s.layerKeys|..]
  {
    var session, n := s.stage.value.session, |s.layerKeys|;
    forall i | 0 <= i < n ensures session[i].path in s.maps.layers.Values {
      assert s.layerKeys[i] in s.maps.layers;
    }
    forall i | n <= i < |session| ensures session[i].path !in s.maps.layers.Values {
      assert !ManagedPath(s, session[i].path);
      ManagedIsValue(s.maps, session[i].path);
    }
    UnmanagedIsTail(session, s.maps.layers.Values, n);
  }

  lemma UnmanagedIsTail(session: seq<Sublayer>, managed: set<string>, n: nat)
    requires n <= |session|
    requires forall i :: 0 <= i < n ==> session[i].path in managed
    requires forall i :: n <= i < |session| ==> session[i].path !in managed
    ensures Filter(Unmanaged(managed), session) == session[n..]
  {
    assert session == session[..n] + session[n..];
    FilterParts(Unmanaged(managed), session[..n], session[n..]);
  }

  lemma ManagedIsValue(m: KeyMaps, id: string)
    requires MutualInverses(m)
    ensures id in m.keysByIdentifier <==> id in m.layers.Values
  {
    if id in m.keysByIdentifier {
      assert m.layers[m.keysByIdentifier[id]] == id;
    }
  }

  lemma KeptSessionIsForeign(s: RouterState, keys: seq<string>, muted: map<string, bool>, ids: Identifiers)
    requires Consistent(s) && s.stage.Some? && keys != [] && Distinct(keys)
    requires FreshIdentifiers(s.maps, s.stage, keys, ids)
    ensures Foreign(Reconcile(s, keys, muted, ids)).session == Foreign(s).session
  {
    ReconcileConsistent(s, keys, muted, ids);
    ForeignIsTail(Reconcile(s, keys, muted, ids));
    UnrelatedUntouched(s, keys, muted, ids);
  }

  lemma KeptMutesAreForeign(s: RouterState, keys: seq<string>, muted: map<string, bool>, ids: Identifiers, id: string)
    requires Consistent(s) && s.stage.Some? && keys != [] && Distinct(keys)
    requires FreshIdentifiers(s.maps, s.stage, keys, ids)
    ensures id in Foreign(Reconcile(s, keys, muted, ids)).muted <==> id in Foreign(s).muted
  {
    var all, t := CreateMissing(s.maps, keys, ids), Reconcile(s, keys, muted, ids);
    NewIdentifierIsFresh(s, keys, ids, id);
    forall k | k in keys ensures k in t.maps.layers && t.maps.layers[k] == all.layers[k] {
      assert k in all.layers;
    }
    if id in DesiredMuted(all.layers, keys, muted) {
      var k :| k in keys && IsMuted(muted, k) && IdentifierOf(all.layers, k) == id;
      assert id in t.maps.layers.Values;
    }
    if id in t.maps.layers.Values {
      var k :| k in t.maps.layers && t.maps.layers[k] == id;
      assert k in all.layers && all.layers[k] == id;
    }
  }

  /** One update leaves what is not the router's alone exactly when it advertises a layer or none was advertised. */
  lemma ForeignKeptIff(s: RouterState, keys: seq<string>, muted: map<string, bool>, ids: Identifiers)
    requires Consistent(s) && s.stage.Some? && Distinct(keys)
    requires FreshIdentifiers(s.maps, s.stage, keys, ids)
    ensures Foreign(Reconcile(s, keys, muted, ids)) == Foreign(s) <==> keys != [] || s.layerKeys == []
  {
    var t := Reconcile(s, keys, muted, ids);
    if keys != [] {
      KeptSessionIsForeign(s, keys, muted, ids);
      forall id { KeptMutesAreForeign(s, keys, muted, ids, id); }
      assert Foreign(t).muted == Foreign(s).muted;
    } else {
      EmptyStackForgets(s, muted, ids);
    }
  }

  lemma EmptyStackForgets(s: RouterState, muted: map<string, bool>, ids: Identifiers)
    requires Consistent(s) && s.stage.Some?
    ensures Foreign(Reconcile(s, [], muted, ids)) == Foreign(s) <==> s.layerKeys == []
  {
    var t := Reconcile(s, [], muted, ids);
    var none: set<string> := {};
    assert t.maps.layers.Values == none;
    FilterAll(Unmanaged(none), s.stage.value.session);
    assert Foreign(t) == s.stage.value;
    if s.layerKeys == [] {
      assert s.maps.layers.Values == none;
    } else {
      ForeignIsTail(s);
      assert |s.stage.value.session| >= |s.layerKeys| > 0;
    }
  }

  /** An update that is refused, ignored, or advertises at least one layer. */
  ghost predicate KeepsStack(s: RouterState, c: Command) {
    match c
    case ApplyState(state, _) => ReplyTo(s, state) == Applied ==> state.layers != []
    case SynchronizeFrom(source, _) => source.layerKeys != []
    case Bind(_) => false
    case Close => false
  }

  ghost function RunFrom(s: RouterState, cs: seq<Command>): RouterState {
    if cs == [] then s else Step(RunFrom(s, cs[..|cs| - 1]), cs[|cs| - 1])
  }

  lemma StepKeepsForeign(s: RouterState, c: Command)
    requires Consistent(s) && s.stage.Some? && Allowed(s, c) && KeepsStack(s, c)
    ensures Step(s, c).stage.Some? && Foreign(Step(s, c)) == Foreign(s)
  {
    match c
    case ApplyState(state, ids) =>
      if ReplyTo(s, state) == Applied {
        ForeignKeptIff(s, Keys(state.layers), MutedOf(state.layers), ids);
      }
    case SynchronizeFrom(source, ids) => ForeignKeptIff(s, source.layerKeys, source.muted, ids);
    case Bind(_) => assert false;
    case Close => assert false;
  }

  ghost predicate KeepsStacks(s: RouterState, cs: seq<Command>) {
    forall i :: 0 <= i < |cs| ==> Allowed(RunFrom(s, cs[..i]), cs[i]) && KeepsStack(RunFrom(s, cs[..i]), cs[i])
  }

  lemma KeepsStacksInit(s: RouterState, cs: seq<Command>)
    requires KeepsStacks(s, cs) && cs != []
    ensures KeepsStacks(s, cs[..|cs| - 1])
  {
    var init := cs[..|cs| - 1];
    forall i | 0 <= i < |init| ensures cs[i] == init[i] && init[..i] == cs[..i] {
    }
  }

  lemma {:induction false} ForeignAfterRun(s: RouterState, cs: seq<Command>)
    requires Consistent(s) && s.stage.Some? && KeepsStacks(s, cs)
    ensures var t := RunFrom(s, cs); Consistent(t) && t.stage.Some? && Foreign(t) == Foreign(s)
  {
    if cs != [] {
      var n := |cs| - 1;
      KeepsStacksInit(s, cs);
      ForeignAfterRun(s, cs[..n]);
      StepConsistent(RunFrom(s, cs[..n]), cs[n]);
      StepKeepsForeign(RunFrom(s, cs[..n]), cs[n]);
    }
  }

  /**
   Over every run of updates with non-empty stacks on a bound stage, the sublayers and mute flags that are not
   the router's equal those at the start, in order and with their offsets; they are all that follows the block.
   */
  lemma RunKeepsForeign(s: RouterState, cs: seq<Command>)
    requires Consistent(s) && s.stage.Some? && KeepsStacks(s, cs)
    ensures var t := RunFrom(s, cs);
      && Consistent(t) && t.stage.Some? && Foreign(t) == Foreign(s)
      && (t.layerKeys != [] ==> t.stage.value.session[|t.layerKeys|..] == Foreign(s).session)
  {
    ForeignAfterRun(s, cs);
    if RunFrom(s, cs).layerKeys != [] {
      ForeignIsTail(RunFrom(s, cs));
    }
  }

  /** A route leads to the key's own layer: keys with different routes differ, and the route's layer is composed. */
  lemma RouteIsExact(s: RouterState, i: nat, j: nat)
    requires Consistent(s) && i < |s.layerKeys| && j < |s.layerKeys|
    ensures var route := IdentifierOf(s.maps.layers, s.layerKeys[i]);
      && route in s.maps.keysByIdentifier && s.maps.keysByIdentifier[route] == s.layerKeys[i]
      && (route == IdentifierOf(s.maps.layers, s.layerKeys[j]) ==> i == j)
      && (s.stage.Some? ==> s.stage.value.session[i] == Sublayer(route, IDENTITY)
                            && (route in s.stage.value.muted <==> IsMuted(s.muted, s.layerKeys[i])))
  {
    assert s.layerKeys[i] in s.maps.layers && s.layerKeys[j] in s.maps.layers;
    if s.stage.Some? {
      var block := Block(Identities(s.maps.layers, s.layerKeys));
      assert s.stage.value.session[..|s.layerKeys|][i] == block[i];
    }
  }

  // ---------------------------------------------------------------- the empty stack

  /** No layer that the router gave up is still on the stage. */
  ghost predicate NoOrphans(s: RouterState, t: RouterState)
    requires t.stage.Some?
  {
    forall k :: k in s.maps.layers && k !in t.maps.layers ==>
      s.maps.layers[k] !in t.stage.value.muted
      && forall i :: 0 <= i < |t.stage.value.session| ==> t.stage.value.session[i].path != s.maps.layers[k]
  }

  /**
   An update takes every removed layer off the stage if and only if it advertises a layer, or had nothing
   on the stage to remove: an empty stack leaves the old block composed and forgets that it owns it.
   */
  lemma OrphanFreeIff(s: RouterState, keys: seq<string>, muted: map<string, bool>, ids: Identifiers)
    requires Consistent(s) && s.stage.Some? && FreshIdentifiers(s.maps, s.stage, keys, ids)
    ensures NoOrphans(s, Reconcile(s, keys, muted, ids)) <==> keys != [] || s.layerKeys == []
  {
    var all := CreateMissing(s.maps, keys, ids);
    var t := Reconcile(s, keys, muted, ids);
    if keys == [] {
      if s.layerKeys != [] {
        var k := s.layerKeys[0];
        assert k in s.maps.layers && k !in t.maps.layers;
        assert s.stage.value.session[..|s.layerKeys|][0] == Sublayer(s.maps.layers[k], IDENTITY);
        assert t.stage.value.session[0].path == s.maps.layers[k];
      }
    } else {
      CreateKeepsInverses(s.maps, keys, ids);
      forall k | k in s.maps.layers && k !in t.maps.layers
        ensures s.maps.layers[k] !in t.stage.value.muted
        ensures forall i :: 0 <= i < |t.stage.value.session| ==> t.stage.value.session[i].path != s.maps.layers[k]
      {
        RemovedIsOff(s, all, keys, muted, k);
      }
    }
  }

  lemma RemovedIsOff(s: RouterState, all: KeyMaps, keys: seq<string>, muted: map<string, bool>, k: string)
    requires s.stage.Some? && keys != [] && MutualInverses(all) && (forall j <- keys :: j in all.layers)
    requires k in all.layers && k !in keys
    ensures var after := Install(all.layers, keys, muted, s.stage.value);
      all.layers[k] !in after.muted
      && forall i :: 0 <= i < |after.session| ==> after.session[i].path != all.layers[k]
  {
    var after := Install(all.layers, keys, muted, s.stage.value);
    var kept := Filter(Unmanaged(all.layers.Values), s.stage.value.session);
    FilterIsSubset(Unmanaged(all.layers.Values), s.stage.value.session);
    assert all.layers[k] in all.layers.Values;
    forall j | j in keys ensures IdentifierOf(all.layers, j) != all.layers[k] {
      assert all.keysByIdentifier[all.layers[j]] == j;
    }
    forall i | 0 <= i < |after.session| ensures after.session[i].path != all.layers[k] {
      if i < |keys| {
        assert keys[i] in keys;
      } else {
        assert after.session[i] == kept[i - |keys|];
        assert kept[i - |keys|] in kept;
      }
    }
  }
}
