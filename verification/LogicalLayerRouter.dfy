/** The router object, updating its maps and the stage's session layer in place. */
module LogicalLayerRouter {
  import opened Wrappers
  import opened ManagedSublayers
  import opened LogicalLayers

  /** A stage: its session layer and its set of muted layer identifiers. */
  class Stage {
    const session: SessionLayer
    var mutedLayers: set<string>

    constructor ()
      ensures fresh(session) && session.Valid() && session.Sublayers() == [] && mutedLayers == {}
    {
      session := new SessionLayer();
      mutedLayers := {};
    }

    predicate IsLayerMuted(identifier: string)
      reads this
    {
      identifier in mutedLayers
    }

    method MuteAndUnmuteLayers(mute: set<string>, unmute: set<string>)
      modifies this
      ensures mutedLayers == (old(mutedLayers) + mute) - unmute
    {
      mutedLayers := (mutedLayers + mute) - unmute;
    }

    ghost function View(): StageView
      requires session.Valid()
      reads this, session
    {
      StageView(session.Sublayers(), mutedLayers)
    }
  }

  class LogicalLayerRouter {
    var layers: map<string, string>
    var keysByIdentifier: map<string, string>
    var generation: string
    var revision: int
    var ready: bool
    var layerKeys: seq<string>
    var muted: map<string, bool>
    var stage: Stage?

    ghost predicate Valid()
      reads this, stage, if stage == null then {} else {stage.session}
    {
      stage != null ==> stage.session.Valid()
    }

    /** Every advertised key has a layer. */
    ghost predicate KeysKnown()
      reads this
    {
      forall k <- layerKeys :: k in layers
    }

    ghost function Abstract(): RouterState
      requires Valid()
      reads this, stage, if stage == null then {} else {stage.session}
    {
      RouterState(KeyMaps(layers, keysByIdentifier), generation, revision, ready, layerKeys, muted,
                  if stage == null then None else Some(stage.View()))
    }

    constructor ()
      ensures Valid() && Abstract() == INITIAL && stage == null
    {
      layers, keysByIdentifier, generation, revision, ready := map[], map[], "", -1, false;
      layerKeys, muted, stage := [], map[], null;
    }

    /** The receiver-local layer of a routed event. */
    method LayerFor(layerKey: string) returns (layer: Option<string>)
      requires KeysKnown()
      ensures layer == if ready && layerKey in layerKeys then Some(layers[layerKey]) else None
    {
      if !ready || layerKey !in layerKeys {
        return None;
      }
      layer := Some(layers[layerKey]);
    }

    /** Check the advertised items before anything changes. */
    static method ParseItems(items: seq<Item>) returns (ok: bool, keys: seq<string>, muted: map<string, bool>)
      ensures ok <==> WellFormed(items)
      ensures ok ==> keys == Keys(items) && muted == MutedOf(items)
    {
      keys, muted := [], map[];
      for i := 0 to |items|
        invariant keys == Keys(items[..i]) && muted == MutedOf(items[..i])
        invariant muted.Keys == set k <- keys
        invariant WellFormed(items[..i])
      {
        var item := items[i];
        TakeNext(items, i);
        assert Keys(items[..i + 1]) == Keys(items[..i]) + [item.layerKey];
        if item.layerKey == "" {
          return false, keys, muted;
        }
        if item.layerKey in muted {
          RepeatedKey(items, i);
          return false, keys, muted;
        }
        keys := keys + [item.layerKey];
        muted := muted[item.layerKey := item.muted];
      }
      TakeAll(items);
      ok := true;
    }

    method CreateLayers(keys: seq<string>, ids: Identifiers)
      modifies this`layers, this`keysByIdentifier
      ensures KeyMaps(layers, keysByIdentifier)
           == CreateMissing(KeyMaps(old(layers), old(keysByIdentifier)), keys, ids)
    {
      ghost var before := KeyMaps(layers, keysByIdentifier);
      for i := 0 to |keys|
        invariant KeyMaps(layers, keysByIdentifier) == CreateMissing(before, keys[..i], ids)
      {
        TakeNext(keys, i);
        if keys[i] !in layers {
          var layer := ids(keys[i]);
          layers := layers[keys[i] := layer];
          keysByIdentifier := keysByIdentifier[layer := keys[i]];
        }
      }
      TakeAll(keys);
    }

    /** Compose the active layers on the stage; an empty stack returns at once. */
    method InstallLayers(stage: Stage)
      requires stage.session.Valid() && KeysKnown()
      modifies stage, stage.session
      ensures stage.session.Valid()
      ensures stage.View() == Install(layers, layerKeys, muted, old(stage.View()))
    {
      if layerKeys == [] {
        return;
      }
      var activeIds := Identities(layers, layerKeys);
      var allIds := layers.Values;
      forall i | 0 <= i < |activeIds| ensures activeIds[i] in allIds {
        assert layerKeys[i] in layers;
      }
      var desiredMuted := DesiredMuted(layers, layerKeys, muted);
      DesiredIsActive(layers, layerKeys, muted);
      var currentlyMuted := set id | id in allIds && stage.IsLayerMuted(id);
      var toUnmute := currentlyMuted - desiredMuted;
      if toUnmute != {} {
        stage.MuteAndUnmuteLayers({}, toUnmute);
      }
      stage.session.ReplaceManagedSublayers(activeIds, allIds);
      var stillMuted := set id | id in activeIds && stage.IsLayerMuted(id);
      var toMute, againUnmute := desiredMuted - stillMuted, stillMuted - desiredMuted;
      if toMute != {} || againUnmute != {} {
        stage.MuteAndUnmuteLayers(toMute, againUnmute);
      }
    }

    method DetachLayers(stage: Stage)
      requires stage.session.Valid()
      modifies stage, stage.session
      ensures stage.session.Valid()
      ensures stage.View() == Detach(layers, old(stage.View()))
    {
      var managed := layers.Values;
      var currentlyMuted := set id | id in managed && stage.IsLayerMuted(id);
      assert stage.mutedLayers - managed == stage.mutedLayers - currentlyMuted by {
        forall id | id in managed && id in stage.mutedLayers ensures id in currentlyMuted {
        }
      }
      if currentlyMuted != {} {
        stage.MuteAndUnmuteLayers({}, currentlyMuted);
      }
      stage.session.ReplaceManagedSublayers([], managed);
    }

    /** Drop the keys that are no longer advertised, in both directions. */
    method RemoveOtherKeys(keys: seq<string>)
      modifies this`layers, this`keysByIdentifier
      ensures KeyMaps(layers, keysByIdentifier) == ForgetOthers(KeyMaps(old(layers), old(keysByIdentifier)), keys)
    {
      var removed := layers.Keys - set k <- keys;
      keysByIdentifier := keysByIdentifier - set k | k in removed && k in layers :: layers[k];
      layers := layers - removed;
    }

    /** Compose the active layers on the bound stage, if there is one. */
    method InstallOnBound()
      requires Valid() && KeysKnown()
      modifies stage, if stage == null then {} else {stage.session}
      ensures Valid()
      ensures var before := old(Abstract());
        Abstract() == before.(stage := if before.stage == None then None
                                       else Some(Install(layers, layerKeys, muted, before.stage.value)))
    {
      if stage != null {
        InstallLayers(stage);
      }
    }

    /** Take over the advertised keys and mute flags, creating the layers that are missing. */
    method AddKeys(keys: seq<string>, newMuted: map<string, bool>, ids: Identifiers)
      requires Valid()
      modifies this`layers, this`keysByIdentifier, this`layerKeys, this`muted
      ensures Valid() && KeysKnown()
      ensures Abstract() == old(Abstract())
        .(maps := CreateMissing(old(Abstract()).maps, keys, ids), layerKeys := keys, muted := newMuted)
    {
      CreateLayers(keys, ids);
      layerKeys := keys;
      muted := newMuted;
    }

    /** Adopt the keys, recompose the bound stage, then drop the removed keys. */
    method AdoptKeys(keys: seq<string>, newMuted: map<string, bool>, ids: Identifiers)
      requires Valid()
      modifies this`layers, this`keysByIdentifier, this`layerKeys, this`muted
      modifies stage, if stage == null then {} else {stage.session}
      ensures Valid() && Abstract() == Reconcile(old(Abstract()), keys, newMuted, ids)
    {
      AddKeys(keys, newMuted, ids);
      InstallOnBound();
      RemoveOtherKeys(keys);
    }

    /** Apply one authoritative state; refused and stale states change nothing. */
    method ApplyState(state: LayerState, ids: Identifiers) returns (reply: Reply)
      requires Valid()
      modifies this, stage, if stage == null then {} else {stage.session}
      ensures Valid() && stage == old(stage)
      ensures reply == ReplyTo(old(Abstract()), state)
      ensures Abstract() == Step(old(Abstract()), LogicalLayers.ApplyState(state, ids))
    {
      if state.revision < 0 {
        return Refused;
      }
      if state.generation == generation && state.revision <= revision {
        return Ignored;
      }
      var ok, keys, newMuted := ParseItems(state.layers);
      if !ok {
        return Refused;
      }
      AdoptAndCommit(state, keys, newMuted, ids);
      reply := Applied;
    }

    /** Reconcile; the generation, revision and readiness commit after it. */
    method AdoptAndCommit(state: LayerState, keys: seq<string>, newMuted: map<string, bool>, ids: Identifiers)
      requires Valid()
      modifies this`layers, this`keysByIdentifier, this`layerKeys, this`muted
      modifies this`generation, this`revision, this`ready
      modifies stage, if stage == null then {} else {stage.session}
      ensures Valid() && stage == old(stage)
      ensures Abstract() == Reconcile(old(Abstract()), keys, newMuted, ids)
        .(generation := state.generation, revision := state.revision, ready := true)
    {
      AdoptKeys(keys, newMuted, ids);
      generation := state.generation;
      revision := state.revision;
      ready := true;
    }

    /** Attach to another stage, detaching from the current one first. */
    method Bind(newStage: Stage)
      requires Valid() && KeysKnown() && newStage.session.Valid()
      requires stage != null && stage != newStage ==> stage.session != newStage.session
      modifies this, stage, if stage == null then {} else {stage.session}
      modifies newStage, newStage.session
      ensures Valid() && stage == newStage
      ensures old(stage) == newStage ==> Abstract() == old(Abstract())
      ensures old(stage) != newStage ==> Abstract() == Step(old(Abstract()), LogicalLayers.Bind(old(newStage.View())))
      ensures old(stage) != null && old(stage) != newStage ==>
        old(stage).session.Valid() && old(stage).View() == Detach(old(layers), old(stage.View()))
    {
      if stage == newStage {
        return;
      }
      if stage != null {
        DetachLayers(stage);
      }
      stage := newStage;
      InstallLayers(newStage);
    }

    method Close()
      requires Valid()
      modifies this, stage, if stage == null then {} else {stage.session}
      ensures Valid() && Abstract() == Step(old(Abstract()), LogicalLayers.Close)
      ensures old(stage) != null ==>
        old(stage).session.Valid() && old(stage).View() == Detach(old(layers), old(stage.View()))
    {
      if stage != null {
        DetachLayers(stage);
      }
      stage := null;
    }
  }

  lemma RepeatedKey(items: seq<Item>, i: nat)
    requires i < |items| && items[i].layerKey in Keys(items[..i])
    ensures !WellFormed(items)
  {
    var j :| 0 <= j < i && Keys(items[..i])[j] == items[i].layerKey;
    assert Keys(items)[j] == Keys(items)[i];
  }

  lemma DesiredIsActive(layers: map<string, string>, keys: seq<string>, muted: map<string, bool>)
    requires forall k <- keys :: k in layers
    ensures forall id :: id in DesiredMuted(layers, keys, muted) ==>
      id in Identities(layers, keys) && id in layers.Values
  {
    forall id | id in DesiredMuted(layers, keys, muted)
      ensures id in Identities(layers, keys) && id in layers.Values
    {
      var k :| k in keys && IsMuted(muted, k) && IdentifierOf(layers, k) == id;
      var i :| 0 <= i < |keys| && keys[i] == k;
      assert Identities(layers, keys)[i] == id;
    }
  }
}
