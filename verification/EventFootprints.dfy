/**
 What each event's applier may change in the layer that it is applied to, and what it creates for certain.

 An applier writes specs through USD, which adds missing ancestors of what it writes. Defining a prim goes
 further: USD also turns the prim's present but undefined ancestors into definitions.
 */
module EventFootprints {
  import opened Wrappers
  import opened SpecPaths
  import opened ProtocolEvents
  import opened LayerRollback

  /** An event that may write anywhere in the layer. */
  predicate LayerWide(e: Event) {
    if e.kind.SetStageMetadata? || e.kind.ReplaceSdfLayerContent? || e.kind.SetSublayers? then true
    else if IsSpecKind(e.kind) then e.spec.layerKind || e.spec.path == None
    else e.prim == None
  }

  // ---------------------------------------------------------------- parts of a footprint

  /** Prims that own a variant selection on the path; editing below one may edit its variant set list. */
  function VariantOwners(p: Path): (r: seq<Path>)
    ensures forall o <- r :: |o| < |p| && p[..|o|] == o && p[|o|].Variant?
  {
    if p == [] then []
    else VariantOwners(Parent(p)) + (if p[|p| - 1].Variant? then [Parent(p)] else [])
  }

  function Sources(sources: seq<Option<Path>>): (r: seq<Path>)
    ensures forall p: Path :: p in r <==> Some(p) in sources
  {
    if sources == [] then []
    else (if sources[0].Some? then [sources[0].value] else []) + Sources(sources[1..])
  }

  /** The subtree that goes with the spec at p; a variant set, written with no selection, takes its variants along. */
  predicate GoesWith(p: Path, x: Path) {
    Under(p, x)
    || (&& p != ROOT && p[|p| - 1].Variant? && p[|p| - 1].selection == ""
        && |p| <= |x| && Parent(p) == x[..|p| - 1]
        && x[|p| - 1].Variant? && x[|p| - 1].variantSet == p[|p| - 1].variantSet)
  }

  /** Where the event may take specs away. */
  predicate Removes(e: Event, x: Path)
    requires !LayerWide(e)
  {
    match e.kind
    case SetSdfSpecFields =>
      // A property of the wrong kind is removed before the fields are copied.
      var p := e.spec.path.value;
      (e.spec.removed || (p != ROOT && p[|p| - 1].Property?)) && GoesWith(p, x)
    case RenamePrim => Under(e.prim.value, x)
    case DeletePrim => Under(e.prim.value, x)
    case _ => false
  }

  /** Specs whose fields, properties and variant sets the event may write, creating them where missing. */
  function Touched(e: Event): seq<Path>
    requires !LayerWide(e)
  {
    if e.kind.SetSdfSpecFields? then [e.spec.path.value] + VariantOwners(e.spec.path.value)
    else if e.kind.EraseTimeSamples? then [e.spec.path.value]
    else if e.kind.SetConnectableConnection? then [e.prim.value] + Sources(e.sources)
    else if e.kind.RenamePrim? || e.kind.DeletePrim? || e.kind.LoadPayload? || e.kind.UnloadPayload? then []
    else [e.prim.value]
  }

  /** The prim's path after a rename. */
  function RenamedTo(e: Event): Path
    requires e.prim.Some? && e.prim.value != ROOT
  {
    Parent(e.prim.value) + [Prim(e.newName)]
  }

  /** Where the event may put a whole subtree: the new name of a renamed prim. */
  function Filled(e: Event): seq<Path> {
    if e.kind.RenamePrim? && e.prim.Some? && e.prim.value != ROOT then [RenamedTo(e)] else []
  }

  /** Prims that the event defines if the scene does not have them. */
  function Defines(e: Event): seq<Path>
    requires !LayerWide(e)
  {
    match e.kind
    case SetConnectableConnection => Sources(e.sources)
    case EnsurePrim => [e.prim.value]
    case EnsureXformOps => [e.prim.value]
    case SetInstanceable => [e.prim.value]
    case SetVariantSelections => [e.prim.value]
    case SetMaterialBinding => [e.prim.value]
    case SetConnectableInput => if e.infoId != "" then [e.prim.value] else []
    case _ => []
  }

  /** Specs that are present, with their ancestors, whenever the event was applied without raising. */
  function Creates(e: Event): seq<Path>
    requires !LayerWide(e)
  {
    match e.kind
    case SetSdfSpecFields => if e.spec.removed then [] else [e.spec.path.value]
    case EnsurePrim => if e.typeName != "" || e.apiSchemas == [] then [e.prim.value] else []
    case EnsureXformOps => [e.prim.value]
    case SetReference => if e.authored then [e.prim.value] else []
    case SetPayload => if e.authored then [e.prim.value] else []
    case _ => []
  }

  /** The spec at t, its properties and its variant sets, but no prim below it. */
  predicate OwnPart(t: Path, x: Path) {
    Under(t, x) && forall i :: |t| <= i < |x| ==> !x[i].Prim?
  }

  predicate Undefined(spec: SpecData) {
    spec.Over? || !spec.isDef
  }

  /** Defining a missing prim makes x, a present but undefined ancestor, a definition. */
  predicate Promotes(d: Path, l: Specs, x: Path) {
    d !in l && x != ROOT && x != d && Under(x, d) && x in l && Undefined(l[x])
  }

  // ---------------------------------------------------------------- one event

  /** Where the event may change the layer, promoted ancestors aside. */
  ghost predicate WritesBelow(e: Event, l: Specs, x: Path)
    requires !LayerWide(e)
  {
    || Removes(e, x)
    || (exists t :: t in Touched(e) && (OwnPart(t, x) || (Under(x, t) && x !in l)))
    || (exists t :: t in Filled(e) && Under(t, x) && x !in l)
  }

  ghost predicate PromotesAny(e: Event, l: Specs, x: Path)
    requires !LayerWide(e)
  {
    exists d :: d in Defines(e) && Promotes(d, l, x)
  }

  /** The layer changed only where the event may write; the applier may have failed part way. */
  ghost predicate StepWithin(e: Event, l: Specs, l': Specs) {
    LayerWide(e)
    || (&& (forall x :: !WritesBelow(e, l, x) && !PromotesAny(e, l, x) ==> SameAt(l', l, x))
        && (forall x :: x in l && AllPrim(x) && !Removes(e, x) ==> x in l'))
  }

  /** The applier did not raise. */
  ghost predicate CompleteStep(e: Event, l: Specs, l': Specs) {
    StepWithin(e, l, l') && (!LayerWide(e) ==> forall c <- Creates(e) :: c in l')
  }

  /** An event that was applied without raising leaves d present for certain. */
  predicate SurelyCreates(e: Event, d: Path)
    requires !LayerWide(e)
  {
    exists c :: c in Creates(e) && Under(d, c)
  }

  lemma DefinesAreTouched(e: Event, d: Path)
    requires !LayerWide(e) && d in Defines(e)
    ensures d in Touched(e)
  {
  }

  lemma DefinesArePrims(e: Event, d: Path)
    requires !LayerWide(e) && WellFormed(e) && d in Defines(e)
    ensures AllPrim(d)
  {
  }

  // ---------------------------------------------------------------- steps that an event may take

  lemma RemovesBelow(e: Event, x: Path, y: Path)
    requires !LayerWide(e) && Removes(e, x) && Under(x, y)
    ensures Removes(e, y)
  {
    if e.kind.SetSdfSpecFields? {
      var p := e.spec.path.value;
      if Under(p, x) {
        UnderTransitive(p, x, y);
      } else {
        assert y[..|p| - 1] == y[..|x|][..|p| - 1];
        assert y[|p| - 1] == y[..|x|][|p| - 1];
      }
    } else {
      UnderTransitive(e.prim.value, x, y);
    }
  }

  lemma SameElements(p: Path, x: Path)
    requires Under(p, x)
    ensures forall i :: 0 <= i < |p| ==> x[i] == p[i]
  {
    assert forall i :: 0 <= i < |p| ==> x[..|p|][i] == x[i];
  }

  lemma NoPrimGoesWithProperty(p: Path, d: Path)
    requires p != ROOT && p[|p| - 1].Property? && AllPrim(d)
    ensures !GoesWith(p, d)
  {
    if Under(p, d) {
      SameElements(p, d);
    }
  }

  /** An event that takes a prim away creates nothing for certain. */
  lemma RemoverCreatesNothing(e: Event, d: Path)
    requires !LayerWide(e) && AllPrim(d) && Removes(e, d)
    ensures Creates(e) == []
  {
    if e.kind.SetSdfSpecFields? && e.spec.path.value != ROOT
       && e.spec.path.value[|e.spec.path.value| - 1].Property? {
      NoPrimGoesWithProperty(e.spec.path.value, d);
    }
  }

  /** The event has taken away all that it may. */
  function Without(l: Specs, e: Event): (r: Specs)
    requires !LayerWide(e)
    ensures forall x :: if Removes(e, x) then x !in r else SameAt(r, l, x)
  {
    map x | x in l && !Removes(e, x) :: l[x]
  }

  lemma WithoutIsStep(e: Event, l: Specs)
    requires PrefixClosed(l) && !LayerWide(e) && !Removes(e, ROOT)
    ensures StepWithin(e, l, Without(l, e)) && PrefixClosed(Without(l, e))
  {
    var r := Without(l, e);
    forall x | x in l && !Removes(e, x) ensures x in r {
      assert SameAt(r, l, x);
    }
    forall p, k | p in r && 0 <= k <= |p| ensures p[..k] in r {
      if Removes(e, p[..k]) {
        RemovesBelow(e, p[..k], p);
      }
      assert p in l;
      assert SameAt(r, l, p[..k]);
    }
    assert SameAt(r, l, ROOT);
  }

  /** The event has created what it creates for certain, and changed nothing else. */
  function WithCreated(l: Specs, e: Event): (r: Specs)
    requires !LayerWide(e)
    ensures forall x :: x in r <==> x in l || SurelyCreates(e, x)
    ensures forall x :: x in l ==> r[x] == l[x]
  {
    if Creates(e) == [] then l
    else
      assert Creates(e) == [Creates(e)[0]];
      CreatePrim(l, Creates(e)[0])
  }

  lemma CreatedIsClosed(l: Specs, p: Path)
    requires PrefixClosed(l)
    ensures PrefixClosed(CreatePrim(l, p))
  {
    var r := CreatePrim(l, p);
    forall q, k | q in r && 0 <= k <= |q| ensures q[..k] in r {
      if q !in l {
        UnderTransitive(q[..k], q, p);
      }
    }
  }

  lemma CreationIsWithin(e: Event, l: Specs, x: Path)
    requires !LayerWide(e) && SurelyCreates(e, x) && x !in l
    ensures WritesBelow(e, l, x)
  {
    var c :| c in Creates(e) && Under(x, c);
    assert c in Touched(e);
  }

  lemma WithCreatedIsStep(e: Event, l: Specs)
    requires PrefixClosed(l) && !LayerWide(e)
    ensures CompleteStep(e, l, WithCreated(l, e)) && PrefixClosed(WithCreated(l, e))
  {
    var r := WithCreated(l, e);
    if Creates(e) != [] {
      CreatedIsClosed(l, Creates(e)[0]);
    }
    forall c | c in Creates(e) ensures c in r {
      assert Under(c, c);
    }
    forall x | x in r && x !in l ensures WritesBelow(e, l, x) {
      CreationIsWithin(e, l, x);
    }
  }

  /** The layer in which d was created and its ancestor x made a definition. */
  function WithDefinition(l: Specs, d: Path, x: Path): Specs {
    CreatePrim(l, d)[x := Authored(true, 0)]
  }

  lemma DefinitionIsStep(e: Event, l: Specs, d: Path, x: Path)
    requires PrefixClosed(l) && !LayerWide(e) && d in Defines(e) && Promotes(d, l, x)
    ensures StepWithin(e, l, WithDefinition(l, d, x)) && PrefixClosed(WithDefinition(l, d, x))
    ensures !SameAt(WithDefinition(l, d, x), l, x)
  {
    var r := WithDefinition(l, d, x);
    DefinesAreTouched(e, d);
    assert PromotesAny(e, l, x);
    forall y | !WritesBelow(e, l, y) && y != x ensures SameAt(r, l, y) {
      assert Under(y, d) ==> y in l;
    }
    CreatedIsClosed(l, d);
    assert r.Keys == CreatePrim(l, d).Keys;
  }
}
