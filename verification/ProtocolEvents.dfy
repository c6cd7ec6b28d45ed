/** The events of a batch, with the fields that decide their order and their footprint. */
module ProtocolEvents {
  import opened Wrappers
  import opened SpecPaths

  datatype Kind =
    | EnsurePrim | EnsureXformOps | SetXformTrs | DeletePrim | DeactivatePrim | RenamePrim | SetVisibility
    | SetGprimAttrs | SetReference | SetPayload | LoadPayload | UnloadPayload | SetVariantSelections
    | SetMaterialBinding | SetConnectableInput | SetConnectableConnection | SetStageMetadata
    | SetInstanceable | SetPointInstancer | SetSdfSpecFields | ReplaceSdfLayerContent | SetSublayers
    | EraseTimeSamples

  /** The fields of the exact Sdf events. */
  datatype SpecEdit = SpecEdit(layerKind: bool, path: Option<Path>, fields: seq<string>, removed: bool)

  const NO_SPEC_EDIT := SpecEdit(false, None, [], false)

  /**
   An event dictionary. A field that the kind does not use holds anything; `sources` are the source prims of
   connections, `authored` says that an arc event authors its list operation, `content` stands for all values.
   */
  datatype Event = Event(
    kind: Kind, prim: Option<Path>, typeName: string, apiSchemas: seq<string>, spec: SpecEdit, newName: string,
    sources: seq<Option<Path>>, infoId: string, authored: bool, content: int)

  /** An event that needs no more than its kind and its prim. */
  function PlainEvent(kind: Kind, prim: Path): Event {
    Event(kind, Some(prim), "", [], NO_SPEC_EDIT, "", [], "", false, 0)
  }

  /** Kinds whose events name a spec in the layer instead of a prim in the scene. */
  predicate IsSpecKind(k: Kind) {
    k.SetSdfSpecFields? || k.EraseTimeSamples?
  }

  predicate SpecPathsFormed(e: Event) {
    IsSpecKind(e.kind) && e.spec.path.Some? ==> SpecPathForm(e.spec.path.value)
  }

  predicate WellFormed(e: Event) {
    && (e.prim.Some? ==> AllPrim(e.prim.value))
    && forall s <- e.sources :: s.Some? ==> AllPrim(s.value)
  }
}
