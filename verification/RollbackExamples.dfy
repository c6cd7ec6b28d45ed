/** Concrete batches at the edges of what the rollback restores. */
module RollbackExamples {
  import opened Wrappers
  import opened SpecPaths
  import opened ProtocolEvents
  import opened LayerRollback
  import opened EventFootprints
  import opened ApplyScope
  import opened BatchRollback
  import A = ApplyOrder
  import P = ApplyPositions

  const PARENT: Path := [Prim("A")]
  const CHILD: Path := [Prim("A"), Prim("B")]

  /** The layer that holds both prims. */
  function Family(parent: SpecData, child: SpecData): Specs {
    map[ROOT := Over, PARENT := parent, CHILD := child]
  }

  lemma PathsOfFamily()
    ensures CHILD[..0] == PARENT[..0] == ROOT && CHILD[..1] == PARENT[..1] == PARENT && CHILD[..2] == CHILD
    ensures Parent(CHILD) == PARENT && Parent(PARENT) == ROOT
  {
  }

  lemma FamilyIsClosed(l: Specs)
    requires l.Keys == {ROOT, PARENT, CHILD} || l.Keys == {ROOT, PARENT}
    ensures PrefixClosed(l)
  {
    PathsOfFamily();
  }

  lemma ScopeAppend(events: seq<Event>, scope: seq<Path>, e: Event)
    requires ScopeOfBatch(events) == Some(scope) && ScopeOf(e).Some?
    ensures ScopeOfBatch(events + [e]) == Some(scope + ScopeOf(e).value)
  {
    TakeOfConcat(events, [e]);
  }

  lemma ScopeOfOne(e: Event, p: Path)
    requires ScopeOf(e) == Some([p])
    ensures ScopeOfBatch([e]) == Some([p])
  {
    ScopeAppend([], [], e);
    assert [e] == [] + [e] && [p] == [] + [p];
  }

  lemma ScopeOfTwo(e: Event, p: Path, f: Event, q: Path)
    requires ScopeOf(e) == Some([p]) && ScopeOf(f) == Some([q])
    ensures ScopeOfBatch([e, f]) == Some([p, q])
  {
    ScopeOfOne(e, p);
    ScopeAppend([e], [p], f);
    assert [e, f] == [e] + [f] && [p, q] == [p] + [q];
  }

  lemma RunsInOrder(e: Event, f: Event)
    requires A.IsBarrier(e) || A.IsBarrier(f)
    ensures A.Executed([e, f]) == [e, f]
  {
    assert forall i, j :: !P.Swapped([e, f], i, j);
    P.BatchUnmovedIff([e, f]);
  }

  // ---------------------------------------------------------------- a child edited before its parent is deleted

  lemma PlanOfChildAndParent(entry: Specs)
    requires ROOT in entry && CHILD in entry && PARENT in entry
    ensures PlanFor(entry, [CHILD, PARENT]) == Plan([CHILD, PARENT], [])
  {
    assert [CHILD, PARENT][..1] == [CHILD] && [CHILD][..0] == [];
    assert PlanFor(entry, [CHILD]) == Plan([CHILD], []);
    assert !Under(CHILD, PARENT);
  }

  lemma FirstCopyRaises(after: Specs, backup: Specs)
    requires PARENT !in after
    ensures Restore(after, backup, [CHILD, PARENT], Raises) == (after, Raised)
  {
    PathsOfFamily();
    assert [CHILD, PARENT][..1] == [CHILD] && [CHILD][..0] == [];
    assert Restore(after, backup, [CHILD], Raises) == (after, Raised);
  }

  lemma EditThenDelete(edit: Event, delete: Event, entry: Specs)
    requires edit == PlainEvent(SetVisibility, CHILD) && delete == PlainEvent(DeletePrim, PARENT)
    requires PrefixClosed(entry) && PARENT in entry
    ensures Execution([edit, delete], entry, [entry, entry, Without(entry, delete)])
    ensures PARENT !in Without(entry, delete)
  {
    WithoutIsStep(delete, entry);
    assert Removes(delete, PARENT);
  }

  /**
   Edit /A/B, then delete /A, then fail. The scope is [/A/B, /A], so the child is copied back while its parent
   is still gone: a rollback whose parentless copies raise stops there.
   */
  lemma ChildEditThenParentDelete(backup: Specs)
    returns (events: seq<Event>, entry: Specs, after: Specs)
    ensures PrefixClosed(entry) && ScopeOfBatch(events).Some?
    ensures Execution(A.Executed(events), entry, [entry, entry, after])
    ensures Rollback(PlanOf(events, entry), backup, after, Raises) == (after, Raised)
    ensures after != entry
  {
    var edit, delete := PlainEvent(SetVisibility, CHILD), PlainEvent(DeletePrim, PARENT);
    entry, events := Family(Authored(true, 1), Authored(true, 2)), [edit, delete];
    after := Without(entry, delete);
    ScopeOfTwo(edit, CHILD, delete, PARENT);
    RunsInOrder(edit, delete);
    FamilyIsClosed(entry);
    EditThenDelete(edit, delete, entry);
    PlanOfChildAndParent(entry);
    FirstCopyRaises(after, backup);
  }

  // ---------------------------------------------------------------- a prim defined below a bare over

  lemma PlanOfMissingChild(entry: Specs)
    requires ROOT in entry && CHILD !in entry && PARENT in entry
    ensures PlanFor(entry, [CHILD]) == Plan([], [CHILD])
  {
    PathsOfFamily();
    assert [CHILD][..0] == [];
  }

  lemma CreatedRollbackKeeps(after: Specs, backup: Specs, p: Path, policy: MissingParent, x: Path)
    requires !Under(p, x)
    ensures Rollback(Plan([], [p]), backup, after, policy).1 == Done
    ensures SameAt(Rollback(Plan([], [p]), backup, after, policy).0, after, x)
  {
    RemoveCreatedAt(after, [p], x);
    assert !UnderAny([p], x);
  }

  lemma DefinitionRuns(define: Event, entry: Specs)
    requires define == PlainEvent(EnsurePrim, CHILD) && PrefixClosed(entry)
    requires CHILD !in entry && PARENT in entry && entry[PARENT] == Over
    ensures Execution([define], entry, [entry, WithDefinition(entry, CHILD, PARENT)])
  {
    PathsOfFamily();
    assert Under(PARENT, CHILD);
    DefinitionIsStep(define, entry, CHILD, PARENT);
  }

  lemma DefinesAlone(define: Event, entry: Specs)
    requires define == PlainEvent(EnsurePrim, CHILD) && PrefixClosed(entry)
    requires CHILD !in entry && PARENT in entry && entry[PARENT] == Over
    ensures ScopeOfBatch([define]).Some? && PlanOf([define], entry) == Plan([], [CHILD])
    ensures Execution(A.Executed([define]), entry, [entry, WithDefinition(entry, CHILD, PARENT)])
  {
    DefinitionRuns(define, entry);
    ScopeOfOne(define, CHILD);
    P.RunsAlone(define);
    PlanOfMissingChild(entry);
  }

  /**
   Ensure /A/B in a layer that holds a bare over at /A, then fail. The scope is [/A/B], so the rollback removes
   /A/B and leaves /A a definition.
   */
  lemma DefineUnderBareOver(backup: Specs, policy: MissingParent)
    returns (events: seq<Event>, entry: Specs, after: Specs)
    ensures PrefixClosed(entry) && ScopeOfBatch(events).Some?
    ensures Execution(A.Executed(events), entry, [entry, after])
    ensures Rollback(PlanOf(events, entry), backup, after, policy).1 == Done
    ensures PARENT in entry && entry[PARENT] == Over
    ensures var rolledBack := Rollback(PlanOf(events, entry), backup, after, policy).0;
      PARENT in rolledBack && rolledBack[PARENT] == Authored(true, 0)
  {
    var define := PlainEvent(EnsurePrim, CHILD);
    entry, events := map[ROOT := Over, PARENT := Over], [define];
    after := WithDefinition(entry, CHILD, PARENT);
    FamilyIsClosed(entry);
    DefinesAlone(define, entry);
    CreatedRollbackKeeps(after, backup, CHILD, policy, PARENT);
  }

  // ---------------------------------------------------------------- the order of a definition and a deletion

  lemma ChildIsNotMissed(define: Event, delete: Event, entry: Specs)
    requires define == PlainEvent(SetInstanceable, CHILD) && delete == PlainEvent(DeletePrim, CHILD)
    requires CHILD in entry && ScopeOfBatch([define, delete]).Some?
    ensures !Exposed([define, delete], [define, delete], entry)
  {
    var order := [define, delete];
    forall i, d, x ensures !ExposedAt(order, order, entry, i, d, x) {
      assert i == 0 || i == 1 || i >= 2;
    }
  }

  lemma ChildIsMissed(delete: Event, define: Event, entry: Specs)
    requires define == PlainEvent(SetInstanceable, CHILD) && delete == PlainEvent(DeletePrim, CHILD)
    requires PARENT in entry && entry[PARENT] == Over && ScopeOfBatch([delete, define]) == Some([CHILD, CHILD])
    ensures ExposedAt([delete, define], [delete, define], entry, 1, CHILD, PARENT)
  {
    PathsOfFamily();
    assert Under(PARENT, CHILD) && !UnderAny([CHILD, CHILD], PARENT);
    assert Removes(delete, CHILD);
  }

  /** Making /A/B instanceable and deleting it afterwards changes nothing else, although /A is a bare over. */
  lemma DefineThenDelete(child: SpecData) returns (events: seq<Event>, entry: Specs)
    ensures events == [PlainEvent(SetInstanceable, CHILD), PlainEvent(DeletePrim, CHILD)]
    ensures entry == Family(Over, child) && ScopeOfBatch(events).Some?
    ensures forall layers :: Execution(A.Executed(events), entry, layers) ==>
              Confined(entry, ScopeOfBatch(events).value, Final(layers))
  {
    var define, delete := PlainEvent(SetInstanceable, CHILD), PlainEvent(DeletePrim, CHILD);
    entry, events := Family(Over, child), [define, delete];
    ScopeOfTwo(define, CHILD, delete, CHILD);
    RunsInOrder(define, delete);
    FamilyIsClosed(entry);
    ChildIsNotMissed(define, delete, entry);
    ScopeSufficesIff(events, entry);
  }

  lemma DefinedAfterDeletion(delete: Event, define: Event, entry: Specs) returns (layers: seq<Specs>)
    requires define == PlainEvent(SetInstanceable, CHILD) && delete == PlainEvent(DeletePrim, CHILD)
    requires PrefixClosed(entry) && PARENT in entry && entry[PARENT] == Over
    ensures ScopeOfBatch([delete, define]).Some?
    ensures Execution(A.Executed([delete, define]), entry, layers)
    ensures !SameAt(Final(layers), entry, PARENT)
  {
    ScopeOfTwo(delete, CHILD, define, CHILD);
    RunsInOrder(delete, define);
    ChildIsMissed(delete, define, entry);
    layers := ExposedBatchEscapes([delete, define], entry, 1, CHILD, PARENT);
  }

  /** In the other order /A/B is gone when it is made instanceable, and /A may become a definition. */
  lemma DeleteThenDefine(child: SpecData) returns (events: seq<Event>, entry: Specs, layers: seq<Specs>)
    ensures events == [PlainEvent(DeletePrim, CHILD), PlainEvent(SetInstanceable, CHILD)]
    ensures entry == Family(Over, child) && ScopeOfBatch(events).Some?
    ensures Execution(A.Executed(events), entry, layers)
    ensures !SameAt(Final(layers), entry, PARENT)
  {
    var define, delete := PlainEvent(SetInstanceable, CHILD), PlainEvent(DeletePrim, CHILD);
    entry, events := Family(Over, child), [delete, define];
    FamilyIsClosed(entry);
    layers := DefinedAfterDeletion(delete, define, entry);
  }
}
