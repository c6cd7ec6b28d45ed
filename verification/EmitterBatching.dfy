/**
 The emitter's prepare / retry / mark-sent protocol around one retained batch.

 `dirty` stands for the events that building from the current dirty state would return; every edit
 appends to it. Building consumes it.
 */
module EmitterBatching {
  import opened Wrappers
  import opened Coalescing

  // ---------------------------------------------------------------- protocol on values

  datatype EmitterState = EmitterState(sent: seq<Event>, prepared: Option<seq<Event>>, dirty: seq<Event>)

  const INITIAL := EmitterState([], None, [])

  datatype Command =
    | Edit(e: Event)
    | Prepare
    | PrepareCoalesced
    | Send(accepted: bool)

  /** Retain the dirty events as the next batch; an empty build retains nothing. */
  function Freeze(s: EmitterState): EmitterState {
    if s.prepared.Some? || s.dirty == [] then s
    else s.(prepared := Some(s.dirty), dirty := [])
  }

  function Step(s: EmitterState, c: Command): EmitterState {
    match c
    case Edit(e) => s.(dirty := s.dirty + [e])
    case Prepare => Freeze(s)
    case PrepareCoalesced =>
      if s.prepared.Some? then s.(prepared := Some(MergeAll(s.prepared.value, s.dirty)), dirty := [])
      else Freeze(s)
    case Send(accepted) =>
      if accepted && s.prepared.Some? then s.(sent := s.sent + s.prepared.value, prepared := None)
      else s
  }

  function RunCommands(cs: seq<Command>): EmitterState {
    if cs == [] then INITIAL else Step(RunCommands(cs[..|cs| - 1]), cs[|cs| - 1])
  }

  /** The edits of a run, in order. */
  function Edits(cs: seq<Command>): seq<Event> {
    if cs == [] then []
    else Edits(cs[..|cs| - 1]) + (if cs[|cs| - 1].Edit? then [cs[|cs| - 1].e] else [])
  }

  function Retained(s: EmitterState): seq<Event> {
    if s.prepared.Some? then s.prepared.value else []
  }

  /** What receivers have, will get from the retained batch, and will get from later batches. */
  function Delivered(s: EmitterState): seq<Event> {
    s.sent + Retained(s) + s.dirty
  }

  function Added(c: Command): seq<Event> {
    if c.Edit? then [c.e] else []
  }

  lemma CoalesceConserves<R>(
    sem: (Op, State<R>) -> State<R>, sent: seq<Event>, p: seq<Event>, dirty: seq<Event>, start: State<R>)
    ensures Run(sem, sent + MergeAll(p, dirty), start) == Run(sem, sent + (p + dirty), start)
  {
    RunConcat(sem, sent, MergeAll(p, dirty), start);
    MergePreservesMeaning(sem, p, dirty, Run(sem, sent, start));
    RunConcat(sem, sent, p + dirty, start);
  }

  /** Every step but a coalescing one only moves the boundary between sent, retained and dirty. */
  lemma StepMovesBoundary(s: EmitterState, c: Command)
    requires !(c.PrepareCoalesced? && s.prepared.Some?)
    ensures Delivered(Step(s, c)) == Delivered(s) + Added(c)
  {
  }

  lemma StepConserves<R>(sem: (Op, State<R>) -> State<R>, s: EmitterState, c: Command, start: State<R>)
    ensures Run(sem, Delivered(Step(s, c)), start) == Run(sem, Delivered(s) + Added(c), start)
  {
    if c.PrepareCoalesced? && s.prepared.Some? {
      CoalesceConserves(sem, s.sent, s.prepared.value, s.dirty, start);
      assert Delivered(Step(s, c)) == s.sent + MergeAll(s.prepared.value, s.dirty);
      assert Delivered(s) + Added(c) == s.sent + (s.prepared.value + s.dirty);
    } else {
      StepMovesBoundary(s, c);
    }
  }

  /** Over every run, the delivered events mean exactly what the edits mean, in order. */
  lemma {:induction false} RunConserves<R>(sem: (Op, State<R>) -> State<R>, cs: seq<Command>, start: State<R>)
    ensures Run(sem, Delivered(RunCommands(cs)), start) == Run(sem, Edits(cs), start)
  {
    if cs != [] {
      var init, c := cs[..|cs| - 1], cs[|cs| - 1];
      RunConserves(sem, init, start);
      StepConserves(sem, RunCommands(init), c, start);
      RunConcat(sem, Delivered(RunCommands(init)), Added(c), start);
      RunConcat(sem, Edits(init), Added(c), start);
    }
  }

  lemma FilterThree(a: seq<Event>, b: seq<Event>, c: seq<Event>)
    ensures Filter(IsOther(), a + b + c)
         == Filter(IsOther(), a) + Filter(IsOther(), b) + Filter(IsOther(), c)
  {
    FilterConcat(IsOther(), a + b, c);
    FilterConcat(IsOther(), a, b);
  }

  lemma StepKeepsOtherEvents(s: EmitterState, c: Command)
    ensures Filter(IsOther(), Delivered(Step(s, c)))
         == Filter(IsOther(), Delivered(s)) + Filter(IsOther(), Added(c))
  {
    var s' := Step(s, c);
    FilterConcat(IsOther(), Delivered(s), Added(c));
    if c.PrepareCoalesced? && s.prepared.Some? {
      MergeKeepsOtherEvents(s.prepared.value, s.dirty);
      FilterThree(s.sent, s.prepared.value, s.dirty);
      FilterConcat(IsOther(), s.sent, Retained(s'));
      assert Delivered(s') == s.sent + Retained(s');
    } else {
      StepMovesBoundary(s, c);
    }
  }

  /** Over every run, each non-transform edit is delivered exactly once and in order. */
  lemma {:induction false} RunDeliversOtherEventsOnce(cs: seq<Command>)
    ensures Filter(IsOther(), Delivered(RunCommands(cs))) == Filter(IsOther(), Edits(cs))
  {
    if cs != [] {
      var init, c := cs[..|cs| - 1], cs[|cs| - 1];
      RunDeliversOtherEventsOnce(init);
      StepKeepsOtherEvents(RunCommands(init), c);
      FilterConcat(IsOther(), Edits(init), Added(c));
    }
  }

  /** What was sent is never rewritten; a batch retained under plain prepare never changes either. */
  lemma {:induction false} RetainedBatchIsStable(cs: seq<Command>, more: seq<Command>)
    requires RunCommands(cs).prepared.Some?
    requires forall c <- more :: !c.PrepareCoalesced? && c != Send(true)
    ensures RunCommands(cs + more).prepared == RunCommands(cs).prepared
    ensures RunCommands(cs + more).sent == RunCommands(cs).sent
    ensures RunCommands(cs + more).dirty == RunCommands(cs).dirty + Edits(more)
  {
    if more == [] {
      assert cs + more == cs;
    } else {
      var init := more[..|more| - 1];
      InitOfConcat(cs, more);
      assert more[|more| - 1] in more;
      RetainedBatchIsStable(cs, init);
      assert Edits(more) == Edits(init) + Added(more[|more| - 1]);
    }
  }

  lemma {:induction false} SentOnlyGrows(cs: seq<Command>, more: seq<Command>)
    ensures RunCommands(cs).sent <= RunCommands(cs + more).sent
  {
    if more == [] {
      assert cs + more == cs;
    } else {
      var init := more[..|more| - 1];
      InitOfConcat(cs, more);
      SentOnlyGrows(cs, init);
    }
  }

  // ---------------------------------------------------------------- the emitter object

  class NoticeEmitter {
    var prepared: EventList?
    var dirty: seq<Event>
    ghost var sent: seq<Event>

    ghost function Repr(): set<object>
      reads this, prepared
    {
      {this} + (if prepared == null then {} else {prepared} + set d: EventDict | d in prepared.items)
    }

    ghost predicate Valid()
      reads this, prepared
    {
      prepared != null ==> prepared.items != [] && Distinct(prepared.items)
    }

    ghost function Abstract(): EmitterState
      reads this, prepared, if prepared == null then {} else set d | d in prepared.items
    {
      EmitterState(sent, if prepared == null then None else Some(View(prepared.items)), dirty)
    }

    constructor ()
      ensures Valid() && fresh(Repr()) && Abstract() == INITIAL
    {
      prepared, dirty, sent := null, [], [];
    }

    /** A local edit noticed by the emitter. */
    method Notice(e: Event)
      requires Valid()
      modifies this`dirty
      ensures Valid() && Repr() == old(Repr())
      ensures Abstract() == Step(old(Abstract()), Edit(e))
    {
      dirty := dirty + [e];
    }

    /** Build and consume one batch of fresh dictionaries from the dirty state. */
    method BuildEventsForDirty() returns (events: EventList)
      modifies this`dirty
      ensures fresh(events) && forall i :: 0 <= i < |events.items| ==> fresh(events.items[i])
      ensures Distinct(events.items) && View(events.items) == old(dirty)
      ensures dirty == []
    {
      var items: seq<EventDict> := [];
      for i := 0 to |dirty|
        invariant dirty == old(dirty)
        invariant |items| == i && Distinct(items)
        invariant forall j :: 0 <= j < i ==> fresh(items[j]) && items[j].event == dirty[j]
      {
        var d := new EventDict(dirty[i]);
        items := items + [d];
      }
      events := new EventList(items);
      dirty := [];
    }

    method PrepareEventsForSend() returns (events: EventList)
      requires Valid()
      modifies this
      ensures Valid() && fresh(Repr() - old(Repr()))
      ensures Abstract() == Step(old(Abstract()), Prepare)
      ensures old(prepared) != null ==> prepared == old(prepared)
      ensures if prepared == null then events.items == [] else events == prepared
    {
      if prepared != null {
        return prepared;
      }
      events := BuildEventsForDirty();
      if events.items != [] {
        prepared := events;
      }
    }

    method PrepareCoalescedTransformEventsForSend() returns (events: EventList)
      requires Valid()
      modifies Repr()
      ensures Valid() && fresh(Repr() - old(Repr()))
      ensures Abstract() == Step(old(Abstract()), PrepareCoalesced)
      ensures old(prepared) != null ==> prepared == old(prepared)
      ensures if prepared == null then events.items == [] else events == prepared
    {
      if prepared == null {
        events := PrepareEventsForSend();
        return;
      }
      var incoming := BuildEventsForDirty();
      DistinctConcat(prepared.items, incoming.items);
      if incoming.items != [] {
        events := MergeLatestTransformEvents(prepared, incoming.items);
      }
      events := prepared;
    }

    /** Release exactly the retained list; anything else is refused and changes nothing. */
    method MarkPreparedEventsSent(events: EventList) returns (outcome: Outcome)
      requires Valid()
      modifies this
      ensures Valid() && Repr() <= old(Repr())
      ensures outcome == Done <==> old(prepared) == events
      ensures Abstract() == Step(old(Abstract()), Send(outcome == Done))
    {
      if prepared == null || events != prepared {
        return Raised;
      }
      sent := sent + View(prepared.items);
      prepared := null;
      outcome := Done;
    }
  }
}
