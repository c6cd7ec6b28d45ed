/**
 The opt-in timing window around the emitter's unsent transform batch, and the publishing calls that use it.

 Time is a real number read by the caller. `noticed` counts the edits so far, `frozen` those that are in the
 sent and retained batches, and `covered` those that are in the sent ones.
 */
module CoalescingWindow {
  import opened Wrappers
  import opened Coalescing
  import E = EmitterBatching

  datatype Publisher = Publisher(
    emitter: E.EmitterState, deadline: Option<real>, noticed: nat, frozen: nat, covered: nat)

  const START := Publisher(E.INITIAL, None, 0, 0, 0)

  /** `ready` says whether the client may publish, `accepted` whether the sender takes the batch. */
  datatype Move =
    | Notice(e: Event)
    | Update(now: real, ready: bool, accepted: bool)
    | Flush(ready: bool, accepted: bool)

  /** A non-empty batch of nothing but transforms. */
  predicate IsTransformOnly(es: seq<Event>) {
    es != [] && forall i :: 0 <= i < |es| ==> es[i].SetXformTrs?
  }

  /** The deadline after looking at a batch, and whether the batch is handed out. */
  function Window(seconds: real, deadline: Option<real>, batch: seq<Event>, now: real): (Option<real>, bool) {
    if seconds == 0.0 then (deadline, true)
    else if !IsTransformOnly(batch) then (None, true)
    else if deadline.None? then (Some(now + seconds), false)
    else (deadline, now >= deadline.value)
  }

  function PrepareCommand(seconds: real): E.Command {
    if seconds == 0.0 then E.Prepare else E.PrepareCoalesced
  }

  /** Build or extend the retained batch. */
  function Prepared(s: Publisher, c: E.Command): Publisher {
    s.(emitter := E.Step(s.emitter, c),
       frozen := if c.Prepare? && s.emitter.prepared.Some? then s.frozen else s.noticed)
  }

  /** Offer the retained batch to the sender. */
  function Offer(s: Publisher, accepted: bool): Publisher {
    if accepted && s.emitter.prepared.Some?
    then s.(emitter := E.Step(s.emitter, E.Send(true)), deadline := None, covered := s.frozen)
    else s
  }

  /** What an update prepares, and whether the window hands it out. */
  function Readied(seconds: real, s: Publisher, now: real): (Publisher, bool) {
    var p := Prepared(s, PrepareCommand(seconds));
    var (deadline, handed) := Window(seconds, s.deadline, E.Retained(p.emitter), now);
    (p.(deadline := deadline), handed)
  }

  function Step(seconds: real, s: Publisher, m: Move): Publisher {
    match m
    case Notice(e) => s.(emitter := E.Step(s.emitter, E.Edit(e)), noticed := s.noticed + 1)
    case Update(now, ready, accepted) =>
      var (p, handed) := Readied(seconds, s, now);
      Offer(p, handed && ready && accepted)
    case Flush(ready, accepted) =>
      if s.deadline.None? || !ready then s else Offer(Prepared(s, E.PrepareCoalesced), accepted)
  }

  function RunMoves(seconds: real, moves: seq<Move>): Publisher {
    if moves == [] then START else Step(seconds, RunMoves(seconds, moves[..|moves| - 1]), moves[|moves| - 1])
  }

  /** The edits of a run, in order. */
  function Edits(moves: seq<Move>): seq<Event> {
    if moves == [] then []
    else Edits(moves[..|moves| - 1]) + (if moves[|moves| - 1].Notice? then [moves[|moves| - 1].e] else [])
  }

  // ---------------------------------------------------------------- the window conserves every edit

  function AddedBy(m: Move): seq<Event> {
    if m.Notice? then [m.e] else []
  }

  /** One command's effect on what receivers end up with. */
  lemma CommandConserves<R>(sem: (Op, State<R>) -> State<R>, s: E.EmitterState, c: E.Command,
    start: State<R>)
    requires !c.Edit?
    ensures Run(sem, E.Delivered(E.Step(s, c)), start) == Run(sem, E.Delivered(s), start)
  {
    E.StepConserves(sem, s, c, start);
    assert E.Delivered(s) + E.Added(c) == E.Delivered(s);
  }

  lemma StepConserves<R>(sem: (Op, State<R>) -> State<R>, seconds: real, s: Publisher, m: Move,
    start: State<R>)
    ensures Run(sem, E.Delivered(Step(seconds, s, m).emitter), start)
         == Run(sem, E.Delivered(s.emitter) + AddedBy(m), start)
  {
    match m
    case Notice(e) =>
      E.StepConserves(sem, s.emitter, E.Edit(e), start);
    case Update(_, _, _) =>
      CommandConserves(sem, s.emitter, PrepareCommand(seconds), start);
      CommandConserves(sem, E.Step(s.emitter, PrepareCommand(seconds)), E.Send(true), start);
      assert E.Delivered(s.emitter) + AddedBy(m) == E.Delivered(s.emitter);
    case Flush(_, _) =>
      CommandConserves(sem, s.emitter, E.PrepareCoalesced, start);
      CommandConserves(sem, E.Step(s.emitter, E.PrepareCoalesced), E.Send(true), start);
      assert E.Delivered(s.emitter) + AddedBy(m) == E.Delivered(s.emitter);
  }

  /** Whatever the clock, the sender and the window do, the delivered events mean exactly the edits in order. */
  lemma {:induction false} WindowConserves<R>(
    sem: (Op, State<R>) -> State<R>, seconds: real, moves: seq<Move>, start: State<R>)
    ensures Run(sem, E.Delivered(RunMoves(seconds, moves).emitter), start)
         == Run(sem, Edits(moves), start)
  {
    if moves != [] {
      var init, m := moves[..|moves| - 1], moves[|moves| - 1];
      WindowConserves(sem, seconds, init, start);
      StepConserves(sem, seconds, RunMoves(seconds, init), m, start);
      RunConcat(sem, E.Delivered(RunMoves(seconds, init).emitter), AddedBy(m), start);
      RunConcat(sem, Edits(init), AddedBy(m), start);
    }
  }

  // ---------------------------------------------------------------- the window is bounded

  /** The counters agree with the batches, and a deadline only stands while a batch is retained. */
  ghost predicate Counted(s: Publisher) {
    && s.covered <= s.frozen <= s.noticed
    && (s.emitter.dirty == [] <==> s.frozen == s.noticed)
    && |s.emitter.dirty| == s.noticed - s.frozen
    && (s.emitter.prepared.None? ==> s.frozen == s.covered && s.deadline.None?)
    && (s.emitter.prepared.Some? ==> s.emitter.prepared.value != [])
  }

  lemma {:induction false} MergeNotEmpty(es: seq<Event>, incoming: seq<Event>)
    requires es != []
    ensures MergeAll(es, incoming) != []
    decreases |incoming|
  {
    if incoming != [] {
      MergeNotEmpty(es, incoming[..|incoming| - 1]);
    }
  }

  lemma StepCounted(seconds: real, s: Publisher, m: Move)
    requires Counted(s)
    ensures Counted(Step(seconds, s, m))
  {
    if s.emitter.prepared.Some? {
      MergeNotEmpty(s.emitter.prepared.value, s.emitter.dirty);
    }
  }

  lemma {:induction false} RunCounted(seconds: real, moves: seq<Move>)
    ensures Counted(RunMoves(seconds, moves))
  {
    if moves != [] {
      RunCounted(seconds, moves[..|moves| - 1]);
      StepCounted(seconds, RunMoves(seconds, moves[..|moves| - 1]), moves[|moves| - 1]);
    }
  }

  lemma {:induction false} NoOtherEvents(es: seq<Event>)
    ensures (forall i :: 0 <= i < |es| ==> es[i].SetXformTrs?) <==> Filter(IsOther(), es) == []
  {
    if es != [] {
      NoOtherEvents(es[1..]);
      assert forall i :: 1 <= i < |es| ==> es[i] == es[1..][i - 1];
    }
  }

  /** A batch with another event in it never becomes transform-only by merging. */
  lemma MergeStaysMixed(es: seq<Event>, incoming: seq<Event>)
    requires es != [] && !IsTransformOnly(es)
    ensures !IsTransformOnly(MergeAll(es, incoming))
  {
    NoOtherEvents(es);
    NoOtherEvents(MergeAll(es, incoming));
    MergeKeepsOtherEvents(es, incoming);
  }

  /**
   The first n edits are sent, or they are in a retained batch that is not held back at all or is held back
   until no later than d.
   */
  ghost predicate Due(s: Publisher, n: nat, d: real) {
    n <= s.covered ||
    (&& n <= s.frozen && s.emitter.prepared.Some?
     && match s.deadline
        case None => !IsTransformOnly(s.emitter.prepared.value)
        case Some(x) => x <= d)
  }

  lemma StepKeepsDue(seconds: real, s: Publisher, m: Move, n: nat, d: real)
    requires seconds > 0.0 && Counted(s) && Due(s, n, d)
    ensures Due(Step(seconds, s, m), n, d)
    ensures m.Update? && m.ready && m.accepted && m.now >= d ==> n <= Step(seconds, s, m).covered
  {
    if s.emitter.prepared.Some? && s.deadline.None? && !IsTransformOnly(s.emitter.prepared.value) {
      MergeStaysMixed(s.emitter.prepared.value, s.emitter.dirty);
    }
  }

  lemma {:induction false} RunKeepsDue(seconds: real, moves: seq<Move>, more: seq<Move>, n: nat, d: real)
    requires seconds > 0.0 && Due(RunMoves(seconds, moves), n, d)
    ensures Due(RunMoves(seconds, moves + more), n, d)
    decreases |more|
  {
    if more == [] {
      assert moves + more == moves;
    } else {
      var init := more[..|more| - 1];
      RunKeepsDue(seconds, moves, init, n, d);
      InitOfConcat(moves, more);
      RunCounted(seconds, moves + init);
      StepKeepsDue(seconds, RunMoves(seconds, moves + init), more[|more| - 1], n, d);
    }
  }

  /** The clock never reads less than before. */
  ghost predicate ClockAdvances(moves: seq<Move>) {
    forall i, j :: 0 <= i < j < |moves| && moves[i].Update? && moves[j].Update? ==> moves[i].now <= moves[j].now
  }

  /** A standing deadline was set at an update of the run. */
  lemma {:induction false} DeadlineWasSet(seconds: real, moves: seq<Move>)
    requires seconds > 0.0 && RunMoves(seconds, moves).deadline.Some?
    ensures exists i :: 0 <= i < |moves| && moves[i].Update?
                        && RunMoves(seconds, moves).deadline.value == moves[i].now + seconds
  {
    if moves != [] {
      var init, m := moves[..|moves| - 1], moves[|moves| - 1];
      if RunMoves(seconds, init).deadline == RunMoves(seconds, moves).deadline {
        DeadlineWasSet(seconds, init);
        var i :| 0 <= i < |init| && init[i].Update? && RunMoves(seconds, init).deadline.value == init[i].now + seconds;
        assert moves[i] == init[i];
      } else {
        assert m.Update? && moves[|moves| - 1] == m;
      }
    }
  }

  /** After an update at time t, every edit so far is due no later than t plus the window. */
  lemma UpdateMakesDue(seconds: real, moves: seq<Move>, m: Move)
    requires seconds > 0.0 && m.Update? && ClockAdvances(moves + [m])
    ensures Due(RunMoves(seconds, moves + [m]), RunMoves(seconds, moves).noticed, m.now + seconds)
  {
    var s := RunMoves(seconds, moves);
    TakeOfConcat(moves, [m]);
    RunCounted(seconds, moves);
    RunCounted(seconds, moves + [m]);
    if s.deadline.Some? {
      DeadlineWasSet(seconds, moves);
      var i :| 0 <= i < |moves| && moves[i].Update? && s.deadline.value == moves[i].now + seconds;
      assert (moves + [m])[i] == moves[i] && (moves + [m])[|moves|] == m;
    }
  }

  /**
   However many edits keep arriving, an edit that an update has seen is sent by the first update of a ready
   client and an accepting sender that comes at least one window later.
   */
  lemma HoldIsBounded(seconds: real, moves: seq<Move>, first: Move, more: seq<Move>, later: Move)
    requires seconds > 0.0 && first.Update? && ClockAdvances(moves + [first])
    requires later.Update? && later.ready && later.accepted && later.now >= first.now + seconds
    ensures RunMoves(seconds, moves + [first] + more + [later]).covered >= RunMoves(seconds, moves).noticed
  {
    var n, d := RunMoves(seconds, moves).noticed, first.now + seconds;
    var before := moves + [first] + more;
    UpdateMakesDue(seconds, moves, first);
    RunKeepsDue(seconds, moves + [first], more, n, d);
    RunCounted(seconds, before);
    TakeOfConcat(before, [later]);
    StepKeepsDue(seconds, RunMoves(seconds, before), later, n, d);
  }

  /** An update sends a batch of nothing but transforms only once its deadline has passed. */
  lemma NeverEarly(seconds: real, s: Publisher, m: Move)
    requires seconds > 0.0 && m.Update? && Counted(s)
    requires var batch := E.Retained(E.Step(s.emitter, E.PrepareCoalesced));
      IsTransformOnly(batch) && Step(seconds, s, m).emitter.sent != s.emitter.sent
    ensures s.deadline.Some? && s.deadline.value <= m.now
  {
  }

  /** Over every run, an update sends a batch of nothing but transforms only a window after an earlier update. */
  lemma HeldForWindow(seconds: real, moves: seq<Move>, m: Move)
    requires seconds > 0.0 && m.Update?
    requires var s := RunMoves(seconds, moves);
      && IsTransformOnly(E.Retained(E.Step(s.emitter, E.PrepareCoalesced)))
      && RunMoves(seconds, moves + [m]).emitter.sent != s.emitter.sent
    ensures exists i :: 0 <= i < |moves| && moves[i].Update? && moves[i].now + seconds <= m.now
  {
    RunCounted(seconds, moves);
    TakeOfConcat(moves, [m]);
    NeverEarly(seconds, RunMoves(seconds, moves), m);
    DeadlineWasSet(seconds, moves);
  }

  // ---------------------------------------------------------------- the objects

  class TransformCoalescingWindow {
    const seconds: real
    var deadline: Option<real>

    constructor (seconds: real)
      requires seconds >= 0.0
      ensures this.seconds == seconds && deadline == None
    {
      this.seconds, deadline := seconds, None;
    }

    predicate Buffering()
      reads this
    {
      deadline.Some?
    }

    /** Prepare the emitter's batch, and hold it while it is transform-only and the window is open. */
    method Prepare(emitter: E.NoticeEmitter, now: real) returns (events: EventList?)
      requires emitter.Valid() && this !in emitter.Repr()
      modifies this, emitter.Repr()
      ensures emitter.Valid() && fresh(emitter.Repr() - old(emitter.Repr()))
      ensures emitter.Abstract() == E.Step(old(emitter.Abstract()), PrepareCommand(seconds))
      ensures var w := Window(seconds, old(deadline), E.Retained(emitter.Abstract()), now);
        deadline == w.0 && events == if w.1 then emitter.prepared else null
    {
      if seconds == 0.0 {
        var batch := emitter.PrepareEventsForSend();
        return emitter.prepared;
      }
      var batch := emitter.PrepareCoalescedTransformEventsForSend();
      var transformOnly := TransformOnly(batch.items);
      if !transformOnly {
        deadline := None;
        return emitter.prepared;
      }
      if deadline == None {
        deadline := Some(now + seconds);
        return null;
      }
      events := if now >= deadline.value then emitter.prepared else null;
    }

    /** The retained batch without waiting for its deadline. */
    method Force(emitter: E.NoticeEmitter) returns (events: EventList?)
      requires emitter.Valid() && this !in emitter.Repr()
      modifies emitter.Repr()
      ensures emitter.Valid() && fresh(emitter.Repr() - old(emitter.Repr()))
      ensures emitter.Abstract() == E.Step(old(emitter.Abstract()), E.PrepareCoalesced)
      ensures events == emitter.prepared
    {
      var batch := emitter.PrepareCoalescedTransformEventsForSend();
      events := emitter.prepared;
    }

    method MarkSubmitted()
      modifies this
      ensures deadline == None
    {
      deadline := None;
    }
  }

  /** The publishing side that clients share: an emitter and the window around it; the sender's answers come in. */
  class EmitterClient {
    const window: TransformCoalescingWindow
    const emitter: E.NoticeEmitter
    ghost var noticed: nat
    ghost var frozen: nat
    ghost var covered: nat

    ghost predicate Valid()
      reads this, emitter, emitter.prepared
    {
      this !in emitter.Repr() && (window as object) !in emitter.Repr() && emitter.Valid()
    }

    ghost function Repr(): set<object>
      reads this, emitter, emitter.prepared
    {
      {this, window} + emitter.Repr()
    }

    ghost function Abstract(): Publisher
      reads this, window, emitter, emitter.Repr()
    {
      Publisher(emitter.Abstract(), window.deadline, noticed, frozen, covered)
    }

    constructor (seconds: real)
      requires seconds >= 0.0
      ensures Valid() && Abstract() == START && window.seconds == seconds && fresh(Repr())
    {
      window := new TransformCoalescingWindow(seconds);
      emitter := new E.NoticeEmitter();
      noticed, frozen, covered := 0, 0, 0;
    }

    /** A local edit. */
    method Notice(e: Event)
      requires Valid()
      modifies this, emitter
      ensures Valid() && Repr() == old(Repr())
      ensures Abstract() == Step(window.seconds, old(Abstract()), Move.Notice(e))
    {
      emitter.Notice(e);
      noticed := noticed + 1;
    }

    predicate HasPrepared()
      reads this, emitter
    {
      emitter.prepared != null
    }

    /** Prepare what is due; the window may hold it back. */
    method PrepareOutgoingEvents(now: real) returns (events: EventList?)
      requires Valid()
      modifies this, window, emitter.Repr()
      ensures Valid() && fresh(Repr() - old(Repr()))
      ensures var r := Readied(window.seconds, old(Abstract()), now);
        Abstract() == r.0 && events == if r.1 then emitter.prepared else null
    {
      frozen := if window.seconds == 0.0 && emitter.prepared != null then frozen else noticed;
      events := window.Prepare(emitter, now);
    }

    /** Hand the retained batch to the sender. */
    method Send(events: EventList?, accepted: bool) returns (sent: bool)
      requires Valid() && (events != null ==> events == emitter.prepared)
      modifies this, window, emitter
      ensures Valid() && Repr() <= old(Repr())
      ensures Abstract() == Offer(old(Abstract()), events != null && accepted)
      ensures sent == (events != null && accepted)
    {
      if events == null || !accepted {
        return false;
      }
      var outcome := emitter.MarkPreparedEventsSent(events);
      window.MarkSubmitted();
      covered := frozen;
      sent := true;
    }

    /** Send a batch that the window holds back, without waiting for its deadline. */
    method Flush(ready: bool, accepted: bool) returns (ok: bool)
      requires Valid()
      modifies this, window, emitter.Repr()
      ensures Valid() && fresh(Repr() - old(Repr()))
      ensures Abstract() == Step(window.seconds, old(Abstract()), Move.Flush(ready, accepted))
    {
      if !window.Buffering() {
        return true;
      }
      if !ready {
        return false;
      }
      frozen := noticed;
      var events := window.Force(emitter);
      var sent := Send(events, accepted);
      ok := events == null || sent;
    }
  }

  /** A client that only publishes. */
  class UsdPublisher {
    const client: EmitterClient

    constructor (seconds: real)
      requires seconds >= 0.0
      ensures client.Valid() && client.Abstract() == START && client.window.seconds == seconds
    {
      client := new EmitterClient(seconds);
    }

    /** Submit what is due while the sender is connected; otherwise leave everything for later. */
    method Update(now: real, connected: bool, accepted: bool) returns (sent: bool)
      requires client.Valid()
      modifies client.Repr()
      ensures client.Valid() && fresh(client.Repr() - old(client.Repr()))
      ensures client.Abstract() == if connected
        then Step(client.window.seconds, old(client.Abstract()), Move.Update(now, true, accepted))
        else old(client.Abstract())
    {
      if !connected {
        return false;
      }
      var events := client.PrepareOutgoingEvents(now);
      sent := client.Send(events, accepted);
    }
  }

  method TransformOnly(items: seq<EventDict>) returns (r: bool)
    ensures r == IsTransformOnly(View(items))
  {
    for i := 0 to |items|
      invariant forall j :: 0 <= j < i ==> items[j].event.SetXformTrs?
    {
      if items[i].event.Other? {
        assert View(items)[i].Other?;
        return false;
      }
    }
    r := items != [];
  }
}
