/**
 The dispatcher's applied cursor: drain, decode, apply, and recover by replay when anything fails.

 The apply pipeline is an adversary that may fail after applying any prefix of the decoded records. Matching the
 layer router to the connection comes before it, outside the recovery, and may raise too. A replay from 1 makes
 the receiver put a resync in front of everything that it takes in after the next handshake.
 */
module Dispatcher {
  import opened Wrappers
  import opened MessageDecoding

  /** What happens to one batch: it applies, applying fails part of the way, or the router sync raises first. */
  datatype ApplyOutcome = Succeeds | FailsAfter(applied: nat) | SyncRaises

  datatype Effect = Quiet | MarkApplied | RequestReplay(start: int)

  /**
   `applied` lists the records applied since the scene was last reset, repeats included; `stale` says that a
   failed resync may have left records of an earlier epoch in the scene.
   */
  datatype DispatcherState = DispatcherState(
    lastSeq: int, epoch: nat, applied: seq<Record>, stale: bool, resetDue: bool, effect: Effect)

  /** One drain: whether a handshake came before it, the network's messages, and what happens to them. */
  datatype Drain = Drain(hello: bool, messages: seq<Message>, outcome: ApplyOutcome)

  /** The receiver's queue: a due reset discards everything before the handshake and is put in front after it. */
  function Queued(resetDue: bool, hello: bool, messages: seq<Message>): seq<Message> {
    if !resetDue then messages else if hello then [Resync] + messages else []
  }

  function Delivered(s: DispatcherState, d: Drain): seq<Message> {
    Queued(s.resetDue, d.hello, d.messages)
  }

  function Resyncs(ms: seq<Message>): nat {
    if ms == [] then 0 else (if ms[0].Resync? then 1 else 0) + Resyncs(ms[1..])
  }

  function Take(rs: seq<Record>, n: nat): seq<Record> {
    if n < |rs| then rs[..n] else rs
  }

  /** A replay request; asking for the whole log also makes a reset due. */
  function AfterReplayRequest(s: DispatcherState, start: int): DispatcherState {
    s.(effect := RequestReplay(start), resetDue := s.resetDue || start == 1)
  }

  /** Decoding a batch and applying it, once the router sync has let it through. */
  function Applied(s: DispatcherState, ms: seq<Message>, outcome: ApplyOutcome): DispatcherState
    requires !outcome.SyncRaises?
  {
    var r := Decode(ms, s.lastSeq, LOSSLESS);
    var epoch := EpochAfter(ms, s.lastSeq, s.epoch);
    var base := if r.resyncRequested then [] else s.applied;
    if outcome.FailsAfter? then
      var recovery := if r.resyncRequested then 0 else s.lastSeq;
      AfterReplayRequest(
        s.(lastSeq := recovery, epoch := epoch, applied := base + Take(r.received, outcome.applied),
           stale := s.stale || r.resyncRequested),
        recovery + 1)
    else
      var done := s.(lastSeq := r.lastSeq, epoch := epoch, applied := base + r.received,
                     stale := s.stale && !r.resyncRequested);
      if r.errors != [] then AfterReplayRequest(done, r.lastSeq + 1) else done.(effect := MarkApplied)
  }

  function Step(s: DispatcherState, d: Drain): DispatcherState {
    var ms := Delivered(s, d);
    var drained := s.(resetDue := s.resetDue && !d.hello);
    if ms == [] then drained.(effect := MarkApplied)
    else if d.outcome.SyncRaises? then drained.(epoch := s.epoch + Resyncs(ms))
    else Applied(drained, ms, d.outcome)
  }

  /** The receiver delivers faithful messages. */
  ghost predicate Deliverable(log: Log, s: DispatcherState, d: Drain) {
    Faithful(log, Delivered(s, d), s.lastSeq, s.epoch)
  }

  /** No resync is among the messages that a raising router sync loses. */
  ghost predicate LosesNoResync(s: DispatcherState, d: Drain) {
    d.outcome.SyncRaises? ==> Resyncs(Delivered(s, d)) == 0
  }

  /** A consumer that already holds entries 1 to n. */
  function Resumed(log: Log, n: nat): DispatcherState {
    DispatcherState(n, 0, Records(log, 0, 0, n), false, false, Quiet)
  }

  function RunDrains(s: DispatcherState, ds: seq<Drain>): DispatcherState {
    if ds == [] then s else Step(RunDrains(s, ds[..|ds| - 1]), ds[|ds| - 1])
  }

  ghost predicate DeliverableRun(log: Log, s: DispatcherState, ds: seq<Drain>) {
    forall i :: 0 <= i < |ds| ==>
      Deliverable(log, RunDrains(s, ds[..i]), ds[i]) && LosesNoResync(RunDrains(s, ds[..i]), ds[i])
  }

  // ---------------------------------------------------------------- the invariant

  ghost predicate Bears(log: Log, epoch: nat, n: nat) {
    n >= 1 && log(epoch, n).LogEvent?
  }

  ghost predicate Holds(rs: seq<Record>, n: nat) {
    exists i :: 0 <= i < |rs| && rs[i].number == n
  }

  /** Every record is the epoch's own, and comes after every earlier event of the epoch. */
  ghost predicate NoneSkipped(log: Log, epoch: nat, rs: seq<Record>) {
    forall i :: 0 <= i < |rs| ==>
      && rs[i].number >= 1
      && log(epoch, rs[i].number) == LogEvent(rs[i].event)
      && forall m :: 1 <= m < rs[i].number && Bears(log, epoch, m) ==> Holds(rs[..i], m)
  }

  /** Every event up to n was applied. */
  ghost predicate Covers(log: Log, epoch: nat, rs: seq<Record>, n: int) {
    forall m :: 1 <= m <= n && Bears(log, epoch, m) ==> Holds(rs, m)
  }

  ghost predicate CursorSafe(log: Log, s: DispatcherState) {
    && s.lastSeq >= 0
    && NoneSkipped(log, s.epoch, s.applied)
    && Covers(log, s.epoch, s.applied, s.lastSeq)
    && (s.stale ==> s.resetDue)
  }

  lemma HoldsInLonger(rs: seq<Record>, k: nat, m: nat)
    requires k <= |rs| && Holds(rs[..k], m)
    ensures Holds(rs, m)
  {
    var i :| 0 <= i < k && rs[..k][i].number == m;
    assert rs[i].number == m;
  }

  lemma CoversInLonger(log: Log, epoch: nat, rs: seq<Record>, k: nat, n: int)
    requires k <= |rs| && Covers(log, epoch, rs[..k], n)
    ensures Covers(log, epoch, rs, n)
  {
    forall m | 1 <= m <= n && Bears(log, epoch, m) ensures Holds(rs, m) {
      HoldsInLonger(rs, k, m);
    }
  }

  lemma NoneSkippedInPrefix(log: Log, epoch: nat, rs: seq<Record>, k: nat)
    requires k <= |rs| && NoneSkipped(log, epoch, rs)
    ensures NoneSkipped(log, epoch, rs[..k])
  {
    forall i | 0 <= i < k ensures rs[..k][..i] == rs[..i] {
    }
  }

  /** The next entry after everything applied may be applied. */
  lemma AppendNext(log: Log, epoch: nat, rs: seq<Record>, b: nat)
    requires b >= 1 && NoneSkipped(log, epoch, rs) && Covers(log, epoch, rs, b - 1)
    ensures var next := rs + (if log(epoch, b).LogEvent? then [Record(b, log(epoch, b).event)] else []);
      NoneSkipped(log, epoch, next) && Covers(log, epoch, next, b)
  {
    var next := rs + (if log(epoch, b).LogEvent? then [Record(b, log(epoch, b).event)] else []);
    assert next[..|rs|] == rs;
    CoversInLonger(log, epoch, next, |rs|, b - 1);
    forall i | 0 <= i < |next| && i < |rs| ensures next[..i] == rs[..i] {
    }
    if log(epoch, b).LogEvent? {
      assert next[|rs|].number == b;
    }
  }

  /** Appending the whole interval after the cursor skips nothing and covers up to its end. */
  lemma {:induction false} AppendInterval(log: Log, epoch: nat, rs: seq<Record>, a: nat, b: nat)
    requires a <= b && NoneSkipped(log, epoch, rs) && Covers(log, epoch, rs, a)
    ensures NoneSkipped(log, epoch, rs + Records(log, epoch, a, b))
    ensures Covers(log, epoch, rs + Records(log, epoch, a, b), b)
    decreases b
  {
    if a == b {
      assert rs + Records(log, epoch, a, b) == rs;
    } else {
      AppendInterval(log, epoch, rs, a, b - 1);
      var before := rs + Records(log, epoch, a, b - 1);
      AppendNext(log, epoch, before, b);
      var last := if log(epoch, b).LogEvent? then [Record(b, log(epoch, b).event)] else [];
      assert before + last == rs + Records(log, epoch, a, b);
    }
  }

  /** Applying any prefix of the interval skips nothing either. */
  lemma AppendPrefix(log: Log, epoch: nat, rs: seq<Record>, a: nat, b: nat, n: nat)
    requires a <= b && NoneSkipped(log, epoch, rs) && Covers(log, epoch, rs, a)
    ensures NoneSkipped(log, epoch, rs + Take(Records(log, epoch, a, b), n))
    ensures Covers(log, epoch, rs + Take(Records(log, epoch, a, b), n), a)
  {
    AppendInterval(log, epoch, rs, a, b);
    var whole, part := rs + Records(log, epoch, a, b), rs + Take(Records(log, epoch, a, b), n);
    assert part == whole[..|part|];
    NoneSkippedInPrefix(log, epoch, whole, |part|);
    assert part[..|rs|] == rs;
    CoversInLonger(log, epoch, part, |rs|, a);
  }

  lemma StartIsSafe(log: Log, n: nat)
    ensures CursorSafe(log, Resumed(log, n))
  {
    AppendInterval(log, 0, [], 0, n);
    assert [] + Records(log, 0, 0, n) == Records(log, 0, 0, n);
  }

  /** A due reset is honoured: the first message of the next batch makes the decoder resync. */
  lemma {:induction false} LedByResync(ms: seq<Message>, lastSeq: int)
    requires ms != [] && ms[0].Resync?
    ensures Decode(ms, lastSeq, LOSSLESS).resyncRequested
  {
    if |ms| > 1 {
      LedByResync(ms[..|ms| - 1], lastSeq);
    } else {
      assert ms[..0] == [];
    }
  }

  lemma StepKeepsCursorSafe(log: Log, s: DispatcherState, d: Drain)
    requires CursorSafe(log, s) && Deliverable(log, s, d) && LosesNoResync(s, d)
    ensures CursorSafe(log, Step(s, d))
  {
    var ms := Delivered(s, d);
    if ms != [] && !d.outcome.SyncRaises? {
      var r := Decode(ms, s.lastSeq, LOSSLESS);
      var epoch := EpochAfter(ms, s.lastSeq, s.epoch);
      DecodedIsLogInterval(log, ms, s.lastSeq, s.epoch);
      if s.resetDue {
        LedByResync(ms, s.lastSeq);
      }
      var base := if r.resyncRequested then [] else s.applied;
      var from := if r.resyncRequested then 0 else s.lastSeq;
      assert NoneSkipped(log, epoch, base) && Covers(log, epoch, base, from);
      if d.outcome.Succeeds? {
        AppendInterval(log, epoch, base, from, r.lastSeq);
      } else {
        AppendPrefix(log, epoch, base, from, r.lastSeq, d.outcome.applied);
      }
    }
  }

  /**
   Over every run, each event of the current epoch up to the cursor was applied since the scene was last
   reset, nothing was applied before an event that precedes it, and records of an older epoch can remain
   only while a reset is due.
   */
  lemma {:induction false} RunKeepsCursorSafe(log: Log, s: DispatcherState, ds: seq<Drain>)
    requires CursorSafe(log, s) && DeliverableRun(log, s, ds)
    ensures CursorSafe(log, RunDrains(s, ds))
  {
    if ds != [] {
      var init := ds[..|ds| - 1];
      forall i | 0 <= i < |init|
        ensures Deliverable(log, RunDrains(s, init[..i]), init[i]) && LosesNoResync(RunDrains(s, init[..i]), init[i])
      {
        assert init[..i] == ds[..i];
        assert Deliverable(log, RunDrains(s, ds[..i]), ds[i]);
      }
      RunKeepsCursorSafe(log, s, init);
      assert Deliverable(log, RunDrains(s, ds[..|init|]), ds[|init|]);
      StepKeepsCursorSafe(log, RunDrains(s, init), ds[|ds| - 1]);
    }
  }

  /** A receiver that resumes after entry n keeps its cursor safe over every run. */
  lemma ResumedRunIsSafe(log: Log, n: nat, ds: seq<Drain>)
    requires DeliverableRun(log, Resumed(log, n), ds)
    ensures CursorSafe(log, RunDrains(Resumed(log, n), ds))
  {
    StartIsSafe(log, n);
    RunKeepsCursorSafe(log, Resumed(log, n), ds);
  }

  // ---------------------------------------------------------------- the router sync

  lemma SafeByOwnEpoch(log: Log, log': Log, s: DispatcherState)
    requires CursorSafe(log, s) && forall n :: log'(s.epoch, n) == log(s.epoch, n)
    ensures CursorSafe(log', s)
  {
    forall m: nat ensures Bears(log', s.epoch, m) <==> Bears(log, s.epoch, m) {
    }
  }

  /** A log that differs from another one in one entry. */
  function WithEntry(log: Log, epoch: nat, n: nat, entry: Entry): Log {
    (e: nat, m: nat) => if e == epoch && m == n then entry else log(e, m)
  }

  /** A consumer that holds nothing and expects the first entry. */
  predicate HoldsNothing(s: DispatcherState) {
    s.applied == [] && s.lastSeq == 0 && !s.stale
  }

  /** After a lost resync there is a log under which something held is wrong. */
  lemma LostResyncMisleads(log: Log, s: DispatcherState, d: Drain) returns (log': Log)
    requires CursorSafe(log, s) && d.outcome.SyncRaises? && Resyncs(Delivered(s, d)) > 0 && !HoldsNothing(s)
    ensures CursorSafe(log', s) && !CursorSafe(log', Step(s, d))
  {
    var t := Step(s, d);
    if s.stale {
      log' := log;
    } else if s.applied != [] {
      var first := s.applied[0];
      log' := WithEntry(log, t.epoch, first.number, LogEvent(first.event + 1));
      SafeByOwnEpoch(log, log', s);
      assert log'(t.epoch, first.number) != LogEvent(first.event);
    } else {
      log' := WithEntry(log, t.epoch, 1, LogEvent(0));
      SafeByOwnEpoch(log, log', s);
      assert Bears(log', t.epoch, 1) && !Holds(t.applied, 1);
    }
  }

  /**
   A router sync that raises loses the drained messages without asking for a replay. The cursor is sure to stay
   safe exactly when no resync is among them, or nothing was held yet.
   */
  lemma SyncFailureSafeIff(log: Log, s: DispatcherState, d: Drain)
    requires CursorSafe(log, s) && d.outcome.SyncRaises? && Delivered(s, d) != []
    ensures Step(s, d).lastSeq == s.lastSeq && Step(s, d).effect == s.effect && Step(s, d).applied == s.applied
    ensures (forall log' :: CursorSafe(log', s) ==> CursorSafe(log', Step(s, d)))
       <==> Resyncs(Delivered(s, d)) == 0 || HoldsNothing(s)
  {
    if Resyncs(Delivered(s, d)) > 0 && !HoldsNothing(s) {
      var log' := LostResyncMisleads(log, s, d);
    }
  }

  // ---------------------------------------------------------------- failure and success

  /** A failed batch never advances the cursor and asks for replay from just after it. */
  lemma FailureHoldsCursor(log: Log, s: DispatcherState, d: Drain)
    requires CursorSafe(log, s) && Deliverable(log, s, d)
    requires Delivered(s, d) != [] && d.outcome.FailsAfter?
    ensures var t := Step(s, d);
      && t.lastSeq <= s.lastSeq
      && t.effect == RequestReplay(t.lastSeq + 1)
      && (t.lastSeq == s.lastSeq || t.resetDue)
  {
  }

  /** A batch that applies advances exactly through what it decoded; a decode error asks for the rest. */
  lemma SuccessAdvances(log: Log, s: DispatcherState, d: Drain)
    requires CursorSafe(log, s) && Deliverable(log, s, d)
    requires Delivered(s, d) != [] && d.outcome.Succeeds?
    ensures var r, t := Decode(Delivered(s, d), s.lastSeq, LOSSLESS), Step(s, d);
      && t.lastSeq == r.lastSeq >= 0 && !t.stale
      && (!r.resyncRequested ==> t.lastSeq >= s.lastSeq && t.epoch == s.epoch)
      && (!r.resyncRequested ==> t.applied == s.applied + Records(log, s.epoch, s.lastSeq, t.lastSeq))
      && (r.resyncRequested ==> t.applied == Records(log, t.epoch, 0, t.lastSeq))
      && t.effect == if r.errors == [] then MarkApplied else RequestReplay(t.lastSeq + 1)
  {
    DecodedIsLogInterval(log, Delivered(s, d), s.lastSeq, s.epoch);
    if s.resetDue {
      LedByResync(Delivered(s, d), s.lastSeq);
    }
  }

  /**
   After a drained batch a replay is requested exactly when applying failed or decoding stopped at an error; it
   starts right after the cursor, and every event up to there was applied.
   */
  lemma RecoveryStartsAtCursor(log: Log, s: DispatcherState, d: Drain)
    requires CursorSafe(log, s) && Deliverable(log, s, d)
    requires Delivered(s, d) != [] && !d.outcome.SyncRaises?
    ensures var r, t := Decode(Delivered(s, d), s.lastSeq, LOSSLESS), Step(s, d);
      && (t.effect.RequestReplay? <==> d.outcome.FailsAfter? || r.errors != [])
      && (t.effect.RequestReplay? ==> t.effect.start == t.lastSeq + 1)
      && Covers(log, t.epoch, t.applied, t.lastSeq)
  {
    StepKeepsCursorSafe(log, s, d);
    if d.outcome.FailsAfter? {
      FailureHoldsCursor(log, s, d);
    } else {
      SuccessAdvances(log, s, d);
    }
  }

  /**
   While a reset is due nothing is drained without a handshake, and after one the scene holds nothing but records
   of the new epoch, whatever arrived and however far applying got.
   */
  lemma DueResetIsHonoured(log: Log, s: DispatcherState, d: Drain)
    requires CursorSafe(log, s) && Deliverable(log, s, d) && s.resetDue && !d.outcome.SyncRaises?
    ensures !d.hello ==> Delivered(s, d) == [] && Step(s, d).resetDue && Step(s, d).applied == s.applied
    ensures d.hello ==> var t := Step(s, d);
      && t.epoch > s.epoch && t.lastSeq >= 0 && NoneSkipped(log, t.epoch, t.applied)
      && (d.outcome.Succeeds? ==> t.applied == Records(log, t.epoch, 0, t.lastSeq) && !t.stale)
      && (d.outcome.FailsAfter? ==> t.lastSeq == 0 && t.resetDue)
  {
    if d.hello {
      var ms := Delivered(s, d);
      LedByResync(ms, s.lastSeq);
      LedByNewEpoch(ms, s.lastSeq, s.epoch);
      StepKeepsCursorSafe(log, s, d);
      DecodedIsLogInterval(log, ms, s.lastSeq, s.epoch);
    }
  }

  lemma {:induction false} LedByNewEpoch(ms: seq<Message>, lastSeq: int, epoch: nat)
    requires ms != [] && ms[0].Resync?
    ensures EpochAfter(ms, lastSeq, epoch) > epoch
  {
    if |ms| > 1 {
      LedByNewEpoch(ms[..|ms| - 1], lastSeq, epoch);
    } else {
      assert ms[..0] == [];
    }
  }

  lemma {:induction false} CursorStaysNatural(ms: seq<Message>, lastSeq: nat)
    ensures Decode(ms, lastSeq, LOSSLESS).lastSeq >= 0
  {
    if ms != [] {
      CursorStaysNatural(ms[..|ms| - 1], lastSeq);
    }
  }

  // ---------------------------------------------------------------- the dispatcher object

  /** The queue, the apply pipeline and the receiver's replay request, as the dispatcher sees them. */
  class EventDispatcher {
    var lastSeq: int
    var drainedMessageCount: nat
    var applyingSeq: Option<int>
    ghost var epoch: nat
    ghost var applied: seq<Record>
    ghost var stale: bool
    var resetDue: bool
    var effect: Effect

    ghost function Abstract(): DispatcherState
      reads this
    {
      DispatcherState(lastSeq, epoch, applied, stale, resetDue, effect)
    }

    /** A receiver that resumes at syncFrom already holds the entries before it. */
    constructor (syncFrom: nat, ghost log: Log)
      requires syncFrom >= 1
      ensures Abstract() == Resumed(log, syncFrom - 1) && applyingSeq == None
    {
      lastSeq, drainedMessageCount, applyingSeq := syncFrom - 1, 0, None;
      epoch, applied, stale, resetDue, effect := 0, Records(log, 0, 0, syncFrom - 1), false, false, Quiet;
    }

    method RequestReplayFrom(start: int) returns (outcome: Outcome)
      modifies this
      ensures outcome == Done <==> start >= 1
      ensures outcome == Done ==> Abstract() == AfterReplayRequest(old(Abstract()), start)
      ensures outcome == Raised ==> Abstract() == old(Abstract())
      ensures applyingSeq == old(applyingSeq) && drainedMessageCount == old(drainedMessageCount)
    {
      if start < 1 {
        return Raised;
      }
      effect, resetDue := RequestReplay(start), resetDue || start == 1;
      outcome := Done;
    }

    /** Take what the receiver has queued; a handshake puts a due reset in front of what arrives after it. */
    method DrainQueue(hello: bool, arrived: seq<Message>) returns (bufs: seq<Message>)
      modifies this`resetDue
      ensures bufs == Queued(old(resetDue), hello, arrived)
      ensures resetDue == (old(resetDue) && !hello)
      ensures old(resetDue) ==> bufs == [] || bufs[0].Resync?
      ensures !old(resetDue) || hello ==> forall m <- arrived :: m in bufs
    {
      bufs := arrived;
      if resetDue {
        if !hello {
          return [];
        }
        bufs := [Resync] + bufs;
        resetDue := false;
      }
    }

    /** Decode and apply a drained batch that the router sync let through; a failure re-raises after recovery. */
    method ApplyBatch(bufs: seq<Message>, pipeline: ApplyOutcome) returns (outcome: Outcome)
      requires applyingSeq == None && lastSeq >= 0 && !pipeline.SyncRaises?
      modifies this
      ensures Abstract() == Applied(old(Abstract()), bufs, pipeline)
      ensures lastSeq >= 0 && applyingSeq == None && drainedMessageCount == old(drainedMessageCount)
      ensures outcome == Done <==> pipeline.Succeeds?
    {
      var result := DecodeMessages(bufs, lastSeq, LOSSLESS);
      CursorStaysNatural(bufs, lastSeq);
      var previousSeq := lastSeq;
      var recoverySeq := if result.resyncRequested then 0 else previousSeq;
      applyingSeq := Some(result.lastSeq);
      ghost var base := if result.resyncRequested then [] else applied;
      epoch := EpochAfter(bufs, lastSeq, epoch);
      if pipeline.FailsAfter? {
        applied, stale := base + Take(result.received, pipeline.applied), stale || result.resyncRequested;
        lastSeq := recoverySeq;
        outcome := RequestReplayFrom(recoverySeq + 1);
        applyingSeq := None;
        return Raised;
      }
      applied, stale := base + result.received, stale && !result.resyncRequested;
      applyingSeq := None;
      lastSeq := result.lastSeq;
      outcome := Done;
      if result.errors != [] {
        var requested := RequestReplayFrom(lastSeq + 1);
      } else {
        effect := MarkApplied;
      }
    }

    /** Drain one batch, match the router to the connection, and run the apply pipeline. */
    method DrainAndApply(hello: bool, arrived: seq<Message>, pipeline: ApplyOutcome) returns (outcome: Outcome)
      requires applyingSeq == None && lastSeq >= 0
      modifies this
      ensures Abstract() == Step(old(Abstract()), Drain(hello, arrived, pipeline))
      ensures lastSeq >= 0
      ensures drainedMessageCount == |Queued(old(resetDue), hello, arrived)|
      ensures applyingSeq == None
      ensures outcome == Raised <==> drainedMessageCount > 0 && !pipeline.Succeeds?
    {
      var bufs := DrainQueue(hello, arrived);
      drainedMessageCount := |bufs|;
      if bufs == [] {
        effect := MarkApplied;
        return Done;
      }
      if pipeline.SyncRaises? {
        epoch := epoch + Resyncs(bufs);
        return Raised;
      }
      outcome := ApplyBatch(bufs, pipeline);
    }
  }
}
