/** The managed client: its update and flush, around the window, the inbox and the hold counter. */
module ManagedClients {
  import opened Wrappers
  import opened Inflow
  import opened H = BacklogHold
  import C = Coalescing
  import W = CoalescingWindow

  class ManagedClient {
    const base: W.EmitterClient
    const inbox: Inbox
    const backlog: H.BacklogHold
    ghost var frozen: Point
    ghost var joined: Point
    ghost var taken: nat
    ghost var lost: nat

    ghost predicate Valid()
      reads this, base, base.emitter, base.emitter.prepared
    {
      && base.Valid()
      && this !in base.Repr() && (inbox as object) !in base.Repr() && (backlog as object) !in base.Repr()
    }

    ghost function Repr(): set<object>
      reads this, base, base.emitter, base.emitter.prepared
    {
      {this, inbox, backlog} + base.Repr()
    }

    ghost function View(): State
      reads this, inbox, backlog, base, base.window, base.emitter, base.emitter.Repr()
    {
      State(base.Abstract(), inbox.View(), backlog.ahead, frozen, joined, taken, lost)
    }

    constructor (seconds: real)
      requires seconds >= 0.0
      ensures Valid() && View() == START && base.window.seconds == seconds
    {
      base := new W.EmitterClient(seconds);
      inbox := new Inbox();
      backlog := new H.BacklogHold();
      frozen, joined, taken, lost := Point(0, 0), Point(0, 0), 0, 0;
    }

    method Notice(e: C.Event)
      requires Valid()
      modifies Repr()
      ensures Valid() && View() == Step(base.window.seconds, old(View()), Move.Notice(e))
    {
      base.Notice(e);
    }

    /** Note when edits that were not retained before join the retained batch. */
    method RecordJoin(ghost before: nat)
      requires Valid()
      modifies this`joined
      ensures Valid() && base.Abstract() == old(base.Abstract())
      ensures joined == if base.frozen > before then Point(inbox.arrived, |inbox.queue|) else old(joined)
    {
      if base.frozen > before {
        joined := Point(inbox.arrived, |inbox.queue|);
      }
    }

    /** Record the queue's depth if the prepared batch is new. */
    method RecordFreeze(hadBatch: bool)
      requires Valid()
      modifies this`frozen, this`taken, this`lost, backlog
      ensures Valid() && base.Abstract() == old(base.Abstract())
      ensures !hadBatch && base.HasPrepared() ==>
        frozen == Point(inbox.arrived, |inbox.queue|) && backlog.ahead == |inbox.queue| && taken == 0 == lost
      ensures hadBatch || !base.HasPrepared() ==>
        frozen == old(frozen) && backlog.ahead == old(backlog.ahead) && taken == old(taken) && lost == old(lost)
    {
      if !hadBatch && base.HasPrepared() {
        backlog.Freeze(|inbox.queue|);
        frozen, taken, lost := Point(inbox.arrived, |inbox.queue|), 0, 0;
      }
    }

    /** Freeze the local delta: prepare it, and record the queue's depth if the batch is new. */
    method Prepare(now: real) returns (outgoing: C.EventList?)
      requires Valid()
      modifies Repr()
      ensures Valid() && fresh(Repr() - old(Repr()))
      ensures View() == Frozen(old(View()), W.Readied(base.window.seconds, old(base.Abstract()), now).0)
      ensures outgoing == if W.Readied(base.window.seconds, old(base.Abstract()), now).1
                          then base.emitter.prepared else null
    {
      ghost var before := base.frozen;
      var hadBatch := base.HasPrepared();
      outgoing := base.PrepareOutgoingEvents(now);
      RecordJoin(before);
      RecordFreeze(hadBatch);
    }

    /** Drain the queue, with the traffic around it, and report the drain unless applying raised. */
    method ApplyQueued(before: seq<Traffic>, limit: Option<nat>, after: seq<Traffic>, raised: bool)
      requires Valid()
      modifies this`taken, this`lost, inbox, backlog
      ensures Valid() && base.Abstract() == old(base.Abstract())
      ensures var count, d := DrainCount(old(View()), before, limit), AfterDrain(old(View()), before, limit, after);
        && inbox.View() == d.inflow && taken == d.taken
        && lost == old(lost) + (if raised then count else 0)
        && backlog.ahead == if raised then old(backlog.ahead) else Reduced(old(backlog.ahead), count, |inbox.queue|)
    {
      var count := inbox.DrainBetween(before, limit, after);
      taken := taken + count;
      if raised {
        lost := lost + count;
      } else {
        backlog.Drained(count, |inbox.queue|);
      }
    }

    /** Freeze local edits, apply queued messages, then send what was handed out unless it is held. */
    method Update(now: real, before: seq<Traffic>, limit: Option<nat>, after: seq<Traffic>, raised: bool, ready: bool,
                  accepted: bool)
      returns (sent: bool)
      requires Valid()
      modifies Repr()
      ensures Valid()
      ensures View() == Step(base.window.seconds, old(View()),
                             Move.Update(now, before, limit, after, raised, ready, accepted))
    {
      var outgoing := Prepare(now);
      ApplyQueued(before, limit, after, raised);
      if raised || !ready || backlog.Holding() {
        return false;
      }
      sent := base.Send(outgoing, accepted);
    }

    /** Send a batch that the window holds back; the backlog is not asked. */
    method Flush(ready: bool, accepted: bool) returns (ok: bool)
      requires Valid()
      modifies Repr()
      ensures Valid()
      ensures View() == Step(base.window.seconds, old(View()), Move.Flush(ready, accepted))
    {
      ghost var before := base.frozen;
      ok := base.Flush(ready, accepted);
      RecordJoin(before);
    }
  }
}
