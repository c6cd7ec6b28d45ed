/**
 Decoding one drained batch of messages: duplicate suppression, gap detection, resync, stop at first error.

 Messages are already typed. A record here carries both the event and its sequence number, so one list
 stands for the received events and for their preserved envelopes.
 */
module MessageDecoding {
  import opened Wrappers

  /** One numbered log entry: an event, an event message without content, or a layer-graph state. */
  datatype Entry = LogEvent(event: int) | Blank | GraphState(state: int)

  datatype Message =
    | Resync
    | LayerStackState(stack: int)
    | RateLimited(retryAfter: real)
    | ReplayComplete(headSeq: int, epoch: int)
    | Numbered(number: int, entry: Entry)
    | Irrelevant
    | Undecodable

  datatype Record = Record(number: int, event: int)

  datatype Error = SequenceGap(expected: int, received: int) | DecodeFailure

  datatype DecodeResult = DecodeResult(
    received: seq<Record>, layerStackStates: seq<int>, layerGraphStates: seq<int>, lastSeq: int,
    resyncRequested: bool, retryAfter: Option<real>, replayComplete: Option<(int, int)>, errors: seq<Error>)

  function Start(lastSeq: int): DecodeResult {
    DecodeResult([], [], [], lastSeq, false, None, None, [])
  }

  datatype Options = Options(clearOnResync: bool, requireContiguous: bool)

  /** The options of a consumer that requires a complete stream. */
  const LOSSLESS := Options(true, true)

  function Consume(r: DecodeResult, number: int, entry: Entry, o: Options): DecodeResult {
    if number != 0 && number <= r.lastSeq then r
    else if o.requireContiguous && number != 0 && number != r.lastSeq + 1 then
      r.(errors := r.errors + [SequenceGap(r.lastSeq + 1, number)])
    else
      var at := if number != 0 then r.(lastSeq := number) else r;
      match entry
      case LogEvent(event) => at.(received := at.received + [Record(number, event)])
      case Blank => at
      case GraphState(state) => at.(layerGraphStates := at.layerGraphStates + [state])
  }

  function Decode1(r: DecodeResult, m: Message, o: Options): DecodeResult {
    match m
    case Resync =>
      var kept := r.(lastSeq := 0, resyncRequested := true);
      if o.clearOnResync then kept.(received := [], layerStackStates := [], layerGraphStates := []) else kept
    case LayerStackState(stack) => r.(layerStackStates := r.layerStackStates + [stack])
    case RateLimited(retryAfter) => r.(retryAfter := Some(retryAfter))
    case ReplayComplete(headSeq, epoch) => r.(replayComplete := Some((headSeq, epoch)))
    case Numbered(number, entry) => Consume(r, number, entry, o)
    case Irrelevant => r
    case Undecodable => r.(errors := r.errors + [DecodeFailure])
  }

  /** Everything after the first error is ignored. */
  function Decode(ms: seq<Message>, lastSeq: int, o: Options): DecodeResult {
    if ms == [] then Start(lastSeq)
    else
      var r := Decode(ms[..|ms| - 1], lastSeq, o);
      if r.errors != [] then r else Decode1(r, ms[|ms| - 1], o)
  }

  lemma {:induction false} ErrorsStop(ms: seq<Message>, lastSeq: int, o: Options, n: nat)
    requires n <= |ms| && Decode(ms[..n], lastSeq, o).errors != []
    ensures Decode(ms, lastSeq, o) == Decode(ms[..n], lastSeq, o)
    decreases |ms|
  {
    if n < |ms| {
      assert ms[..|ms| - 1][..n] == ms[..n];
      ErrorsStop(ms[..|ms| - 1], lastSeq, o, n);
    } else {
      assert ms[..n] == ms;
    }
  }

  /** Decode a batch into one accumulating result. */
  method DecodeMessages(raw: seq<Message>, lastSeq: int, o: Options) returns (result: DecodeResult)
    ensures result == Decode(raw, lastSeq, o)
    ensures |result.errors| <= 1
  {
    result := Start(lastSeq);
    for n := 0 to |raw|
      invariant result == Decode(raw[..n], lastSeq, o)
      invariant result.errors == []
    {
      TakeNext(raw, n);
      var m := raw[n];
      match m
      case Resync =>
        result := result.(lastSeq := 0, resyncRequested := true);
        if o.clearOnResync {
          result := result.(received := [], layerStackStates := [], layerGraphStates := []);
        }
      case LayerStackState(stack) =>
        result := result.(layerStackStates := result.layerStackStates + [stack]);
      case RateLimited(retryAfter) =>
        result := result.(retryAfter := Some(retryAfter));
      case ReplayComplete(headSeq, epoch) =>
        result := result.(replayComplete := Some((headSeq, epoch)));
      case Numbered(number, entry) =>
        if number != 0 && number <= result.lastSeq {
          continue;
        }
        if o.requireContiguous && number != 0 && number != result.lastSeq + 1 {
          result := result.(errors := result.errors + [SequenceGap(result.lastSeq + 1, number)]);
          ErrorsStop(raw, lastSeq, o, n + 1);
          break;
        }
        if number != 0 {
          result := result.(lastSeq := number);
        }
        if entry.GraphState? {
          result := result.(layerGraphStates := result.layerGraphStates + [entry.state]);
        } else if entry.LogEvent? {
          result := result.(received := result.received + [Record(number, entry.event)]);
        }
      case Irrelevant =>
      case Undecodable =>
        result := result.(errors := result.errors + [DecodeFailure]);
        ErrorsStop(raw, lastSeq, o, n + 1);
        break;
    }
    TakeAll(raw);
  }

  // ---------------------------------------------------------------- the log behind the messages

  /** Entry n of epoch e's log; the server may restart the log in a new epoch. */
  type Log = (nat, nat) -> Entry

  /** The epoch in force after reading the messages, counted by resyncs until decoding stops. */
  function EpochAfter(ms: seq<Message>, lastSeq: int, epoch: nat): nat {
    if ms == [] then epoch
    else
      var init := ms[..|ms| - 1];
      EpochAfter(init, lastSeq, epoch)
      + (if Decode(init, lastSeq, LOSSLESS).errors == [] && ms[|ms| - 1].Resync? then 1 else 0)
  }

  /** A message numbered n carries entry n of the epoch it is sent in; nothing else is assumed. */
  ghost predicate Faithful(log: Log, ms: seq<Message>, lastSeq: int, epoch: nat) {
    forall i :: 0 <= i < |ms| && ms[i].Numbered? ==>
      ms[i].number >= 1 && ms[i].entry == log(EpochAfter(ms[..i], lastSeq, epoch), ms[i].number)
  }

  /** The event records of entries a+1 to b, in order. */
  function Records(log: Log, epoch: nat, a: nat, b: nat): seq<Record> {
    if b <= a then []
    else Records(log, epoch, a, b - 1)
         + (if log(epoch, b).LogEvent? then [Record(b, log(epoch, b).event)] else [])
  }

  /** The layer-graph states of entries a+1 to b, in order. */
  function Graphs(log: Log, epoch: nat, a: nat, b: nat): seq<int> {
    if b <= a then []
    else Graphs(log, epoch, a, b - 1)
         + (if log(epoch, b).GraphState? then [log(epoch, b).state] else [])
  }

  /** The result holds exactly the entries after the cursor, or the new epoch's from its start. */
  ghost predicate HoldsInterval(log: Log, r: DecodeResult, e: nat, lastSeq: nat, epoch: nat) {
    var from := if r.resyncRequested then 0 else lastSeq;
    && r.lastSeq >= from
    && r.received == Records(log, e, from, r.lastSeq)
    && r.layerGraphStates == Graphs(log, e, from, r.lastSeq)
    && (!r.resyncRequested ==> e == epoch)
  }

  lemma NumberedKeepsInterval(log: Log, r: DecodeResult, n: int, e: nat, lastSeq: nat, epoch: nat)
    requires HoldsInterval(log, r, e, lastSeq, epoch) && n >= 1
    ensures HoldsInterval(log, Consume(r, n, log(e, n), LOSSLESS), e, lastSeq, epoch)
  {
  }

  lemma ControlKeepsInterval(log: Log, r: DecodeResult, m: Message, e: nat, lastSeq: nat, epoch: nat)
    requires HoldsInterval(log, r, e, lastSeq, epoch) && !m.Numbered?
    ensures HoldsInterval(log, Decode1(r, m, LOSSLESS), if m.Resync? then e + 1 else e, lastSeq, epoch)
  {
  }

  lemma FaithfulPrefix(log: Log, ms: seq<Message>, n: nat, lastSeq: int, epoch: nat)
    requires Faithful(log, ms, lastSeq, epoch) && n <= |ms|
    ensures Faithful(log, ms[..n], lastSeq, epoch)
  {
    forall i | 0 <= i < n ensures ms[..n][..i] == ms[..i] {
    }
  }

  lemma FaithfulLast(log: Log, ms: seq<Message>, lastSeq: int, epoch: nat)
    requires Faithful(log, ms, lastSeq, epoch) && ms != [] && ms[|ms| - 1].Numbered?
    ensures var m := ms[|ms| - 1];
      m.number >= 1 && m.entry == log(EpochAfter(ms[..|ms| - 1], lastSeq, epoch), m.number)
  {
  }

  /**
   Whatever the network drops, repeats, reorders or corrupts, the decoded records are exactly the log
   entries after the cursor, or from the start of the new epoch after a resync, with none skipped.
   */
  lemma {:induction false} DecodedIsLogInterval(log: Log, ms: seq<Message>, lastSeq: nat, epoch: nat)
    requires Faithful(log, ms, lastSeq, epoch)
    ensures HoldsInterval(log, Decode(ms, lastSeq, LOSSLESS), EpochAfter(ms, lastSeq, epoch), lastSeq, epoch)
  {
    if ms != [] {
      var init, m := ms[..|ms| - 1], ms[|ms| - 1];
      FaithfulPrefix(log, ms, |init|, lastSeq, epoch);
      DecodedIsLogInterval(log, init, lastSeq, epoch);
      var r, e := Decode(init, lastSeq, LOSSLESS), EpochAfter(init, lastSeq, epoch);
      if r.errors == [] {
        if m.Numbered? {
          FaithfulLast(log, ms, lastSeq, epoch);
          NumberedKeepsInterval(log, r, m.number, e, lastSeq, epoch);
        } else {
          ControlKeepsInterval(log, r, m, e, lastSeq, epoch);
        }
      }
    }
  }

  /** The first record of a gap is never consumed: the cursor stops right before the missing entry. */
  lemma {:induction false} GapStopsBeforeMissing(log: Log, ms: seq<Message>, lastSeq: nat, epoch: nat)
    requires Faithful(log, ms, lastSeq, epoch)
    ensures var r := Decode(ms, lastSeq, LOSSLESS);
      forall e <- r.errors :: e.SequenceGap? ==> e.expected == r.lastSeq + 1 && e.received > e.expected
  {
    if ms != [] {
      FaithfulPrefix(log, ms, |ms| - 1, lastSeq, epoch);
      GapStopsBeforeMissing(log, ms[..|ms| - 1], lastSeq, epoch);
    }
  }
}
