/** The stream that records a query's result while passing it on, and the stream that replays a cached one. */
module ResultStreams {
  import opened CacheTypes
  import opened Options
  import opened CacheCore

  /** What the source stream reports as its outcome at the end: it cannot report one, it reports none, or it does. */
  datatype Reported = CannotReport | ReportsNone | Reports(outcome: QueryOutcome)

  /** One answer of the source stream to a request for the next batch. */
  datatype Reply = Delivered(batch: Batch) | NoBatch | EndOfStream(reported: Reported) | Failed(error: int)

  datatype Recording = Recording(
    batches: seq<Batch>,
    outcome: Option<QueryOutcome>,
    size: nat,
    cacheable: bool,
    complete: bool,
    closed: bool)

  const FRESH := Recording([], None, 0, true, false, false)

  /** The outcome assumed of a source stream that cannot report one; its encoding takes two bytes. */
  const COMPLETE := QueryOutcome(true, 0, 2)

  function Disable(r: Recording): Recording {
    r.(cacheable := false, batches := [], size := 0)
  }

  function Keep(r: Recording, batch: Batch, maxBytes: nat): Recording {
    if !r.cacheable then r
    else if batch.hasLob || r.size + batch.size > maxBytes then Disable(r)
    else r.(batches := r.batches + [batch], size := r.size + batch.size)
  }

  function Finish(r: Recording, reported: Reported, maxBytes: nat): Recording {
    var r := r.(complete := true);
    if reported.ReportsNone? then Disable(r).(outcome := None)
    else
      var outcome := if reported.Reports? then reported.outcome else COMPLETE;
      var r := r.(outcome := Some(outcome));
      if !outcome.complete || outcome.warnings > 0 then Disable(r)
      else if !r.cacheable then r
      else if r.size + outcome.size > maxBytes then Disable(r)
      else r.(size := r.size + outcome.size)
  }

  function Take(r: Recording, reply: Reply, maxBytes: nat): Recording {
    if r.closed || r.complete then r
    else
      match reply
      case Delivered(batch) => Keep(r, batch, maxBytes)
      case NoBatch => r.(cacheable := false)
      case EndOfStream(reported) => Finish(r, reported, maxBytes)
      case Failed(_) => r.(cacheable := false)
  }

  /** What closing the stream publishes to the cache, if anything. */
  function Published(r: Recording, closeFailed: bool): Option<CachedResult> {
    if !r.closed && !closeFailed && r.complete && r.cacheable then Some(CachedResult(r.batches, r.outcome, r.size))
    else None
  }

  // ---------- A published result is a whole, clean stream ----------

  function TakeAll(replies: seq<Reply>, maxBytes: nat): Recording {
    if replies == [] then FRESH
    else Take(TakeAll(replies[..|replies| - 1], maxBytes), replies[|replies| - 1], maxBytes)
  }

  ghost predicate AllDelivered(replies: seq<Reply>, batches: seq<Batch>) {
    && |replies| == |batches|
    && (forall i :: 0 <= i < |batches| ==> replies[i] == Delivered(batches[i]) && !batches[i].hasLob)
  }

  function TotalSize(batches: seq<Batch>): nat {
    if batches == [] then 0 else TotalSize(batches[..|batches| - 1]) + batches[|batches| - 1].size
  }

  /** The first `n` replies deliver the batches, the next one ends the stream, cleanly. */
  ghost predicate CleanEnd(replies: seq<Reply>, n: nat, result: CachedResult, maxBytes: nat) {
    && n < |replies|
    && AllDelivered(replies[..n], result.batches)
    && replies[n].EndOfStream? && !replies[n].reported.ReportsNone?
    && result.outcome == Some(if replies[n].reported.Reports? then replies[n].reported.outcome else COMPLETE)
    && result.outcome.value.complete && result.outcome.value.warnings == 0
    && result.size == TotalSize(result.batches) + result.outcome.value.size <= maxBytes
  }

  ghost predicate RecordingShape(r: Recording, replies: seq<Reply>, maxBytes: nat) {
    && !r.closed
    && (r.cacheable && !r.complete ==>
         AllDelivered(replies, r.batches) && r.size == TotalSize(r.batches) <= maxBytes)
    && (r.cacheable && r.complete ==>
         exists n: nat :: CleanEnd(replies, n, CachedResult(r.batches, r.outcome, r.size), maxBytes))
  }

  lemma {:induction false} RecordingIsFaithful(replies: seq<Reply>, maxBytes: nat)
    ensures RecordingShape(TakeAll(replies, maxBytes), replies, maxBytes)
  {
    if replies != [] {
      var before := replies[..|replies| - 1];
      RecordingIsFaithful(before, maxBytes);
      var reply := replies[|replies| - 1];
      assert replies == before + [reply];
      OneMoreReply(TakeAll(before, maxBytes), before, reply, maxBytes);
    }
  }

  lemma CleanEndStays(before: seq<Reply>, reply: Reply, n: nat, result: CachedResult, maxBytes: nat)
    requires CleanEnd(before, n, result, maxBytes)
    ensures CleanEnd(before + [reply], n, result, maxBytes)
  {
    assert (before + [reply])[..n] == before[..n];
  }

  lemma EndIsClean(r: Recording, before: seq<Reply>, reported: Reported, maxBytes: nat)
    requires RecordingShape(r, before, maxBytes) && !r.complete && Finish(r, reported, maxBytes).cacheable
    ensures var next := Finish(r, reported, maxBytes);
            CleanEnd(before + [EndOfStream(reported)], |before|, CachedResult(next.batches, next.outcome, next.size), maxBytes)
  {
    assert (before + [EndOfStream(reported)])[..|before|] == before;
  }

  lemma OneMoreBatch(r: Recording, before: seq<Reply>, batch: Batch, maxBytes: nat)
    requires RecordingShape(r, before, maxBytes) && !r.complete
    ensures RecordingShape(Keep(r, batch, maxBytes), before + [Delivered(batch)], maxBytes)
  {
    var next := Keep(r, batch, maxBytes);
    if next.cacheable {
      assert next.batches[..|r.batches|] == r.batches;
    }
  }

  lemma OneMoreReply(r: Recording, before: seq<Reply>, reply: Reply, maxBytes: nat)
    requires RecordingShape(r, before, maxBytes)
    ensures RecordingShape(Take(r, reply, maxBytes), before + [reply], maxBytes)
  {
    if r.complete {
      if r.cacheable {
        var n: nat :| CleanEnd(before, n, CachedResult(r.batches, r.outcome, r.size), maxBytes);
        CleanEndStays(before, reply, n, CachedResult(r.batches, r.outcome, r.size), maxBytes);
      }
    } else {
      match reply
      case Delivered(batch) => OneMoreBatch(r, before, batch, maxBytes);
      case EndOfStream(reported) =>
        if Finish(r, reported, maxBytes).cacheable {
          EndIsClean(r, before, reported, maxBytes);
        }
        hide CleanEnd, AllDelivered, TotalSize;
      case _ =>
    }
  }

  /**
    What closing publishes is exactly the whole stream: every batch in order up to a clean end, no LOB
    reference, no warning, and within the size limit.
   */
  lemma PublishedIsWholeStream(replies: seq<Reply>, closeFailed: bool, maxBytes: nat)
    requires Published(TakeAll(replies, maxBytes), closeFailed).Some?
    ensures exists n: nat :: CleanEnd(replies, n, Published(TakeAll(replies, maxBytes), closeFailed).value, maxBytes)
  {
    RecordingIsFaithful(replies, maxBytes);
  }

  lemma TakenOneMore(before: seq<Reply>, reply: Reply, maxBytes: nat)
    ensures TakeAll(before + [reply], maxBytes) == Take(TakeAll(before, maxBytes), reply, maxBytes)
  {
    assert (before + [reply])[..|before|] == before;
    hide Take;
  }

  lemma KeptOneMore(before: seq<Batch>, batch: Batch, maxBytes: nat)
    requires TotalSize(before + [batch]) <= maxBytes && !batch.hasLob
    ensures Take(Recording(before, None, TotalSize(before), true, false, false), Delivered(batch), maxBytes) ==
            Recording(before + [batch], None, TotalSize(before + [batch]), true, false, false)
  {
    assert (before + [batch])[..|before|] == before;
  }

  lemma TotalIsLeast(before: seq<Batch>, batch: Batch)
    ensures TotalSize(before) <= TotalSize(before + [batch])
  {
    assert (before + [batch])[..|before|] == before;
  }

  lemma {:induction false} DeliveredIsKept(replies: seq<Reply>, batches: seq<Batch>, maxBytes: nat)
    requires AllDelivered(replies, batches) && TotalSize(batches) <= maxBytes
    ensures TakeAll(replies, maxBytes) == Recording(batches, None, TotalSize(batches), true, false, false)
  {
    if replies != [] {
      var n := |replies| - 1;
      var before, front, batch := replies[..n], batches[..n], batches[n];
      assert replies == before + [Delivered(batch)] && batches == front + [batch] && AllDelivered(before, front);
      hide AllDelivered, TotalSize, TakeAll, Take;
      TotalIsLeast(front, batch);
      DeliveredIsKept(before, front, maxBytes);
      TakenOneMore(before, Delivered(batch), maxBytes);
      KeptOneMore(front, batch, maxBytes);
    }
  }

  lemma EndIsPublished(replies: seq<Reply>, n: nat, result: CachedResult, maxBytes: nat)
    requires CleanEnd(replies, n, result, maxBytes)
    ensures Take(Recording(result.batches, None, TotalSize(result.batches), true, false, false), replies[n], maxBytes) ==
            Recording(result.batches, result.outcome, result.size, true, true, false)
  {
    hide TotalSize, AllDelivered;
  }

  lemma {:induction false} CleanIsPublished(replies: seq<Reply>, n: nat, result: CachedResult, maxBytes: nat)
    requires CleanEnd(replies, n, result, maxBytes)
    ensures TakeAll(replies, maxBytes) == Recording(result.batches, result.outcome, result.size, true, true, false)
  {
    var before, reply := replies[..|replies| - 1], replies[|replies| - 1];
    assert replies == before + [reply];
    TakenOneMore(before, reply, maxBytes);
    hide TakeAll;
    if n < |before| {
      assert before[..n] == replies[..n];
      CleanIsPublished(before, n, result, maxBytes);
      hide CleanEnd;
    } else {
      DeliveredIsKept(before, result.batches, maxBytes);
      EndIsPublished(replies, n, result, maxBytes);
      hide CleanEnd, Take;
    }
  }

  /**
    A result is published exactly if the stream closes without error and the result is the whole, clean stream; a stream that
    has been closed publishes nothing more, whatever it is asked.
   */
  lemma PublishedExactlyWhen(replies: seq<Reply>, closeFailed: bool, maxBytes: nat, result: CachedResult,
                             r: Recording, reply: Reply)
    ensures Published(TakeAll(replies, maxBytes), closeFailed) == Some(result) <==>
              !closeFailed && exists n: nat :: CleanEnd(replies, n, result, maxBytes)
    ensures r.closed ==> Take(r, reply, maxBytes) == r && Published(r, closeFailed).None?
  {
    RecordingIsFaithful(replies, maxBytes);
    if n: nat :| CleanEnd(replies, n, result, maxBytes) {
      CleanIsPublished(replies, n, result, maxBytes);
    }
  }

  // ---------- The streams ----------

  class RecordingStream {
    const state: CacheState
    const query: Query
    const captured: Generation
    var batches: seq<Batch>
    var outcome: Option<QueryOutcome>
    var size: nat
    var cacheable: bool
    var complete: bool
    var closed: bool
    var closeFailed: bool

    ghost function View(): Recording
      reads this
    {
      Recording(batches, outcome, size, cacheable, complete, closed)
    }

    constructor (state: CacheState, query: Query, captured: Generation)
      ensures this.state == state && this.query == query && this.captured == captured
      ensures View() == FRESH
    {
      this.state, this.query, this.captured := state, query, captured;
      batches, outcome, size := [], None, 0;
      cacheable, complete, closed, closeFailed := true, false, false, false;
    }

    /** `reply` is what the source stream answers, if it is asked. */
    method Next(reply: Reply) returns (answer: Reply)
      modifies this
      ensures View() == Take(old(View()), reply, state.config.maxEntryBytes)
      ensures old(closed || complete) ==> answer == EndOfStream(CannotReport)
      ensures !old(closed || complete) ==> answer == reply
    {
      if closed {
        return EndOfStream(CannotReport);
      }
      if complete {
        return EndOfStream(CannotReport);
      }
      match reply {
        case EndOfStream(reported) =>
          complete := true;
          CaptureOutcome(reported);
        case Failed(_) =>
          cacheable := false;
        case NoBatch =>
          cacheable := false;
        case Delivered(batch) =>
          if cacheable && batch.hasLob {
            cacheable := false;
            batches := [];
            size := 0;
          }
          if cacheable {
            if size + batch.size > state.config.maxEntryBytes {
              cacheable := false;
              batches := [];
              size := 0;
            } else {
              batches := batches + [batch];
              size := size + batch.size;
            }
          }
      }
      return reply;
    }

    method CaptureOutcome(reported: Reported)
      requires complete && !closed
      modifies this
      ensures View() == Finish(old(View()), reported, state.config.maxEntryBytes)
      ensures closeFailed == old(closeFailed)
    {
      var found := COMPLETE;
      match reported {
        case CannotReport =>
        case ReportsNone =>
          DisableCaching();
          outcome := None;
          return;
        case Reports(o) =>
          found := o;
      }
      outcome := Some(found);
      if !found.complete || found.warnings > 0 {
        DisableCaching();
        return;
      }
      if !cacheable {
        return;
      }
      if size + found.size > state.config.maxEntryBytes {
        DisableCaching();
        return;
      }
      size := size + found.size;
    }

    method DisableCaching()
      modifies this
      ensures View() == Disable(old(View()))
      ensures closeFailed == old(closeFailed)
    {
      cacheable := false;
      batches := [];
      size := 0;
    }

    /** `sourceCloseFails` is what closing the source stream answers, the first time. */
    method Close(sourceCloseFails: bool, now: int) returns (failed: bool)
      requires state.Valid()
      modifies this, state, state.store
      ensures state.Valid()
      ensures View() == old(View()).(closed := true)
      ensures failed == (if old(closed) then old(closeFailed) else sourceCloseFails) == closeFailed
      ensures state.View() ==
              match Published(old(View()), sourceCloseFails)
              case None => old(state.View())
              case Some(result) =>
                StoreIfCurrent(state.config, old(state.View()), query, captured, result, now)
    {
      if closed {
        return closeFailed;
      }
      closed := true;
      closeFailed := sourceCloseFails;
      var publish := !sourceCloseFails && complete && cacheable;
      var result := CachedResult(batches, outcome, size);
      if publish {
        state.StoreCurrent(query, captured, result, now);
      }
      return closeFailed;
    }
  }

  class ReplayStream {
    const result: CachedResult
    var next: nat
    var closed: bool

    /** The batches still to be replayed. */
    ghost function Remaining(): seq<Batch>
      requires next <= |result.batches|
      reads this
    {
      if closed then [] else result.batches[next..]
    }

    constructor (result: CachedResult)
      ensures this.result == result && next <= |result.batches| && Remaining() == result.batches
    {
      this.result, next, closed := result, 0, false;
    }

    method Next() returns (batch: Option<Batch>)
      requires next <= |result.batches|
      modifies this
      ensures next <= |result.batches|
      ensures match batch
              case None => old(Remaining()) == [] == Remaining()
              case Some(b) => old(Remaining()) == [b] + Remaining()
    {
      if closed || next >= |result.batches| {
        return None;
      }
      batch := Some(result.batches[next]);
      next := next + 1;
    }

    method Close()
      requires next <= |result.batches|
      modifies this
      ensures next <= |result.batches| && Remaining() == []
    {
      closed := true;
    }
  }
}
