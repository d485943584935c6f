/**
 The core engine (pkg/synclog/engine.go). CatchUp and Ack each make several separately locked store
 calls; the functions take the store state each call met, so the lemmas cover every interleaving.
 */
module CoreEngine {
  import opened Types
  import opened StreamLog
  import opened LogServer

  datatype Status = StatusOk | StatusTooLong

  datatype CatchUpResult = CatchUpResult(status: Status, batch: Batch, cursor: nat, head: nat, retained: nat)

  const NO_BATCH := Batch([], 0, 0, false)

  predicate OverBudget(cursor: nat, head: nat, totalLimit: int) {
    totalLimit > 0 && cursor < head && head - cursor > totalLimit
  }

  function CatchUp(cursor: nat, atHead: Stream, atRead: Stream, limit: int, totalLimit: int): CatchUpResult {
    if ReplayTooOld(cursor, atHead.retained) || OverBudget(cursor, atHead.head, totalLimit) then
      CatchUpResult(StatusTooLong, NO_BATCH, cursor, atHead.head, atHead.retained)
    else
      match Read(atRead, cursor, NormalizeLimit(limit))
      case ReadTooLong => CatchUpResult(StatusTooLong, NO_BATCH, cursor, atHead.head, atHead.retained)
      case ReadOk(batch) => CatchUpResult(StatusOk, batch, cursor, atRead.head, atRead.retained)
  }

  // Where in a run a subscribe poll read the committed cursor, and where its catch-up made its three reads.
  datatype Look = Look(at: nat, i: nat, j: nat, k: nat)

  lemma NormalizeTwice(limit: int)
    ensures NormalizeLimit(NormalizeLimit(limit)) == NormalizeLimit(limit)
  {
  }

  /**
   Catch-up over any interleaving, exactly. The cursor is read in state i, the head in state j and the
   events in state k. The reply is TOO_LONG precisely when the event after the cursor was gone by the
   time of the read or the budget was exceeded at the head check; otherwise it is the page of the
   history that follows the cursor.
   */
  lemma InterleavedCatchUp(run: seq<Server>, i: nat, j: nat, k: nat, subscriber: string, limit: int, totalLimit: int)
    requires IsRun(run) && i <= j <= k < |run|
    ensures var cursor := CursorOf(run[i], subscriber);
            var r := CatchUp(cursor, run[j].stream, run[k].stream, limit, totalLimit);
            && r.cursor == cursor <= |run[k].history|
            && (r.status == StatusTooLong <==>
                  Gone(run[k].stream, cursor + 1) || OverBudget(cursor, |run[j].history|, totalLimit))
            && (r.status == StatusOk ==> r.batch == NextPage(run[k].history, cursor, limit))
            && (r.status == StatusTooLong ==> r.batch == NO_BATCH)
            && (var last := if r.status == StatusOk then k else j;
                r.head == |run[last].history| && r.retained == run[last].stream.retained)
  {
    RunInvariant(run, i, j);
    RunInvariant(run, j, k);
    var cursor := CursorOf(run[i], subscriber);
    ReplayTooOldExact(run[j].stream, run[j].history, cursor);
    if Gone(run[j].stream, cursor + 1) { GoneForGood(run[j], run[k], cursor + 1); }
    ReadIsNextPage(run[k].stream, run[k].history, cursor, NormalizeLimit(limit));
    NormalizeTwice(limit);
  }

  /** Engine.Ack: the head is checked in one section, the cursor is committed in a later one. */
  function AckWhenChecked(atHead: Server, atCommit: Server, subscriber: string, q: nat): Option<Server> {
    if q > atHead.stream.head then None else Some(Ack(atCommit, subscriber, q))
  }

  /** An accepted ack raises the cursor to the acked number, never lowers it and never passes the head. */
  lemma AckSafe(run: seq<Server>, j: nat, k: nat, subscriber: string, q: nat)
    requires IsRun(run) && j <= k < |run|
    ensures var r := AckWhenChecked(run[j], run[k], subscriber, q);
            && (r.Some? <==> q <= |run[j].history|)
            && (r.Some? ==> && Next(run[k], r.value)
                            && CursorOf(r.value, subscriber) == Max(CursorOf(run[k], subscriber), q) <= |run[k].history|
                            && forall c | c != subscriber :: CursorOf(r.value, c) == CursorOf(run[k], c))
  {
    RunInvariant(run, j, k);
    if q <= run[j].stream.head {
      var step := StepAck(subscriber, q);
      assert Enabled(run[k], step) && Take(run[k], step) == Ack(run[k], subscriber, q);
    }
  }
}
