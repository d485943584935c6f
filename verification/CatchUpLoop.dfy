/**
 The client's catch-up loop (ts/synclog/src/client.ts, catchUp) against a quiescent server: what one
 request does to the server's cursor and the client's record, and exactly when the loop ends.
 */
module CatchUpLoop {
  import opened Types
  import opened StreamLog
  import opened LogServer
  import opened CoreEngine
  import opened ClientRecord

  datatype Params = Params(id: string, snapshotType: string, maxVersion: nat, limit: int, totalLimit: int)

  datatype Session = Session(server: Server, record: Record)

  // Again: the loop goes round. Failed: an exception leaves it.
  datatype Turn = Again | Returned | Failed

  // The ack RPC: refused beyond the head.
  function Acked(p: Params, s: Session, q: nat, turn: Turn): (Turn, Session) {
    if q > s.server.stream.head then (Failed, s) else (turn, Session(Ack(s.server, p.id, q), s.record))
  }

  ghost function Recover(p: Params, s: Session): (Turn, Session) {
    match Latest(s.server.snapshots, p.snapshotType, p.maxVersion)
    case None => (Failed, s)
    case Some(snapshot) => Acked(p, Session(s.server, ApplySnapshot(s.record, snapshot)), snapshot.seqNo, Again)
  }

  function Stored(r: Record, batch: Batch): Record {
    var events := Above(batch.events, r.applied);
    if events == [] then r else ApplyEvents(r, events)
  }

  function ApplyBatch(p: Params, s: Session, batch: Batch): (Turn, Session) {
    var r := Stored(s.record, batch);
    Acked(p, Session(s.server, r), r.applied, if batch.final then Returned else Again)
  }

  function ReplyTo(p: Params, s: Session): CatchUpResult {
    CatchUp(CursorOf(s.server, p.id), s.server.stream, s.server.stream, p.limit, p.totalLimit)
  }

  ghost function Request(p: Params, s: Session): (Turn, Session) {
    var reply := ReplyTo(p, s);
    if reply.status == StatusTooLong then Recover(p, s)
    else if reply.batch.events == [] then (Returned, s)
    else ApplyBatch(p, s, reply.batch)
  }

  // Going round until a turn ends the loop, cut off after n turns.
  ghost function Iterate<S(!new)>(step: S -> (Turn, S), s: S, n: nat): (Turn, S) {
    if n == 0 then (Again, s)
    else
      var first := step(s);
      if first.0 == Again then Iterate(step, first.1, n - 1) else first
  }

  // Cutting the loop off earlier or later never changes how it ended.
  lemma {:induction false} OneOutcome<S(!new)>(step: S -> (Turn, S), s: S, n: nat, m: nat)
    requires Iterate(step, s, n).0 != Again
    ensures Iterate(step, s, m).0 == Again || Iterate(step, s, m) == Iterate(step, s, n)
    decreases n
  {
    if m > 0 && step(s).0 == Again { OneOutcome(step, step(s).1, n - 1, m - 1); }
  }

  lemma {:induction false} FixpointNeverEnds<S(!new)>(step: S -> (Turn, S), s: S, n: nat)
    requires step(s) == (Again, s)
    ensures Iterate(step, s, n) == (Again, s)
  {
    if n > 0 { FixpointNeverEnds(step, s, n - 1); }
  }

  ghost function Requests(p: Params): Session -> (Turn, Session) {
    (s: Session) => Request(p, s)
  }

  // The catch-up call cut off after n requests.
  ghost function Loop(p: Params, s: Session, n: nat): (Turn, Session) {
    Iterate(Requests(p), s, n)
  }

  // One more request done: what is left of the loop is the loop from where it got to.
  lemma LoopAdvance(p: Params, start: Session, requests: nat, now: Session, left: nat, t: Turn, next: Session)
    requires left > 0 && Loop(p, start, requests) == Loop(p, now, left) && (t, next) == Request(p, now)
    ensures Loop(p, start, requests) == if t == Again then Loop(p, next, left - 1) else (t, next)
  {
  }

  // What every reachable state satisfies (EndToEnd.CommitSafety), of this client and its server.
  ghost predicate Coherent(p: Params, s: Session) {
    && LogServer.Inv(s.server)
    && Contiguous(s.record, s.server.history)
    && CursorOf(s.server, p.id) <= s.record.applied
    && (forall k | k in s.server.snapshots && Compatible(k, p.snapshotType, p.maxVersion) ::
          s.server.snapshots[k].seqNo <= s.server.stream.head)
  }

  predicate TooFarBehind(p: Params, s: Stream, cursor: nat) {
    ReplayTooOld(cursor, s.retained) || OverBudget(cursor, s.head, p.totalLimit)
  }

  // ---------------------------------------------------------------- one request

  lemma ReplyExact(p: Params, s: Session)
    requires Coherent(p, s)
    ensures var cursor := CursorOf(s.server, p.id);
            var reply := ReplyTo(p, s);
            && (reply.status == StatusTooLong <==> TooFarBehind(p, s.server.stream, cursor))
            && (reply.status == StatusOk ==> reply.batch == NextPage(s.server.history, cursor, p.limit))
  {
    var cursor := CursorOf(s.server, p.id);
    NormalizeTwice(p.limit);
    ReplayTooOldExact(s.server.stream, s.server.history, cursor);
    ReadIsNextPage(s.server.stream, s.server.history, cursor, NormalizeLimit(p.limit));
  }

  lemma StoredExact(r: Record, history: seq<Event>, cursor: nat, limit: int)
    requires Contiguous(r, history) && cursor <= r.applied && cursor < |history|
    ensures var page := NextPage(history, cursor, limit);
            var t := Stored(r, page);
            Contiguous(t, history) && t.applied == Max(r.applied, page.seqEnd)
  {
    var upTo := Min(cursor + NormalizeLimit(limit), |history|);
    AboveSlice(history, cursor, upTo, r.applied);
    if r.applied < upTo {
      ApplyEventsSlice(r, history, r.applied, upTo);
    }
  }

  lemma BatchTurn(p: Params, s: Session, batch: Batch)
    requires Coherent(p, s) && CursorOf(s.server, p.id) < s.server.stream.head
    requires batch == NextPage(s.server.history, CursorOf(s.server, p.id), p.limit)
    ensures var t := ApplyBatch(p, s, batch);
            && Coherent(p, t.1)
            && t.1.server == Ack(s.server, p.id, t.1.record.applied)
            && t.1.record.applied == Max(s.record.applied, batch.seqEnd) <= s.server.stream.head
            && t.0 == if batch.final then Returned else Again
  {
    StoredExact(s.record, s.server.history, CursorOf(s.server, p.id), p.limit);
  }

  // After a served page: the record reached at least its end, and the cursor followed the record.
  lemma PageTurn(p: Params, s: Session)
    requires Coherent(p, s)
    requires !TooFarBehind(p, s.server.stream, CursorOf(s.server, p.id))
        && CursorOf(s.server, p.id) < s.server.stream.head
    ensures var end := Min(CursorOf(s.server, p.id) + NormalizeLimit(p.limit), s.server.stream.head);
            var t := Request(p, s);
            && Coherent(p, t.1)
            && t.1.server.stream == s.server.stream && t.1.server.history == s.server.history
            && t.1.server.snapshots == s.server.snapshots
            && t.1.record.applied == Max(s.record.applied, end) == CursorOf(t.1.server, p.id)
            && t.0 == if end == s.server.stream.head then Returned else Again
  {
    ReplyExact(p, s);
    var batch := NextPage(s.server.history, CursorOf(s.server, p.id), p.limit);
    BatchTurn(p, s, batch);
    assert Request(p, s) == ApplyBatch(p, s, batch);
  }

  // ---------------------------------------------------------------- replaying to the head

  // Everything the server keeps besides cursors is untouched; the client and its cursor are at the head.
  ghost predicate AtHead(p: Params, s: Session, t: Session) {
    && t.server.stream == s.server.stream && t.server.history == s.server.history
    && t.record.applied == CursorOf(t.server, p.id) == s.server.stream.head
  }

  lemma FartherStaysReplayable(p: Params, s: Stream, a: nat, b: nat)
    requires a <= b && !TooFarBehind(p, s, a)
    ensures !TooFarBehind(p, s, b)
  {
  }

  lemma OnePageFewer(distance: nat, page: nat, n: nat)
    requires page < distance <= n * page
    ensures n > 1 && distance - page <= (n - 1) * page
  {
    assert n * page == page + (n - 1) * page;
  }

  // May be replayed to the head within n pages.
  ghost predicate InReach(p: Params, s: Session, n: nat) {
    var cursor := CursorOf(s.server, p.id);
    && Coherent(p, s) && !TooFarBehind(p, s.server.stream, cursor)
    && n >= 1 && s.server.stream.head - cursor <= n * NormalizeLimit(p.limit)
  }

  lemma StepTowardsHead(p: Params, s: Session, n: nat)
    requires InReach(p, s, n)
    ensures var t := Request(p, s);
            || (t.0 == Returned && AtHead(p, s, t.1))
            || (t.0 == Again && n > 1 && InReach(p, t.1, n - 1)
                && t.1.server.stream == s.server.stream && t.1.server.history == s.server.history)
  {
    var cursor, page := CursorOf(s.server, p.id), NormalizeLimit(p.limit);
    if cursor == s.server.stream.head {
      ReplyExact(p, s);
    } else {
      PageTurn(p, s);
      var t := Request(p, s);
      if t.0 == Again {
        FartherStaysReplayable(p, s.server.stream, cursor, CursorOf(t.1.server, p.id));
        OnePageFewer(s.server.stream.head - cursor, page, n);
      }
    }
  }

  /** A replayable client reaches the head within any number of requests whose pages cover the distance. */
  lemma {:induction false} ReplayReachesHead(p: Params, s: Session, n: nat)
    requires InReach(p, s, n)
    ensures Loop(p, s, n).0 == Returned && AtHead(p, s, Loop(p, s, n).1)
    decreases n
  {
    StepTowardsHead(p, s, n);
    var t := Request(p, s);
    if t.0 == Again { ReplayReachesHead(p, t.1, n - 1); }
  }

  // ---------------------------------------------------------------- recovering from a snapshot

  lemma RecoverTurn(p: Params, s: Session, snapshot: Snapshot)
    requires Coherent(p, s) && TooFarBehind(p, s.server.stream, CursorOf(s.server, p.id))
    requires Latest(s.server.snapshots, p.snapshotType, p.maxVersion) == Some(snapshot)
    ensures var t := Request(p, s);
            && t.0 == Again && Coherent(p, t.1)
            && t.1.server.stream == s.server.stream && t.1.server.history == s.server.history
            && t.1.server.snapshots == s.server.snapshots
            && t.1.record == ApplySnapshot(s.record, snapshot)
            && CursorOf(t.1.server, p.id) == Max(CursorOf(s.server, p.id), snapshot.seqNo)
  {
    ReplyExact(p, s);
    LatestExact(s.server.snapshots, p.snapshotType, p.maxVersion);
    ApplySnapshotExact(s.record, snapshot, s.server.history);
  }

  // A second recovery from the same snapshot changes nothing.
  lemma RecoverIsFixpoint(p: Params, s: Session, snapshot: Snapshot)
    requires Coherent(p, s) && TooFarBehind(p, s.server.stream, CursorOf(s.server, p.id))
    requires Latest(s.server.snapshots, p.snapshotType, p.maxVersion) == Some(snapshot)
    requires s.record == ApplySnapshot(s.record, snapshot) && snapshot.seqNo <= CursorOf(s.server, p.id)
    ensures Request(p, s) == (Again, s)
  {
    RecoverTurn(p, s, snapshot);
    ReplyExact(p, s);
  }

  /**
   When recovery helps: the latest snapshot reaches the retained part, and the rest fits the replay budget.
   */
  predicate RecoveryReaches(p: Params, s: Stream, snapshotSeq: nat) {
    snapshotSeq + 1 >= s.retained && (p.totalLimit <= 0 || s.head - snapshotSeq <= p.totalLimit)
  }

  /** A helpful snapshot ends the loop at the head: one request to recover, then the pages after the snapshot. */
  lemma RecoveryEnds(p: Params, s: Session, snapshot: Snapshot, n: nat)
    requires Coherent(p, s) && TooFarBehind(p, s.server.stream, CursorOf(s.server, p.id))
    requires Latest(s.server.snapshots, p.snapshotType, p.maxVersion) == Some(snapshot)
    requires RecoveryReaches(p, s.server.stream, snapshot.seqNo)
    requires n >= 1 && s.server.stream.head - snapshot.seqNo <= n * NormalizeLimit(p.limit)
    ensures Loop(p, s, 1 + n).0 == Returned && AtHead(p, s, Loop(p, s, 1 + n).1)
  {
    RecoverTurn(p, s, snapshot);
    ReplayReachesHead(p, Request(p, s).1, n);
  }

  /** Any other snapshot leaves cursor and record at a fixpoint after one request, and the loop never ends. */
  lemma RecoveryLoops(p: Params, s: Session, snapshot: Snapshot, n: nat)
    requires Coherent(p, s) && TooFarBehind(p, s.server.stream, CursorOf(s.server, p.id))
    requires Latest(s.server.snapshots, p.snapshotType, p.maxVersion) == Some(snapshot)
    requires !RecoveryReaches(p, s.server.stream, snapshot.seqNo)
    ensures Loop(p, s, 1 + n) == (Again, Request(p, s).1)
  {
    RecoverTurn(p, s, snapshot);
    var t := Request(p, s).1;
    RecoverIsFixpoint(p, t, snapshot);
    FixpointNeverEnds(Requests(p), t, n);
  }

  ghost predicate Ends(p: Params, s: Session, turn: Turn) {
    exists n :: Loop(p, s, n).0 == turn
  }

  lemma EndsOneWay(p: Params, s: Session, n: nat)
    requires Loop(p, s, n).0 != Again
    ensures forall turn | turn != Again :: Ends(p, s, turn) <==> turn == Loop(p, s, n).0
  {
    forall m ensures Loop(p, s, m).0 == Again || Loop(p, s, m) == Loop(p, s, n) {
      OneOutcome(Requests(p), s, n, m);
    }
  }

  lemma EnoughPages(n: nat, page: nat)
    requires page >= 1
    ensures n <= n * page
  {
  }

  lemma EndsByReplay(p: Params, s: Session)
    requires Coherent(p, s) && !TooFarBehind(p, s.server.stream, CursorOf(s.server, p.id))
    ensures Ends(p, s, Returned) && !Ends(p, s, Failed)
  {
    var n := s.server.stream.head + 1;
    EnoughPages(n, NormalizeLimit(p.limit));
    ReplayReachesHead(p, s, n);
    EndsOneWay(p, s, n);
  }

  lemma EndsByRecovery(p: Params, s: Session, snapshot: Snapshot)
    requires Coherent(p, s) && TooFarBehind(p, s.server.stream, CursorOf(s.server, p.id))
    requires Latest(s.server.snapshots, p.snapshotType, p.maxVersion) == Some(snapshot)
    requires RecoveryReaches(p, s.server.stream, snapshot.seqNo)
    ensures Ends(p, s, Returned) && !Ends(p, s, Failed)
  {
    var n := s.server.stream.head + 1;
    EnoughPages(n, NormalizeLimit(p.limit));
    RecoveryEnds(p, s, snapshot, n);
    EndsOneWay(p, s, 1 + n);
  }

  lemma EndsWithoutSnapshot(p: Params, s: Session)
    requires Coherent(p, s) && TooFarBehind(p, s.server.stream, CursorOf(s.server, p.id))
    requires Latest(s.server.snapshots, p.snapshotType, p.maxVersion) == None
    ensures Ends(p, s, Failed) && !Ends(p, s, Returned)
  {
    ReplyExact(p, s);
    assert Loop(p, s, 1).0 == Failed;
    EndsOneWay(p, s, 1);
  }

  lemma EndsNeither(p: Params, s: Session, snapshot: Snapshot)
    requires Coherent(p, s) && TooFarBehind(p, s.server.stream, CursorOf(s.server, p.id))
    requires Latest(s.server.snapshots, p.snapshotType, p.maxVersion) == Some(snapshot)
    requires !RecoveryReaches(p, s.server.stream, snapshot.seqNo)
    ensures !Ends(p, s, Returned) && !Ends(p, s, Failed)
  {
    forall m: nat ensures Loop(p, s, m).0 == Again {
      if m > 0 { RecoveryLoops(p, s, snapshot, m - 1); }
    }
  }

  /**
   Termination, exactly. A client that may be served by replay always returns at the head. One that is
   told TOO_LONG returns if and only if the latest compatible snapshot reaches the retained part of the
   log and leaves no more than the replay budget; without any compatible snapshot the call fails.
   */
  lemma CatchUpEndsExactly(p: Params, s: Session)
    requires Coherent(p, s)
    ensures var behind := TooFarBehind(p, s.server.stream, CursorOf(s.server, p.id));
            var latest := Latest(s.server.snapshots, p.snapshotType, p.maxVersion);
            && (Ends(p, s, Returned) <==>
                  !behind || (latest.Some? && RecoveryReaches(p, s.server.stream, latest.value.seqNo)))
            && (Ends(p, s, Failed) <==> behind && latest.None?)
  {
    var latest := Latest(s.server.snapshots, p.snapshotType, p.maxVersion);
    if !TooFarBehind(p, s.server.stream, CursorOf(s.server, p.id)) {
      EndsByReplay(p, s);
    } else if latest.None? {
      EndsWithoutSnapshot(p, s);
    } else if RecoveryReaches(p, s.server.stream, latest.value.seqNo) {
      EndsByRecovery(p, s, latest.value);
    } else {
      EndsNeither(p, s, latest.value);
    }
  }

  /** What a caller can tell before the call: it will be over. */
  ghost predicate WillEnd(p: Params, s: Session) {
    var latest := Latest(s.server.snapshots, p.snapshotType, p.maxVersion);
    || !TooFarBehind(p, s.server.stream, CursorOf(s.server, p.id))
    || latest.None?
    || RecoveryReaches(p, s.server.stream, latest.value.seqNo)
  }

  /** That is the exact condition: some number of requests is enough if and only if it holds. */
  lemma EndsIfAndOnlyIf(p: Params, s: Session)
    requires Coherent(p, s)
    ensures WillEnd(p, s) <==> exists n :: Loop(p, s, n).0 != Again
  {
    hide Loop, Coherent;
    CatchUpEndsExactly(p, s);
    if WillEnd(p, s) {
      assert Ends(p, s, Returned) || Ends(p, s, Failed);
    }
    forall n | Loop(p, s, n).0 != Again ensures WillEnd(p, s) {
      assert Ends(p, s, Loop(p, s, n).0);
    }
  }
}
