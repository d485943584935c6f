/**
 Runs that show the conditions of the main theorems are needed: two flows sharing one record can hide
 an event from the view, and a truncation past the latest snapshot leaves a client whose
 catch-up never ends.
 */
module Scenarios {
  import opened Types
  import opened StreamLog
  import opened LogServer
  import opened CoreEngine
  import opened ClientRecord
  import opened EndToEnd
  import opened CatchUpLoop
  import opened Refinement

  const REQUEST := AppendRequest("s", [], "event", 1, "", 0)

  function Nth(n: nat): Event { NewEvent(REQUEST, n) }

  const SNAPSHOT_1 := Snapshot(1, "state", 1, "", [1])
  const SNAPSHOT_2 := Snapshot(2, "state", 1, "", [2])

  const PARAMS := Params("me", "state", 0, 0, 0)
  const CLIENT := ClientOf(PARAMS)

  const APPEND := StepAppend(REQUEST, None, 0)

  // A product whose state is the list of events; a snapshot's payload says how many it holds.
  function DecodeJournal(payload: Bytes, version: nat): seq<Event> {
    if payload == [1] then [Nth(1)] else [Nth(1), Nth(2)]
  }

  function Snoc(v: seq<Event>, e: Event): seq<Event> { v + [e] }

  const JOURNAL: Projection<seq<Event>> := Projection([], Snoc, DecodeJournal)

  const STORED_1 := map[KeyOf(SNAPSHOT_1) := SNAPSHOT_1]
  const STORED_2 := STORED_1[KeyOf(SNAPSHOT_2) := SNAPSHOT_2]

  const LOG_1 := [Nth(1)]
  const LOG_2 := [Nth(1), Nth(2)]

  // Nobody has acked anything yet.
  function Unacked(retained: nat, events: seq<Event>, history: seq<Event>, snapshots: map<SnapshotKey,
                   Snapshot>): Server {
    Server(Stream(|history|, retained, events, map[]), history, map[], snapshots)
  }

  lemma SnapshotsAreFaithful()
    ensures Faithful(JOURNAL, SNAPSHOT_1, LOG_1) && Faithful(JOURNAL, SNAPSHOT_2, LOG_2)
  {
    JournalFold(JOURNAL, [], LOG_1);
    JournalFold(JOURNAL, [], LOG_2);
    assert LOG_1[..1] == LOG_1 && LOG_2[..2] == LOG_2;
    assert [] + LOG_1 == LOG_1 && [] + LOG_2 == LOG_2;
  }

  lemma LatestIs(snapshots: map<SnapshotKey, Snapshot>, s: Snapshot)
    requires Keyed(snapshots) && KeyOf(s) in snapshots && snapshots[KeyOf(s)] == s && s.payloadType == "state"
    requires forall k | k in snapshots :: AtMost(k, KeyOf(s))
    ensures Latest(snapshots, "state", 0) == Some(s)
  {
    LatestExact(snapshots, "state", 0);
    assert IsLatest(snapshots.Keys, KeyOf(s), "state", 0);
  }

  // The server takes one step and everything else stays where it is.
  lemma Serving(flows: set<nat>, w: World, step: LogServer.Step, server: Server) returns (w': World)
    requires Reachable(CLIENT, JOURNAL, flows, w)
    requires Possible(CLIENT, JOURNAL, w, Serve(step)) && Take(w.server, step) == server
    ensures Reachable(CLIENT, JOURNAL, flows, w')
    ensures w'.server == server && w'.record == w.record && w'.wire.flows == w.wire.flows
  {
    hide Reachable;
    w' := StepIsReachable(CLIENT, JOURNAL, flows, w, Serve(step));
  }

  // One event appended and covered by a snapshot.
  lemma FirstEvent(flows: set<nat>) returns (w: World)
    ensures Reachable(CLIENT, JOURNAL, flows, w)
    ensures w.server == Unacked(1, LOG_1, LOG_1, STORED_1) && w.record == EMPTY_RECORD
    ensures w.wire.flows == Start(flows).wire.flows
  {
    hide Reachable;
    StartIsReachable(CLIENT, JOURNAL, flows);
    w := Start(flows);
    assert [] + LOG_1 == LOG_1;
    w := Serving(flows, w, APPEND, Unacked(1, LOG_1, LOG_1, map[]));
    SnapshotsAreFaithful();
    w := Serving(flows, w, StepPut(SNAPSHOT_1), Unacked(1, LOG_1, LOG_1, STORED_1));
  }

  // ---------------------------------------------------------------- two flows

  // A flow is told TOO_LONG and then served the latest snapshot, which it does not get to store yet.
  lemma FetchLatest(flows: set<nat>, w: World, flow: nat, snapshot: Snapshot) returns (w': World)
    requires Reachable(CLIENT, JOURNAL, flows, w) && IdleAt(w, flow)
    requires ReplyTo(PARAMS, SessionOf(w)).status == StatusTooLong
    requires Latest(w.server.snapshots, "state", 0) == Some(snapshot)
    ensures Reachable(CLIENT, JOURNAL, flows, w') && SessionOf(w') == SessionOf(w)
    ensures w'.wire.flows == w.wire.flows[flow := GotSnapshot(snapshot)]
  {
    hide Reachable, ReplyTo;
    w' := Refused(PARAMS, JOURNAL, flows, w, flow);
    w' := StepIsReachable(CLIENT, JOURNAL, flows, w', AskSnapshot(flow));
    w' := StepIsReachable(CLIENT, JOURNAL, flows, w', ServeSnapshot(flow));
    assert w'.wire.flows == w.wire.flows[flow := GotSnapshot(snapshot)];
  }

  // A fetched snapshot is stored and its number acked.
  lemma StoreAndAck(flows: set<nat>, w: World, flow: nat, snapshot: Snapshot) returns (w': World)
    requires Reachable(CLIENT, JOURNAL, flows, w)
    requires flow in w.wire.flows && w.wire.flows[flow] == GotSnapshot(snapshot)
        && snapshot.seqNo <= w.server.stream.head
    ensures Reachable(CLIENT, JOURNAL, flows, w')
    ensures w'.server == Ack(w.server, "me", snapshot.seqNo) && w'.record == ApplySnapshot(w.record, snapshot)
    ensures w'.wire.flows == w.wire.flows[flow := Idle]
  {
    hide Reachable;
    w' := StepIsReachable(CLIENT, JOURNAL, flows, w, StoreSnapshot(flow));
    w' := StepIsReachable(CLIENT, JOURNAL, flows, w', SendAck(flow));
    assert w'.wire.flows == w.wire.flows[flow := Idle];
    w' := AckArrives(PARAMS, JOURNAL, flows, w', snapshot.seqNo, Again);
  }

  // The log is truncated and flow 0 recovers, slowly.
  lemma SlowFlowFetches() returns (w: World)
    ensures Reachable(CLIENT, JOURNAL, {0, 1}, w)
    ensures w.server == Unacked(2, [], LOG_1, STORED_1) && w.record == EMPTY_RECORD
    ensures w.wire.flows == map[0 := GotSnapshot(SNAPSHOT_1), 1 := Idle]
  {
    hide Reachable;
    w := FirstEvent({0, 1});
    w := Serving({0, 1}, w, StepTruncate(2), Unacked(2, [], LOG_1, STORED_1));
    LatestIs(STORED_1, SNAPSHOT_1);
    w := FetchLatest({0, 1}, w, 0, SNAPSHOT_1);
    assert w.wire.flows == map[0 := GotSnapshot(SNAPSHOT_1), 1 := Idle];
  }

  // A second event and snapshot later flow 1 recovers too.
  lemma FastFlowFetches() returns (w: World)
    ensures Reachable(CLIENT, JOURNAL, {0, 1}, w)
    ensures w.server == Unacked(2, [Nth(2)], LOG_2, STORED_2) && w.record == EMPTY_RECORD
    ensures w.wire.flows == map[0 := GotSnapshot(SNAPSHOT_1), 1 := GotSnapshot(SNAPSHOT_2)]
  {
    hide Reachable;
    w := SlowFlowFetches();
    assert LOG_1 + [Nth(2)] == LOG_2;
    w := Serving({0, 1}, w, APPEND, Unacked(2, [Nth(2)], LOG_2, STORED_1));
    SnapshotsAreFaithful();
    w := Serving({0, 1}, w, StepPut(SNAPSHOT_2), Unacked(2, [Nth(2)], LOG_2, STORED_2));
    LatestIs(STORED_2, SNAPSHOT_2);
    w := FetchLatest({0, 1}, w, 1, SNAPSHOT_2);
    assert w.wire.flows == map[0 := GotSnapshot(SNAPSHOT_1), 1 := GotSnapshot(SNAPSHOT_2)];
  }

  /**
   Two flows that were both told TOO_LONG store their snapshots in the opposite order to the one they
   were served in. In the end nothing is in progress, cursor, applied number and head all say 2, the
   view shows only event 1, and a further catch-up has nothing to do.
   */
  lemma TwoFlowsCanOpenAHole() returns (w: World)
    ensures Reachable(CLIENT, JOURNAL, {0, 1}, w) && IdleAt(w, 0) && IdleAt(w, 1)
    ensures CursorOf(w.server, "me") == w.record.applied == w.server.stream.head == 2
    ensures View(JOURNAL, w.record) == LOG_1 && !ShowsLog(JOURNAL, w)
    ensures Request(PARAMS, SessionOf(w)) == (Returned, SessionOf(w))
  {
    hide Reachable;
    w := FastFlowFetches();
    w := StoreAndAck({0, 1}, w, 1, SNAPSHOT_2);
    w := StoreAndAck({0, 1}, w, 0, SNAPSHOT_1);
    assert w.record == Record(2, Some(SNAPSHOT_1), []);
    JournalFold(JOURNAL, [], LOG_2);
    assert LOG_2[..2] == LOG_2 == [] + LOG_2;
  }

  // ---------------------------------------------------------------- a catch-up that never ends

  /**
   Truncating past the latest snapshot: the client is told TOO_LONG, recovers, and is told TOO_LONG again,
   for ever.
   */
  lemma CatchUpCanRepeatForEver() returns (w: World)
    ensures Reachable(CLIENT, JOURNAL, {0}, w) && IdleAt(w, 0)
    ensures TooFarBehind(PARAMS, w.server.stream, CursorOf(w.server, "me"))
    ensures Latest(w.server.snapshots, "state", 0).Some?
    ensures !Ends(PARAMS, SessionOf(w), Returned) && !Ends(PARAMS, SessionOf(w), Failed)
  {
    hide Reachable;
    w := FirstEvent({0});
    assert LOG_1 + [Nth(2)] == LOG_2;
    w := Serving({0}, w, APPEND, Unacked(1, LOG_2, LOG_2, STORED_1));
    w := Serving({0}, w, StepTruncate(3), Unacked(3, [], LOG_2, STORED_1));
    LatestIs(STORED_1, SNAPSHOT_1);
    ReachableIsCoherent(PARAMS, JOURNAL, {0}, w);
    CatchUpEndsExactly(PARAMS, SessionOf(w));
  }
}
