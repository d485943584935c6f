/**
 The whole system for one stream and one subscriber: the log server, everything in flight, and the
 client runtime (ts/synclog/src/client.ts) with its durable record. Every store call on the server
 and every await in the client is a step of its own. Batches and acks, once produced, may arrive
 late, several times or never; a snapshot reply belongs to the call that waits for it; a flow may
 crash at any point. Any number of client flows share the record.
 */
module EndToEnd {
  import opened Types
  import opened StreamLog
  import opened LogServer
  import opened CoreEngine
  import opened ClientRecord

  datatype Client = Client(id: string, snapshotType: string, maxVersion: nat)

  // A catch-up call made for a flow, between its store calls.
  datatype Call =
    | HaveCursor(flow: nat, cursor: nat, limit: int, totalLimit: int)
    | HaveHead(flow: nat, cursor: nat, limit: int)

  // A client flow between two awaits.
  datatype Flow =
    | Idle
    | GotBatch(events: seq<Event>)      // before reading the applied number
    | Filtered(events: seq<Event>)      // before applyEvents
    | Stored                            // before reading the applied number back
    | AckReady(seqNo: nat)              // before the ack is sent
    | Waiting                           // getLatestSnapshot is running
    | GotSnapshot(snapshot: Snapshot)   // before applySnapshot

  datatype Wire = Wire(
    calls: set<Call>,
    batches: set<seq<Event>>,
    refused: set<nat>,     // flows a catch-up was answered TOO_LONG for
    acks: set<nat>,        // sent by the client
    accepted: set<nat>,    // passed Engine.Ack's head check
    flows: map<nat, Flow>)

  datatype World = World(server: Server, record: Record, wire: Wire)

  datatype Act =
    | Serve(step: LogServer.Step)
    | ReadCursor(flow: nat, limit: int, totalLimit: int)
    | ReadHead(call: Call)
    | ReadEvents(call: Call)
    | CheckAck(seqNo: nat)
    | CommitAck(seqNo: nat)
    | Deliver(flow: nat, events: seq<Event>)
    | ReadApplied(flow: nat)
    | StoreEvents(flow: nat)
    | ReadBack(flow: nat)
    | SendAck(flow: nat)
    | AskSnapshot(flow: nat)
    | ServeSnapshot(flow: nat)
    | StoreSnapshot(flow: nat)
    | Crash(flow: nat)

  predicate At(w: World, f: nat, pick: Flow -> bool) {
    f in w.wire.flows && pick(w.wire.flows[f])
  }

  function Goto(wire: Wire, f: nat, flow: Flow): Wire {
    wire.(flows := wire.flows[f := flow])
  }

  // A snapshot key this client's requests may select.
  predicate ServedTo(c: Client, k: SnapshotKey) {
    Compatible(k, c.snapshotType, c.maxVersion)
  }

  // ---------------------------------------------------------------- the machine

  ghost predicate Possible<V>(c: Client, p: Projection<V>, w: World, act: Act) {
    match act
    // Anybody may use the log, but acks under the client's id come from the client, and a snapshot this
    // client could be served is stored only of state folded from the log. Other types and newer versions
    // may hold anything under any number.
    case Serve(step) =>
      && Enabled(w.server, step)
      && (step.StepAck? ==> step.subscriber != c.id)
      && (step.StepPut? && ServedTo(c, KeyOf(step.snapshot)) ==> Faithful(p, step.snapshot, w.server.history))
    case ReadCursor(_, _, _) => true
    case ReadHead(call) => call in w.wire.calls && call.HaveCursor?
    case ReadEvents(call) => call in w.wire.calls && call.HaveHead?
    case CheckAck(q) => q in w.wire.acks
    case CommitAck(q) => q in w.wire.accepted
    case Deliver(f, events) => At(w, f, (x: Flow) => x.Idle?) && events in w.wire.batches && events != []
    case ReadApplied(f) => At(w, f, (x: Flow) => x.GotBatch?)
    case StoreEvents(f) => At(w, f, (x: Flow) => x.Filtered?)
    case ReadBack(f) => At(w, f, (x: Flow) => x.Stored?)
    case SendAck(f) => At(w, f, (x: Flow) => x.AckReady?)
    // A recovery answers a TOO_LONG, which may be a late or a repeated one.
    case AskSnapshot(f) => At(w, f, (x: Flow) => x.Idle?) && f in w.wire.refused
    case ServeSnapshot(f) =>
      At(w, f, (x: Flow) => x.Waiting?) && Latest(w.server.snapshots, c.snapshotType, c.maxVersion).Some?
    case StoreSnapshot(f) => At(w, f, (x: Flow) => x.GotSnapshot?)
    case Crash(f) => f in w.wire.flows
  }

  function Refuse(wire: Wire, flow: nat): Wire {
    wire.(refused := wire.refused + {flow})
  }

  /**
   The log is free: whatever the client does, events may be appended, cut away and expire, others may ack
   up to the head, and snapshots the client would not be served may hold anything. A flow may always crash.
   */
  lemma TheLogIsFree<V>(c: Client, p: Projection<V>, w: World, flow: nat)
    ensures forall req, r, nowMs :: Possible(c, p, w, Serve(StepAppend(req, r, nowMs)))
    ensures forall before: nat :: Possible(c, p, w, Serve(StepTruncate(before)))
    ensures forall r, nowMs :: Possible(c, p, w, Serve(StepRetain(r, nowMs)))
    ensures forall other, q: nat | other != c.id && q <= w.server.stream.head ::
              Possible(c, p, w, Serve(StepAck(other, q)))
    ensures forall s: Snapshot
              | s.payloadType != c.snapshotType || (c.maxVersion > 0 && s.payloadVersion > c.maxVersion) ::
              Possible(c, p, w, Serve(StepPut(s)))
    ensures forall s: Snapshot | Faithful(p, s, w.server.history) :: Possible(c, p, w, Serve(StepPut(s)))
    ensures flow in w.wire.flows ==> Possible(c, p, w, Crash(flow))
  {
  }

  // Engine.CatchUp's head check: answered TOO_LONG, or on to the read.
  function HeadChecked(w: World, call: Call): Wire
    requires call.HaveCursor?
  {
    if ReplayTooOld(call.cursor, w.server.stream.retained)
       || OverBudget(call.cursor, w.server.stream.head, call.totalLimit) then Refuse(w.wire, call.flow)
    else w.wire.(calls := w.wire.calls + {HaveHead(call.flow, call.cursor, call.limit)})
  }

  function EventsRead(w: World, call: Call): Wire
    requires call.HaveHead?
  {
    match Read(w.server.stream, call.cursor, NormalizeLimit(call.limit))
    case ReadTooLong => Refuse(w.wire, call.flow)
    case ReadOk(batch) => w.wire.(batches := w.wire.batches + {batch.events})
  }

  ghost function Do<V>(c: Client, p: Projection<V>, w: World, act: Act): World
    requires Possible(c, p, w, act)
  {
    match act
    case Serve(step) => w.(server := Take(w.server, step))
    case ReadCursor(f, limit, total) =>
      w.(wire := w.wire.(calls := w.wire.calls + {HaveCursor(f, CursorOf(w.server, c.id), limit, total)}))
    case ReadHead(call) => w.(wire := HeadChecked(w, call))
    case ReadEvents(call) => w.(wire := EventsRead(w, call))
    case CheckAck(q) =>
      if q <= w.server.stream.head then w.(wire := w.wire.(accepted := w.wire.accepted + {q})) else w
    case CommitAck(q) => w.(server := LogServer.Ack(w.server, c.id, q))
    case Deliver(f, events) => w.(wire := Goto(w.wire, f, GotBatch(events)))
    case ReadApplied(f) =>
      w.(wire := Goto(w.wire, f, Filtered(Above(w.wire.flows[f].events, w.record.applied))))
    case StoreEvents(f) =>
      w.(record := ApplyEvents(w.record, w.wire.flows[f].events), wire := Goto(w.wire, f, Stored))
    case ReadBack(f) => w.(wire := Goto(w.wire, f, AckReady(w.record.applied)))
    case SendAck(f) =>
      w.(wire := Goto(w.wire.(acks := w.wire.acks + {w.wire.flows[f].seqNo}), f, Idle))
    case AskSnapshot(f) => w.(wire := Goto(w.wire, f, Waiting))
    case ServeSnapshot(f) =>
      w.(wire := Goto(w.wire, f, GotSnapshot(Latest(w.server.snapshots, c.snapshotType, c.maxVersion).value)))
    case StoreSnapshot(f) =>
      var snapshot := w.wire.flows[f].snapshot;
      World(w.server, ApplySnapshot(w.record, snapshot), Goto(w.wire, f, AckReady(snapshot.seqNo)))
    case Crash(f) => w.(wire := Goto(w.wire, f, Idle))
  }

  function Start(flows: set<nat>): World {
    World(INITIAL, EMPTY_RECORD, Wire({}, {}, {}, {}, {}, map f | f in flows :: Idle))
  }

  // The states a sequence of acts passes through.
  ghost predicate IsExecution<V>(c: Client, p: Projection<V>, flows: set<nat>, run: seq<World>, acts: seq<Act>) {
    && |run| == |acts| + 1
    && run[0] == Start(flows)
    && forall i | 0 <= i < |acts| :: Possible(c, p, run[i], acts[i]) && run[i + 1] == Do(c, p, run[i], acts[i])
  }

  ghost predicate Reachable<V>(c: Client, p: Projection<V>, flows: set<nat>, w: World) {
    exists run, acts :: IsExecution(c, p, flows, run, acts) && run[|acts|] == w
  }

  lemma StartIsReachable<V>(c: Client, p: Projection<V>, flows: set<nat>)
    ensures Reachable(c, p, flows, Start(flows))
  {
    hide Do, Possible;
    var acts: seq<Act> := [];
    assert IsExecution(c, p, flows, [Start(flows)], acts) && [Start(flows)][|acts|] == Start(flows);
  }

  lemma StepIsReachable<V>(c: Client, p: Projection<V>, flows: set<nat>, w: World, act: Act) returns (w': World)
    requires Reachable(c, p, flows, w) && Possible(c, p, w, act)
    ensures w' == Do(c, p, w, act) && Reachable(c, p, flows, w')
  {
    hide Do, Possible;
    w' := Do(c, p, w, act);
    var run, acts :| IsExecution(c, p, flows, run, acts) && run[|acts|] == w;
    var run', acts' := run + [w'], acts + [act];
    forall i | 0 <= i < |acts'|
      ensures Possible(c, p, run'[i], acts'[i]) && run'[i + 1] == Do(c, p, run'[i], acts'[i]) {
      if i < |acts| { assert run'[i] == run[i] && run'[i + 1] == run[i + 1] && acts'[i] == acts[i]; }
    }
    assert IsExecution(c, p, flows, run', acts') && run'[|acts'|] == w';
  }

  lemma PrefixIsReachable<V>(c: Client, p: Projection<V>, flows: set<nat>, run: seq<World>, acts: seq<Act>, i: nat)
    requires IsExecution(c, p, flows, run, acts) && i < |run|
    ensures Reachable(c, p, flows, run[i])
  {
    hide Do, Possible;
    var run', acts' := run[..i + 1], acts[..i];
    assert IsExecution(c, p, flows, run', acts') && run'[|acts'|] == run[i];
  }

  // ---------------------------------------------------------------- what is in flight

  // These events are a stretch of the history that starts no later than just after n.
  ghost predicate StretchAt(events: seq<Event>, history: seq<Event>, lo: nat) {
    lo + |events| <= |history| && events == history[lo..lo + |events|]
  }

  ghost predicate Stretch(events: seq<Event>, history: seq<Event>, n: nat) {
    exists lo: nat :: lo <= n && StretchAt(events, history, lo)
  }

  ghost predicate FlowSafe(flow: Flow, history: seq<Event>, n: nat) {
    match flow
    case GotBatch(events) => Stretch(events, history, n)
    case Filtered(events) => Stretch(events, history, n)
    case AckReady(q) => q <= n
    case GotSnapshot(s) => s.seqNo <= |history|
    case _ => true
  }

  ghost predicate WireSafe(wire: Wire, history: seq<Event>, n: nat) {
    && (forall x | x in wire.calls :: x.cursor <= n)
    && (forall b | b in wire.batches :: Stretch(b, history, n))
    && (forall q | q in wire.acks :: q <= n)
    && (forall q | q in wire.accepted :: q <= n)
    && (forall f | f in wire.flows :: FlowSafe(wire.flows[f], history, n))
  }

  /** The server's cursor never passes what the client durably applied, which never passes the head. */
  ghost predicate Safe(c: Client, w: World) {
    && LogServer.Inv(w.server)
    && (forall k | k in w.server.snapshots && ServedTo(c, k) :: w.server.snapshots[k].seqNo <= |w.server.history|)
    && Contiguous(w.record, w.server.history)
    && CursorOf(w.server, c.id) <= w.record.applied
    && WireSafe(w.wire, w.server.history, w.record.applied)
  }

  lemma StretchGrows(events: seq<Event>, history: seq<Event>, n: nat, history': seq<Event>, n': nat)
    requires Stretch(events, history, n) && history <= history' && n <= n'
    ensures Stretch(events, history', n')
  {
    var lo: nat :| lo <= n && StretchAt(events, history, lo);
    assert StretchAt(events, history', lo);
  }

  lemma WireGrows(wire: Wire, history: seq<Event>, n: nat, history': seq<Event>, n': nat)
    requires WireSafe(wire, history, n) && history <= history' && n <= n'
    ensures WireSafe(wire, history', n')
  {
    forall b | b in wire.batches ensures Stretch(b, history', n') {
      StretchGrows(b, history, n, history', n');
    }
    forall f | f in wire.flows ensures FlowSafe(wire.flows[f], history', n') {
      match wire.flows[f]
      case GotBatch(events) => StretchGrows(events, history, n, history', n');
      case Filtered(events) => StretchGrows(events, history, n, history', n');
      case _ =>
    }
  }

  lemma ContiguousGrows(r: Record, history: seq<Event>, history': seq<Event>)
    requires Contiguous(r, history) && history <= history' && Numbered(history')
    ensures Contiguous(r, history')
  {
  }

  lemma SliceIsStretch(history: seq<Event>, a: nat, b: nat)
    requires a <= b <= |history|
    ensures StretchAt(history[a..b], history, a)
  {
  }

  /** Redelivery filtering leaves a stretch that still joins the record, however stale the batch was. */
  lemma FilterKeepsStretch(events: seq<Event>, history: seq<Event>, n: nat)
    requires Numbered(history) && Stretch(events, history, n) && n <= |history|
    ensures Stretch(Above(events, n), history, n)
  {
    hide Above;
    var lo: nat :| lo <= n && StretchAt(events, history, lo);
    var hi := lo + |events|;
    AboveSlice(history, lo, hi, n);
    SliceIsStretch(history, n, Max(n, hi));
    assert Above(events, n) == history[n..Max(n, hi)];
  }

  lemma StoreStretch(r: Record, events: seq<Event>, history: seq<Event>)
    requires Contiguous(r, history) && Stretch(events, history, r.applied)
    ensures Contiguous(ApplyEvents(r, events), history)
    ensures r.applied <= ApplyEvents(r, events).applied
    ensures Base(ApplyEvents(r, events)) == Base(r) && ApplyEvents(r, events).snapshot == r.snapshot
  {
    hide ApplyEvents, Contiguous;
    var lo: nat :| lo <= r.applied && StretchAt(events, history, lo);
    ApplyEventsSlice(r, history, lo, lo + |events|);
  }

  // ---------------------------------------------------------------- commit safety

  lemma ServeKeepsSafe<V>(c: Client, p: Projection<V>, w: World, step: LogServer.Step)
    requires Safe(c, w) && Possible(c, p, w, Serve(step))
    ensures Safe(c, Do(c, p, w, Serve(step)))
  {
    TakeKeepsInv(w.server, step);
    var t := Take(w.server, step);
    ContiguousGrows(w.record, w.server.history, t.history);
    WireGrows(w.wire, w.server.history, w.record.applied, t.history, w.record.applied);
  }

  lemma ServedPageIsStretch(s: Server, cursor: nat, limit: int)
    requires LogServer.Inv(s)
    ensures var r := Read(s.stream, cursor, NormalizeLimit(limit));
            var page := NextPage(s.history, cursor, limit);
            && (r == ReadTooLong || r == ReadOk(page))
            && (cursor <= |s.history| ==> Stretch(page.events, s.history, cursor))
  {
    NormalizeTwice(limit);
    ReadIsNextPage(s.stream, s.history, cursor, NormalizeLimit(limit));
    if cursor <= |s.history| { assert StretchAt(NextPage(s.history, cursor, limit).events, s.history, cursor); }
  }

  lemma ReadEventsKeepsSafe<V>(c: Client, p: Projection<V>, w: World, call: Call)
    requires Safe(c, w) && Possible(c, p, w, ReadEvents(call))
    ensures Safe(c, Do(c, p, w, ReadEvents(call)))
  {
    ServedPageIsStretch(w.server, call.cursor, call.limit);
    StretchGrows(NextPage(w.server.history, call.cursor, call.limit).events,
                 w.server.history, call.cursor, w.server.history, w.record.applied);
  }

  lemma CommitAckKeepsSafe<V>(c: Client, p: Projection<V>, w: World, q: nat)
    requires Safe(c, w) && Possible(c, p, w, CommitAck(q))
    ensures Safe(c, Do(c, p, w, CommitAck(q)))
  {
  }

  lemma RecordStepKeepsSafe<V>(c: Client, p: Projection<V>, w: World, act: Act)
    requires Safe(c, w) && Possible(c, p, w, act) && (act.StoreEvents? || act.StoreSnapshot?)
    ensures Safe(c, Do(c, p, w, act)) && w.record.applied <= Do(c, p, w, act).record.applied
  {
    var h := w.server.history;
    var flow := w.wire.flows[act.flow];
    var r := Do(c, p, w, act).record;
    if act.StoreEvents? {
      StoreStretch(w.record, flow.events, h);
    } else {
      ApplySnapshotExact(w.record, flow.snapshot, h);
    }
    WireGrows(w.wire, h, w.record.applied, h, r.applied);
  }

  lemma GotoKeepsSafe(wire: Wire, f: nat, flow: Flow, history: seq<Event>, n: nat)
    requires WireSafe(wire, history, n) && FlowSafe(flow, history, n)
    ensures WireSafe(Goto(wire, f, flow), history, n)
  {
  }

  lemma ClientStepKeepsSafe<V>(c: Client, p: Projection<V>, w: World, act: Act)
    requires Safe(c, w) && Possible(c, p, w, act)
    requires !act.Serve? && !act.ReadEvents? && !act.CommitAck? && !act.StoreEvents? && !act.StoreSnapshot?
    ensures Safe(c, Do(c, p, w, act))
  {
    var h, n := w.server.history, w.record.applied;
    match act
    case Deliver(f, events) => GotoKeepsSafe(w.wire, f, GotBatch(events), h, n);
    case ReadApplied(f) =>
      var events := w.wire.flows[f].events;
      FilterKeepsStretch(events, h, n);
      GotoKeepsSafe(w.wire, f, Filtered(Above(events, n)), h, n);
    case ReadBack(f) => GotoKeepsSafe(w.wire, f, AckReady(n), h, n);
    case SendAck(f) => GotoKeepsSafe(w.wire.(acks := w.wire.acks + {w.wire.flows[f].seqNo}), f, Idle, h, n);
    case AskSnapshot(f) => GotoKeepsSafe(w.wire, f, Waiting, h, n);
    case ServeSnapshot(f) =>
      LatestExact(w.server.snapshots, c.snapshotType, c.maxVersion);
      var s := Latest(w.server.snapshots, c.snapshotType, c.maxVersion).value;
      GotoKeepsSafe(w.wire, f, GotSnapshot(s), h, n);
    case Crash(f) => GotoKeepsSafe(w.wire, f, Idle, h, n);
    case _ =>
  }

  lemma StepKeepsSafe<V>(c: Client, p: Projection<V>, w: World, act: Act)
    requires Safe(c, w) && Possible(c, p, w, act)
    ensures Safe(c, Do(c, p, w, act))
  {
    match act
    case Serve(step) => ServeKeepsSafe(c, p, w, step);
    case ReadEvents(call) => ReadEventsKeepsSafe(c, p, w, call);
    case CommitAck(q) => CommitAckKeepsSafe(c, p, w, q);
    case StoreEvents(_) => RecordStepKeepsSafe(c, p, w, act);
    case StoreSnapshot(_) => RecordStepKeepsSafe(c, p, w, act);
    case _ => ClientStepKeepsSafe(c, p, w, act);
  }

  lemma InitialInv()
    ensures LogServer.Inv(INITIAL)
  {
  }

  lemma EmptyRecordIsContiguous()
    ensures Contiguous(EMPTY_RECORD, [])
  {
  }

  lemma StartWireIsSafe(flows: set<nat>)
    ensures WireSafe(Start(flows).wire, [], 0)
  {
  }

  lemma StartIsSafe(c: Client, flows: set<nat>)
    ensures Safe(c, Start(flows))
  {
    InitialInv();
    EmptyRecordIsContiguous();
    StartWireIsSafe(flows);
  }

  lemma {:induction false} AlwaysSafe<V>(c: Client, p: Projection<V>, flows: set<nat>, run: seq<World>,
                                         acts: seq<Act>, i: nat)
    requires IsExecution(c, p, flows, run, acts) && i < |run|
    ensures Safe(c, run[i])
  {
    if i == 0 {
      StartIsSafe(c, flows);
    } else {
      AlwaysSafe(c, p, flows, run, acts, i - 1);
      StepKeepsSafe(c, p, run[i - 1], acts[i - 1]);
    }
  }

  // A batch is a stretch of the log, named by its own numbers, that leaves no gap after number n.
  ghost predicate Joins(b: seq<Event>, history: seq<Event>, n: nat) {
    b != [] ==>
      var first := b[0].seqNo;
      1 <= first <= n + 1 && first - 1 + |b| <= |history| && b == history[first - 1..first - 1 + |b|]
  }

  lemma StretchJoins(b: seq<Event>, history: seq<Event>, n: nat)
    requires Numbered(history) && Stretch(b, history, n)
    ensures Joins(b, history, n)
  {
    var lo: nat :| lo <= n && StretchAt(b, history, lo);
    assert b != [] ==> b[0] == history[lo];
  }

  /**
   Commit safety in every reachable state, for any number of flows: the server's cursor never passes
   what the client durably applied, which never passes the head. The stored events are a stretch of
   the log, and every batch ever produced joins it without a gap.
   */
  lemma CommitSafety<V>(c: Client, p: Projection<V>, flows: set<nat>, run: seq<World>, acts: seq<Act>, i: nat)
    requires IsExecution(c, p, flows, run, acts) && i < |run|
    ensures var w := run[i];
            && CursorOf(w.server, c.id) <= w.record.applied <= w.server.stream.head == |w.server.history|
            && 0 <= Base(w.record)
            && w.record.events == w.server.history[Base(w.record)..w.record.applied]
            && (forall b | b in w.wire.batches :: Joins(b, w.server.history, w.record.applied))
            && (forall q | q in w.wire.acks :: q <= w.record.applied)
  {
    AlwaysSafe(c, p, flows, run, acts, i);
    var w := run[i];
    forall b | b in w.wire.batches ensures Joins(b, w.server.history, w.record.applied) {
      StretchJoins(b, w.server.history, w.record.applied);
    }
  }

  // ---------------------------------------------------------------- projection correctness

  /** Every snapshot offered to the client, in flight or applied holds the fold of the log up to its number. */
  ghost predicate Truthful<V>(c: Client, p: Projection<V>, w: World) {
    && (forall k | k in w.server.snapshots && ServedTo(c, k) :: Faithful(p, w.server.snapshots[k], w.server.history))
    && FaithfulRecord(p, w.record, w.server.history)
    && (forall f | f in w.wire.flows && w.wire.flows[f].GotSnapshot? ::
          Faithful(p, w.wire.flows[f].snapshot, w.server.history))
  }

  lemma FaithfulGrows<V>(p: Projection<V>, snapshot: Snapshot, history: seq<Event>, history': seq<Event>)
    requires Faithful(p, snapshot, history) && history <= history'
    ensures Faithful(p, snapshot, history')
  {
    assert history[..snapshot.seqNo] == history'[..snapshot.seqNo];
  }

  lemma ServeKeepsTruthful<V>(c: Client, p: Projection<V>, w: World, step: LogServer.Step)
    requires LogServer.Inv(w.server) && Truthful(c, p, w) && Possible(c, p, w, Serve(step))
    ensures Truthful(c, p, Do(c, p, w, Serve(step)))
  {
    TakeKeepsInv(w.server, step);
    var h, t := w.server.history, Take(w.server, step);
    forall k | k in t.snapshots && ServedTo(c, k) ensures Faithful(p, t.snapshots[k], t.history) {
      FaithfulGrows(p, t.snapshots[k], h, t.history);
    }
    if w.record.snapshot.Some? { FaithfulGrows(p, w.record.snapshot.value, h, t.history); }
    forall f | f in w.wire.flows && w.wire.flows[f].GotSnapshot?
      ensures Faithful(p, w.wire.flows[f].snapshot, t.history)
    {
      FaithfulGrows(p, w.wire.flows[f].snapshot, h, t.history);
    }
  }

  lemma {:induction false} ApplyEventsKeepsSnapshot(r: Record, events: seq<Event>)
    ensures ApplyEvents(r, events).snapshot == r.snapshot
    decreases |events|
  {
    if events != [] {
      var e := events[0];
      var next := if e.seqNo <= r.applied then r else Record(e.seqNo, r.snapshot, r.events + [e]);
      ApplyEventsKeepsSnapshot(next, events[1..]);
    }
  }

  lemma StepKeepsTruthful<V>(c: Client, p: Projection<V>, w: World, act: Act)
    requires LogServer.Inv(w.server) && Truthful(c, p, w) && Possible(c, p, w, act)
    ensures Truthful(c, p, Do(c, p, w, act))
  {
    match act
    case Serve(step) => ServeKeepsTruthful(c, p, w, step);
    case StoreEvents(f) => ApplyEventsKeepsSnapshot(w.record, w.wire.flows[f].events);
    case ServeSnapshot(f) => LatestExact(w.server.snapshots, c.snapshotType, c.maxVersion);
    case _ =>
  }

  // The one step that can open a hole: storing a snapshot older than where the stored events start.
  ghost predicate Guarded(w: World, act: Act) {
    act.StoreSnapshot? && At(w, act.flow, (x: Flow) => x.GotSnapshot?) ==>
      w.wire.flows[act.flow].snapshot.seqNo >= Base(w.record)
  }

  // The most recent snapshot stored, if any, was not older than where the stored events started.
  ghost predicate LastStoreGuarded(run: seq<World>, acts: seq<Act>, i: nat)
    requires i <= |acts| && i <= |run|
  {
    if i == 0 then true
    else if acts[i - 1].StoreSnapshot? then Guarded(run[i - 1], acts[i - 1])
    else LastStoreGuarded(run, acts, i - 1)
  }

  lemma StepMovesHole<V>(c: Client, p: Projection<V>, w: World, act: Act)
    requires Safe(c, w) && Possible(c, p, w, act)
    ensures NoHole(Do(c, p, w, act).record) <==> if act.StoreSnapshot? then Guarded(w, act) else NoHole(w.record)
  {
    match act
    case StoreEvents(f) => StoreStretch(w.record, w.wire.flows[f].events, w.server.history);
    case StoreSnapshot(f) => ApplySnapshotExact(w.record, w.wire.flows[f].snapshot, w.server.history);
    case _ =>
  }

  lemma {:induction false} AlwaysTruthful<V>(c: Client, p: Projection<V>, flows: set<nat>, run: seq<World>,
                                             acts: seq<Act>, i: nat)
    requires IsExecution(c, p, flows, run, acts) && i < |run|
    ensures Truthful(c, p, run[i])
  {
    if i > 0 {
      AlwaysTruthful(c, p, flows, run, acts, i - 1);
      AlwaysSafe(c, p, flows, run, acts, i - 1);
      StepKeepsTruthful(c, p, run[i - 1], acts[i - 1]);
    }
  }

  lemma {:induction false} HoleExact<V>(c: Client, p: Projection<V>, flows: set<nat>, run: seq<World>, acts: seq<Act>,
                                        i: nat)
    requires IsExecution(c, p, flows, run, acts) && i < |run|
    ensures NoHole(run[i].record) <==> LastStoreGuarded(run, acts, i)
  {
    if i > 0 {
      HoleExact(c, p, flows, run, acts, i - 1);
      AlwaysSafe(c, p, flows, run, acts, i - 1);
      StepMovesHole(c, p, run[i - 1], acts[i - 1]);
    }
  }

  // The client's view is the fold of the log up to its applied number.
  ghost predicate ShowsLog<V>(p: Projection<V>, w: World) {
    && w.record.applied <= |w.server.history|
    && View(p, w.record) == Fold(p, p.init, w.server.history[..w.record.applied])
  }

  /**
   Projection correctness for any number of flows: unless the last snapshot stored was older than where
   the stored events started, the client's view is the fold of the log up to its applied number.
   */
  lemma ProjectionCorrect<V>(c: Client, p: Projection<V>, flows: set<nat>, run: seq<World>, acts: seq<Act>, i: nat)
    requires IsExecution(c, p, flows, run, acts) && i < |run|
    requires LastStoreGuarded(run, acts, i)
    ensures ShowsLog(p, run[i])
  {
    AlwaysSafe(c, p, flows, run, acts, i);
    AlwaysTruthful(c, p, flows, run, acts, i);
    HoleExact(c, p, flows, run, acts, i);
    ViewIsFold(p, run[i].record, run[i].server.history);
  }

  lemma JournalIsRight(c: Client, p: Projection<seq<Event>>, w: World)
    requires IsJournal(p) && Contiguous(w.record, w.server.history) && Truthful(c, p, w)
    ensures ShowsLog(p, w) <==> NoHole(w.record)
  {
    JournalShowsHole(p, w.record, w.server.history);
    var shown := w.server.history[..w.record.applied];
    JournalFold(p, [], shown);
    assert [] + shown == shown;
  }

  /**
   The condition is exact: in every reachable state of every run the journal is right if and only if the
   last snapshot stored, if any, reached back to where the stored events started.
   */
  lemma GuardIsExact(c: Client, p: Projection<seq<Event>>, flows: set<nat>, run: seq<World>, acts: seq<Act>, i: nat)
    requires IsJournal(p) && IsExecution(c, p, flows, run, acts) && i < |run|
    ensures ShowsLog(p, run[i]) <==> LastStoreGuarded(run, acts, i)
  {
    AlwaysSafe(c, p, flows, run, acts, i);
    AlwaysTruthful(c, p, flows, run, acts, i);
    HoleExact(c, p, flows, run, acts, i);
    JournalIsRight(c, p, run[i]);
  }

  // ---------------------------------------------------------------- one flow at a time

  ghost function LatestSeq(c: Client, s: Server): nat {
    var r := Latest(s.snapshots, c.snapshotType, c.maxVersion);
    if r.Some? then r.value.seqNo else 0
  }

  /** With a single flow the snapshot about to be stored is never older than the stored events' start. */
  ghost predicate Solo(c: Client, w: World, f: nat) {
    && w.wire.flows.Keys == {f}
    && Base(w.record) <= LatestSeq(c, w.server)
    && (w.wire.flows[f].GotSnapshot? ==>
          Base(w.record) <= w.wire.flows[f].snapshot.seqNo <= LatestSeq(c, w.server))
  }

  lemma LatestNeverDrops(c: Client, s: Server, step: LogServer.Step)
    requires LogServer.Inv(s)
    ensures LatestSeq(c, s) <= LatestSeq(c, Take(s, step))
  {
    if step.StepPut? { PutNeverLowersLatest(s.snapshots, step.snapshot, c.snapshotType, c.maxVersion); }
  }

  lemma StepKeepsSolo<V>(c: Client, p: Projection<V>, w: World, act: Act, f: nat)
    requires Safe(c, w) && Solo(c, w, f) && Possible(c, p, w, act)
    ensures Solo(c, Do(c, p, w, act), f) && Guarded(w, act)
  {
    match act
    case Serve(step) => LatestNeverDrops(c, w.server, step);
    case StoreEvents(_) => StoreStretch(w.record, w.wire.flows[f].events, w.server.history);
    case StoreSnapshot(_) => ApplySnapshotExact(w.record, w.wire.flows[f].snapshot, w.server.history);
    case _ =>
  }

  lemma {:induction false} AlwaysSolo<V>(c: Client, p: Projection<V>, f: nat, run: seq<World>, acts: seq<Act>, i: nat)
    requires IsExecution(c, p, {f}, run, acts) && i < |run|
    ensures Solo(c, run[i], f)
    ensures LastStoreGuarded(run, acts, i)
  {
    if i > 0 {
      AlwaysSolo(c, p, f, run, acts, i - 1);
      AlwaysSafe(c, p, {f}, run, acts, i - 1);
      StepKeepsSolo(c, p, run[i - 1], acts[i - 1], f);
    }
  }

  /**
   End to end, for a subscriber with one flow at a time: after any run of appends, truncations,
   retention, snapshots and other subscribers' acks, with stale, repeated and lost batches and acks
   and a crash at any await, the client's view is the fold of the log up to its applied number.
   */
  lemma EndToEndCorrect<V>(c: Client, p: Projection<V>, f: nat, run: seq<World>, acts: seq<Act>, i: nat)
    requires IsExecution(c, p, {f}, run, acts) && i < |run|
    ensures var w := run[i];
            ShowsLog(p, w) && CursorOf(w.server, c.id) <= w.record.applied <= w.server.stream.head
  {
    AlwaysSolo(c, p, f, run, acts, i);
    ProjectionCorrect(c, p, {f}, run, acts, i);
    AlwaysSafe(c, p, {f}, run, acts, i);
  }
}
