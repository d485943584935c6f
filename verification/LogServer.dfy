/**
 The log as one stream's subscribers see it: the stream, everybody's committed cursors and the
 stored snapshots, moved by the store's critical sections one at a time. A run is any interleaving
 of those sections, so a call made of several sections can meet any of the run's states in order.
 */
module LogServer {
  import opened Types
  import opened StreamLog

  datatype SnapshotKey = SnapshotKey(seqNo: nat, payloadType: string, payloadVersion: nat)

  datatype Server = Server(
    stream: Stream,
    history: seq<Event>,          // everything ever assigned, retained or not
    cursors: map<string, nat>,    // per subscriber
    snapshots: map<SnapshotKey, Snapshot>)

  const INITIAL := Server(EMPTY_STREAM, [], map[], map[])

  // ---------------------------------------------------------------- cursors and snapshots

  function CursorOf(s: Server, subscriber: string): nat {
    if subscriber in s.cursors then s.cursors[subscriber] else 0
  }

  function Ack(s: Server, subscriber: string, q: nat): Server {
    if q > CursorOf(s, subscriber) then s.(cursors := s.cursors[subscriber := q]) else s
  }

  function KeyOf(snapshot: Snapshot): SnapshotKey {
    SnapshotKey(snapshot.seqNo, snapshot.payloadType, snapshot.payloadVersion)
  }

  function Put(snapshots: map<SnapshotKey, Snapshot>, snapshot: Snapshot): map<SnapshotKey, Snapshot> {
    var key := KeyOf(snapshot);
    if key in snapshots && snapshots[key].checksum == snapshot.checksum then snapshots
    else snapshots[key := snapshot]
  }

  ghost predicate Keyed(snapshots: map<SnapshotKey, Snapshot>) {
    forall k | k in snapshots :: KeyOf(snapshots[k]) == k
  }

  predicate Compatible(k: SnapshotKey, payloadType: string, maxVersion: nat) {
    k.payloadType == payloadType && (maxVersion == 0 || k.payloadVersion <= maxVersion)
  }

  // Lexicographic order on (seq, version).
  predicate AtMost(a: SnapshotKey, b: SnapshotKey) {
    a.seqNo < b.seqNo || (a.seqNo == b.seqNo && a.payloadVersion <= b.payloadVersion)
  }

  ghost predicate IsLatest(keys: set<SnapshotKey>, k: SnapshotKey, payloadType: string, maxVersion: nat) {
    && k in keys
    && Compatible(k, payloadType, maxVersion)
    && forall o | o in keys && Compatible(o, payloadType, maxVersion) :: AtMost(o, k)
  }

  /** The snapshot a recovery is served: the greatest compatible key, if there is any compatible one. */
  ghost function Latest(snapshots: map<SnapshotKey, Snapshot>, payloadType: string, maxVersion: nat): Option<Snapshot> {
    if exists k :: IsLatest(snapshots.Keys, k, payloadType, maxVersion) then
      var k :| IsLatest(snapshots.Keys, k, payloadType, maxVersion);
      Some(snapshots[k])
    else None
  }

  lemma LatestIsUnique(keys: set<SnapshotKey>, a: SnapshotKey, b: SnapshotKey, payloadType: string, maxVersion: nat)
    requires IsLatest(keys, a, payloadType, maxVersion) && IsLatest(keys, b, payloadType, maxVersion)
    ensures a == b
  {
    assert AtMost(a, b) && AtMost(b, a);
  }

  lemma {:induction false} LatestExists(keys: set<SnapshotKey>, c: SnapshotKey, payloadType: string, maxVersion: nat)
    requires c in keys && Compatible(c, payloadType, maxVersion)
    ensures exists k :: IsLatest(keys, k, payloadType, maxVersion) && AtMost(c, k)
    decreases keys
  {
    var rest := keys - {c};
    if d :| d in rest && Compatible(d, payloadType, maxVersion) {
      LatestExists(rest, d, payloadType, maxVersion);
      var k :| IsLatest(rest, k, payloadType, maxVersion);
      assert IsLatest(keys, if AtMost(c, k) then k else c, payloadType, maxVersion);
    } else {
      assert forall o | o in keys && Compatible(o, payloadType, maxVersion) :: o == c;
      assert IsLatest(keys, c, payloadType, maxVersion);
    }
  }

  /** The result of Latest is a function of the stored keys alone: it is the one greatest compatible entry. */
  lemma LatestExact(snapshots: map<SnapshotKey, Snapshot>, payloadType: string, maxVersion: nat)
    requires Keyed(snapshots)
    ensures var r := Latest(snapshots, payloadType, maxVersion);
            && (r.None? <==> forall k | k in snapshots :: !Compatible(k, payloadType, maxVersion))
            && (r.Some? ==> IsLatest(snapshots.Keys, KeyOf(r.value), payloadType, maxVersion)
                            && snapshots[KeyOf(r.value)] == r.value)
            && (forall k | IsLatest(snapshots.Keys, k, payloadType, maxVersion) :: r == Some(snapshots[k]))
  {
    if c :| c in snapshots.Keys && Compatible(c, payloadType, maxVersion) {
      LatestExists(snapshots.Keys, c, payloadType, maxVersion);
      var r := Latest(snapshots, payloadType, maxVersion);
      forall k | IsLatest(snapshots.Keys, k, payloadType, maxVersion) ensures r == Some(snapshots[k]) {
        LatestIsUnique(snapshots.Keys, k, KeyOf(r.value), payloadType, maxVersion);
      }
    }
  }

  /**
   The snapshot served to a client is of the type it asked for and within its version cap, and no stored
   one of that type within that cap is newer; none is served if and only if none is stored.
   */
  lemma LatestServes(snapshots: map<SnapshotKey, Snapshot>, payloadType: string, maxVersion: nat)
    requires Keyed(snapshots)
    ensures var r := Latest(snapshots, payloadType, maxVersion);
            && (r.Some? ==>
                  && r.value in snapshots.Values
                  && r.value.payloadType == payloadType
                  && (maxVersion == 0 || r.value.payloadVersion <= maxVersion)
                  && (forall o | o in snapshots.Values && o.payloadType == payloadType
                                 && (maxVersion == 0 || o.payloadVersion <= maxVersion) ::
                        o.seqNo < r.value.seqNo
                        || (o.seqNo == r.value.seqNo && o.payloadVersion <= r.value.payloadVersion)))
            && (r.None? <==> forall o | o in snapshots.Values ::
                               o.payloadType != payloadType || (maxVersion > 0 && o.payloadVersion > maxVersion))
  {
    LatestExact(snapshots, payloadType, maxVersion);
    forall o | o in snapshots.Values
      ensures KeyOf(o) in snapshots && snapshots[KeyOf(o)] == o
      ensures Compatible(KeyOf(o), payloadType, maxVersion) <==>
              o.payloadType == payloadType && (maxVersion == 0 || o.payloadVersion <= maxVersion)
    {
      var k :| k in snapshots && snapshots[k] == o;
    }
    assert forall k | k in snapshots :: snapshots[k] in snapshots.Values;
  }

  // Two snapshots the store cannot hold side by side.
  predicate SameSlot(a: Snapshot, b: Snapshot) {
    a.seqNo == b.seqNo && a.payloadType == b.payloadType && a.payloadVersion == b.payloadVersion
  }

  /**
   Storing a snapshot: one of the same number, type and version is kept if its checksum is equal and
   replaced if it is not; every other snapshot stays, and nothing else appears.
   */
  lemma PutExact(snapshots: map<SnapshotKey, Snapshot>, snapshot: Snapshot)
    requires Keyed(snapshots)
    ensures var after := Put(snapshots, snapshot).Values;
            forall o :: o in after <==>
              || (o in snapshots.Values && (!SameSlot(o, snapshot) || o.checksum == snapshot.checksum))
              || (o == snapshot
                  && forall other | other in snapshots.Values && SameSlot(other, snapshot) ::
                       other.checksum != snapshot.checksum)
  {
    var key, after := KeyOf(snapshot), Put(snapshots, snapshot);
    forall o | o in snapshots.Values ensures SameSlot(o, snapshot) <==> key in snapshots && snapshots[key] == o {
      var k :| k in snapshots && snapshots[k] == o;
    }
    forall o ensures o in after.Values <==>
                     if key in snapshots && snapshots[key].checksum == snapshot.checksum then o in snapshots.Values
                     else o == snapshot || (o in snapshots.Values && !SameSlot(o, snapshot))
    {
      if o in snapshots.Values {
        var k :| k in snapshots && snapshots[k] == o;
        assert k != key ==> k in after && after[k] == o;
      }
      if o in after.Values {
        var k :| k in after && after[k] == o;
      }
      assert key in after;
    }
  }

  /** Storing a snapshot never lowers the latest sequence number a fixed client is served. */
  lemma PutNeverLowersLatest(snapshots: map<SnapshotKey, Snapshot>, snapshot: Snapshot, payloadType: string,
                             maxVersion: nat)
    requires Keyed(snapshots)
    ensures Keyed(Put(snapshots, snapshot))
    ensures var r := Latest(snapshots, payloadType, maxVersion);
            var r' := Latest(Put(snapshots, snapshot), payloadType, maxVersion);
            r.Some? ==> r'.Some? && r.value.seqNo <= r'.value.seqNo
  {
    var after := Put(snapshots, snapshot);
    LatestExact(snapshots, payloadType, maxVersion);
    LatestExact(after, payloadType, maxVersion);
    var r := Latest(snapshots, payloadType, maxVersion);
    if r.Some? { assert KeyOf(r.value) in after.Keys; }
  }

  // ---------------------------------------------------------------- steps and runs

  datatype Step =
    | StepAppend(req: AppendRequest, retention: Option<Retention>, nowMs: int)
    | StepTruncate(before: nat)
    | StepRetain(retention: Option<Retention>, nowMs: int)
    | StepAck(subscriber: string, seqNo: nat)
    | StepPut(snapshot: Snapshot)

  // Engine.Ack refuses to commit beyond the head; every other section may always run.
  predicate Enabled(s: Server, step: Step) {
    step.StepAck? ==> step.seqNo <= s.stream.head
  }

  function AppendEvent(s: Server, req: AppendRequest, r: Option<Retention>, nowMs: int): Server {
    s.(stream := Append(s.stream, req, r, nowMs).0, history := HistoryAfterAppend(s.stream, s.history, req))
  }

  function TruncateLog(s: Server, before: nat): Server {
    s.(stream := Truncate(s.stream, before))
  }

  function RetainLog(s: Server, r: Option<Retention>, nowMs: int): Server {
    s.(stream := Retain(s.stream, r, nowMs))
  }

  function PutSnapshot(s: Server, snapshot: Snapshot): Server {
    s.(snapshots := Put(s.snapshots, snapshot))
  }

  function Take(s: Server, step: Step): Server {
    match step
    case StepAppend(req, r, nowMs) => AppendEvent(s, req, r, nowMs)
    case StepTruncate(before) => TruncateLog(s, before)
    case StepRetain(r, nowMs) => RetainLog(s, r, nowMs)
    case StepAck(subscriber, q) => Ack(s, subscriber, q)
    case StepPut(snapshot) => PutSnapshot(s, snapshot)
  }

  ghost predicate Next(s: Server, t: Server) {
    exists step :: Enabled(s, step) && t == Take(s, step)
  }

  ghost predicate IsRun(run: seq<Server>) {
    && |run| > 0
    && run[0] == INITIAL
    && forall i | 0 < i < |run| :: Next(run[i - 1], run[i])
  }

  ghost predicate Inv(s: Server) {
    && Represents(s.stream, s.history)
    && (forall c | c in s.cursors :: s.cursors[c] <= s.stream.head)
    && Keyed(s.snapshots)
  }

  // What no step ever takes back.
  ghost predicate Later(s: Server, t: Server) {
    && s.history <= t.history
    && s.stream.retained <= t.stream.retained
    && (forall c | c in s.cursors :: c in t.cursors && s.cursors[c] <= t.cursors[c])
  }

  lemma TakeKeepsInv(s: Server, step: Step)
    requires Inv(s) && Enabled(s, step)
    ensures Inv(Take(s, step)) && Later(s, Take(s, step))
  {
    match step
    case StepAppend(req, r, nowMs) => AppendKeepsRepresents(s.stream, s.history, req, r, nowMs);
    case StepTruncate(before) => TruncateKeepsRepresents(s.stream, s.history, before);
    case StepRetain(r, nowMs) => RetainKeepsRepresents(s.stream, s.history, r, nowMs);
    case StepAck(_, _) =>
    case StepPut(snapshot) => PutNeverLowersLatest(s.snapshots, snapshot, "", 0);
  }

  lemma LaterTransitive(s: Server, t: Server, u: Server)
    requires Later(s, t) && Later(t, u)
    ensures Later(s, u)
  {
  }

  lemma NextKeepsInv(s: Server, t: Server)
    requires Inv(s) && Next(s, t)
    ensures Inv(t) && Later(s, t)
  {
    var step :| Enabled(s, step) && t == Take(s, step);
    TakeKeepsInv(s, step);
  }

  lemma {:induction false} RunInv(run: seq<Server>, i: nat)
    requires IsRun(run) && i < |run|
    ensures Inv(run[i])
  {
    if i > 0 {
      RunInv(run, i - 1);
      NextKeepsInv(run[i - 1], run[i]);
    }
  }

  /** Every state of a run satisfies the invariant, and nothing durable is lost between two of them. */
  lemma {:induction false} RunInvariant(run: seq<Server>, i: nat, j: nat)
    requires IsRun(run) && i <= j < |run|
    ensures Inv(run[i]) && Inv(run[j]) && Later(run[i], run[j])
    decreases j - i
  {
    RunInv(run, i);
    RunInv(run, j);
    if i < j {
      RunInvariant(run, i, j - 1);
      NextKeepsInv(run[j - 1], run[j]);
      LaterTransitive(run[i], run[j - 1], run[j]);
    }
  }

  lemma CursorMonotone(s: Server, t: Server, subscriber: string)
    requires Later(s, t)
    ensures CursorOf(s, subscriber) <= CursorOf(t, subscriber)
  {
  }

  /** An event that is gone stays gone, and a retained boundary only moves up. */
  lemma GoneForGood(s: Server, t: Server, q: nat)
    requires Inv(s) && Inv(t) && Later(s, t) && Gone(s.stream, q)
    ensures Gone(t.stream, q)
  {
    ReplayTooOldExact(s.stream, s.history, q - 1);
    ReplayTooOldExact(t.stream, t.history, q - 1);
  }

  // ---------------------------------------------------------------- conservation

  // How many of these events the policy takes away.
  function RemovedByPolicy(events: seq<Event>, r: Option<Retention>, nowMs: int): nat {
    if r.None? then 0 else Removals(events, r.value, nowMs)
  }

  // How many events a step takes away: those under the cut, or those retention counts.
  function RemovedBy(s: Server, step: Step): nat {
    match step
    case StepAppend(req, r, nowMs) =>
      if IsRetry(s.stream, req) then 0 else RemovedByPolicy(Push(s.stream, req).events, r, nowMs)
    case StepTruncate(before) => CountBelow(s.stream.events, before)
    case StepRetain(r, nowMs) => RemovedByPolicy(s.stream.events, r, nowMs)
    case StepAck(_, _) => 0
    case StepPut(_) => 0
  }

  // A run together with the step taken in each of its states.
  ghost predicate IsRunOf(run: seq<Server>, steps: seq<Step>) {
    && |run| == |steps| + 1
    && run[0] == INITIAL
    && forall i | 0 <= i < |steps| :: Enabled(run[i], steps[i]) && run[i + 1] == Take(run[i], steps[i])
  }

  /** Every run is the run of some steps, and the other way round. */
  lemma RunHasSteps(run: seq<Server>) returns (steps: seq<Step>)
    requires IsRun(run)
    ensures IsRunOf(run, steps)
  {
    hide Take, Enabled;
    steps := [];
    for i := 1 to |run|
      invariant |steps| == i - 1
      invariant forall j | 0 <= j < i - 1 :: Enabled(run[j], steps[j]) && run[j + 1] == Take(run[j], steps[j])
    {
      assert Next(run[i - 1], run[i]);
      var step :| Enabled(run[i - 1], step) && run[i] == Take(run[i - 1], step);
      steps := steps + [step];
    }
  }

  lemma StepsMakeRun(run: seq<Server>, steps: seq<Step>)
    requires IsRunOf(run, steps)
    ensures IsRun(run)
  {
    forall i | 0 < i < |run| ensures Next(run[i - 1], run[i]) {
      assert Enabled(run[i - 1], steps[i - 1]) && run[i] == Take(run[i - 1], steps[i - 1]);
    }
  }

  // Events assigned by the step.
  function AssignedBy(s: Server, step: Step): nat {
    if step.StepAppend? && !IsRetry(s.stream, step.req) then 1 else 0
  }

  lemma StepBalance(s: Server, step: Step)
    ensures var t := Take(s, step);
            && |t.stream.events| == |s.stream.events| + AssignedBy(s, step) - RemovedBy(s, step)
            && |t.history| == |s.history| + AssignedBy(s, step)
  {
  }

  function RemovedUpTo(run: seq<Server>, steps: seq<Step>, i: nat): nat
    requires i <= |steps| && i <= |run|
  {
    if i == 0 then 0 else RemovedUpTo(run, steps, i - 1) + RemovedBy(run[i - 1], steps[i - 1])
  }

  /**
   Conservation: the head is the number of events taken away by truncation and retention so far plus
   the number still held, and the boundary is one past those taken away.
   */
  lemma {:induction false} Conservation(run: seq<Server>, steps: seq<Step>, i: nat)
    requires IsRunOf(run, steps) && i < |run|
    ensures var s := run[i].stream;
            && s.head == RemovedUpTo(run, steps, i) + |s.events|
            && (s.head > 0 ==> s.retained == RemovedUpTo(run, steps, i) + 1)
  {
    StepsMakeRun(run, steps);
    RunInv(run, i);
    if i > 0 {
      Conservation(run, steps, i - 1);
      RunInv(run, i - 1);
      StepBalance(run[i - 1], steps[i - 1]);
    }
  }

  // ---------------------------------------------------------------- idempotency

  /**
   Once a key is known it stands for the same history position, carrying the same event, in every later
   state of the run.
   */
  lemma KeyStaysForEver(run: seq<Server>, i: nat, j: nat, key: string)
    requires IsRun(run) && i <= j < |run| && key in run[i].stream.index
    ensures var q := run[i].stream.index[key];
            && key in run[j].stream.index && run[j].stream.index[key] == q
            && 1 <= q <= |run[i].history| <= |run[j].history| && run[j].history[q - 1] == run[i].history[q - 1]
            && run[i].history[q - 1].idempotencyKey == key
  {
    RunInvariant(run, i, j);
    var q := run[i].stream.index[key];
    assert Carries(run[i].history, q, key);
    assert Carries(run[j].history, q, key);
  }

  // ---------------------------------------------------------------- compaction

  // The lowest cursor on record; CompactStream cuts just above it.
  ghost predicate IsMinimum(cursors: map<string, nat>, m: nat) {
    && (exists c | c in cursors :: cursors[c] == m)
    && (forall c | c in cursors :: m <= cursors[c])
  }

  predicate Replayable(s: Server, cursor: nat) {
    !ReplayTooOld(cursor, s.stream.retained)
  }

  /**
   CompactStream computes the minimum at one point of a run and cuts at a later one, with any steps
   in between. Exactly the cursors below both that minimum and the head lose their replay, so no
   subscriber that had a record when the minimum was computed does.
   */
  lemma CompactionSafe(run: seq<Server>, i: nat, j: nat, m: nat, subscriber: string)
    requires IsRun(run) && i <= j < |run|
    requires IsMinimum(run[i].cursors, m)
    ensures var cut := Take(run[j], StepTruncate(m + 1));
            && (forall c: nat :: Replayable(cut, c) <==> Replayable(run[j], c) && c >= Min(m, run[j].stream.head))
            && (subscriber in run[i].cursors ==>
                  (Replayable(cut, CursorOf(cut, subscriber)) <==> Replayable(run[j], CursorOf(run[j], subscriber))))
  {
    RunInvariant(run, i, j);
    forall c: nat
      ensures ReplayTooOld(c, Truncate(run[j].stream, m + 1).retained) <==>
              ReplayTooOld(c, run[j].stream.retained) || c < Min(m, run[j].stream.head)
    {
      TruncateReplayableExact(run[j].stream, run[j].history, m + 1, c);
    }
  }
}
