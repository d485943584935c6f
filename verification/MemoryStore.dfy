/**
 The in-memory store (internal/storage/memory/store.go): streams, cursors, snapshots and retention
 settings behind one mutex. Each method is one critical section, run in place; its contract says
 which step of the pure log server it takes for its own stream and that every other stream is left
 exactly as it was.
 */
module MemoryStore {
  import opened Types
  import opened StreamLog
  import opened LogServer
  import opened CoreEngine

  datatype CursorKey = CursorKey(subscriberId: string, streamId: string)

  datatype CursorRecord = CursorRecord(seqNo: nat, metadata: string)

  datatype StoredKey = StoredKey(streamId: string, key: SnapshotKey)

  // One stream's part of the cursor table and of the snapshot table.
  function CursorsOf(cursors: map<CursorKey, CursorRecord>, streamId: string): map<string, nat> {
    map k | k in cursors && k.streamId == streamId :: k.subscriberId := cursors[k].seqNo
  }

  function SnapshotsOf(snapshots: map<StoredKey, Snapshot>, streamId: string): map<SnapshotKey, Snapshot> {
    map k | k in snapshots && k.streamId == streamId :: k.key := snapshots[k]
  }

  lemma CursorsOfUpdate(cursors: map<CursorKey, CursorRecord>, k: CursorKey, r: CursorRecord, streamId: string)
    ensures CursorsOf(cursors[k := r], streamId) ==
            if k.streamId == streamId then CursorsOf(cursors, streamId)[k.subscriberId := r.seqNo]
            else CursorsOf(cursors, streamId)
  {
    var after := CursorsOf(cursors[k := r], streamId);
    forall c ensures c in after <==> CursorKey(c, streamId) in cursors[k := r] {
      if CursorKey(c, streamId) in cursors[k := r] { assert CursorKey(c, streamId).subscriberId in after; }
    }
    forall c ensures c in CursorsOf(cursors, streamId) <==> CursorKey(c, streamId) in cursors {
      if CursorKey(c, streamId) in cursors {
        assert CursorKey(c, streamId).subscriberId in CursorsOf(cursors, streamId);
      }
    }
  }

  lemma CursorsOfMember(cursors: map<CursorKey, CursorRecord>, streamId: string, subscriber: string)
    ensures subscriber in CursorsOf(cursors, streamId) <==> CursorKey(subscriber, streamId) in cursors
    ensures CursorKey(subscriber, streamId) in cursors ==>
              CursorsOf(cursors, streamId)[subscriber] == cursors[CursorKey(subscriber, streamId)].seqNo
  {
    if CursorKey(subscriber, streamId) in cursors {
      assert CursorKey(subscriber, streamId).subscriberId in CursorsOf(cursors, streamId);
    }
  }

  lemma SnapshotsOfMember(snapshots: map<StoredKey, Snapshot>, streamId: string, key: SnapshotKey)
    ensures key in SnapshotsOf(snapshots, streamId) <==> StoredKey(streamId, key) in snapshots
    ensures StoredKey(streamId, key) in snapshots ==>
              SnapshotsOf(snapshots, streamId)[key] == snapshots[StoredKey(streamId, key)]
  {
    if StoredKey(streamId, key) in snapshots {
      assert StoredKey(streamId, key).key in SnapshotsOf(snapshots, streamId);
    }
  }

  lemma SnapshotsOfUpdate(snapshots: map<StoredKey, Snapshot>, k: StoredKey, s: Snapshot, streamId: string)
    ensures SnapshotsOf(snapshots[k := s], streamId) ==
            if k.streamId == streamId then SnapshotsOf(snapshots, streamId)[k.key := s]
            else SnapshotsOf(snapshots, streamId)
  {
    forall key ensures key in SnapshotsOf(snapshots[k := s], streamId) <==>
        StoredKey(streamId, key) in snapshots[k := s] {
      SnapshotsOfMember(snapshots[k := s], streamId, key);
    }
    forall key ensures key in SnapshotsOf(snapshots, streamId) <==> StoredKey(streamId, key) in snapshots {
      SnapshotsOfMember(snapshots, streamId, key);
    }
  }

  lemma EmptyStaysEmpty(before: nat, r: Option<Retention>, nowMs: int)
    ensures Truncate(EMPTY_STREAM, before) == EMPTY_STREAM == Retain(EMPTY_STREAM, r, nowMs)
  {
  }

  datatype AppendResult = Done(outcome: AppendOutcome) | InvalidAppend

  // Lower cursor of the two, when there is one already.
  function Lower(m: Option<nat>, q: nat): Option<nat> {
    if m.None? || q < m.value then Some(q) else m
  }

  class Store {
    var streams: map<string, StreamState>
    var cursors: map<CursorKey, CursorRecord>
    var snapshots: map<StoredKey, Snapshot>
    var retention: map<string, Retention>
    ghost var Repr: set<StreamState>

    ghost predicate ValidStreams()
      reads this`streams, this`Repr, Repr
    {
      && (forall id | id in streams :: streams[id] in Repr && streams[id].Valid())
      && (forall a, b | a in streams && b in streams && streams[a] == streams[b] :: a == b)
    }

    ghost predicate Valid()
      reads this`streams, this`snapshots, this`Repr, Repr
    {
      ValidStreams() && forall k | k in snapshots :: KeyOf(snapshots[k]) == k.key
    }

    // An id without a stream behaves as an empty one.
    ghost function StreamOf(id: string): Stream
      requires ValidStreams()
      reads this`streams, this`Repr, Repr
    {
      if id in streams then streams[id].Value() else EMPTY_STREAM
    }

    ghost function HistoryOf(id: string): seq<Event>
      requires ValidStreams()
      reads this`streams, this`Repr, Repr
    {
      if id in streams then streams[id].history else []
    }

    /** The pure log server this store is, for one stream. */
    ghost function Of(id: string): Server
      requires ValidStreams()
      reads this`streams, this`cursors, this`snapshots, this`Repr, Repr
    {
      Server(StreamOf(id), HistoryOf(id), CursorsOf(cursors, id), SnapshotsOf(snapshots, id))
    }

    function RetentionOf(id: string): Option<Retention>
      reads this
    {
      if id in retention then Some(retention[id]) else None
    }

    // Running one stream in place leaves every other stream as it was.
    twostate lemma OnlyChanged(id: string)
      requires old(ValidStreams()) && streams == old(streams) && Repr == old(Repr)
      requires id in streams && streams[id].Valid()
      requires forall s: StreamState | s in Repr && s != streams[id] :: unchanged(s)
      ensures ValidStreams()
      ensures forall o | o != id :: StreamOf(o) == old(StreamOf(o)) && HistoryOf(o) == old(HistoryOf(o))
    {
      forall o | o in streams ensures streams[o].Valid() {
        if o != id { assert unchanged(streams[o]); }
      }
    }

    constructor ()
      ensures Valid() && fresh(Repr) && streams == map[] && cursors == map[] && snapshots == map[]
      ensures forall id :: RetentionOf(id) == None
    {
      streams, cursors, snapshots, retention := map[], map[], map[], map[];
      Repr := {};
    }

    method EnsureStream(id: string) returns (stream: StreamState)
      requires Valid()
      modifies this`streams, this`Repr
      ensures Valid() && fresh(Repr - old(Repr))
      ensures id in streams && stream == streams[id]
      ensures forall o :: StreamOf(o) == old(StreamOf(o)) && HistoryOf(o) == old(HistoryOf(o))
    {
      if id in streams {
        stream := streams[id];
      } else {
        stream := new StreamState();
        streams := streams[id := stream];
        Repr := Repr + {stream};
      }
    }

    method Append(req: AppendRequest, nowMs: int) returns (r: AppendResult)
      requires Valid()
      modifies this`streams, this`Repr, Repr
      ensures Valid() && fresh(Repr - old(Repr))
      ensures r == if req.streamId == "" then InvalidAppend
                   else Done(StreamLog.Append(old(StreamOf(req.streamId)), req, RetentionOf(req.streamId), nowMs).1)
      ensures Of(req.streamId) == if req.streamId == "" then old(Of(req.streamId))
                                  else AppendEvent(old(Of(req.streamId)), req, RetentionOf(req.streamId), nowMs)
      ensures forall o | o != req.streamId :: StreamOf(o) == old(StreamOf(o)) && HistoryOf(o) == old(HistoryOf(o))
      ensures r.Done? && r.outcome.Assigned? ==>
                var e := r.outcome.event;
                && HistoryOf(req.streamId) == old(HistoryOf(req.streamId)) + [e]
                && e.seqNo == old(StreamOf(req.streamId)).head + 1
                && e.streamId == req.streamId && e.payload == req.payload
                && e.payloadType == req.payloadType && e.payloadVersion == req.payloadVersion
                && e.idempotencyKey == req.idempotencyKey && e.createdAtMs == req.createdAtMs
    {
      if req.streamId == "" { return InvalidAppend; }
      var stream := EnsureStream(req.streamId);
      label Ensured:
      var outcome := stream.AppendLocked(req, RetentionOf(req.streamId), nowMs);
      OnlyChanged@Ensured(req.streamId);
      r := Done(outcome);
    }

    method GetHead(id: string) returns (head: nat, retained: nat)
      requires Valid()
      ensures head == StreamOf(id).head && retained == StreamOf(id).retained
    {
      if id in streams { return streams[id].head, streams[id].retainedSeqStart; }
      return 0, 0;
    }

    method Read(id: string, after: nat, limit: int) returns (r: ReadOutcome, head: nat, retained: nat)
      requires Valid()
      ensures r == StreamLog.Read(StreamOf(id), after, limit)
      ensures head == StreamOf(id).head && retained == StreamOf(id).retained
    {
      if id !in streams { return ReadOk(Batch([], 0, 0, true)), 0, 0; }
      r := streams[id].ReadAfter(after, limit);
      head, retained := streams[id].head, streams[id].retainedSeqStart;
    }

    method GetCursor(subscriber: string, id: string) returns (q: nat)
      requires Valid()
      ensures q == CursorOf(Of(id), subscriber)
    {
      CursorsOfMember(cursors, id, subscriber);
      q := if CursorKey(subscriber, id) in cursors then cursors[CursorKey(subscriber, id)].seqNo else 0;
    }

    // Raises a cursor and its metadata together, or leaves both alone.
    method Ack(subscriber: string, id: string, q: nat, metadata: string) returns (committed: nat)
      requires Valid()
      modifies this`cursors
      ensures Valid()
      ensures Of(id) == LogServer.Ack(old(Of(id)), subscriber, q)
      ensures committed == CursorOf(Of(id), subscriber)
      ensures cursors == if q > old(CursorOf(Of(id), subscriber))
                         then old(cursors)[CursorKey(subscriber, id) := CursorRecord(q, metadata)] else old(cursors)
    {
      var key := CursorKey(subscriber, id);
      CursorsOfMember(cursors, id, subscriber);
      committed := if key in cursors then cursors[key].seqNo else 0;
      if q > committed {
        CursorsOfUpdate(cursors, key, CursorRecord(q, metadata), id);
        cursors := cursors[key := CursorRecord(q, metadata)];
        committed := q;
      }
    }

    method TruncateBefore(id: string, before: nat) returns (removed: nat)
      requires Valid()
      modifies Repr
      ensures Valid()
      ensures Of(id) == TruncateLog(old(Of(id)), before)
      ensures removed == |old(StreamOf(id)).events| - |StreamOf(id).events|
      ensures forall o | o != id :: StreamOf(o) == old(StreamOf(o)) && HistoryOf(o) == old(HistoryOf(o))
    {
      removed := 0;
      EmptyStaysEmpty(before, None, 0);
      if id in streams {
        removed := streams[id].TruncateBefore(before);
        OnlyChanged(id);
      }
    }

    // First half of CompactStream: the lowest cursor on record, whatever order the table is walked in.
    method MinCursor(id: string) returns (m: Option<nat>)
      requires Valid()
      ensures m.None? <==> Of(id).cursors == map[]
      ensures m.Some? ==> IsMinimum(Of(id).cursors, m.value)
    {
      m := None;
      var rest := cursors.Keys;
      while rest != {}
        invariant rest <= cursors.Keys
        invariant m.None? ==> forall k | k in cursors.Keys - rest :: k.streamId != id
        invariant m.Some? ==> exists k | k in cursors :: k.streamId == id && cursors[k].seqNo == m.value
        invariant m.Some? ==> forall k | k in cursors.Keys - rest && k.streamId == id :: m.value <= cursors[k].seqNo
        decreases |rest|
      {
        var k :| k in rest;
        rest := rest - {k};
        if k.streamId == id { m := Lower(m, cursors[k].seqNo); }
      }
      MinimumOfTable(cursors, id, m);
    }

    // Reports the minimum it cut above, if there was one.
    method CompactStream(id: string) returns (m: Option<nat>)
      requires Valid()
      modifies Repr
      ensures Valid()
      ensures m.None? <==> old(Of(id)).cursors == map[]
      ensures m.Some? ==> IsMinimum(old(Of(id)).cursors, m.value)
      ensures Of(id) == if m.Some? && m.value > 0 then TruncateLog(old(Of(id)), m.value + 1) else old(Of(id))
      ensures forall o | o != id :: StreamOf(o) == old(StreamOf(o)) && HistoryOf(o) == old(HistoryOf(o))
    {
      m := MinCursor(id);
      if m.Some? && m.value > 0 {
        var _ := TruncateBefore(id, m.value + 1);
      }
    }

    // Touches the retention table and at most the one stream, so every other stream is left alone.
    method SetStreamRetention(id: string, r: Retention, nowMs: int)
      requires Valid()
      modifies this`retention, if id in streams then {streams[id]} else {}
      ensures Valid() && retention == old(retention)[id := r]
      ensures RetentionOf(id) == Some(r) && forall o | o != id :: RetentionOf(o) == old(RetentionOf(o))
      ensures Of(id) == RetainLog(old(Of(id)), Some(r), nowMs)
    {
      retention := retention[id := r];
      EmptyStaysEmpty(0, Some(r), nowMs);
      if id in streams {
        streams[id].ApplyRetention(Some(r), nowMs);
        OnlyChanged(id);
      }
    }

    method PutSnapshot(id: string, snapshot: Snapshot) returns (deduplicated: bool)
      requires Valid()
      modifies this`snapshots
      ensures Valid()
      ensures Of(id) == LogServer.PutSnapshot(old(Of(id)), snapshot)
      ensures snapshots == if deduplicated then old(snapshots)
                           else old(snapshots)[StoredKey(id, KeyOf(snapshot)) := snapshot]
    {
      var key := StoredKey(id, KeyOf(snapshot));
      SnapshotsOfMember(snapshots, id, KeyOf(snapshot));
      deduplicated := key in snapshots && snapshots[key].checksum == snapshot.checksum;
      if !deduplicated {
        SnapshotsOfUpdate(snapshots, key, snapshot, id);
        snapshots := snapshots[key := snapshot];
      }
    }

    // Whatever order the table is walked in, the greatest compatible snapshot is returned.
    method GetLatestSnapshot(id: string, payloadType: string, maxVersion: nat) returns (r: Option<Snapshot>)
      requires Valid()
      ensures r == Latest(Of(id).snapshots, payloadType, maxVersion)
      ensures r.Some? ==>
                && (exists k | k in snapshots :: k.streamId == id && snapshots[k] == r.value)
                && r.value.payloadType == payloadType && (maxVersion == 0 || r.value.payloadVersion <= maxVersion)
      ensures forall k | k in snapshots && k.streamId == id && snapshots[k].payloadType == payloadType
                         && (maxVersion == 0 || snapshots[k].payloadVersion <= maxVersion) ::
                && r.Some? && snapshots[k].seqNo <= r.value.seqNo
                && (snapshots[k].seqNo == r.value.seqNo ==> snapshots[k].payloadVersion <= r.value.payloadVersion)
    {
      r := None;
      var rest := snapshots.Keys;
      while rest != {}
        invariant rest <= snapshots.Keys
        invariant r.Some? ==>
                    StoredKey(id, KeyOf(r.value)) in snapshots && snapshots[StoredKey(id, KeyOf(r.value))] == r.value
        invariant r.Some? ==> Compatible(KeyOf(r.value), payloadType, maxVersion)
        invariant forall k | k in snapshots.Keys - rest && k.streamId == id
            && Compatible(k.key, payloadType, maxVersion) ::
                    r.Some? && AtMost(k.key, KeyOf(r.value))
        decreases |rest|
      {
        var k :| k in rest;
        rest := rest - {k};
        if k.streamId == id && Compatible(k.key, payloadType, maxVersion) {
          var s := snapshots[k];
          if r.None? || s.seqNo > r.value.seqNo
             || (s.seqNo == r.value.seqNo && s.payloadVersion > r.value.payloadVersion) {
            r := Some(s);
          }
        }
      }
      LatestOfTable(snapshots, id, payloadType, maxVersion, r);
    }
  }

  lemma MinimumOfTable(cursors: map<CursorKey, CursorRecord>, id: string, m: Option<nat>)
    requires m.None? ==> forall k | k in cursors :: k.streamId != id
    requires m.Some? ==> exists k | k in cursors :: k.streamId == id && cursors[k].seqNo == m.value
    requires m.Some? ==> forall k | k in cursors && k.streamId == id :: m.value <= cursors[k].seqNo
    ensures m.None? <==> CursorsOf(cursors, id) == map[]
    ensures m.Some? ==> IsMinimum(CursorsOf(cursors, id), m.value)
  {
    var table := CursorsOf(cursors, id);
    forall c | c in table ensures CursorKey(c, id) in cursors && table[c] == cursors[CursorKey(c, id)].seqNo {
      CursorsOfMember(cursors, id, c);
    }
    if m.Some? {
      var k :| k in cursors && k.streamId == id && cursors[k].seqNo == m.value;
      CursorsOfMember(cursors, id, k.subscriberId);
      assert k == CursorKey(k.subscriberId, id) && k.subscriberId in table;
    } else {
      assert table == map[];
    }
  }

  lemma LatestOfTable(snapshots: map<StoredKey, Snapshot>, id: string, payloadType: string, maxVersion: nat,
                      r: Option<Snapshot>)
    requires forall k | k in snapshots :: KeyOf(snapshots[k]) == k.key
    requires r.Some? ==>
               StoredKey(id, KeyOf(r.value)) in snapshots && snapshots[StoredKey(id, KeyOf(r.value))] == r.value
    requires r.Some? ==> Compatible(KeyOf(r.value), payloadType, maxVersion)
    requires forall k | k in snapshots && k.streamId == id && Compatible(k.key, payloadType, maxVersion) ::
               r.Some? && AtMost(k.key, KeyOf(r.value))
    ensures r == Latest(SnapshotsOf(snapshots, id), payloadType, maxVersion)
  {
    var table := SnapshotsOf(snapshots, id);
    forall key | key in table ensures StoredKey(id, key) in snapshots && table[key] == snapshots[StoredKey(id, key)] {
      SnapshotsOfMember(snapshots, id, key);
    }
    assert Keyed(table);
    LatestExact(table, payloadType, maxVersion);
    if r.Some? {
      SnapshotsOfMember(snapshots, id, KeyOf(r.value));
      assert IsLatest(table.Keys, KeyOf(r.value), payloadType, maxVersion);
    } else {
      forall key | key in table ensures !Compatible(key, payloadType, maxVersion) {
        assert StoredKey(id, key) in snapshots;
      }
    }
  }

  // ---------------------------------------------------------------- the engine over the store

  /** Engine.CatchUp run without interference serves exactly what the pure engine serves. */
  method EngineCatchUp(store: Store, subscriber: string, id: string, limit: int, totalLimit: int)
    returns (r: CatchUpResult)
    requires store.Valid()
    ensures r == CatchUp(CursorOf(store.Of(id), subscriber), store.StreamOf(id), store.StreamOf(id), limit, totalLimit)
  {
    var n := NormalizeLimit(limit);
    var cursor := store.GetCursor(subscriber, id);
    var head, retained := store.GetHead(id);
    r := CatchUpResult(StatusOk, NO_BATCH, cursor, head, retained);
    if ReplayTooOld(cursor, retained) || OverBudget(cursor, head, totalLimit) {
      return r.(status := StatusTooLong);
    }
    var outcome, head', retained' := store.Read(id, cursor, n);
    match outcome
    case ReadTooLong => r := r.(status := StatusTooLong);
    case ReadOk(batch) => r := r.(batch := batch, head := head', retained := retained');
  }

  /** Engine.Ack refuses to commit beyond the head and otherwise takes the ack step. */
  method EngineAck(store: Store, subscriber: string, id: string, q: nat, metadata: string) returns (ok: bool)
    requires store.Valid()
    modifies store`cursors
    ensures store.Valid()
    ensures ok <==> q <= old(store.StreamOf(id)).head
    ensures store.Of(id) == if ok then LogServer.Ack(old(store.Of(id)), subscriber, q) else old(store.Of(id))
    ensures !ok ==> store.cursors == old(store.cursors)
  {
    var head, _ := store.GetHead(id);
    ok := q <= head;
    if ok { var _ := store.Ack(subscriber, id, q, metadata); }
  }
}
