/**
 The client runtime (ts/synclog/src/client.ts) for one binding, run in place over its projection
 store and over the log it reaches through the gateway, with nobody else running in between.
 */
module SyncClient {
  import opened Types
  import opened LogServer
  import opened CoreEngine
  import opened ClientRecord
  import opened CatchUpLoop
  import Log = MemoryStore
  import ClientStore

  class Client {
    const p: Params
    const streamId: string
    const key: string
    const store: ClientStore.MemorySyncStore
    const log: Log.Store

    constructor (p: Params, streamId: string, key: string, store: ClientStore.MemorySyncStore, log: Log.Store)
      ensures this.p == p && this.streamId == streamId && this.key == key && this.store == store && this.log == log
    {
      this.p, this.streamId, this.key, this.store, this.log := p, streamId, key, store, log;
    }

    ghost predicate Ready()
      reads this, log, log.Repr
    {
      log.Valid()
    }

    ghost function Value(): Session
      requires Ready()
      reads this, store, log, log.Repr
    {
      Session(log.Of(streamId), store.ValueAt(key))
    }

    method SendAck(q: nat, turn: Turn) returns (t: Turn)
      requires Ready()
      modifies log`cursors
      ensures Ready() && (t, Value()) == Acked(p, old(Value()), q, turn)
    {
      ghost var before := Value();
      var ok := Log.EngineAck(log, p.id, streamId, q, "");
      t := if ok then turn else Failed;
      assert Value() == if ok then Session(Ack(before.server, p.id, q), before.record) else before;
    }

    // TOO_LONG: store the latest compatible snapshot, then ack its number.
    method RecoverFromSnapshot() returns (t: Turn)
      requires Ready()
      modifies store, log`cursors
      ensures Ready()
      ensures (t, Value()) == Recover(p, old(Value()))
    {
      var latest := log.GetLatestSnapshot(streamId, p.snapshotType, p.maxVersion);
      if latest.None? { return Failed; }
      ghost var before := Value();
      store.ApplySnapshot(key, latest.value);
      assert Value() == Session(before.server, ApplySnapshot(before.record, latest.value));
      t := SendAck(latest.value.seqNo, Again);
    }

    method StoreNew(batch: Batch) returns (reached: nat)
      requires Ready()
      modifies store
      ensures Ready()
      ensures Value() == Session(old(Value()).server, Stored(old(Value()).record, batch))
      ensures reached == Value().record.applied
    {
      var applied := store.GetAppliedSeq(key);
      var events := Above(batch.events, applied);
      if |events| > 0 { store.ApplyEvents(key, events); }
      reached := store.GetAppliedSeq(key);
    }

    // Store what is new, then ack the number the store reached, never the batch's own.
    method StoreBatch(batch: Batch) returns (t: Turn)
      requires Ready()
      modifies store, log`cursors
      ensures Ready()
      ensures (t, Value()) == ApplyBatch(p, old(Value()), batch)
    {
      ghost var before := Value();
      var reached := StoreNew(batch);
      ghost var stored := Value();
      t := SendAck(reached, if batch.final then Returned else Again);
      assert (t, Value()) == Acked(p, stored, stored.record.applied, if batch.final then Returned else Again);
      assert stored == Session(before.server, Stored(before.record, batch));
    }

    method OneRequest() returns (t: Turn)
      requires Ready()
      modifies store, log`cursors
      ensures Ready()
      ensures (t, Value()) == Request(p, old(Value()))
    {
      ghost var before := Value();
      var reply := Log.EngineCatchUp(log, p.id, streamId, p.limit, p.totalLimit);
      assert reply == ReplyTo(p, before);
      if reply.status == StatusTooLong {
        t := RecoverFromSnapshot();
      } else if |reply.batch.events| == 0 {
        t := Returned;
      } else {
        t := StoreBatch(reply.batch);
      }
    }

    /** The catch-up loop, stopped after at most the given number of requests. */
    method CatchUpWithin(requests: nat) returns (t: Turn)
      requires Ready()
      modifies store, log`cursors
      ensures Ready() && (t, Value()) == Loop(p, old(Value()), requests)
    {
      hide Request;
      t := Again;
      ghost var start, now := Value(), Value();
      var left: nat := requests;
      while left > 0 && t == Again
        invariant Ready()
        invariant now == Value()
        invariant left <= requests
        invariant Loop(p, start, requests) == if t == Again then Loop(p, now, left) else (t, now)
      {
        ghost var before := now;
        t := OneRequest();
        now := Value();
        LoopAdvance(p, start, requests, before, left, t, now);
        left := left - 1;
      }
    }

    /** The catch-up loop itself, with no bound of its own, whenever it will be over. */
    method CatchUp() returns (t: Turn)
      requires Ready() && Coherent(p, Value()) && WillEnd(p, Value())
      modifies store, log`cursors
      ensures Ready() && t != Again
      ensures exists n :: (t, Value()) == Loop(p, old(Value()), n)
    {
      hide Request, Coherent, WillEnd;
      t := Again;
      ghost var start, now := Value(), Value();
      EndsIfAndOnlyIf(p, start);
      ghost var requests :| Loop(p, start, requests).0 != Again;
      ghost var left: nat := requests;
      while t == Again
        invariant Ready()
        invariant now == Value()
        invariant left <= requests
        invariant Loop(p, start, requests) == if t == Again then Loop(p, now, left) else (t, now)
        decreases t == Again, left
      {
        ghost var before := now;
        assert left > 0;
        t := OneRequest();
        now := Value();
        LoopAdvance(p, start, requests, before, left, t, now);
        left := left - 1;
      }
      assert (t, Value()) == Loop(p, start, requests);
    }
  }
}
