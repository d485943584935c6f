/**
 The client's projection store (ts/synclog/src/memory-store.ts): records in a map over encoded keys,
 proved against the record operations, every operation leaving all other records alone.
 */
module ClientStore {
  import opened Types
  import opened Keys
  import opened ClientRecord

  class MemorySyncStore {
    var records: map<string, Record>

    // A key without a record reads as an empty one.
    ghost function ValueAt(key: string): Record
      reads this
    {
      if key in records then records[key] else EMPTY_RECORD
    }

    constructor ()
      ensures forall key :: ValueAt(key) == EMPTY_RECORD
    {
      records := map[];
    }

    // Looks a record up, creating it when it is missing.
    method RecordAt(key: string) returns (r: Record)
      modifies this
      ensures r == ValueAt(key) && key in records
      ensures forall k :: ValueAt(k) == old(ValueAt(k))
    {
      if key !in records { records := records[key := EMPTY_RECORD]; }
      r := records[key];
    }

    method GetAppliedSeq(key: string) returns (q: nat)
      modifies this
      ensures q == ValueAt(key).applied
      ensures forall k :: ValueAt(k) == old(ValueAt(k))
    {
      var r := RecordAt(key);
      q := r.applied;
    }

    /** Never takes applied events back: a snapshot behind them only replaces the snapshot. */
    method ApplySnapshot(key: string, snapshot: Snapshot)
      modifies this
      ensures ValueAt(key) == ClientRecord.ApplySnapshot(old(ValueAt(key)), snapshot)
      ensures forall k | k != key :: ValueAt(k) == old(ValueAt(k))
    {
      if key in records && records[key].applied > snapshot.seqNo {
        records := records[key := records[key].(snapshot := Some(snapshot))];
      } else {
        records := records[key := Record(snapshot.seqNo, Some(snapshot), [])];
      }
    }

    method ApplyEvents(key: string, events: seq<Event>)
      modifies this
      ensures ValueAt(key) == ClientRecord.ApplyEvents(old(ValueAt(key)), events)
      ensures forall k | k != key :: ValueAt(k) == old(ValueAt(k))
    {
      if |events| == 0 { return; }
      var _ := RecordAt(key);
      var i := 0;
      while i < |events|
        invariant 0 <= i <= |events| && key in records
        invariant ClientRecord.ApplyEvents(old(ValueAt(key)), events) ==
            ClientRecord.ApplyEvents(records[key], events[i..])
        invariant forall k | k != key :: ValueAt(k) == old(ValueAt(k))
      {
        var e, r := events[i], records[key];
        assert events[i..][1..] == events[i + 1..];
        if e.seqNo > r.applied {
          records := records[key := Record(e.seqNo, r.snapshot, r.events + [e])];
        }
        i := i + 1;
      }
    }

    /** Forgets exactly the records whose key contains the target's marker. */
    method ClearTarget(target: Target)
      modifies this
      ensures forall k :: ValueAt(k) == if Contains(k, ClearMarker(target)) then EMPTY_RECORD else old(ValueAt(k))
    {
      var marker := ClearMarker(target);
      ghost var before := records;
      var rest := records.Keys;
      while rest != {}
        invariant rest <= before.Keys
        invariant forall k :: k in records <==> k in before && (k in rest || !Contains(k, marker))
        invariant forall k | k in records :: records[k] == before[k]
        decreases |rest|
      {
        var key :| key in rest;
        rest := rest - {key};
        if Contains(key, marker) { records := records - {key}; }
      }
    }
  }
}
