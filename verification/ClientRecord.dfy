/**
 One record of the client's projection store as a value (ts/synclog/src/memory-store.ts), the view a
 product computes from it, and when that view equals the fold of the log.
 */
module ClientRecord {
  import opened Types
  import opened StreamLog

  datatype Record = Record(applied: nat, snapshot: Option<Snapshot>, events: seq<Event>)

  const EMPTY_RECORD := Record(0, None, [])

  // ---------------------------------------------------------------- operations

  // A snapshot behind the applied events only replaces the snapshot reference.
  function ApplySnapshot(r: Record, snapshot: Snapshot): Record {
    if r.applied > snapshot.seqNo then r.(snapshot := Some(snapshot))
    else Record(snapshot.seqNo, Some(snapshot), [])
  }

  function ApplyEvents(r: Record, events: seq<Event>): Record
    decreases |events|
  {
    if events == [] then r
    else
      var e := events[0];
      ApplyEvents(if e.seqNo <= r.applied then r else Record(e.seqNo, r.snapshot, r.events + [e]), events[1..])
  }

  // Redelivery filtering: the events numbered above q.
  function Above(events: seq<Event>, q: nat): seq<Event> {
    if events == [] then []
    else (if events[0].seqNo > q then [events[0]] else []) + Above(events[1..], q)
  }

  // ---------------------------------------------------------------- the view

  // How a product turns snapshots and events into its own state.
  datatype Projection<!V> = Projection(init: V, apply: (V, Event) -> V, decode: (Bytes, nat) -> V)

  function Fold<V>(p: Projection<V>, v: V, events: seq<Event>): V {
    if events == [] then v else p.apply(Fold(p, v, events[..|events| - 1]), events[|events| - 1])
  }

  function Decoded<V>(p: Projection<V>, snapshot: Snapshot): V {
    p.decode(snapshot.payload, snapshot.payloadVersion)
  }

  function SnapshotSeq(r: Record): nat {
    if r.snapshot.Some? then r.snapshot.value.seqNo else 0
  }

  // The snapshot (or the initial state), then the stored events numbered above it.
  function View<V>(p: Projection<V>, r: Record): V {
    Fold(p, if r.snapshot.Some? then Decoded(p, r.snapshot.value) else p.init, Above(r.events, SnapshotSeq(r)))
  }

  // ---------------------------------------------------------------- what a record may hold

  // Where the stored events start: the number just before the first of them.
  function Base(r: Record): int {
    r.applied - |r.events|
  }

  /** The stored events are the stretch of the history that ends at the applied number. */
  ghost predicate Contiguous(r: Record, history: seq<Event>) {
    && Numbered(history)
    && 0 <= Base(r) <= r.applied <= |history|
    && r.events == history[Base(r)..r.applied]
    && SnapshotSeq(r) <= r.applied
  }

  // Nothing is missing between the snapshot and the stored events.
  predicate NoHole(r: Record) {
    SnapshotSeq(r) >= Base(r)
  }

  ghost predicate Faithful<V>(p: Projection<V>, snapshot: Snapshot, history: seq<Event>) {
    snapshot.seqNo <= |history| && Decoded(p, snapshot) == Fold(p, p.init, history[..snapshot.seqNo])
  }

  ghost predicate FaithfulRecord<V>(p: Projection<V>, r: Record, history: seq<Event>) {
    r.snapshot.Some? ==> Faithful(p, r.snapshot.value, history)
  }

  // ---------------------------------------------------------------- lemmas

  lemma {:induction false} AboveAll(history: seq<Event>, a: nat, b: nat, q: nat)
    requires Numbered(history) && a <= b <= |history| && q <= a
    ensures Above(history[a..b], q) == history[a..b]
    decreases b - a
  {
    if a < b {
      assert history[a..b] == [history[a]] + history[a + 1..b];
      AboveAll(history, a + 1, b, q);
    }
  }

  /** Filtering a stretch of the history by a number keeps exactly the stretch above it. */
  lemma {:induction false} AboveSlice(history: seq<Event>, a: nat, b: nat, q: nat)
    requires Numbered(history) && a <= b <= |history| && a <= q
    ensures Above(history[a..b], q) == if q <= b then history[q..b] else []
    decreases b - a
  {
    if q == a {
      AboveAll(history, a, b, q);
    } else if a < b {
      assert history[a..b] == [history[a]] + history[a + 1..b];
      AboveSlice(history, a + 1, b, q);
    }
  }

  lemma {:induction false} FoldSplit<V>(p: Projection<V>, v: V, a: seq<Event>, b: seq<Event>)
    ensures Fold(p, Fold(p, v, a), b) == Fold(p, v, a + b)
  {
    if b == [] {
      assert a + b == a;
    } else {
      var n := |b| - 1;
      FoldSplit(p, v, a, b[..n]);
      assert (a + b)[..|a + b| - 1] == a + b[..n];
    }
  }

  /** A contiguous record without a hole shows exactly the fold of the log up to its applied number. */
  lemma ViewIsFold<V>(p: Projection<V>, r: Record, history: seq<Event>)
    requires Contiguous(r, history) && NoHole(r) && FaithfulRecord(p, r, history)
    ensures View(p, r) == Fold(p, p.init, history[..r.applied])
  {
    var q := SnapshotSeq(r);
    AboveSlice(history, Base(r), r.applied, q);
    FoldSlices(p, history, q, r.applied);
  }

  lemma FoldSlices<V>(p: Projection<V>, history: seq<Event>, q: nat, n: nat)
    requires q <= n <= |history|
    ensures Fold(p, Fold(p, p.init, history[..q]), history[q..n]) == Fold(p, p.init, history[..n])
    ensures Fold(p, p.init, history[..0]) == p.init
  {
    FoldSplit(p, p.init, history[..q], history[q..n]);
    assert history[..q] + history[q..n] == history[..n];
  }

  // The projection that just keeps a journal: its state is the list of events itself.
  ghost predicate IsJournal(p: Projection<seq<Event>>) {
    p.init == [] && forall v, e :: p.apply(v, e) == v + [e]
  }

  lemma {:induction false} JournalFold(p: Projection<seq<Event>>, v: seq<Event>, events: seq<Event>)
    requires IsJournal(p)
    ensures Fold(p, v, events) == v + events
  {
    if events != [] {
      var n := |events| - 1;
      JournalFold(p, v, events[..n]);
      assert v + events == (v + events[..n]) + [events[n]];
    } else {
      assert v + events == v;
    }
  }

  /** A hole is always visible to some product: the journal is right exactly when there is none. */
  lemma JournalShowsHole(p: Projection<seq<Event>>, r: Record, history: seq<Event>)
    requires IsJournal(p) && Contiguous(r, history) && FaithfulRecord(p, r, history)
    ensures View(p, r) == history[..r.applied] <==> NoHole(r)
  {
    var q := SnapshotSeq(r);
    if q < Base(r) { AboveAll(history, Base(r), r.applied, q); }
    JournalFold(p, [], history[..r.applied]);
    JournalFold(p, [], history[..q]);
    var start := if r.snapshot.Some? then Decoded(p, r.snapshot.value) else p.init;
    JournalFold(p, start, Above(r.events, q));
    if NoHole(r) { ViewIsFold(p, r, history); }
  }

  /** Applying a snapshot keeps the record whole exactly when the snapshot reaches back to the stored events. */
  lemma ApplySnapshotExact(r: Record, snapshot: Snapshot, history: seq<Event>)
    requires Contiguous(r, history) && snapshot.seqNo <= |history|
    ensures Contiguous(ApplySnapshot(r, snapshot), history)
    ensures NoHole(ApplySnapshot(r, snapshot)) <==> snapshot.seqNo >= Base(r)
    ensures ApplySnapshot(r, snapshot).applied == Max(r.applied, snapshot.seqNo)
    ensures Base(ApplySnapshot(r, snapshot)) == (if r.applied > snapshot.seqNo then Base(r) else snapshot.seqNo)
  {
  }

  // What is not newer than the record is passed over.
  lemma {:induction false} SkipOld(r: Record, history: seq<Event>, a: nat, b: nat)
    requires Numbered(history) && a <= b <= |history| && a <= r.applied
    ensures ApplyEvents(r, history[a..b]) == ApplyEvents(r, history[Min(r.applied, b)..b])
    decreases b - a
  {
    if a < Min(r.applied, b) {
      assert history[a..b][0] == history[a] && history[a..b][1..] == history[a + 1..b];
      SkipOld(r, history, a + 1, b);
    }
  }

  // What comes right after the record is taken up whole.
  lemma {:induction false} PushNew(r: Record, history: seq<Event>, b: nat)
    requires Numbered(history) && r.applied <= b <= |history|
    ensures ApplyEvents(r, history[r.applied..b]) == Record(b, r.snapshot, r.events + history[r.applied..b])
    decreases b - r.applied
  {
    var page := history[r.applied..b];
    if r.applied < b {
      var e := history[r.applied];
      assert page[0] == e && page[1..] == history[e.seqNo..b];
      PushNew(Record(e.seqNo, r.snapshot, r.events + [e]), history, b);
      assert r.events + page == (r.events + [e]) + page[1..];
    } else {
      assert r.events + page == r.events;
    }
  }

  lemma PushedIsContiguous(r: Record, history: seq<Event>, b: nat)
    requires Contiguous(r, history) && r.applied <= b <= |history|
    ensures Contiguous(Record(b, r.snapshot, r.events + history[r.applied..b]), history)
  {
    assert r.events + history[r.applied..b] == history[Base(r)..b];
  }

  /** Applying any stretch that starts no later than the applied number only appends what is new. */
  lemma ApplyEventsSlice(r: Record, history: seq<Event>, a: nat, b: nat)
    requires Contiguous(r, history) && a <= b <= |history| && a <= r.applied
    ensures ApplyEvents(r, history[a..b]) ==
            if b <= r.applied then r else Record(b, r.snapshot, r.events + history[r.applied..b])
    ensures Contiguous(ApplyEvents(r, history[a..b]), history)
  {
    SkipOld(r, history, a, b);
    if r.applied < b {
      PushNew(r, history, b);
      PushedIsContiguous(r, history, b);
    } else {
      assert history[b..b] == [];
    }
  }
}
