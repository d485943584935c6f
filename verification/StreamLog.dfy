/**
 One stream of the log (internal/storage/memory/store.go, streamState): the retained suffix of an
 append-only history. The functions say what each critical section does to the stream's value; the
 class StreamState runs the same steps in place and is proved against them.
 */
module StreamLog {
  import opened Types

  datatype Stream = Stream(head: nat, retained: nat, events: seq<Event>, index: map<string, nat>)

  const EMPTY_STREAM := Stream(0, 0, [], map[])

  // ---------------------------------------------------------------- the invariant

  // History position q (counting from 1) was assigned under idempotency key k.
  ghost predicate Carries(history: seq<Event>, q: nat, k: string) {
    1 <= q <= |history| && history[q - 1].idempotencyKey == k
  }

  // The idempotency index lists exactly the keys the history carries, each with its only position.
  ghost predicate IndexAgrees(index: map<string, nat>, history: seq<Event>) {
    && (forall k | k in index :: k != "" && Carries(history, index[k], k))
    && (forall q, k | Carries(history, q, k) && k != "" :: k in index && index[k] == q)
  }

  ghost predicate Numbered(history: seq<Event>) {
    forall i | 0 <= i < |history| :: history[i].seqNo == i + 1
  }

  /** The stream holds a suffix of the history, and its boundary names where that suffix starts. */
  ghost predicate IsSuffix(s: Stream, history: seq<Event>) {
    && Numbered(history)
    && s.head == |history|
    && |s.events| <= |history|
    && (forall i | 0 <= i < |s.events| :: s.events[i] == history[|history| - |s.events| + i])
    && s.retained == (if s.head == 0 then 0 else s.head + 1 - |s.events|)
  }

  ghost predicate Represents(s: Stream, history: seq<Event>) {
    IsSuffix(s, history) && IndexAgrees(s.index, history)
  }

  // Event q was assigned once and can no longer be read.
  ghost predicate Gone(s: Stream, q: nat) {
    1 <= q <= s.head && forall i | 0 <= i < |s.events| :: s.events[i].seqNo != q
  }

  // ---------------------------------------------------------------- operations as values

  function ReplayTooOld(cursor: nat, retained: nat): bool {
    retained > 0 && cursor < retained - 1
  }

  // Length of the longest prefix of events numbered below q.
  function CountBelow(events: seq<Event>, q: nat): (n: nat)
    ensures n <= |events|
    ensures forall i | 0 <= i < n :: events[i].seqNo < q
    ensures n < |events| ==> events[n].seqNo >= q
  {
    if events == [] || events[0].seqNo >= q then 0 else 1 + CountBelow(events[1..], q)
  }

  // Drops the oldest n events and moves the boundary to the first one left, or past the head.
  function DropOldest(s: Stream, n: nat): Stream
    requires n <= |s.events|
  {
    var kept := s.events[n..];
    s.(events := kept,
       retained := if |kept| > 0 then kept[0].seqNo else if s.head > 0 then s.head + 1 else s.retained)
  }

  function Truncate(s: Stream, before: nat): Stream {
    DropOldest(s, CountBelow(s.events, before))
  }

  const MS_PER_DAY := 86_400_000

  // An event without a timestamp never expires.
  predicate Expired(e: Event, ttlDays: int, nowMs: int) {
    0 < e.createdAtMs < nowMs - ttlDays * MS_PER_DAY
  }

  // Length of the longest prefix of expired events.
  function CountExpired(events: seq<Event>, ttlDays: int, nowMs: int): (n: nat)
    ensures n <= |events|
    ensures forall i | 0 <= i < n :: Expired(events[i], ttlDays, nowMs)
    ensures n < |events| ==> !Expired(events[n], ttlDays, nowMs)
  {
    if events == [] || !Expired(events[0], ttlDays, nowMs) then 0
    else 1 + CountExpired(events[1..], ttlDays, nowMs)
  }

  function Removals(events: seq<Event>, r: Retention, nowMs: int): (n: nat)
    ensures n <= |events|
  {
    var expired := if r.ttlDays > 0 then CountExpired(events, r.ttlDays, nowMs) else 0;
    if r.maxEvents > 0 && |events| - r.maxEvents > expired then |events| - r.maxEvents else expired
  }

  function Retain(s: Stream, r: Option<Retention>, nowMs: int): Stream {
    if r.None? || Removals(s.events, r.value, nowMs) == 0 then s
    else DropOldest(s, Removals(s.events, r.value, nowMs))
  }

  function NewEvent(req: AppendRequest, seqNo: nat): Event {
    Event(req.streamId, seqNo, req.payload, req.payloadType, req.payloadVersion, req.idempotencyKey, req.createdAtMs)
  }

  function Push(s: Stream, req: AppendRequest): Stream {
    var e := NewEvent(req, s.head + 1);
    Stream(s.head + 1,
           if s.retained == 0 || s.head + 1 < s.retained then s.head + 1 else s.retained,
           s.events + [e],
           if req.idempotencyKey != "" then s.index[req.idempotencyKey := s.head + 1] else s.index)
  }

  datatype AppendOutcome = Assigned(event: Event) | Deduplicated(event: Event) | Compacted

  function Find(events: seq<Event>, seqNo: nat): (r: Option<Event>)
    ensures r.Some? ==> r.value in events && r.value.seqNo == seqNo
    ensures r.None? ==> forall i | 0 <= i < |events| :: events[i].seqNo != seqNo
  {
    if events == [] then None
    else if events[0].seqNo == seqNo then Some(events[0])
    else Find(events[1..], seqNo)
  }

  predicate IsRetry(s: Stream, req: AppendRequest) {
    req.idempotencyKey != "" && req.idempotencyKey in s.index
  }

  function Append(s: Stream, req: AppendRequest, r: Option<Retention>, nowMs: int): (Stream, AppendOutcome) {
    if IsRetry(s, req) then
      match Find(s.events, s.index[req.idempotencyKey])
      case Some(e) => (s, Deduplicated(e))
      case None => (s, Compacted)
    else
      (Retain(Push(s, req), r, nowMs), Assigned(NewEvent(req, s.head + 1)))
  }

  function HistoryAfterAppend(s: Stream, history: seq<Event>, req: AppendRequest): seq<Event> {
    if IsRetry(s, req) then history else history + [NewEvent(req, s.head + 1)]
  }

  datatype ReadOutcome = ReadOk(batch: Batch) | ReadTooLong

  function Read(s: Stream, after: nat, limit: int): ReadOutcome {
    if ReplayTooOld(after, s.retained) then ReadTooLong
    else
      var start := CountBelow(s.events, after + 1);
      if start == |s.events| then ReadOk(Batch([], 0, s.head, true))
      else
        var page := s.events[start..Min(start + NormalizeLimit(limit), |s.events|)];
        ReadOk(Batch(page, page[0].seqNo, page[|page| - 1].seqNo, page[|page| - 1].seqNo == s.head))
  }

  // ---------------------------------------------------------------- the invariant is kept

  lemma SuffixPosition(s: Stream, history: seq<Event>, i: nat)
    requires IsSuffix(s, history) && i < |s.events|
    ensures s.events[i] == history[s.head - |s.events| + i]
    ensures s.events[i].seqNo == s.head - |s.events| + i + 1
  {
  }

  lemma SliceOfSuffix(s: Stream, history: seq<Event>, lo: nat, hi: nat)
    requires IsSuffix(s, history) && lo <= hi <= |s.events|
    ensures s.events[lo..hi] == history[s.head - |s.events| + lo..s.head - |s.events| + hi]
  {
  }

  lemma DropKeepsSuffix(s: Stream, history: seq<Event>, n: nat)
    requires IsSuffix(s, history) && n <= |s.events|
    ensures IsSuffix(DropOldest(s, n), history)
    ensures DropOldest(s, n).retained >= s.retained
  {
    if n < |s.events| { SuffixPosition(s, history, n); }
  }

  lemma DropKeepsRepresents(s: Stream, history: seq<Event>, n: nat)
    requires Represents(s, history) && n <= |s.events|
    ensures Represents(DropOldest(s, n), history)
  {
    DropKeepsSuffix(s, history, n);
  }

  lemma PushKeepsSuffix(s: Stream, history: seq<Event>, req: AppendRequest)
    requires IsSuffix(s, history)
    ensures IsSuffix(Push(s, req), history + [NewEvent(req, s.head + 1)])
    ensures Push(s, req).retained >= s.retained
  {
  }

  lemma PushKeepsIndex(s: Stream, history: seq<Event>, req: AppendRequest)
    requires IndexAgrees(s.index, history) && s.head == |history| && !IsRetry(s, req)
    ensures IndexAgrees(Push(s, req).index, history + [NewEvent(req, s.head + 1)])
  {
    var h := history + [NewEvent(req, s.head + 1)];
    forall q: nat, k ensures Carries(h, q, k) <==> Carries(history, q, k) || (q == |h| && k == req.idempotencyKey)
    {
      if 1 <= q <= |history| { assert h[q - 1] == history[q - 1]; }
    }
  }

  lemma PushKeepsRepresents(s: Stream, history: seq<Event>, req: AppendRequest)
    requires Represents(s, history) && !IsRetry(s, req)
    ensures Represents(Push(s, req), history + [NewEvent(req, s.head + 1)])
  {
    PushKeepsSuffix(s, history, req);
    PushKeepsIndex(s, history, req);
  }

  lemma TruncateKeepsRepresents(s: Stream, history: seq<Event>, before: nat)
    requires Represents(s, history)
    ensures Represents(Truncate(s, before), history)
    ensures Truncate(s, before).retained >= s.retained
  {
    DropKeepsSuffix(s, history, CountBelow(s.events, before));
  }

  lemma RetainKeepsRepresents(s: Stream, history: seq<Event>, r: Option<Retention>, nowMs: int)
    requires Represents(s, history)
    ensures Represents(Retain(s, r, nowMs), history)
    ensures Retain(s, r, nowMs).retained >= s.retained
  {
    if r.Some? { DropKeepsSuffix(s, history, Removals(s.events, r.value, nowMs)); }
  }

  /** An append extends the history by the new event, or leaves it alone when the key is known. */
  lemma AppendKeepsRepresents(s: Stream, history: seq<Event>, req: AppendRequest, r: Option<Retention>, nowMs: int)
    requires Represents(s, history)
    ensures Represents(Append(s, req, r, nowMs).0, HistoryAfterAppend(s, history, req))
    ensures Append(s, req, r, nowMs).0.retained >= s.retained
  {
    if !IsRetry(s, req) {
      PushKeepsSuffix(s, history, req);
      PushKeepsIndex(s, history, req);
      RetainKeepsRepresents(Push(s, req), history + [NewEvent(req, s.head + 1)], r, nowMs);
    }
  }

  // ---------------------------------------------------------------- what the invariant buys

  /** The boundary test fires exactly when the next event a cursor needs was assigned and is gone. */
  lemma ReplayTooOldExact(s: Stream, history: seq<Event>, cursor: nat)
    requires IsSuffix(s, history)
    ensures ReplayTooOld(cursor, s.retained) <==> Gone(s, cursor + 1)
  {
    var first := s.head - |s.events|;
    if first <= cursor < s.head {
      SuffixPosition(s, history, cursor - first);
    }
    forall i | 0 <= i < |s.events| ensures s.events[i].seqNo == first + i + 1 {
      SuffixPosition(s, history, i);
    }
  }

  lemma EventsNotAfter(s: Stream, history: seq<Event>, q: nat)
    requires IsSuffix(s, history)
    ensures CountBelow(s.events, q) ==
            (if q <= s.head - |s.events| + 1 then 0
             else if q > s.head then |s.events| else q - 1 - (s.head - |s.events|))
  {
    var n := CountBelow(s.events, q);
    if n > 0 { SuffixPosition(s, history, n - 1); }
    if n < |s.events| { SuffixPosition(s, history, n); }
  }

  lemma PageIsHistorySlice(s: Stream, history: seq<Event>, from: nat, to: nat)
    requires IsSuffix(s, history) && s.head - |s.events| <= from < to <= s.head
    ensures var gone := s.head - |s.events|;
            var page := s.events[from - gone..to - gone];
            page == history[from..to] && page[0].seqNo == from + 1 && page[|page| - 1].seqNo == to
  {
    var gone := s.head - |s.events|;
    SliceOfSuffix(s, history, from - gone, to - gone);
    SuffixPosition(s, history, from - gone);
    SuffixPosition(s, history, to - gone - 1);
  }

  /** The next stretch of a history after a cursor, at most one page long: what a reader should be served. */
  function NextPage(history: seq<Event>, after: nat, limit: int): Batch {
    var upTo := Min(after + NormalizeLimit(limit), |history|);
    if after >= |history| then Batch([], 0, |history|, true)
    else Batch(history[after..upTo], after + 1, upTo, upTo == |history|)
  }

  lemma ReadAtHead(s: Stream, history: seq<Event>, after: nat, limit: int)
    requires IsSuffix(s, history) && after >= s.head
    ensures Read(s, after, limit) == ReadOk(NextPage(history, after, limit))
  {
    EventsNotAfter(s, history, after + 1);
  }

  lemma ReadServes(s: Stream, history: seq<Event>, after: nat, limit: int, gone: nat)
    requires !ReplayTooOld(after, s.retained) && gone <= after < s.head == gone + |s.events| == |history|
    requires CountBelow(s.events, after + 1) == after - gone
    requires var upTo := Min(after + NormalizeLimit(limit), s.head);
             var page := s.events[after - gone..upTo - gone];
             page == history[after..upTo] && page[0].seqNo == after + 1 && page[|page| - 1].seqNo == upTo
    ensures Read(s, after, limit) == ReadOk(NextPage(history, after, limit))
  {
  }

  lemma ReadWithin(s: Stream, history: seq<Event>, after: nat, limit: int)
    requires IsSuffix(s, history) && s.head - |s.events| <= after < s.head
    ensures Read(s, after, limit) == ReadOk(NextPage(history, after, limit))
  {
    EventsNotAfter(s, history, after + 1);
    PageIsHistorySlice(s, history, after, Min(after + NormalizeLimit(limit), s.head));
    ReadServes(s, history, after, limit, s.head - |s.events|);
  }

  /** A page read from the retained suffix is exactly the next stretch of the whole history. */
  lemma ReadIsNextPage(s: Stream, history: seq<Event>, after: nat, limit: int)
    requires IsSuffix(s, history)
    ensures Read(s, after, limit) ==
            if Gone(s, after + 1) then ReadTooLong else ReadOk(NextPage(history, after, limit))
  {
    ReplayTooOldExact(s, history, after);
    if !ReplayTooOld(after, s.retained) {
      if after >= s.head { ReadAtHead(s, history, after, limit); } else { ReadWithin(s, history, after, limit); }
    }
  }

  /** Truncation makes a cursor unreplayable exactly when it stands below the cut (or already was unreplayable). */
  lemma TruncateReplayableExact(s: Stream, history: seq<Event>, before: nat, cursor: nat)
    requires IsSuffix(s, history)
    ensures ReplayTooOld(cursor, Truncate(s, before).retained) <==>
            ReplayTooOld(cursor, s.retained) || cursor + 1 < Min(before, s.head + 1)
  {
    var n := CountBelow(s.events, before);
    EventsNotAfter(s, history, before);
    if n < |s.events| { SuffixPosition(s, history, n); }
  }

  /** A key stands for one history position for ever; reusing it finds that event or reports it compacted. */
  lemma RetryNeverAssigns(s: Stream, history: seq<Event>, req: AppendRequest, r: Option<Retention>, nowMs: int)
    requires Represents(s, history) && req.idempotencyKey != ""
    ensures IsRetry(s, req) <==> exists q :: Carries(history, q, req.idempotencyKey)
    ensures IsRetry(s, req) ==>
              var q := s.index[req.idempotencyKey];
              && Append(s, req, r, nowMs).0 == s
              && 1 <= q <= |history|
              && (forall p :: Carries(history, p, req.idempotencyKey) <==> p == q)
              && Append(s, req, r, nowMs).1 ==
                   (if Gone(s, q) then Compacted else Deduplicated(history[q - 1]))
    ensures !IsRetry(s, req) ==>
              && Append(s, req, r, nowMs).0.head == s.head + 1
              && Append(s, req, r, nowMs).0.index[req.idempotencyKey] == s.head + 1
              && IsRetry(Append(s, req, r, nowMs).0, req)
  {
    if IsRetry(s, req) {
      var q := s.index[req.idempotencyKey];
      assert Carries(history, q, req.idempotencyKey);
      var found := Find(s.events, q);
      if found.Some? {
        var i :| 0 <= i < |s.events| && s.events[i] == found.value;
        SuffixPosition(s, history, i);
      }
    }
  }

  ghost predicate AllExpired(s: Stream, n: nat, r: Retention, nowMs: int)
    requires n <= |s.events|
  {
    r.ttlDays > 0 && forall i | 0 <= i < n :: Expired(s.events[i], r.ttlDays, nowMs)
  }

  /** Retention removes the longer of the expired prefix and the overflow, and nothing younger. */
  lemma RetentionExact(s: Stream, history: seq<Event>, r: Retention, nowMs: int)
    requires IsSuffix(s, history)
    ensures var t := Retain(s, Some(r), nowMs);
            var removed := |s.events| - |t.events|;
            && 0 <= removed
            && t.events == s.events[removed..]
            && (r.maxEvents > 0 ==> |t.events| <= r.maxEvents)
            && (forall n: nat | n <= |s.events| && AllExpired(s, n, r, nowMs) :: n <= removed)
            && (removed > 0 ==> (r.maxEvents > 0 && |t.events| == r.maxEvents) || AllExpired(s, removed, r, nowMs))
  {
    if r.ttlDays > 0 {
      var expired := CountExpired(s.events, r.ttlDays, nowMs);
      forall n: nat | n <= |s.events| && AllExpired(s, n, r, nowMs) ensures n <= expired {
        assert expired < |s.events| ==> !Expired(s.events[expired], r.ttlDays, nowMs);
      }
    }
  }

  /** An assigned event is the newest one held, unless retention removed everything, and MaxEvents holds at once. */
  lemma AppendIsBounded(s: Stream, history: seq<Event>, req: AppendRequest, r: Option<Retention>, nowMs: int)
    requires IsSuffix(s, history) && !IsRetry(s, req)
    ensures var t := Append(s, req, r, nowMs).0;
            && (t.events != [] ==> t.events[|t.events| - 1] == NewEvent(req, s.head + 1))
            && (r.None? ==> t.events == s.events + [NewEvent(req, s.head + 1)])
            && (r.Some? && r.value.maxEvents > 0 ==> |t.events| <= r.value.maxEvents)
  {
    PushKeepsSuffix(s, history, req);
    if r.Some? { RetentionExact(Push(s, req), history + [NewEvent(req, s.head + 1)], r.value, nowMs); }
  }

  /** An append that assigns nothing changes nothing. */
  lemma OnlyAssigningChanges(s: Stream, req: AppendRequest, r: Option<Retention>, nowMs: int)
    ensures !Append(s, req, r, nowMs).1.Assigned? ==> Append(s, req, r, nowMs).0 == s
  {
  }

  /** A new event gets the next number and is, field by field, what the request asked for; it ends the history. */
  lemma AppendStoresRequest(s: Stream, history: seq<Event>, req: AppendRequest, r: Option<Retention>, nowMs: int)
    requires req.idempotencyKey == "" || req.idempotencyKey !in s.index
    ensures var out := Append(s, req, r, nowMs).1;
            && out.Assigned?
            && out.event.seqNo == s.head + 1
            && out.event.streamId == req.streamId
            && out.event.payload == req.payload
            && out.event.payloadType == req.payloadType
            && out.event.payloadVersion == req.payloadVersion
            && out.event.idempotencyKey == req.idempotencyKey
            && out.event.createdAtMs == req.createdAtMs
            && HistoryAfterAppend(s, history, req) == history + [out.event]
  {
  }

  // The first n events held carry a time more than that many days before now.
  ghost predicate OldPrefix(events: seq<Event>, n: nat, ttlDays: int, nowMs: int)
    requires n <= |events|
  {
    forall i | 0 <= i < n :: 0 < events[i].createdAtMs && events[i].createdAtMs + ttlDays * 86_400_000 < nowMs
  }

  lemma OldMeansExpired(s: Stream, n: nat, ttlDays: int, nowMs: int)
    requires n <= |s.events|
    ensures OldPrefix(s.events, n, ttlDays, nowMs) <==> forall i | 0 <= i < n :: Expired(s.events[i], ttlDays, nowMs)
  {
  }

  /**
   What retention removes is a prefix as long as the overflow over MaxEvents or the longest prefix of
   old events, whichever is longer; without a time limit nothing is removed for its age.
   */
  lemma RetentionByAge(s: Stream, r: Retention, nowMs: int)
    ensures var t := Retain(s, Some(r), nowMs);
            var removed := |s.events| - |t.events|;
            var overflow := if r.maxEvents > 0 && |s.events| > r.maxEvents then |s.events| - r.maxEvents else 0;
            && 0 <= overflow <= removed && t.events == s.events[removed..]
            && (r.ttlDays <= 0 ==> removed == overflow)
            && (removed > overflow ==> OldPrefix(s.events, removed, r.ttlDays, nowMs))
            && (r.ttlDays > 0 ==>
                  forall n: nat | n <= |s.events| && OldPrefix(s.events, n, r.ttlDays, nowMs) :: n <= removed)
  {
    if r.ttlDays > 0 {
      var expired := CountExpired(s.events, r.ttlDays, nowMs);
      OldMeansExpired(s, expired, r.ttlDays, nowMs);
      forall n: nat | n <= |s.events| && OldPrefix(s.events, n, r.ttlDays, nowMs) ensures n <= expired {
        OldMeansExpired(s, n, r.ttlDays, nowMs);
      }
    }
  }

  /** With no overflow: exactly old events go, and the first one kept is not old. */
  lemma OnlyOldEventsGo(s: Stream, r: Retention, nowMs: int)
    requires r.maxEvents <= 0 || |s.events| <= r.maxEvents
    ensures var t := Retain(s, Some(r), nowMs);
            var removed := |s.events| - |t.events|;
            && 0 <= removed && t.events == s.events[removed..]
            && (r.ttlDays <= 0 ==> removed == 0)
            && (forall i | 0 <= i < removed ::
                  0 < s.events[i].createdAtMs && s.events[i].createdAtMs + r.ttlDays * 86_400_000 < nowMs)
            && (r.ttlDays > 0 && t.events != [] ==>
                  !(0 < t.events[0].createdAtMs && t.events[0].createdAtMs + r.ttlDays * 86_400_000 < nowMs))
  {
    RetentionByAge(s, r, nowMs);
    var removed := |s.events| - |Retain(s, Some(r), nowMs).events|;
    if r.ttlDays > 0 && removed < |s.events| {
      assert !OldPrefix(s.events, removed + 1, r.ttlDays, nowMs);
    }
  }

  // ---------------------------------------------------------------- the stream in place

  class StreamState {
    var head: nat
    var retainedSeqStart: nat
    var events: seq<Event>
    var idempotency: map<string, nat>
    ghost var history: seq<Event>  // every event ever assigned

    ghost function Value(): Stream
      reads this
    {
      Stream(head, retainedSeqStart, events, idempotency)
    }

    ghost predicate Valid()
      reads this
    {
      Represents(Value(), history)
    }

    constructor ()
      ensures Valid() && Value() == EMPTY_STREAM && history == []
    {
      head, retainedSeqStart, events, idempotency := 0, 0, [], map[];
      history := [];
    }

    method EventBySeq(seqNo: nat) returns (r: Option<Event>)
      ensures r == Find(events, seqNo)
    {
      var i := 0;
      while i < |events|
        invariant 0 <= i <= |events|
        invariant Find(events, seqNo) == Find(events[i..], seqNo)
      {
        assert events[i..][1..] == events[i + 1..];
        if events[i].seqNo == seqNo { return Some(events[i]); }
        i := i + 1;
      }
      r := None;
    }

    method Assign(req: AppendRequest) returns (event: Event)
      requires Valid() && !IsRetry(Value(), req)
      modifies this
      ensures Valid() && Value() == Push(old(Value()), req)
      ensures event == NewEvent(req, old(head) + 1) && history == old(history) + [event]
    {
      hide Represents;
      ghost var after := Push(Value(), req);
      PushKeepsRepresents(Value(), history, req);
      head := head + 1;
      event := NewEvent(req, head);
      events := events + [event];
      if retainedSeqStart == 0 || event.seqNo < retainedSeqStart {
        retainedSeqStart := event.seqNo;
      }
      if req.idempotencyKey != "" {
        idempotency := idempotency[req.idempotencyKey := event.seqNo];
      }
      history := history + [event];
      assert Value() == after;
    }

    method CutAt(keepFrom: nat)
      requires Valid() && keepFrom <= |events|
      modifies this
      ensures Valid() && history == old(history) && Value() == DropOldest(old(Value()), keepFrom)
    {
      hide Represents;
      ghost var after := DropOldest(Value(), keepFrom);
      DropKeepsRepresents(Value(), history, keepFrom);
      events := events[keepFrom..];
      if |events| > 0 {
        retainedSeqStart := events[0].seqNo;
      } else if head > 0 {
        retainedSeqStart := head + 1;
      }
      assert Value() == after;
    }

    method TruncateBefore(before: nat) returns (removed: nat)
      requires Valid()
      modifies this
      ensures Valid() && history == old(history)
      ensures Value() == Truncate(old(Value()), before)
      ensures removed == |old(events)| - |events|
    {
      hide Represents;
      var keepFrom := 0;
      while keepFrom < |events| && events[keepFrom].seqNo < before
        invariant 0 <= keepFrom <= |events|
        invariant CountBelow(events, before) == keepFrom + CountBelow(events[keepFrom..], before)
      {
        assert events[keepFrom..][1..] == events[keepFrom + 1..];
        keepFrom := keepFrom + 1;
      }
      removed := keepFrom;
      CutAt(keepFrom);
    }

    method CountRemovals(r: Retention, nowMs: int) returns (remove: nat)
      ensures remove == Removals(events, r, nowMs)
    {
      remove := 0;
      if r.ttlDays > 0 {
        while remove < |events| && Expired(events[remove], r.ttlDays, nowMs)
          invariant 0 <= remove <= |events|
          invariant CountExpired(events, r.ttlDays, nowMs) == remove + CountExpired(events[remove..], r.ttlDays, nowMs)
        {
          assert events[remove..][1..] == events[remove + 1..];
          remove := remove + 1;
        }
      }
      if r.maxEvents > 0 {
        var overflow := |events| - r.maxEvents;
        if overflow > remove { remove := overflow; }
      }
    }

    method ApplyRetention(r: Option<Retention>, nowMs: int)
      requires Valid()
      modifies this
      ensures Valid() && history == old(history)
      ensures Value() == Retain(old(Value()), r, nowMs)
    {
      hide Represents;
      if r.None? || |events| == 0 { return; }
      var remove := CountRemovals(r.value, nowMs);
      if remove > 0 { CutAt(remove); }
    }

    /** What an append does under the lock: find the earlier event, or assign a number and apply retention. */
    method AppendLocked(req: AppendRequest, r: Option<Retention>, nowMs: int) returns (outcome: AppendOutcome)
      requires Valid()
      modifies this
      ensures Valid()
      ensures (Value(), outcome) == Append(old(Value()), req, r, nowMs)
      ensures history == HistoryAfterAppend(old(Value()), old(history), req)
      ensures outcome.Assigned? ==>
                && history == old(history) + [outcome.event]
                && outcome.event.seqNo == old(head) + 1 == head
                && outcome.event.streamId == req.streamId && outcome.event.payload == req.payload
                && outcome.event.payloadType == req.payloadType && outcome.event.payloadVersion == req.payloadVersion
                && outcome.event.idempotencyKey == req.idempotencyKey && outcome.event.createdAtMs == req.createdAtMs
    {
      hide Represents;
      if req.idempotencyKey != "" && req.idempotencyKey in idempotency {
        var found := EventBySeq(idempotency[req.idempotencyKey]);
        return if found.Some? then Deduplicated(found.value) else Compacted;
      }
      var event := Assign(req);
      ApplyRetention(r, nowMs);
      outcome := Assigned(event);
    }

    method ReadAfter(after: nat, limit: int) returns (r: ReadOutcome)
      ensures r == Read(Value(), after, limit)
    {
      if ReplayTooOld(after, retainedSeqStart) { return ReadTooLong; }
      var start := 0;
      while start < |events| && events[start].seqNo <= after
        invariant 0 <= start <= |events|
        invariant CountBelow(events, after + 1) == start + CountBelow(events[start..], after + 1)
      {
        assert events[start..][1..] == events[start + 1..];
        start := start + 1;
      }
      if start == |events| { return ReadOk(Batch([], 0, head, true)); }
      var end := start + NormalizeLimit(limit);
      if end > |events| { end := |events|; }
      var page := events[start..end];
      r := ReadOk(Batch(page, page[0].seqNo, page[|page| - 1].seqNo, page[|page| - 1].seqNo == head));
    }
  }
}
