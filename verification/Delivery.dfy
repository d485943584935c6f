/**
 What one subscribe stream keeps about one binding, and what it sends (the loop bodies of
 pkg/synclog/transport/grpc/server.go and pkg/gateway/transport/grpc/server.go). Both loops take the
 same step per poll: restart from the committed cursor, hold back when too much is unacked, and send
 a batch or a TOO_LONG notice when there is something new to say.
 */
module Delivery {
  import opened Types
  import opened StreamLog
  import opened LogServer
  import opened CoreEngine

  datatype Tracker = Tracker(delivered: nat, tooLongSent: bool)

  const FRESH := Tracker(0, false)

  datatype Frame = NoFrame | TooLongFrame | BatchFrame(batch: Batch)

  function Observe(t: Tracker, cursor: nat): Tracker {
    if cursor >= t.delivered then Tracker(cursor, false) else t
  }

  predicate Throttled(t: Tracker, cursor: nat, maxInFlight: nat) {
    maxInFlight > 0 && t.delivered > cursor && t.delivered - cursor >= maxInFlight
  }

  function Poll(t: Tracker, cursor: nat, reply: CatchUpResult, maxInFlight: nat): (Tracker, Frame) {
    var u := Observe(t, cursor);
    if Throttled(u, cursor, maxInFlight) then (u, NoFrame)
    else if reply.status == StatusTooLong then
      if u.tooLongSent then (u, NoFrame) else (u.(tooLongSent := true), TooLongFrame)
    else if reply.batch.events == [] || reply.batch.seqEnd <= u.delivered then (u, NoFrame)
    else (u.(delivered := reply.batch.seqEnd), BatchFrame(reply.batch))
  }

  // ---------------------------------------------------------------- one stream over a run of the log

  ghost predicate InOrder(run: seq<Server>, looks: seq<Look>) {
    && (forall m | 0 <= m < |looks| :: looks[m].at <= looks[m].i <= looks[m].j <= looks[m].k < |run|)
    && (forall m | 0 < m < |looks| :: looks[m - 1].k <= looks[m].at)
  }

  datatype Config = Config(subscriber: string, limit: int, maxInFlight: nat)

  function Reply(c: Config, run: seq<Server>, look: Look): CatchUpResult
    requires look.i < |run| && look.j < |run| && look.k < |run|
  {
    CatchUp(CursorOf(run[look.i], c.subscriber), run[look.j].stream, run[look.k].stream, c.limit, 0)
  }

  // State and frames after polling at each look in turn, starting fresh.
  ghost function Deliver(c: Config, run: seq<Server>, looks: seq<Look>): (r: (Tracker, seq<Frame>))
    requires InOrder(run, looks)
    ensures |r.1| == |looks|
  {
    if looks == [] then (FRESH, [])
    else
      var n := |looks| - 1;
      var before := Deliver(c, run, looks[..n]);
      var look := looks[n];
      var step := Poll(before.0, CursorOf(run[look.at], c.subscriber), Reply(c, run, look), c.maxInFlight);
      (step.0, before.1 + [step.1])
  }

  // The run state the last poll ended in.
  function Now(looks: seq<Look>): nat {
    if looks == [] then 0 else looks[|looks| - 1].k
  }

  // Number q was acknowledged, or is inside one of the batches sent.
  ghost predicate Covered(frames: seq<Frame>, acked: nat, q: nat) {
    q <= acked || exists m | 0 <= m < |frames| ::
        frames[m].BatchFrame? && frames[m].batch.seqStart <= q <= frames[m].batch.seqEnd
  }

  ghost predicate Sound(frames: seq<Frame>, history: seq<Event>, delivered: nat) {
    forall m | 0 <= m < |frames| && frames[m].BatchFrame? ::
      var b := frames[m].batch;
      1 <= b.seqStart <= b.seqEnd <= delivered <= |history| && b.events == history[b.seqStart - 1..b.seqEnd]
  }

  ghost predicate Increasing(frames: seq<Frame>) {
    forall m, n | 0 <= m < n < |frames| && frames[m].BatchFrame? && frames[n].BatchFrame? ::
      frames[m].batch.seqEnd < frames[n].batch.seqEnd
  }

  ghost predicate Good(c: Config, s: Server, t: Tracker, frames: seq<Frame>) {
    var cursor := CursorOf(s, c.subscriber);
    && cursor <= |s.history|
    && t.delivered <= |s.history|
    && t.delivered <= cursor + NormalizeLimit(c.limit)
    && Sound(frames, s.history, t.delivered)
    && Increasing(frames)
    && (forall q | 1 <= q <= t.delivered :: Covered(frames, cursor, q))
  }

  lemma SoundGrows(frames: seq<Frame>, history: seq<Event>, d: nat, history': seq<Event>, d': nat)
    requires Sound(frames, history, d) && history <= history' && d <= d' <= |history'|
    ensures Sound(frames, history', d')
  {
  }

  // What a poll observed stays true of every later state.
  lemma GoodLater(c: Config, s: Server, s': Server, t: Tracker, frames: seq<Frame>)
    requires Good(c, s, t, frames) && Later(s, s') && LogServer.Inv(s')
    ensures Good(c, s', t, frames)
  {
    CursorMonotone(s, s', c.subscriber);
    SoundGrows(frames, s.history, t.delivered, s'.history, t.delivered);
    forall q | 1 <= q <= t.delivered ensures Covered(frames, CursorOf(s', c.subscriber), q) {
      assert Covered(frames, CursorOf(s, c.subscriber), q);
    }
  }

  lemma GoodObserve(c: Config, s: Server, t: Tracker, frames: seq<Frame>)
    requires Good(c, s, t, frames)
    ensures Good(c, s, Observe(t, CursorOf(s, c.subscriber)), frames)
  {
    var u := Observe(t, CursorOf(s, c.subscriber));
    SoundGrows(frames, s.history, t.delivered, s.history, u.delivered);
  }

  // A quiet poll or a notice adds no batch.
  lemma GoodNotice(c: Config, s: Server, t: Tracker, frames: seq<Frame>, u: Tracker, f: Frame)
    requires Good(c, s, t, frames) && u.delivered == t.delivered && !f.BatchFrame?
    ensures Good(c, s, u, frames + [f])
  {
    forall q | 1 <= q <= u.delivered ensures Covered(frames + [f], CursorOf(s, c.subscriber), q) {
      CoveredGrows(frames, f, CursorOf(s, c.subscriber), q);
    }
  }

  lemma CoveredGrows(frames: seq<Frame>, f: Frame, acked: nat, q: nat)
    requires Covered(frames, acked, q)
    ensures Covered(frames + [f], acked, q)
  {
    if q > acked {
      var m :| 0 <= m < |frames| && frames[m].BatchFrame? && frames[m].batch.seqStart <= q <= frames[m].batch.seqEnd;
      assert (frames + [f])[m] == frames[m];
    }
  }

  // A batch served from cursor c0 leaves nothing out between what was acked and its own end.
  lemma GoodBatch(c: Config, s: Server, t: Tracker, frames: seq<Frame>, b: Batch, c0: nat)
    requires Good(c, s, t, frames) && c0 <= CursorOf(s, c.subscriber)
    requires b == NextPage(s.history, c0, c.limit) && b.events != [] && b.seqEnd > t.delivered
    ensures Good(c, s, t.(delivered := b.seqEnd), frames + [BatchFrame(b)])
  {
    var sent := frames + [BatchFrame(b)];
    SoundGrows(frames, s.history, t.delivered, s.history, b.seqEnd);
    forall q | 1 <= q <= b.seqEnd ensures Covered(sent, CursorOf(s, c.subscriber), q) {
      if q <= t.delivered {
        CoveredGrows(frames, BatchFrame(b), CursorOf(s, c.subscriber), q);
      } else {
        assert sent[|frames|] == BatchFrame(b);
      }
    }
  }

  lemma PollKeepsGood(c: Config, run: seq<Server>, look: Look, t: Tracker, frames: seq<Frame>)
    requires IsRun(run) && look.at <= look.i <= look.j <= look.k < |run|
    requires Good(c, run[look.at], t, frames)
    ensures var step := Poll(t, CursorOf(run[look.at], c.subscriber), Reply(c, run, look), c.maxInFlight);
            Good(c, run[look.k], step.0, frames + [step.1])
  {
    var u := Observe(t, CursorOf(run[look.at], c.subscriber));
    var s := run[look.k];
    GoodObserve(c, run[look.at], t, frames);
    RunInvariant(run, look.at, look.k);
    GoodLater(c, run[look.at], s, u, frames);
    RunInvariant(run, look.i, look.k);
    CursorMonotone(run[look.i], s, c.subscriber);
    InterleavedCatchUp(run, look.i, look.j, look.k, c.subscriber, c.limit, 0);
    var step := Poll(t, CursorOf(run[look.at], c.subscriber), Reply(c, run, look), c.maxInFlight);
    if step.1.BatchFrame? {
      GoodBatch(c, s, u, frames, step.1.batch, CursorOf(run[look.i], c.subscriber));
    } else {
      GoodNotice(c, s, u, frames, step.0, step.1);
    }
  }

  lemma {:induction false} DeliverGood(c: Config, run: seq<Server>, looks: seq<Look>)
    requires IsRun(run) && InOrder(run, looks)
    ensures var r := Deliver(c, run, looks); Now(looks) < |run| && Good(c, run[Now(looks)], r.0, r.1)
  {
    if looks != [] {
      var n := |looks| - 1;
      var look := looks[n];
      DeliverGood(c, run, looks[..n]);
      RunInvariant(run, Now(looks[..n]), look.at);
      var before := Deliver(c, run, looks[..n]);
      GoodLater(c, run[Now(looks[..n])], run[look.at], before.0, before.1);
      PollKeepsGood(c, run, look, before.0, before.1);
    }
  }

  /**
   Flow control and no skipped delivery, in every state of the run from the last poll on: what was
   delivered never passes the head nor the committed cursor by more than one page; every batch sent is
   the log's own stretch between its bounds, ends strictly after every earlier one, and together with
   what was acked the batches cover everything delivered.
   */
  lemma FlowControl(c: Config, run: seq<Server>, looks: seq<Look>, e: nat)
    requires IsRun(run) && InOrder(run, looks) && Now(looks) <= e < |run|
    ensures var r := Deliver(c, run, looks);
            var cursor := CursorOf(run[e], c.subscriber);
            && r.0.delivered <= |run[e].history|
            && r.0.delivered <= cursor + NormalizeLimit(c.limit)
            && Sound(r.1, run[e].history, r.0.delivered)
            && Increasing(r.1)
            && (forall q | 1 <= q <= r.0.delivered :: Covered(r.1, cursor, q))
  {
    DeliverGood(c, run, looks);
    RunInvariant(run, Now(looks), e);
    var r := Deliver(c, run, looks);
    GoodLater(c, run[Now(looks)], run[e], r.0, r.1);
  }

  function Batches(frames: seq<Frame>): nat {
    if frames == [] then 0
    else Batches(frames[..|frames| - 1]) + (if frames[|frames| - 1].BatchFrame? then 1 else 0)
  }

  /** The count is of the batches among the frames. */
  lemma {:induction false} BatchesCount(frames: seq<Frame>)
    ensures Batches(frames) == |set m | 0 <= m < |frames| && frames[m].BatchFrame?|
  {
    if frames != [] {
      var n := |frames| - 1;
      BatchesCount(frames[..n]);
      var before := set m | 0 <= m < n && frames[..n][m].BatchFrame?;
      var all := set m | 0 <= m < |frames| && frames[m].BatchFrame?;
      assert all == if frames[n].BatchFrame? then before + {n} else before;
    }
  }

  /** Likewise of the notices. */
  lemma {:induction false} NoticesCount(frames: seq<Frame>)
    ensures Notices(frames) == |set m | 0 <= m < |frames| && frames[m] == TooLongFrame|
  {
    if frames != [] {
      var n := |frames| - 1;
      NoticesCount(frames[..n]);
      var before := set m | 0 <= m < n && frames[..n][m] == TooLongFrame;
      var all := set m | 0 <= m < |frames| && frames[m] == TooLongFrame;
      assert all == if frames[n] == TooLongFrame then before + {n} else before;
    }
  }

  lemma {:induction false} BatchesBounded(frames: seq<Frame>, history: seq<Event>, delivered: nat)
    requires Sound(frames, history, delivered) && Increasing(frames)
    ensures Batches(frames) <= delivered
  {
    if frames != [] {
      var n := |frames| - 1;
      if frames[n].BatchFrame? {
        var end := frames[n].batch.seqEnd;
        forall m | 0 <= m < n && frames[m].BatchFrame? ensures frames[m].batch.seqEnd <= end - 1 {
        }
        BatchesBounded(frames[..n], history, end - 1);
      } else {
        BatchesBounded(frames[..n], history, delivered);
      }
    }
  }

  /** A stream sends at most one batch per event of the log, however long it polls. */
  lemma SendsAreBounded(c: Config, run: seq<Server>, looks: seq<Look>)
    requires IsRun(run) && InOrder(run, looks)
    ensures Now(looks) < |run| && Batches(Deliver(c, run, looks).1) <= |run[Now(looks)].history|
  {
    DeliverGood(c, run, looks);
    var r := Deliver(c, run, looks);
    BatchesBounded(r.1, run[Now(looks)].history, r.0.delivered);
  }

  /**
   Back-pressure compares against what one page can leave unacked: a limit above the page size never
   holds anything back.
   */
  lemma LargeLimitNeverThrottles(c: Config, run: seq<Server>, looks: seq<Look>, at: nat)
    requires IsRun(run) && InOrder(run, looks) && Now(looks) <= at < |run|
    requires c.maxInFlight > NormalizeLimit(c.limit)
    ensures var cursor := CursorOf(run[at], c.subscriber);
            !Throttled(Observe(Deliver(c, run, looks).0, cursor), cursor, c.maxInFlight)
  {
    FlowControl(c, run, looks, at);
  }

  // A poll made after the given ones.
  ghost predicate ComesNext(run: seq<Server>, looks: seq<Look>, look: Look) {
    IsRun(run) && InOrder(run, looks) && Now(looks) <= look.at <= look.i <= look.j <= look.k < |run|
  }

  // What it sends, had the stream this in-flight limit from now on.
  ghost function Sends(c: Config, run: seq<Server>, looks: seq<Look>, look: Look, maxInFlight: nat): Frame
    requires ComesNext(run, looks, look)
  {
    Poll(Deliver(c, run, looks).0, CursorOf(run[look.at], c.subscriber), Reply(c, run, look), maxInFlight).1
  }

  // The poll would send a batch, and the in-flight limit keeps it back.
  ghost predicate KeepsBatch(c: Config, run: seq<Server>, looks: seq<Look>, look: Look) {
    && ComesNext(run, looks, look)
    && Sends(c, run, looks, look, c.maxInFlight) == NoFrame
    && Sends(c, run, looks, look, 0).BatchFrame?
  }

  // The poll would signal TOO_LONG, and the in-flight limit keeps it back.
  ghost predicate KeepsNotice(c: Config, run: seq<Server>, looks: seq<Look>, look: Look) {
    && ComesNext(run, looks, look)
    && Sends(c, run, looks, look, c.maxInFlight) == NoFrame
    && Sends(c, run, looks, look, 0) == TooLongFrame
  }

  // Polls of the raw loop, which compares with the cursor its catch-up read.
  ghost predicate RawLooks(looks: seq<Look>, look: Look) {
    look.at == look.i && forall m | 0 <= m < |looks| :: looks[m].at == looks[m].i
  }

  // Something is kept back only by a limit that is set and no larger than a page.
  lemma KeepingNeedsLimit(c: Config, run: seq<Server>, looks: seq<Look>, look: Look)
    requires KeepsBatch(c, run, looks, look) || KeepsNotice(c, run, looks, look)
    ensures 0 < c.maxInFlight <= NormalizeLimit(c.limit)
    ensures Throttled(Observe(Deliver(c, run, looks).0, CursorOf(run[look.at], c.subscriber)),
                      CursorOf(run[look.at], c.subscriber), c.maxInFlight)
  {
    if c.maxInFlight > NormalizeLimit(c.limit) { LargeLimitNeverThrottles(c, run, looks, look.at); }
  }

  // In the raw loop a kept batch ends within one page of the very cursor it is compared with.
  lemma RawKeepingNeedsLess(c: Config, run: seq<Server>, looks: seq<Look>, look: Look)
    requires KeepsBatch(c, run, looks, look) && look.at == look.i
    ensures c.maxInFlight < NormalizeLimit(c.limit)
  {
    KeepingNeedsLimit(c, run, looks, look);
    InterleavedCatchUp(run, look.i, look.j, look.k, c.subscriber, c.limit, 0);
  }

  // ---------------------------------------------------------------- runs in which something is kept back

  const ANY_EVENT := StepAppend(AppendRequest("s", [], "event", 1, "", 0), None, 0)

  // A log of n events, all held, that nobody has acked.
  ghost predicate Untouched(s: Server, n: nat) {
    |s.history| == |s.stream.events| == n && s.cursors == map[]
  }

  lemma RunGoesOn(run: seq<Server>, step: Step)
    requires IsRun(run) && Enabled(run[|run| - 1], step)
    ensures IsRun(run + [Take(run[|run| - 1], step)])
  {
    var longer := run + [Take(run[|run| - 1], step)];
    forall i | 0 < i < |longer| ensures Next(longer[i - 1], longer[i]) {
      if i < |run| { assert Next(run[i - 1], run[i]); }
    }
  }

  lemma {:induction false} AppendsOnly(n: nat) returns (run: seq<Server>)
    ensures IsRun(run) && |run| == n + 1 && forall m: nat | m <= n :: Untouched(run[m], m)
  {
    if n == 0 { return [INITIAL]; }
    var before := AppendsOnly(n - 1);
    RunGoesOn(before, ANY_EVENT);
    run := before + [Take(before[n - 1], ANY_EVENT)];
    forall m: nat | m <= n ensures Untouched(run[m], m) {
      if m < n { assert run[m] == before[m]; }
    }
  }

  // A poll that makes all its reads in one state.
  function LookAt(n: nat): Look {
    Look(n, n, n, n)
  }

  // Polled once, a page of the untouched log is sent and stays in flight.
  lemma WholeLogInFlight(c: Config, run: seq<Server>, n: nat)
    requires IsRun(run) && n < |run| && Untouched(run[n], n) && 0 < n <= NormalizeLimit(c.limit)
    requires c.maxInFlight > 0
    ensures InOrder(run, [LookAt(n)]) && Deliver(c, run, [LookAt(n)]).0 == Tracker(n, false)
  {
    RunInv(run, n);
    assert run[n].stream.events[0].seqNo == 1;
    InterleavedCatchUp(run, n, n, n, c.subscriber, c.limit, 0);
    assert [LookAt(n)][..0] == [];
    assert Deliver(c, run, [LookAt(n)][..0]).0 == FRESH;
  }

  // Another event comes in while n events are in flight: a longer page would end past them.
  lemma RawKeepsBatch(c: Config) returns (run: seq<Server>)
    requires 0 < c.maxInFlight < NormalizeLimit(c.limit)
    ensures var n := c.maxInFlight;
            RawLooks([LookAt(n)], LookAt(n + 1)) && KeepsBatch(c, run, [LookAt(n)], LookAt(n + 1))
  {
    var n := c.maxInFlight;
    run := AppendsOnly(n + 1);
    WholeLogInFlight(c, run, n);
    RunInv(run, n + 1);
    assert run[n + 1].stream.events[0].seqNo == 1;
    InterleavedCatchUp(run, n + 1, n + 1, n + 1, c.subscriber, c.limit, 0);
  }

  // n events, another one, and then an ack of the first.
  lemma AckedRun(subscriber: string, n: nat) returns (run: seq<Server>)
    requires n > 0
    ensures IsRun(run) && |run| == n + 3 && Untouched(run[n], n) && CursorOf(run[n + 1], subscriber) == 0
    ensures |run[n + 2].history| == n + 1 && CursorOf(run[n + 2], subscriber) == 1
    ensures !Gone(run[n + 2].stream, 2)
  {
    var before := AppendsOnly(n + 1);
    var ack := StepAck(subscriber, 1);
    RunInv(before, n + 1);
    RunGoesOn(before, ack);
    run := before + [Take(before[n + 1], ack)];
    assert run[n] == before[n] && run[n + 1] == before[n + 1];
    assert run[n + 2].stream.events[1].seqNo == 2;
  }

  // A full page is in flight, and the first event is acked between the two cursor reads of one poll.
  lemma GatewayKeepsBatch(c: Config) returns (run: seq<Server>)
    requires 0 < c.maxInFlight == NormalizeLimit(c.limit)
    ensures var n := c.maxInFlight;
            KeepsBatch(c, run, [LookAt(n)], Look(n + 1, n + 2, n + 2, n + 2))
  {
    var n := c.maxInFlight;
    run := AckedRun(c.subscriber, n);
    WholeLogInFlight(c, run, n);
    InterleavedCatchUp(run, n + 2, n + 2, n + 2, c.subscriber, c.limit, 0);
    hide IsRun, CatchUp;
  }

  // The first event is truncated away while n events are in flight.
  lemma RawKeepsNotice(c: Config) returns (run: seq<Server>)
    requires 0 < c.maxInFlight <= NormalizeLimit(c.limit)
    ensures var n := c.maxInFlight;
            RawLooks([LookAt(n)], LookAt(n + 1)) && KeepsNotice(c, run, [LookAt(n)], LookAt(n + 1))
  {
    var n := c.maxInFlight;
    var before := AppendsOnly(n);
    RunInv(before, n);
    RunGoesOn(before, StepTruncate(2));
    run := before + [Take(before[n], StepTruncate(2))];
    assert run[n] == before[n];
    WholeLogInFlight(c, run, n);
    TruncateReplayableExact(before[n].stream, before[n].history, 2, 0);
  }

  // ---------------------------------------------------------------- exactly when

  /** In the raw loop the limit can keep a batch back if and only if it is set and smaller than a page. */
  lemma RawKeepsExactly(c: Config)
    ensures (exists run, looks, look :: RawLooks(looks, look) && KeepsBatch(c, run, looks, look)) <==>
            0 < c.maxInFlight < NormalizeLimit(c.limit)
  {
    forall run, looks, look | RawLooks(looks, look) && KeepsBatch(c, run, looks, look)
      ensures 0 < c.maxInFlight < NormalizeLimit(c.limit)
    {
      KeepingNeedsLimit(c, run, looks, look);
      RawKeepingNeedsLess(c, run, looks, look);
    }
    if 0 < c.maxInFlight < NormalizeLimit(c.limit) {
      var run := RawKeepsBatch(c);
    }
  }

  /**
   The gateway reads the cursor it compares with before its catch-up reads it again, so there a limit of
   exactly one page can keep a batch back too.
   */
  lemma GatewayKeepsExactly(c: Config)
    ensures (exists run, looks, look :: KeepsBatch(c, run, looks, look)) <==>
            0 < c.maxInFlight <= NormalizeLimit(c.limit)
  {
    forall run, looks, look | KeepsBatch(c, run, looks, look) ensures 0 < c.maxInFlight <= NormalizeLimit(c.limit) {
      KeepingNeedsLimit(c, run, looks, look);
    }
    if 0 < c.maxInFlight < NormalizeLimit(c.limit) {
      var run := RawKeepsBatch(c);
    } else if c.maxInFlight == NormalizeLimit(c.limit) {
      var run := GatewayKeepsBatch(c);
    }
  }

  /** In either loop the limit can keep a TOO_LONG back if and only if it is set and no larger than a page. */
  lemma NoticeKeptExactly(c: Config)
    ensures (exists run, looks, look :: RawLooks(looks, look) && KeepsNotice(c, run, looks, look)) <==>
            0 < c.maxInFlight <= NormalizeLimit(c.limit)
    ensures (exists run, looks, look :: KeepsNotice(c, run, looks, look)) <==>
            0 < c.maxInFlight <= NormalizeLimit(c.limit)
  {
    forall run, looks, look | KeepsNotice(c, run, looks, look) ensures 0 < c.maxInFlight <= NormalizeLimit(c.limit) {
      KeepingNeedsLimit(c, run, looks, look);
    }
    if 0 < c.maxInFlight <= NormalizeLimit(c.limit) {
      var run := RawKeepsNotice(c);
    }
  }

  // ---------------------------------------------------------------- signalling

  datatype Input = Input(cursor: nat, reply: CatchUpResult)

  function Polls(t: Tracker, inputs: seq<Input>, maxInFlight: nat): (r: (Tracker, seq<Frame>))
    ensures |r.1| == |inputs|
  {
    if inputs == [] then (t, [])
    else
      var n := |inputs| - 1;
      var before := Polls(t, inputs[..n], maxInFlight);
      var step := Poll(before.0, inputs[n].cursor, inputs[n].reply, maxInFlight);
      (step.0, before.1 + [step.1])
  }

  function Notices(frames: seq<Frame>): nat {
    if frames == [] then 0
    else Notices(frames[..|frames| - 1]) + (if frames[|frames| - 1] == TooLongFrame then 1 else 0)
  }

  // At every poll something delivered is still unacked.
  ghost predicate StaysAhead(t: Tracker, inputs: seq<Input>, maxInFlight: nat) {
    inputs != [] ==>
      var n := |inputs| - 1;
      StaysAhead(t, inputs[..n], maxInFlight) && inputs[n].cursor < Polls(t, inputs[..n], maxInFlight).0.delivered
  }

  /** While something delivered stays unacked, TOO_LONG is signalled at most once, and never after it was. */
  lemma {:induction false} TooLongOnce(t: Tracker, inputs: seq<Input>, maxInFlight: nat)
    requires StaysAhead(t, inputs, maxInFlight)
    ensures var r := Polls(t, inputs, maxInFlight);
            Notices(r.1) <= 1 && (t.tooLongSent ==> Notices(r.1) == 0)
            && (r.0.tooLongSent <==> t.tooLongSent || Notices(r.1) == 1)
  {
    if inputs != [] {
      var n := |inputs| - 1;
      TooLongOnce(t, inputs[..n], maxInFlight);
      var before := Polls(t, inputs[..n], maxInFlight);
      var step := Poll(before.0, inputs[n].cursor, inputs[n].reply, maxInFlight);
      NoticesStep(before.1, step.1);
    }
  }

  lemma NoticesStep(frames: seq<Frame>, f: Frame)
    ensures Notices(frames + [f]) == Notices(frames) + (if f == TooLongFrame then 1 else 0)
  {
    assert (frames + [f])[..|frames|] == frames;
  }

  /** Not so when nothing is unacked: each poll that finds the cursor caught up signals TOO_LONG again. */
  lemma {:induction false} TooLongRepeats(t: Tracker, inputs: seq<Input>, maxInFlight: nat, cursor: nat)
    requires t.delivered <= cursor
    requires forall m | 0 <= m < |inputs| :: inputs[m].cursor == cursor && inputs[m].reply.status == StatusTooLong
    ensures Notices(Polls(t, inputs, maxInFlight).1) == |inputs|
    ensures Polls(t, inputs, maxInFlight).0.delivered <= cursor
  {
    if inputs != [] {
      var n := |inputs| - 1;
      TooLongRepeats(t, inputs[..n], maxInFlight, cursor);
      NoticesStep(Polls(t, inputs[..n], maxInFlight).1, TooLongFrame);
    }
  }

  // At the poll of this input something delivered was still unacked.
  ghost predicate AheadAt(inputs: seq<Input>, k: nat, maxInFlight: nat)
    requires k < |inputs|
  {
    inputs[k].cursor < Polls(FRESH, inputs[..k], maxInFlight).0.delivered
  }

  ghost predicate ToldAt(inputs: seq<Input>, m: nat, upTo: nat, maxInFlight: nat)
    requires m < upTo <= |inputs|
  {
    && Polls(FRESH, inputs, maxInFlight).1[m] == TooLongFrame
    && forall k | m < k < upTo :: AheadAt(inputs, k, maxInFlight)
  }

  // TOO_LONG was signalled at some poll, and at every poll since something delivered was unacked.
  ghost predicate ToldSince(inputs: seq<Input>, upTo: nat, maxInFlight: nat)
    requires upTo <= |inputs|
  {
    exists m | 0 <= m < upTo :: ToldAt(inputs, m, upTo, maxInFlight)
  }

  lemma PollsStep(inputs: seq<Input>, maxInFlight: nat)
    requires inputs != []
    ensures var n := |inputs| - 1;
            var before := Polls(FRESH, inputs[..n], maxInFlight);
            var step := Poll(before.0, inputs[n].cursor, inputs[n].reply, maxInFlight);
            Polls(FRESH, inputs, maxInFlight) == (step.0, before.1 + [step.1])
  {
  }

  // Later polls change nothing about the frames of earlier ones.
  lemma {:induction false} PollsPrefix(t: Tracker, inputs: seq<Input>, k: nat, maxInFlight: nat)
    requires k <= |inputs|
    ensures Polls(t, inputs[..k], maxInFlight).1 == Polls(t, inputs, maxInFlight).1[..k]
  {
    hide Poll;
    var n := |inputs| - 1;
    if k <= n {
      PollsPrefix(t, inputs[..n], k, maxInFlight);
      assert inputs[..n][..k] == inputs[..k];
    } else {
      assert inputs[..k] == inputs;
    }
  }

  lemma {:induction false} PollsSplit(t: Tracker, a: seq<Input>, b: seq<Input>, maxInFlight: nat)
    ensures var first := Polls(t, a, maxInFlight);
            var second := Polls(first.0, b, maxInFlight);
            Polls(t, a + b, maxInFlight) == (second.0, first.1 + second.1)
  {
    hide Poll;
    var first := Polls(t, a, maxInFlight);
    if b == [] {
      assert a + b == a && first.1 + [] == first.1;
    } else {
      var n := |b| - 1;
      assert (a + b)[..|a + b| - 1] == a + b[..n];
      PollsSplit(t, a, b[..n], maxInFlight);
      var middle := Polls(first.0, b[..n], maxInFlight);
      var step := Poll(middle.0, b[n].cursor, b[n].reply, maxInFlight);
      assert (first.1 + middle.1) + [step.1] == first.1 + (middle.1 + [step.1]);
    }
  }

  lemma ToldPrefix(inputs: seq<Input>, n: nat, k: nat, maxInFlight: nat)
    requires n <= k <= |inputs|
    ensures ToldSince(inputs[..k], n, maxInFlight) <==> ToldSince(inputs, n, maxInFlight)
  {
    PollsPrefix(FRESH, inputs, k, maxInFlight);
    forall m | 0 <= m < n ensures AheadAt(inputs[..k], m, maxInFlight) <==> AheadAt(inputs, m, maxInFlight) {
      assert inputs[..k][..m] == inputs[..m];
    }
    forall m | 0 <= m < n ensures ToldAt(inputs[..k], m, n, maxInFlight) <==> ToldAt(inputs, m, n, maxInFlight) {
      assert Polls(FRESH, inputs[..k], maxInFlight).1[m] == Polls(FRESH, inputs, maxInFlight).1[m];
    }
  }

  lemma ToldStep(inputs: seq<Input>, maxInFlight: nat)
    requires inputs != []
    ensures var n := |inputs| - 1;
            ToldSince(inputs, n + 1, maxInFlight) <==>
              || Polls(FRESH, inputs, maxInFlight).1[n] == TooLongFrame
              || (ToldSince(inputs, n, maxInFlight) && AheadAt(inputs, n, maxInFlight))
  {
    var n := |inputs| - 1;
    forall m | 0 <= m < n
      ensures ToldAt(inputs, m, n + 1, maxInFlight) <==>
              ToldAt(inputs, m, n, maxInFlight) && AheadAt(inputs, n, maxInFlight)
    {
    }
    if ToldSince(inputs, n + 1, maxInFlight) {
      var m :| 0 <= m < n + 1 && ToldAt(inputs, m, n + 1, maxInFlight);
      assert m < n ==> ToldAt(inputs, m, n, maxInFlight);
    }
    if ToldSince(inputs, n, maxInFlight) && AheadAt(inputs, n, maxInFlight) {
      var m :| 0 <= m < n && ToldAt(inputs, m, n, maxInFlight);
      assert ToldAt(inputs, m, n + 1, maxInFlight);
    }
    assert ToldAt(inputs, n, n + 1, maxInFlight) <==> Polls(FRESH, inputs, maxInFlight).1[n] == TooLongFrame;
  }

  // What the flag means: TOO_LONG was signalled, and something delivered has been unacked since.
  lemma {:induction false} FlagExact(inputs: seq<Input>, maxInFlight: nat)
    ensures Polls(FRESH, inputs, maxInFlight).0.tooLongSent <==> ToldSince(inputs, |inputs|, maxInFlight)
  {
    if inputs != [] {
      FlagExact(inputs[..|inputs| - 1], maxInFlight);
      ToldPrefix(inputs, |inputs| - 1, |inputs| - 1, maxInFlight);
      ToldStep(inputs, maxInFlight);
      PollsStep(inputs, maxInFlight);
      hide ToldSince;
    }
  }

  // There is room, the reply is TOO_LONG, and it was not already signalled at an earlier poll since which
  // something delivered was unacked at every poll.
  ghost predicate NoticeDue(inputs: seq<Input>, n: nat, maxInFlight: nat)
    requires n < |inputs|
  {
    var delivered := Polls(FRESH, inputs[..n], maxInFlight).0.delivered;
    var inFlight := if delivered > inputs[n].cursor then delivered - inputs[n].cursor else 0;
    && (inFlight == 0 || maxInFlight == 0 || inFlight < maxInFlight)
    && inputs[n].reply.status == StatusTooLong
    && !(AheadAt(inputs, n, maxInFlight) && ToldSince(inputs, n, maxInFlight))
  }

  lemma NoticeAtEnd(inputs: seq<Input>, maxInFlight: nat)
    requires inputs != []
    ensures var n := |inputs| - 1;
            Polls(FRESH, inputs, maxInFlight).1[n] == TooLongFrame <==> NoticeDue(inputs, n, maxInFlight)
  {
    FlagExact(inputs[..|inputs| - 1], maxInFlight);
    ToldPrefix(inputs, |inputs| - 1, |inputs| - 1, maxInFlight);
    PollsStep(inputs, maxInFlight);
    hide ToldSince;
  }

  /** A poll signals TOO_LONG if and only if a notice is due: at every poll, whatever came before and comes after. */
  lemma NoticeExact(inputs: seq<Input>, n: nat, maxInFlight: nat)
    requires n < |inputs|
    ensures Polls(FRESH, inputs, maxInFlight).1[n] == TooLongFrame <==> NoticeDue(inputs, n, maxInFlight)
  {
    var upTo := inputs[..n + 1];
    NoticeAtEnd(upTo, maxInFlight);
    PollsPrefix(FRESH, inputs, n + 1, maxInFlight);
    ToldPrefix(inputs, n, n + 1, maxInFlight);
    assert upTo[..n] == inputs[..n];
    assert Polls(FRESH, upTo, maxInFlight).1[n] == Polls(FRESH, inputs, maxInFlight).1[n];
    hide ToldSince, Polls;
  }

  lemma {:induction false} AheadStays(inputs: seq<Input>, a: nat, b: nat, maxInFlight: nat)
    requires a <= b <= |inputs| && forall k | a <= k < b :: AheadAt(inputs, k, maxInFlight)
    ensures StaysAhead(Polls(FRESH, inputs[..a], maxInFlight).0, inputs[a..b], maxInFlight)
    decreases b - a
  {
    hide Poll;
    if a < b {
      AheadStays(inputs, a, b - 1, maxInFlight);
      var upTo := inputs[a..b];
      assert upTo[..|upTo| - 1] == inputs[a..b - 1] && upTo[|upTo| - 1] == inputs[b - 1];
      PollsSplit(FRESH, inputs[..a], inputs[a..b - 1], maxInFlight);
      assert inputs[..a] + inputs[a..b - 1] == inputs[..b - 1];
      assert AheadAt(inputs, b - 1, maxInFlight);
    }
  }

  /** Across any stretch of polls at which something delivered is unacked, at most one TOO_LONG goes out. */
  lemma AtMostOneNotice(inputs: seq<Input>, a: nat, b: nat, maxInFlight: nat)
    requires a <= b <= |inputs| && forall k | a <= k < b :: AheadAt(inputs, k, maxInFlight)
    ensures Notices(Polls(FRESH, inputs, maxInFlight).1[a..b]) <= 1
  {
    hide Poll, StaysAhead, Notices;
    var t := Polls(FRESH, inputs[..a], maxInFlight).0;
    AheadStays(inputs, a, b, maxInFlight);
    TooLongOnce(t, inputs[a..b], maxInFlight);
    PollsSplit(FRESH, inputs[..a], inputs[a..b], maxInFlight);
    assert inputs[..a] + inputs[a..b] == inputs[..b];
    PollsPrefix(FRESH, inputs, b, maxInFlight);
    assert Polls(FRESH, inputs, maxInFlight).1[a..b] == Polls(FRESH, inputs[..b], maxInFlight).1[a..];
    assert Polls(t, inputs[a..b], maxInFlight).1 == Polls(FRESH, inputs[..b], maxInFlight).1[a..];
  }

  // What the poll at each look hands to the loop.
  ghost function InputsOf(c: Config, run: seq<Server>, looks: seq<Look>): (inputs: seq<Input>)
    requires InOrder(run, looks)
    ensures |inputs| == |looks|
    ensures forall m | 0 <= m < |looks| ::
              inputs[m] == Input(CursorOf(run[looks[m].at], c.subscriber), Reply(c, run, looks[m]))
  {
    seq(|looks|, m requires 0 <= m < |looks| =>
      Input(CursorOf(run[looks[m].at], c.subscriber), Reply(c, run, looks[m])))
  }

  /** A stream over a run of the log is the machine the signalling lemmas are about. */
  lemma {:induction false} DeliverIsPolls(c: Config, run: seq<Server>, looks: seq<Look>)
    requires InOrder(run, looks)
    ensures Deliver(c, run, looks) == Polls(FRESH, InputsOf(c, run, looks), c.maxInFlight)
  {
    hide Poll, Reply, CursorOf;
    if looks != [] {
      var n := |looks| - 1;
      DeliverIsPolls(c, run, looks[..n]);
      assert InputsOf(c, run, looks)[..n] == InputsOf(c, run, looks[..n]);
    }
  }

  /**
   A batch goes out exactly when the stream has room, the reply is a page and the page ends past what was
   delivered.
   */
  lemma BatchGate(t: Tracker, cursor: nat, reply: CatchUpResult, maxInFlight: nat)
    ensures var step := Poll(t, cursor, reply, maxInFlight);
            var inFlight := if t.delivered > cursor then t.delivered - cursor else 0;
            && (step.1 == BatchFrame(reply.batch) <==>
                  && (inFlight == 0 || maxInFlight == 0 || inFlight < maxInFlight)
                  && reply.status == StatusOk && reply.batch.events != []
                  && reply.batch.seqEnd > Max(t.delivered, cursor))
            && (step.1.BatchFrame? ==> step.1.batch == reply.batch)
            && step.0.delivered == if step.1.BatchFrame? then reply.batch.seqEnd else Max(t.delivered, cursor)
  {
  }

  // ---------------------------------------------------------------- the single-stream loop

  /** The state of the raw Subscribe loop (pkg/synclog/transport/grpc/server.go). */
  class RawSubscription {
    var delivered: nat
    var tooLongSent: bool

    ghost function Value(): Tracker
      reads this
    {
      Tracker(delivered, tooLongSent)
    }

    constructor ()
      ensures Value() == FRESH
    {
      delivered, tooLongSent := 0, false;
    }

    // One turn of the loop: what is sent, and whether the next turn follows without waiting.
    method Turn(reply: CatchUpResult, maxInFlight: nat) returns (frame: Frame, again: bool)
      modifies this
      ensures (Value(), frame) == Poll(old(Value()), reply.cursor, reply, maxInFlight)
      ensures again <==> frame.BatchFrame? && !frame.batch.final
    {
      frame, again := NoFrame, false;
      if reply.cursor >= delivered {
        delivered := reply.cursor;
        tooLongSent := false;
      }
      if maxInFlight > 0 && delivered > reply.cursor && delivered - reply.cursor >= maxInFlight {
        return;
      }
      if reply.status == StatusTooLong {
        if !tooLongSent {
          frame := TooLongFrame;
          tooLongSent := true;
        }
        return;
      }
      if |reply.batch.events| > 0 && reply.batch.seqEnd > delivered {
        frame := BatchFrame(reply.batch);
        delivered := reply.batch.seqEnd;
        again := !reply.batch.final;
      }
    }

    /** The loop over the replies of its polls: what it keeps and sends is what the machine keeps and sends. */
    method Subscribe(replies: seq<CatchUpResult>, maxInFlight: nat) returns (frames: seq<Frame>)
      modifies this
      ensures (Value(), frames) == Polls(old(Value()), RawInputs(replies), maxInFlight)
    {
      frames := [];
      for n := 0 to |replies|
        invariant (Value(), frames) == Polls(old(Value()), RawInputs(replies[..n]), maxInFlight)
      {
        assert RawInputs(replies[..n + 1])[..n] == RawInputs(replies[..n]);
        var frame, _ := Turn(replies[n], maxInFlight);
        frames := frames + [frame];
      }
      assert replies[..|replies|] == replies;
    }
  }

  // The raw loop compares with the cursor its catch-up reports.
  function RawInputs(replies: seq<CatchUpResult>): (inputs: seq<Input>)
    ensures |inputs| == |replies|
    ensures forall m | 0 <= m < |replies| :: inputs[m] == Input(replies[m].cursor, replies[m])
  {
    seq(|replies|, m requires 0 <= m < |replies| => Input(replies[m].cursor, replies[m]))
  }

  ghost function RepliesOf(c: Config, run: seq<Server>, looks: seq<Look>): (replies: seq<CatchUpResult>)
    requires InOrder(run, looks)
    ensures |replies| == |looks| && forall m | 0 <= m < |looks| :: replies[m] == Reply(c, run, looks[m])
  {
    seq(|looks|, m requires 0 <= m < |looks| => Reply(c, run, looks[m]))
  }

  /** The raw loop over the replies of a run is the stream that flow control and signalling are proved of. */
  lemma RawLoopDelivers(c: Config, run: seq<Server>, looks: seq<Look>)
    requires InOrder(run, looks) && forall m | 0 <= m < |looks| :: looks[m].at == looks[m].i
    ensures Polls(FRESH, RawInputs(RepliesOf(c, run, looks)), c.maxInFlight) == Deliver(c, run, looks)
  {
    DeliverIsPolls(c, run, looks);
    assert RawInputs(RepliesOf(c, run, looks)) == InputsOf(c, run, looks);
  }
}
