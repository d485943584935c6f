/**
 The gateway's live subscribe stream (pkg/gateway/transport/grpc/server.go): delivery state kept in
 two maps over string keys, pruning when the target set changes, and one poll step per response. What
 the maps hold for a key is proved to be what an independent single-binding stream would hold.
 */
module GatewayLoop {
  import opened Types
  import opened CoreEngine
  import opened LogServer
  import opened Keys
  import opened Delivery
  import opened GatewayEngine

  function KeyFor(r: Response): string {
    DeliveryKey(r.state.target, r.bindingKey)
  }

  datatype Maps = Maps(delivered: map<string, nat>, tooLongSent: map<string, bool>)

  // A missing entry reads as zero and false.
  function TrackerOf(m: Maps, key: string): Tracker {
    Tracker(if key in m.delivered then m.delivered[key] else 0,
            key in m.tooLongSent && m.tooLongSent[key])
  }

  // Some active target's key is a prefix of this entry's key.
  predicate Kept(key: string, targets: seq<Target>) {
    exists i | 0 <= i < |targets| :: TargetKey(targets[i]) + "#" <= key
  }

  datatype Sent = Sent(key: string, frame: Frame)

  // ---------------------------------------------------------------- the independent machine of one key

  // The polls a response list makes for one key.
  function PollsFor(t: Tracker, responses: seq<Response>, key: string, maxInFlight: nat): (Tracker, seq<Frame>) {
    if responses == [] then (t, [])
    else
      var n := |responses| - 1;
      var before := PollsFor(t, responses[..n], key, maxInFlight);
      if KeyFor(responses[n]) != key then before
      else
        var step := Poll(before.0, CursorFor(responses[n]), responses[n].reply, maxInFlight);
        (step.0, before.1 + [step.1])
  }

  datatype Iteration = Iteration(targets: seq<Target>, responses: seq<Response>)

  // One key on its own: forgotten when no active target owns it, polled by its own responses.
  function KeyTurn(t: Tracker, it: Iteration, key: string, maxInFlight: nat): (Tracker, seq<Frame>) {
    PollsFor(if Kept(key, it.targets) then t else FRESH, it.responses, key, maxInFlight)
  }

  function KeyRun(t: Tracker, its: seq<Iteration>, key: string, maxInFlight: nat): (Tracker, seq<Frame>) {
    if its == [] then (t, [])
    else
      var n := |its| - 1;
      var before := KeyRun(t, its[..n], key, maxInFlight);
      var turn := KeyTurn(before.0, its[n], key, maxInFlight);
      (turn.0, before.1 + turn.1)
  }

  // The frames of a log of sends that went out under one key; NoFrame marks a poll that sent nothing.
  function FramesFor(log: seq<Sent>, key: string): seq<Frame> {
    if log == [] then []
    else
      var n := |log| - 1;
      FramesFor(log[..n], key) + (if log[n].key == key then [log[n].frame] else [])
  }

  lemma {:induction false} FramesForAppend(a: seq<Sent>, b: seq<Sent>, key: string)
    ensures FramesFor(a + b, key) == FramesFor(a, key) + FramesFor(b, key)
  {
    if b == [] {
      assert a + b == a;
    } else {
      var n := |b| - 1;
      assert (a + b)[..|a + b| - 1] == a + b[..n];
      FramesForAppend(a, b[..n], key);
    }
  }

  // ---------------------------------------------------------------- the stream's delivery state

  method PruneMap<V>(m: map<string, V>, targets: seq<Target>) returns (out: map<string, V>)
    ensures out == map k | k in m && Kept(k, targets) :: m[k]
  {
    out := m;
    var rest := m.Keys;
    while rest != {}
      invariant rest <= m.Keys
      invariant forall k :: k in out <==> k in m && (k in rest || Kept(k, targets))
      invariant forall k | k in out :: out[k] == m[k]
      decreases |rest|
    {
      var key :| key in rest;
      rest := rest - {key};
      if !Kept(key, targets) { out := out - {key}; }
    }
  }

  lemma PollsForStep(t: Tracker, responses: seq<Response>, i: nat, key: string, maxInFlight: nat)
    requires i < |responses|
    ensures PollsFor(t, responses[..i + 1], key, maxInFlight) ==
            var before := PollsFor(t, responses[..i], key, maxInFlight);
            if KeyFor(responses[i]) != key then before
            else
              var step := Poll(before.0, CursorFor(responses[i]), responses[i].reply, maxInFlight);
              (step.0, before.1 + [step.1])
  {
    assert responses[..i + 1][..i] == responses[..i];
  }

  lemma FramesForStep(log: seq<Sent>, s: Sent, key: string)
    ensures FramesFor(log + [s], key) == FramesFor(log, key) + (if s.key == key then [s.frame] else [])
  {
    assert (log + [s])[..|log|] == log;
  }

  // Some batch sent was not the last one: the loop polls again at once.
  ghost predicate HasMore(log: seq<Sent>) {
    exists i | 0 <= i < |log| :: log[i].frame.BatchFrame? && !log[i].frame.batch.final
  }

  lemma HasMoreStep(log: seq<Sent>, s: Sent)
    ensures HasMore(log + [s]) <==> HasMore(log) || (s.frame.BatchFrame? && !s.frame.batch.final)
  {
    if HasMore(log) {
      var i :| 0 <= i < |log| && log[i].frame.BatchFrame? && !log[i].frame.batch.final;
      assert (log + [s])[i] == log[i];
    }
    if s.frame.BatchFrame? && !s.frame.batch.final { assert (log + [s])[|log|] == s; }
  }

  lemma HasMoreExact(log: seq<Sent>)
    ensures HasMore(log) <==> exists s | s in log :: s.frame.BatchFrame? && !s.frame.batch.final
  {
    if s :| s in log && s.frame.BatchFrame? && !s.frame.batch.final {
      var i :| 0 <= i < |log| && log[i] == s;
    }
    if i :| 0 <= i < |log| && log[i].frame.BatchFrame? && !log[i].frame.batch.final {
      assert log[i] in log;
    }
  }

  class GatewayStream {
    var delivered: map<string, nat>
    var tooLongSent: map<string, bool>
    var sent: seq<Sent>

    ghost function Value(): Maps
      reads this
    {
      Maps(delivered, tooLongSent)
    }

    constructor ()
      ensures Value() == Maps(map[], map[]) && sent == []
    {
      delivered, tooLongSent, sent := map[], map[], [];
    }

    /** Drops the entries of targets that are gone and keeps every other entry as it is. */
    method Prune(targets: seq<Target>)
      modifies this`delivered, this`tooLongSent
      ensures delivered == map k | k in old(delivered) && Kept(k, targets) :: old(delivered)[k]
      ensures tooLongSent == map k | k in old(tooLongSent) && Kept(k, targets) :: old(tooLongSent)[k]
      ensures forall key ::
                TrackerOf(Value(), key) == if Kept(key, targets) then old(TrackerOf(Value(), key)) else FRESH
    {
      delivered := PruneMap(delivered, targets);
      tooLongSent := PruneMap(tooLongSent, targets);
    }

    /** One response: the step of its own key's machine, and nothing under any other key. */
    method Handle(r: Response, maxInFlight: nat) returns (frame: Frame, throttled: bool)
      modifies this
      ensures (TrackerOf(Value(), KeyFor(r)), frame) ==
          Poll(old(TrackerOf(Value(), KeyFor(r))), CursorFor(r), r.reply, maxInFlight)
      ensures forall key | key != KeyFor(r) :: TrackerOf(Value(), key) == old(TrackerOf(Value(), key))
      ensures sent == old(sent) + [Sent(KeyFor(r), frame)]
      ensures throttled <==>
              Throttled(Observe(old(TrackerOf(Value(), KeyFor(r))), CursorFor(r)), CursorFor(r), maxInFlight)
    {
      var key, cursor := KeyFor(r), CursorFor(r);
      frame, throttled := NoFrame, false;
      var d := if key in delivered then delivered[key] else 0;
      if cursor >= d {
        d := cursor;
        delivered := delivered[key := cursor];
        tooLongSent := tooLongSent[key := false];
      }
      if maxInFlight > 0 && d > cursor && d - cursor >= maxInFlight {
        throttled := true;
      } else if r.reply.status == StatusTooLong {
        if !(key in tooLongSent && tooLongSent[key]) {
          tooLongSent := tooLongSent[key := true];
          frame := TooLongFrame;
        }
      } else if |r.reply.batch.events| > 0 && r.reply.batch.seqEnd > d {
        frame := BatchFrame(r.reply.batch);
        delivered := delivered[key := r.reply.batch.seqEnd];
      }
      sent := sent + [Sent(key, frame)];
    }

    // The sends since the given log, seen per key, are those of each key's own machine.
    ghost predicate Follows(start: Maps, log: seq<Sent>, responses: seq<Response>, maxInFlight: nat)
      reads this
    {
      && log <= sent
      && (forall key :: TrackerOf(Value(), key) == PollsFor(TrackerOf(start, key), responses, key, maxInFlight).0)
      && (forall key :: FramesFor(sent[|log|..], key) == PollsFor(TrackerOf(start, key), responses, key, maxInFlight).1)
    }

    method HandleNext(ghost start: Maps, ghost log: seq<Sent>, responses: seq<Response>, i: nat, maxInFlight: nat)
      returns (frame: Frame)
      requires i < |responses| && Follows(start, log, responses[..i], maxInFlight)
      modifies this
      ensures Follows(start, log, responses[..i + 1], maxInFlight)
      ensures sent == old(sent) + [Sent(KeyFor(responses[i]), frame)]
    {
      var r := responses[i];
      ghost var mid := sent;
      var throttled;
      frame, throttled := Handle(r, maxInFlight);
      assert sent[|log|..] == mid[|log|..] + [Sent(KeyFor(r), frame)];
      forall key
        ensures TrackerOf(Value(), key) == PollsFor(TrackerOf(start, key), responses[..i + 1], key, maxInFlight).0
        ensures FramesFor(sent[|log|..], key) == PollsFor(TrackerOf(start, key), responses[..i + 1], key, maxInFlight).1
      {
        PollsForStep(TrackerOf(start, key), responses, i, key, maxInFlight);
        FramesForStep(mid[|log|..], Sent(KeyFor(r), frame), key);
      }
    }

    /** One turn of the loop: every key, known or not, takes exactly its own machine's turn. */
    method Turn(it: Iteration, maxInFlight: nat) returns (again: bool)
      modifies this
      ensures old(sent) <= sent
      ensures forall key :: TrackerOf(Value(), key) == KeyTurn(old(TrackerOf(Value(), key)), it, key, maxInFlight).0
      ensures forall key ::
                FramesFor(sent[|old(sent)|..], key) == KeyTurn(old(TrackerOf(Value(), key)), it, key, maxInFlight).1
      ensures again <==> exists s | s in sent[|old(sent)|..] :: s.frame.BatchFrame? && !s.frame.batch.final
    {
      hide HasMore, Kept;
      Prune(it.targets);
      ghost var start, log := Value(), sent;
      again := false;
      HasMoreExact(sent[|log|..]);
      for i := 0 to |it.responses|
        invariant Follows(start, log, it.responses[..i], maxInFlight)
        invariant again <==> HasMore(sent[|log|..])
      {
        ghost var mid := sent;
        var frame := HandleNext(start, log, it.responses, i, maxInFlight);
        assert sent[|log|..] == mid[|log|..] + [Sent(KeyFor(it.responses[i]), frame)];
        HasMoreStep(mid[|log|..], Sent(KeyFor(it.responses[i]), frame));
        again := again || (frame.BatchFrame? && !frame.batch.final);
      }
      assert it.responses[..|it.responses|] == it.responses;
      HasMoreExact(sent[|log|..]);
    }

    // The stream so far, seen per key, is each key's own machine run over the same iterations.
    ghost predicate Ran(start: Maps, log: seq<Sent>, its: seq<Iteration>, maxInFlight: nat)
      reads this
    {
      && log <= sent
      && (forall key :: TrackerOf(Value(), key) == KeyRun(TrackerOf(start, key), its, key, maxInFlight).0)
      && (forall key :: FramesFor(sent[|log|..], key) == KeyRun(TrackerOf(start, key), its, key, maxInFlight).1)
    }

    /**
     Non-interference, one iteration at a time: the state and the sends of every key go on being those of
     a stream that serves this key alone.
     */
    method TurnNext(ghost start: Maps, ghost log: seq<Sent>, ghost its: seq<Iteration>, it: Iteration, maxInFlight: nat)
      requires Ran(start, log, its, maxInFlight)
      modifies this
      ensures Ran(start, log, its + [it], maxInFlight)
    {
      ghost var mid := sent;
      var _ := Turn(it, maxInFlight);
      assert sent[|log|..] == mid[|log|..] + sent[|mid|..];
      assert (its + [it])[..|its|] == its;
      forall key
        ensures FramesFor(sent[|log|..], key) == KeyRun(TrackerOf(start, key), its + [it], key, maxInFlight).1 {
        FramesForAppend(mid[|log|..], sent[|mid|..], key);
      }
    }
  }

  // ---------------------------------------------------------------- what one key's machine does

  lemma {:induction false} KeyRunSplit(t: Tracker, a: seq<Iteration>, b: seq<Iteration>, key: string, maxInFlight: nat)
    ensures var first := KeyRun(t, a, key, maxInFlight);
            var second := KeyRun(first.0, b, key, maxInFlight);
            KeyRun(t, a + b, key, maxInFlight) == (second.0, first.1 + second.1)
  {
    if b == [] {
      assert a + b == a;
      assert KeyRun(t, a, key, maxInFlight).1 + [] == KeyRun(t, a, key, maxInFlight).1;
    } else {
      var n := |b| - 1;
      assert (a + b)[..|a + b| - 1] == a + b[..n];
      KeyRunSplit(t, a, b[..n], key, maxInFlight);
      var first := KeyRun(t, a, key, maxInFlight);
      var middle := KeyRun(first.0, b[..n], key, maxInFlight);
      var turn := KeyTurn(middle.0, b[n], key, maxInFlight);
      assert (first.1 + middle.1) + turn.1 == first.1 + (middle.1 + turn.1);
    }
  }

  lemma {:induction false} KeyRunForgets(t: Tracker, its: seq<Iteration>, key: string, maxInFlight: nat)
    requires its != [] && !Kept(key, its[0].targets)
    ensures KeyRun(t, its, key, maxInFlight) == KeyRun(FRESH, its, key, maxInFlight)
  {
    var n := |its| - 1;
    if n > 0 {
      assert its[..n][0] == its[0];
      KeyRunForgets(t, its[..n], key, maxInFlight);
    } else {
      assert its[..n] == [];
    }
  }

  /**
   When an iteration finds a key's target absent, what follows is what a new stream would send, whatever
   was sent before.
   */
  lemma ReAddStartsFresh(t: Tracker, a: seq<Iteration>, b: seq<Iteration>, key: string, maxInFlight: nat)
    requires b != [] && !Kept(key, b[0].targets)
    ensures var since := KeyRun(FRESH, b, key, maxInFlight);
            KeyRun(t, a + b, key, maxInFlight) == (since.0, KeyRun(t, a, key, maxInFlight).1 + since.1)
  {
    KeyRunSplit(t, a, b, key, maxInFlight);
    KeyRunForgets(KeyRun(t, a, key, maxInFlight).0, b, key, maxInFlight);
  }

  // Nothing in the responses reaches up to n.
  ghost predicate Below(responses: seq<Response>, n: nat) {
    forall r | r in responses :: CursorFor(r) < n && r.reply.batch.seqEnd < n
  }

  lemma {:induction false} SomeBound(responses: seq<Response>) returns (n: nat)
    ensures n > 0 && Below(responses, n)
  {
    if responses == [] { return 1; }
    var last := responses[|responses| - 1];
    n := SomeBound(responses[..|responses| - 1]);
    n := n + CursorFor(last) + last.reply.batch.seqEnd + 1;
  }

  // A tracker far ahead of the responses stays where it is, and one behind them stays behind.
  lemma {:induction false} PollsBelow(t: Tracker, responses: seq<Response>, key: string, maxInFlight: nat, n: nat)
    requires Below(responses, n)
    ensures t.delivered == n ==> PollsFor(t, responses, key, maxInFlight).0.delivered == n
    ensures t.delivered < n ==> PollsFor(t, responses, key, maxInFlight).0.delivered < n
  {
    if responses != [] { PollsBelow(t, responses[..|responses| - 1], key, maxInFlight, n); }
  }

  /**
   An iteration forgets what a key had been sent if and only if it finds no active target of that key. A
   target that is removed and added again between two iterations is not found absent, and keeps its state.
   */
  lemma ForgetsExactly(it: Iteration, key: string, maxInFlight: nat)
    ensures (forall t :: KeyTurn(t, it, key, maxInFlight) == KeyTurn(FRESH, it, key, maxInFlight)) <==>
            !Kept(key, it.targets)
  {
    if Kept(key, it.targets) {
      var n := SomeBound(it.responses);
      var ahead := Tracker(n, false);
      PollsBelow(ahead, it.responses, key, maxInFlight, n);
      PollsBelow(FRESH, it.responses, key, maxInFlight, n);
      assert KeyTurn(ahead, it, key, maxInFlight) != KeyTurn(FRESH, it, key, maxInFlight);
    }
  }

  /** With separable targets, pruning keeps exactly the entries of the active targets. */
  lemma KeptExact(targets: seq<Target>, u: Target, binding: string)
    requires Separable(u) && forall t | t in targets :: Separable(t)
    ensures Kept(DeliveryKey(u, binding), targets) <==> u in targets
  {
    var key := DeliveryKey(u, binding);
    forall i | 0 <= i < |targets| ensures TargetKey(targets[i]) + "#" <= key <==> targets[i] == u {
      PrefixExact(targets[i], u, binding);
    }
  }

  // Response i is the only one that concerns the key.
  ghost predicate OnlyResponse(responses: seq<Response>, i: nat, key: string) {
    && i < |responses| && KeyFor(responses[i]) == key
    && forall j | 0 <= j < |responses| && j != i :: KeyFor(responses[j]) != key
  }

  // What one engine poll answers: active separable targets, each binding of a target once.
  ghost predicate FromPoll(it: Iteration) {
    && (forall r | r in it.responses :: r.state.target in it.targets)
    && (forall t | t in it.targets :: Separable(t))
    && (forall i, j | 0 <= i < j < |it.responses| ::
          it.responses[i].state.target != it.responses[j].state.target
          || it.responses[i].bindingKey != it.responses[j].bindingKey)
  }

  /** Within one poll no two bindings share a key, and every one of them is kept. */
  lemma PollKeysDistinct(it: Iteration, i: nat)
    requires FromPoll(it) && i < |it.responses|
    ensures OnlyResponse(it.responses, i, KeyFor(it.responses[i])) && Kept(KeyFor(it.responses[i]), it.targets)
  {
    var r := it.responses[i];
    assert r in it.responses;
    KeptExact(it.targets, r.state.target, r.bindingKey);
    forall j | 0 <= j < |it.responses| && j != i ensures KeyFor(it.responses[j]) != KeyFor(r) {
      assert it.responses[j] in it.responses;
      DeliveryKeyInjective(it.responses[j].state.target, it.responses[j].bindingKey, r.state.target, r.bindingKey);
    }
  }

  lemma {:induction false} NoPolls(t: Tracker, responses: seq<Response>, key: string, maxInFlight: nat)
    requires forall j | 0 <= j < |responses| :: KeyFor(responses[j]) != key
    ensures PollsFor(t, responses, key, maxInFlight) == (t, [])
  {
    if responses != [] { NoPolls(t, responses[..|responses| - 1], key, maxInFlight); }
  }

  lemma {:induction false} OnePoll(t: Tracker, responses: seq<Response>, i: nat, key: string, maxInFlight: nat)
    requires OnlyResponse(responses, i, key)
    ensures var step := Poll(t, CursorFor(responses[i]), responses[i].reply, maxInFlight);
            PollsFor(t, responses, key, maxInFlight) == (step.0, [step.1])
  {
    var n := |responses| - 1;
    if i == n {
      NoPolls(t, responses[..n], key, maxInFlight);
      var step := Poll(t, CursorFor(responses[i]), responses[i].reply, maxInFlight);
      assert [] + [step.1] == [step.1];
    } else {
      OnePoll(t, responses[..n], i, key, maxInFlight);
    }
  }

  // The iteration polled the key once, with what the given look at the run's states saw.
  ghost predicate Observes(c: Config, run: seq<Server>, it: Iteration, key: string, look: Look)
    requires look.at < |run| && look.i < |run| && look.j < |run| && look.k < |run|
  {
    exists i: nat ::
      OnlyResponse(it.responses, i, key)
      && CursorFor(it.responses[i]) == CursorOf(run[look.at], c.subscriber)
      && it.responses[i].reply == Reply(c, run, look)
  }

  /** The binding was active and polled once in every iteration, by looks taken in order. */
  ghost predicate Tracks(c: Config, run: seq<Server>, its: seq<Iteration>, looks: seq<Look>, key: string) {
    && InOrder(run, looks)
    && |its| == |looks|
    && forall m | 0 <= m < |its| :: Kept(key, its[m].targets) && Observes(c, run, its[m], key, looks[m])
  }

  lemma TracksPrefix(c: Config, run: seq<Server>, its: seq<Iteration>, looks: seq<Look>, key: string, n: nat)
    requires Tracks(c, run, its, looks, key) && n <= |its|
    ensures Tracks(c, run, its[..n], looks[..n], key)
  {
    assert InOrder(run, looks[..n]);
    forall m | 0 <= m < n ensures Kept(key, its[..n][m].targets) && Observes(c, run, its[..n][m], key, looks[..n][m]) {
      assert Observes(c, run, its[m], key, looks[m]);
    }
  }

  lemma ObservedTurn(c: Config, run: seq<Server>, it: Iteration, key: string, look: Look, t: Tracker)
    requires look.at < |run| && look.i < |run| && look.j < |run| && look.k < |run|
    requires Kept(key, it.targets) && Observes(c, run, it, key, look)
    ensures var step := Poll(t, CursorOf(run[look.at], c.subscriber), Reply(c, run, look), c.maxInFlight);
            KeyTurn(t, it, key, c.maxInFlight) == (step.0, [step.1])
  {
    var i: nat :| OnlyResponse(it.responses, i, key)
                  && CursorFor(it.responses[i]) == CursorOf(run[look.at], c.subscriber)
                  && it.responses[i].reply == Reply(c, run, look);
    OnePoll(t, it.responses, i, key, c.maxInFlight);
  }

  lemma {:induction false} KeyRunIsDeliver(c: Config, run: seq<Server>, its: seq<Iteration>, looks: seq<Look>,
                                           key: string)
    requires Tracks(c, run, its, looks, key)
    ensures KeyRun(FRESH, its, key, c.maxInFlight) == Deliver(c, run, looks)
  {
    if its != [] {
      var n := |its| - 1;
      TracksPrefix(c, run, its, looks, key, n);
      KeyRunIsDeliver(c, run, its[..n], looks[..n], key);
      ObservedTurn(c, run, its[n], key, looks[n], KeyRun(FRESH, its[..n], key, c.maxInFlight).0);
    }
  }

  /**
   Flow control behind the gateway: since its target was last added, one binding of a stream that
   serves many delivers within one page of its own committed cursor, without a gap and without ever
   sending the same batch end twice, whatever the other targets of the stream do.
   */
  lemma GatewayFlowControl(c: Config, run: seq<Server>, its: seq<Iteration>, looks: seq<Look>, key: string, e: nat)
    requires IsRun(run) && Tracks(c, run, its, looks, key) && Now(looks) <= e < |run|
    ensures var r := KeyRun(FRESH, its, key, c.maxInFlight);
            var cursor := CursorOf(run[e], c.subscriber);
            && r.0.delivered <= |run[e].history|
            && r.0.delivered <= cursor + NormalizeLimit(c.limit)
            && Sound(r.1, run[e].history, r.0.delivered)
            && Increasing(r.1)
            && (forall q | 1 <= q <= r.0.delivered :: Covered(r.1, cursor, q))
  {
    KeyRunIsDeliver(c, run, its, looks, key);
    FlowControl(c, run, looks, e);
  }
}
