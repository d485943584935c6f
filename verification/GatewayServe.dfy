/**
 GatewaySubscribe as a whole (pkg/gateway/transport/grpc/server.go): the live target set, one engine
 poll per iteration and the delivery state together, and what a binding is guaranteed since its target
 was last added.
 */
module GatewayServe {
  import opened Types
  import opened LogServer
  import opened CoreEngine
  import opened Keys
  import opened Delivery
  import opened GatewayEngine
  import opened GatewayPoll
  import opened GatewayLoop
  import opened LiveSubscriptions

  // The request, and the ModifySubscription calls that come in before each iteration.
  datatype Subscription = Subscription(id: string, subscriber: string, initial: seq<Target>, script: seq<seq<Change>>)

  predicate Concerns(s: Subscription, c: Change) {
    s.id != "" && c.id == s.id && c.subscriber == s.subscriber
  }

  function AfterChanges(s: Subscription, keys: set<string>, changes: seq<Change>): set<string> {
    if changes == [] then keys
    else
      var n := |changes| - 1;
      var before := AfterChanges(s, keys, changes[..n]);
      if Concerns(s, changes[n]) then Changed(before, changes[n]) else before
  }

  // The keys of the active targets when the first n groups of calls have come in.
  function LiveAt(s: Subscription, n: nat): set<string>
    requires n <= |s.script|
  {
    if n == 0 then KeysOf(s.initial) else AfterChanges(s, LiveAt(s, n - 1), s.script[n - 1])
  }

  // A successful poll of this iteration's targets, or no poll when there are none.
  ghost predicate Polled(q: Query, it: Iteration, looks: seq<Look>) {
    && (forall i, j | 0 <= i < j < |it.targets| :: it.targets[i] != it.targets[j])
    && (forall t | t in it.targets :: Acceptable(q, t))
    && AllAnswered(q, Jobs(q, it.targets), it.responses, looks)
  }

  // Iteration n polled the targets live at that point, between times n and n + 1.
  ghost predicate ServedAt(q: Query, s: Subscription, it: Iteration, looks: seq<Look>, n: nat, from: nat, to: nat)
    requires n < |s.script|
  {
    from <= to && Polled(q, it, looks) && Within(looks, from, to) && KeysOf(it.targets) == LiveAt(s, n + 1)
  }

  datatype Trace = Trace(its: seq<Iteration>, looks: seq<seq<Look>>, times: seq<nat>)

  ghost predicate Served(q: Query, s: Subscription, tr: Trace) {
    && |tr.its| == |tr.looks| <= |s.script| && |tr.times| == |tr.its| + 1
    && forall n | 0 <= n < |tr.its| :: ServedAt(q, s, tr.its[n], tr.looks[n], n, tr.times[n], tr.times[n + 1])
  }

  // ---------------------------------------------------------------- the call

  // The stream is reachable for ModifySubscription under its own id, or under none.
  ghost predicate Attached(reg: Registry, s: Subscription, live: LiveTargets)
    reads reg, reg.subs.Values, live
  {
    && reg.Valid() && live.Valid() && live.subscriber == s.subscriber
    && if s.id != "" then s.id in reg.subs && reg.subs[s.id] == live else live !in reg.subs.Values
  }

  method ModifyOne(reg: Registry, s: Subscription, live: LiveTargets, c: Change)
    requires Attached(reg, s, live)
    modifies reg.subs.Values
    ensures Attached(reg, s, live)
    ensures live.targets.Keys == if Concerns(s, c) then Changed(old(live.targets).Keys, c) else old(live.targets).Keys
  {
    var ok := reg.Modify(c);
    assert ok && Concerns(s, c) ==> reg.subs[c.id] == live;
  }

  method ModifyAll(reg: Registry, s: Subscription, live: LiveTargets, changes: seq<Change>)
    requires Attached(reg, s, live)
    modifies reg.subs.Values
    ensures Attached(reg, s, live)
    ensures live.targets.Keys == AfterChanges(s, old(live.targets).Keys, changes)
  {
    ghost var keys := live.targets.Keys;
    for i := 0 to |changes|
      invariant Attached(reg, s, live)
      invariant live.targets.Keys == AfterChanges(s, keys, changes[..i])
    {
      assert changes[..i + 1][..i] == changes[..i];
      ModifyOne(reg, s, live, changes[i]);
    }
    assert changes[..|changes|] == changes;
  }

  // Polling targets with these keys in that time fails: one is not acceptable or an event may not be shown.
  ghost predicate FailsFor(q: Query, keys: set<string>, targets: seq<Target>, from: nat, to: nat) {
    && KeysOf(targets) == keys && targets != []
    && ((exists t | t in targets :: !Acceptable(q, t)) || SomeRefused(q, Jobs(q, targets), from, to))
  }

  ghost predicate PollFails(q: Query, keys: set<string>) {
    exists targets, from, to :: FailsFor(q, keys, targets, from, to)
  }

  method PollLive(q: Query, live: LiveTargets, now: nat)
    returns (it: Option<Iteration>, end: nat, ghost looks: seq<Look>)
    requires live.Valid()
    ensures now <= end
    ensures it.Some? ==>
              Polled(q, it.value, looks) && Within(looks, now, end) && KeysOf(it.value.targets) == live.targets.Keys
    ensures it.None? ==> PollFails(q, live.targets.Keys)
  {
    var targets := live.Snapshot();
    if targets == [] { return Some(Iteration([], [])), now, []; }
    var responses;
    responses, end, looks := PollTargets(q, targets, now);
    if responses.None? {
      assert FailsFor(q, live.targets.Keys, targets, now, end);
      return None, end, looks;
    }
    it := Some(Iteration(targets, responses.value));
  }

  lemma ServedStep(q: Query, s: Subscription, tr: Trace, it: Iteration, looks: seq<Look>, end: nat)
    requires Served(q, s, tr) && |tr.its| < |s.script|
    requires ServedAt(q, s, it, looks, |tr.its|, tr.times[|tr.its|], end)
    ensures Served(q, s, Trace(tr.its + [it], tr.looks + [looks], tr.times + [end]))
  {
    hide ServedAt;
  }

  /**
   Every iteration polls exactly the targets that are live then, and the stream's state and sends are,
   key by key, those of machines that each serve one key alone. The registry ends as it began; an id
   that is taken, or a poll that fails, ends the call.
   */
  method GatewaySubscribe(reg: Registry, q: Query, s: Subscription, stream: GatewayStream, maxInFlight: nat)
    returns (done: bool, ghost tr: Trace)
    requires reg.Valid()
    modifies reg, reg.subs.Values, stream
    ensures reg.subs == old(reg.subs)
    ensures Served(q, s, tr) && stream.Ran(old(stream.Value()), old(stream.sent), tr.its, maxInFlight)
    ensures done ==> |tr.its| == |s.script|
    ensures s.id != "" && s.id in old(reg.subs) ==> !done && stream.sent == old(stream.sent)
    ensures !done && !(s.id != "" && s.id in old(reg.subs)) ==>
              |tr.its| < |s.script| && PollFails(q, LiveAt(s, |tr.its| + 1))
  {
    hide PollFails, Served, LiveAt;
    ghost var start, log, subs := stream.Value(), stream.sent, reg.subs;
    done, tr := false, Trace([], [], [0]);
    ServedNothing(q, s);
    RanNothing(stream, maxInFlight);
    var live := new LiveTargets(s.subscriber, s.initial);
    if s.id != "" {
      var ok := reg.Register(s.id, live);
      if !ok { return; }
    }
    LiveStart(s);
    done, tr := Loop(reg, q, s, live, stream, maxInFlight);
    if s.id != "" { reg.Unregister(s.id, live); }
  }

  lemma ServedNothing(q: Query, s: Subscription)
    ensures Served(q, s, Trace([], [], [0]))
  {
  }

  lemma RanNothing(stream: GatewayStream, maxInFlight: nat)
    ensures stream.Ran(stream.Value(), stream.sent, [], maxInFlight)
  {
    assert stream.sent[|stream.sent|..] == [];
  }

  // One iteration that polls the live targets and takes every key's turn, unless the poll fails.
  method Iterate(q: Query, s: Subscription, live: LiveTargets, stream: GatewayStream, maxInFlight: nat, now: nat,
                 ghost tr: Trace, ghost start: Maps, ghost log: seq<Sent>)
    returns (ok: bool, end: nat, ghost tr': Trace)
    requires live.Valid() && Served(q, s, tr) && |tr.its| < |s.script| && tr.times[|tr.its|] == now
    requires live.targets.Keys == LiveAt(s, |tr.its| + 1) && stream.Ran(start, log, tr.its, maxInFlight)
    modifies stream
    ensures Served(q, s, tr') && stream.Ran(start, log, tr'.its, maxInFlight)
    ensures if ok then |tr'.its| == |tr.its| + 1 && tr'.times[|tr'.its|] == end
            else tr' == tr && PollFails(q, LiveAt(s, |tr.its| + 1))
  {
    hide ServedAt, LiveAt, PollFails;
    ok, tr' := false, tr;
    var it; ghost var looks;
    it, end, looks := PollLive(q, live, now);
    if it.None? { return; }
    stream.TurnNext(start, log, tr.its, it.value, maxInFlight);
    ServedOne(q, s, it.value, looks, |tr.its|, now, end);
    ServedStep(q, s, tr, it.value, looks, end);
    ok, tr' := true, Trace(tr.its + [it.value], tr.looks + [looks], tr.times + [end]);
  }

  method Loop(reg: Registry, q: Query, s: Subscription, live: LiveTargets, stream: GatewayStream, maxInFlight: nat)
    returns (done: bool, ghost tr: Trace)
    requires Attached(reg, s, live) && live.targets.Keys == LiveAt(s, 0)
    modifies reg.subs.Values, stream
    ensures Attached(reg, s, live)
    ensures Served(q, s, tr) && stream.Ran(old(stream.Value()), old(stream.sent), tr.its, maxInFlight)
    ensures if done then |tr.its| == |s.script|
            else |tr.its| < |s.script| && PollFails(q, LiveAt(s, |tr.its| + 1))
  {
    hide ServedAt, LiveAt, PollFails;
    ghost var start, log := stream.Value(), stream.sent;
    var now: nat := 0;
    done, tr := false, Trace([], [], [0]);
    RanNothing(stream, maxInFlight);
    for n := 0 to |s.script|
      invariant Attached(reg, s, live) && live.targets.Keys == LiveAt(s, n)
      invariant |tr.its| == n && Served(q, s, tr) && tr.times[n] == now
      invariant stream.Ran(start, log, tr.its, maxInFlight)
    {
      ModifyAll(reg, s, live, s.script[n]);
      LiveStep(s, n);
      var ok, end, tr' := Iterate(q, s, live, stream, maxInFlight, now, tr, start, log);
      if !ok { return; }
      now, tr := end, tr';
    }
    done := true;
  }

  lemma LiveStart(s: Subscription)
    ensures LiveAt(s, 0) == KeysOf(s.initial)
  {
  }

  lemma LiveStep(s: Subscription, n: nat)
    requires n < |s.script|
    ensures LiveAt(s, n + 1) == AfterChanges(s, LiveAt(s, n), s.script[n])
  {
  }

  lemma ServedOne(q: Query, s: Subscription, it: Iteration, looks: seq<Look>, n: nat, from: nat, to: nat)
    requires n < |s.script| && from <= to && Polled(q, it, looks) && Within(looks, from, to)
    requires KeysOf(it.targets) == LiveAt(s, n + 1)
    ensures ServedAt(q, s, it, looks, n, from, to)
  {
  }

  // ---------------------------------------------------------------- what one binding gets

  /** A successful poll of distinct separable targets is an iteration in which no two bindings share a key. */
  lemma PollIsFromPoll(q: Query, it: Iteration, looks: seq<Look>)
    requires Polled(q, it, looks) && forall t | t in it.targets :: Separable(t)
    ensures FromPoll(it)
  {
    hide Reports;
    var jobs, rs := Jobs(q, it.targets), it.responses;
    JobsAreDistinct(q, it.targets);
    forall r | r in rs ensures r.state.target in it.targets {
      var m :| 0 <= m < |rs| && rs[m] == r;
      assert Answers(q, jobs[m], rs[m], looks[m]) && jobs[m] in jobs;
    }
    forall i, j | 0 <= i < j < |rs|
      ensures rs[i].state.target != rs[j].state.target || rs[i].bindingKey != rs[j].bindingKey {
      assert Answers(q, jobs[i], rs[i], looks[i]) && Answers(q, jobs[j], rs[j], looks[j]);
    }
  }

  // The run holds what the store calls of the poll saw of this stream.
  ghost predicate RunOf(q: Query, streamId: string, run: seq<Server>) {
    IsRun(run) && forall n: nat | n < |run| :: run[n] == q.world(n, streamId)
  }

  function JobKey(job: Job): string {
    DeliveryKey(job.target, job.binding.bindingKey)
  }

  ghost predicate SameRequest(c: Config, q: Query) {
    c.subscriber == q.subscriber && c.limit == q.limit && q.totalLimit == 0
  }

  /**
   Every binding of a poll is handled exactly once, under its own key, kept by the pruning, and compared
   with its own committed cursor and its own stream.
   */
  lemma PollObserves(q: Query, it: Iteration, looks: seq<Look>, m: nat, c: Config, run: seq<Server>)
    requires Polled(q, it, looks) && m < |it.responses|
    requires forall t | t in it.targets :: Separable(t)
    requires SameRequest(c, q) && RunOf(q, Jobs(q, it.targets)[m].binding.streamId, run) && looks[m].k < |run|
    ensures var key := JobKey(Jobs(q, it.targets)[m]);
            && looks[m].at <= looks[m].i <= looks[m].j <= looks[m].k
            && Kept(key, it.targets) && Observes(c, run, it, key, looks[m])
  {
    hide Reports;
    PollIsFromPoll(q, it, looks);
    PollKeysDistinct(it, m);
    assert Answers(q, Jobs(q, it.targets)[m], it.responses[m], looks[m]);
    assert it.responses[m].reply == Reply(c, run, looks[m]);
  }

  lemma {:induction false} JobIndex(q: Query, targets: seq<Target>, t: Target, b: nat) returns (m: nat)
    requires t in targets && b < |q.resolve(t)|
    ensures m < |Jobs(q, targets)| && Jobs(q, targets)[m] == Job(t, Named(q.resolve(t)[b]))
  {
    var n := |targets| - 1;
    if targets[n] == t {
      m := |Jobs(q, targets[..n])| + b;
    } else {
      m := JobIndex(q, targets[..n], t, b);
    }
  }

  // The job is active in this iteration, and everything can be told apart.
  ghost predicate ActiveIn(q: Query, it: Iteration, job: Job) {
    && (forall t | t in it.targets :: Separable(t))
    && job.target in it.targets
    && job in JobsOf(q, job.target)
  }

  lemma IterationLook(q: Query, it: Iteration, looks: seq<Look>, from: nat, to: nat, job: Job, c: Config,
                      run: seq<Server>)
    returns (look: Look)
    requires Polled(q, it, looks) && Within(looks, from, to) && ActiveIn(q, it, job)
    requires SameRequest(c, q) && RunOf(q, job.binding.streamId, run) && to < |run|
    ensures from <= look.at <= look.i <= look.j <= look.k <= to
    ensures Kept(JobKey(job), it.targets) && Observes(c, run, it, JobKey(job), look)
  {
    var b :| 0 <= b < |q.resolve(job.target)| && JobsOf(q, job.target)[b] == job;
    var m := JobIndex(q, it.targets, job.target, b);
    look := looks[m];
    PollObserves(q, it, looks, m, c, run);
  }

  lemma TracksStep(c: Config, run: seq<Server>, its: seq<Iteration>, seen: seq<Look>, key: string, it: Iteration,
                   look: Look)
    requires Tracks(c, run, its, seen, key)
    requires Now(seen) <= look.at <= look.i <= look.j <= look.k < |run|
    requires Kept(key, it.targets) && Observes(c, run, it, key, look)
    ensures Tracks(c, run, its + [it], seen + [look], key)
  {
    hide Observes, Kept, IsRun;
  }

  /**
   A chain of polls in which the job stays active is a chain of looks at its stream, one an iteration and
   in order.
   */
  lemma {:induction false} ChainTracks(q: Query, s: Subscription, tr: Trace, lo: nat, hi: nat, job: Job, c: Config,
                                       run: seq<Server>)
    returns (seen: seq<Look>)
    requires Served(q, s, tr) && lo <= hi <= |tr.its|
    requires forall n | lo <= n < hi :: ActiveIn(q, tr.its[n], job)
    requires SameRequest(c, q) && RunOf(q, job.binding.streamId, run) && tr.times[hi] < |run|
    ensures Tracks(c, run, tr.its[lo..hi], seen, JobKey(job)) && Now(seen) <= tr.times[hi]
    decreases hi - lo
  {
    hide Polled, Within, ActiveIn, RunOf, Observes;
    if lo == hi { return []; }
    var it := tr.its[hi - 1];
    assert ServedAt(q, s, it, tr.looks[hi - 1], hi - 1, tr.times[hi - 1], tr.times[hi]);
    seen := ChainTracks(q, s, tr, lo, hi - 1, job, c, run);
    var look := IterationLook(q, it, tr.looks[hi - 1], tr.times[hi - 1], tr.times[hi], job, c, run);
    TracksStep(c, run, tr.its[lo..hi - 1], seen, JobKey(job), it, look);
    assert tr.its[lo..hi] == tr.its[lo..hi - 1] + [it];
    seen := seen + [look];
  }

  // An iteration without the target leaves its bindings as if they had never been served.
  lemma AbsentIsFresh(q: Query, it: Iteration, looks: seq<Look>, job: Job, t: Tracker, maxInFlight: nat)
    requires Polled(q, it, looks) && Separable(job.target) && job.target !in it.targets
    requires forall t | t in it.targets :: Separable(t)
    ensures KeyTurn(t, it, JobKey(job), maxInFlight) == (FRESH, [])
  {
    PollIsFromPoll(q, it, looks);
    KeptExact(it.targets, job.target, job.binding.bindingKey);
    forall r | r in it.responses ensures KeyFor(r) != JobKey(job) {
      DeliveryKeyInjective(r.state.target, r.bindingKey, job.target, job.binding.bindingKey);
    }
    NoPolls(FRESH, it.responses, JobKey(job), maxInFlight);
  }

  // Activity read off the live keys: separable targets with one key are one target.
  lemma ActiveByKey(q: Query, s: Subscription, tr: Trace, n: nat, t: Target)
    requires Served(q, s, tr) && n < |tr.its| && Separable(t)
    requires forall u | u in tr.its[n].targets :: Separable(u)
    ensures t in tr.its[n].targets <==> TargetKey(t) in LiveAt(s, n + 1)
  {
    assert ServedAt(q, s, tr.its[n], tr.looks[n], n, tr.times[n], tr.times[n + 1]);
    if TargetKey(t) in LiveAt(s, n + 1) {
      var u :| u in tr.its[n].targets && TargetKey(u) == TargetKey(t);
      DeliveryKeyInjective(u, "", t, "");
    }
  }

  // The target was absent, or the stream had not begun, just before this iteration; it is live from there on.
  ghost predicate LiveSince(s: Subscription, t: Target, from: nat, upTo: nat)
    requires from <= upTo <= |s.script|
  {
    && (from > 0 ==> TargetKey(t) !in LiveAt(s, from))
    && forall n | from < n <= upTo :: TargetKey(t) in LiveAt(s, n)
  }

  lemma SinceIsFresh(q: Query, s: Subscription, tr: Trace, job: Job, from: nat, t: Tracker, maxInFlight: nat)
    requires Served(q, s, tr) && 0 < from <= |tr.its| && Separable(job.target)
    requires forall u | u in tr.its[from - 1].targets :: Separable(u)
    requires TargetKey(job.target) !in LiveAt(s, from)
    ensures KeyRun(t, tr.its[..from], JobKey(job), maxInFlight).0 == FRESH
  {
    var it := tr.its[from - 1];
    assert ServedAt(q, s, it, tr.looks[from - 1], from - 1, tr.times[from - 1], tr.times[from]);
    ActiveByKey(q, s, tr, from - 1, job.target);
    assert tr.its[..from][..from - 1] == tr.its[..from - 1];
    var earlier := KeyRun(t, tr.its[..from - 1], JobKey(job), maxInFlight);
    AbsentIsFresh(q, it, tr.looks[from - 1], job, earlier.0, maxInFlight);
  }

  // The hypotheses of the guarantee: a served subscription in which the job's target stays live from some point on.
  ghost predicate Covers(q: Query, s: Subscription, tr: Trace, from: nat, job: Job, c: Config, run: seq<Server>) {
    && Served(q, s, tr)
    && from <= |tr.its| && LiveSince(s, job.target, from, |tr.its|)
    && Separable(job.target) && job in JobsOf(q, job.target)
    && (forall n, t | 0 <= n < |tr.its| && t in tr.its[n].targets :: Separable(t))
    && SameRequest(c, q) && RunOf(q, job.binding.streamId, run) && tr.times[|tr.its|] < |run|
  }

  lemma LiveChain(q: Query, s: Subscription, tr: Trace, from: nat, job: Job, c: Config, run: seq<Server>)
    returns (seen: seq<Look>)
    requires Covers(q, s, tr, from, job, c, run)
    ensures Tracks(c, run, tr.its[from..], seen, JobKey(job)) && Now(seen) <= tr.times[|tr.its|]
  {
    hide Polled, Tracks, RunOf;
    var n := |tr.its|;
    forall m | from <= m < n ensures ActiveIn(q, tr.its[m], job) { ActiveByKey(q, s, tr, m, job.target); }
    seen := ChainTracks(q, s, tr, from, n, job, c, run);
    assert tr.its[from..n] == tr.its[from..];
  }

  // The key's machine over the whole call: what it did before, and a fresh machine since.
  lemma MachineSince(q: Query, s: Subscription, tr: Trace, from: nat, job: Job, c: Config, run: seq<Server>, t: Tracker)
    requires Covers(q, s, tr, from, job, c, run) && (from == 0 ==> t == FRESH)
    ensures var before := KeyRun(t, tr.its[..from], JobKey(job), c.maxInFlight);
            var since := KeyRun(FRESH, tr.its[from..], JobKey(job), c.maxInFlight);
            KeyRun(t, tr.its, JobKey(job), c.maxInFlight) == (since.0, before.1 + since.1)
  {
    hide Polled, RunOf, ServedAt;
    if from > 0 { SinceIsFresh(q, s, tr, job, from, t, c.maxInFlight); }
    KeyRunSplit(t, tr.its[..from], tr.its[from..], JobKey(job), c.maxInFlight);
    assert tr.its[..from] + tr.its[from..] == tr.its;
  }

  /**
   What one binding is guaranteed by a gateway stream that serves many, in any state of the log from the
   last poll on. The frames sent under its key are those sent before its target was last added, and then
   frames of its own: log stretches that end strictly later each time, that with the acked prefix cover
   everything delivered, at most one page beyond its own committed cursor. Whatever the other targets do.
   */
  lemma GatewayServesBinding(stream: GatewayStream, start: Maps, log: seq<Sent>, q: Query, s: Subscription, tr: Trace,
                             from: nat, job: Job, c: Config, run: seq<Server>, e: nat) returns (since: seq<Frame>)
    requires Covers(q, s, tr, from, job, c, run) && stream.Ran(start, log, tr.its, c.maxInFlight)
    requires from == 0 ==> TrackerOf(start, JobKey(job)) == FRESH
    requires tr.times[|tr.its|] <= e < |run|
    ensures FramesFor(stream.sent[|log|..], JobKey(job)) ==
            KeyRun(TrackerOf(start, JobKey(job)), tr.its[..from], JobKey(job), c.maxInFlight).1 + since
    ensures var delivered := TrackerOf(stream.Value(), JobKey(job)).delivered;
            var cursor := CursorOf(run[e], c.subscriber);
            && delivered <= |run[e].history|
            && delivered <= cursor + NormalizeLimit(c.limit)
            && Sound(since, run[e].history, delivered)
            && Increasing(since)
            && (forall q | 1 <= q <= delivered :: Covered(since, cursor, q))
  {
    var key := JobKey(job);
    MachineSince(q, s, tr, from, job, c, run, TrackerOf(start, key));
    var seen := LiveChain(q, s, tr, from, job, c, run);
    assert IsRun(run);
    hide Covers, Tracks, IsRun;
    GatewayFlowControl(c, run, tr.its[from..], seen, key, e);
    since := KeyRun(FRESH, tr.its[from..], key, c.maxInFlight).1;
  }

  // Each poll compared with the binding's own cursor and was answered from its own stream, in order of time.
  ghost predicate OwnInputs(c: Config, run: seq<Server>, seen: seq<Look>, inputs: seq<Input>) {
    InOrder(run, seen) && inputs == InputsOf(c, run, seen)
  }

  /**
   Signalling behind the gateway: of the frames since the target was last added, TOO_LONG is the one at
   exactly the polls where a notice is due, at most one across any stretch in which something delivered
   stays unacked, and there are no more batches than events in the log. Whatever the other targets do.
   */
  lemma GatewaySignalsBinding(stream: GatewayStream, start: Maps, log: seq<Sent>, q: Query, s: Subscription, tr: Trace,
                              from: nat, job: Job, c: Config, run: seq<Server>)
    returns (since: seq<Frame>, seen: seq<Look>, inputs: seq<Input>)
    requires Covers(q, s, tr, from, job, c, run) && stream.Ran(start, log, tr.its, c.maxInFlight)
    requires from == 0 ==> TrackerOf(start, JobKey(job)) == FRESH
    ensures FramesFor(stream.sent[|log|..], JobKey(job)) ==
            KeyRun(TrackerOf(start, JobKey(job)), tr.its[..from], JobKey(job), c.maxInFlight).1 + since
    ensures |since| == |inputs| == |tr.its| - from && OwnInputs(c, run, seen, inputs)
    ensures forall n | 0 <= n < |since| :: since[n] == TooLongFrame <==> NoticeDue(inputs, n, c.maxInFlight)
    ensures forall a, b | 0 <= a <= b <= |since| && (forall k | a <= k < b :: AheadAt(inputs, k, c.maxInFlight)) ::
              Notices(since[a..b]) <= 1
    ensures Now(seen) < |run| && Batches(since) <= |run[Now(seen)].history|
  {
    var key := JobKey(job);
    MachineSince(q, s, tr, from, job, c, run, TrackerOf(start, key));
    seen := LiveChain(q, s, tr, from, job, c, run);
    assert IsRun(run) && |seen| == |tr.its| - from;
    inputs := InputsOf(c, run, seen);
    since := KeyRun(FRESH, tr.its[from..], key, c.maxInFlight).1;
    KeyRunIsDeliver(c, run, tr.its[from..], seen, key);
    DeliverIsPolls(c, run, seen);
    SendsAreBounded(c, run, seen);
    hide Covers, Tracks, IsRun, KeyRun, Polls, NoticeDue, AheadAt, Notices;
    forall n | 0 <= n < |since| ensures since[n] == TooLongFrame <==> NoticeDue(inputs, n, c.maxInFlight) {
      NoticeExact(inputs, n, c.maxInFlight);
    }
    forall a, b | 0 <= a <= b <= |since| && (forall k | a <= k < b :: AheadAt(inputs, k, c.maxInFlight))
      ensures Notices(since[a..b]) <= 1
    {
      AtMostOneNotice(inputs, a, b, c.maxInFlight);
    }
  }

  /** A remove and an add that both come in between two iterations leave the target live, so no iteration misses it. */
  lemma QuickReAddIsUnseen(s: Subscription, keys: set<string>, t: Target)
    requires s.id != "" && TargetKey(t) in keys
    ensures var remove := Change(s.id, s.subscriber, [], [t]);
            var add := Change(s.id, s.subscriber, [t], []);
            AfterChanges(s, keys, [remove, add]) == keys
  {
    var remove, add := Change(s.id, s.subscriber, [], [t]), Change(s.id, s.subscriber, [t], []);
    assert [remove, add][..1] == [remove] && [remove][..0] == [];
    assert AfterChanges(s, keys, [remove]) == keys - {TargetKey(t)};
  }

  // ---------------------------------------------------------------- what a call does to the targets polled

  // The call is for this subscription.
  ghost predicate IsFor(s: Subscription, c: Change) {
    s.id != "" && c.id == s.id && c.subscriber == s.subscriber
  }

  // From call i of these on, the key is not added again, or not removed again.
  ghost predicate NotAddedFrom(s: Subscription, changes: seq<Change>, i: nat, key: string) {
    forall j | i <= j < |changes| && IsFor(s, changes[j]) :: !Names(changes[j].add, key)
  }

  ghost predicate NotRemovedFrom(s: Subscription, changes: seq<Change>, i: nat, key: string) {
    forall j | i <= j < |changes| && IsFor(s, changes[j]) :: !Names(changes[j].remove, key)
  }

  // Some call removed the key without adding it, or it was absent to begin with; and nothing has added it since.
  ghost predicate RemovedIn(s: Subscription, changes: seq<Change>, key: string) {
    exists i | 0 <= i < |changes| ::
      IsFor(s, changes[i]) && Names(changes[i].remove, key) && NotAddedFrom(s, changes, i, key)
  }

  ghost predicate AddedIn(s: Subscription, changes: seq<Change>, key: string) {
    exists i | 0 <= i < |changes| ::
      IsFor(s, changes[i]) && Names(changes[i].add, key) && NotRemovedFrom(s, changes, i + 1, key)
  }

  lemma {:induction false} AbsentStays(s: Subscription, keys: set<string>, changes: seq<Change>, key: string)
    requires key !in keys && NotAddedFrom(s, changes, 0, key)
    ensures key !in AfterChanges(s, keys, changes)
  {
    if changes != [] {
      var n := |changes| - 1;
      AbsentStays(s, keys, changes[..n], key);
      ChangedExact(AfterChanges(s, keys, changes[..n]), changes[n], key);
    }
  }

  lemma {:induction false} PresentStays(s: Subscription, keys: set<string>, changes: seq<Change>, key: string)
    requires key in keys && NotRemovedFrom(s, changes, 0, key)
    ensures key in AfterChanges(s, keys, changes)
  {
    if changes != [] {
      var n := |changes| - 1;
      PresentStays(s, keys, changes[..n], key);
      ChangedExact(AfterChanges(s, keys, changes[..n]), changes[n], key);
    }
  }

  lemma {:induction false} RemovedIsGone(s: Subscription, keys: set<string>, changes: seq<Change>, key: string)
    requires RemovedIn(s, changes, key)
    ensures key !in AfterChanges(s, keys, changes)
  {
    var i :| 0 <= i < |changes| && IsFor(s, changes[i]) && Names(changes[i].remove, key)
             && NotAddedFrom(s, changes, i, key);
    var n := |changes| - 1;
    ChangedExact(AfterChanges(s, keys, changes[..n]), changes[n], key);
    if i < n {
      assert changes[..n][i] == changes[i];
      assert NotAddedFrom(s, changes[..n], i, key);
      RemovedIsGone(s, keys, changes[..n], key);
    }
  }

  lemma {:induction false} AddedIsThere(s: Subscription, keys: set<string>, changes: seq<Change>, key: string)
    requires AddedIn(s, changes, key)
    ensures key in AfterChanges(s, keys, changes)
  {
    var i :| 0 <= i < |changes| && IsFor(s, changes[i]) && Names(changes[i].add, key)
             && NotRemovedFrom(s, changes, i + 1, key);
    var n := |changes| - 1;
    ChangedExact(AfterChanges(s, keys, changes[..n]), changes[n], key);
    if i < n {
      assert changes[..n][i] == changes[i];
      assert NotRemovedFrom(s, changes[..n], i + 1, key);
      AddedIsThere(s, keys, changes[..n], key);
    }
  }

  // Removed by a call of group g and not added by a call of a later group before group n.
  ghost predicate RemovedBy(s: Subscription, key: string, g: nat, n: nat)
    requires g < n <= |s.script|
  {
    RemovedIn(s, s.script[g], key) && forall m | g < m < n :: NotAddedFrom(s, s.script[m], 0, key)
  }

  ghost predicate AddedBy(s: Subscription, key: string, g: nat, n: nat)
    requires g < n <= |s.script|
  {
    AddedIn(s, s.script[g], key) && forall m | g < m < n :: NotRemovedFrom(s, s.script[m], 0, key)
  }

  /** The last call decides: removed and not added since is not live, added and not removed since is. */
  lemma {:induction false} LastCallDecides(s: Subscription, key: string, g: nat, n: nat)
    requires g < n <= |s.script|
    ensures RemovedBy(s, key, g, n) ==> key !in LiveAt(s, n)
    ensures AddedBy(s, key, g, n) ==> key in LiveAt(s, n)
    decreases n
  {
    var keys, changes := LiveAt(s, n - 1), s.script[n - 1];
    if n - 1 > g {
      LastCallDecides(s, key, g, n - 1);
      if RemovedBy(s, key, g, n) { AbsentStays(s, keys, changes, key); }
      if AddedBy(s, key, g, n) { PresentStays(s, keys, changes, key); }
    } else {
      if RemovedBy(s, key, g, n) { RemovedIsGone(s, keys, changes, key); }
      if AddedBy(s, key, g, n) { AddedIsThere(s, keys, changes, key); }
    }
  }

  /**
   So a target that a call removed and no later call added is not polled by any iteration up to then, and
   one that a call added and no later call removed is.
   */
  lemma CallsDecidePolls(q: Query, s: Subscription, tr: Trace, n: nat, g: nat, key: string)
    requires Served(q, s, tr) && g <= n < |tr.its|
    ensures RemovedBy(s, key, g, n + 1) ==> !Names(tr.its[n].targets, key)
    ensures AddedBy(s, key, g, n + 1) ==> Names(tr.its[n].targets, key)
  {
    assert ServedAt(q, s, tr.its[n], tr.looks[n], n, tr.times[n], tr.times[n + 1]);
    LastCallDecides(s, key, g, n + 1);
    NamesKeys(tr.its[n].targets, key);
  }

  lemma NamesKeys(list: seq<Target>, key: string)
    ensures Names(list, key) <==> key in KeysOf(list)
  {
    forall t ensures TargetKey(t) == t.namespace + "/" + t.id + "/" + t.view {
    }
  }
}
