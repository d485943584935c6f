/**
 One poll of the gateway engine (pkg/gateway/engine.go, catchUp): every target resolved, its bindings'
 cursors and heads read, each binding's stream caught up, all by separate store calls between which
 anything may happen.
 */
module GatewayPoll {
  import opened Types
  import opened StreamLog
  import opened LogServer
  import opened CoreEngine
  import opened Keys
  import opened GatewayEngine

  // The world a poll meets: the state of each stream at each point of time, and the product's hooks.
  datatype Query = Query(
    world: (nat, string) -> Server,
    resolve: Target -> seq<StreamBinding>,
    permitted: Target -> bool,                  // may this caller use the target
    exposed: (Target, string, nat) -> bool,     // may it be shown this payload type and version of it
    subscriber: string, limit: int, totalLimit: int)

  datatype Job = Job(target: Target, binding: StreamBinding)

  ghost predicate Acceptable(q: Query, t: Target) {
    AcceptedTarget(t) && Resolvable(q.resolve(t)) && q.permitted(t)
  }

  // What ResolveBindings answers for an acceptable target.
  function BindingsOf(q: Query, t: Target): seq<StreamBinding> {
    var answer := q.resolve(t);
    seq(|answer|, i requires 0 <= i < |answer| => Named(answer[i]))
  }

  function JobsOf(q: Query, t: Target): seq<Job> {
    var answer := q.resolve(t);
    seq(|answer|, i requires 0 <= i < |answer| => Job(t, Named(answer[i])))
  }

  // Every binding of every target, in order.
  function Jobs(q: Query, targets: seq<Target>): seq<Job> {
    if targets == [] then []
    else Jobs(q, targets[..|targets| - 1]) + JobsOf(q, targets[|targets| - 1])
  }

  function CursorAt(q: Query, streamId: string, at: nat): nat {
    CursorOf(q.world(at, streamId), q.subscriber)
  }

  function ReplyAt(q: Query, job: Job, look: Look): CatchUpResult {
    var id := job.binding.streamId;
    CatchUp(CursorAt(q, id, look.i), q.world(look.j, id).stream, q.world(look.k, id).stream, q.limit, q.totalLimit)
  }

  predicate Showable(q: Query, job: Job, batch: Batch) {
    forall e | e in batch.events ::
      AllowedByBinding(job.binding, e.payloadType) && q.exposed(job.target, e.payloadType, e.payloadVersion)
  }

  // A binding's cursor and, at some other point of time, its stream's head and boundary.
  ghost predicate WasRead(q: Query, b: StreamBinding, reading: BindingState, at: nat, later: nat) {
    && reading.bindingKey == b.bindingKey
    && reading.cursorSeq == CursorAt(q, b.streamId, at)
    && reading.headSeq == q.world(later, b.streamId).stream.head
    && reading.retainedSeqStart == q.world(later, b.streamId).stream.retained
  }

  ghost predicate WasOnceRead(q: Query, b: StreamBinding, reading: BindingState) {
    exists at: nat, later: nat :: WasRead(q, b, reading, at, later)
  }

  // The state reported for a target: a reading of each of its bindings, and their summary.
  ghost predicate Reports(q: Query, t: Target, state: TargetState) {
    && state.target == t && IsSummary(state)
    && |state.bindings| == |BindingsOf(q, t)|
    && forall m | 0 <= m < |state.bindings| :: WasOnceRead(q, BindingsOf(q, t)[m], state.bindings[m])
  }

  // The response reports the job's own cursor and stream, as seen by store calls made in this order.
  ghost predicate Answers(q: Query, job: Job, r: Response, look: Look) {
    && r.state.target == job.target && r.bindingKey == job.binding.bindingKey
    && Reports(q, job.target, r.state)
    && look.at <= look.i <= look.j <= look.k
    && CursorFor(r) == CursorAt(q, job.binding.streamId, look.at)
    && r.reply == ReplyAt(q, job, look)
    && (r.reply.status == StatusOk ==> Showable(q, job, r.reply.batch))
  }

  ghost predicate AllAnswered(q: Query, jobs: seq<Job>, rs: seq<Response>, looks: seq<Look>) {
    && |rs| == |looks| == |jobs|
    && forall m | 0 <= m < |jobs| :: Answers(q, jobs[m], rs[m], looks[m])
  }

  ghost predicate Within(looks: seq<Look>, from: nat, to: nat) {
    forall m | 0 <= m < |looks| :: from <= looks[m].at && looks[m].k <= to
  }

  ghost predicate Refused(q: Query, job: Job, look: Look) {
    ReplyAt(q, job, look).status == StatusOk && !Showable(q, job, ReplyAt(q, job, look).batch)
  }

  // While the poll ran, some job was answered with an event that may not be shown.
  ghost predicate SomeRefused(q: Query, jobs: seq<Job>, from: nat, to: nat) {
    exists job, look :: job in jobs && Refused(q, job, look) && from <= look.at <= look.i <= look.j <= look.k <= to
  }

  // ---------------------------------------------------------------- the poll

  // Time passes, by any amount, between two store calls.
  method Tick(now: nat) returns (t: nat)
    ensures now <= t
  {
    var wait: int := *;
    t := if wait > now then wait else now;
  }

  // Each binding's cursor and then its head, read one after the other.
  method ReadBindings(q: Query, bindings: seq<StreamBinding>, now: nat)
    returns (readings: seq<BindingState>, end: nat, ghost ats: seq<nat>, ghost laters: seq<nat>)
    ensures now <= end && |readings| == |bindings| == |ats| == |laters|
    ensures forall m | 0 <= m < |bindings| :: WasRead(q, bindings[m], readings[m], ats[m], laters[m])
    ensures forall m | 0 <= m < |bindings| ::
              && now <= ats[m] <= end
              && readings[m].bindingKey == bindings[m].bindingKey
              && readings[m].cursorSeq == CursorAt(q, bindings[m].streamId, ats[m])
  {
    readings, end, ats, laters := [], now, [], [];
    for k := 0 to |bindings|
      invariant now <= end && |readings| == |ats| == |laters| == k
      invariant forall m | 0 <= m < k :: WasRead(q, bindings[m], readings[m], ats[m], laters[m])
      invariant forall m | 0 <= m < k ::
                  && now <= ats[m] <= end
                  && readings[m].bindingKey == bindings[m].bindingKey
                  && readings[m].cursorSeq == CursorAt(q, bindings[m].streamId, ats[m])
    {
      var at := Tick(end);
      end := Tick(at);
      var head := q.world(end, bindings[k].streamId).stream;
      readings := readings +
        [BindingState(bindings[k].bindingKey, CursorAt(q, bindings[k].streamId, at), head.head, head.retained)];
      ats, laters := ats + [at], laters + [end];
    }
  }

  // The core engine's three reads of one stream.
  method CatchUpOne(q: Query, job: Job, ghost at: nat, now: nat)
    returns (reply: CatchUpResult, end: nat, ghost look: Look)
    requires at <= now
    ensures reply == ReplyAt(q, job, look) && look.at == at <= look.i <= look.j <= look.k == end && now <= end
  {
    var i := Tick(now);
    var cursor := CursorAt(q, job.binding.streamId, i);
    var j := Tick(i);
    var atHead := q.world(j, job.binding.streamId).stream;
    end := Tick(j);
    reply := CatchUp(cursor, atHead, q.world(end, job.binding.streamId).stream, q.limit, q.totalLimit);
    look := Look(at, i, j, end);
  }

  // The reply as the client may see it, or none.
  method Checked(q: Query, job: Job, reply: CatchUpResult) returns (ok: bool)
    ensures ok <==> (reply.status == StatusOk ==> Showable(q, job, reply.batch))
  {
    if reply.status == StatusTooLong { return true; }
    var exposed := (payloadType: string, version: nat) => q.exposed(job.target, payloadType, version);
    var shown := ShowBatch(job.target, job.binding, reply.batch, exposed);
    ok := shown.Some?;
  }

  // One binding, once its target's cursors and heads are read.
  method PollBinding(q: Query, job: Job, state: TargetState, ghost at: nat, now: nat)
    returns (r: Option<Response>, end: nat, ghost look: Look)
    requires at <= now && Reports(q, job.target, state)
    requires BindingCursor(state, job.binding.bindingKey) == CursorAt(q, job.binding.streamId, at)
    ensures look.at == at <= look.i <= look.j <= look.k == end && now <= end
    ensures r.Some? ==> Answers(q, job, r.value, look)
    ensures r.None? ==> Refused(q, job, look)
  {
    var reply;
    reply, end, look := CatchUpOne(q, job, at, now);
    var ok := Checked(q, job, reply);
    r := if ok then Some(Response(state, job.binding.bindingKey, reply)) else None;
  }

  lemma ReadingsReport(q: Query, t: Target, bindings: seq<StreamBinding>, state: TargetState, ats: seq<nat>,
                       laters: seq<nat>)
    requires state.target == t && IsSummary(state) && |state.bindings| == |bindings| == |ats| == |laters|
    requires |JobsOf(q, t)| == |bindings| && forall m | 0 <= m < |bindings| :: JobsOf(q, t)[m] == Job(t, bindings[m])
    requires forall m | 0 <= m < |bindings| :: WasRead(q, bindings[m], state.bindings[m], ats[m], laters[m])
    ensures Reports(q, t, state)
  {
    hide IsSummary;
    assert |BindingsOf(q, t)| == |JobsOf(q, t)|;
    forall m | 0 <= m < |bindings| ensures WasOnceRead(q, BindingsOf(q, t)[m], state.bindings[m]) {
      assert BindingsOf(q, t)[m] == JobsOf(q, t)[m].binding == bindings[m];
      assert WasRead(q, BindingsOf(q, t)[m], state.bindings[m], ats[m], laters[m]);
    }
  }

  // The target's state, in which each binding is found with the cursor read for it.
  method ReportTarget(q: Query, t: Target, bindings: seq<StreamBinding>, now: nat)
    returns (state: TargetState, end: nat, ghost ats: seq<nat>)
    requires |JobsOf(q, t)| == |bindings| && forall m | 0 <= m < |bindings| :: JobsOf(q, t)[m] == Job(t, bindings[m])
    requires KeysDistinct(bindings)
    ensures now <= end && Reports(q, t, state) && |ats| == |bindings|
    ensures forall m | 0 <= m < |bindings| ::
              && now <= ats[m] <= end
              && BindingCursor(state, bindings[m].bindingKey) == CursorAt(q, bindings[m].streamId, ats[m])
  {
    hide IsSummary, Reports;
    var readings; ghost var laters;
    readings, end, ats, laters := ReadBindings(q, bindings, now);
    state := SummarizeTarget(t, readings);
    ReadingsReport(q, t, bindings, state, ats, laters);
    forall m | 0 <= m < |bindings|
      ensures BindingCursor(state, bindings[m].bindingKey) == CursorAt(q, bindings[m].streamId, ats[m])
    {
      BindingCursorIsOwn(readings, m);
    }
  }

  method PollTarget(q: Query, t: Target, bindings: seq<StreamBinding>, now: nat)
    returns (r: Option<seq<Response>>, end: nat, ghost looks: seq<Look>)
    requires |JobsOf(q, t)| == |bindings| && forall m | 0 <= m < |bindings| :: JobsOf(q, t)[m] == Job(t, bindings[m])
    requires KeysDistinct(bindings)
    ensures now <= end
    ensures r.Some? ==> AllAnswered(q, JobsOf(q, t), r.value, looks) && Within(looks, now, end)
    ensures r.None? ==> SomeRefused(q, JobsOf(q, t), now, end)
  {
    hide Answers, Refused, Reports;
    ghost var jobs := JobsOf(q, t);
    var state, clock, ats := ReportTarget(q, t, bindings, now);
    end, looks := clock, [];
    var out: seq<Response> := [];
    for k := 0 to |bindings|
      invariant now <= clock <= end && |out| == |looks| == k
      invariant forall m | 0 <= m < k :: Answers(q, jobs[m], out[m], looks[m])
      invariant Within(looks, now, end)
    {
      var response, after, look := PollBinding(q, Job(t, bindings[k]), state, ats[k], end);
      end := after;
      if response.None? {
        assert jobs[k] in jobs && Refused(q, jobs[k], look);
        return None, end, looks;
      }
      out, looks := out + [response.value], looks + [look];
    }
    r := Some(out);
  }

  lemma JobsStep(q: Query, targets: seq<Target>, k: nat)
    requires k < |targets|
    ensures Jobs(q, targets[..k + 1]) == Jobs(q, targets[..k]) + JobsOf(q, targets[k])
  {
    assert targets[..k + 1][..k] == targets[..k];
  }

  lemma {:induction false} JobsPrefix(q: Query, targets: seq<Target>, k: nat)
    requires k <= |targets|
    ensures forall job | job in Jobs(q, targets[..k]) :: job in Jobs(q, targets)
    decreases |targets| - k
  {
    if k < |targets| {
      JobsStep(q, targets, k);
      JobsPrefix(q, targets, k + 1);
    } else {
      assert targets[..k] == targets;
    }
  }

  lemma AnsweredConcat(q: Query, a: seq<Job>, rs: seq<Response>, ls: seq<Look>, b: seq<Job>, rs': seq<Response>,
                       ls': seq<Look>)
    requires AllAnswered(q, a, rs, ls) && AllAnswered(q, b, rs', ls')
    ensures AllAnswered(q, a + b, rs + rs', ls + ls')
  {
    hide Answers;
    forall m | 0 <= m < |a + b| ensures Answers(q, (a + b)[m], (rs + rs')[m], (ls + ls')[m]) {
      if m >= |a| { assert Answers(q, b[m - |a|], rs'[m - |a|], ls'[m - |a|]); }
    }
  }

  lemma NothingAnswered(q: Query, targets: seq<Target>)
    ensures AllAnswered(q, Jobs(q, targets[..0]), [], [])
  {
  }

  // A refusal of some of the jobs in part of the time is one of all of them.
  lemma RefusedGrows(q: Query, a: seq<Job>, b: seq<Job>, from: nat, to: nat, now: nat)
    requires SomeRefused(q, a, from, to) && now <= from && forall job | job in a :: job in b
    ensures SomeRefused(q, b, now, to)
  {
  }

  // The target's bindings, if it is valid, resolvable and permitted.
  method ResolveTarget(q: Query, t: Target) returns (r: Option<seq<StreamBinding>>)
    ensures r.Some? <==> Acceptable(q, t)
    ensures r.Some? ==>
              && t.namespace != "" && t.id != "" && q.permitted(t) && KeysDistinct(r.value)
              && |JobsOf(q, t)| == |r.value| && forall m | 0 <= m < |r.value| :: JobsOf(q, t)[m] == Job(t, r.value[m])
  {
    if t.namespace == "" || t.id == "" { return None; }
    r := ResolveBindings(q.resolve(t));
    if r.Some? && !q.permitted(t) { r := None; }
  }

  /**
   The poll answers every binding of every target, in order and each from its own stream, or fails
   whole: when there is no target, one is not acceptable, or some reply it was given holds an event that may
   not be shown.
   */
  method PollTargets(q: Query, targets: seq<Target>, now: nat)
    returns (r: Option<seq<Response>>, end: nat, ghost looks: seq<Look>)
    ensures now <= end
    ensures r.Some? ==>
              && targets != [] && (forall t | t in targets :: Acceptable(q, t))
              && (forall t | t in targets :: t.namespace != "" && t.id != "" && q.permitted(t))
              && AllAnswered(q, Jobs(q, targets), r.value, looks) && Within(looks, now, end)
    ensures r.None? ==>
              || targets == [] || (exists t | t in targets :: !Acceptable(q, t))
              || SomeRefused(q, Jobs(q, targets), now, end)
  {
    hide AllAnswered, Acceptable, SomeRefused, JobsOf;
    end, looks := now, [];
    if targets == [] { return None, end, looks; }
    NothingAnswered(q, targets);
    var out: seq<Response> := [];
    for k := 0 to |targets|
      invariant now <= end
      invariant forall m | 0 <= m < k :: Acceptable(q, targets[m])
      invariant forall m | 0 <= m < k ::
                  targets[m].namespace != "" && targets[m].id != "" && q.permitted(targets[m])
      invariant AllAnswered(q, Jobs(q, targets[..k]), out, looks) && Within(looks, now, end)
    {
      var t := targets[k];
      var bindings := ResolveTarget(q, t);
      if bindings.None? {
        assert t in targets && !Acceptable(q, t);
        return None, end, looks;
      }
      JobsStep(q, targets, k);
      ghost var before := end;
      var more, after, moreLooks := PollTarget(q, t, bindings.value, end);
      end := after;
      if more.None? {
        JobsPrefix(q, targets, k + 1);
        RefusedGrows(q, JobsOf(q, t), Jobs(q, targets), before, end, now);
        return None, end, looks;
      }
      AnsweredConcat(q, Jobs(q, targets[..k]), out, looks, JobsOf(q, t), more.value, moreLooks);
      out, looks := out + more.value, looks + moreLooks;
    }
    assert targets[..|targets|] == targets;
    r := Some(out);
  }

  /**
   The poll on behalf of a requested subscriber, whose id the product's resolver answers: refused when the
   request or the answer names nobody, and otherwise the poll for the answered id.
   */
  method PollAs(q: Query, requested: string, answer: Option<string>, targets: seq<Target>, now: nat)
    returns (r: Option<seq<Response>>, end: nat, ghost looks: seq<Look>)
    ensures now <= end
    ensures r.Some? ==>
              && requested != "" && answer.Some? && answer.value != ""
              && var own := q.(subscriber := answer.value);
                 AllAnswered(own, Jobs(own, targets), r.value, looks) && Within(looks, now, end)
    ensures r.None? ==>
              || requested == "" || answer.None? || answer.value == ""
              || targets == [] || (exists t | t in targets :: !Acceptable(q, t))
              || SomeRefused(q.(subscriber := answer.value), Jobs(q.(subscriber := answer.value), targets), now, end)
  {
    if requested == "" || answer.None? || answer.value == "" { return None, now, []; }
    r, end, looks := PollTargets(q.(subscriber := answer.value), targets, now);
  }

  // ---------------------------------------------------------------- what was polled

  ghost predicate JobsDistinct(jobs: seq<Job>) {
    forall i, j | 0 <= i < j < |jobs| ::
      jobs[i].target != jobs[j].target || jobs[i].binding.bindingKey != jobs[j].binding.bindingKey
  }

  lemma NamedDistinct(answer: seq<StreamBinding>, i: nat, j: nat)
    requires Resolvable(answer) && i < j < |answer|
    ensures Named(answer[i]).bindingKey != Named(answer[j]).bindingKey
  {
  }

  lemma {:induction false} JobsAreDistinct(q: Query, targets: seq<Target>)
    requires forall t | t in targets :: Resolvable(q.resolve(t))
    requires forall i, j | 0 <= i < j < |targets| :: targets[i] != targets[j]
    ensures JobsDistinct(Jobs(q, targets)) && forall job | job in Jobs(q, targets) :: job.target in targets
  {
    if targets != [] {
      var n := |targets| - 1;
      var before, last := Jobs(q, targets[..n]), targets[n];
      assert last in targets;
      JobsAreDistinct(q, targets[..n]);
      forall i, j | 0 <= i < j < |JobsOf(q, last)|
        ensures JobsOf(q, last)[i].binding.bindingKey != JobsOf(q, last)[j].binding.bindingKey {
        NamedDistinct(q.resolve(last), i, j);
      }
      forall i | 0 <= i < |before| ensures before[i].target != last {
        assert before[i] in before;
      }
    }
  }

  lemma {:induction false} JobIsBinding(q: Query, targets: seq<Target>, m: nat) returns (b: nat)
    requires m < |Jobs(q, targets)|
    ensures var job := Jobs(q, targets)[m];
            job.target in targets && b < |q.resolve(job.target)| && BindingsOf(q, job.target)[b] == job.binding
  {
    var n := |targets| - 1;
    var before := |Jobs(q, targets[..n])|;
    if m < before {
      b := JobIsBinding(q, targets[..n], m);
    } else {
      b := m - before;
    }
  }

  /**
   Round trip over the wire: the target and key of any polled response, sent back in an ack or a snapshot
   request, select on a new resolution the very binding, and so the stream, that was polled.
   */
  lemma ResponseSelectsItsStream(q: Query, targets: seq<Target>, rs: seq<Response>, looks: seq<Look>, m: nat)
    requires (forall t | t in targets :: Acceptable(q, t)) && AllAnswered(q, Jobs(q, targets), rs, looks) && m < |rs|
    ensures Selected(BindingsOf(q, rs[m].state.target), rs[m].bindingKey) == Some(Jobs(q, targets)[m].binding)
  {
    var job := Jobs(q, targets)[m];
    assert Answers(q, job, rs[m], looks[m]);
    var b := JobIsBinding(q, targets, m);
    var answer := q.resolve(job.target);
    assert Acceptable(q, job.target);
    forall i, j | 0 <= i < j < |answer| ensures Named(answer[i]).bindingKey != Named(answer[j]).bindingKey {
      NamedDistinct(answer, i, j);
    }
    BindingRoundTrip(BindingsOf(q, job.target), b);
  }

  /** Resolving anew and selecting, as GatewayAck and GatewayGetLatestSnapshot do. */
  method SelectStream(q: Query, t: Target, requested: string) returns (r: Option<StreamBinding>)
    ensures r == if Resolvable(q.resolve(t)) then Selected(BindingsOf(q, t), requested) else None
    ensures r.Some? ==>
              && (requested == "" ==> |q.resolve(t)| == 1)
              && exists b | b in q.resolve(t) ::
                   && r.value.streamId == b.streamId
                   && r.value.bindingKey == (if b.bindingKey != "" then b.bindingKey else "default")
                   && (requested != "" ==> r.value.bindingKey == requested)
  {
    var bindings := ResolveBindings(q.resolve(t));
    if bindings.None? { return None; }
    assert bindings.value == BindingsOf(q, t);
    r := SelectBinding(bindings.value, requested);
    if r.Some? { SelectedIsOne(bindings.value, requested); }
  }

  /** Every job is a binding the resolver answered for its target: its stream and types, and its name or "default". */
  lemma JobIsAnswered(q: Query, targets: seq<Target>, m: nat)
    requires m < |Jobs(q, targets)|
    ensures var job := Jobs(q, targets)[m];
            && job.target in targets
            && exists b | b in q.resolve(job.target) ::
                 && job.binding.streamId == b.streamId
                 && job.binding.payloadTypes == b.payloadTypes
                 && job.binding.bindingKey == if b.bindingKey != "" then b.bindingKey else "default"
  {
    var job := Jobs(q, targets)[m];
    var b := JobIsBinding(q, targets, m);
    assert q.resolve(job.target)[b] in q.resolve(job.target);
  }

  /** And every binding the resolver answered for a polled target is a job. */
  lemma {:induction false} AnswerIsJob(q: Query, targets: seq<Target>, t: Target, b: StreamBinding)
    requires t in targets && b in q.resolve(t)
    ensures exists job | job in Jobs(q, targets) :: job.target == t && job.binding.streamId == b.streamId
  {
    var n := |targets| - 1;
    if targets[n] == t {
      var i :| 0 <= i < |q.resolve(t)| && q.resolve(t)[i] == b;
      assert JobsOf(q, t)[i] in Jobs(q, targets);
    } else {
      AnswerIsJob(q, targets[..n], t, b);
      var job :| job in Jobs(q, targets[..n]) && job.target == t && job.binding.streamId == b.streamId;
      assert job in Jobs(q, targets);
    }
  }

  /**
   What a response of a poll says of its own stream, when the store calls met the states of a run: TOO_LONG
   if and only if the event after the cursor was gone at the read, or a budget was set and more than it
   lay ahead at the head check; otherwise the page of the history after the cursor, all of it allowed.
   */
  lemma ResponseExact(q: Query, job: Job, r: Response, look: Look, run: seq<Server>)
    requires Answers(q, job, r, look) && IsRun(run) && look.k < |run|
    requires forall n: nat | n < |run| :: run[n] == q.world(n, job.binding.streamId)
    ensures var cursor := CursorOf(run[look.i], q.subscriber);
            var ahead := |run[look.j].history| - cursor;
            && CursorFor(r) == CursorOf(run[look.at], q.subscriber) <= cursor
            && (r.reply.status == StatusTooLong <==>
                  Gone(run[look.k].stream, cursor + 1) || (q.totalLimit > 0 && ahead > q.totalLimit))
            && (r.reply.status == StatusOk ==>
                  && r.reply.batch == NextPage(run[look.k].history, cursor, q.limit)
                  && forall e | e in r.reply.batch.events ::
                       && (job.binding.payloadTypes == [] || e.payloadType in job.binding.payloadTypes)
                       && q.exposed(job.target, e.payloadType, e.payloadVersion))
  {
    RunInvariant(run, look.at, look.i);
    CursorMonotone(run[look.at], run[look.i], q.subscriber);
    InterleavedCatchUp(run, look.i, look.j, look.k, q.subscriber, q.limit, q.totalLimit);
  }

  /** A refusal names an event: the reply read in that call held one of a type or version that may not be shown. */
  lemma RefusalExact(q: Query, job: Job, look: Look)
    ensures Refused(q, job, look) <==>
              && ReplyAt(q, job, look).status == StatusOk
              && exists e | e in ReplyAt(q, job, look).batch.events ::
                   || (job.binding.payloadTypes != [] && e.payloadType !in job.binding.payloadTypes)
                   || !q.exposed(job.target, e.payloadType, e.payloadVersion)
  {
  }
}
