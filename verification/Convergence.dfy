/**
 Safety and termination together: from any state a single-flow client can reach, a catch-up that
 returns has brought its view to the fold of the whole log.
 */
module Convergence {
  import opened Types
  import opened LogServer
  import opened ClientRecord
  import opened EndToEnd
  import opened CatchUpLoop
  import opened Refinement

  lemma ReplayedIsAtHead(p: Params, s: Session, n: nat)
    requires Coherent(p, s) && Loop(p, s, n).0 == Returned
    requires !TooFarBehind(p, s.server.stream, CursorOf(s.server, p.id))
    ensures AtHead(p, s, Loop(p, s, n).1)
  {
    hide Request;
    var m := s.server.stream.head + 1;
    EnoughPages(m, NormalizeLimit(p.limit));
    ReplayReachesHead(p, s, m);
    OneOutcome(Requests(p), s, m, n);
  }

  lemma RecoveredIsAtHead(p: Params, s: Session, snapshot: Snapshot, n: nat)
    requires Coherent(p, s) && Loop(p, s, n).0 == Returned
    requires TooFarBehind(p, s.server.stream, CursorOf(s.server, p.id))
    requires Latest(s.server.snapshots, p.snapshotType, p.maxVersion) == Some(snapshot)
    requires RecoveryReaches(p, s.server.stream, snapshot.seqNo)
    ensures AtHead(p, s, Loop(p, s, n).1)
  {
    hide Request;
    var m := s.server.stream.head + 1;
    EnoughPages(m, NormalizeLimit(p.limit));
    RecoveryEnds(p, s, snapshot, m);
    OneOutcome(Requests(p), s, 1 + m, n);
  }

  lemma ReturnedIsAtHead(p: Params, s: Session, n: nat)
    requires Coherent(p, s) && Loop(p, s, n).0 == Returned
    ensures AtHead(p, s, Loop(p, s, n).1)
  {
    hide Loop;
    assert Ends(p, s, Returned);
    CatchUpEndsExactly(p, s);
    if !TooFarBehind(p, s.server.stream, CursorOf(s.server, p.id)) {
      ReplayedIsAtHead(p, s, n);
    } else {
      RecoveredIsAtHead(p, s, Latest(s.server.snapshots, p.snapshotType, p.maxVersion).value, n);
    }
  }

  /**
   The sequential client is right whenever it is looked at: after any number of requests, run from any
   state it may have been left in, its view is the fold of the log up to its applied number.
   */
  lemma CatchUpIsAlwaysRight<V>(f: Projection<V>, p: Params, flow: nat, run: seq<World>, acts: seq<Act>, i: nat, n: nat)
    requires IsExecution(ClientOf(p), f, {flow}, run, acts) && i < |run|
    ensures var t := Loop(p, SessionOf(run[i]), n).1;
            && CursorOf(t.server, p.id) <= t.record.applied <= |t.server.history|
            && View(f, t.record) == Fold(f, f.init, t.server.history[..t.record.applied])
  {
    AlwaysSolo(ClientOf(p), f, flow, run, acts, i);
    var w := LoopRefinesMachine(p, f, {flow}, run, acts, i, flow, n);
    var run', acts' :| IsExecution(ClientOf(p), f, {flow}, run', acts') && run'[|acts'|] == w;
    EndToEndCorrect(ClientOf(p), f, flow, run', acts', |acts'|);
    AlwaysSafe(ClientOf(p), f, {flow}, run', acts', |acts'|);
  }

  /**
   Convergence: whatever happened before, once the server is quiet a catch-up that returns leaves the
   client showing the fold of the entire log, with applied number and cursor at its head. When it
   returns is CatchUpEndsExactly.
   */
  lemma CatchUpConverges<V>(f: Projection<V>, p: Params, flow: nat, run: seq<World>, acts: seq<Act>, i: nat, n: nat)
    requires IsExecution(ClientOf(p), f, {flow}, run, acts) && i < |run|
    requires Loop(p, SessionOf(run[i]), n).0 == Returned
    ensures var history := run[i].server.history;
            var t := Loop(p, SessionOf(run[i]), n).1;
            && t.server.history == history
            && t.record.applied == CursorOf(t.server, p.id) == |history|
            && View(f, t.record) == Fold(f, f.init, history)
  {
    var s := SessionOf(run[i]);
    PrefixIsReachable(ClientOf(p), f, {flow}, run, acts, i);
    ReachableIsCoherent(p, f, {flow}, run[i]);
    ReturnedIsAtHead(p, s, n);
    CatchUpIsAlwaysRight(f, p, flow, run, acts, i, n);
    assert s.server.history[..|s.server.history|] == s.server.history;
  }
}
