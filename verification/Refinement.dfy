/**
 The client run in place is one of the clients of the end-to-end machine: every request of the
 catch-up loop is a sequence of the machine's acts. So whatever the machine's reachable states satisfy,
 the sequential client satisfies after any number of requests.
 */
module Refinement {
  import opened Types
  import opened LogServer
  import opened CoreEngine
  import opened ClientRecord
  import opened EndToEnd
  import opened CatchUpLoop

  function ClientOf(p: Params): Client {
    Client(p.id, p.snapshotType, p.maxVersion)
  }

  function SessionOf(w: World): Session {
    Session(w.server, w.record)
  }

  ghost predicate IdleAt(w: World, flow: nat) {
    flow in w.wire.flows && w.wire.flows[flow] == Idle
  }

  lemma ReachableIsCoherent<V>(p: Params, f: Projection<V>, flows: set<nat>, w: World)
    requires Reachable(ClientOf(p), f, flows, w)
    ensures Coherent(p, SessionOf(w))
  {
    var run, acts :| IsExecution(ClientOf(p), f, flows, run, acts) && run[|acts|] == w;
    AlwaysSafe(ClientOf(p), f, flows, run, acts, |acts|);
  }

  // A catch-up call for a flow, up to its head check.
  lemma CallFor<V>(p: Params, f: Projection<V>, flows: set<nat>, w: World, flow: nat) returns (w': World, call: Call)
    requires Reachable(ClientOf(p), f, flows, w)
    ensures Reachable(ClientOf(p), f, flows, w') && SessionOf(w') == SessionOf(w) && w'.wire.flows == w.wire.flows
    ensures call == HaveCursor(flow, CursorOf(w.server, p.id), p.limit, p.totalLimit) && call in w'.wire.calls
  {
    hide Reachable;
    w' := StepIsReachable(ClientOf(p), f, flows, w, ReadCursor(flow, p.limit, p.totalLimit));
    call := HaveCursor(flow, CursorOf(w.server, p.id), p.limit, p.totalLimit);
  }

  // A catch-up call that is served: the page is on the wire.
  lemma Fetch<V>(p: Params, f: Projection<V>, flows: set<nat>, w: World, flow: nat) returns (w': World)
    requires Reachable(ClientOf(p), f, flows, w)
    requires ReplyTo(p, SessionOf(w)).status == StatusOk
    ensures Reachable(ClientOf(p), f, flows, w')
    ensures SessionOf(w') == SessionOf(w) && w'.wire.flows == w.wire.flows
    ensures ReplyTo(p, SessionOf(w)).batch.events in w'.wire.batches
  {
    hide Reachable;
    var call;
    w', call := CallFor(p, f, flows, w, flow);
    w' := StepIsReachable(ClientOf(p), f, flows, w', ReadHead(call));
    w' := StepIsReachable(ClientOf(p), f, flows, w', ReadEvents(HaveHead(flow, call.cursor, p.limit)));
  }

  // A catch-up call that is refused: the flow is told TOO_LONG.
  lemma Refused<V>(p: Params, f: Projection<V>, flows: set<nat>, w: World, flow: nat) returns (w': World)
    requires Reachable(ClientOf(p), f, flows, w)
    requires ReplyTo(p, SessionOf(w)).status == StatusTooLong
    ensures Reachable(ClientOf(p), f, flows, w')
    ensures SessionOf(w') == SessionOf(w) && w'.wire.flows == w.wire.flows && flow in w'.wire.refused
  {
    hide Reachable;
    var call;
    w', call := CallFor(p, f, flows, w, flow);
    w' := StepIsReachable(ClientOf(p), f, flows, w', ReadHead(call));
  }

  // A page stored, up to the ack being sent.
  lemma StorePage<V>(c: Client, f: Projection<V>, flows: set<nat>, w: World, flow: nat, events: seq<Event>)
    returns (w': World)
    requires Reachable(c, f, flows, w) && IdleAt(w, flow) && events in w.wire.batches && events != []
    ensures Reachable(c, f, flows, w') && IdleAt(w', flow)
    ensures w'.server == w.server && w'.record == ApplyEvents(w.record, Above(events, w.record.applied))
    ensures w'.record.applied in w'.wire.acks
  {
    hide Reachable;
    w' := StepIsReachable(c, f, flows, w, Deliver(flow, events));
    w' := StepIsReachable(c, f, flows, w', ReadApplied(flow));
    w' := StepIsReachable(c, f, flows, w', StoreEvents(flow));
    w' := StepIsReachable(c, f, flows, w', ReadBack(flow));
    w' := StepIsReachable(c, f, flows, w', SendAck(flow));
  }

  // A snapshot fetched and stored, up to the ack being sent.
  lemma StoreLatest<V>(c: Client, f: Projection<V>, flows: set<nat>, w: World, flow: nat, snapshot: Snapshot)
    returns (w': World)
    requires Reachable(c, f, flows, w) && IdleAt(w, flow)
    requires flow in w.wire.refused
    requires Latest(w.server.snapshots, c.snapshotType, c.maxVersion) == Some(snapshot)
    ensures Reachable(c, f, flows, w') && IdleAt(w', flow)
    ensures w'.server == w.server && w'.record == ApplySnapshot(w.record, snapshot)
    ensures snapshot.seqNo in w'.wire.acks
  {
    hide Reachable;
    w' := StepIsReachable(c, f, flows, w, AskSnapshot(flow));
    w' := StepIsReachable(c, f, flows, w', ServeSnapshot(flow));
    w' := StepIsReachable(c, f, flows, w', StoreSnapshot(flow));
    w' := StepIsReachable(c, f, flows, w', SendAck(flow));
  }

  // A sent ack arrives, and is committed or refused.
  lemma AckArrives<V>(p: Params, f: Projection<V>, flows: set<nat>, w: World, q: nat, turn: Turn) returns (w': World)
    requires Reachable(ClientOf(p), f, flows, w) && q in w.wire.acks
    ensures Reachable(ClientOf(p), f, flows, w') && w'.wire.flows == w.wire.flows
    ensures SessionOf(w') == Acked(p, SessionOf(w), q, turn).1
  {
    hide Reachable;
    var c := ClientOf(p);
    w' := StepIsReachable(c, f, flows, w, CheckAck(q));
    if q <= w.server.stream.head {
      w' := StepIsReachable(c, f, flows, w', CommitAck(q));
    }
  }

  lemma BatchIsPlayed<V>(p: Params, f: Projection<V>, flows: set<nat>, w: World, flow: nat) returns (w': World)
    requires Reachable(ClientOf(p), f, flows, w) && IdleAt(w, flow)
    requires var reply := ReplyTo(p, SessionOf(w)); reply.status == StatusOk && reply.batch.events != []
    ensures Reachable(ClientOf(p), f, flows, w') && IdleAt(w', flow)
    ensures SessionOf(w') == ApplyBatch(p, SessionOf(w), ReplyTo(p, SessionOf(w)).batch).1
  {
    var batch := ReplyTo(p, SessionOf(w)).batch;
    w' := Fetch(p, f, flows, w, flow);
    w' := StorePage(ClientOf(p), f, flows, w', flow, batch.events);
    assert w'.record == CatchUpLoop.Stored(w.record, batch);
    w' := AckArrives(p, f, flows, w', w'.record.applied, if batch.final then Returned else Again);
  }

  lemma RecoveryIsPlayed<V>(p: Params, f: Projection<V>, flows: set<nat>, w: World, flow: nat) returns (w': World)
    requires Reachable(ClientOf(p), f, flows, w) && IdleAt(w, flow)
    requires ReplyTo(p, SessionOf(w)).status == StatusTooLong
    ensures Reachable(ClientOf(p), f, flows, w') && IdleAt(w', flow)
    ensures SessionOf(w') == Recover(p, SessionOf(w)).1
  {
    var latest := Latest(w.server.snapshots, p.snapshotType, p.maxVersion);
    if latest.None? { return w; }
    w' := Refused(p, f, flows, w, flow);
    w' := StoreLatest(ClientOf(p), f, flows, w', flow, latest.value);
    w' := AckArrives(p, f, flows, w', latest.value.seqNo, Again);
  }

  /** One pass of the catch-up loop is a sequence of the machine's acts, ending with the flow idle again. */
  lemma RequestIsPlayed<V>(p: Params, f: Projection<V>, flows: set<nat>, w: World, flow: nat) returns (w': World)
    requires Reachable(ClientOf(p), f, flows, w) && IdleAt(w, flow)
    ensures Reachable(ClientOf(p), f, flows, w') && IdleAt(w', flow)
    ensures SessionOf(w') == Request(p, SessionOf(w)).1
  {
    hide Reachable, Recover, ApplyBatch, ReplyTo;
    var reply := ReplyTo(p, SessionOf(w));
    if reply.status == StatusTooLong {
      w' := RecoveryIsPlayed(p, f, flows, w, flow);
    } else if reply.batch.events != [] {
      w' := BatchIsPlayed(p, f, flows, w, flow);
    } else {
      w' := w;
    }
  }

  lemma {:induction false} LoopIsPlayed<V>(p: Params, f: Projection<V>, flows: set<nat>, w: World, flow: nat,
                                           n: nat) returns (w': World)
    requires Reachable(ClientOf(p), f, flows, w) && IdleAt(w, flow)
    ensures Reachable(ClientOf(p), f, flows, w') && IdleAt(w', flow)
    ensures SessionOf(w') == Loop(p, SessionOf(w), n).1
    decreases n
  {
    hide Request, Reachable;
    if n == 0 { return w; }
    w' := RequestIsPlayed(p, f, flows, w, flow);
    if Request(p, SessionOf(w)).0 == Again { w' := LoopIsPlayed(p, f, flows, w', flow, n - 1); }
  }

  /**
   Refinement: from any state of any execution, a flow that starts over and runs the catch-up loop for
   any number of requests is still inside an execution of the machine.
   */
  lemma LoopRefinesMachine<V>(p: Params, f: Projection<V>, flows: set<nat>, run: seq<World>, acts: seq<Act>,
                              i: nat, flow: nat, n: nat) returns (w: World)
    requires IsExecution(ClientOf(p), f, flows, run, acts) && i < |run| && flow in run[i].wire.flows
    ensures Reachable(ClientOf(p), f, flows, w)
    ensures SessionOf(w) == Loop(p, SessionOf(run[i]), n).1
  {
    var c := ClientOf(p);
    PrefixIsReachable(c, f, flows, run, acts, i);
    w := StepIsReachable(c, f, flows, run[i], Crash(flow));
    w := LoopIsPlayed(p, f, flows, w, flow, n);
  }
}
