/**
 The watchers of one stream (internal/storage/memory/store.go, WaitForStream, notifyStreamLocked and
 removeWatcherLocked): a slice of waiters filtered and swap-removed in place, woken by the append that
 moves the stream's head past the number they wait for.
 */
module Watchers {
  import opened Types
  import opened StreamLog

  class Channel {
    var closed: bool

    constructor ()
      ensures !closed
    {
      closed := false;
    }

    // Closing a channel twice is a crash.
    method Close()
      requires !closed
      modifies this
      ensures closed
    {
      closed := true;
    }
  }

  datatype Watcher = Watcher(after: nat, ch: Channel)

  // Those still waiting when the head has reached the given number, in their order.
  function Waiting(ws: seq<Watcher>, head: nat): seq<Watcher> {
    if ws == [] then []
    else
      var n := |ws| - 1;
      Waiting(ws[..n], head) + (if ws[n].after < head then [] else [ws[n]])
  }

  lemma {:induction false} WaitingExact(ws: seq<Watcher>, head: nat)
    ensures |Waiting(ws, head)| <= |ws|
    ensures forall i | 0 <= i < |Waiting(ws, head)| :: Waiting(ws, head)[i] in ws
    ensures forall w :: w in Waiting(ws, head) <==> w in ws && w.after >= head
  {
    if ws != [] {
      var n := |ws| - 1;
      WaitingExact(ws[..n], head);
      assert ws == ws[..n] + [ws[n]];
    }
  }

  ghost predicate Distinct(ws: seq<Watcher>) {
    forall i, j | 0 <= i < j < |ws| :: ws[i].ch != ws[j].ch
  }

  lemma {:induction false} WaitingDistinct(ws: seq<Watcher>, head: nat)
    requires Distinct(ws)
    ensures Distinct(Waiting(ws, head))
  {
    if ws != [] {
      var n := |ws| - 1;
      WaitingDistinct(ws[..n], head);
      WaitingExact(ws[..n], head);
      var kept := Waiting(ws[..n], head);
      forall i | 0 <= i < |kept| ensures kept[i].ch != ws[n].ch {
        assert kept[i] in ws[..n];
        var j :| 0 <= j < n && ws[..n][j] == kept[i];
      }
    }
  }

  ghost function Channels(ws: seq<Watcher>): set<Channel> {
    set i | 0 <= i < |ws| :: ws[i].ch
  }

  ghost predicate AllOpen(ws: seq<Watcher>)
    reads Channels(ws)
  {
    forall i | 0 <= i < |ws| :: !ws[i].ch.closed
  }

  lemma WaitingStep(ws: seq<Watcher>, i: nat, head: nat)
    requires i < |ws|
    ensures Waiting(ws[..i + 1], head) == Waiting(ws[..i], head) + (if ws[i].after < head then [] else [ws[i]])
  {
    assert ws[..i + 1][..i] == ws[..i];
  }

  lemma {:induction false} WaitingAll(ws: seq<Watcher>, head: nat)
    requires forall i | 0 <= i < |ws| :: ws[i].after >= head
    ensures Waiting(ws, head) == ws
  {
    if ws != [] { WaitingAll(ws[..|ws| - 1], head); }
  }

  // Of the first i waiters exactly those that were passed are awake; the others have not been looked at.
  ghost predicate WokenUpTo(ws: seq<Watcher>, i: nat, head: nat)
    reads Channels(ws)
  {
    forall j | 0 <= j < |ws| :: ws[j].ch.closed <==> j < i && ws[j].after < head
  }

  // The filter's result so far, and the rest of the slots as they were.
  ghost predicate Sifted(buf: array<Watcher>, ws: seq<Watcher>, k: nat, i: nat, head: nat)
    reads buf
  {
    && k <= i <= |ws| <= buf.Length
    && buf[..k] == Waiting(ws[..i], head)
    && forall j | i <= j < |ws| :: buf[j] == ws[j]
  }

  // One waiter of the filter's loop: woken and dropped, or moved to the front.
  method SiftOne(buf: array<Watcher>, ghost ws: seq<Watcher>, k: nat, i: nat, head: nat) returns (k': nat)
    requires Distinct(ws) && i < |ws| && Sifted(buf, ws, k, i, head) && !ws[i].ch.closed
    modifies buf, ws[i].ch
    ensures Sifted(buf, ws, k', i + 1, head)
    ensures ws[i].ch.closed <==> ws[i].after < head
  {
    WaitingStep(ws, i, head);
    var w := buf[i];
    if w.after < head {
      w.ch.Close();
      k' := k;
    } else {
      buf[k] := w;
      k' := k + 1;
    }
  }

  /** Filters the first n slots in place and closes exactly the channels of those it drops, once each. */
  method Notify(buf: array<Watcher>, n: nat, head: nat) returns (k: nat)
    requires n <= buf.Length && Distinct(buf[..n]) && AllOpen(buf[..n])
    modifies buf, Channels(buf[..n])
    ensures k <= n && buf[..k] == Waiting(old(buf[..n]), head)
    ensures forall w | w in old(buf[..n]) :: w.ch.closed <==> w.after < head
  {
    ghost var ws := buf[..n];
    k := 0;
    for i := 0 to n
      invariant Sifted(buf, ws, k, i, head)
      invariant WokenUpTo(ws, i, head)
      modifies buf, Channels(ws)
    {
      assert ws[i].ch in Channels(ws);
      k := SiftOne(buf, ws, k, i, head);
    }
    assert ws[..n] == ws;
  }

  /** Removes the waiter of one channel in place by moving the last one into its slot. */
  method Remove(buf: array<Watcher>, n: nat, ch: Channel) returns (m: nat)
    requires n <= buf.Length && Distinct(buf[..n])
    modifies buf
    ensures m <= n && Distinct(buf[..m])
    ensures forall w :: w in buf[..m] <==> w in old(buf[..n]) && w.ch != ch
    ensures m == n - (if ch in Channels(old(buf[..n])) then 1 else 0)
  {
    ghost var ws := buf[..n];
    m := n;
    var i := 0;
    while i < n && buf[i].ch != ch
      invariant 0 <= i <= n
      invariant forall j | 0 <= j < i :: ws[j].ch != ch
    {
      i := i + 1;
    }
    if i < n {
      buf[i] := buf[n - 1];
      m := n - 1;
      assert buf[..m] == if i < m then ws[i := ws[m]][..m] else ws[..m];
      SwapRemoveExact(ws, i);
      assert ws[i].ch in Channels(ws);
    } else {
      assert forall w | w in ws :: w.ch != ch;
    }
  }

  lemma SwapRemoveExact(ws: seq<Watcher>, i: nat)
    requires i < |ws| && Distinct(ws)
    ensures var m := |ws| - 1;
            var out := if i < m then ws[i := ws[m]][..m] else ws[..m];
            Distinct(out) && forall w :: w in out <==> w in ws && w.ch != ws[i].ch
  {
    var m := |ws| - 1;
    var out := if i < m then ws[i := ws[m]][..m] else ws[..m];
    forall w | w in ws && w.ch != ws[i].ch ensures w in out {
      var j :| 0 <= j < |ws| && ws[j] == w;
      assert out[if j < m then j else i] == w;
    }
  }

  /** One stream and its waiters; every method is one critical section of the store. */
  class WatchedStream {
    const stream: StreamState
    var buf: array<Watcher>
    var n: nat

    ghost function Waiters(): seq<Watcher>
      reads this, buf
      requires n <= buf.Length
    {
      buf[..n]
    }

    /** No lost wake-up: nobody waits for a number the stream's head has passed. Every waiting channel is open. */
    ghost predicate Valid()
      reads this, stream, buf, if n <= buf.Length then Channels(buf[..n]) else {}
    {
      && stream.Valid()
      && n <= buf.Length
      && Distinct(buf[..n])
      && AllOpen(buf[..n])
      && forall i | 0 <= i < n :: buf[i].after >= stream.head
    }

    constructor (stream: StreamState)
      requires stream.Valid()
      ensures Valid() && this.stream == stream && Waiters() == [] && fresh(buf)
    {
      this.stream, n := stream, 0;
      buf := new Watcher[0];
    }

    /** WaitForStream: returns at once when the head is already past, otherwise joins the waiters. */
    method Register(after: nat) returns (passed: bool, ch: Channel)
      requires Valid()
      modifies this`buf, this`n, buf
      ensures Valid() && fresh(ch) && !ch.closed
      ensures buf == old(buf) || fresh(buf)
      ensures passed <==> stream.head > after
      ensures Waiters() == if passed then old(Waiters()) else old(Waiters()) + [Watcher(after, ch)]
    {
      ch := new Channel();
      passed := stream.head > after;
      if passed { return; }
      var w := Watcher(after, ch);
      ghost var ws := buf[..n];
      assert ch !in Channels(ws);
      if n == buf.Length {
        var full := buf;
        buf := new Watcher[2 * n + 1](i requires 0 <= i reads full => if i < full.Length then full[i] else w);
      }
      buf[n] := w;
      n := n + 1;
      assert buf[..n] == ws + [w];
      assert forall i | 0 <= i < |ws| :: ws[i].ch in Channels(ws);
    }

    // The end of an append that assigned a number.
    method Wake(head: nat)
      requires n <= buf.Length && Distinct(buf[..n]) && AllOpen(buf[..n])
      modifies this`n, buf, Channels(Waiters())
      ensures n <= buf.Length && Waiters() == Waiting(old(Waiters()), head)
      ensures Distinct(Waiters()) && AllOpen(Waiters())
      ensures forall w | w in old(Waiters()) :: w.ch.closed <==> w.after < head
      ensures forall i | 0 <= i < n :: buf[i].after >= head
    {
      hide Waiting;
      ghost var ws := Waiters();
      n := Notify(buf, n, head);
      WaitingExact(ws, head);
      WaitingDistinct(ws, head);
      forall i | 0 <= i < n ensures buf[i].after >= head && !buf[i].ch.closed {
        assert buf[..n][i] in Waiting(ws, head);
      }
    }

    /** An append moves the stream on and wakes exactly the waiters its head has passed; a retry wakes nobody. */
    method Append(req: AppendRequest, r: Option<Retention>, nowMs: int) returns (outcome: AppendOutcome)
      requires Valid()
      modifies this`n, buf, stream, Channels(Waiters())
      ensures Valid()
      ensures (stream.Value(), outcome) == StreamLog.Append(old(stream.Value()), req, r, nowMs)
      ensures Waiters() == Waiting(old(Waiters()), stream.head)
      ensures forall w | w in old(Waiters()) :: w.ch.closed <==> w.after < stream.head
      ensures !outcome.Assigned? ==> Waiters() == old(Waiters())
    {
      hide StreamLog.Append, Represents, HistoryAfterAppend, Waiting;
      ghost var ws := Waiters();
      OnlyAssigningChanges(stream.Value(), req, r, nowMs);
      outcome := stream.AppendLocked(req, r, nowMs);
      if outcome.Assigned? {
        Wake(stream.head);
      } else {
        WaitingAll(ws, stream.head);
      }
    }

    /** The waiter gives up: its entry goes, everybody else keeps waiting and no channel is closed. */
    method Cancel(ch: Channel)
      requires Valid()
      modifies this`n, buf
      ensures Valid()
      ensures forall w :: w in Waiters() <==> w in old(Waiters()) && w.ch != ch
    {
      ghost var ws := Waiters();
      n := Remove(buf, n, ch);
      forall i | 0 <= i < n ensures buf[i].after >= stream.head && !buf[i].ch.closed {
        assert buf[..n][i] in ws;
      }
    }
  }
}
