/**
 The string keys that name a target's binding, in the client's store (ts/synclog/src/target.ts) and
 in the gateway's delivery state (pkg/gateway/transport/grpc/server.go), and what a separator inside
 a part would do to them.
 */
module Keys {

  datatype Target = Target(namespace: string, id: string, view: string)

  datatype BindingKey = BindingKey(subscriberId: string, target: Target, binding: string)

  const DEFAULT_BINDING := "default"

  function NormalizeBinding(binding: string): string {
    if binding == "" then DEFAULT_BINDING else binding
  }

  function TargetKey(t: Target): string {
    t.namespace + "/" + t.id + "/" + t.view
  }

  // Key of one binding in the gateway's delivery maps.
  function DeliveryKey(t: Target, binding: string): string {
    TargetKey(t) + "#" + binding
  }

  // Key of one record in the client's store.
  function RecordKey(k: BindingKey): string {
    k.subscriberId + ":" + DeliveryKey(k.target, k.binding)
  }

  predicate Clean(part: string) {
    ':' !in part && '/' !in part && '#' !in part
  }

  predicate CleanTarget(t: Target) {
    Clean(t.namespace) && Clean(t.id) && Clean(t.view)
  }

  // Enough for delivery keys: the two slashes and the '#' can be found again from the left.
  predicate Separable(t: Target) {
    '/' !in t.namespace && '/' !in t.id && '#' !in t.view
  }

  // Enough for record keys: the separators can be found again from the right.
  predicate RecordSeparable(k: BindingKey) {
    ':' !in k.target.namespace && '/' !in k.target.id && '/' !in k.target.view && '#' !in k.binding
  }

  // What the gateway and the client accept: only the view may be empty.
  predicate AcceptedTarget(t: Target) {
    t.namespace != "" && t.id != ""
  }

  predicate AcceptedBinding(k: BindingKey) {
    k.subscriberId != "" && AcceptedTarget(k.target) && k.binding != ""
  }

  predicate OccursAt(key: string, marker: string, i: nat) {
    i + |marker| <= |key| && key[i..i + |marker|] == marker
  }

  predicate Contains(key: string, marker: string) {
    exists i: nat | i <= |key| :: OccursAt(key, marker, i)
  }

  // Text that clearTarget looks for inside a record key.
  function ClearMarker(t: Target): string {
    ":" + TargetKey(t) + "#"
  }

  // ---------------------------------------------------------------- splitting at separators

  lemma SplitAtLast(x: string, y: string, x': string, y': string, c: char)
    requires x + [c] + y == x' + [c] + y' && c !in y && c !in y'
    ensures x == x' && y == y'
  {
    var s := x + [c] + y;
    assert s[|x|] == c && s[|x'|] == c;
    assert forall i | |x| < i < |s| :: s[i] == y[i - |x| - 1];
    assert forall i | |x'| < i < |s| :: s[i] == y'[i - |x'| - 1];
    assert x == s[..|x|] && x' == s[..|x|];
    assert y == s[|x| + 1..] && y' == s[|x| + 1..];
  }

  lemma SplitAtFirst(x: string, y: string, x': string, y': string, c: char)
    requires x + [c] + y == x' + [c] + y' && c !in x && c !in x'
    ensures x == x' && y == y'
  {
    var s := x + [c] + y;
    assert s[|x|] == c && s[|x'|] == c;
    assert forall i | 0 <= i < |x| :: s[i] == x[i];
    assert forall i | 0 <= i < |x'| :: s[i] == x'[i];
    assert x == s[..|x|] && x' == s[..|x|];
    assert y == s[|x| + 1..] && y' == s[|x| + 1..];
  }

  lemma TargetKeyFree(t: Target)
    requires CleanTarget(t)
    ensures ':' !in TargetKey(t) && '#' !in TargetKey(t)
  {
  }

  lemma TargetKeyInjective(t: Target, u: Target)
    requires CleanTarget(t) && CleanTarget(u) && TargetKey(t) == TargetKey(u)
    ensures t == u
  {
    SplitAtLast(t.namespace + "/" + t.id, t.view, u.namespace + "/" + u.id, u.view, '/');
    SplitAtLast(t.namespace, t.id, u.namespace, u.id, '/');
  }

  // A delivery key, or a prefix of one, read from the left.
  lemma ReadFromLeft(t: Target, rest: string, u: Target, rest': string)
    requires Separable(t) && Separable(u)
    requires TargetKey(t) + "#" + rest == TargetKey(u) + "#" + rest'
    ensures t == u && rest == rest'
  {
    var tail, tail' := t.id + "/" + t.view + "#" + rest, u.id + "/" + u.view + "#" + rest';
    assert t.namespace + "/" + tail == TargetKey(t) + "#" + rest;
    assert u.namespace + "/" + tail' == TargetKey(u) + "#" + rest';
    SplitAtFirst(t.namespace, tail, u.namespace, tail', '/');
    assert tail == t.id + "/" + (t.view + "#" + rest) && tail' == u.id + "/" + (u.view + "#" + rest');
    SplitAtFirst(t.id, t.view + "#" + rest, u.id, u.view + "#" + rest', '/');
    SplitAtFirst(t.view, rest, u.view, rest', '#');
  }

  /**
   Different bindings never share delivery state when their targets are separable; binding names may hold
   anything.
   */
  lemma DeliveryKeyInjective(t: Target, b: string, u: Target, c: string)
    requires Separable(t) && Separable(u)
    ensures DeliveryKey(t, b) == DeliveryKey(u, c) <==> t == u && b == c
  {
    if DeliveryKey(t, b) == DeliveryKey(u, c) {
      ReadFromLeft(t, b, u, c);
    }
  }

  /** Records of separable bindings are never merged; subscriber ids may hold anything. */
  lemma RecordKeyInjective(k: BindingKey, l: BindingKey)
    requires RecordSeparable(k) && RecordSeparable(l)
    ensures RecordKey(k) == RecordKey(l) <==> k == l
  {
    if RecordKey(k) == RecordKey(l) {
      var x, x' := k.subscriberId + ":" + k.target.namespace, l.subscriberId + ":" + l.target.namespace;
      var y, y' := x + "/" + k.target.id, x' + "/" + l.target.id;
      assert RecordKey(k) == (y + "/" + k.target.view) + "#" + k.binding;
      assert RecordKey(l) == (y' + "/" + l.target.view) + "#" + l.binding;
      SplitAtLast(y + "/" + k.target.view, k.binding, y' + "/" + l.target.view, l.binding, '#');
      SplitAtLast(y, k.target.view, y', l.target.view, '/');
      SplitAtLast(x, k.target.id, x', l.target.id, '/');
      SplitAtLast(k.subscriberId, k.target.namespace, l.subscriberId, l.target.namespace, ':');
    }
  }

  /** A delivery entry survives pruning for a target exactly when it belongs to that target. */
  lemma PrefixExact(t: Target, u: Target, b: string)
    requires Separable(t) && Separable(u)
    ensures TargetKey(t) + "#" <= DeliveryKey(u, b) <==> t == u
  {
    var key := DeliveryKey(u, b);
    if t == u {
      assert key[..|TargetKey(t) + "#"|] == TargetKey(t) + "#";
    } else if TargetKey(t) + "#" <= key {
      var rest := key[|TargetKey(t)| + 1..];
      assert key == TargetKey(t) + "#" + rest;
      ReadFromLeft(t, rest, u, b);
    }
  }

  /** clearTarget's marker is found exactly in the keys of that target, provided ids and bindings carry no '#'. */
  lemma ClearMarkerExact(t: Target, k: BindingKey)
    requires CleanTarget(t) && CleanTarget(k.target) && '#' !in k.binding && '#' !in k.subscriberId
    ensures Contains(RecordKey(k), ClearMarker(t)) <==> t == k.target
  {
    var key, m := RecordKey(k), ClearMarker(t);
    if t == k.target {
      assert key == k.subscriberId + m + k.binding;
      assert OccursAt(key, m, |k.subscriberId|);
    }
    if i: nat :| i <= |key| && OccursAt(key, m, i) {
      MarkerNamesTarget(t, k, i);
    }
  }

  lemma MarkerNamesTarget(t: Target, k: BindingKey, i: nat)
    requires CleanTarget(t) && CleanTarget(k.target) && '#' !in k.binding && '#' !in k.subscriberId
    requires OccursAt(RecordKey(k), ClearMarker(t), i)
    ensures t == k.target
  {
    var key, m := RecordKey(k), ClearMarker(t);
    var front := k.subscriberId + ":" + TargetKey(k.target);
    TargetKeyFree(t);
    TargetKeyFree(k.target);
    assert key == front + "#" + k.binding;
    var p := i + |m| - 1;
    assert key[p] == key[i..i + |m|][|m| - 1] == '#';
    MarkerEndsAtSeparator(key, front, k.binding, p);
    assert front == key[..i] + ":" + TargetKey(t) by {
      assert key[..p] == key[..i] + key[i..i + |m|][..|m| - 1];
    }
    SplitAtLast(key[..i], TargetKey(t), k.subscriberId, TargetKey(k.target), ':');
    TargetKeyInjective(t, k.target);
  }

  lemma MarkerEndsAtSeparator(key: string, front: string, binding: string, p: nat)
    requires key == front + "#" + binding && '#' !in front && '#' !in binding && p < |key| && key[p] == '#'
    ensures p == |front| && key[..p] == front
  {
    assert forall i | 0 <= i < |front| :: key[i] == front[i];
    assert forall i | |front| < i < |key| :: key[i] == binding[i - |front| - 1];
  }

  /** Two targets, one delivery entry; two subscribers, one record. */
  lemma SeparatorsCollide()
    ensures DeliveryKey(Target("n", "i", "v#w"), "b") == DeliveryKey(Target("n", "i", "v"), "w#b")
    ensures RecordKey(BindingKey("a:b", Target("n", "i", "v"), "c")) ==
        RecordKey(BindingKey("a", Target("b:n", "i", "v"), "c"))
  {
    assert DeliveryKey(Target("n", "i", "v#w"), "b") == "n/i/v#w#b" == DeliveryKey(Target("n", "i", "v"), "w#b");
    assert RecordKey(BindingKey("a:b", Target("n", "i", "v"), "c")) == "a:b:n/i/v#c";
  }
}
