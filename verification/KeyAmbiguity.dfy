/**
 Exactly when a key names one binding alone, among all the bindings the gateway and the client accept:
 the delivery keys of the gateway, the record keys of the client's store, and clearTarget's search.
 */
module KeyAmbiguity {
  import opened Keys

  // ---------------------------------------------------------------- the conditions

  // No other accepted binding has this one's delivery key.
  ghost predicate OwnsDeliveryKey(t: Target, b: string) {
    forall u, c | AcceptedTarget(u) && c != "" :: DeliveryKey(u, c) == DeliveryKey(t, b) ==> u == t && c == b
  }

  // No other accepted binding has this one's record key.
  ghost predicate OwnsRecordKey(k: BindingKey) {
    forall l | AcceptedBinding(l) :: RecordKey(l) == RecordKey(k) ==> l == k
  }

  // Clearing a target forgets this record only if the target is its own.
  ghost predicate ClearedWithOwnTarget(k: BindingKey) {
    forall t | AcceptedTarget(t) :: Contains(RecordKey(k), ClearMarker(t)) <==> t == k.target
  }

  // A '/' may only begin the namespace or be the whole id; those cannot be read as separators.
  predicate TargetUnambiguous(t: Target)
    requires AcceptedTarget(t)
  {
    '/' !in t.namespace[1..] && ('/' !in t.id || t.id == "/") && '/' !in t.view && '#' !in t.view
  }

  // A '#' may only end the binding.
  predicate DeliveryUnambiguous(t: Target, b: string)
    requires AcceptedTarget(t) && b != ""
  {
    TargetUnambiguous(t) && '#' !in b[..|b| - 1]
  }

  // A ':' may only end the namespace.
  predicate NamespaceUnambiguous(t: Target)
    requires AcceptedTarget(t)
  {
    ':' !in t.namespace[..|t.namespace| - 1]
  }

  // A ':' may also begin the subscriber id.
  predicate RecordUnambiguous(k: BindingKey)
    requires AcceptedBinding(k)
  {
    ':' !in k.subscriberId[1..] && NamespaceUnambiguous(k.target) && DeliveryUnambiguous(k.target, k.binding)
  }

  predicate ClearUnambiguous(k: BindingKey)
    requires AcceptedBinding(k)
  {
    ':' !in k.subscriberId && NamespaceUnambiguous(k.target) && TargetUnambiguous(k.target) && '#' !in k.binding
  }

  // ---------------------------------------------------------------- an unambiguous key has one reading

  // Where the separators of a delivery key stand, and what is between them.
  lemma DeliveryShape(t: Target, b: string)
    ensures var s, i := DeliveryKey(t, b), |t.namespace|;
            var j := i + 1 + |t.id|;
            var k := j + 1 + |t.view|;
            && k < |s| && s[i] == '/' && s[j] == '/' && s[k] == '#'
            && s[..i] == t.namespace && s[i + 1..j] == t.id && s[j + 1..k] == t.view && s[k + 1..] == b
  {
  }

  lemma CharsOfKey(t: Target, b: string, m: nat)
    requires m < |DeliveryKey(t, b)|
    ensures var s, i := DeliveryKey(t, b), |t.namespace|;
            var j := i + 1 + |t.id|;
            var k := j + 1 + |t.view|;
            && (m < i ==> s[m] == t.namespace[m]) && (i < m < j ==> s[m] == t.id[m - i - 1])
            && (j < m < k ==> s[m] == t.view[m - j - 1]) && (k < m ==> s[m] == b[m - k - 1])
  {
  }

  // Where a '/' before the separator '#' may stand.
  lemma SlashPlaces(t: Target, b: string, m: nat)
    requires AcceptedTarget(t) && TargetUnambiguous(t)
    requires m < |TargetKey(t)| && DeliveryKey(t, b)[m] == '/'
    ensures var i := |t.namespace|;
            m == 0 || m == i || m == i + 1 + |t.id| || (m == i + 1 && t.id == "/")
  {
    assert forall n | 0 < n < |t.namespace| :: t.namespace[n] == t.namespace[1..][n - 1];
    CharsOfKey(t, b, m);
  }

  // Where a '#' after the second slash may stand.
  lemma HashPlaces(t: Target, b: string, m: nat)
    requires AcceptedTarget(t) && b != "" && DeliveryUnambiguous(t, b)
    requires |t.namespace| + 1 + |t.id| < m < |DeliveryKey(t, b)| && DeliveryKey(t, b)[m] == '#'
    ensures m == |TargetKey(t)| || (m == |DeliveryKey(t, b)| - 1 && '#' in b)
  {
    assert forall n | 0 <= n < |b| - 1 :: b[n] == b[..|b| - 1][n];
    CharsOfKey(t, b, m);
  }

  // Two slashes with something before the first and between them, and a later '#', are the separators.
  lemma Anchors(t: Target, b: string, i: nat, j: nat, k: nat)
    requires AcceptedTarget(t) && b != "" && DeliveryUnambiguous(t, b)
    requires 0 < i && i + 1 < j < k < |DeliveryKey(t, b)|
    requires DeliveryKey(t, b)[i] == DeliveryKey(t, b)[j] == '/' && DeliveryKey(t, b)[k] == '#'
    requires k + 1 < |DeliveryKey(t, b)| || '#' !in b
    ensures i == |t.namespace| && j == i + 1 + |t.id| && k == j + 1 + |t.view|
  {
    if j < |TargetKey(t)| {
      SlashPlaces(t, b, i);
      SlashPlaces(t, b, j);
    }
    if |t.namespace| + 1 + |t.id| < k { HashPlaces(t, b, k); }
  }

  lemma UnambiguousOwnsKey(t: Target, b: string, u: Target, c: string)
    requires AcceptedTarget(t) && b != "" && DeliveryUnambiguous(t, b)
    requires AcceptedTarget(u) && c != "" && DeliveryKey(u, c) == DeliveryKey(t, b)
    ensures u == t && c == b
  {
    DeliveryShape(t, b);
    DeliveryShape(u, c);
    Anchors(t, b, |u.namespace|, |u.namespace| + 1 + |u.id|, |TargetKey(u)|);
  }

  // A delivery key's tail after a ':' is not the start of another accepted target's key.
  lemma NoLaterColon(t: Target, b: string, u: Target, c: string, n: nat)
    requires AcceptedTarget(t) && b != "" && DeliveryUnambiguous(t, b) && NamespaceUnambiguous(t)
    requires AcceptedTarget(u) && (c != "" || '#' !in b)
    requires n <= |DeliveryKey(t, b)| && DeliveryKey(u, c) == DeliveryKey(t, b)[n..]
    requires n > 0 ==> DeliveryKey(t, b)[n - 1] == ':'
    ensures n == 0
  {
    assert forall m | 0 <= m < |t.namespace| - 1 :: t.namespace[m] == t.namespace[..|t.namespace| - 1][m];
    if n > 0 { CharsOfKey(t, b, n - 1); }
    DeliveryShape(u, c);
    var i := n + |u.namespace|;
    var j := i + 1 + |u.id|;
    Anchors(t, b, i, j, j + 1 + |u.view|);
  }

  // ---------------------------------------------------------------- an ambiguous key has two

  lemma SplitOn(part: string, c: char) returns (x: string, y: string)
    requires c in part
    ensures part == x + [c] + y
  {
    var i :| 0 <= i < |part| && part[i] == c;
    x, y := part[..i], part[i + 1..];
  }

  // With something before the separator.
  lemma SplitAfterStart(part: string, c: char) returns (x: string, y: string)
    requires part != "" && c in part[1..]
    ensures part == x + [c] + y && x != ""
  {
    var x', y' := SplitOn(part[1..], c);
    x, y := part[..1] + x', y';
    assert part == part[..1] + part[1..];
  }

  // With something after the separator.
  lemma SplitBeforeEnd(part: string, c: char) returns (x: string, y: string)
    requires part != "" && c in part[..|part| - 1]
    ensures part == x + [c] + y && y != ""
  {
    var x', y' := SplitOn(part[..|part| - 1], c);
    x, y := x', y' + part[|part| - 1..];
    assert part == part[..|part| - 1] + part[|part| - 1..];
  }

  lemma ConfuseNamespace(t: Target, b: string) returns (u: Target)
    requires AcceptedTarget(t) && '/' in t.namespace[1..]
    ensures AcceptedTarget(u) && u != t && DeliveryKey(u, b) == DeliveryKey(t, b)
  {
    var x, y := SplitAfterStart(t.namespace, '/');
    u := Target(x, y + "/" + t.id, t.view);
  }

  lemma ConfuseId(t: Target, b: string) returns (u: Target)
    requires AcceptedTarget(t) && '/' in t.id && t.id != "/"
    ensures AcceptedTarget(u) && u != t && DeliveryKey(u, b) == DeliveryKey(t, b)
  {
    var x, y := SplitOn(t.id, '/');
    if x != "" {
      u := Target(t.namespace, x, y + "/" + t.view);
    } else {
      u := Target(t.namespace + "/", y, t.view);
    }
  }

  lemma ConfuseView(t: Target, b: string) returns (u: Target, c: string)
    requires AcceptedTarget(t) && b != "" && ('/' in t.view || '#' in t.view)
    ensures AcceptedTarget(u) && c != "" && u != t && DeliveryKey(u, c) == DeliveryKey(t, b)
  {
    if '/' in t.view {
      var x, y := SplitOn(t.view, '/');
      u, c := Target(t.namespace, t.id + "/" + x, y), b;
    } else {
      var x, y := SplitOn(t.view, '#');
      u, c := Target(t.namespace, t.id, x), y + "#" + b;
    }
  }

  lemma ConfuseBinding(t: Target, b: string) returns (u: Target, c: string)
    requires AcceptedTarget(t) && b != "" && '#' in b[..|b| - 1]
    ensures AcceptedTarget(u) && c != "" && u != t && DeliveryKey(u, c) == DeliveryKey(t, b)
  {
    var x, y := SplitBeforeEnd(b, '#');
    u, c := Target(t.namespace, t.id, t.view + "#" + x), y;
    assert DeliveryKey(u, c) == TargetKey(t) + "#" + (x + "#" + y);
  }

  // Another accepted binding with the same delivery key: a separator inside a part is read as a real one.
  lemma Confuse(t: Target, b: string) returns (u: Target, c: string)
    requires AcceptedTarget(t) && b != "" && !DeliveryUnambiguous(t, b)
    ensures AcceptedTarget(u) && c != "" && u != t && DeliveryKey(u, c) == DeliveryKey(t, b)
  {
    hide DeliveryKey;
    c := b;
    if '/' in t.namespace[1..] {
      u := ConfuseNamespace(t, b);
    } else if '/' in t.id && t.id != "/" {
      u := ConfuseId(t, b);
    } else if '/' in t.view || '#' in t.view {
      u, c := ConfuseView(t, b);
    } else {
      u, c := ConfuseBinding(t, b);
    }
  }

  lemma ConfuseRecord(k: BindingKey) returns (l: BindingKey)
    requires AcceptedBinding(k) && !RecordUnambiguous(k)
    ensures AcceptedBinding(l) && RecordKey(l) == RecordKey(k) && l != k
  {
    var t := k.target;
    if ':' in k.subscriberId[1..] {
      var x, y := SplitAfterStart(k.subscriberId, ':');
      l := BindingKey(x, t.(namespace := y + ":" + t.namespace), k.binding);
    } else if !NamespaceUnambiguous(t) {
      var x, y := SplitBeforeEnd(t.namespace, ':');
      l := BindingKey(k.subscriberId + ":" + x, t.(namespace := y), k.binding);
    } else {
      var u, c := Confuse(t, k.binding);
      l := BindingKey(k.subscriberId, u, c);
    }
  }

  // ---------------------------------------------------------------- delivery keys

  /**
   A delivery key belongs to one accepted binding alone if and only if a '/' at most begins the namespace
   or is the whole id, the view holds neither '/' nor '#', and a '#' at most ends the binding.
   */
  lemma DeliveryKeyExact(t: Target, b: string)
    requires AcceptedTarget(t) && b != ""
    ensures OwnsDeliveryKey(t, b) <==> DeliveryUnambiguous(t, b)
  {
    if DeliveryUnambiguous(t, b) {
      forall u, c | AcceptedTarget(u) && c != "" && DeliveryKey(u, c) == DeliveryKey(t, b) ensures u == t && c == b {
        UnambiguousOwnsKey(t, b, u, c);
      }
    } else {
      var u, c := Confuse(t, b);
    }
  }

  // ---------------------------------------------------------------- record keys

  // The first separator comes no later than any other one the text could be split at.
  lemma FirstComesFirst(s: string, x: string, y: string, n: nat, c: char)
    requires s == x + [c] + y && 0 < n < |s| && s[n] == c && x != "" && c !in x[1..]
    ensures |x| <= n
  {
    assert forall i | 1 <= i < |x| :: s[i] == x[1..][i - 1];
  }

  lemma RestAfter(s: string, x: string, y: string, x': string, y': string, c: char)
    requires s == x + [c] + y == x' + [c] + y' && |x| <= |x'|
    ensures var n := |x'| - |x|; n <= |y| && y' == y[n..] && (n > 0 ==> y[n - 1] == c)
  {
    assert s[|x'|] == c;
    assert y == s[|x| + 1..];
    assert y' == s[|x'| + 1..];
  }

  lemma UnambiguousOwnsRecord(k: BindingKey, l: BindingKey)
    requires AcceptedBinding(k) && RecordUnambiguous(k) && AcceptedBinding(l) && RecordKey(l) == RecordKey(k)
    ensures l == k
  {
    var d, e := DeliveryKey(k.target, k.binding), DeliveryKey(l.target, l.binding);
    var s := RecordKey(k);
    assert s == k.subscriberId + ":" + d == l.subscriberId + ":" + e;
    assert s[|l.subscriberId|] == ':';
    FirstComesFirst(s, k.subscriberId, d, |l.subscriberId|, ':');
    RestAfter(s, k.subscriberId, d, l.subscriberId, e, ':');
    hide RecordKey, DeliveryKey;
    NoLaterColon(k.target, k.binding, l.target, l.binding, |l.subscriberId| - |k.subscriberId|);
    assert e == d[0..] == d;
    assert s[..|k.subscriberId|] == k.subscriberId && s[..|l.subscriberId|] == l.subscriberId;
    UnambiguousOwnsKey(k.target, k.binding, l.target, l.binding);
  }

  /**
   A record key belongs to one accepted binding alone if and only if, besides, a ':' at most begins the
   subscriber id or ends the namespace.
   */
  lemma RecordKeyExact(k: BindingKey)
    requires AcceptedBinding(k)
    ensures OwnsRecordKey(k) <==> RecordUnambiguous(k)
  {
    if RecordUnambiguous(k) {
      forall l | AcceptedBinding(l) && RecordKey(l) == RecordKey(k) ensures l == k { UnambiguousOwnsRecord(k, l); }
    } else {
      var l := ConfuseRecord(k);
    }
  }

  // ---------------------------------------------------------------- clearTarget

  // A key cut at a marker: the marker's target could be its own, behind what comes before.
  lemma ContainsWhen(key: string, before: string, t: Target, after: string)
    requires key == before + ":" + DeliveryKey(t, after)
    ensures Contains(key, ClearMarker(t))
  {
    assert key == before + ClearMarker(t) + after;
    assert OccursAt(key, ClearMarker(t), |before|);
  }

  lemma MarkerAt(key: string, t: Target, i: nat) returns (after: string)
    requires OccursAt(key, ClearMarker(t), i)
    ensures key[i] == ':' && key[i + 1..] == DeliveryKey(t, after)
  {
    var m := ClearMarker(t);
    after := key[i + |m|..];
    assert key[i] == key[i..i + |m|][0];
    assert key[i + 1..] == key[i..i + |m|][1..] + after;
    assert m[1..] == TargetKey(t) + "#";
  }

  lemma ClearedUnambiguously(k: BindingKey, t: Target, i: nat)
    requires AcceptedBinding(k) && ClearUnambiguous(k) && AcceptedTarget(t)
    requires OccursAt(RecordKey(k), ClearMarker(t), i)
    ensures t == k.target
  {
    var after := MarkerAt(RecordKey(k), t, i);
    var s, d := RecordKey(k), DeliveryKey(k.target, k.binding);
    assert s == k.subscriberId + ":" + d == s[..i] + ":" + DeliveryKey(t, after);
    assert i >= |k.subscriberId| by {
      assert forall j | 0 <= j < |k.subscriberId| :: s[j] == k.subscriberId[j];
    }
    RestAfter(s, k.subscriberId, d, s[..i], DeliveryKey(t, after), ':');
    hide RecordKey, DeliveryKey;
    NoLaterColon(k.target, k.binding, t, after, i - |k.subscriberId|);
    assert DeliveryKey(t, after) == d[0..] == d;
    SameKeySameTarget(k.target, k.binding, t, after);
  }

  lemma SameKeySameTarget(t: Target, b: string, u: Target, c: string)
    requires AcceptedTarget(t) && b != "" && TargetUnambiguous(t) && '#' !in b
    requires AcceptedTarget(u) && DeliveryKey(u, c) == DeliveryKey(t, b)
    ensures u == t
  {
    DeliveryShape(t, b);
    DeliveryShape(u, c);
    Anchors(t, b, |u.namespace|, |u.namespace| + 1 + |u.id|, |TargetKey(u)|);
  }

  lemma ClearWithHash(k: BindingKey) returns (t: Target)
    requires AcceptedBinding(k) && '#' in k.binding
    ensures AcceptedTarget(t) && t != k.target && Contains(RecordKey(k), ClearMarker(t))
  {
    var x, y := SplitOn(k.binding, '#');
    t := k.target.(view := k.target.view + "#" + x);
    assert DeliveryKey(t, y) == TargetKey(k.target) + "#" + (x + "#" + y);
    ContainsWhen(RecordKey(k), k.subscriberId, t, y);
  }

  // Another accepted target whose clearing forgets the record.
  lemma ConfuseClear(k: BindingKey) returns (t: Target)
    requires AcceptedBinding(k) && !ClearUnambiguous(k)
    ensures AcceptedTarget(t) && t != k.target && Contains(RecordKey(k), ClearMarker(t))
  {
    var own, b := k.target, k.binding;
    if ':' in k.subscriberId {
      var x, y := SplitOn(k.subscriberId, ':');
      t := own.(namespace := y + ":" + own.namespace);
      ContainsWhen(RecordKey(k), x, t, b);
    } else if !NamespaceUnambiguous(own) {
      var x, y := SplitBeforeEnd(own.namespace, ':');
      t := own.(namespace := y);
      ContainsWhen(RecordKey(k), k.subscriberId + ":" + x, t, b);
    } else if '#' in b {
      t := ClearWithHash(k);
    } else {
      var c;
      t, c := Confuse(own, b);
      ContainsWhen(RecordKey(k), k.subscriberId, t, c);
    }
  }

  /**
   A record is forgotten by clearing its own target and by clearing no other accepted one if and only if
   the subscriber id holds no ':', the binding no '#', and the target is unambiguous.
   */
  lemma ClearExact(k: BindingKey)
    requires AcceptedBinding(k)
    ensures ClearedWithOwnTarget(k) <==> ClearUnambiguous(k)
  {
    if ClearUnambiguous(k) {
      ContainsWhen(RecordKey(k), k.subscriberId, k.target, k.binding);
      forall t | AcceptedTarget(t) && Contains(RecordKey(k), ClearMarker(t)) ensures t == k.target {
        var i: nat :| i <= |RecordKey(k)| && OccursAt(RecordKey(k), ClearMarker(t), i);
        ClearedUnambiguously(k, t, i);
      }
    } else {
      var t := ConfuseClear(k);
    }
  }
}
