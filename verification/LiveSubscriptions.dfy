/**
 The targets behind a gateway subscribe stream, which ModifySubscription changes while the stream runs
 (pkg/gateway/transport/grpc/server.go, liveSub and the subs registry).
 */
module LiveSubscriptions {
  import opened Keys

  function KeysOf(list: seq<Target>): set<string> {
    set t | t in list :: TargetKey(t)
  }

  lemma KeysOfStep(list: seq<Target>, i: nat)
    requires i < |list|
    ensures KeysOf(list[..i + 1]) == KeysOf(list[..i]) + {TargetKey(list[i])}
  {
    assert list[..i + 1] == list[..i] + [list[i]];
  }

  // One ModifySubscription call; its adds are the targets that were resolved and authorized.
  datatype Change = Change(id: string, subscriber: string, add: seq<Target>, remove: seq<Target>)

  // Adds win over removes of the same call.
  function Changed(keys: set<string>, c: Change): set<string> {
    keys - KeysOf(c.remove) + KeysOf(c.add)
  }

  // Some target of the list has this key.
  ghost predicate Names(list: seq<Target>, key: string) {
    exists t | t in list :: t.namespace + "/" + t.id + "/" + t.view == key
  }

  /** After a call: what it adds is there, what it removes and does not add is gone, everything else is as before. */
  lemma ChangedExact(keys: set<string>, c: Change, key: string)
    ensures Names(c.add, key) ==> key in Changed(keys, c)
    ensures Names(c.remove, key) && !Names(c.add, key) ==> key !in Changed(keys, c)
    ensures !Names(c.remove, key) && !Names(c.add, key) ==> (key in Changed(keys, c) <==> key in keys)
  {
    forall t ensures TargetKey(t) == t.namespace + "/" + t.id + "/" + t.view {
    }
  }

  class LiveTargets {
    const subscriber: string
    var targets: map<string, Target>

    ghost predicate Valid()
      reads this
    {
      forall k | k in targets :: TargetKey(targets[k]) == k
    }

    constructor (subscriber: string, initial: seq<Target>)
      ensures Valid() && this.subscriber == subscriber && targets.Keys == KeysOf(initial)
    {
      this.subscriber, targets := subscriber, map[];
      new;
      AddAll(initial);
    }

    method RemoveAll(remove: seq<Target>)
      requires Valid()
      modifies this
      ensures Valid() && targets.Keys == old(targets).Keys - KeysOf(remove)
      ensures forall k | k in targets :: targets[k] == old(targets)[k]
    {
      ghost var before := targets;
      for i := 0 to |remove|
        invariant Valid() && targets.Keys == before.Keys - KeysOf(remove[..i])
        invariant forall k | k in targets :: targets[k] == before[k]
      {
        KeysOfStep(remove, i);
        targets := targets - {TargetKey(remove[i])};
      }
      assert remove[..|remove|] == remove;
    }

    method AddAll(add: seq<Target>)
      requires Valid()
      modifies this
      ensures Valid() && targets.Keys == old(targets).Keys + KeysOf(add)
      ensures forall k | k in targets && k !in KeysOf(add) :: targets[k] == old(targets)[k]
    {
      ghost var before := targets;
      for i := 0 to |add|
        invariant Valid() && targets.Keys == before.Keys + KeysOf(add[..i])
        invariant forall k | k in targets && k !in KeysOf(add[..i]) :: targets[k] == before[k]
      {
        KeysOfStep(add, i);
        targets := targets[TargetKey(add[i]) := add[i]];
      }
      assert add[..|add|] == add;
    }

    /** Removes, then adds: a target named in both lists stays, and every other target is left alone. */
    method Apply(c: Change)
      requires Valid()
      modifies this
      ensures Valid() && targets.Keys == Changed(old(targets).Keys, c)
      ensures forall k | Names(c.add, k) :: k in targets
      ensures forall k | Names(c.remove, k) && !Names(c.add, k) :: k !in targets
      ensures forall k | !Names(c.remove, k) && !Names(c.add, k) :: k in targets <==> k in old(targets)
      ensures forall k | k in targets && k !in KeysOf(c.add) :: targets[k] == old(targets)[k]
    {
      ghost var before := targets.Keys;
      RemoveAll(c.remove);
      AddAll(c.add);
      forall k { ChangedExact(before, c, k); }
    }

    /** Every active target once, in whatever order the map is walked. */
    method Snapshot() returns (out: seq<Target>)
      requires Valid()
      ensures forall t :: t in out <==> t in targets.Values
      ensures KeysOf(out) == targets.Keys
      ensures forall i, j | 0 <= i < j < |out| :: out[i] != out[j]
    {
      out := [];
      var rest := targets.Keys;
      while rest != {}
        invariant rest <= targets.Keys
        invariant forall i | 0 <= i < |out| ::
                    TargetKey(out[i]) in targets.Keys - rest && targets[TargetKey(out[i])] == out[i]
        invariant forall k | k in targets.Keys - rest :: targets[k] in out
        invariant forall i, j | 0 <= i < j < |out| :: out[i] != out[j]
        decreases |rest|
      {
        var key :| key in rest;
        rest := rest - {key};
        out := out + [targets[key]];
      }
    }
  }

  /** Live streams by subscription id, so that a later call can change their targets. */
  class Registry {
    var subs: map<string, LiveTargets>

    ghost predicate Valid()
      reads this, subs.Values
    {
      && (forall id | id in subs :: subs[id].Valid())
      && (forall a, b | a in subs && b in subs && subs[a] == subs[b] :: a == b)
    }

    constructor ()
      ensures Valid() && subs == map[]
    {
      subs := map[];
    }

    /** An id that is taken stays with its stream. */
    method Register(id: string, sub: LiveTargets) returns (ok: bool)
      requires Valid() && sub.Valid() && sub !in subs.Values
      modifies this
      ensures Valid()
      ensures ok <==> id !in old(subs)
      ensures subs == if ok then old(subs)[id := sub] else old(subs)
    {
      ok := id !in subs;
      if ok { subs := subs[id := sub]; }
    }

    /** A stream that ends frees its id only while the id is still its own. */
    method Unregister(id: string, sub: LiveTargets)
      requires Valid()
      modifies this
      ensures Valid()
      ensures subs == if id in old(subs) && old(subs)[id] == sub then old(subs) - {id} else old(subs)
    {
      if id in subs && subs[id] == sub { subs := subs - {id}; }
    }

    predicate Accepts(c: Change)
      reads this
    {
      c.id != "" && c.id in subs && subs[c.id].subscriber == c.subscriber
    }

    /** ModifySubscription: changes the one stream of that id, if it is the caller's own, and no other. */
    method Modify(c: Change) returns (ok: bool)
      requires Valid()
      modifies subs.Values
      ensures Valid() && (ok <==> Accepts(c))
      ensures ok <==> c.id != "" && c.id in subs && subs[c.id].subscriber == c.subscriber
      ensures forall id | id in subs ::
                subs[id].targets.Keys ==
                if ok && id == c.id then Changed(old(subs[id].targets).Keys, c) else old(subs[id].targets).Keys
      ensures forall id | id in subs && !(ok && id == c.id) :: subs[id].targets == old(subs[id].targets)
      ensures ok ==>
                var now, was := subs[c.id].targets, old(subs[c.id].targets);
                && (forall k | Names(c.add, k) :: k in now)
                && (forall k | Names(c.remove, k) && !Names(c.add, k) :: k !in now)
                && (forall k | !Names(c.remove, k) && !Names(c.add, k) :: k in now <==> k in was)
    {
      ok := c.id != "" && c.id in subs && subs[c.id].subscriber == c.subscriber;
      if ok { subs[c.id].Apply(c); }
    }
  }
}
