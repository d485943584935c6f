/**
 The gateway engine (pkg/gateway/engine.go): from a public target to its stream bindings and back,
 and from a core batch to the batch a client is shown. Resolution and exposure hooks are parameters.
 */
module GatewayEngine {
  import opened Types
  import opened CoreEngine
  import opened Keys

  datatype StreamBinding = StreamBinding(bindingKey: string, streamId: string, payloadTypes: seq<string>)

  // ---------------------------------------------------------------- resolving and selecting bindings

  // What the resolver hook may answer for a target.
  ghost predicate Resolvable(answer: seq<StreamBinding>) {
    && answer != []
    && (forall i | 0 <= i < |answer| :: answer[i].streamId != "")
    && (forall i | 0 <= i < |answer| :: answer[i].bindingKey == "" ==> |answer| == 1)
    && (forall i, j | 0 <= i < j < |answer| :: answer[i].bindingKey != answer[j].bindingKey)
  }

  ghost predicate KeysDistinct(bindings: seq<StreamBinding>) {
    forall i, j | 0 <= i < j < |bindings| :: bindings[i].bindingKey != bindings[j].bindingKey
  }

  function Named(b: StreamBinding): StreamBinding {
    b.(bindingKey := NormalizeBinding(b.bindingKey))
  }

  /** Accepts exactly the resolvable answers, in their order, with every binding named and no name twice. */
  method ResolveBindings(answer: seq<StreamBinding>) returns (r: Option<seq<StreamBinding>>)
    ensures r.Some? <==> Resolvable(answer)
    ensures r.None? <==>
              || answer == []
              || (exists b | b in answer :: b.streamId == "" || (b.bindingKey == "" && |answer| > 1))
              || (exists i, j | 0 <= i < j < |answer| :: answer[i].bindingKey == answer[j].bindingKey)
    ensures r.Some? ==>
              && |r.value| == |answer|
              && (forall i | 0 <= i < |answer| :: r.value[i] == Named(answer[i]))
              && (forall i | 0 <= i < |answer| ::
                    && r.value[i].streamId == answer[i].streamId != ""
                    && r.value[i].payloadTypes == answer[i].payloadTypes
                    && r.value[i].bindingKey == if answer[i].bindingKey != "" then answer[i].bindingKey else "default")
              && KeysDistinct(r.value)
  {
    if |answer| == 0 { return None; }
    var out: seq<StreamBinding> := [];
    var seen: set<string> := {};
    for k := 0 to |answer|
      invariant |out| == k
      invariant forall i | 0 <= i < k :: out[i] == Named(answer[i]) && answer[i].streamId != ""
      invariant forall i | 0 <= i < k :: answer[i].bindingKey == "" ==> |answer| == 1
      invariant KeysDistinct(out)
      invariant forall key :: key in seen <==> exists i | 0 <= i < k :: out[i].bindingKey == key
    {
      var binding := answer[k];
      if binding.streamId == "" { return None; }
      if binding.bindingKey == "" {
        if |answer| != 1 { return None; }
        binding := binding.(bindingKey := DEFAULT_BINDING);
      }
      if binding.bindingKey in seen {
        assert exists i | 0 <= i < k :: out[i].bindingKey == binding.bindingKey;
        return None;
      }
      seen := seen + {binding.bindingKey};
      out := out + [binding];
    }
    r := Some(out);
  }

  /** An empty request picks the only binding; a named one picks the first binding of that name. */
  method SelectBinding(bindings: seq<StreamBinding>, requested: string) returns (r: Option<StreamBinding>)
    ensures r == Selected(bindings, requested)
  {
    if requested == "" {
      return if |bindings| == 1 then Some(bindings[0]) else None;
    }
    for k := 0 to |bindings|
      invariant forall i | 0 <= i < k :: bindings[i].bindingKey != requested
    {
      if bindings[k].bindingKey == requested {
        FirstNamed(bindings, requested, k);
        return Some(bindings[k]);
      }
    }
    NoneNamed(bindings, requested);
    r := None;
  }

  function NamedIn(bindings: seq<StreamBinding>, requested: string): Option<StreamBinding> {
    if bindings == [] then None
    else if bindings[0].bindingKey == requested then Some(bindings[0])
    else NamedIn(bindings[1..], requested)
  }

  function Selected(bindings: seq<StreamBinding>, requested: string): Option<StreamBinding> {
    if requested == "" then if |bindings| == 1 then Some(bindings[0]) else None
    else NamedIn(bindings, requested)
  }

  lemma {:induction false} FirstNamed(bindings: seq<StreamBinding>, requested: string, k: nat)
    requires k < |bindings| && bindings[k].bindingKey == requested
    requires forall i | 0 <= i < k :: bindings[i].bindingKey != requested
    ensures NamedIn(bindings, requested) == Some(bindings[k])
  {
    if k > 0 { FirstNamed(bindings[1..], requested, k - 1); }
  }

  lemma {:induction false} NoneNamed(bindings: seq<StreamBinding>, requested: string)
    requires forall i | 0 <= i < |bindings| :: bindings[i].bindingKey != requested
    ensures NamedIn(bindings, requested) == None
  {
    if bindings != [] { NoneNamed(bindings[1..], requested); }
  }

  /** What is selected is one of the bindings and bears the name asked for, or is the only one. */
  lemma {:induction false} SelectedIsOne(bindings: seq<StreamBinding>, requested: string)
    ensures var r := Selected(bindings, requested);
            r.Some? ==>
              r.value in bindings && (if requested == "" then |bindings| == 1 else r.value.bindingKey == requested)
  {
    if requested != "" && bindings != [] && bindings[0].bindingKey != requested {
      SelectedIsOne(bindings[1..], requested);
    }
  }

  /**
   Round trip: the key a result is labelled with selects, in a later ack or snapshot request against
   the same resolution, exactly the binding the result came from; so does the empty key when there is
   one binding.
   */
  lemma BindingRoundTrip(bindings: seq<StreamBinding>, i: nat)
    requires i < |bindings| && KeysDistinct(bindings) && bindings[i].bindingKey != ""
    ensures Selected(bindings, bindings[i].bindingKey) == Some(bindings[i])
    ensures Selected(bindings, "") == Some(bindings[i]) <==> |bindings| == 1
  {
    FirstNamed(bindings, bindings[i].bindingKey, i);
  }

  // ---------------------------------------------------------------- target state

  datatype BindingState = BindingState(bindingKey: string, cursorSeq: nat, headSeq: nat, retainedSeqStart: nat)

  datatype TargetState = TargetState(
    target: Target, bindings: seq<BindingState>, cursorSeq: nat, headSeq: nat, retainedSeqStart: nat)

  // Lowest cursor, highest head, and the lowest boundary that is not zero, of the target's bindings.
  ghost predicate IsSummary(s: TargetState) {
    && (forall b | b in s.bindings ::
          && s.cursorSeq <= b.cursorSeq && b.headSeq <= s.headSeq
          && (b.retainedSeqStart > 0 ==> 0 < s.retainedSeqStart <= b.retainedSeqStart))
    && (s.bindings != [] ==>
          && (exists b | b in s.bindings :: b.cursorSeq == s.cursorSeq)
          && (exists b | b in s.bindings :: b.headSeq == s.headSeq))
    && (s.retainedSeqStart > 0 ==> exists b | b in s.bindings :: b.retainedSeqStart == s.retainedSeqStart)
  }

  /** The target's totals: lowest cursor, highest head, lowest boundary of a stream that ever held an event. */
  method SummarizeTarget(target: Target, readings: seq<BindingState>) returns (s: TargetState)
    ensures s.target == target && s.bindings == readings && IsSummary(s)
    ensures forall i | 0 <= i < |readings| :: s.cursorSeq <= readings[i].cursorSeq && readings[i].headSeq <= s.headSeq
    ensures readings != [] ==>
              && (exists i | 0 <= i < |readings| :: readings[i].cursorSeq == s.cursorSeq)
              && (exists i | 0 <= i < |readings| :: readings[i].headSeq == s.headSeq)
    ensures forall i | 0 <= i < |readings| && readings[i].retainedSeqStart > 0 ::
              0 < s.retainedSeqStart <= readings[i].retainedSeqStart
    ensures s.retainedSeqStart > 0 ==>
              exists i | 0 <= i < |readings| :: readings[i].retainedSeqStart == s.retainedSeqStart
  {
    var cursor: nat, head: nat, retained: nat := 0, 0, 0;
    var cursorSet, retainedSet := false, false;
    for k := 0 to |readings|
      invariant cursorSet <==> k > 0
      invariant k > 0 ==> exists i | 0 <= i < k :: readings[i].cursorSeq == cursor
      invariant forall i | 0 <= i < k :: cursor <= readings[i].cursorSeq
      invariant forall i | 0 <= i < k :: readings[i].headSeq <= head
      invariant if k > 0 then exists i | 0 <= i < k :: readings[i].headSeq == head else head == 0
      invariant retainedSet <==> retained > 0
      invariant retained > 0 ==> exists i | 0 <= i < k :: readings[i].retainedSeqStart == retained
      invariant forall i | 0 <= i < k && readings[i].retainedSeqStart > 0 ::
          0 < retained <= readings[i].retainedSeqStart
    {
      var b := readings[k];
      if !cursorSet || b.cursorSeq < cursor {
        cursor := b.cursorSeq;
        cursorSet := true;
      }
      if b.headSeq > head { head := b.headSeq; }
      if b.retainedSeqStart > 0 && (!retainedSet || b.retainedSeqStart < retained) {
        retained := b.retainedSeqStart;
        retainedSet := true;
      }
    }
    s := TargetState(target, readings, cursor, head, retained);
  }

  // The cursor the subscribe loop compares with: the binding's own, or the target's when it has none.
  function BindingCursor(s: TargetState, key: string): nat {
    var own := ReadingOf(s.bindings, key);
    if own.Some? then own.value.cursorSeq else s.cursorSeq
  }

  function ReadingOf(readings: seq<BindingState>, key: string): Option<BindingState> {
    if readings == [] then None
    else if readings[0].bindingKey == key then Some(readings[0])
    else ReadingOf(readings[1..], key)
  }

  /** With distinct keys every binding is compared with its own cursor, never with another's. */
  lemma {:induction false} BindingCursorIsOwn(readings: seq<BindingState>, i: nat)
    requires i < |readings|
    requires forall a, b | 0 <= a < b < |readings| :: readings[a].bindingKey != readings[b].bindingKey
    ensures ReadingOf(readings, readings[i].bindingKey) == Some(readings[i])
  {
    if i > 0 { BindingCursorIsOwn(readings[1..], i - 1); }
  }

  /** The first binding of that name is what is compared with; without one the target's total is. */
  lemma {:induction false} BindingCursorExact(s: TargetState, key: string, i: nat)
    requires i <= |s.bindings| && forall j | 0 <= j < i :: s.bindings[j].bindingKey != key
    ensures i < |s.bindings| && s.bindings[i].bindingKey == key ==> BindingCursor(s, key) == s.bindings[i].cursorSeq
    ensures i == |s.bindings| ==> BindingCursor(s, key) == s.cursorSeq
    decreases i
  {
    if i > 0 { BindingCursorExact(s.(bindings := s.bindings[1..]), key, i - 1); }
  }

  // A catch-up answer for one binding of a target.
  datatype Response = Response(state: TargetState, bindingKey: string, reply: CatchUpResult)

  function CursorFor(r: Response): nat {
    BindingCursor(r.state, r.bindingKey)
  }

  // ---------------------------------------------------------------- batches

  datatype GatewayEvent = GatewayEvent(
    target: Target, seqNo: nat, payload: Bytes, payloadType: string, payloadVersion: nat,
    createdAtMs: int, bindingKey: string)

  datatype GatewayBatch = GatewayBatch(
    target: Target, events: seq<GatewayEvent>, seqStart: nat, seqEnd: nat, final: bool, bindingKey: string)

  function Shown(target: Target, bindingKey: string, e: Event): GatewayEvent {
    GatewayEvent(target, e.seqNo, e.payload, e.payloadType, e.payloadVersion, e.createdAtMs, bindingKey)
  }

  predicate AllowedByBinding(b: StreamBinding, payloadType: string) {
    b.payloadTypes == [] || payloadType in b.payloadTypes
  }

  /**
   The batch a client is shown is the whole core batch, event by event and with its bounds, or the
   call fails; an event that may not be shown is never left out silently.
   */
  method ShowBatch(target: Target, binding: StreamBinding, batch: Batch, exposed: (string, nat) -> bool)
    returns (r: Option<GatewayBatch>)
    ensures r.Some? <==> forall e | e in batch.events ::
                           AllowedByBinding(binding, e.payloadType) && exposed(e.payloadType, e.payloadVersion)
    ensures r.Some? ==>
              && r.value.target == target && r.value.bindingKey == binding.bindingKey
              && r.value.seqStart == batch.seqStart && r.value.seqEnd == batch.seqEnd && r.value.final == batch.final
              && |r.value.events| == |batch.events|
              && (forall i | 0 <= i < |batch.events| ::
                    r.value.events[i] == Shown(target, binding.bindingKey, batch.events[i]))
              && (forall i | 0 <= i < |batch.events| ::
                    var e, g := batch.events[i], r.value.events[i];
                    && g.target == target && g.bindingKey == binding.bindingKey && g.seqNo == e.seqNo
                    && g.payload == e.payload && g.payloadType == e.payloadType
                    && g.payloadVersion == e.payloadVersion && g.createdAtMs == e.createdAtMs
                    && (binding.payloadTypes == [] || e.payloadType in binding.payloadTypes)
                    && exposed(e.payloadType, e.payloadVersion))
    ensures r.None? ==>
              exists e | e in batch.events ::
                || (binding.payloadTypes != [] && e.payloadType !in binding.payloadTypes)
                || !exposed(e.payloadType, e.payloadVersion)
  {
    var out: seq<GatewayEvent> := [];
    for k := 0 to |batch.events|
      invariant |out| == k
      invariant forall i | 0 <= i < k :: out[i] == Shown(target, binding.bindingKey, batch.events[i])
      invariant forall i | 0 <= i < k ::
                  AllowedByBinding(binding, batch.events[i].payloadType)
                  && exposed(batch.events[i].payloadType, batch.events[i].payloadVersion)
    {
      var e := batch.events[k];
      if !AllowedByBinding(binding, e.payloadType) || !exposed(e.payloadType, e.payloadVersion) { return None; }
      out := out + [Shown(target, binding.bindingKey, e)];
    }
    r := Some(GatewayBatch(target, out, batch.seqStart, batch.seqEnd, batch.final, binding.bindingKey));
  }
}
