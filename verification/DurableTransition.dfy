/** The transition adapter of a durable Blueprint (blueprint/src/durable-transition.ts) and the effect
    classification of its worker (blueprint/src/worker.ts:170-223). */
module DurableTransition {
  import opened Json

  /** An orchestrator effect; `token` and `service` are the control fields a settlement is decided by,
      with None standing for absent or empty. */
  datatype Effect =
    | Invoke(token: Option<string>, service: Option<string>, data: Json)
    | Request(effectId: Option<string>, data: Json)
    | Route(data: Json)

  /** A journal event; `Malformed` is a settlement whose payload the adapter refuses. */
  datatype Event =
    | Settlement(messageId: nat, result: Json, effect: Option<Effect>)
    | Malformed
    | Bootstrap
    | Regular(node: string, name: string, payload: Json)

  datatype Spec = Spec(blueprint: Json, settled: seq<nat>)

  /** What the materialized transition is given besides the state. */
  datatype Input = Input(
    events: seq<Event>,
    syncExternal: bool,
    sources: seq<Event>,
    requests: seq<Event>,
    services: seq<Event>)

  datatype Ran = Ran(state: Json, effects: seq<Effect>, patches: seq<Json>)

  /** `runMaterializedTransition` and `applyBlueprintPatches`; None is a throw. */
  datatype Engine = Engine(
    run: (Json, Json, Input) -> Option<Ran>,
    patch: (Json, Json) -> Option<Json>)

  datatype Update = SettledMessage(messageId: nat) | Patch(patch: Json)

  datatype Output = Output(state: Json, effects: seq<Effect>, updates: seq<Update>)

  predicate IsRegular(e: Event) {
    e.Regular?
  }

  predicate IsSource(e: Event) {
    e.Settlement? && e.effect.Some? && e.effect.value.Invoke? && e.effect.value.token.Some?
  }

  predicate IsRequest(e: Event) {
    e.Settlement? && e.effect.Some? && e.effect.value.Request?
  }

  predicate IsService(e: Event) {
    e.Settlement? && e.effect.Some? && e.effect.value.Invoke? && e.effect.value.service.Some?
        && e.effect.value.token.None?
  }

  function Filter(p: Event -> bool, events: seq<Event>): seq<Event> {
    if events == [] then []
    else Filter(p, events[..|events| - 1]) + if p(events[|events| - 1]) then [events[|events| - 1]] else []
  }

  function Ids(events: seq<Event>): set<nat> {
    set e | e in events && e.Settlement? :: e.messageId
  }

  /** The settlements whose message was neither settled before nor earlier in the batch. */
  function Accepted(events: seq<Event>, settled: set<nat>): seq<Event> {
    if events == [] then []
    else
      var before := Accepted(events[..|events| - 1], settled);
      var e := events[|events| - 1];
      if e.Settlement? && e.messageId !in settled && e.messageId !in Ids(before) then before + [e] else before
  }

  function AcceptedIds(accepted: seq<Event>): seq<nat> {
    if accepted == [] then []
    else AcceptedIds(accepted[..|accepted| - 1])
         + if accepted[|accepted| - 1].Settlement? then [accepted[|accepted| - 1].messageId] else []
  }

  function ToSet(ids: seq<nat>): set<nat> {
    set id | id in ids
  }

  function Messages(ids: seq<nat>): seq<Update> {
    seq(|ids|, i requires 0 <= i < |ids| => SettledMessage(ids[i]))
  }

  function Patches(patches: seq<Json>): seq<Update> {
    seq(|patches|, i requires 0 <= i < |patches| => Patch(patches[i]))
  }

  /** The adapter's `transition`: None when a settlement is malformed or the materialized run throws. */
  function Transition(engine: Engine, state: Json, spec: Spec, events: seq<Event>): Option<Output> {
    if Malformed in events then None
    else
      var accepted := Accepted(events, ToSet(spec.settled));
      var input := Input(Filter(IsRegular, events), Bootstrap in events,
        Filter(IsSource, accepted), Filter(IsRequest, accepted), Filter(IsService, accepted));
      match engine.run(state, spec.blueprint, input)
      case None => None
      case Some(ran) => Some(Output(ran.state, ran.effects, Messages(AcceptedIds(accepted)) + Patches(ran.patches)))
  }

  function ApplyUpdate(engine: Engine, spec: Spec, update: Update): Option<Spec> {
    match update
    case SettledMessage(id) => Some(if id in spec.settled then spec else spec.(settled := spec.settled + [id]))
    case Patch(patch) =>
      match engine.patch(spec.blueprint, patch)
      case None => None
      case Some(blueprint) => Some(spec.(blueprint := blueprint))
  }

  function ApplyUpdates(engine: Engine, spec: Spec, updates: seq<Update>): Option<Spec> {
    if updates == [] then Some(spec)
    else
      match ApplyUpdates(engine, spec, updates[..|updates| - 1])
      case None => None
      case Some(next) => ApplyUpdate(engine, next, updates[|updates| - 1])
  }

  /** The filter with its growing `consumed` set. */
  method AcceptSettlements(events: seq<Event>, settled: seq<nat>) returns (accepted: seq<Event>)
    ensures accepted == Accepted(events, ToSet(settled))
  {
    var consumed := ToSet(settled);
    accepted := [];
    for i := 0 to |events|
      invariant accepted == Accepted(events[..i], ToSet(settled))
      invariant consumed == ToSet(settled) + Ids(accepted)
    {
      assert events[..i + 1][..i] == events[..i];
      var e := events[i];
      if e.Settlement? && e.messageId !in consumed {
        consumed := consumed + {e.messageId};
        accepted := accepted + [e];
      }
    }
    assert events[..|events|] == events;
  }

  /** The loop that reassigns `next`. */
  method ApplySpecUpdates(engine: Engine, spec: Spec, updates: seq<Update>) returns (next: Option<Spec>)
    ensures next == ApplyUpdates(engine, spec, updates)
  {
    next := Some(spec);
    for i := 0 to |updates|
      invariant next == ApplyUpdates(engine, spec, updates[..i])
    {
      assert updates[..i + 1][..i] == updates[..i];
      if next.Some? {
        next := ApplyUpdate(engine, next.value, updates[i]);
      }
    }
    assert updates[..|updates|] == updates;
  }

  // ---- settling each message once -------------------------------------------------------------

  ghost predicate Distinct(ids: seq<nat>) {
    forall i, j :: 0 <= i < j < |ids| ==> ids[i] != ids[j]
  }

  /** What a batch accepts: each id once, none settled before, and every id of the batch or of the past. */
  lemma {:induction false} AcceptedExactly(events: seq<Event>, settled: set<nat>)
    ensures var ids := AcceptedIds(Accepted(events, settled));
            && Distinct(ids)
            && ToSet(ids) == Ids(Accepted(events, settled)) == Ids(events) - settled
  {
    if events != [] {
      var rest, e := events[..|events| - 1], events[|events| - 1];
      AcceptedExactly(rest, settled);
      IdsAppend(rest, e);
      assert events == rest + [e];
      var before, now := Accepted(rest, settled), Accepted(events, settled);
      if now != before {
        IdsAppend(before, e);
        DistinctAppend(AcceptedIds(before), e.messageId);
        assert now[..|now| - 1] == before;
      }
    }
  }

  lemma IdsAppend(events: seq<Event>, e: Event)
    ensures Ids(events + [e]) == Ids(events) + if e.Settlement? then {e.messageId} else {}
  {
  }

  lemma DistinctAppend(ids: seq<nat>, id: nat)
    ensures ToSet(ids + [id]) == ToSet(ids) + {id}
    ensures Distinct(ids) && id !in ToSet(ids) ==> Distinct(ids + [id])
  {
  }

  /** Recording a batch of new ids appends them, and patches leave the record alone. */
  lemma {:induction false} UpdatesRecord(engine: Engine, spec: Spec, updates: seq<Update>)
    ensures var next := ApplyUpdates(engine, spec, updates);
            next.Some? ==> spec.settled <= next.value.settled
  {
    if updates != [] {
      UpdatesRecord(engine, spec, updates[..|updates| - 1]);
    }
  }

  lemma {:induction false} MessagesRecorded(engine: Engine, spec: Spec, ids: seq<nat>)
    requires Distinct(ids) && forall id :: id in ids ==> id !in spec.settled
    ensures ApplyUpdates(engine, spec, Messages(ids)) == Some(spec.(settled := spec.settled + ids))
  {
    if ids == [] {
      assert spec.settled + ids == spec.settled;
    } else {
      var last := |ids| - 1;
      MessagesRecorded(engine, spec, ids[..last]);
      assert Messages(ids)[..last] == Messages(ids[..last]);
      assert spec.settled + ids == (spec.settled + ids[..last]) + [ids[last]];
    }
  }

  lemma {:induction false} PatchesKeepRecord(engine: Engine, spec: Spec, updates: seq<Update>, patches: seq<Json>)
    ensures var before := ApplyUpdates(engine, spec, updates);
            var next := ApplyUpdates(engine, spec, updates + Patches(patches));
            next.Some? ==> before.Some? && next.value.settled == before.value.settled
  {
    if patches == [] {
      assert updates + Patches(patches) == updates;
    } else {
      var last := |patches| - 1;
      PatchesKeepRecord(engine, spec, updates, patches[..last]);
      assert (updates + Patches(patches))[..|updates| + last] == updates + Patches(patches[..last]);
    }
  }

  /** A successful transition records exactly the ids it accepted, after the ones already there. */
  lemma TransitionRecordsAccepted(engine: Engine, state: Json, spec: Spec, events: seq<Event>)
    requires Transition(engine, state, spec, events).Some?
    requires ApplyUpdates(engine, spec, Transition(engine, state, spec, events).value.updates).Some?
    ensures var next := ApplyUpdates(engine, spec, Transition(engine, state, spec, events).value.updates).value;
            next.settled == spec.settled + AcceptedIds(Accepted(events, ToSet(spec.settled)))
  {
    var ids := AcceptedIds(Accepted(events, ToSet(spec.settled)));
    AcceptedExactly(events, ToSet(spec.settled));
    forall id | id in ids
      ensures id !in spec.settled
    {
      assert id in ToSet(ids);
    }
    MessagesRecorded(engine, spec, ids);
    var accepted := Accepted(events, ToSet(spec.settled));
    var input := Input(Filter(IsRegular, events), Bootstrap in events,
      Filter(IsSource, accepted), Filter(IsRequest, accepted), Filter(IsService, accepted));
    PatchesKeepRecord(engine, spec, Messages(ids), engine.run(state, spec.blueprint, input).value.patches);
  }

  // ---- the worker's classification of effects ----------------------------------------------------

  /** blueprint/src/worker.ts:177-179 and, for failures, 199-222: the two agree on which effects must settle. */
  predicate NeedsSettlement(effect: Effect) {
    effect.Request? || (effect.Invoke? && (effect.token.Some? || effect.service.Some?))
  }

  /** What the host's executor did. */
  datatype Execution = Threw | Returned(result: Json, settlement: bool)

  /** `executeQueuedBlueprintEffect`; None is a throw. */
  function SuccessEvents(effect: Effect, messageId: nat, execution: Execution): Option<seq<Event>> {
    if execution.Threw? then None
    else if effect.Invoke? then
      Some(if effect.token.Some? || effect.service.Some? then [Settlement(messageId, execution.result, Some(effect))]
          else [])
    else if effect.Route? then Some([])
    else if !execution.settlement then None
    else Some([Settlement(messageId, execution.result, Some(effect))])
  }

  /** `queuedBlueprintEffectFailureEvents`; None is a throw. */
  function FailureEvents(effect: Effect, messageId: nat, detail: Json): Option<seq<Event>> {
    match effect
    case Request(effectId, _) =>
      if effectId.None? then None else Some([Settlement(messageId, detail, Some(effect))])
    case Invoke(token, service, _) =>
      Some(if token.Some? || service.Some? then [Settlement(messageId, detail, Some(effect))] else [])
    case Route(_) => Some([])
  }

  predicate Settles(events: seq<Event>, messageId: nat) {
    exists e :: e in events && e.Settlement? && e.messageId == messageId
  }

  /** Whichever way an effect that must settle ends without a throw, its events settle it. */
  lemma EventsSettle(effect: Effect, messageId: nat, execution: Execution, detail: Json)
    requires NeedsSettlement(effect)
    ensures SuccessEvents(effect, messageId, execution).Some?
        ==> Settles(SuccessEvents(effect, messageId, execution).value, messageId)
    ensures FailureEvents(effect, messageId, detail).Some?
        ==> Settles(FailureEvents(effect, messageId, detail).value, messageId)
  {
    var e := Settlement(messageId, detail, Some(effect));
    assert e in [e];
    if execution.Returned? {
      var f := Settlement(messageId, execution.result, Some(effect));
      assert f in [f];
    }
  }
}
