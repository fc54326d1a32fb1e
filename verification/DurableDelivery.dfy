/** What a durable transition hands to the materialized engine (blueprint/src/durable-transition.ts:116-158), and
    that a repeated settlement never reaches the state. */
module DurableDelivery {
  import opened Json
  import opened DurableTransition
  import opened DurableRuntime
  import opened DurableTheorems

  // ---- delivery -------------------------------------------------------------------------------------

  /** The first settlement of a message that was not settled before the batch. */
  ghost predicate IsFirst(events: seq<Event>, settled: seq<nat>, i: nat) {
    && i < |events| && events[i].Settlement? && events[i].messageId !in settled
    && forall j :: 0 <= j < i && events[j].Settlement? ==> events[j].messageId != events[i].messageId
  }

  ghost predicate Ascends(at: seq<nat>) {
    forall k, l :: 0 <= k < l < |at| ==> at[k] < at[l]
  }

  /** `picked` holds the events at exactly the chosen places, in order. */
  ghost predicate Picks(events: seq<Event>, picked: seq<Event>, at: seq<nat>) {
    && |at| == |picked| && Ascends(at)
    && forall k :: 0 <= k < |at| ==> at[k] < |events| && picked[k] == events[at[k]]
  }

  ghost predicate PicksRegular(events: seq<Event>, picked: seq<Event>) {
    exists at :: Picks(events, picked, at) && forall i: nat :: i in at <==> i < |events| && events[i].Regular?
  }

  /** First settlements of invocations that carry a source request token. */
  ghost predicate PicksSources(events: seq<Event>, settled: seq<nat>, picked: seq<Event>) {
    exists at :: Picks(events, picked, at) && forall i: nat ::
      i in at <==> IsFirst(events, settled, i) && events[i].effect.Some? && events[i].effect.value.Invoke?
                   && events[i].effect.value.token.Some?
  }

  ghost predicate PicksRequests(events: seq<Event>, settled: seq<nat>, picked: seq<Event>) {
    exists at :: Picks(events, picked, at) && forall i: nat ::
      i in at <==> IsFirst(events, settled, i) && events[i].effect.Some? && events[i].effect.value.Request?
  }

  /** First settlements of service invocations that carry no source request token. */
  ghost predicate PicksServices(events: seq<Event>, settled: seq<nat>, picked: seq<Event>) {
    exists at :: Picks(events, picked, at) && forall i: nat ::
      i in at <==> IsFirst(events, settled, i) && events[i].effect.Some? && events[i].effect.value.Invoke?
                   && events[i].effect.value.token.None? && events[i].effect.value.service.Some?
  }

  ghost predicate Delivers(events: seq<Event>, settled: seq<nat>, input: Input) {
    && PicksRegular(events, input.events) && (input.syncExternal <==> Bootstrap in events)
    && PicksSources(events, settled, input.sources) && PicksRequests(events, settled, input.requests)
    && PicksServices(events, settled, input.services)
  }

  lemma PicksFirst(events: seq<Event>, picked: seq<Event>, at: seq<nat>)
    requires picked != [] && Picks(events, picked, at)
    ensures at != [] && at[|at| - 1] < |events| && events[at[|at| - 1]] == picked[|picked| - 1]
    ensures Picks(events, picked[..|picked| - 1], at[..|at| - 1])
    ensures forall k :: 0 <= k < |at| - 1 ==> at[k] < at[|at| - 1]
    ensures forall i :: i in at <==> i in at[..|at| - 1] || i == at[|at| - 1]
  {
    assert at == at[..|at| - 1] + [at[|at| - 1]];
  }

  lemma PicksMore(events: seq<Event>, picked: seq<Event>, at: seq<nat>, i: nat)
    requires Picks(events, picked, at) && i < |events| && forall k :: 0 <= k < |at| ==> at[k] < i
    ensures Picks(events, picked + [events[i]], at + [i])
  {
  }

  /** Filtering what a choice picked narrows the choice. */
  lemma {:induction false} FilterPicks(p: Event -> bool, events: seq<Event>, picked: seq<Event>, at: seq<nat>)
      returns (kept: seq<nat>)
    requires Picks(events, picked, at)
    ensures Picks(events, Filter(p, picked), kept)
    ensures forall i :: i in kept <==> i in at && i < |events| && p(events[i])
  {
    if picked == [] {
      kept := [];
    } else {
      PicksFirst(events, picked, at);
      hide Picks;
      var last := at[|at| - 1];
      kept := FilterPicks(p, events, picked[..|picked| - 1], at[..|at| - 1]);
      if p(events[last]) {
        forall k | 0 <= k < |kept|
          ensures kept[k] < last
        {
          assert kept[k] in at[..|at| - 1];
        }
        PicksMore(events, Filter(p, picked[..|picked| - 1]), kept, last);
        kept := kept + [last];
      } else {
        assert Filter(p, picked) == Filter(p, picked[..|picked| - 1]);
      }
    }
  }

  lemma AllPlaces(n: nat) returns (at: seq<nat>)
    ensures |at| == n && (forall k :: 0 <= k < n ==> at[k] == k) && forall i: nat :: i in at <==> i < n
  {
    at := seq(n, k => k);
    forall i: nat
      ensures i in at <==> i < n
    {
      if i < n {
        assert at[i] == i;
      }
    }
  }

  lemma IdsOfPicked(events: seq<Event>, accepted: seq<Event>, at: seq<nat>, id: nat)
    requires Picks(events, accepted, at)
    ensures id in Ids(accepted) ==> exists j: nat :: j in at && events[j].Settlement? && events[j].messageId == id
    ensures (exists j: nat :: j in at && events[j].Settlement? && events[j].messageId == id) ==> id in Ids(accepted)
  {
    if id in Ids(accepted) {
      var k :| 0 <= k < |accepted| && accepted[k].Settlement? && accepted[k].messageId == id;
      assert at[k] in at;
    }
    if j: nat :| j in at && events[j].Settlement? && events[j].messageId == id {
      var k :| 0 <= k < |at| && at[k] == j;
      assert accepted[k] in accepted;
    }
  }

  lemma PicksLonger(events: seq<Event>, picked: seq<Event>, at: seq<nat>)
    requires events != [] && Picks(events[..|events| - 1], picked, at)
    ensures Picks(events, picked, at) && |events| - 1 !in at
    ensures Picks(events, picked + [events[|events| - 1]], at + [|events| - 1])
  {
  }

  lemma FirstInPrefix(events: seq<Event>, settled: seq<nat>, i: nat)
    requires i < |events| - 1
    ensures IsFirst(events[..|events| - 1], settled, i) <==> IsFirst(events, settled, i)
  {
  }

  /** What is accepted is exactly the first settlements of unsettled messages. */
  lemma {:induction false} AcceptedPicks(events: seq<Event>, settled: seq<nat>) returns (at: seq<nat>)
    ensures Picks(events, Accepted(events, ToSet(settled)), at)
    ensures forall i: nat :: i in at <==> IsFirst(events, settled, i)
  {
    hide Picks, IsFirst, Ids;
    if events == [] {
      at := [];
      NothingPicked(settled);
    } else {
      var n := |events| - 1;
      var rest, e := events[..n], events[n];
      var early := AcceptedPicks(rest, settled);
      var before := Accepted(rest, ToSet(settled));
      PicksLonger(events, before, early);
      at := if e.Settlement? && e.messageId !in settled && e.messageId !in Ids(before) then early + [n] else early;
      forall i: nat
        ensures i in at <==> IsFirst(events, settled, i)
      {
        FirstAmong(events, settled, early, before, i);
      }
    }
  }

  lemma NothingPicked(settled: seq<nat>)
    ensures Picks([], [], []) && forall i: nat :: !IsFirst([], settled, i)
  {
  }

  lemma FirstAmong(events: seq<Event>, settled: seq<nat>, early: seq<nat>, before: seq<Event>, i: nat)
    requires events != [] && Picks(events[..|events| - 1], before, early)
    requires forall k: nat :: k in early <==> IsFirst(events[..|events| - 1], settled, k)
    ensures var e := events[|events| - 1];
            IsFirst(events, settled, i)
            <==> i in early
                 || (i == |events| - 1 && e.Settlement? && e.messageId !in settled && e.messageId !in Ids(before))
  {
    hide Ids;
    if i < |events| - 1 {
      FirstInPrefix(events, settled, i);
    } else {
      assert !IsFirst(events[..|events| - 1], settled, i);
      if i == |events| - 1 && events[i].Settlement? {
        FirstIffAbsent(events, settled, early, before);
      }
    }
  }

  /** The last event is a first settlement unless its message is settled or among the accepted. */
  lemma FirstIffAbsent(events: seq<Event>, settled: seq<nat>, at: seq<nat>, before: seq<Event>)
    requires events != [] && events[|events| - 1].Settlement? && Picks(events[..|events| - 1], before, at)
    requires forall i: nat :: i in at <==> IsFirst(events[..|events| - 1], settled, i)
    ensures var e := events[|events| - 1];
            IsFirst(events, settled, |events| - 1) <==> e.messageId !in settled && e.messageId !in Ids(before)
  {
    var n, e := |events| - 1, events[|events| - 1];
    var rest := events[..n];
    IdsOfPicked(rest, before, at, e.messageId);
    if j: nat :| j < n && events[j].Settlement? && events[j].messageId == e.messageId {
      if e.messageId !in settled {
        var first := FirstWith(rest, e.messageId, j);
        assert IsFirst(rest, settled, first);
      }
    }
  }

  lemma {:induction false} FirstWith(events: seq<Event>, id: nat, j: nat) returns (first: nat)
    requires j < |events| && events[j].Settlement? && events[j].messageId == id
    ensures first <= j && events[first].Settlement? && events[first].messageId == id
    ensures forall k :: 0 <= k < first && events[k].Settlement? ==> events[k].messageId != id
    decreases j
  {
    if k: nat :| k < j && events[k].Settlement? && events[k].messageId == id {
      first := FirstWith(events, id, k);
    } else {
      first := j;
    }
  }

  /** For every engine: a transition without malformed settlements runs it once, on the committed state and
      Blueprint, and hands it every regular event and every first settlement in the list of its effect's kind. */
  lemma TransitionDelivers(engine: Engine, state: Json, spec: Spec, events: seq<Event>) returns (input: Input)
    requires Malformed !in events
    ensures Delivers(events, spec.settled, input)
    ensures Transition(engine, state, spec, events).None? <==> engine.run(state, spec.blueprint, input).None?
    ensures Transition(engine, state, spec, events).Some? ==>
              var ran, output := engine.run(state, spec.blueprint, input).value,
                                 Transition(engine, state, spec, events).value;
              && output.state == ran.state && output.effects == ran.effects
              && output.updates == Messages(AcceptedIds(Accepted(events, ToSet(spec.settled)))) + Patches(ran.patches)
  {
    var accepted := Accepted(events, ToSet(spec.settled));
    input := Input(Filter(IsRegular, events), Bootstrap in events,
      Filter(IsSource, accepted), Filter(IsRequest, accepted), Filter(IsService, accepted));
    var all := AllPlaces(|events|);
    assert Picks(events, events, all);
    var regular := FilterPicks(IsRegular, events, events, all);
    var at := AcceptedPicks(events, spec.settled);
    var sources := FilterPicks(IsSource, events, accepted, at);
    var requests := FilterPicks(IsRequest, events, accepted, at);
    var services := FilterPicks(IsService, events, accepted, at);
    hide Picks, IsFirst;
    assert PicksRegular(events, input.events);
    assert PicksSources(events, spec.settled, input.sources);
    assert PicksRequests(events, spec.settled, input.requests);
    assert PicksServices(events, spec.settled, input.services);
  }

  // ---- the next spec --------------------------------------------------------------------------------

  /** `applyBlueprintPatches` one patch after the other. */
  function PatchAll(engine: Engine, blueprint: Json, patches: seq<Json>): Option<Json> {
    if patches == [] then Some(blueprint)
    else
      match PatchAll(engine, blueprint, patches[..|patches| - 1])
      case None => None
      case Some(before) => engine.patch(before, patches[|patches| - 1])
  }

  lemma {:induction false} MessagesLeaveBlueprint(engine: Engine, spec: Spec, ids: seq<nat>)
    ensures ApplyUpdates(engine, spec, Messages(ids)).Some?
    ensures ApplyUpdates(engine, spec, Messages(ids)).value.blueprint == spec.blueprint
  {
    if ids != [] {
      var last := |ids| - 1;
      MessagesLeaveBlueprint(engine, spec, ids[..last]);
      assert Messages(ids)[..last] == Messages(ids[..last]);
    }
  }

  lemma {:induction false} PatchesApply(engine: Engine, spec: Spec, ids: seq<nat>, patches: seq<Json>)
    ensures var next, patched := ApplyUpdates(engine, spec, Messages(ids) + Patches(patches)),
                                 PatchAll(engine, spec.blueprint, patches);
            && (next.Some? <==> patched.Some?)
            && (next.Some? ==> next.value.blueprint == patched.value)
  {
    if patches == [] {
      assert Messages(ids) + Patches(patches) == Messages(ids);
      MessagesLeaveBlueprint(engine, spec, ids);
    } else {
      var last := |patches| - 1;
      PatchesApply(engine, spec, ids, patches[..last]);
      assert (Messages(ids) + Patches(patches))[..|ids| + last] == Messages(ids) + Patches(patches[..last]);
    }
  }

  /** The next Blueprint is the committed one under every patch the engine proposed, in order; the transition
      throws where the engine or a patch does. */
  lemma NextBlueprint(d: Deployment, state: Json, spec: Spec, entries: seq<Event>) returns (input: Input)
    requires Malformed !in entries
    ensures Delivers(entries, spec.settled, input)
    ensures var ran := d.engine.run(state, spec.blueprint, input);
            var computed := Computed(d, Snapshot(0, state, spec, 0, 0, entries));
            && (computed.Some? <==> ran.Some? && PatchAll(d.engine, spec.blueprint, ran.value.patches).Some?)
            && (computed.Some? ==>
                && Some(computed.value.1.blueprint) == PatchAll(d.engine, spec.blueprint, ran.value.patches)
                && computed.value.0.state == ran.value.state
                && computed.value.0.effects == ran.value.effects)
  {
    hide Delivers, Accepted, Filter, ApplyUpdates, PatchAll;
    input := TransitionDelivers(d.engine, state, spec, entries);
    var ran := d.engine.run(state, spec.blueprint, input);
    if ran.Some? {
      PatchesApply(d.engine, spec, AcceptedIds(Accepted(entries, ToSet(spec.settled))), ran.value.patches);
    }
  }

  // ---- erasure -----------------------------------------------------------------------------------------

  function Without(events: seq<Event>, i: nat): seq<Event>
    requires i < |events|
  {
    events[..i] + events[i + 1..]
  }

  /** A settlement of a message already settled, or settled earlier in the batch. */
  ghost predicate Repeats(events: seq<Event>, settled: set<nat>, i: nat) {
    && i < |events| && events[i].Settlement?
    && (events[i].messageId in settled || events[i].messageId in Ids(events[..i]))
  }

  lemma {:induction false} FilterConcat(p: Event -> bool, a: seq<Event>, b: seq<Event>)
    ensures Filter(p, a + b) == Filter(p, a) + Filter(p, b)
  {
    if b == [] {
      assert a + b == a;
    } else {
      FilterConcat(p, a, b[..|b| - 1]);
      assert (a + b)[..|a + b| - 1] == a + b[..|b| - 1];
    }
  }

  lemma {:induction false} AcceptedConcat(a: seq<Event>, b: seq<Event>, settled: set<nat>)
    ensures Accepted(a + b, settled) == Accepted(a, settled) + Accepted(b, settled + Ids(Accepted(a, settled)))
  {
    if b == [] {
      assert a + b == a;
    } else {
      var rest, last := b[..|b| - 1], b[|b| - 1];
      AcceptedConcat(a, rest, settled);
      assert (a + b)[..|a + b| - 1] == a + rest;
      IdsOfConcat(Accepted(a, settled), Accepted(rest, settled + Ids(Accepted(a, settled))));
    }
  }

  lemma AcceptsNoRepeat(e: Event, settled: set<nat>)
    requires e.Settlement? && e.messageId in settled
    ensures Accepted([e], settled) == []
  {
    assert [e][..0] == [] && Accepted([], settled) == [];
  }

  lemma ErasedAccepted(events: seq<Event>, settled: set<nat>, i: nat)
    requires Repeats(events, settled, i)
    ensures Accepted(Without(events, i), settled) == Accepted(events, settled)
  {
    var a, e, b := events[..i], events[i], events[i + 1..];
    assert events == a + ([e] + b);
    AcceptedExactly(a, settled);
    var known := settled + Ids(Accepted(a, settled));
    AcceptsNoRepeat(e, known);
    AcceptedConcat(a, [e] + b, settled);
    AcceptedConcat([e], b, known);
    AcceptedConcat(a, b, settled);
    assert known + Ids([]) == known && [] + Accepted(b, known) == Accepted(b, known);
  }

  /** For every engine, state and spec: a repeated settlement might as well not be there. */
  lemma RepeatErased(engine: Engine, state: Json, spec: Spec, events: seq<Event>, i: nat)
    requires Repeats(events, ToSet(spec.settled), i)
    ensures Transition(engine, state, spec, events) == Transition(engine, state, spec, Without(events, i))
  {
    hide Accepted, Filter, Ids;
    var a, e, b := events[..i], events[i], events[i + 1..];
    assert events == a + [e] + b;
    ErasedAccepted(events, ToSet(spec.settled), i);
    FilterConcat(IsRegular, a + [e], b);
    FilterConcat(IsRegular, a, [e]);
    FilterConcat(IsRegular, a, b);
    assert Filter(IsRegular, [e]) == [] by {
      NotRegular(e);
    }
    assert Filter(IsRegular, a) + [] == Filter(IsRegular, a);
    assert forall f :: f in events <==> f in Without(events, i) || f == e;
  }

  lemma NotRegular(e: Event)
    requires !e.Regular?
    ensures Filter(IsRegular, [e]) == []
  {
    assert [e][..0] == [] && Filter(IsRegular, []) == [];
  }

  /** The batch with every repeated settlement taken out. */
  function Fresh(events: seq<Event>, settled: set<nat>): seq<Event> {
    if events == [] then []
    else
      var rest, e := events[..|events| - 1], events[|events| - 1];
      Fresh(rest, settled)
      + if e.Settlement? && (e.messageId in settled || e.messageId in Ids(rest)) then [] else [e]
  }

  lemma {:induction false} FreshFacts(events: seq<Event>, settled: set<nat>)
    ensures var once := Fresh(events, settled);
            && Accepted(once, settled) == Accepted(events, settled)
            && Filter(IsRegular, once) == Filter(IsRegular, events)
            && (Malformed in once <==> Malformed in events) && (Bootstrap in once <==> Bootstrap in events)
  {
    if events != [] {
      var rest, e := events[..|events| - 1], events[|events| - 1];
      FreshFacts(rest, settled);
      assert events == rest + [e];
      AcceptedExactly(rest, settled);
      FilterConcat(IsRegular, Fresh(rest, settled), [e]);
      FilterConcat(IsRegular, rest, [e]);
      AcceptedConcat(Fresh(rest, settled), [e], settled);
      AcceptedConcat(rest, [e], settled);
      if e.Settlement? && (e.messageId in settled || e.messageId in Ids(rest)) {
        NotRegular(e);
        AcceptsNoRepeat(e, settled + Ids(Accepted(rest, settled)));
        assert Fresh(events, settled) == Fresh(rest, settled);
      }
    }
  }

  /** No transition of any engine tells a batch from the batch without its repeated settlements. */
  lemma FreshSuffices(engine: Engine, state: Json, spec: Spec, events: seq<Event>)
    ensures Transition(engine, state, spec, Fresh(events, ToSet(spec.settled)))
        == Transition(engine, state, spec, events)
  {
    hide Accepted, Filter, Fresh;
    FreshFacts(events, ToSet(spec.settled));
  }

  // ---- the whole journal -----------------------------------------------------------------------------

  /** The fold of the journal, each range without the settlements an earlier journal entry made already. */
  function FreshReplay(d: Deployment, journal: seq<Event>, commits: seq<Commit>): Option<Folded> {
    if commits == [] then Some(Folded(d.initialState, Spec(d.blueprint, []), []))
    else
      var c := commits[|commits| - 1];
      match FreshReplay(d, journal, commits[..|commits| - 1])
      case None => None
      case Some(before) =>
        if !(c.from < c.to <= |journal|) then None
        else
          var entries := Fresh(journal[c.from..c.to], Ids(journal[..c.from]));
          match Computed(d, Snapshot(0, before.state, before.spec, 0, 0, entries))
          case None => None
          case Some((output, spec)) => Some(Folded(output.state, spec, before.issued + output.effects))
  }

  lemma ReplaySettles(d: Deployment, state: Json, spec: Spec, entries: seq<Event>)
    requires Computed(d, Snapshot(0, state, spec, 0, 0, entries)).Some?
    ensures var next := Computed(d, Snapshot(0, state, spec, 0, 0, entries)).value.1;
            ToSet(next.settled) == ToSet(spec.settled) + Ids(entries)
  {
    TransitionRecordsAccepted(d.engine, state, spec, entries);
    AcceptedExactly(entries, ToSet(spec.settled));
    var ids := AcceptedIds(Accepted(entries, ToSet(spec.settled)));
    assert ToSet(spec.settled + ids) == ToSet(spec.settled) + ToSet(ids);
  }

  /** Folding the journal is folding it without its repeated settlements. */
  lemma {:induction false} ReplayIsFresh(d: Deployment, journal: seq<Event>, commits: seq<Commit>, cursor: nat)
    requires Contiguous(commits, cursor) && Replay(d, journal, commits).Some? && cursor <= |journal|
    ensures FreshReplay(d, journal, commits) == Replay(d, journal, commits)
    ensures ToSet(Replay(d, journal, commits).value.spec.settled) == Ids(journal[..cursor])
  {
    hide Transition, ApplyUpdates, Fresh, Accepted;
    if commits != [] {
      var rest, c := commits[..|commits| - 1], commits[|commits| - 1];
      ReplayIsFresh(d, journal, rest, c.from);
      var before := Replay(d, journal, rest).value;
      var entries := journal[c.from..c.to];
      FreshSuffices(d.engine, before.state, before.spec, entries);
      ReplaySettles(d, before.state, before.spec, entries);
      assert journal[..c.to] == journal[..c.from] + entries;
      IdsOfConcat(journal[..c.from], entries);
    }
  }

  /** In every run of racing engines and workers the committed data is the fold of the journal as if each message
      had been settled once: of all its settlements only the first ever reaches the engine. */
  lemma RepeatsNeverReachState(d: Deployment, run: seq<Step>)
    ensures var s := After(d, run);
            FreshReplay(d, s.journal, s.commits) == Some(Folded(s.state, s.spec, s.issued))
  {
    hide Replay, FreshReplay;
    var s := After(d, run);
    RunsFold(d, run);
    ReplayIsFresh(d, s.journal, s.commits, s.cursor);
  }
}
