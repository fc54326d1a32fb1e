/** The single-flight source-request protocol (kernel/src/source-run-state.ts:19-51 and
    kernel/src/kernel.ts:325-327, 1027-1139). */
module SourceRequests {
  import opened Json

  /** A cell id and a source id; tokens are instants in milliseconds. */
  type Key = (string, string)

  datatype Outcome = Succeeded | Failed(detail: Json)

  datatype SourceRunState = SourceRunState(
    lastRequested: Option<int>,
    lastCompleted: Option<int>,
    lastStatus: Option<Outcome>,
    queueRequested: Option<int>)

  const INITIAL := SourceRunState(None, None, None, None)

  predicate InFlight(source: SourceRunState) {
    source.lastRequested.Some? && source.lastRequested != source.lastCompleted
  }

  predicate HasPendingRequest(source: SourceRunState) {
    source.queueRequested.Some? && source.queueRequested != source.lastRequested
  }

  /** The clock, unless it has not moved past the previous token: then the next millisecond. */
  function NextToken(previous: Option<int>, now: int): int {
    if previous.None? || now > previous.value then now else previous.value + 1
  }

  function CompleteRequest(source: SourceRunState, token: int, outcome: Outcome): SourceRunState {
    source.(lastCompleted := Some(token), lastStatus := Some(outcome))
  }

  // ---- the kernel's part ----------------------------------------------------------------

  /** The stored run states and the two sets that are non-empty only during a promotion. */
  datatype State = State(sources: map<Key, SourceRunState>, promotions: map<Key, int>, settled: set<Key>)

  function SourceOf(s: State, key: Key): SourceRunState {
    if key in s.sources then s.sources[key] else INITIAL
  }

  /** `admitSourceEffect`: the token under which the effect goes out, or None when it does not. */
  function Admit(s: State, key: Key, now: int): (State, Option<int>) {
    if key in s.settled then (s, None)
    else
      var source := SourceOf(s, key);
      var promoted := key in s.promotions;
      var queued := if promoted then s.promotions[key] else NextToken(source.queueRequested, now);
      var next := source.(queueRequested := Some(queued),
        lastRequested := if !InFlight(source) || promoted then Some(queued) else source.lastRequested);
      (s.(sources := s.sources[key := next]), if InFlight(source) && !promoted then None else Some(queued))
  }

  /** `completeSourceEffect`: the pending token, if the completed request left one. */
  function Complete(s: State, key: Key, token: int, outcome: Outcome): (State, Option<int>) {
    if key !in s.sources || s.sources[key].lastRequested != Some(token) then (s, None)
    else
      var completed := CompleteRequest(s.sources[key], token, outcome);
      (s.(sources := s.sources[key := completed]),
       if HasPendingRequest(completed) then completed.queueRequested else None)
  }

  /** A source effect the graph emits, and the clock when it does. */
  datatype Emission = Emission(key: Key, now: int)

  /** Admissions in order, with the tokens they got. */
  function AdmitAll(s: State, emitted: seq<Emission>): (State, seq<Option<int>>) {
    if emitted == [] then (s, [])
    else
      var (before, tokens) := AdmitAll(s, emitted[..|emitted| - 1]);
      var e := emitted[|emitted| - 1];
      var (after, token) := Admit(before, e.key, e.now);
      (after, tokens + [token])
  }

  function BeginPromotion(s: State, key: Key, pending: Option<int>): State {
    if pending.Some? then s.(promotions := s.promotions[key := pending.value]) else s.(settled := s.settled + {key})
  }

  function EndPromotion(s: State, key: Key): State {
    s.(promotions := s.promotions - {key}, settled := s.settled - {key})
  }

  /** `completeAndPromoteSourceEffect`: `emitted` is what activating the promotion node makes the graph emit. */
  function CompleteAndPromote(s: State, key: Key, token: int, outcome: Outcome, hasGraph: bool, emitted: seq<Emission>)
    : (State, seq<Option<int>>)
  {
    var (completed, pending) := Complete(s, key, token, outcome);
    if !hasGraph then (completed, [])
    else
      var (after, tokens) := AdmitAll(BeginPromotion(completed, key, pending), emitted);
      (EndPromotion(after, key), tokens)
  }

  predicate IsCurrent(s: State, key: Key, token: int) {
    key in s.sources && s.sources[key].lastRequested == Some(token)
  }

  /** `settleSourceEffect`: a token that is not the current one is ignored. */
  function SettleSource(s: State, key: Key, token: int, outcome: Outcome, hasGraph: bool, emitted: seq<Emission>)
    : (State, seq<Option<int>>)
  {
    if !IsCurrent(s, key, token) then (s, []) else CompleteAndPromote(s, key, token, outcome, hasGraph, emitted)
  }

  /** The kernel fields and the methods that update them. */
  class SourceHost {
    const hasGraph: bool
    var sources: map<Key, SourceRunState>
    var promotions: map<Key, int>
    var settled: set<Key>

    constructor (hasGraph: bool)
      ensures this.hasGraph == hasGraph && TheState() == State(map[], map[], {})
    {
      this.hasGraph := hasGraph;
      sources, promotions, settled := map[], map[], {};
    }

    ghost function TheState(): State
      reads this
    {
      State(sources, promotions, settled)
    }

    method AdmitSourceEffect(key: Key, now: int) returns (token: Option<int>)
      modifies this`sources
      ensures (TheState(), token) == Admit(old(TheState()), key, now)
    {
      if key in settled {
        return None;
      }
      var source := if key in sources then sources[key] else INITIAL;
      var promotionToken := if key in promotions then Some(promotions[key]) else None;
      var queued := if promotionToken.Some? then promotionToken.value else NextToken(source.queueRequested, now);
      var next := source.(queueRequested := Some(queued));
      if !InFlight(source) || promotionToken.Some? {
        next := next.(lastRequested := Some(queued));
      }
      sources := sources[key := next];
      token := if InFlight(source) && promotionToken.None? then None else Some(queued);
    }

    method CompleteSourceEffect(key: Key, token: int, outcome: Outcome) returns (pending: Option<int>)
      modifies this`sources
      ensures (TheState(), pending) == Complete(old(TheState()), key, token, outcome)
    {
      if key !in sources || sources[key].lastRequested != Some(token) {
        return None;
      }
      var completed := CompleteRequest(sources[key], token, outcome);
      sources := sources[key := completed];
      pending := if HasPendingRequest(completed) then completed.queueRequested else None;
    }

    method CompleteAndPromoteSourceEffect(key: Key, token: int, outcome: Outcome, emitted: seq<Emission>)
      returns (tokens: seq<Option<int>>)
      modifies this
      ensures (TheState(), tokens) == CompleteAndPromote(old(TheState()), key, token, outcome, hasGraph, emitted)
    {
      var pending := CompleteSourceEffect(key, token, outcome);
      tokens := [];
      if !hasGraph {
        return;
      }
      if pending.Some? {
        promotions := promotions[key := pending.value];
      } else {
        settled := settled + {key};
      }
      ghost var start := TheState();
      for i := 0 to |emitted|
        invariant (TheState(), tokens) == AdmitAll(start, emitted[..i])
      {
        assert emitted[..i + 1][..i] == emitted[..i];
        var admitted := AdmitSourceEffect(emitted[i].key, emitted[i].now);
        tokens := tokens + [admitted];
      }
      assert emitted[..|emitted|] == emitted;
      promotions := promotions - {key};
      settled := settled - {key};
    }

    method SettleSourceEffect(key: Key, token: int, outcome: Outcome,
        emitted: seq<Emission>) returns (tokens: seq<Option<int>>)
      modifies this
      ensures (TheState(), tokens) == SettleSource(old(TheState()), key, token, outcome, hasGraph, emitted)
    {
      if key !in sources || sources[key].lastRequested != Some(token) {
        return [];
      }
      tokens := CompleteAndPromoteSourceEffect(key, token, outcome, emitted);
    }
  }
}
