/** What every history of requests and settlements keeps, and how requests coalesce. */
module SourceTheorems {
  import opened Json
  import opened SourceRequests

  /** A settlement comes guarded (`settleSourceEffect`) or not (a finished or cancelled invocation). */
  datatype Operation =
    | Request(key: Key, now: int)
    | Settled(key: Key, token: int, outcome: Outcome, guarded: bool, emitted: seq<Emission>)

  /** The state together with the tokens admitted and the tokens completed, per source. */
  datatype History = History(state: State, admitted: map<Key, seq<int>>, completed: map<Key, set<int>>)

  const START := History(State(map[], map[], {}), map[], map[])

  function AdmittedOf(h: History, key: Key): seq<int> {
    if key in h.admitted then h.admitted[key] else []
  }

  function CompletedOf(h: History, key: Key): set<int> {
    if key in h.completed then h.completed[key] else {}
  }

  function Log(h: History, key: Key, token: Option<int>): History {
    if token.None? then h else h.(admitted := h.admitted[key := AdmittedOf(h, key) + [token.value]])
  }

  function DoAdmit(h: History, key: Key, now: int): History {
    var (state, token) := Admit(h.state, key, now);
    Log(h.(state := state), key, token)
  }

  function DoAdmitAll(h: History, emitted: seq<Emission>): History {
    if emitted == [] then h
    else
      var e := emitted[|emitted| - 1];
      DoAdmit(DoAdmitAll(h, emitted[..|emitted| - 1]), e.key, e.now)
  }

  function DoComplete(h: History, key: Key, token: int, outcome: Outcome): History {
    var h' := h.(state := Complete(h.state, key, token, outcome).0);
    if IsCurrent(h.state, key, token) then h'.(completed := h.completed[key := CompletedOf(h, key) + {token}]) else h'
  }

  function DoPromote(h: History, key: Key, pending: Option<int>, emitted: seq<Emission>): History {
    var after := DoAdmitAll(h.(state := BeginPromotion(h.state, key, pending)), emitted);
    after.(state := EndPromotion(after.state, key))
  }

  function Perform(h: History, op: Operation): History {
    match op
    case Request(key, now) => DoAdmit(h, key, now)
    case Settled(key, token, outcome, guarded, emitted) =>
      if guarded && !IsCurrent(h.state, key, token) then h
      else DoPromote(DoComplete(h, key, token, outcome), key, Complete(h.state, key, token, outcome).1, emitted)
  }

  function After(ops: seq<Operation>): History {
    if ops == [] then START else Perform(After(ops[..|ops| - 1]), ops[|ops| - 1])
  }

  /** The recorded states are the ones the kernel methods leave. */
  lemma {:induction false} AdmitAllState(h: History, emitted: seq<Emission>)
    ensures DoAdmitAll(h, emitted).state == AdmitAll(h.state, emitted).0
  {
    if emitted != [] {
      AdmitAllState(h, emitted[..|emitted| - 1]);
    }
  }

  lemma PerformIsSettleSource(h: History, key: Key, token: int, outcome: Outcome, emitted: seq<Emission>)
    ensures Perform(h, Settled(key, token, outcome, true, emitted)).state
        == SettleSource(h.state, key, token, outcome, true, emitted).0
    ensures Perform(h, Settled(key, token, outcome, false, emitted)).state
         == CompleteAndPromote(h.state, key, token, outcome, true, emitted).0
  {
    var completed, pending := DoComplete(h, key, token, outcome), Complete(h.state, key, token, outcome).1;
    AdmitAllState(completed.(state := BeginPromotion(completed.state, key, pending)), emitted);
  }

  // ---- the invariant ---------------------------------------------------------------------

  ghost predicate Increasing(tokens: seq<int>) {
    forall i, j :: 0 <= i < j < |tokens| ==> tokens[i] < tokens[j]
  }

  function ToSet(tokens: seq<int>): set<int> {
    set token | token in tokens
  }

  /** lastCompleted <= lastRequested <= queueRequested, the last two null together; the admitted tokens
      increase, the newest is lastRequested, and all but possibly it are completed. */
  ghost predicate Coherent(source: SourceRunState, admitted: seq<int>, completed: set<int>) {
    && (source.lastRequested.None? <==> source.queueRequested.None?)
    && (source.lastRequested.None? ==> source.lastCompleted.None?)
    && (source.lastRequested.Some? ==> source.lastRequested.value <= source.queueRequested.value)
    && (source.lastCompleted.Some? ==> source.lastCompleted.value <= source.lastRequested.value)
    && Increasing(admitted)
    && source.lastRequested == (if admitted == [] then None else Some(admitted[|admitted| - 1]))
    && completed == ToSet(if InFlight(source) then admitted[..|admitted| - 1] else admitted)
  }

  ghost predicate SourceInvariant(h: History, key: Key) {
    Coherent(SourceOf(h.state, key), AdmittedOf(h, key), CompletedOf(h, key))
  }

  ghost predicate Quiet(s: State) {
    s.promotions == map[] && s.settled == {}
  }

  ghost predicate Invariant(h: History) {
    Quiet(h.state) && forall key :: SourceInvariant(h, key)
  }

  lemma IncreasingAppend(tokens: seq<int>, token: int)
    requires Increasing(tokens) && (tokens != [] ==> tokens[|tokens| - 1] < token)
    ensures Increasing(tokens + [token])
  {
    forall i, j | 0 <= i < j < |tokens + [token]|
      ensures (tokens + [token])[i] < (tokens + [token])[j]
    {
      if j == |tokens| && i < |tokens| - 1 {
        assert tokens[i] < tokens[|tokens| - 1];
      }
    }
  }

  /** A request that goes out while nothing is in flight, under a token beyond the last admitted one. */
  lemma GoesOut(source: SourceRunState, admitted: seq<int>, completed: set<int>, token: int)
    requires Coherent(source, admitted, completed) && !InFlight(source)
    requires source.lastRequested.Some? ==> source.lastRequested.value < token
    ensures Coherent(source.(queueRequested := Some(token), lastRequested := Some(token)), admitted + [token],
        completed)
  {
    hide Increasing, ToSet;
    IncreasingAppend(admitted, token);
    assert (admitted + [token])[..|admitted|] == admitted;
  }

  /** An admission touches one source only. */
  lemma AdmitFrame(h: History, key: Key, now: int)
    ensures var h' := DoAdmit(h, key, now);
            && h'.state.promotions == h.state.promotions && h'.state.settled == h.state.settled
                && h'.completed == h.completed
            && forall other :: other != key ==>
                 SourceOf(h'.state, other) == SourceOf(h.state, other) && AdmittedOf(h', other) == AdmittedOf(h, other)
  {
  }

  /** What it does to that source: nothing, queue a token, or go out under one. */
  lemma AdmitEffect(h: History, key: Key, now: int)
    ensures var h' := DoAdmit(h, key, now);
            var source := SourceOf(h.state, key);
            var token := if key in h.state.promotions then h.state.promotions[key]
                else NextToken(source.queueRequested, now);
            if key in h.state.settled then h' == h
            else if InFlight(source) && key !in h.state.promotions then
              SourceOf(h'.state, key) == source.(queueRequested := Some(token))
                  && AdmittedOf(h', key) == AdmittedOf(h, key)
            else
              && SourceOf(h'.state, key) == source.(queueRequested := Some(token), lastRequested := Some(token))
              && AdmittedOf(h', key) == AdmittedOf(h, key) + [token]
  {
  }

  /** An admission outside a promotion of its own source keeps the invariant of every source. */
  lemma AdmitKeeps(h: History, key: Key, now: int, other: Key)
    requires key !in h.state.promotions
    requires SourceInvariant(h, other)
    ensures SourceInvariant(DoAdmit(h, key, now), other)
  {
    AdmitFrame(h, key, now);
    AdmitEffect(h, key, now);
    var source, token := SourceOf(h.state, key), NextToken(SourceOf(h.state, key).queueRequested, now);
    if other == key {
      if InFlight(source) {
        QueuesUp(source, AdmittedOf(h, key), CompletedOf(h, key), token);
      } else {
        GoesOut(source, AdmittedOf(h, key), CompletedOf(h, key), token);
      }
    }
    hide Coherent, DoAdmit, NextToken, InFlight;
  }

  lemma QueuesUp(source: SourceRunState, admitted: seq<int>, completed: set<int>, token: int)
    requires Coherent(source, admitted, completed) && InFlight(source) && source.queueRequested.value < token
    ensures Coherent(source.(queueRequested := Some(token)), admitted, completed)
  {
  }

  function Count(emitted: seq<Emission>, key: Key): nat {
    if emitted == [] then 0
    else Count(emitted[..|emitted| - 1], key) + if emitted[|emitted| - 1].key == key then 1 else 0
  }

  lemma Completes(source: SourceRunState, admitted: seq<int>, completed: set<int>, token: int, outcome: Outcome)
    requires Coherent(source, admitted, completed) && source.lastRequested == Some(token)
    ensures Coherent(CompleteRequest(source, token, outcome), admitted, completed + {token})
  {
    assert admitted == admitted[..|admitted| - 1] + [token];
  }

  lemma CompleteKeeps(h: History, key: Key, token: int, outcome: Outcome)
    requires Invariant(h)
    ensures Invariant(DoComplete(h, key, token, outcome))
  {
    hide Coherent;
    var h' := DoComplete(h, key, token, outcome);
    forall other
      ensures SourceInvariant(h', other)
    {
      assert SourceInvariant(h, other);
      if other == key && IsCurrent(h.state, key, token) {
        Completes(SourceOf(h.state, key), AdmittedOf(h, key), CompletedOf(h, key), token, outcome);
      }
    }
  }

  lemma PendingBeyondLast(source: SourceRunState, admitted: seq<int>, completed: set<int>)
    requires Coherent(source, admitted, completed) && HasPendingRequest(source)
    ensures source.lastRequested.Some? && source.lastRequested.value < source.queueRequested.value
  {
  }

  /** The promoted source goes out under the token that was pending. */
  lemma PromotedGoesOut(h: History, key: Key, pending: int, now: int)
    requires h.state.promotions == map[key := pending] && h.state.settled == {}
    requires SourceInvariant(h, key) && !InFlight(SourceOf(h.state, key))
    requires SourceOf(h.state, key).queueRequested == Some(pending) && HasPendingRequest(SourceOf(h.state, key))
    ensures SourceInvariant(DoAdmit(h, key, now), key)
        && AdmittedOf(DoAdmit(h, key, now), key) == AdmittedOf(h, key) + [pending]
  {
    hide Coherent, DoAdmit;
    PendingBeyondLast(SourceOf(h.state, key), AdmittedOf(h, key), CompletedOf(h, key));
    AdmitEffect(h, key, now);
    AdmitFrame(h, key, now);
    GoesOut(SourceOf(h.state, key), AdmittedOf(h, key), CompletedOf(h, key), pending);
  }

  lemma FrameKeeps(h: History, key: Key, now: int, other: Key)
    requires key != other && SourceInvariant(h, other)
    ensures SourceInvariant(DoAdmit(h, key, now), other)
  {
    hide Coherent, DoAdmit;
    AdmitFrame(h, key, now);
  }

  /** While `key` is being promoted under `pending`: its first re-emission goes out under that token. */
  lemma {:induction false} PromotionAdmits(h: History, key: Key, pending: int, emitted: seq<Emission>, other: Key)
    requires h.state.promotions == map[key := pending] && h.state.settled == {}
    requires SourceInvariant(h, other) && SourceInvariant(h, key)
    requires !InFlight(SourceOf(h.state, key))
    requires SourceOf(h.state, key).queueRequested == Some(pending) && HasPendingRequest(SourceOf(h.state, key))
    requires Count(emitted, key) <= 1
    ensures var h' := DoAdmitAll(h, emitted);
            && h'.state.promotions == h.state.promotions && h'.state.settled == h.state.settled
            && SourceInvariant(h', other)
            && (Count(emitted, key) == 0 ==> SourceOf(h'.state, key) == SourceOf(h.state, key))
            && AdmittedOf(h', key) == AdmittedOf(h, key) + (if Count(emitted, key) == 1 then [pending] else [])
  {
    hide SourceInvariant, InFlight, HasPendingRequest, DoAdmit, SourceOf, AdmittedOf;
    if emitted != [] {
      var rest, e := emitted[..|emitted| - 1], emitted[|emitted| - 1];
      PromotionAdmits(h, key, pending, rest, other);
      PromotionAdmits(h, key, pending, rest, key);
      var before := DoAdmitAll(h, rest);
      AdmitFrame(before, e.key, e.now);
      if e.key == key {
        PromotedGoesOut(before, key, pending, e.now);
        if other != key {
          FrameKeeps(before, key, e.now, other);
        }
      } else {
        AdmitKeeps(before, e.key, e.now, other);
      }
    }
  }

  /** With nothing pending the settled source is silent for the whole activation. */
  lemma {:induction false} SettledIsSilent(h: History, key: Key, emitted: seq<Emission>, other: Key)
    requires h.state.promotions == map[] && h.state.settled == {key}
    requires SourceInvariant(h, other)
    ensures var h' := DoAdmitAll(h, emitted);
            && h'.state.promotions == map[] && h'.state.settled == {key}
            && SourceInvariant(h', other)
            && SourceOf(h'.state, key) == SourceOf(h.state, key) && AdmittedOf(h', key) == AdmittedOf(h, key)
  {
    if emitted != [] {
      var rest, e := emitted[..|emitted| - 1], emitted[|emitted| - 1];
      SettledIsSilent(h, key, rest, other);
      AdmitKeeps(DoAdmitAll(h, rest), e.key, e.now, other);
    }
  }

  /** A promoted source is re-emitted at most once by the activation its completion causes. */
  predicate OneReemission(h: History, op: Operation) {
    op.Settled? && Complete(h.state, op.key, op.token, op.outcome).1.Some? ==> Count(op.emitted, op.key) <= 1
  }

  lemma PromoteKeeps(h: History, key: Key, pending: Option<int>, emitted: seq<Emission>)
    requires Invariant(h)
    requires pending.Some? ==>
      && !InFlight(SourceOf(h.state, key)) && HasPendingRequest(SourceOf(h.state, key))
      && SourceOf(h.state, key).queueRequested == pending && Count(emitted, key) <= 1
    ensures Invariant(DoPromote(h, key, pending, emitted))
  {
    var begun := h.(state := BeginPromotion(h.state, key, pending));
    var after := DoAdmitAll(begun, emitted);
    var h' := DoPromote(h, key, pending, emitted);
    hide Coherent;
    assert SourceInvariant(h, key);
    forall other
      ensures SourceInvariant(h', other) && after.state.promotions == begun.state.promotions
          && after.state.settled == begun.state.settled
    {
      assert SourceInvariant(h, other);
      assert SourceInvariant(begun, other) && SourceInvariant(begun, key);
      if pending.Some? {
        PromotionAdmits(begun, key, pending.value, emitted, other);
      } else {
        SettledIsSilent(begun, key, emitted, other);
      }
      assert SourceInvariant(after, other);
    }
    assert SourceInvariant(h', key);
    assert h'.state.promotions == map[] && h'.state.settled == {};
  }

  lemma PerformKeeps(h: History, op: Operation)
    requires Invariant(h) && OneReemission(h, op)
    ensures Invariant(Perform(h, op))
  {
    match op
    case Request(key, now) =>
      forall other
        ensures SourceInvariant(Perform(h, op), other)
      {
        AdmitKeeps(h, key, now, other);
      }
    case Settled(key, token, outcome, guarded, emitted) =>
      if !guarded || IsCurrent(h.state, key, token) {
        CompleteKeeps(h, key, token, outcome);
        PromoteKeeps(DoComplete(h, key, token, outcome), key, Complete(h.state, key, token, outcome).1, emitted);
      }
  }

  ghost predicate AllOneReemission(ops: seq<Operation>) {
    forall i :: 0 <= i < |ops| ==> OneReemission(After(ops[..i]), ops[i])
  }

  lemma {:induction false} HistoryKeeps(ops: seq<Operation>)
    requires AllOneReemission(ops)
    ensures Invariant(After(ops))
  {
    if ops != [] {
      var rest := ops[..|ops| - 1];
      forall i | 0 <= i < |rest|
        ensures OneReemission(After(rest[..i]), rest[i])
      {
        assert rest[..i] == ops[..i];
      }
      HistoryKeeps(rest);
      assert OneReemission(After(ops[..|ops| - 1]), ops[|ops| - 1]);
      PerformKeeps(After(rest), ops[|ops| - 1]);
    }
  }

  /** In every reachable state the tokens are ordered, admitted tokens strictly increase, and the number of
      admitted tokens less the number of completed ones is 0 or 1: 1 exactly while the source is in flight. */
  lemma SingleFlight(ops: seq<Operation>, key: Key)
    requires AllOneReemission(ops)
    ensures var h := After(ops);
            var source := SourceOf(h.state, key);
            && SourceInvariant(h, key)
            && Increasing(AdmittedOf(h, key))
            && CompletedOf(h, key) <= ToSet(AdmittedOf(h, key))
            && |AdmittedOf(h, key)| == |CompletedOf(h, key)| + if InFlight(source) then 1 else 0
  {
    HistoryKeeps(ops);
    var h := After(ops);
    assert SourceInvariant(h, key);
    hide After;
    CoherentCounts(SourceOf(h.state, key), AdmittedOf(h, key), CompletedOf(h, key));
  }

  lemma CoherentCounts(source: SourceRunState, admitted: seq<int>, completed: set<int>)
    requires Coherent(source, admitted, completed)
    ensures completed <= ToSet(admitted)
    ensures |admitted| == |completed| + if InFlight(source) then 1 else 0
  {
    IncreasingCardinality(admitted);
    if InFlight(source) {
      assert admitted == admitted[..|admitted| - 1] + [admitted[|admitted| - 1]];
      IncreasingCardinality(admitted[..|admitted| - 1]);
    }
  }

  lemma {:induction false} IncreasingCardinality(tokens: seq<int>)
    requires Increasing(tokens)
    ensures |ToSet(tokens)| == |tokens|
  {
    if tokens != [] {
      var rest, last := tokens[..|tokens| - 1], tokens[|tokens| - 1];
      IncreasingCardinality(rest);
      assert tokens == rest + [last];
      assert ToSet(tokens) == ToSet(rest) + {last};
      assert forall i :: 0 <= i < |rest| ==> rest[i] < last;
    }
  }

  // ---- coalescing ------------------------------------------------------------------------------

  function PerformAll(h: History, ops: seq<Operation>): History {
    if ops == [] then h else Perform(PerformAll(h, ops[..|ops| - 1]), ops[|ops| - 1])
  }

  function Nows(emitted: seq<Emission>, key: Key): seq<int> {
    if emitted == [] then []
    else
      Nows(emitted[..|emitted| - 1], key) + if emitted[|emitted| - 1].key == key then [emitted[|emitted| - 1].now]
          else []
  }

  /** The clock at each request for `key` an operation makes: its own, or those of the graph it activates.  The
      settled source itself is silent. */
  function Asks(h: History, op: Operation, key: Key): seq<int> {
    match op
    case Request(other, now) => if other == key then [now] else []
    case Settled(other, token, outcome, guarded, emitted) =>
      if other == key || (guarded && !IsCurrent(h.state, other, token)) then [] else Nows(emitted, key)
  }

  function AllAsks(h: History, ops: seq<Operation>, key: Key): seq<int> {
    if ops == [] then []
    else AllAsks(h, ops[..|ops| - 1], key) + Asks(PerformAll(h, ops[..|ops| - 1]), ops[|ops| - 1], key)
  }

  /** The queued token after requests at these clocks. */
  function Queue(queued: int, clock: seq<int>): int {
    if clock == [] then queued else NextToken(Some(Queue(queued, clock[..|clock| - 1])), clock[|clock| - 1])
  }

  lemma {:induction false} QueueRises(queued: int, clock: seq<int>)
    ensures Queue(queued, clock) >= queued && (clock != [] ==> Queue(queued, clock) > queued)
    ensures forall now :: now in clock ==> now <= Queue(queued, clock)
  {
    if clock != [] {
      QueueRises(queued, clock[..|clock| - 1]);
      assert clock == clock[..|clock| - 1] + [clock[|clock| - 1]];
    }
  }

  lemma QueueOne(queued: int, now: int)
    ensures Queue(queued, [now]) == NextToken(Some(queued), now)
  {
    assert [now][..0] == [] && Queue(queued, []) == queued;
  }

  lemma {:induction false} QueueConcat(queued: int, a: seq<int>, b: seq<int>)
    ensures Queue(queued, a + b) == Queue(Queue(queued, a), b)
  {
    if b == [] {
      assert a + b == a;
    } else {
      QueueConcat(queued, a, b[..|b| - 1]);
      assert (a + b)[..|a + b| - 1] == a + b[..|b| - 1];
    }
  }

  /** `key` is in flight under `token`, and so it stays: only its queued token may differ. */
  ghost predicate OnlyQueues(h: History, h': History, key: Key, clock: seq<int>)
    requires SourceOf(h.state, key).queueRequested.Some?
  {
    && AdmittedOf(h', key) == AdmittedOf(h, key) && CompletedOf(h', key) == CompletedOf(h, key)
    && SourceOf(h'.state, key)
       == SourceOf(h.state, key).(queueRequested := Some(Queue(SourceOf(h.state, key).queueRequested.value, clock)))
  }

  ghost predicate Flying(h: History, key: Key, token: int) {
    && InFlight(SourceOf(h.state, key)) && SourceOf(h.state, key).lastRequested == Some(token)
    && SourceOf(h.state, key).queueRequested.Some?
  }

  lemma OnlyQueuesComposes(a: History, b: History, c: History, key: Key, token: int, first: seq<int>, later: seq<int>)
    requires Flying(a, key, token) && OnlyQueues(a, b, key, first)
    requires OnlyQueues(b, c, key, later)
    ensures Flying(b, key, token) && OnlyQueues(a, c, key, first + later)
  {
    QueueConcat(SourceOf(a.state, key).queueRequested.value, first, later);
  }

  lemma {:induction false} EmissionsQueue(h: History, key: Key, token: int, emitted: seq<Emission>)
    requires Flying(h, key, token) && key !in h.state.promotions && key !in h.state.settled
    ensures var h' := DoAdmitAll(h, emitted);
            && h'.state.promotions == h.state.promotions && h'.state.settled == h.state.settled
            && OnlyQueues(h, h', key, Nows(emitted, key))
  {
    hide DoAdmit;
    if emitted != [] {
      var rest, e := emitted[..|emitted| - 1], emitted[|emitted| - 1];
      EmissionsQueue(h, key, token, rest);
      AdmitFrame(DoAdmitAll(h, rest), e.key, e.now);
      AdmitEffect(DoAdmitAll(h, rest), e.key, e.now);
      var queued := SourceOf(h.state, key).queueRequested.value;
      QueueConcat(queued, Nows(rest, key), [e.now]);
      QueueOne(Queue(queued, Nows(rest, key)), e.now);
      assert e.key != key ==> Nows(emitted, key) == Nows(rest, key);
    }
  }

  /** No operation but the settlement of `token` admits `key` or takes it out of flight. */
  lemma OtherOperationQueues(h: History, key: Key, token: int, op: Operation)
    requires Quiet(h.state) && Flying(h, key, token)
    requires !(op.Settled? && op.key == key && op.token == token)
    ensures var h' := Perform(h, op);
            Quiet(h'.state) && OnlyQueues(h, h', key, Asks(h, op, key))
  {
    hide DoAdmit, DoAdmitAll, DoComplete, Complete;
    match op
    case Request(other, now) =>
      AdmitFrame(h, other, now);
      AdmitEffect(h, other, now);
      QueueOne(SourceOf(h.state, key).queueRequested.value, now);
    case Settled(other, t, outcome, guarded, emitted) =>
      if !guarded || IsCurrent(h.state, other, t) {
        OtherCompletion(h, other, t, outcome, key, token);
        OtherPromotion(DoComplete(h, other, t, outcome), other, Complete(h.state, other, t, outcome).1, key, token,
            emitted);
      }
  }

  lemma OtherCompletion(h: History, other: Key, t: int, outcome: Outcome, key: Key, token: int)
    requires Quiet(h.state) && Flying(h, key, token) && !(other == key && t == token)
    ensures var completed := DoComplete(h, other, t, outcome);
            && Quiet(completed.state) && SourceOf(completed.state, key) == SourceOf(h.state, key)
            && AdmittedOf(completed, key) == AdmittedOf(h, key) && CompletedOf(completed, key) == CompletedOf(h, key)
            && (other == key ==> Complete(h.state, other, t, outcome).1.None?)
  {
  }

  lemma OtherPromotion(h: History, other: Key, pending: Option<int>, key: Key, token: int, emitted: seq<Emission>)
    requires Quiet(h.state) && Flying(h, key, token) && (other == key ==> pending.None?)
    ensures var h' := DoPromote(h, other, pending, emitted);
            Quiet(h'.state) && OnlyQueues(h, h', key, if other == key then [] else Nows(emitted, key))
  {
    hide DoAdmitAll;
    var begun := h.(state := BeginPromotion(h.state, other, pending));
    if other == key {
      Silent(begun, key, emitted);
    } else {
      EmissionsQueue(begun, key, token, emitted);
    }
  }

  lemma {:induction false} Silent(h: History, key: Key, emitted: seq<Emission>)
    requires h.state.promotions == map[] && h.state.settled == {key}
    ensures var h' := DoAdmitAll(h, emitted);
            && h'.state.promotions == map[] && h'.state.settled == {key}
            && SourceOf(h'.state, key) == SourceOf(h.state, key)
            && AdmittedOf(h', key) == AdmittedOf(h, key) && CompletedOf(h', key) == CompletedOf(h, key)
  {
    hide DoAdmit;
    if emitted != [] {
      var rest, e := emitted[..|emitted| - 1], emitted[|emitted| - 1];
      Silent(h, key, rest);
      AdmitFrame(DoAdmitAll(h, rest), e.key, e.now);
      AdmitEffect(DoAdmitAll(h, rest), e.key, e.now);
    }
  }

  lemma {:induction false} OtherOperationsQueue(h: History, key: Key, token: int, ops: seq<Operation>)
    requires Quiet(h.state) && Flying(h, key, token)
    requires forall op :: op in ops ==> !(op.Settled? && op.key == key && op.token == token)
    ensures var h' := PerformAll(h, ops);
            Quiet(h'.state) && Flying(h', key, token) && OnlyQueues(h, h', key, AllAsks(h, ops, key))
  {
    hide Perform, Asks;
    if ops != [] {
      var rest, op := ops[..|ops| - 1], ops[|ops| - 1];
      OtherOperationsQueue(h, key, token, rest);
      var before := PerformAll(h, rest);
      OtherOperationQueues(before, key, token, op);
      OnlyQueuesComposes(h, before, Perform(before, op), key, token, AllAsks(h, rest, key), Asks(before, op, key));
    }
  }

  /** Every emission of a source under promotion goes out, and always under the same token. */
  lemma {:induction false} EachReemissionAdmits(h: History, key: Key, pending: int, emitted: seq<Emission>)
    requires h.state.promotions == map[key := pending] && h.state.settled == {}
    ensures var h' := DoAdmitAll(h, emitted);
            && h'.state.promotions == h.state.promotions && h'.state.settled == {}
            && AdmittedOf(h', key) == AdmittedOf(h, key) + seq(Count(emitted, key), _ => pending)
  {
    if emitted != [] {
      EachReemissionAdmits(h, key, pending, emitted[..|emitted| - 1]);
    }
  }

  /** A request is in flight under `token`.  Whatever happens before its completion, to other sources or this
      one, admits nothing of this source.  The completion then admits the requests made meanwhile as one: under
      the newest queued token, which is beyond `token` and all their clocks, as often as the graph re-emits the
      source; and nothing if none was made and none was pending. */
  lemma RequestsCoalesce(
    h: History, ops: seq<Operation>, key: Key, token: int, outcome: Outcome, guarded: bool, emitted: seq<Emission>)
    requires Quiet(h.state) && Flying(h, key, token) && token <= SourceOf(h.state, key).queueRequested.value
    requires forall op :: op in ops ==> !(op.Settled? && op.key == key && op.token == token)
    ensures var meanwhile := PerformAll(h, ops);
            var done := Perform(meanwhile, Settled(key, token, outcome, guarded, emitted));
            var asked := AllAsks(h, ops, key);
            var newest := Queue(SourceOf(h.state, key).queueRequested.value, asked);
            && AdmittedOf(meanwhile, key) == AdmittedOf(h, key) && CompletedOf(meanwhile, key) == CompletedOf(h, key)
            && CompletedOf(done, key) == CompletedOf(h, key) + {token}
            && AdmittedOf(done, key)
               == AdmittedOf(h, key) + (if newest != token then seq(Count(emitted, key), _ => newest) else [])
            && (asked != [] ==> newest > token) && (forall now :: now in asked ==> now <= newest)
  {
    OtherOperationsQueue(h, key, token, ops);
    QueueRises(SourceOf(h.state, key).queueRequested.value, AllAsks(h, ops, key));
    CompletionAdmits(PerformAll(h, ops), key, token, outcome, guarded, emitted);
  }

  lemma {:induction false} CompletedFrame(h: History, emitted: seq<Emission>)
    ensures DoAdmitAll(h, emitted).completed == h.completed
  {
    hide DoAdmit;
    if emitted != [] {
      CompletedFrame(h, emitted[..|emitted| - 1]);
      var e := emitted[|emitted| - 1];
      AdmitFrame(DoAdmitAll(h, emitted[..|emitted| - 1]), e.key, e.now);
    }
  }

  lemma CompletionAdmits(h: History, key: Key, token: int, outcome: Outcome, guarded: bool, emitted: seq<Emission>)
    requires Quiet(h.state) && Flying(h, key, token)
    ensures var done := Perform(h, Settled(key, token, outcome, guarded, emitted));
            var queued := SourceOf(h.state, key).queueRequested.value;
            && CompletedOf(done, key) == CompletedOf(h, key) + {token}
            && AdmittedOf(done, key)
               == AdmittedOf(h, key) + (if queued != token then seq(Count(emitted, key), _ => queued) else [])
  {
    hide DoAdmit;
    var completed, pending := DoComplete(h, key, token, outcome), Complete(h.state, key, token, outcome).1;
    var begun := completed.(state := BeginPromotion(completed.state, key, pending));
    CompletedFrame(begun, emitted);
    if pending.Some? {
      EachReemissionAdmits(begun, key, pending.value, emitted);
    } else {
      Silent(begun, key, emitted);
    }
  }

  // ---- what a request and a settlement record --------------------------------------------------------

  /** The next token is the least one beyond the previous that the clock has not passed. */
  lemma NextTokenIsLeast(previous: Option<int>, now: int, other: int)
    ensures var token := NextToken(previous, now);
            && token >= now && (previous.Some? ==> token > previous.value)
            && (other >= now && (previous.Some? ==> other > previous.value) ==> token <= other)
  {
  }

  /** A request outside any promotion goes out at once if its source is idle, and is queued if it is in flight:
      under the next token either way. */
  lemma RequestRecorded(h: History, key: Key, now: int)
    requires Quiet(h.state)
    ensures var source, after := SourceOf(h.state, key), Perform(h, Request(key, now));
            var token := NextToken(source.queueRequested, now);
            && AdmittedOf(after, key) == AdmittedOf(h, key) + (if InFlight(source) then [] else [token])
            && SourceOf(after.state, key)
               == source.(queueRequested := Some(token), lastRequested := if InFlight(source) then source.lastRequested
                   else Some(token))
            && forall other :: other != key ==> SourceOf(after.state, other) == SourceOf(h.state, other)
  {
  }

  /** The newest settlement of `key` that was current when it came. */
  function LastSettled(ops: seq<Operation>, key: Key): (Option<int>, Option<Outcome>) {
    if ops == [] then (None, None)
    else
      var rest, op := ops[..|ops| - 1], ops[|ops| - 1];
      if op.Settled? && op.key == key && SourceOf(After(rest).state, key).lastRequested == Some(op.token)
      then (Some(op.token), Some(op.outcome))
      else LastSettled(rest, key)
  }

  ghost predicate SameRecord(a: History, b: History, key: Key) {
    && SourceOf(b.state, key).lastCompleted == SourceOf(a.state, key).lastCompleted
    && SourceOf(b.state, key).lastStatus == SourceOf(a.state, key).lastStatus
  }

  lemma {:induction false} AdmissionsKeepRecord(h: History, emitted: seq<Emission>, key: Key)
    ensures SameRecord(h, DoAdmitAll(h, emitted), key)
  {
    if emitted != [] {
      var rest, e := emitted[..|emitted| - 1], emitted[|emitted| - 1];
      AdmissionsKeepRecord(h, rest, key);
      AdmissionKeepsRecord(DoAdmitAll(h, rest), e.key, e.now, key);
      hide DoAdmit;
    }
  }

  lemma AdmissionKeepsRecord(h: History, key: Key, now: int, other: Key)
    ensures SameRecord(h, DoAdmit(h, key, now), other)
  {
  }

  lemma PromotionKeepsRecord(h: History, key: Key, pending: Option<int>, emitted: seq<Emission>, other: Key)
    ensures SameRecord(h, DoPromote(h, key, pending, emitted), other)
  {
    hide DoAdmitAll;
    AdmissionsKeepRecord(h.(state := BeginPromotion(h.state, key, pending)), emitted, other);
  }

  /** In every history the run state of a source holds the token and the outcome of its newest settlement under
      the token then current, success or failure with its detail. */
  lemma {:induction false} OutcomeRecorded(ops: seq<Operation>, key: Key)
    ensures var source := SourceOf(After(ops).state, key);
            (source.lastCompleted, source.lastStatus) == LastSettled(ops, key)
  {
    if ops != [] {
      var rest, op := ops[..|ops| - 1], ops[|ops| - 1];
      OutcomeRecorded(rest, key);
      var h := After(rest);
      if op.Request? {
        AdmissionKeepsRecord(h, op.key, op.now, key);
      } else if !op.guarded || IsCurrent(h.state, op.key, op.token) {
        var completed := DoComplete(h, op.key, op.token, op.outcome);
        var pending := Complete(h.state, op.key, op.token, op.outcome).1;
        PromotionKeepsRecord(completed, op.key, pending, op.emitted, key);
        CompletionRecords(h, op.key, op.token, op.outcome, key);
      }
      hide After, DoPromote, DoComplete;
    }
  }

  lemma CompletionRecords(h: History, key: Key, token: int, outcome: Outcome, other: Key)
    ensures var completed := DoComplete(h, key, token, outcome);
            if other == key && SourceOf(h.state, key).lastRequested == Some(token)
            then SourceOf(completed.state, key).lastCompleted == Some(token)
                 && SourceOf(completed.state, key).lastStatus == Some(outcome)
            else SameRecord(h, completed, other)
  {
  }

  // ---- stale settlements -----------------------------------------------------------------------

  predicate Stale(h: History, op: Operation) {
    op.Settled? && op.guarded && SourceOf(h.state, op.key).lastRequested != Some(op.token)
  }

  /** The history without the guarded settlements that came under another token than the current one. */
  function WithoutStale(ops: seq<Operation>): seq<Operation> {
    if ops == [] then []
    else
      var rest, op := ops[..|ops| - 1], ops[|ops| - 1];
      WithoutStale(rest) + if Stale(After(rest), op) then [] else [op]
  }

  /** A history and what is left of it without its stale settlements end alike. */
  lemma {:induction false} StaleSettlementsErased(ops: seq<Operation>)
    ensures After(WithoutStale(ops)) == After(ops)
  {
    if ops != [] {
      var rest, op := ops[..|ops| - 1], ops[|ops| - 1];
      StaleSettlementsErased(rest);
      if Stale(After(rest), op) {
        assert WithoutStale(ops) == WithoutStale(rest);
      } else {
        assert WithoutStale(ops)[..|WithoutStale(rest)|] == WithoutStale(rest);
      }
    }
  }

  // ---- why one re-emission ----------------------------------------------------------------------

  /** A completion that leaves a request pending keeps the admitted tokens strictly increasing if and only if
      its activation re-emits the source at most once. */
  lemma IncreasingIffOneReemission(h: History, key: Key, token: int, outcome: Outcome, emitted: seq<Emission>)
    requires Invariant(h) && IsCurrent(h.state, key, token)
    requires Complete(h.state, key, token, outcome).1.Some?
    ensures Increasing(AdmittedOf(Perform(h, Settled(key, token, outcome, true, emitted)), key))
        <==> Count(emitted, key) <= 1
  {
    var op := Settled(key, token, outcome, true, emitted);
    var h' := Perform(h, op);
    if Count(emitted, key) <= 1 {
      PerformKeeps(h, op);
      assert SourceInvariant(h', key);
    } else {
      var completed := DoComplete(h, key, token, outcome);
      var pending := Complete(h.state, key, token, outcome).1;
      EachReemissionAdmits(completed.(state := BeginPromotion(completed.state, key, pending)), key, pending.value,
          emitted);
      var n := |AdmittedOf(h, key)|;
      assert AdmittedOf(h', key)[n] == AdmittedOf(h', key)[n + 1];
    }
  }
}
