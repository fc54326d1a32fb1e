/** Over the whole life of a request its adapter runs a bounded number of times, and the bound is reached
    (face/src/services/service-host.ts:676-774, 784-858). */
module ServiceHostTheorems {
  import opened Json
  import opened ServiceHosts

  function Max(a: int, b: int): int {
    if a > b then a else b
  }

  /** How often the queue executes a request of a mode. */
  function Executions(p: Policy, mode: Mode): nat {
    if mode.Queued? then Max(1, p.maxAttempts) else 1
  }

  /** How many guardrail retries an operation has in all its executions together. */
  function Retries(p: Policy, o: Operation): nat {
    Max(0, Limit(p, o) - 1)
  }

  function Bound(p: Policy, r: Record): nat {
    Executions(p, r.mode) + Retries(p, r.operation)
  }

  predicate SameKind(a: Record, b: Record) {
    a.operation == b.operation && a.mode == b.mode
  }

  /** Nothing but the request's own entries changed. */
  ghost predicate OnlyThis(before: Host, after: Host, id: nat) {
    && after.pending == before.pending && after.nextId == before.nextId
    && after.store.Keys == before.store.Keys + {id}
    && (forall other :: other in before.store && other != id ==> after.store[other] == before.store[other])
    && (forall other :: other != id ==> RunsOf(after, other) == RunsOf(before, other))
    && (forall other :: other in after.runs ==> other in before.runs || other == id)
    && (id in before.store && id in after.store ==> SameKind(before.store[id], after.store[id]))
  }

  lemma OnlyThisComposes(a: Host, b: Host, c: Host, id: nat)
    requires OnlyThis(a, b, id) && OnlyThis(b, c, id) && id in a.store
    ensures OnlyThis(a, c, id)
  {
    hide RunsOf;
  }

  lemma PutIsOnlyThis(h: Host, id: nat, r: Record)
    requires id in h.store && SameKind(h.store[id], r)
    ensures OnlyThis(h, Put(Tick(h), id, r), id) && OnlyThis(h, Put(h, id, r), id) && OnlyThis(h, Tick(h), id)
  {
  }

  /** Runs are paid for by executions and guardrail retries, as the record counts them. */
  predicate Paid(p: Policy, r: Record, runs: nat) {
    runs <= r.attempts + r.guardrailAttempts && r.guardrailAttempts <= Retries(p, r.operation)
  }

  lemma KindKept(a: Host, b: Host, id: nat)
    requires id in a.store && OnlyThis(a, b, id)
    ensures id in b.store && SameKind(a.store[id], b.store[id])
  {
  }

  lemma AttemptRunsOnce(p: Policy, h: Host, id: nat, r: Record)
    requires id in h.store && SameKind(h.store[id], r) && !r.status.Accepted?
    ensures var (h', a) := ExecuteAdapterAttempt(p, h, id, r);
            && OnlyThis(h, h', id)
            && RunsOf(h, id) <= RunsOf(h', id) <= RunsOf(h, id) + 1
            && (a.NoResult? ==> SameKind(a.record, r) && !a.record.status.Accepted?)
  {
  }

  /** A guardrail retry is counted in the record before the adapter runs again, and an error carries that
      record; so whichever way validation ends, the runs are paid for. */
  lemma {:induction false} ValidationPays(p: Policy, h: Host, id: nat, r: Record)
    requires id in h.store && SameKind(h.store[id], r) && Paid(p, r, RunsOf(h, id)) && !r.status.Accepted?
    ensures var (h', done) := ValidateResponse(p, h, id, r);
            && OnlyThis(h, h', id)
            && RunsOf(h', id) <= r.attempts + Retries(p, r.operation)
            && (done == Raised(None) ==> RunsOf(h', id) == RunsOf(h, id))
            && (done.Raised? && done.carried.Some? ==>
                  SameKind(done.carried.value, r) && done.carried.value.attempts == r.attempts
                      && Paid(p, done.carried.value, RunsOf(h', id)))
            && (done.Returned? ==> SameKind(done.record, r) && !done.record.status.Accepted?)
    decreases Limit(p, r.operation) - r.guardrailAttempts
  {
    hide ExecuteAdapterAttempt, OnlyThis;
    var attempts := r.guardrailAttempts + 1;
    if !p.world.fails(h.clock) && !p.world.passes(id, RunsOf(h, id)) && r.operation.retries
        && attempts < Limit(p, r.operation)
       && p.world.decide(h.clock).Authorized? {
      var retrying := r.(guardrailAttempts := attempts);
      var started := Put(Tick(h), id, retrying);
      PutIsOnlyThis(h, id, retrying);
      AttemptRunsOnce(p, started, id, retrying);
      var (h', next) := ExecuteAdapterAttempt(p, started, id, retrying);
      OnlyThisComposes(h, started, h', id);
      if next.WithResult? {
        KindKept(started, h', id);
        ValidationPays(p, h', id, retrying);
        OnlyThisComposes(h, h', ValidateResponse(p, h', id, retrying).0, id);
      }
    } else {
      PutIsOnlyThis(h, id, r);
      forall status, n: nat
        ensures OnlyThis(h, Put(Tick(h), id, r.(status := status, guardrailAttempts := n)), id)
      {
        PutIsOnlyThis(h, id, r.(status := status, guardrailAttempts := n));
      }
    }
  }

  lemma TryPays(p: Policy, h: Host, id: nat, active: Record, bound: bool)
    requires id in h.store && SameKind(h.store[id], active) && active.status.Running?
    requires active.attempts > 0 && Paid(p, active.(attempts := active.attempts - 1), RunsOf(h, id))
    ensures var (h', done) := TryExecution(p, h, id, active, bound);
            && OnlyThis(h, h', id)
            && RunsOf(h', id) <= active.attempts + Retries(p, active.operation)
            && (done == Raised(None) ==> Paid(p, active, RunsOf(h', id)))
            && (done.Raised? && done.carried.Some? ==>
                  SameKind(done.carried.value, active) && done.carried.value.attempts == active.attempts
                  && Paid(p, done.carried.value, RunsOf(h', id)))
            && (done.Returned? ==> SameKind(done.record, active) && !done.record.status.Accepted?)
  {
    hide ExecuteAdapterAttempt, ValidateResponse, OnlyThis;
    PutIsOnlyThis(h, id, active);
    PutIsOnlyThis(h, id, active.(status := Rejected));
    PutIsOnlyThis(h, id, active.(status := ConfirmationRequired));
    if (bound || !p.world.fails(h.clock)) && p.world.decide(h.clock).Authorized? {
      var started := Put(Tick(h), id, active);
      AttemptRunsOnce(p, started, id, active);
      var (h', attempt) := ExecuteAdapterAttempt(p, started, id, active);
      OnlyThisComposes(h, started, h', id);
      if attempt.WithResult? {
        KindKept(started, h', id);
        ValidationPays(p, h', id, active);
        OnlyThisComposes(h, h', ValidateResponse(p, h', id, active).0, id);
      }
    }
  }

  // ---- every host a sequence of calls can reach --------------------------------------------------

  /** A queued request still to be executed has executions left, and its runs are paid for. */
  ghost predicate Open(p: Policy, h: Host, id: nat) {
    && id in h.store && h.store[id].mode.Queued?
    && h.store[id].attempts < Executions(p, Queued)
    && Paid(p, h.store[id], RunsOf(h, id))
  }

  ghost predicate Accounted(p: Policy, h: Host) {
    && (forall i, j :: 0 <= i < j < |h.pending| ==> h.pending[i].id != h.pending[j].id)
    && (forall e :: e in h.pending ==> Open(p, h, e.id))
    && (forall id :: id in h.store ==> id < h.nextId && RunsOf(h, id) <= Bound(p, h.store[id]))
    && (forall id :: id in h.runs ==> id in h.store)
  }

  /** What one execution leaves: the request is queued again only while it has executions left. */
  ghost predicate Executed(p: Policy, h: Host, end: Host, id: nat) {
    && id in h.store && OnlyThis(h, end.(pending := h.pending), id)
    && RunsOf(end, id) <= Bound(p, h.store[id])
    && (end.pending != h.pending ==> |end.pending| == |h.pending| + 1 && end.pending[..|h.pending|] == h.pending
                                     && end.pending[|h.pending|].id == id && Open(p, end, id))
  }

  lemma SameRuns(h: Host, id: nat, r: Record)
    ensures RunsOf(Put(h, id, r), id) == RunsOf(h, id)
    ensures forall pending :: RunsOf(Put(h, id, r).(pending := pending), id) == RunsOf(h, id)
  {
  }

  lemma OnlyThisPending(a: Host, b: Host, id: nat)
    requires OnlyThis(a, b, id)
    ensures a.pending == b.pending
  {
  }

  lemma ExecutionPays(p: Policy, h: Host, id: nat, r: Record, bound: bool)
    requires id in h.store && SameKind(h.store[id], r) && Paid(p, r, RunsOf(h, id))
        && r.attempts < Executions(p, r.mode)
    ensures Executed(p, h, Execute(p, h, id, r, bound).0, id)
  {
    hide TryExecution, OnlyThis, RunsOf;
    var active := r.(status := Running, attempts := r.attempts + 1);
    var started := Put(h, id, active);
    PutIsOnlyThis(h, id, active);
    assert RunsOf(started, id) == RunsOf(h, id) by {
      SameRuns(h, id, active);
    }
    TryPays(p, started, id, active, bound);
    var (h', done) := TryExecution(p, started, id, active, bound);
    var end := Execute(p, h, id, r, bound).0;
    OnlyThisComposes(h, started, h', id);
    KindKept(h, h', id);
    if done.Raised? {
      var failedAttempt := if done.carried.Some? then done.carried.value else active;
      assert Paid(p, failedAttempt, RunsOf(h', id)) && SameKind(failedAttempt, r)
          && failedAttempt.attempts == active.attempts;
      var stored := Put(h', id, end.store[id]);
      PutIsOnlyThis(h', id, end.store[id]);
      SameRuns(h', id, end.store[id]);
      OnlyThisComposes(h, h', stored, id);
      OnlyThisPending(h, h', id);
      assert end.(pending := h.pending) == stored;
      assert end.pending == h.pending || (r.mode.Queued? && Open(p, end, id));
    } else {
      OnlyThisPending(h, h', id);
      assert end.(pending := h.pending) == h' == end;
    }
  }

  lemma ExecutedKeeps(p: Policy, h: Host, end: Host, id: nat)
    requires Accounted(p, h) && Executed(p, h, end, id) && (forall e :: e in h.pending ==> e.id != id)
    ensures Accounted(p, end)
  {
    hide Bound, Paid;
    assert id in end.store && SameKind(h.store[id], end.store[id]) by {
      assert id in end.(pending := h.pending).store;
    }
    SameKindSameBound(p, h.store[id], end.store[id]);
    forall e | e in end.pending
      ensures Open(p, end, e.id)
    {
      if e.id != id {
        assert e in h.pending;
        assert Open(p, h, e.id);
        assert RunsOf(end, e.id) == RunsOf(end.(pending := h.pending), e.id) == RunsOf(h, e.id);
      }
    }
    forall other | other in end.store
      ensures other < end.nextId && RunsOf(end, other) <= Bound(p, end.store[other])
    {
      assert RunsOf(end, other) == RunsOf(end.(pending := h.pending), other);
    }
    forall i, j | 0 <= i < j < |end.pending|
      ensures end.pending[i].id != end.pending[j].id
    {
      assert end.pending[i] == h.pending[i] && (j < |h.pending| ==> end.pending[j] == h.pending[j]);
    }
  }

  lemma SameKindSameBound(p: Policy, a: Record, b: Record)
    requires SameKind(a, b)
    ensures Bound(p, a) == Bound(p, b)
  {
  }

  lemma ExecutionKeeps(p: Policy, h: Host, id: nat, r: Record, bound: bool)
    requires Accounted(p, h) && id in h.store && (forall e :: e in h.pending ==> e.id != id)
    requires SameKind(h.store[id], r) && Paid(p, r, RunsOf(h, id)) && r.attempts < Executions(p, r.mode)
    ensures Accounted(p, Execute(p, h, id, r, bound).0)
  {
    hide Execute, Executed, Accounted;
    ExecutionPays(p, h, id, r, bound);
    ExecutedKeeps(p, h, Execute(p, h, id, r, bound).0, id);
  }

  lemma CreationKeeps(p: Policy, h: Host, o: Operation, mode: Mode)
    requires Accounted(p, h)
    ensures var (h', record) := CreateRecord(p, h, o, mode);
            && Accounted(p, h') && h'.pending == h.pending && h.nextId !in h.store
            && (record.Some? ==> h.nextId in h'.store && h'.store[h.nextId] == record.value
                                 && SameKind(record.value, Record(o, mode, Accepted, 0, 0))
                                 && record.value.attempts == 0 && record.value.guardrailAttempts == 0
                                     && RunsOf(h', h.nextId) == 0)
  {
    var (h', record) := CreateRecord(p, h, o, mode);
    assert h.nextId !in h.store && h.nextId !in h.runs;
    forall e | e in h'.pending
      ensures Open(p, h', e.id)
    {
      assert Open(p, h, e.id);
    }
  }

  datatype Call =
    | EnqueueCall(operation: Operation)
    | InvokeCall(operation: Operation)
    | RunNextCall
    | CancelCall(id: nat)

  function Do(p: Policy, h: Host, call: Call): Host {
    match call
    case EnqueueCall(o) => Enqueue(p, h, o)
    case InvokeCall(o) => Invoke(p, h, o)
    case RunNextCall => RunNext(p, h)
    case CancelCall(id) => Cancel(h, id)
  }

  function DoAll(p: Policy, h: Host, calls: seq<Call>): Host {
    if calls == [] then h else Do(p, DoAll(p, h, calls[..|calls| - 1]), calls[|calls| - 1])
  }

  lemma EnqueueKeeps(p: Policy, h: Host, o: Operation)
    requires Accounted(p, h)
    ensures Accounted(p, Enqueue(p, h, o))
  {
    hide CreateRecord;
    CreationKeeps(p, h, o, Queued);
    var (h', record) := CreateRecord(p, h, o, Queued);
    var end := Enqueue(p, h, o);
    forall e | e in end.pending
      ensures Open(p, end, e.id)
    {
      if e in h.pending {
        assert Open(p, h', e.id);
      }
    }
    forall e | e in h.pending
      ensures e.id != h.nextId
    {
      assert Open(p, h, e.id);
    }
  }

  lemma InvokeKeeps(p: Policy, h: Host, o: Operation)
    requires Accounted(p, h)
    ensures Accounted(p, Invoke(p, h, o))
  {
    hide CreateRecord, Execute, Enqueue;
    if o.mode.Queued? {
      EnqueueKeeps(p, h, o);
    } else {
      CreationKeeps(p, h, o, Immediate);
      var (h', record) := CreateRecord(p, h, o, Immediate);
      forall e | e in h'.pending
        ensures e.id != h.nextId
      {
        assert Open(p, h, e.id);
      }
      if record.Some? && record.value.status.Accepted? {
        ExecutionKeeps(p, h', h.nextId, record.value, false);
      }
    }
  }

  lemma ShiftKeeps(p: Policy, h: Host)
    requires Accounted(p, h) && h.pending != []
    ensures Accounted(p, h.(pending := h.pending[1..])) && Open(p, h, h.pending[0].id)
    ensures forall e :: e in h.pending[1..] ==> e.id != h.pending[0].id
  {
    var rest := h.(pending := h.pending[1..]);
    assert forall i :: 0 <= i < |rest.pending| ==> rest.pending[i] == h.pending[i + 1];
    assert Open(p, h, h.pending[0].id);
    forall e | e in rest.pending
      ensures Open(p, rest, e.id)
    {
      assert Open(p, h, e.id);
    }
  }

  lemma TickKeeps(p: Policy, h: Host)
    requires Accounted(p, h)
    ensures Accounted(p, Tick(h))
  {
    forall e | e in h.pending
      ensures Open(p, Tick(h), e.id)
    {
      assert Open(p, h, e.id);
    }
  }

  /** A record's status plays no part in the accounts of a request no longer queued. */
  lemma StatusKeeps(p: Policy, h: Host, id: nat, status: Status)
    requires Accounted(p, h) && id in h.store
    ensures Accounted(p, Put(h, id, h.store[id].(status := status)))
  {
    var end := Put(h, id, h.store[id].(status := status));
    forall e | e in h.pending
      ensures Open(p, end, e.id)
    {
      assert Open(p, h, e.id);
    }
  }

  lemma RunNextKeeps(p: Policy, h: Host)
    requires Accounted(p, h)
    ensures Accounted(p, RunNext(p, h))
  {
    hide Execute, Accounted;
    if h.pending != [] {
      var pending := h.pending[0];
      var rest := h.(pending := h.pending[1..]);
      ShiftKeeps(p, h);
      TickKeeps(p, rest);
      var record := h.store[pending.id];
      if record.status.Accepted? {
        match p.world.decide(h.clock)
        case Broken =>
        case Refused(confirm) => StatusKeeps(p, Tick(rest), pending.id, StatusOf(confirm));
        case Authorized => ExecutionKeeps(p, Tick(rest), pending.id, record, pending.bound);
      }
    }
  }

  lemma CancelKeeps(p: Policy, h: Host, id: nat)
    requires Accounted(p, h)
    ensures Accounted(p, Cancel(h, id))
  {
    hide Accounted;
    if id in h.store {
      StatusKeeps(p, h, id, Cancelled);
    }
  }

  lemma {:induction false} CallsKeep(p: Policy, calls: seq<Call>)
    ensures Accounted(p, DoAll(p, IDLE, calls))
  {
    hide Accounted, Enqueue, Invoke, RunNext, Cancel;
    if calls == [] {
      NothingToAccount(p);
    } else {
      CallsKeep(p, calls[..|calls| - 1]);
      var h := DoAll(p, IDLE, calls[..|calls| - 1]);
      match calls[|calls| - 1]
      case EnqueueCall(o) => EnqueueKeeps(p, h, o);
      case InvokeCall(o) => InvokeKeeps(p, h, o);
      case RunNextCall => RunNextKeeps(p, h);
      case CancelCall(id) => CancelKeeps(p, h, id);
    }
  }

  lemma NothingToAccount(p: Policy)
    ensures Accounted(p, IDLE)
  {
  }

  /** Whatever is called and whatever the outside answers: max(1, maxAttempts) + max(0, g - 1) runs for a queued
      request, 1 + max(0, g - 1) for an immediate one. */
  lemma AdapterRunsBounded(p: Policy, calls: seq<Call>, id: nat)
    ensures var h := DoAll(p, IDLE, calls);
            && (id !in h.store ==> RunsOf(h, id) == 0)
            && (id in h.store ==>
                  RunsOf(h, id) <= (if h.store[id].mode.Queued? then Max(1, p.maxAttempts) else 1)
                                   + Max(0, Limit(p, h.store[id].operation) - 1))
  {
    CallsKeep(p, calls);
  }

  // ---- the bound is reached ----------------------------------------------------------------------------

  /** No answer passes; the adapter answers until its g-th run and throws from then on. */
  function Stubborn(g: int): World {
    World(_ => Authorized, _ => false, _ => false, (_, run) => if run >= g - 1 then Throws
        else Answers, (_, _) => false)
  }

  /** Within the first execution: every guardrail retry is used before the adapter throws. */
  lemma {:induction false} StubbornValidation(p: Policy, h: Host, id: nat, r: Record, g: int)
    requires p.world == Stubborn(g) && r.operation.retries && Limit(p, r.operation) == g
    requires RunsOf(h, id) == r.guardrailAttempts + 1 < g
    ensures var (h', done) := ValidateResponse(p, h, id, r);
            && h'.pending == h.pending && h'.nextId == h.nextId
            && RunsOf(h', id) == g && done == Raised(Some(r.(guardrailAttempts := g - 1)))
    decreases g - r.guardrailAttempts
  {
    var attempts := r.guardrailAttempts + 1;
    var retrying := r.(guardrailAttempts := attempts);
    var (h', next) := ExecuteAdapterAttempt(p, Put(Tick(h), id, retrying), id, retrying);
    assert RunsOf(h', id) == attempts + 1 && (next.Threw? <==> attempts >= g - 1);
    if attempts < g - 1 {
      StubbornValidation(p, h', id, retrying, g);
    }
  }

  ghost predicate Waiting(p: Policy, h: Host, o: Operation, attempts: nat, runs: nat) {
    && |h.pending| == 1 && h.pending[0].id == 0 && 0 in h.store
    && h.store[0] == Record(o, Queued, Accepted, attempts, if attempts == 0 then 0 else Retries(p, o))
    && RunsOf(h, 0) == runs
  }

  /** One more execution: the first takes all guardrail retries with it, each later one is a single run. */
  lemma StubbornExecution(p: Policy, h: Host, o: Operation, attempts: nat, runs: nat, g: int)
    requires p.world == Stubborn(g) && o.retries && Limit(p, o) == g && g >= 1
    requires Waiting(p, h, o, attempts, runs) && attempts < p.maxAttempts
    requires if attempts == 0 then runs == 0 else runs == attempts + g - 1
    ensures var h' := RunNext(p, h);
            && RunsOf(h', 0) == attempts + g && 0 in h'.store
            && h'.store[0].mode.Queued? && h'.store[0].operation == o
            && (attempts + 1 < p.maxAttempts ==> Waiting(p, h', o, attempts + 1, attempts + g))
  {
    var rest := Tick(h.(pending := h.pending[1..]));
    var record := h.store[0];
    var active := record.(status := Running, attempts := attempts + 1);
    var started := Put(rest, 0, active);
    var before := Put(Tick(started), 0, active);
    var (h', attempt) := ExecuteAdapterAttempt(p, before, 0, active);
    assert RunsOf(h', 0) == runs + 1 && (attempt.Threw? <==> runs >= g - 1);
    if runs < g - 1 {
      StubbornValidation(p, h', 0, active, g);
    }
  }

  lemma StubbornStart(p: Policy, o: Operation, g: int)
    requires p.world == Stubborn(g) && o.mode.Queued?
    ensures Waiting(p, DoAll(p, IDLE, [EnqueueCall(o)] + seq(0, _ => RunNextCall)), o, 0, 0)
  {
    hide RunNext, Invoke, Cancel;
    var calls := [EnqueueCall(o)] + seq(0, _ => RunNextCall);
    assert calls == [EnqueueCall(o)] && calls[..0] == [];
    assert DoAll(p, IDLE, calls) == Do(p, DoAll(p, IDLE, []), EnqueueCall(o));
  }

  lemma OneMoreRun(p: Policy, o: Operation, m: nat)
    ensures DoAll(p, IDLE, [EnqueueCall(o)] + seq(m + 1, _ => RunNextCall))
         == RunNext(p, DoAll(p, IDLE, [EnqueueCall(o)] + seq(m, _ => RunNextCall)))
  {
    hide RunNext, Enqueue, Invoke, Cancel;
    var fewer, calls := [EnqueueCall(o)] + seq(m, _ => RunNextCall), [EnqueueCall(o)] + seq(m + 1, _ => RunNextCall);
    assert calls[..|calls| - 1] == fewer && calls[|calls| - 1] == RunNextCall;
    assert DoAll(p, IDLE, calls) == Do(p, DoAll(p, IDLE, fewer), RunNextCall);
  }

  lemma {:induction false} StubbornRuns(p: Policy, o: Operation, g: int, m: nat)
    requires p.world == Stubborn(g) && o == Operation(Queued, true, Some(g)) && p.maxGuardrailAttempts >= g >= 1
    requires m <= p.maxAttempts
    ensures var h := DoAll(p, IDLE, [EnqueueCall(o)] + seq(m, _ => RunNextCall));
            && (m < p.maxAttempts ==> Waiting(p, h, o, m, if m == 0 then 0 else m + g - 1))
            && (m > 0 ==>
                RunsOf(h, 0) == m + g - 1 && 0 in h.store && h.store[0].mode.Queued?
                && h.store[0].operation == o)
  {
    hide Waiting, RunNext, DoAll, RunsOf;
    if m == 0 {
      StubbornStart(p, o, g);
    } else {
      var fewer := [EnqueueCall(o)] + seq(m - 1, _ => RunNextCall);
      OneMoreRun(p, o, m - 1);
      StubbornRuns(p, o, g, m - 1);
      StubbornExecution(p, DoAll(p, IDLE, fewer), o, m - 1, if m == 1 then 0 else m - 1 + g - 1, g);
    }
  }

  /** For all limits there are an outside and calls under which a queued request uses up the bound. */
  lemma BoundIsReached(maxAttempts: int, g: int)
    requires maxAttempts >= 1 && g >= 1
    ensures var p := Policy(maxAttempts, g, Stubborn(g));
            var o := Operation(Queued, true, Some(g));
            var h := DoAll(p, IDLE, [EnqueueCall(o)] + seq(maxAttempts, _ => RunNextCall));
            0 in h.store && RunsOf(h, 0) == Bound(p, h.store[0]) == maxAttempts + g - 1
  {
    StubbornRuns(Policy(maxAttempts, g, Stubborn(g)), Operation(Queued, true, Some(g)), g, maxAttempts);
  }
}
