/** What the status of a service request says about what happened
    (face/src/services/service-host.ts:299-362, 472-502, 676-873). */
module ServiceHostOutcomes {
  import opened Json
  import opened ServiceHosts
  import opened ServiceHostTheorems

  /** The answer of the newest adapter run passes the validators. */
  predicate LastAnswerPasses(p: Policy, h: Host, id: nat) {
    RunsOf(h, id) > 0 && p.world.adapter(id, RunsOf(h, id) - 1).Answers? && p.world.passes(id, RunsOf(h, id))
  }

  /** The newest answer does not pass, and no guardrail retry is left. */
  predicate RetriesSpent(p: Policy, h: Host, id: nat, r: Record) {
    && RunsOf(h, id) > 0 && p.world.adapter(id, RunsOf(h, id) - 1).Answers? && !p.world.passes(id, RunsOf(h, id))
    && (r.operation.retries ==> r.guardrailAttempts >= Limit(p, r.operation))
  }

  /** What a record returned while `id` was executed means. */
  ghost predicate Means(p: Policy, end: Host, id: nat, r: Record, record: Record) {
    && SameKind(record, r) && record.attempts == r.attempts
    && (record.status.Completed? ==> LastAnswerPasses(p, end, id))
    && (record.status.Failed? ==> RetriesSpent(p, end, id, record))
    && (record.status.Running? ==> RunsOf(end, id) > 0 && p.world.adapter(id, RunsOf(end, id) - 1).AnswersNothing?)
    && (record.status.Completed? || record.status.Failed? || record.status.Running?
        || record.status.Rejected? || record.status.ConfirmationRequired?)
  }

  /** The answer just received came from the newest run. */
  predicate JustAnswered(p: Policy, h: Host, id: nat) {
    RunsOf(h, id) > 0 && p.world.adapter(id, RunsOf(h, id) - 1).Answers?
  }

  lemma CancelLeavesRuns(h: Host, id: nat)
    ensures RunsOf(Cancel(h, id), id) == RunsOf(h, id)
  {
  }

  lemma AttemptMeans(p: Policy, h: Host, id: nat, r: Record)
    requires r.status.Running?
    ensures var (end, a) := ExecuteAdapterAttempt(p, h, id, r);
            && (a.WithResult? ==> JustAnswered(p, end, id))
            && (a.NoResult? ==>
                Means(p, end, id, r, a.record) && !a.record.status.Completed?
                && !a.record.status.Failed?)
  {
    var ran := Tick(h).(runs := h.runs[id := RunsOf(h, id) + 1]);
    CancelLeavesRuns(ran, id);
    assert RunsOf(ran, id) == RunsOf(h, id) + 1;
  }

  lemma {:induction false} ValidationMeans(p: Policy, h: Host, id: nat, r: Record)
    requires r.status.Running? && JustAnswered(p, h, id)
    ensures var (end, done) := ValidateResponse(p, h, id, r);
            && (done.Returned? ==> Means(p, end, id, r, done.record))
            && (done.Raised? && done.carried.Some? ==>
                  SameKind(done.carried.value, r) && done.carried.value.attempts == r.attempts)
    decreases Limit(p, r.operation) - r.guardrailAttempts
  {
    hide ExecuteAdapterAttempt;
    var attempts := r.guardrailAttempts + 1;
    var retrying := r.(guardrailAttempts := attempts);
    if !p.world.fails(h.clock) && !p.world.passes(id, RunsOf(h, id)) && r.operation.retries
       && attempts < Limit(p, r.operation) && p.world.decide(h.clock).Authorized? {
      var started := Put(Tick(h), id, retrying);
      AttemptMeans(p, started, id, retrying);
      var (h', next) := ExecuteAdapterAttempt(p, started, id, retrying);
      if next.WithResult? {
        ValidationMeans(p, h', id, retrying);
      }
    }
  }

  lemma TryMeans(p: Policy, h: Host, id: nat, active: Record, bound: bool)
    requires active.status.Running?
    ensures var (end, done) := TryExecution(p, h, id, active, bound);
            && (done.Returned? ==> Means(p, end, id, active, done.record))
            && (done.Raised? && done.carried.Some? ==>
                  SameKind(done.carried.value, active) && done.carried.value.attempts == active.attempts)
  {
    hide ExecuteAdapterAttempt, ValidateResponse;
    if (bound || !p.world.fails(h.clock)) && p.world.decide(h.clock).Authorized? {
      var started := Put(Tick(h), id, active);
      AttemptMeans(p, started, id, active);
      var (h', attempt) := ExecuteAdapterAttempt(p, started, id, active);
      if attempt.WithResult? {
        ValidationMeans(p, h', id, active);
      }
    }
  }

  /** After one execution: completed means the newest answer passed; failed, that an immediate request met an error or
      the guardrails are spent; accepted, that a queued request met an error with attempts left and waits in the
      queue; dead-lettered, that it had none left; running, that the adapter answered nothing. */
  lemma ExecutionMeans(p: Policy, h: Host, id: nat, r: Record, bound: bool)
    ensures var (end, record) := Execute(p, h, id, r, bound);
            && SameKind(record, r) && record.attempts == r.attempts + 1
            && (record.status.Completed? ==> LastAnswerPasses(p, end, id))
            && (record.status.Failed? ==> record.mode.Immediate? || RetriesSpent(p, end, id, record))
            && (record.status.DeadLettered? ==> record.mode.Queued? && record.attempts >= p.maxAttempts)
            && (record.status.Accepted? ==> record.mode.Queued? && record.attempts < p.maxAttempts
                                            && end.pending != [] && end.pending[|end.pending| - 1].id == id)
            && (record.status.Running? ==>
                RunsOf(end, id) > 0
                && p.world.adapter(id, RunsOf(end, id) - 1).AnswersNothing?)
            && !record.status.Cancelled?
  {
    hide TryExecution;
    var active := r.(status := Running, attempts := r.attempts + 1);
    var started := Put(h, id, active);
    TryMeans(p, started, id, active, bound);
    var (h', done) := TryExecution(p, started, id, active, bound);
    var record := Execute(p, h, id, r, bound).1;
    if done.Returned? {
      assert record == done.record && Means(p, h', id, active, record);
    } else {
      var failedAttempt := if done.carried.Some? then done.carried.value else active;
      assert SameKind(failedAttempt, active) && record == failedAttempt.(status := record.status);
    }
  }

  /** An adapter that is authorized, answers and passes at once completes the request in one run. */
  lemma GoodAnswerCompletes(p: Policy, h: Host, id: nat, r: Record, bound: bool)
    requires (forall t :: p.world.decide(t).Authorized?) && (forall t :: !p.world.fails(t)) && forall t ::
        !p.world.cancels(t)
    requires p.world.adapter(id, RunsOf(h, id)).Answers? && p.world.passes(id, RunsOf(h, id) + 1)
    ensures var (end, record) := Execute(p, h, id, r, bound);
            && record == r.(status := Completed, attempts := r.attempts + 1)
            && id in end.store && end.store[id] == record
            && RunsOf(end, id) == RunsOf(h, id) + 1 && end.pending == h.pending
  {
    var active := r.(status := Running, attempts := r.attempts + 1);
    var started := Put(Tick(Put(h, id, active)), id, active);
    var (h', attempt) := ExecuteAdapterAttempt(p, started, id, active);
    assert attempt.WithResult? && RunsOf(h', id) == RunsOf(h, id) + 1;
    assert ValidateResponse(p, h', id, active) == (Put(Tick(h'), id, active.(status := Completed)),
      Returned(active.(status := Completed)));
  }

  /** Where authorization is refused before an execution the adapter does not run and the refusal is recorded. */
  lemma RefusedIsRecorded(p: Policy, h: Host, confirm: bool)
    requires h.pending != [] && h.pending[0].id in h.store && h.store[h.pending[0].id].status.Accepted?
    requires p.world.decide(h.clock) == Refused(confirm)
    ensures var id, end := h.pending[0].id, RunNext(p, h);
            && end.store == h.store[id := h.store[id].(status := if confirm then ConfirmationRequired else Rejected)]
            && end.runs == h.runs && end.pending == h.pending[1..]
  {
  }

  /** A cancelled, refused or finished request is taken from the queue without being executed. */
  lemma EndedIsSkipped(p: Policy, h: Host)
    requires h.pending != [] && (h.pending[0].id !in h.store || !h.store[h.pending[0].id].status.Accepted?)
    ensures RunNext(p, h) == h.(pending := h.pending[1..])
  {
  }

  /** A new request is recorded under an id of its own, and queued if it is accepted. */
  lemma EnqueuedIs(p: Policy, h: Host, o: Operation)
    requires !p.world.fails(h.clock)
    ensures var end := Enqueue(p, h, o);
            && end.nextId == h.nextId + 1 && end.store.Keys == h.store.Keys + {h.nextId}
            && end.store[h.nextId].operation == o && end.store[h.nextId].mode.Queued?
            && end.store[h.nextId].attempts == 0 && end.runs == h.runs
            && (p.world.decide(h.clock).Authorized? <==> end.store[h.nextId].status.Accepted?)
            && (p.world.decide(h.clock).Authorized? <==> |end.pending| == |h.pending| + 1)
            && (p.world.decide(h.clock).Authorized? ==> end.pending[..|h.pending|] == h.pending
                                                        && end.pending[|h.pending|].id == h.nextId)
  {
  }
}
