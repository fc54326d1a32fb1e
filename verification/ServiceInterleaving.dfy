/** Executions of different requests interleave at every `await` (face/src/services/service-host.ts:472-502,
    676-860).  The calls of ServiceHost.dfy are runs of these steps, and the bound on adapter runs holds for
    every run. */
module ServiceInterleaving {
  import opened Json
  import opened ServiceHosts
  import opened ServiceHostTheorems

  /** Where an execution waits: for the record of the request it took from the queue, for leave to begin, for
      authorization, for the call of the adapter, for its answer, for the validation of that. */
  datatype Phase = Popped | Admitted | Started | Ready | Awaiting | Validating

  datatype Thread = Thread(phase: Phase, record: Record)

  datatype Floor = Floor(
    pending: seq<Pending>, store: map<nat, Record>, runs: map<nat, nat>, nextId: nat, threads: map<nat, Thread>)

  const EMPTY := Floor([], map[], map[], 0, map[])

  datatype Move =
    | Create(operation: Operation, mode: Mode, status: Status)
    | Pop
    | Load(id: nat)
    | Begin(id: nat)
    | Authorize(id: nat)
    | CallAdapter(id: nat)
    | Answer(id: nat)
    | Retry(id: nat)
    | Store(id: nat, status: Status, guardrailAttempts: nat)
    | Finish(id: nat)
    | Fail(id: nat, bound: bool)
    | CancelIt(id: nat)

  predicate InPhase(f: Floor, id: nat, phase: Phase) {
    id in f.threads && f.threads[id].phase == phase
  }

  predicate Enabled(p: Policy, f: Floor, move: Move) {
    match move
    case Create(o, mode, status) => true
    case Pop => f.pending != []
    case Load(id) => InPhase(f, id, Popped) && id in f.store
    case Begin(id) => InPhase(f, id, Admitted)
    case Authorize(id) => InPhase(f, id, Started)
    case CallAdapter(id) => InPhase(f, id, Ready)
    case Answer(id) => InPhase(f, id, Awaiting)
    case Retry(id) =>
      && InPhase(f, id, Validating) && f.threads[id].record.operation.retries
      && f.threads[id].record.guardrailAttempts + 1 < Limit(p, f.threads[id].record.operation)
    case Store(id, status, guardrailAttempts) =>
      id in f.threads && !f.threads[id].phase.Popped? && !status.Accepted?
    case Finish(id) => id in f.threads
    case Fail(id, bound) =>
      id in f.threads && !f.threads[id].phase.Popped? && !f.threads[id].phase.Admitted?
    case CancelIt(id) => id in f.store && !Terminal(f.store[id].status)
  }

  /** The thread goes on in a phase with a record, which it stores. */
  function Go(f: Floor, id: nat, phase: Phase, record: Record): Floor {
    f.(store := f.store[id := record], threads := f.threads[id := Thread(phase, record)])
  }

  function End(f: Floor, id: nat): Floor {
    f.(threads := f.threads - {id})
  }

  function Next(p: Policy, f: Floor, move: Move): Floor
    requires Enabled(p, f, move)
  {
    match move
    case Create(o, mode, status) =>
      var record := Record(o, mode, status, 0, 0);
      var g := f.(store := f.store[f.nextId := record], nextId := f.nextId + 1);
      if !status.Accepted? then g
      else if mode.Queued? then g.(pending := g.pending + [Pending(f.nextId, false)])
      else g.(threads := g.threads[f.nextId := Thread(Admitted, record)])
    case Pop =>
      var id := f.pending[0].id;
      var g := f.(pending := f.pending[1..]);
      if id in f.store then g.(threads := g.threads[id := Thread(Popped, f.store[id])]) else g
    case Load(id) =>
      if f.store[id].status.Accepted? then f.(threads := f.threads[id := Thread(Admitted, f.store[id])]) else End(f, id)
    case Begin(id) =>
      var record := f.threads[id].record;
      Go(f, id, Started, record.(status := Running, attempts := record.attempts + 1))
    case Authorize(id) => Go(f, id, Ready, f.threads[id].record)
    case CallAdapter(id) =>
      f.(runs := f.runs[id := (if id in f.runs then f.runs[id] else 0) + 1],
         threads := f.threads[id := f.threads[id].(phase := Awaiting)])
    case Answer(id) => f.(threads := f.threads[id := f.threads[id].(phase := Validating)])
    case Retry(id) =>
      var record := f.threads[id].record;
      Go(f, id, Ready, record.(guardrailAttempts := record.guardrailAttempts + 1))
    case Store(id, status, guardrailAttempts) =>
      End(f.(store := f.store[id := f.threads[id].record.(status := status, guardrailAttempts := guardrailAttempts)]),
          id)
    case Finish(id) => End(f, id)
    case Fail(id, bound) =>
      var record := f.threads[id].record;
      var retry := record.mode.Queued? && record.attempts < p.maxAttempts;
      var failed := record.(status := if retry then Accepted else if record.mode.Queued? then DeadLettered else Failed);
      var g := End(f.(store := f.store[id := failed]), id);
      if retry then g.(pending := g.pending + [Pending(id, bound)]) else g
    case CancelIt(id) => f.(store := f.store[id := f.store[id].(status := Cancelled)])
  }

  function Run(p: Policy, f: Floor, moves: seq<Move>): Floor {
    if moves == [] then f
    else
      var before := Run(p, f, moves[..|moves| - 1]);
      if Enabled(p, before, moves[|moves| - 1]) then Next(p, before, moves[|moves| - 1]) else before
  }

  function RunsAt(f: Floor, id: nat): nat {
    if id in f.runs then f.runs[id] else 0
  }

  // ---- the accounts of one request -----------------------------------------------------------------

  /** What a record has paid for when the adapter is not about to run on its account. */
  predicate Covered(p: Policy, r: Record, runs: int) {
    runs <= r.attempts + r.guardrailAttempts && r.guardrailAttempts <= Retries(p, r.operation)
  }

  /** A queued record may be executed once more. */
  predicate Executable(p: Policy, r: Record) {
    r.attempts < Executions(p, r.mode)
  }

  /** One run of the adapter is still to come in the phases before its call, and is counted already from
      the beginning of the execution, or from the retry, on. */
  predicate Held(p: Policy, t: Thread, runs: nat) {
    match t.phase
    case Popped => true
    case Admitted => Covered(p, t.record, runs) && Executable(p, t.record)
    case Started => Covered(p, t.record, runs + 1) && t.record.attempts <= Executions(p, t.record.mode)
    case Ready => Covered(p, t.record, runs + 1) && t.record.attempts <= Executions(p, t.record.mode)
    case Awaiting => Covered(p, t.record, runs) && t.record.attempts <= Executions(p, t.record.mode)
    case Validating => Covered(p, t.record, runs) && t.record.attempts <= Executions(p, t.record.mode)
  }

  predicate InQueue(f: Floor, id: nat) {
    exists i :: 0 <= i < |f.pending| && f.pending[i].id == id
  }

  /** What is known of a request in the queue: its stored record is the one the next execution starts from. */
  predicate Waits(p: Policy, f: Floor, id: nat) {
    id in f.store && Covered(p, f.store[id], RunsAt(f, id)) && Executable(p, f.store[id])
  }

  ghost predicate RequestAccounted(p: Policy, f: Floor, id: nat) {
    && (id in f.store ==> id < f.nextId && RunsAt(f, id) <= Bound(p, f.store[id]))
    && (id !in f.store ==> id !in f.runs && id !in f.threads)
    && (InQueue(f, id) ==> Waits(p, f, id) && id !in f.threads)
    && (id in f.threads ==>
          && SameKind(f.threads[id].record, f.store[id]) && Held(p, f.threads[id], RunsAt(f, id))
          && (f.threads[id].phase.Popped? ==> Waits(p, f, id)))
  }

  ghost predicate Once(pending: seq<Pending>) {
    forall i, j :: 0 <= i < j < |pending| ==> pending[i].id != pending[j].id
  }

  ghost predicate AllAccounted(p: Policy, f: Floor) {
    Once(f.pending) && forall id: nat :: RequestAccounted(p, f, id)
  }

  /** The move of one request leaves every other as it was. */
  ghost predicate Elsewhere(f: Floor, g: Floor, id: nat) {
    && (id in g.store <==> id in f.store) && (id in f.store ==> g.store[id] == f.store[id])
    && (id in g.runs <==> id in f.runs) && (id in f.runs ==> g.runs[id] == f.runs[id])
    && (id in g.threads <==> id in f.threads) && (id in f.threads ==> g.threads[id] == f.threads[id])
    && (InQueue(g, id) ==> InQueue(f, id)) && f.nextId <= g.nextId
  }

  lemma ElsewhereAccounted(p: Policy, f: Floor, g: Floor, id: nat)
    requires RequestAccounted(p, f, id) && Elsewhere(f, g, id)
    ensures RequestAccounted(p, g, id)
  {
    hide Held, Covered, Executable, Bound, InQueue;
  }

  function Subject(f: Floor, move: Move): nat
    requires move.Pop? ==> f.pending != []
  {
    match move
    case Create(o, mode, status) => f.nextId
    case Pop => f.pending[0].id
    case Load(id) => id
    case Begin(id) => id
    case Authorize(id) => id
    case CallAdapter(id) => id
    case Answer(id) => id
    case Retry(id) => id
    case Store(id, status, guardrailAttempts) => id
    case Finish(id) => id
    case Fail(id, bound) => id
    case CancelIt(id) => id
  }

  lemma MoveIsLocal(p: Policy, f: Floor, move: Move, id: nat)
    requires Enabled(p, f, move) && id != Subject(f, move)
    ensures Elsewhere(f, Next(p, f, move), id)
  {
    QueueAfter(p, f, move, id);
    hide InQueue;
  }

  /** The queue gains at most the subject. */
  lemma QueueAfter(p: Policy, f: Floor, move: Move, id: nat)
    requires Enabled(p, f, move)
    ensures InQueue(Next(p, f, move), id) ==> InQueue(f, id) || id == Subject(f, move)
  {
    var g := Next(p, f, move);
    if InQueue(g, id) {
      var i :| 0 <= i < |g.pending| && g.pending[i].id == id;
      if move.Pop? {
        assert g.pending[i] == f.pending[i + 1];
      } else if i < |f.pending| {
        assert g.pending[i] == f.pending[i];
      }
    }
  }

  lemma AppendOnce(pending: seq<Pending>, e: Pending)
    requires Once(pending) && forall i :: 0 <= i < |pending| ==> pending[i].id != e.id
    ensures Once(pending + [e])
  {
  }

  lemma MoveKeepsOnce(p: Policy, f: Floor, move: Move)
    requires Enabled(p, f, move) && AllAccounted(p, f)
    ensures Once(Next(p, f, move).pending)
    ensures move.Pop? ==> !InQueue(Next(p, f, move), Subject(f, move))
  {
    hide Held, Covered, Executable, Bound;
    assert RequestAccounted(p, f, Subject(f, move));
    if move.Fail? {
      assert !InQueue(f, move.id);
      AppendOnce(f.pending, Pending(move.id, move.bound));
    } else if move.Create? {
      assert !InQueue(f, f.nextId);
      AppendOnce(f.pending, Pending(f.nextId, false));
    }
  }

  /** A request's record and thread, and whether it is queued: all its accounts are about. */
  lemma SubjectAccounted(p: Policy, f: Floor, move: Move)
    requires Enabled(p, f, move) && AllAccounted(p, f)
    ensures RequestAccounted(p, Next(p, f, move), Subject(f, move))
  {
    var id := Subject(f, move);
    assert RequestAccounted(p, f, id);
    MoveKeepsOnce(p, f, move);
    QueueAfter(p, f, move, id);
    if !move.Pop? && !move.Create? && !move.Fail? {
      assert Next(p, f, move).pending == f.pending;
      assert InQueue(Next(p, f, move), id) <==> InQueue(f, id);
    }
    hide InQueue, Once, AllAccounted;
  }

  lemma NextAccounted(p: Policy, f: Floor, move: Move)
    requires Enabled(p, f, move) && AllAccounted(p, f)
    ensures AllAccounted(p, Next(p, f, move))
  {
    hide RequestAccounted, Next, Once;
    MoveKeepsOnce(p, f, move);
    forall id: nat
      ensures RequestAccounted(p, Next(p, f, move), id)
    {
      assert RequestAccounted(p, f, id);
      if id == Subject(f, move) {
        SubjectAccounted(p, f, move);
      } else {
        MoveIsLocal(p, f, move, id);
        ElsewhereAccounted(p, f, Next(p, f, move), id);
      }
    }
  }

  lemma {:induction false} RunAccounted(p: Policy, moves: seq<Move>)
    ensures AllAccounted(p, Run(p, EMPTY, moves))
  {
    hide AllAccounted, Next, Enabled;
    if moves == [] {
      NothingAccounted(p);
    } else {
      RunAccounted(p, moves[..|moves| - 1]);
      var before := Run(p, EMPTY, moves[..|moves| - 1]);
      if Enabled(p, before, moves[|moves| - 1]) {
        NextAccounted(p, before, moves[|moves| - 1]);
      }
    }
  }

  lemma NothingAccounted(p: Policy)
    ensures AllAccounted(p, EMPTY)
  {
  }

  /** However executions of different requests interleave: max(1, maxAttempts) + max(0, g - 1) runs for a
      queued request, 1 + max(0, g - 1) for an immediate one. */
  lemma InterleavedRunsBounded(p: Policy, moves: seq<Move>, id: nat)
    ensures var f := Run(p, EMPTY, moves);
            && (id !in f.store ==> RunsAt(f, id) == 0)
            && (id in f.store ==>
                  RunsAt(f, id) <= (if f.store[id].mode.Queued? then Max(1, p.maxAttempts) else 1)
                                   + Max(0, Limit(p, f.store[id].operation) - 1))
  {
    RunAccounted(p, moves);
    assert RequestAccounted(p, Run(p, EMPTY, moves), id);
  }

  // ---- the calls of the host are such runs --------------------------------------------------------------

  function FloorOf(h: Host, threads: map<nat, Thread>): Floor {
    Floor(h.pending, h.store, h.runs, h.nextId, threads)
  }

  ghost predicate Leads(p: Policy, f: Floor, g: Floor) {
    exists moves :: Run(p, f, moves) == g
  }

  lemma Stays(p: Policy, f: Floor)
    ensures Leads(p, f, f)
  {
    assert Run(p, f, []) == f;
  }

  lemma OneMove(p: Policy, f: Floor, move: Move)
    requires Enabled(p, f, move)
    ensures Leads(p, f, Next(p, f, move))
  {
    hide Next, Enabled;
    assert [move][..0] == [] && Run(p, f, []) == f;
    assert Run(p, f, [move]) == Next(p, f, move);
  }

  lemma {:induction false} RunConcat(p: Policy, f: Floor, a: seq<Move>, b: seq<Move>)
    ensures Run(p, f, a + b) == Run(p, Run(p, f, a), b)
  {
    hide Next, Enabled;
    if b == [] {
      assert a + b == a;
    } else {
      RunConcat(p, f, a, b[..|b| - 1]);
      assert (a + b)[..|a + b| - 1] == a + b[..|b| - 1];
    }
  }

  lemma LeadsOn(p: Policy, f: Floor, g: Floor, k: Floor)
    requires Leads(p, f, g) && Leads(p, g, k)
    ensures Leads(p, f, k)
  {
    hide Run;
    var a :| Run(p, f, a) == g;
    var b :| Run(p, g, b) == k;
    RunConcat(p, f, a, b);
  }

  /** Where the threads are after an execution of `id` came to `done`: an error leaves the thread with the
      record it carries, `r` if it carries none. */
  ghost predicate Reaches(p: Policy, f: Floor, h: Host, threads: map<nat, Thread>, id: nat, r: Record, done: Done) {
    if done.Returned? then Leads(p, f, FloorOf(h, threads - {id}))
    else
      exists phase: Phase :: !phase.Popped? && !phase.Admitted?
        && Leads(p, f, FloorOf(h, threads[id := Thread(phase, if done.carried.Some? then done.carried.value else r)]))
  }

  lemma ReachesOn(p: Policy, f: Floor, g: Floor, h: Host, threads: map<nat, Thread>, id: nat, r: Record, done: Done)
    requires Leads(p, f, g) && Reaches(p, g, h, threads, id, r, done)
    ensures Reaches(p, f, h, threads, id, r, done)
  {
    hide Leads;
    if done.Returned? {
      LeadsOn(p, f, g, FloorOf(h, threads - {id}));
    } else {
      var record := if done.carried.Some? then done.carried.value else r;
      var phase: Phase :| !phase.Popped? && !phase.Admitted?
          && Leads(p, g, FloorOf(h, threads[id := Thread(phase, record)]));
      LeadsOn(p, f, g, FloorOf(h, threads[id := Thread(phase, record)]));
    }
  }

  lemma Errs(p: Policy, f: Floor, h: Host, threads: map<nat, Thread>, id: nat, r: Record, phase: Phase)
    requires !phase.Popped? && !phase.Admitted? && Leads(p, f, FloorOf(h, threads[id := Thread(phase, r)]))
    ensures Reaches(p, f, h, threads, id, r, Raised(None))
  {
    hide Leads;
  }

  lemma Returns(p: Policy, f: Floor, h: Host, threads: map<nat, Thread>, id: nat, r: Record, record: Record)
    requires Leads(p, f, FloorOf(h, threads - {id}))
    ensures Reaches(p, f, h, threads, id, r, Returned(record))
  {
  }

  lemma Carried(p: Policy, f: Floor, h: Host, threads: map<nat, Thread>, id: nat, r: Record, retrying: Record,
      done: Done)
    requires Reaches(p, f, h, threads, id, retrying, done)
    ensures Reaches(p, f, h, threads, id, r, if done == Raised(None) then Raised(Some(retrying)) else done)
  {
    hide Leads;
  }

  /** From its call on, the adapter's answer, or what came instead. */
  lemma AttemptMoves(p: Policy, h: Host, threads: map<nat, Thread>, id: nat, r: Record)
    requires id in h.store && r.status.Running?
    ensures var (h', a) := ExecuteAdapterAttempt(p, h, id, r);
            var f := FloorOf(h, threads[id := Thread(Ready, r)]);
            && id in h'.store
            && (a.WithResult? ==> Leads(p, f, FloorOf(h', threads[id := Thread(Validating, r)])))
            && (a.NoResult? ==> Reaches(p, f, h', threads, id, r, Returned(a.record)))
            && (a.Threw? ==> Reaches(p, f, h', threads, id, r, Raised(None)))
  {
    hide Leads, Reaches;
    var f := FloorOf(h, threads[id := Thread(Ready, r)]);
    var decision := p.world.decide(h.clock);
    if decision.Broken? {
      Stays(p, f);
      Errs(p, f, Tick(h), threads, id, r, Ready);
    } else if decision.Refused? {
      var end := Put(Tick(h), id, r.(status := StatusOf(decision.confirm)));
      StoreMove(p, h, threads, id, Ready, r, StatusOf(decision.confirm), r.guardrailAttempts);
      Returns(p, f, end, threads, id, r, r.(status := StatusOf(decision.confirm)));
    } else {
      var ran := Tick(h).(runs := h.runs[id := RunsOf(h, id) + 1]);
      var h' := if p.world.cancels(h.clock) then Cancel(ran, id) else ran;
      CallMove(p, h, threads, id, r, h');
      ReplyMove(p, f, h', threads, id, r, p.world.adapter(id, RunsOf(h, id)));
    }
  }

  lemma CallMove(p: Policy, h: Host, threads: map<nat, Thread>, id: nat, r: Record, h': Host)
    requires var ran := Tick(h).(runs := h.runs[id := RunsOf(h, id) + 1]); h' == ran || h' == Cancel(ran, id)
    ensures Leads(p, FloorOf(h, threads[id := Thread(Ready, r)]), FloorOf(h', threads[id := Thread(Awaiting, r)]))
  {
    hide Leads;
    var f := FloorOf(h, threads[id := Thread(Ready, r)]);
    var ran := Tick(h).(runs := h.runs[id := RunsOf(h, id) + 1]);
    var called := FloorOf(ran, threads[id := Thread(Awaiting, r)]);
    OneMove(p, f, CallAdapter(id));
    assert f.threads[id := Thread(Awaiting, r)] == called.threads;
    if h' != ran {
      CancelMove(p, ran, threads[id := Thread(Awaiting, r)], id);
      LeadsOn(p, f, called, FloorOf(h', threads[id := Thread(Awaiting, r)]));
    }
  }

  lemma ReplyMove(p: Policy, f: Floor, h: Host, threads: map<nat, Thread>, id: nat, r: Record, reply: Reply)
    requires Leads(p, f, FloorOf(h, threads[id := Thread(Awaiting, r)]))
    ensures reply.Answers? ==> Leads(p, f, FloorOf(h, threads[id := Thread(Validating, r)]))
    ensures reply.AnswersNothing? ==> Reaches(p, f, h, threads, id, r, Returned(r))
    ensures reply.Throws? ==> Reaches(p, f, h, threads, id, r, Raised(None))
  {
    hide Leads, Reaches;
    var waiting := FloorOf(h, threads[id := Thread(Awaiting, r)]);
    if reply.Answers? {
      OneMove(p, waiting, Answer(id));
      assert waiting.threads[id := Thread(Validating, r)] == threads[id := Thread(Validating, r)];
      LeadsOn(p, f, waiting, FloorOf(h, threads[id := Thread(Validating, r)]));
    } else if reply.AnswersNothing? {
      OneMove(p, waiting, Finish(id));
      assert waiting.threads - {id} == threads - {id};
      LeadsOn(p, f, waiting, FloorOf(h, threads - {id}));
      Returns(p, f, h, threads, id, r, r);
    } else {
      Errs(p, f, h, threads, id, r, Awaiting);
    }
  }

  lemma CancelMove(p: Policy, h: Host, threads: map<nat, Thread>, id: nat)
    ensures Leads(p, FloorOf(h, threads), FloorOf(Cancel(h, id), threads))
  {
    if id in h.store && !Terminal(h.store[id].status) {
      OneMove(p, FloorOf(h, threads), CancelIt(id));
    } else {
      Stays(p, FloorOf(h, threads));
    }
  }

  lemma StoreMove(p: Policy, h: Host, threads: map<nat, Thread>, id: nat, phase: Phase, r: Record, status: Status,
      n: nat)
    requires !phase.Popped? && !status.Accepted?
    ensures Leads(p, FloorOf(h, threads[id := Thread(phase, r)]),
                  FloorOf(Put(Tick(h), id, r.(status := status, guardrailAttempts := n)), threads - {id}))
  {
    var f := FloorOf(h, threads[id := Thread(phase, r)]);
    OneMove(p, f, Store(id, status, n));
    assert f.threads - {id} == threads - {id};
  }

  lemma {:induction false} ValidationMoves(p: Policy, h: Host, threads: map<nat, Thread>, id: nat, r: Record)
    requires id in h.store && r.status.Running?
    ensures var (h', done) := ValidateResponse(p, h, id, r);
            Reaches(p, FloorOf(h, threads[id := Thread(Validating, r)]), h', threads, id, r, done)
    decreases Limit(p, r.operation) - r.guardrailAttempts
  {
    hide Leads, Reaches, ExecuteAdapterAttempt;
    var f := FloorOf(h, threads[id := Thread(Validating, r)]);
    var attempts := r.guardrailAttempts + 1;
    var retrying := r.(guardrailAttempts := attempts);
    var decision := p.world.decide(h.clock);
    Stays(p, f);
    Errs(p, f, Tick(h), threads, id, r, Validating);
    if p.world.fails(h.clock) {
    } else if p.world.passes(id, RunsOf(h, id)) {
      StoreEnds(p, h, threads, id, Validating, r, Completed, r.guardrailAttempts);
    } else if !(r.operation.retries && attempts < Limit(p, r.operation)) {
      StoreEnds(p, h, threads, id, Validating, r, Failed, attempts);
    } else if decision.Refused? {
      StoreEnds(p, h, threads, id, Validating, r, StatusOf(decision.confirm), attempts);
    } else if decision.Authorized? {
      var started := Put(Tick(h), id, retrying);
      var ready := FloorOf(started, threads[id := Thread(Ready, retrying)]);
      RetryMove(p, h, threads, id, r);
      AttemptMoves(p, started, threads, id, retrying);
      var (h', next) := ExecuteAdapterAttempt(p, started, id, retrying);
      if next.WithResult? {
        ValidationMoves(p, h', threads, id, retrying);
        var (h'', done) := ValidateResponse(p, h', id, retrying);
        var answered := FloorOf(h', threads[id := Thread(Validating, retrying)]);
        LeadsOn(p, f, ready, answered);
        ReachesOn(p, f, answered, h'', threads, id, retrying, done);
        Carried(p, f, h'', threads, id, r, retrying, done);
      } else {
        var done := if next.Threw? then Raised(None) else Returned(next.record);
        ReachesOn(p, f, ready, h', threads, id, retrying, done);
        Carried(p, f, h', threads, id, r, retrying, done);
      }
    }
  }

  lemma StoreEnds(p: Policy, h: Host, threads: map<nat, Thread>, id: nat, phase: Phase, r: Record, status: Status,
      n: nat)
    requires !phase.Popped? && !status.Accepted?
    ensures var end := r.(status := status, guardrailAttempts := n);
            Reaches(p, FloorOf(h, threads[id := Thread(phase, r)]), Put(Tick(h), id, end), threads, id, r,
                Returned(end))
  {
    hide Leads, Reaches;
    var end := r.(status := status, guardrailAttempts := n);
    StoreMove(p, h, threads, id, phase, r, status, n);
    Returns(p, FloorOf(h, threads[id := Thread(phase, r)]), Put(Tick(h), id, end), threads, id, r, end);
  }

  lemma RetryMove(p: Policy, h: Host, threads: map<nat, Thread>, id: nat, r: Record)
    requires r.operation.retries && r.guardrailAttempts + 1 < Limit(p, r.operation)
    ensures var retrying := r.(guardrailAttempts := r.guardrailAttempts + 1);
            Leads(p, FloorOf(h, threads[id := Thread(Validating, r)]),
                  FloorOf(Put(Tick(h), id, retrying), threads[id := Thread(Ready, retrying)]))
  {
    var f := FloorOf(h, threads[id := Thread(Validating, r)]);
    var retrying := r.(guardrailAttempts := r.guardrailAttempts + 1);
    OneMove(p, f, Retry(id));
    assert f.threads[id := Thread(Ready, retrying)] == threads[id := Thread(Ready, retrying)];
  }

  lemma TryMoves(p: Policy, h: Host, threads: map<nat, Thread>, id: nat, active: Record, bound: bool)
    requires id in h.store && active.status.Running?
    ensures var (h', done) := TryExecution(p, h, id, active, bound);
            Reaches(p, FloorOf(h, threads[id := Thread(Started, active)]), h', threads, id, active, done)
  {
    hide Leads, Reaches, ExecuteAdapterAttempt, ValidateResponse;
    var f := FloorOf(h, threads[id := Thread(Started, active)]);
    var decision := p.world.decide(h.clock);
    Stays(p, f);
    Errs(p, f, Tick(h), threads, id, active, Started);
    if !bound && p.world.fails(h.clock) {
    } else if decision.Refused? {
      StoreEnds(p, h, threads, id, Started, active, StatusOf(decision.confirm), active.guardrailAttempts);
    } else if decision.Authorized? {
      var started := Put(Tick(h), id, active);
      var ready := FloorOf(started, threads[id := Thread(Ready, active)]);
      AuthorizeMove(p, h, threads, id, active);
      AttemptMoves(p, started, threads, id, active);
      var (h', attempt) := ExecuteAdapterAttempt(p, started, id, active);
      if attempt.WithResult? {
        ValidationMoves(p, h', threads, id, active);
        var (h'', done) := ValidateResponse(p, h', id, active);
        var answered := FloorOf(h', threads[id := Thread(Validating, active)]);
        LeadsOn(p, f, ready, answered);
        ReachesOn(p, f, answered, h'', threads, id, active, done);
      } else {
        ReachesOn(p, f, ready, h', threads, id, active, if attempt.Threw? then Raised(None)
            else Returned(attempt.record));
      }
    }
  }

  lemma AuthorizeMove(p: Policy, h: Host, threads: map<nat, Thread>, id: nat, r: Record)
    ensures Leads(p, FloorOf(h, threads[id := Thread(Started, r)]),
        FloorOf(Put(Tick(h), id, r), threads[id := Thread(Ready, r)]))
  {
    var f := FloorOf(h, threads[id := Thread(Started, r)]);
    OneMove(p, f, Authorize(id));
    assert f.threads[id := Thread(Ready, r)] == threads[id := Thread(Ready, r)];
  }

  lemma BeginMove(p: Policy, h: Host, threads: map<nat, Thread>, id: nat, r: Record)
    ensures var active := r.(status := Running, attempts := r.attempts + 1);
            Leads(p, FloorOf(h, threads[id := Thread(Admitted, r)]),
                FloorOf(Put(h, id, active), threads[id := Thread(Started, active)]))
  {
    var f := FloorOf(h, threads[id := Thread(Admitted, r)]);
    var active := r.(status := Running, attempts := r.attempts + 1);
    OneMove(p, f, Begin(id));
    assert f.threads[id := Thread(Started, active)] == threads[id := Thread(Started, active)];
  }

  /** What `execute` does with an error. */
  function Failing(p: Policy, h: Host, id: nat, record: Record, bound: bool): Host {
    var retry := record.mode.Queued? && record.attempts < p.maxAttempts;
    var failed := record.(status := if retry then Accepted else if record.mode.Queued? then DeadLettered else Failed);
    var stored := Put(h, id, failed);
    if retry then stored.(pending := stored.pending + [Pending(id, bound)]) else stored
  }

  lemma FailMove(p: Policy, f: Floor, h: Host, threads: map<nat, Thread>, id: nat, r: Record, done: Done, bound: bool)
    requires done.Raised? && Reaches(p, f, h, threads, id, r, done)
    ensures var record := if done.carried.Some? then done.carried.value else r;
            Leads(p, f, FloorOf(Failing(p, h, id, record, bound), threads - {id}))
  {
    hide Leads, Failing;
    var record := if done.carried.Some? then done.carried.value else r;
    var phase: Phase :| !phase.Popped? && !phase.Admitted?
        && Leads(p, f, FloorOf(h, threads[id := Thread(phase, record)]));
    var last := FloorOf(h, threads[id := Thread(phase, record)]);
    FailOne(p, h, threads, id, phase, record, bound);
    LeadsOn(p, f, last, FloorOf(Failing(p, h, id, record, bound), threads - {id}));
  }

  lemma FailOne(p: Policy, h: Host, threads: map<nat, Thread>, id: nat, phase: Phase, record: Record, bound: bool)
    requires !phase.Popped? && !phase.Admitted?
    ensures Leads(p, FloorOf(h, threads[id := Thread(phase, record)]),
        FloorOf(Failing(p, h, id, record, bound), threads - {id}))
  {
    hide Leads;
    var last := FloorOf(h, threads[id := Thread(phase, record)]);
    OneMove(p, last, Fail(id, bound));
    assert last.threads - {id} == threads - {id};
  }

  /** One execution of the host, run to its end without interruption, is a run of the steps. */
  lemma ExecutionMoves(p: Policy, h: Host, threads: map<nat, Thread>, id: nat, r: Record, bound: bool)
    ensures Leads(p, FloorOf(h, threads[id := Thread(Admitted, r)]),
        FloorOf(Execute(p, h, id, r, bound).0, threads - {id}))
  {
    hide Leads, Reaches, TryExecution, FloorOf;
    var f := FloorOf(h, threads[id := Thread(Admitted, r)]);
    var active := r.(status := Running, attempts := r.attempts + 1);
    var started := Put(h, id, active);
    var begun := FloorOf(started, threads[id := Thread(Started, active)]);
    BeginMove(p, h, threads, id, r);
    TryMoves(p, started, threads, id, active, bound);
    var (h', done) := TryExecution(p, started, id, active, bound);
    ReachesOn(p, f, begun, h', threads, id, active, done);
    if done.Raised? {
      FailMove(p, f, h', threads, id, active, done, bound || !p.world.fails(started.clock));
    } else {
      ReturnedLeads(p, f, h', threads, id, active, done);
    }
  }

  lemma ReturnedLeads(p: Policy, f: Floor, h: Host, threads: map<nat, Thread>, id: nat, r: Record, done: Done)
    requires done.Returned? && Reaches(p, f, h, threads, id, r, done)
    ensures Leads(p, f, FloorOf(h, threads - {id}))
  {
  }

  /** So is every call of the host, whatever other executions wait meanwhile. */
  lemma CallMoves(p: Policy, h: Host, threads: map<nat, Thread>, call: Call)
    requires forall id :: id in threads ==> id != h.nextId && (h.pending != [] ==> id != h.pending[0].id)
    ensures Leads(p, FloorOf(h, threads), FloorOf(Do(p, h, call), threads))
  {
    hide Leads, Execute;
    var f := FloorOf(h, threads);
    Stays(p, f);
    match call
    case EnqueueCall(o) => EnqueueMoves(p, h, threads, o);
    case InvokeCall(o) =>
      if o.mode.Queued? {
        EnqueueMoves(p, h, threads, o);
      } else {
        CreateMove(p, h, threads, o, Immediate);
        var (h', record) := CreateRecord(p, h, o, Immediate);
        if record.Some? && record.value.status.Accepted? {
          ExecutionMoves(p, h', threads, h.nextId, record.value, false);
          assert threads - {h.nextId} == threads;
          LeadsOn(p, f, FloorOf(h', threads[h.nextId := Thread(Admitted, record.value)]),
              FloorOf(Do(p, h, call), threads));
        }
      }
    case RunNextCall =>
      if h.pending != [] {
        RunNextMoves(p, h, threads);
      }
    case CancelCall(id) => CancelMove(p, h, threads, id);
  }

  lemma CreateMove(p: Policy, h: Host, threads: map<nat, Thread>, o: Operation, mode: Mode)
    ensures var (h', record) := CreateRecord(p, h, o, mode);
            record.Some? ==>
              Leads(p, FloorOf(h, threads),
                if !record.value.status.Accepted? then FloorOf(h', threads)
                else if mode.Queued? then FloorOf(h'.(pending := h'.pending + [Pending(h.nextId, false)]), threads)
                else FloorOf(h', threads[h.nextId := Thread(Admitted, record.value)]))
  {
    var (h', record) := CreateRecord(p, h, o, mode);
    if record.Some? {
      OneMove(p, FloorOf(h, threads), Create(o, mode, record.value.status));
    }
  }

  lemma EnqueueMoves(p: Policy, h: Host, threads: map<nat, Thread>, o: Operation)
    ensures Leads(p, FloorOf(h, threads), FloorOf(Enqueue(p, h, o), threads))
  {
    hide Leads;
    Stays(p, FloorOf(h, threads));
    CreateMove(p, h, threads, o, Queued);
  }

  lemma RunNextMoves(p: Policy, h: Host, threads: map<nat, Thread>)
    requires h.pending != [] && h.pending[0].id !in threads
    ensures Leads(p, FloorOf(h, threads), FloorOf(RunNext(p, h), threads))
  {
    hide Leads, Execute;
    var f, id, rest := FloorOf(h, threads), h.pending[0].id, h.(pending := h.pending[1..]);
    OneMove(p, f, Pop);
    assert threads - {id} == threads;
    if id in h.store {
      var record := h.store[id];
      var popped := FloorOf(rest, threads[id := Thread(Popped, record)]);
      OneMove(p, popped, Load(id));
      assert popped.threads - {id} == threads;
      if record.status.Accepted? {
        var admitted := FloorOf(rest, threads[id := Thread(Admitted, record)]);
        assert popped.threads[id := Thread(Admitted, record)] == admitted.threads;
        LeadsOn(p, f, popped, admitted);
        var decision := p.world.decide(h.clock);
        if decision.Broken? {
          OneMove(p, admitted, Finish(id));
          assert admitted.threads - {id} == threads;
          LeadsOn(p, f, admitted, FloorOf(rest, threads));
        } else if decision.Refused? {
          StoreMove(p, rest, threads, id, Admitted, record, StatusOf(decision.confirm), record.guardrailAttempts);
          LeadsOn(p, f, admitted, FloorOf(RunNext(p, h), threads));
        } else {
          ExecutionMoves(p, Tick(rest), threads, id, record, h.pending[0].bound);
          LeadsOn(p, f, admitted, FloorOf(RunNext(p, h), threads));
        }
      } else {
        LeadsOn(p, f, popped, FloorOf(rest, threads));
      }
    }
  }
}
