/** How often a service host runs an adapter (face/src/services/service-host.ts:472-502, 615-873). */
module ServiceHosts {
  import opened Json

  datatype Mode = Immediate | Queued

  datatype Status = Accepted | Running | Completed | Failed | DeadLettered | Cancelled | Rejected | ConfirmationRequired

  /** An operation's mode and its policy for guardrail violations: `retries` for the actions "retry" and
      "correction-prompt", `limit` for the action's own `maxAttempts`. */
  datatype Operation = Operation(mode: Mode, retries: bool, limit: Option<int>)

  datatype Record = Record(operation: Operation, mode: Mode, status: Status, attempts: nat, guardrailAttempts: nat)

  datatype Pending = Pending(id: nat, bound: bool)

  /** `Broken` where the check itself throws. */
  datatype Decision = Authorized | Refused(confirm: bool) | Broken

  datatype Reply = Answers | AnswersNothing | Throws

  /** Everything outside the host.  `decide`, `fails` and `cancels` answer by the host's clock; what the adapter
      does, and whether its answer passes the validators, by request and number of runs. */
  datatype World = World(
    decide: nat -> Decision, fails: nat -> bool, cancels: nat -> bool,
    adapter: (nat, nat) -> Reply, passes: (nat, nat) -> bool)

  datatype Policy = Policy(maxAttempts: int, maxGuardrailAttempts: int, world: World)

  /** `runs` counts the calls of `adapter.execute` for each request. */
  datatype Host = Host(pending: seq<Pending>, store: map<nat, Record>, runs: map<nat, nat>, nextId: nat, clock: nat)

  const IDLE := Host([], map[], map[], 0, 0)

  function RunsOf(h: Host, id: nat): nat {
    if id in h.runs then h.runs[id] else 0
  }

  function Put(h: Host, id: nat, r: Record): Host {
    h.(store := h.store[id := r])
  }

  function Tick(h: Host): Host {
    h.(clock := h.clock + 1)
  }

  function StatusOf(confirm: bool): Status {
    if confirm then ConfirmationRequired else Rejected
  }

  predicate Terminal(s: Status) {
    s.Completed? || s.Failed? || s.Cancelled? || s.DeadLettered? || s.Rejected? || s.ConfirmationRequired?
  }

  function Cancel(h: Host, id: nat): Host {
    if id in h.store && !Terminal(h.store[id].status) then Put(h, id, h.store[id].(status := Cancelled)) else h
  }

  function Min(a: int, b: int): int {
    if a < b then a else b
  }

  function Limit(p: Policy, o: Operation): int {
    if o.retries then Min(if o.limit.Some? then o.limit.value else 2, p.maxGuardrailAttempts) else 0
  }

  // ---- one call of the adapter -----------------------------------------------------------------

  datatype Attempt = NoResult(record: Record) | WithResult | Threw

  function Received(reply: Reply, r: Record): Attempt {
    match reply
    case Answers => WithResult
    case AnswersNothing => NoResult(r)
    case Throws => Threw
  }

  /** executeAdapterAttempt: authorization is checked again, then the adapter runs; a cancellation may come in
      meanwhile. */
  function ExecuteAdapterAttempt(p: Policy, h: Host, id: nat, r: Record): (Host, Attempt) {
    match p.world.decide(h.clock)
    case Broken => (Tick(h), Threw)
    case Refused(confirm) => (Put(Tick(h), id, r.(status := StatusOf(confirm))),
        NoResult(r.(status := StatusOf(confirm))))
    case Authorized =>
      var ran := Tick(h).(runs := h.runs[id := RunsOf(h, id) + 1]);
      (if p.world.cancels(h.clock) then Cancel(ran, id) else ran, Received(p.world.adapter(id, RunsOf(h, id)), r))
  }

  /** `Raised(Some(r))` is a ServiceExecutionAttemptError with its record, `Raised(None)` any other error. */
  datatype Done = Returned(record: Record) | Raised(carried: Option<Record>)

  /** validateResponse, with its recursive guardrail retries. */
  function ValidateResponse(p: Policy, h: Host, id: nat, r: Record): (Host, Done)
    decreases Limit(p, r.operation) - r.guardrailAttempts
  {
    if p.world.fails(h.clock) then (Tick(h), Raised(None))
    else if p.world.passes(id, RunsOf(h, id))
        then (Put(Tick(h), id, r.(status := Completed)), Returned(r.(status := Completed)))
    else
      var attempts := r.guardrailAttempts + 1;
      if r.operation.retries && attempts < Limit(p, r.operation) then
        var retrying := r.(guardrailAttempts := attempts);
        match p.world.decide(h.clock)
        case Broken => (Tick(h), Raised(None))
        case Refused(confirm) =>
          (Put(Tick(h), id, retrying.(status := StatusOf(confirm))), Returned(retrying.(status := StatusOf(confirm))))
        case Authorized =>
          var (h', next) := ExecuteAdapterAttempt(p, Put(Tick(h), id, retrying), id, retrying);
          match next
          case Threw => (h', Raised(Some(retrying)))
          case NoResult(record) => (h', Returned(record))
          case WithResult =>
            var (h'', done) := ValidateResponse(p, h', id, retrying);
            (h'', if done == Raised(None) then Raised(Some(retrying)) else done)
      else
        var failed := r.(status := Failed, guardrailAttempts := attempts);
        (Put(Tick(h), id, failed), Returned(failed))
  }

  // ---- one execution of a request -----------------------------------------------------------------

  /** The `try` block of `execute`. */
  function TryExecution(p: Policy, h: Host, id: nat, active: Record, bound: bool): (Host, Done) {
    if !bound && p.world.fails(h.clock) then (Tick(h), Raised(None))
    else
      match p.world.decide(h.clock)
      case Broken => (Tick(h), Raised(None))
      case Refused(confirm) => (Put(Tick(h), id, active.(status := StatusOf(confirm))),
          Returned(active.(status := StatusOf(confirm))))
      case Authorized =>
        var (h', attempt) := ExecuteAdapterAttempt(p, Put(Tick(h), id, active), id, active);
        match attempt
        case Threw => (h', Raised(None))
        case NoResult(record) => (h', Returned(record))
        case WithResult => ValidateResponse(p, h', id, active)
  }

  /** The whole of it: an error retries a queued request, dead-letters it, or fails an immediate one. */
  function Execute(p: Policy, h: Host, id: nat, r: Record, bound: bool): (Host, Record) {
    var active := r.(status := Running, attempts := r.attempts + 1);
    var started := Put(h, id, active);
    var (h', done) := TryExecution(p, started, id, active, bound);
    match done
    case Returned(record) => (h', record)
    case Raised(carried) =>
      var failedAttempt := if carried.Some? then carried.value else active;
      var retry := failedAttempt.mode.Queued? && failedAttempt.attempts < p.maxAttempts;
      var failed := failedAttempt.(status := if retry then Accepted else if failedAttempt.mode.Queued?
          then DeadLettered else Failed);
      var stored := Put(h', id, failed);
      (if retry then stored.(pending := stored.pending + [Pending(id, bound || !p.world.fails(started.clock))])
          else stored, failed)
  }

  // ---- the host's operations --------------------------------------------------------------------

  function CreationStatus(decision: Decision): Status {
    match decision
    case Authorized => Accepted
    case Refused(confirm) => StatusOf(confirm)
    case Broken => Rejected
  }

  /** createRecord, after the request input was built; None where building it throws. */
  function CreateRecord(p: Policy, h: Host, o: Operation, mode: Mode): (Host, Option<Record>) {
    if p.world.fails(h.clock) then (Tick(h), None)
    else
      var status := CreationStatus(p.world.decide(h.clock));
      var record := Record(o, mode, status, 0, 0);
      (Put(Tick(h), h.nextId, record).(nextId := h.nextId + 1), Some(record))
  }

  function Enqueue(p: Policy, h: Host, o: Operation): Host {
    var (h', record) := CreateRecord(p, h, o, Queued);
    if record.Some? && record.value.status.Accepted? then h'.(pending := h'.pending + [Pending(h.nextId, false)])
        else h'
  }

  function Invoke(p: Policy, h: Host, o: Operation): Host {
    if o.mode.Queued? then Enqueue(p, h, o)
    else
      var (h', record) := CreateRecord(p, h, o, Immediate);
      if record.Some? && record.value.status.Accepted? then Execute(p, h', h.nextId, record.value, false).0 else h'
  }

  function RunNext(p: Policy, h: Host): Host {
    if h.pending == [] then h
    else
      var pending, rest := h.pending[0], h.(pending := h.pending[1..]);
      if pending.id !in h.store || !h.store[pending.id].status.Accepted? then rest
      else
        var record := h.store[pending.id];
        match p.world.decide(h.clock)
        case Broken => Tick(rest)
        case Refused(confirm) => Put(Tick(rest), pending.id, record.(status := StatusOf(confirm)))
        case Authorized => Execute(p, Tick(rest), pending.id, record, pending.bound).0
  }

  // ---- the object ----------------------------------------------------------------------------------

  class DefaultServiceHost {
    const policy: Policy
    var pending: seq<Pending>
    var store: map<nat, Record>
    var runs: map<nat, nat>
    var nextId: nat
    var clock: nat

    constructor (policy: Policy)
      ensures this.policy == policy && TheHost() == IDLE
    {
      this.policy := policy;
      pending, store, runs, nextId, clock := [], map[], map[], 0, 0;
    }

    ghost function TheHost(): Host
      reads this
    {
      Host(pending, store, runs, nextId, clock)
    }

    method Decide() returns (d: Decision)
      modifies this`clock
      ensures d == policy.world.decide(old(clock)) && clock == old(clock) + 1
    {
      d := policy.world.decide(clock);
      clock := clock + 1;
    }

    method CancelRequest(id: nat)
      modifies this`store
      ensures TheHost() == Cancel(old(TheHost()), id)
    {
      if id !in store || Terminal(store[id].status) {
        return;
      }
      store := store[id := store[id].(status := Cancelled)];
    }

    method RunAdapterAttempt(id: nat, record: Record) returns (a: Attempt)
      modifies this
      ensures (TheHost(), a) == ExecuteAdapterAttempt(policy, old(TheHost()), id, record)
    {
      var decision := Decide();
      match decision
      case Broken => return Threw;
      case Refused(confirm) =>
        var rejected := record.(status := StatusOf(confirm));
        store := store[id := rejected];
        return NoResult(rejected);
      case Authorized =>
        var before := if id in runs then runs[id] else 0;
        runs := runs[id := before + 1];
        if policy.world.cancels(clock - 1) {
          CancelRequest(id);
        }
        a := Received(policy.world.adapter(id, before), record);
    }

    method Validate(id: nat, running: Record) returns (done: Done)
      modifies this
      ensures (TheHost(), done) == ValidateResponse(policy, old(TheHost()), id, running)
      decreases Limit(policy, running.operation) - running.guardrailAttempts
    {
      if policy.world.fails(clock) {
        clock := clock + 1;
        return Raised(None);
      }
      if policy.world.passes(id, if id in runs then runs[id] else 0) {
        clock := clock + 1;
        store := store[id := running.(status := Completed)];
        return Returned(running.(status := Completed));
      }
      var attempts := running.guardrailAttempts + 1;
      if running.operation.retries && attempts < Limit(policy, running.operation) {
        var retrying := running.(guardrailAttempts := attempts);
        var decision := Decide();
        match decision
        case Broken => return Raised(None);
        case Refused(confirm) =>
          var rejected := retrying.(status := StatusOf(confirm));
          store := store[id := rejected];
          return Returned(rejected);
        case Authorized =>
          store := store[id := retrying];
          var next := RunAdapterAttempt(id, retrying);
          match next {
            case Threw => return Raised(Some(retrying));
            case NoResult(record) => return Returned(record);
            case WithResult =>
              done := Validate(id, retrying);
              if done == Raised(None) {
                done := Raised(Some(retrying));
              }
          }
      } else {
        var failed := running.(status := Failed, guardrailAttempts := attempts);
        clock := clock + 1;
        store := store[id := failed];
        done := Returned(failed);
      }
    }

    method Attempt(id: nat, active: Record, bound: bool) returns (done: Done)
      modifies this
      ensures (TheHost(), done) == TryExecution(policy, old(TheHost()), id, active, bound)
    {
      if !bound && policy.world.fails(clock) {
        clock := clock + 1;
        return Raised(None);
      }
      var decision := Decide();
      match decision
      case Broken => return Raised(None);
      case Refused(confirm) =>
        var rejected := active.(status := StatusOf(confirm));
        store := store[id := rejected];
        return Returned(rejected);
      case Authorized =>
        store := store[id := active];
        var attempt := RunAdapterAttempt(id, active);
        match attempt {
          case Threw => return Raised(None);
          case NoResult(record) => return Returned(record);
          case WithResult => done := Validate(id, active);
        }
    }

    method ExecuteRequest(id: nat, record: Record, bound: bool) returns (r: Record)
      modifies this
      ensures (TheHost(), r) == Execute(policy, old(TheHost()), id, record, bound)
    {
      var active := record.(status := Running, attempts := record.attempts + 1);
      var materializes := bound || !policy.world.fails(clock);
      store := store[id := active];
      var done := Attempt(id, active, bound);
      match done
      case Returned(returned) => return returned;
      case Raised(carried) =>
        var failedAttempt := if carried.Some? then carried.value else active;
        var retry := failedAttempt.mode.Queued? && failedAttempt.attempts < policy.maxAttempts;
        r := failedAttempt.(status := if retry then Accepted else if failedAttempt.mode.Queued? then DeadLettered
            else Failed);
        store := store[id := r];
        if retry {
          pending := pending + [Pending(id, materializes)];
        }
    }

    method Create(o: Operation, mode: Mode) returns (record: Option<Record>)
      modifies this
      ensures (TheHost(), record) == CreateRecord(policy, old(TheHost()), o, mode)
    {
      if policy.world.fails(clock) {
        clock := clock + 1;
        return None;
      }
      var decision := Decide();
      var status := CreationStatus(decision);
      var created := Record(o, mode, status, 0, 0);
      store := store[nextId := created];
      nextId := nextId + 1;
      record := Some(created);
    }

    method EnqueueRequest(o: Operation)
      modifies this
      ensures TheHost() == Enqueue(policy, old(TheHost()), o)
    {
      var id := nextId;
      var record := Create(o, Queued);
      if record.Some? && record.value.status.Accepted? {
        pending := pending + [Pending(id, false)];
      }
    }

    method InvokeRequest(o: Operation)
      modifies this
      ensures TheHost() == Invoke(policy, old(TheHost()), o)
    {
      if o.mode.Queued? {
        EnqueueRequest(o);
        return;
      }
      var id := nextId;
      var record := Create(o, Immediate);
      if record.Some? && record.value.status.Accepted? {
        var r := ExecuteRequest(id, record.value, false);
      }
    }

    method RunNextRequest()
      modifies this
      ensures TheHost() == RunNext(policy, old(TheHost()))
    {
      if |pending| == 0 {
        return;
      }
      var next := pending[0];
      pending := pending[1..];
      if next.id !in store || !store[next.id].status.Accepted? {
        return;
      }
      var record := store[next.id];
      var decision := Decide();
      match decision
      case Broken => return;
      case Refused(confirm) => store := store[next.id := record.(status := StatusOf(confirm))];
      case Authorized => var r := ExecuteRequest(next.id, record, next.bound);
    }
  }
}
