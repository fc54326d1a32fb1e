/** Racing engines and workers over one durable provider (packages/durable-runtime/src/runtime/browser-runtime.ts
    43-94 and 251-348, against the contract in packages/durable-runtime/src/contracts.ts:81-116).

    A step is one provider call, or one thing that can go wrong between two of them: a lease that expires,
    a process that dies, an answer that is lost.  Every interleaving of steps is a run. */
module DurableRuntime {
  import opened Json
  import opened DurableTransition

  /** What `acquireTransition` handed to an engine. */
  datatype Snapshot = Snapshot(lease: nat, state: Json, spec: Spec, revision: nat, cursor: nat, entries: seq<Event>)

  datatype EngineProcess = EngineIdle | Transitioning(snapshot: Snapshot)

  datatype QueueItem = QueueItem(attempt: nat, lease: Option<nat>)

  /** What a worker does with its leased message once its events are appended. */
  datatype Ending = ThenAck | ThenDead

  datatype WorkerProcess =
    | WorkerIdle
    | Handling(messageId: nat, lease: nat, attempt: nat)
    | Appending(messageId: nat, lease: nat, attempt: nat, rest: seq<Event>, ending: Ending)

  /** One committed transition: the journal range it folded and the settlements it accepted. */
  datatype Commit = Commit(from: nat, to: nat, accepted: seq<nat>)

  /** The provider's durable data, the processes, and two records of the past: every effect ever enqueued
      (a message's id is its position) and every committed transition. */
  datatype System = System(
    journal: seq<Event>,
    state: Json, spec: Spec, revision: nat, cursor: nat,
    engineLease: Option<nat>,
    leases: nat,
    issued: seq<Effect>,
    queue: map<nat, QueueItem>,
    engines: map<nat, EngineProcess>,
    workers: map<nat, WorkerProcess>,
    commits: seq<Commit>)

  /** The deployment: the materialized engine, the initial state and the attempt limit. */
  datatype Deployment = Deployment(engine: Engine, initialState: Json, blueprint: Json, maxAttempts: nat)

  function Initial(d: Deployment): System {
    System([], d.initialState, Spec(d.blueprint, []), 0, 0, None, 0, [], map[], map[], map[], [])
  }

  datatype Step =
    | AppendJournal(event: Event)
    | Acquire(engine: nat, count: nat)
    | EngineLeaseExpires
    | EngineDies(engine: nat)
    | RunEngine(engine: nat)
    | LeaseItem(worker: nat, messageId: nat)
    | ItemLeaseExpires(messageId: nat)
    | WorkerDies(worker: nat)
    | Handle(worker: nat, execution: Execution, stopped: bool, detail: Json)
    | AppendNext(worker: nat)
    | AppendFails(worker: nat, stopped: bool, detail: Json)
    | Finish(worker: nat)

  function EngineOf(s: System, e: nat): EngineProcess {
    if e in s.engines then s.engines[e] else EngineIdle
  }

  function WorkerOf(s: System, w: nat): WorkerProcess {
    if w in s.workers then s.workers[w] else WorkerIdle
  }

  // ---- engines ----------------------------------------------------------------------

  function ReleaseLease(s: System, lease: nat): System {
    if s.engineLease == Some(lease) then s.(engineLease := None) else s
  }

  function SetEngine(s: System, e: nat, process: EngineProcess): System {
    s.(engines := s.engines[e := process])
  }

  /** The transition an engine computes from its snapshot: the output and the next spec, or a throw. */
  function Computed(d: Deployment, snapshot: Snapshot): Option<(Output, Spec)> {
    match Transition(d.engine, snapshot.state, snapshot.spec, snapshot.entries)
    case None => None
    case Some(output) =>
      match ApplyUpdates(d.engine, snapshot.spec, output.updates)
      case None => None
      case Some(spec) => Some((output, spec))
  }

  /** Fresh, unleased queue items for `count` messages starting at `from`. */
  function NewItems(from: nat, count: nat): (items: map<nat, QueueItem>)
    ensures forall id: nat :: (id in items <==> from <= id < from + count)
    ensures forall id: nat :: (id in items ==> items[id] == QueueItem(0, None))
    decreases count
  {
    if count == 0 then map[] else NewItems(from, count - 1)[from + count - 1 := QueueItem(0, None)]
  }

  /** The compare-and-swap: lease, revision and cursor must be the snapshot's; effects go in with it. */
  predicate CommitAllowed(s: System, snapshot: Snapshot) {
    s.engineLease == Some(snapshot.lease) && s.revision == snapshot.revision && s.cursor == snapshot.cursor
  }

  function Committed(s: System, snapshot: Snapshot, output: Output, spec: Spec): System {
    s.(state := output.state, spec := spec, revision := s.revision + 1,
       cursor := snapshot.cursor + |snapshot.entries|,
       issued := s.issued + output.effects,
       queue := s.queue + NewItems(|s.issued|, |output.effects|),
       commits := s.commits + [Commit(snapshot.cursor, snapshot.cursor + |snapshot.entries|,
                                      AcceptedIds(Accepted(snapshot.entries, ToSet(snapshot.spec.settled))))])
  }

  /** `executeEngine` after its acquire: abort when there is nothing to fold or the transition throws. */
  function EngineRuns(d: Deployment, s: System, e: nat, snapshot: Snapshot): System {
    var done := SetEngine(s, e, EngineIdle);
    if snapshot.entries == [] then ReleaseLease(done, snapshot.lease)
    else
      match Computed(d, snapshot)
      case None => ReleaseLease(done, snapshot.lease)
      case Some((output, spec)) =>
        if CommitAllowed(s, snapshot) then ReleaseLease(Committed(done, snapshot, output, spec), snapshot.lease)
            else done
  }

  // ---- workers --------------------------------------------------------------------------

  function SetWorker(s: System, w: nat, process: WorkerProcess): System {
    s.(workers := s.workers[w := process])
  }

  /** Ack and dead nack remove a message still held under this lease; otherwise they do nothing. */
  function RemoveItem(s: System, messageId: nat, lease: nat): System {
    if messageId in s.queue && s.queue[messageId].lease == Some(lease) then s.(queue := s.queue - {messageId}) else s
  }

  /** A plain nack makes the message visible again. */
  function ReturnItem(s: System, messageId: nat, lease: nat): System {
    if messageId in s.queue && s.queue[messageId].lease == Some(lease)
    then s.(queue := s.queue[messageId := s.queue[messageId].(lease := None)]) else s
  }

  /** The catch block of `processQueueLaneItem`. */
  function OnError(d: Deployment, s: System, w: nat, messageId: nat, lease: nat, attempt: nat, stopped: bool,
      detail: Json): System
    requires messageId < |s.issued|
  {
    var returned := SetWorker(ReturnItem(s, messageId, lease), w, WorkerIdle);
    if stopped || attempt < (if d.maxAttempts < 1 then 1 else d.maxAttempts) then returned
    else
      match FailureEvents(s.issued[messageId], messageId, detail)
      case None => returned
      case Some(events) => SetWorker(s, w, Appending(messageId, lease, attempt, events, ThenDead))
  }

  /** The "*" handler: an already settled message needs nothing more; otherwise the host executes it. */
  function Handled(d: Deployment, s: System, w: nat, p: WorkerProcess, execution: Execution, stopped: bool,
      detail: Json): System
    requires p.Handling? && p.messageId < |s.issued|
  {
    var events := if p.messageId in s.spec.settled then Some([])
        else SuccessEvents(s.issued[p.messageId], p.messageId, execution);
    match events
    case None => OnError(d, s, w, p.messageId, p.lease, p.attempt, stopped, detail)
    case Some(events) =>
      if stopped then SetWorker(ReturnItem(s, p.messageId, p.lease), w, WorkerIdle)
      else SetWorker(s, w, Appending(p.messageId, p.lease, p.attempt, events, ThenAck))
  }

  /** An append that fails while dead-lettering returns the message; before that it is an error like any other. */
  function AppendFailed(d: Deployment, s: System, w: nat, p: WorkerProcess, stopped: bool, detail: Json): System
    requires p.Appending? && p.messageId < |s.issued|
  {
    match p.ending
    case ThenDead => SetWorker(ReturnItem(s, p.messageId, p.lease), w, WorkerIdle)
    case ThenAck => OnError(d, s, w, p.messageId, p.lease, p.attempt, stopped, detail)
  }

  // ---- steps -------------------------------------------------------------------------------

  predicate Enabled(s: System, step: Step) {
    match step
    case AppendJournal(_) => true
    case Acquire(e, count) => s.engineLease.None? && EngineOf(s, e).EngineIdle? && s.cursor + count <= |s.journal|
                              && (count == 0 ==> s.cursor == |s.journal|)
    case EngineLeaseExpires => true
    case EngineDies(_) => true
    case RunEngine(e) => EngineOf(s, e).Transitioning?
    case LeaseItem(w, id) => WorkerOf(s, w).WorkerIdle? && id in s.queue && s.queue[id].lease.None? && id < |s.issued|
    case ItemLeaseExpires(id) => id in s.queue
    case WorkerDies(_) => true
    case Handle(w, _, _, _) => WorkerOf(s, w).Handling? && WorkerOf(s, w).messageId < |s.issued|
    case AppendNext(w) => WorkerOf(s, w).Appending? && WorkerOf(s, w).rest != []
    case AppendFails(w, _, _) => WorkerOf(s, w).Appending? && WorkerOf(s, w).rest != []
        && WorkerOf(s, w).messageId < |s.issued|
    case Finish(w) => WorkerOf(s, w).Appending? && WorkerOf(s, w).rest == []
  }

  function Next(d: Deployment, s: System, step: Step): System
    requires Enabled(s, step)
  {
    match step
    case AppendJournal(event) => s.(journal := s.journal + [event])
    case Acquire(e, count) =>
      var snapshot := Snapshot(s.leases, s.state, s.spec, s.revision, s.cursor, s.journal[s.cursor..s.cursor + count]);
      SetEngine(s, e, Transitioning(snapshot)).(engineLease := Some(s.leases), leases := s.leases + 1)
    case EngineLeaseExpires => s.(engineLease := None)
    case EngineDies(e) => SetEngine(s, e, EngineIdle)
    case RunEngine(e) => EngineRuns(d, s, e, EngineOf(s, e).snapshot)
    case LeaseItem(w, id) =>
      var item := QueueItem(s.queue[id].attempt + 1, Some(s.leases));
      SetWorker(s, w, Handling(id, s.leases, item.attempt)).(queue := s.queue[id := item], leases := s.leases + 1)
    case ItemLeaseExpires(id) => s.(queue := s.queue[id := s.queue[id].(lease := None)])
    case WorkerDies(w) => SetWorker(s, w, WorkerIdle)
    case Handle(w, execution, stopped, detail) => Handled(d, s, w, WorkerOf(s, w), execution, stopped, detail)
    case AppendNext(w) =>
      var p := WorkerOf(s, w);
      SetWorker(s, w, p.(rest := p.rest[1..])).(journal := s.journal + [p.rest[0]])
    case AppendFails(w, stopped, detail) => AppendFailed(d, s, w, WorkerOf(s, w), stopped, detail)
    case Finish(w) =>
      var p := WorkerOf(s, w);
      SetWorker(RemoveItem(s, p.messageId, p.lease), w, WorkerIdle)
  }

  /** The system after a run; steps that are not enabled when their turn comes do not happen. */
  function After(d: Deployment, run: seq<Step>): System {
    if run == [] then Initial(d)
    else
      var s := After(d, run[..|run| - 1]);
      if Enabled(s, run[|run| - 1]) then Next(d, s, run[|run| - 1]) else s
  }
}
