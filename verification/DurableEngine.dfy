/** The engine loop and the queue lane as objects over the provider
    (packages/durable-runtime/src/runtime/browser-runtime.ts:43-94, 237-349): whatever other processes do between
    their provider calls, what they do is a run of the step system. */
module DurableEngine {
  import opened Json
  import opened DurableTransition
  import opened DurableRuntime
  import opened DurableTheorems

  datatype Process = AnEngine(e: nat) | AWorker(w: nat)

  /** A step of this process itself, its death included. */
  predicate Own(mine: Process, step: Step) {
    match mine
    case AnEngine(e) => step == RunEngine(e) || step == EngineDies(e) || (step.Acquire? && step.engine == e)
    case AWorker(w) =>
      step == WorkerDies(w) || step == AppendNext(w) || step == Finish(w)
      || (step.LeaseItem? && step.worker == w) || (step.Handle? && step.worker == w)
          || (step.AppendFails? && step.worker == w)
  }

  /** Everything outside this process, by the clock of its provider calls: what the others do meanwhile, what
      the executor does, which appends fail, whether the worker was told to stop. */
  datatype World = World(
    meanwhile: nat -> seq<Step>,
    executes: nat -> Execution, appendFails: nat -> bool, stopped: nat -> bool, detail: nat -> Json)

  lemma ProcessIsLocal(s: System, w: nat, process: WorkerProcess, messageId: nat, lease: nat)
    ensures LocalTo(s, SetWorker(s, w, process), w)
    ensures LocalTo(s, SetWorker(ReturnItem(s, messageId, lease), w, process), w)
  {
  }

  lemma ErrorIsLocal(d: Deployment, s: System, w: nat, messageId: nat, lease: nat, attempt: nat, stopped: bool,
      detail: Json)
    requires messageId < |s.issued|
    ensures LocalTo(s, OnError(d, s, w, messageId, lease, attempt, stopped, detail), w)
  {
    hide FailureEvents, LocalTo, SetWorker, ReturnItem;
    var events := FailureEvents(s.issued[messageId], messageId, detail);
    ProcessIsLocal(s, w, WorkerIdle, messageId, lease);
    ProcessIsLocal(s, w, Appending(messageId, lease, attempt, if events.Some? then events.value else [], ThenDead),
        messageId, lease);
  }

  lemma WorkerStepIsLocal(d: Deployment, s: System, w: nat, p: WorkerProcess, execution: Execution, stopped: bool,
      detail: Json)
    requires !p.WorkerIdle? && p.messageId < |s.issued|
    ensures p.Handling? ==> LocalTo(s, Handled(d, s, w, p, execution, stopped, detail), w)
    ensures p.Appending? ==> LocalTo(s, AppendFailed(d, s, w, p, stopped, detail), w)
  {
    hide SuccessEvents, LocalTo, SetWorker, ReturnItem, OnError;
    var events := SuccessEvents(s.issued[p.messageId], p.messageId, execution);
    ErrorIsLocal(d, s, w, p.messageId, p.lease, p.attempt, stopped, detail);
    ProcessIsLocal(s, w, WorkerIdle, p.messageId, p.lease);
    ProcessIsLocal(s, w,
        Appending(p.messageId, p.lease, p.attempt, if events.Some? then events.value else [], ThenAck), p.messageId,
        p.lease);
    ProcessIsLocal(s, w, Appending(p.messageId, p.lease, p.attempt, [], ThenAck), p.messageId, p.lease);
  }

  /** Only the queue and worker `w` differ. */
  ghost predicate LocalTo(s: System, t: System, w: nat) {
    && t.engines == s.engines && t.issued == s.issued
    && forall other :: other != w ==> WorkerOf(t, other) == WorkerOf(s, other)
  }

  lemma EngineStepIsLocal(d: Deployment, s: System, e: nat, snapshot: Snapshot)
    ensures var t := EngineRuns(d, s, e, snapshot);
            t.workers == s.workers && s.issued <= t.issued && t.engines == s.engines[e := EngineIdle]
  {
    hide Computed, Accepted;
  }

  /** The state of the process is its own business, and issued effects stay issued. */
  lemma OthersLeaveMine(d: Deployment, s: System, mine: Process, step: Step)
    requires Enabled(s, step) && !Own(mine, step)
    ensures mine.AnEngine? ==> EngineOf(Next(d, s, step), mine.e) == EngineOf(s, mine.e)
    ensures mine.AWorker? ==> WorkerOf(Next(d, s, step), mine.w) == WorkerOf(s, mine.w)
    ensures s.issued <= Next(d, s, step).issued
  {
    hide EngineRuns, Handled, AppendFailed;
    match step
    case RunEngine(e) => EngineStepIsLocal(d, s, e, EngineOf(s, e).snapshot);
    case Handle(w, execution, stopped, detail) => WorkerStepIsLocal(d, s, w, WorkerOf(s, w), execution, stopped,
        detail);
    case AppendFails(w, stopped, detail) => WorkerStepIsLocal(d, s, w, WorkerOf(s, w), Threw, stopped, detail);
    case _ =>
  }

  lemma AfterStep(d: Deployment, run: seq<Step>, step: Step)
    requires Enabled(After(d, run), step)
    ensures After(d, run + [step]) == Next(d, After(d, run), step)
  {
    assert (run + [step])[..|run|] == run;
  }

  datatype EngineStatus = Busy | Idle | Aborted | Conflict | CommittedNow

  datatype LaneStatus = LaneIdle | Retry | Dead | AckLost | Completed

  /** What an engine's status says about the step that ended its run. */
  ghost predicate EngineRan(d: Deployment, before: System, after: System, e: nat, status: EngineStatus) {
    && EngineOf(before, e).Transitioning?
    && var snapshot := EngineOf(before, e).snapshot;
       && (status.Idle? <==> snapshot.entries == [])
       && (status.Aborted? <==> snapshot.entries != [] && Computed(d, snapshot).None?)
       && (status.CommittedNow? <==>
           snapshot.entries != [] && Computed(d, snapshot).Some?
           && CommitAllowed(before, snapshot))
       && (if status.CommittedNow?
           then
             && |after.commits| == |before.commits| + 1 && before.commits <= after.commits
             && after.cursor == before.cursor + |snapshot.entries|
           else
             && after.commits == before.commits && after.cursor == before.cursor && after.state == before.state
             && after.spec == before.spec)
  }

  class DurableRuntimeHost {
    const d: Deployment
    const world: World
    var system: System
    var clock: nat
    ghost var history: seq<Step>

    ghost predicate Valid()
      reads this
    {
      system == After(d, history)
    }

    constructor (d: Deployment, world: World)
      ensures this.d == d && this.world == world && Valid() && history == []
    {
      this.d, this.world, clock := d, world, 0;
      system, history := Initial(d), [];
    }

    /** One step that is enabled happens. */
    method Take(step: Step)
      requires Valid() && Enabled(system, step)
      modifies this
      ensures Valid() && system == Next(d, old(system), step) && history == old(history) + [step] && clock == old(clock)
    {
      AfterStep(d, history, step);
      system := Next(d, system, step);
      history := history + [step];
    }

    /** Between two provider calls of one process the others take whatever steps they can. */
    method Meanwhile(mine: Process)
      requires Valid()
      modifies this
      ensures Valid() && old(history) <= history
      ensures mine.AnEngine? ==> EngineOf(system, mine.e) == EngineOf(old(system), mine.e)
      ensures mine.AWorker? ==> WorkerOf(system, mine.w) == WorkerOf(old(system), mine.w)
      ensures old(system).issued <= system.issued
    {
      var steps := world.meanwhile(clock);
      clock := clock + 1;
      for i := 0 to |steps|
        invariant Valid() && old(history) <= history
        invariant mine.AnEngine? ==> EngineOf(system, mine.e) == EngineOf(old(system), mine.e)
        invariant mine.AWorker? ==> WorkerOf(system, mine.w) == WorkerOf(old(system), mine.w)
        invariant old(system).issued <= system.issued
      {
        if !Own(mine, steps[i]) && Enabled(system, steps[i]) {
          OthersLeaveMine(d, system, mine, steps[i]);
          Take(steps[i]);
        }
      }
    }

    /** executeEngine.  It commits exactly when its snapshot's entries fold and nobody else committed or took
        the lease meanwhile; in every other case the committed data is what the others left. */
    method ExecuteEngine(e: nat, count: nat) returns (status: EngineStatus)
      requires Valid() && EngineOf(system, e).EngineIdle?
      modifies this
      ensures Valid() && old(history) <= history && EngineOf(system, e).EngineIdle?
      ensures status.Busy? ==> history == old(history)
      ensures !status.Busy? ==> history != [] && history[|history| - 1] == RunEngine(e)
      ensures !status.Busy? ==> EngineRan(d, After(d, history[..|history| - 1]), system, e, status)
    {
      hide EngineRan;
      if !Enabled(system, Acquire(e, count)) {
        return Busy;
      }
      Take(Acquire(e, count));
      var snapshot := system.engines[e].snapshot;
      Meanwhile(AnEngine(e));
      status := FoldSnapshot(e, snapshot);
    }

    /** `executeEngine` after its acquire. */
    method FoldSnapshot(e: nat, snapshot: Snapshot) returns (status: EngineStatus)
      requires Valid() && EngineOf(system, e) == Transitioning(snapshot)
      modifies this
      ensures Valid() && history == old(history) + [RunEngine(e)] && EngineOf(system, e).EngineIdle?
      ensures !status.Busy? && EngineRan(d, old(system), system, e, status)
    {
      hide Transition, ApplyUpdates, Accepted, NewItems;
      AfterStep(d, history, RunEngine(e));
      system := SetEngine(system, e, EngineIdle);
      if |snapshot.entries| == 0 {
        system := ReleaseLease(system, snapshot.lease);
        status := Idle;
      } else {
        var output := Transition(d.engine, snapshot.state, snapshot.spec, snapshot.entries);
        var spec := if output.None? then None else ApplyUpdates(d.engine, snapshot.spec, output.value.updates);
        if spec.None? {
          system := ReleaseLease(system, snapshot.lease);
          status := Aborted;
        } else if system.engineLease == Some(snapshot.lease) && system.revision == snapshot.revision
            && system.cursor == snapshot.cursor {
          system := ReleaseLease(Committed(system, snapshot, output.value, spec.value), snapshot.lease);
          status := CommittedNow;
        } else {
          status := Conflict;
        }
      }
      history := history + [RunEngine(e)];
    }

    /** A plain nack. */
    method ReturnMessage(w: nat, messageId: nat, lease: nat)
      modifies this`system
      ensures system == SetWorker(ReturnItem(old(system), messageId, lease), w, WorkerIdle)
    {
      if messageId in system.queue && system.queue[messageId].lease == Some(lease) {
        system := system.(queue := system.queue[messageId := system.queue[messageId].(lease := None)]);
      }
      system := SetWorker(system, w, WorkerIdle);
    }

    /** Ack and dead nack; the answer says whether the message was still held. */
    method RemoveMessage(w: nat, messageId: nat, lease: nat) returns (held: bool)
      modifies this`system
      ensures system == SetWorker(RemoveItem(old(system), messageId, lease), w, WorkerIdle)
      ensures held <==> messageId in old(system).queue && old(system).queue[messageId].lease == Some(lease)
    {
      held := messageId in system.queue && system.queue[messageId].lease == Some(lease);
      if held {
        system := system.(queue := system.queue - {messageId});
      }
      system := SetWorker(system, w, WorkerIdle);
    }

    /** The append loop: one event after the other, each at its own time.  It stops at the first that fails. */
    method AppendEvents(w: nat) returns (ok: bool)
      requires Valid() && WorkerOf(system, w).Appending?
      modifies this
      ensures Valid() && old(history) <= history && old(system).issued <= system.issued
      ensures WorkerOf(system, w).Appending?
      ensures WorkerOf(system, w) == WorkerOf(old(system), w).(rest := WorkerOf(system, w).rest)
      ensures ok <==> WorkerOf(system, w).rest == []
    {
      ghost var p := WorkerOf(system, w);
      while WorkerOf(system, w).rest != []
        invariant Valid() && old(history) <= history && old(system).issued <= system.issued
        invariant WorkerOf(system, w).Appending? && WorkerOf(system, w) == p.(rest := WorkerOf(system, w).rest)
        decreases |WorkerOf(system, w).rest|
      {
        Meanwhile(AWorker(w));
        if world.appendFails(clock) {
          return false;
        }
        Take(AppendNext(w));
      }
      ok := true;
    }

    /** The message is let go: acknowledged, or dead-lettered by a nack. */
    method FinishMessage(w: nat) returns (held: bool)
      requires Valid() && WorkerOf(system, w).Appending? && WorkerOf(system, w).rest == []
      modifies this
      ensures Valid() && history == old(history) + [Finish(w)] && WorkerOf(system, w).WorkerIdle?
          && system.issued == old(system).issued
      ensures var id := WorkerOf(old(system), w).messageId;
              && id < |system.issued| && (NeedsSettlement(system.issued[id]) ==> Accounted(system, id))
              && (held ==> id !in system.queue)
    {
      hide Accounted;
      var p := system.workers[w];
      NothingLeftIsAccounted(d, history, w);
      AfterStep(d, history, Finish(w));
      held := RemoveMessage(w, p.messageId, p.lease);
      history := history + [Finish(w)];
      SameAccounts(old(system), system, p.messageId);
    }

    /** The catch block up to the failure events: they are to be appended only on the last attempt.  `step` is
        the step of this worker that failed. */
    method BeginFailure(w: nat, messageId: nat, lease: nat, attempt: nat, stopped: bool, detail: Json,
        ghost step: Step) returns (dead: bool)
      requires Valid() && messageId < |system.issued|
      requires Enabled(system, step) && Next(d, system, step)
          == OnError(d, system, w, messageId, lease, attempt, stopped, detail)
      modifies this
      ensures Valid() && history == old(history) + [step] && system.issued == old(system).issued
      ensures if dead then WorkerOf(system, w).Appending? && WorkerOf(system, w).messageId == messageId
          && WorkerOf(system, w).ending == ThenDead
              else WorkerOf(system, w).WorkerIdle?
    {
      hide Next, Enabled, FailureEvents;
      AfterStep(d, history, step);
      dead := !stopped && attempt >= (if d.maxAttempts < 1 then 1 else d.maxAttempts);
      var events := if dead then FailureEvents(system.issued[messageId], messageId, detail) else None;
      dead := events.Some?;
      if dead {
        system := SetWorker(system, w, Appending(messageId, lease, attempt, events.value, ThenDead));
      } else {
        ReturnMessage(w, messageId, lease);
      }
      history := history + [step];
    }

    /** An append failed while dead-lettering: the message goes back. */
    method GiveBack(w: nat, stopped: bool, detail: Json)
      requires Valid() && WorkerOf(system, w).Appending? && WorkerOf(system, w).rest != []
          && WorkerOf(system, w).ending == ThenDead
      requires WorkerOf(system, w).messageId < |system.issued|
      modifies this
      ensures Valid() && history == old(history) + [AppendFails(w, stopped, detail)]
          && system.issued == old(system).issued
      ensures WorkerOf(system, w).WorkerIdle?
    {
      hide OnError;
      var p := system.workers[w];
      AfterStep(d, history, AppendFails(w, stopped, detail));
      ReturnMessage(w, p.messageId, p.lease);
      history := history + [AppendFails(w, stopped, detail)];
    }

    /** The catch block. */
    method HandleError(w: nat, messageId: nat, lease: nat, attempt: nat, stopped: bool, detail: Json,
        ghost step: Step) returns (status: LaneStatus)
      requires Valid() && messageId < |system.issued|
      requires Enabled(system, step) && Next(d, system, step)
          == OnError(d, system, w, messageId, lease, attempt, stopped, detail)
      modifies this
      ensures Valid() && old(history) <= history && old(system).issued <= system.issued
      ensures WorkerOf(system, w).WorkerIdle? && (status.Retry? || status.Dead?)
      ensures status.Dead? && NeedsSettlement(old(system).issued[messageId]) ==> Accounted(system, messageId)
    {
      hide Next, Enabled, OnError, Accounted, NeedsSettlement;
      var dead := BeginFailure(w, messageId, lease, attempt, stopped, detail, step);
      if !dead {
        return Retry;
      }
      var ok := AppendEvents(w);
      if ok {
        var held := FinishMessage(w);
        return Dead;
      }
      GiveBack(w, world.stopped(clock), world.detail(clock));
      status := Retry;
    }

    /** The handler answered: its events are to be appended, unless the worker was told to stop. */
    method BeginAppending(w: nat, execution: Execution, events: seq<Event>, stopped: bool, detail: Json)
      requires Valid() && WorkerOf(system, w).Handling? && WorkerOf(system, w).messageId < |system.issued|
      requires var id := WorkerOf(system, w).messageId;
               (if id in system.spec.settled then Some([]) else SuccessEvents(system.issued[id], id, execution))
                   == Some(events)
      modifies this
      ensures Valid() && history == old(history) + [Handle(w, execution, stopped, detail)]
          && system.issued == old(system).issued
      ensures var p := WorkerOf(old(system), w);
              WorkerOf(system, w) == if stopped then WorkerIdle
                  else Appending(p.messageId, p.lease, p.attempt, events, ThenAck)
    {
      hide SuccessEvents, OnError;
      var p := system.workers[w];
      AfterStep(d, history, Handle(w, execution, stopped, detail));
      if stopped {
        ReturnMessage(w, p.messageId, p.lease);
      } else {
        system := SetWorker(system, w, Appending(p.messageId, p.lease, p.attempt, events, ThenAck));
      }
      history := history + [Handle(w, execution, stopped, detail)];
    }

    /** processQueueLaneItem.  Whatever it reports but "idle" and "retry", a settlement of the message is in the
        journal or the message was already settled; a completed message has left the queue. */
    method ProcessQueueLaneItem(w: nat, messageId: nat) returns (status: LaneStatus)
      requires Valid() && WorkerOf(system, w).WorkerIdle?
      modifies this
      ensures Valid() && old(history) <= history && WorkerOf(system, w).WorkerIdle?
      ensures status.LaneIdle? <==> !Enabled(old(system), LeaseItem(w, messageId))
      ensures status.LaneIdle? ==> history == old(history)
      ensures (status.Dead? || status.AckLost? || status.Completed?) && NeedsSettlement(old(system).issued[messageId])
          ==> Accounted(system, messageId)
      ensures status.Completed? ==> messageId !in system.queue
    {
      hide OnError, Accounted, NeedsSettlement, SuccessEvents;
      if !Enabled(system, LeaseItem(w, messageId)) {
        return LaneIdle;
      }
      Take(LeaseItem(w, messageId));
      var p := system.workers[w];
      Meanwhile(AWorker(w));
      var execution, stopped, detail := world.executes(clock), world.stopped(clock), world.detail(clock);
      var events := if messageId in system.spec.settled then Some([])
          else SuccessEvents(system.issued[messageId], messageId, execution);
      if events.None? {
        status := HandleError(w, messageId, p.lease, p.attempt, stopped, detail, Handle(w, execution, stopped, detail));
        return;
      }
      BeginAppending(w, execution, events.value, stopped, detail);
      if stopped {
        return Retry;
      }
      status := AppendAndAcknowledge(w);
    }

    method AppendAndAcknowledge(w: nat) returns (status: LaneStatus)
      requires Valid() && WorkerOf(system, w).Appending? && WorkerOf(system, w).ending == ThenAck
      requires WorkerOf(system, w).messageId < |system.issued|
      modifies this
      ensures Valid() && old(history) <= history && WorkerOf(system, w).WorkerIdle? && !status.LaneIdle?
      ensures var id := WorkerOf(old(system), w).messageId;
              && ((status.Dead? || status.AckLost? || status.Completed?) && NeedsSettlement(old(system).issued[id])
                  ==> Accounted(system, id))
              && (status.Completed? ==> id !in system.queue)
    {
      hide OnError, Accounted, NeedsSettlement;
      var p := system.workers[w];
      var ok := AppendEvents(w);
      if ok {
        var held := FinishMessage(w);
        return if held then Completed else AckLost;
      }
      var stopped, detail := world.stopped(clock), world.detail(clock);
      status := HandleError(w, p.messageId, p.lease, p.attempt, stopped, detail, AppendFails(w, stopped, detail));
    }
  }

  lemma SameAccounts(s: System, t: System, id: nat)
    requires t.journal == s.journal && t.spec == s.spec
    ensures Accounted(s, id) ==> Accounted(t, id)
  {
  }

  /** A worker with nothing left to append may let its message go. */
  lemma NothingLeftIsAccounted(d: Deployment, run: seq<Step>, w: nat)
    requires WorkerOf(After(d, run), w).Appending? && WorkerOf(After(d, run), w).rest == []
    ensures var s := After(d, run); var id := WorkerOf(s, w).messageId;
            id < |s.issued| && (NeedsSettlement(s.issued[id]) ==> Accounted(s, id))
  {
    NoEffectVanishes(d, run);
  }
}
