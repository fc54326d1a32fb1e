/** What workers append, when they give a message back and when they give it up
    (packages/durable-runtime/src/runtime/browser-runtime.ts:237-349, blueprint/src/worker.ts:170-278). */
module DurableWorkers {
  import opened Json
  import opened DurableTransition
  import opened DurableRuntime
  import opened DurableTheorems

  // ---- the events of an effect ------------------------------------------------------------------------

  /** An executed effect that must settle appends one settlement with its result and itself; any other nothing.  A
      request whose executor made no settlement, and any throw, is an error. */
  lemma SuccessIs(effect: Effect, messageId: nat, execution: Execution)
    ensures SuccessEvents(effect, messageId, execution).None?
       <==> execution.Threw? || (effect.Request? && !execution.settlement)
    ensures SuccessEvents(effect, messageId, execution).Some? ==>
              SuccessEvents(effect, messageId, execution).value
              == if NeedsSettlement(effect) then [Settlement(messageId, execution.result, Some(effect))] else []
  {
  }

  /** A given-up effect that must settle appends one settlement with the failure. */
  lemma FailureIs(effect: Effect, messageId: nat, detail: Json)
    ensures FailureEvents(effect, messageId, detail).None? <==> effect.Request? && effect.effectId.None?
    ensures FailureEvents(effect, messageId, detail).Some? ==>
              FailureEvents(effect, messageId, detail).value
              == if NeedsSettlement(effect) then [Settlement(messageId, detail, Some(effect))] else []
  {
  }

  // ---- one step of a worker ---------------------------------------------------------------------------

  function Limit(d: Deployment): nat {
    if d.maxAttempts < 1 then 1 else d.maxAttempts
  }

  /** The message is visible to every worker again, with the attempts it had. */
  ghost predicate GivenBack(s: System, t: System, w: nat, messageId: nat, lease: nat) {
    && WorkerOf(t, w).WorkerIdle? && t.queue.Keys == s.queue.Keys && t.journal == s.journal
    && (messageId in s.queue && s.queue[messageId].lease == Some(lease)
        ==> t.queue[messageId].lease.None? && t.queue[messageId].attempt == s.queue[messageId].attempt)
    && forall id :: id in s.queue && id != messageId ==> t.queue[id] == s.queue[id]
  }

  /** A failed attempt gives the message back while attempts are left or the host stops; after the last one the
      failure is about to be appended and the message given up, where its failure can be told at all. */
  lemma FailedAttempt(d: Deployment, s: System, w: nat, messageId: nat, lease: nat, attempt: nat, stopped: bool,
      detail: Json)
    requires messageId < |s.issued|
    ensures var t := OnError(d, s, w, messageId, lease, attempt, stopped, detail);
            if stopped || attempt < Limit(d) || FailureEvents(s.issued[messageId], messageId, detail).None?
            then GivenBack(s, t, w, messageId, lease)
            else WorkerOf(t, w) == Appending(messageId, lease, attempt,
                   FailureEvents(s.issued[messageId], messageId, detail).value, ThenDead) && t.queue == s.queue
  {
  }

  /** A message settled before is acknowledged without executing its effect again; any other is executed, and its
      events are appended before the acknowledgement. */
  lemma HandledMessage(d: Deployment, s: System, w: nat, execution: Execution, detail: Json)
    requires WorkerOf(s, w).Handling? && WorkerOf(s, w).messageId < |s.issued|
    ensures var p := WorkerOf(s, w);
            var events := SuccessEvents(s.issued[p.messageId], p.messageId, execution);
            var t := Handled(d, s, w, p, execution, false, detail);
            && (p.messageId in s.spec.settled
                ==> WorkerOf(t, w) == Appending(p.messageId, p.lease, p.attempt, [], ThenAck) && t.queue == s.queue)
            && (p.messageId !in s.spec.settled && events.Some?
                ==> WorkerOf(t, w) == Appending(p.messageId, p.lease, p.attempt, events.value, ThenAck)
                    && t.queue == s.queue)
            && (p.messageId !in s.spec.settled && events.None?
                ==> t == OnError(d, s, w, p.messageId, p.lease, p.attempt, false, detail))
  {
  }

  /** Finishing removes the message it still holds, and no other; a lost lease removes nothing. */
  lemma FinishedMessage(d: Deployment, s: System, w: nat)
    requires Enabled(s, Finish(w))
    ensures var p, t := WorkerOf(s, w), Next(d, s, Finish(w));
            && WorkerOf(t, w).WorkerIdle? && t.journal == s.journal
            && (forall id :: id != p.messageId ==> (id in t.queue <==> id in s.queue))
            && (forall id :: id in t.queue ==> t.queue[id] == s.queue[id])
            && (p.messageId in s.queue ==> (p.messageId in t.queue <==> s.queue[p.messageId].lease != Some(p.lease)))
  {
  }

  // ---- giving up ------------------------------------------------------------------------------------------

  /** Whoever is giving a message up has made the last of its attempts. */
  ghost predicate GivesUpLate(d: Deployment, s: System) {
    forall w :: WorkerOf(s, w).Appending? && WorkerOf(s, w).ending.ThenDead? ==> WorkerOf(s, w).attempt >= Limit(d)
  }

  lemma OnErrorGivesUpLate(d: Deployment, s: System, w: nat, messageId: nat, lease: nat, attempt: nat, stopped: bool,
      detail: Json)
    requires GivesUpLate(d, s) && messageId < |s.issued|
    ensures GivesUpLate(d, OnError(d, s, w, messageId, lease, attempt, stopped, detail))
  {
    var t := OnError(d, s, w, messageId, lease, attempt, stopped, detail);
    assert forall v :: v != w ==> WorkerOf(t, v) == WorkerOf(s, v);
  }

  lemma WorkerChanges(d: Deployment, s: System, t: System, w: nat)
    requires GivesUpLate(d, s) && forall v :: v != w ==> WorkerOf(t, v) == WorkerOf(s, v)
    requires WorkerOf(t, w).Appending? && WorkerOf(t, w).ending.ThenDead? ==> WorkerOf(t, w).attempt >= Limit(d)
    ensures GivesUpLate(d, t)
  {
  }

  lemma StepGivesUpLate(d: Deployment, s: System, step: Step)
    requires GivesUpLate(d, s) && Enabled(s, step)
    ensures GivesUpLate(d, Next(d, s, step))
  {
    var t := Next(d, s, step);
    match step
    case LeaseItem(w, id) => WorkerChanges(d, s, t, w);
    case WorkerDies(w) => WorkerChanges(d, s, t, w);
    case AppendNext(w) => WorkerChanges(d, s, t, w);
    case Finish(w) => WorkerChanges(d, s, t, w);
    case Handle(w, execution, stopped, detail) =>
      var p := WorkerOf(s, w);
      OnErrorGivesUpLate(d, s, w, p.messageId, p.lease, p.attempt, stopped, detail);
      hide OnError;
      if t != OnError(d, s, w, p.messageId, p.lease, p.attempt, stopped, detail) {
        WorkerChanges(d, s, t, w);
      }
    case AppendFails(w, stopped, detail) =>
      var p := WorkerOf(s, w);
      OnErrorGivesUpLate(d, s, w, p.messageId, p.lease, p.attempt, stopped, detail);
      hide OnError;
      if p.ending.ThenDead? {
        WorkerChanges(d, s, t, w);
      }
    case _ => assert forall w :: WorkerOf(t, w) == WorkerOf(s, w);
  }

  /** In every run a message is given up only by a worker that leased it for at least the last allowed attempt. */
  lemma {:induction false} GivenUpOnlyAfterLimit(d: Deployment, run: seq<Step>)
    ensures GivesUpLate(d, After(d, run))
  {
    if run != [] {
      GivenUpOnlyAfterLimit(d, run[..|run| - 1]);
      var s := After(d, run[..|run| - 1]);
      if Enabled(s, run[|run| - 1]) {
        StepGivesUpLate(d, s, run[|run| - 1]);
      }
      hide GivesUpLate, Next, Enabled;
    }
  }
}
