/** Safety of every run of the durable runtime. */
module DurableTheorems {
  import opened Json
  import opened DurableTransition
  import opened DurableRuntime

  // ---- exactly once, in order ---------------------------------------------------------

  /** The reference: fold the journal range by range, with no leases, races or failures. */
  datatype Folded = Folded(state: Json, spec: Spec, issued: seq<Effect>)

  function Replay(d: Deployment, journal: seq<Event>, commits: seq<Commit>): Option<Folded> {
    if commits == [] then Some(Folded(d.initialState, Spec(d.blueprint, []), []))
    else
      var c := commits[|commits| - 1];
      match Replay(d, journal, commits[..|commits| - 1])
      case None => None
      case Some(before) =>
        if !(c.from < c.to <= |journal|) then None
        else
          match Computed(d, Snapshot(0, before.state, before.spec, 0, 0, journal[c.from..c.to]))
          case None => None
          case Some((output, spec)) => Some(Folded(output.state, spec, before.issued + output.effects))
  }

  /** The ranges follow one another from the start of the journal up to the cursor. */
  predicate Contiguous(commits: seq<Commit>, cursor: nat) {
    if commits == [] then cursor == 0
    else
      var c := commits[|commits| - 1];
      c.from < c.to == cursor && Contiguous(commits[..|commits| - 1], c.from)
  }

  function AllAccepted(commits: seq<Commit>): seq<nat> {
    if commits == [] then [] else AllAccepted(commits[..|commits| - 1]) + commits[|commits| - 1].accepted
  }

  /** A snapshot under the current revision is the committed state itself, and its entries are the journal's. */
  ghost predicate SnapshotFaithful(s: System, snapshot: Snapshot) {
    && snapshot.revision <= s.revision
    && (snapshot.revision == s.revision ==>
        snapshot.state == s.state && snapshot.spec == s.spec
        && snapshot.cursor == s.cursor)
    && snapshot.cursor + |snapshot.entries| <= |s.journal|
    && s.journal[snapshot.cursor..snapshot.cursor + |snapshot.entries|] == snapshot.entries
  }

  ghost predicate FoldInvariant(d: Deployment, s: System) {
    && s.cursor <= |s.journal|
    && Replay(d, s.journal, s.commits) == Some(Folded(s.state, s.spec, s.issued))
    && Contiguous(s.commits, s.cursor)
    && s.spec.settled == AllAccepted(s.commits)
    && Distinct(s.spec.settled)
    && ToSet(s.spec.settled) == Ids(s.journal[..s.cursor])
    && forall e :: EngineOf(s, e).Transitioning? ==> SnapshotFaithful(s, EngineOf(s, e).snapshot)
  }

  /** The journal only grows, so what was folded stays what was folded. */
  lemma {:induction false} ReplayOfLongerJournal(d: Deployment, journal: seq<Event>, more: seq<Event>,
      commits: seq<Commit>)
    requires Replay(d, journal, commits).Some?
    ensures Replay(d, journal + more, commits) == Replay(d, journal, commits)
  {
    if commits != [] {
      var c := commits[|commits| - 1];
      ReplayOfLongerJournal(d, journal, more, commits[..|commits| - 1]);
      assert (journal + more)[c.from..c.to] == journal[c.from..c.to];
    }
  }

  lemma AppendKeepsFold(d: Deployment, s: System, event: Event)
    requires FoldInvariant(d, s)
    ensures FoldInvariant(d, s.(journal := s.journal + [event]))
  {
    hide Replay, Contiguous, AllAccepted, Distinct, Ids, ToSet;
    var t := s.(journal := s.journal + [event]);
    ReplayOfLongerJournal(d, s.journal, [event], s.commits);
    assert t.journal[..t.cursor] == s.journal[..s.cursor];
    forall e | EngineOf(t, e).Transitioning?
      ensures SnapshotFaithful(t, EngineOf(t, e).snapshot)
    {
      var snapshot := EngineOf(t, e).snapshot;
      assert SnapshotFaithful(s, EngineOf(s, e).snapshot);
      assert t.journal[snapshot.cursor..snapshot.cursor + |snapshot.entries|]
          == s.journal[snapshot.cursor..snapshot.cursor + |snapshot.entries|];
    }
  }

  lemma IdsOfConcat(a: seq<Event>, b: seq<Event>)
    ensures Ids(a + b) == Ids(a) + Ids(b)
  {
    assert forall e :: e in a + b <==> e in a || e in b;
  }

  lemma DistinctConcat(a: seq<nat>, b: seq<nat>)
    requires Distinct(a) && Distinct(b) && ToSet(a) !! ToSet(b)
    ensures Distinct(a + b) && ToSet(a + b) == ToSet(a) + ToSet(b)
  {
    forall i, j | 0 <= i < j < |a + b|
      ensures (a + b)[i] != (a + b)[j]
    {
      if i < |a| <= j {
        assert a[i] in ToSet(a) && b[j - |a|] in ToSet(b);
      }
    }
  }

  /** A commit that passes the compare-and-swap folds the next range of the journal, once. */
  lemma CommitKeepsFold(d: Deployment, s: System, snapshot: Snapshot)
    requires FoldInvariant(d, s) && SnapshotFaithful(s, snapshot) && CommitAllowed(s, snapshot)
    requires snapshot.entries != [] && Computed(d, snapshot).Some?
    ensures FoldInvariant(d, Committed(s, snapshot, Computed(d, snapshot).value.0, Computed(d, snapshot).value.1))
  {
    hide Transition, ApplyUpdates, Accepted, Distinct, Ids, ToSet;
    var (output, spec) := Computed(d, snapshot).value;
    var t := Committed(s, snapshot, output, spec);
    var c := t.commits[|t.commits| - 1];
    assert t.commits[..|t.commits| - 1] == s.commits;
    TransitionRecordsAccepted(d.engine, s.state, s.spec, snapshot.entries);
    AcceptedExactly(snapshot.entries, ToSet(s.spec.settled));
    DistinctConcat(s.spec.settled, c.accepted);
    IdsOfConcat(s.journal[..s.cursor], snapshot.entries);
    assert s.journal[..t.cursor] == s.journal[..s.cursor] + snapshot.entries;
    assert Computed(d, Snapshot(0, s.state, s.spec, 0, 0, snapshot.entries)) == Computed(d, snapshot);
    forall e | EngineOf(t, e).Transitioning?
      ensures SnapshotFaithful(t, EngineOf(t, e).snapshot)
    {
      assert SnapshotFaithful(s, EngineOf(s, e).snapshot);
    }
  }

  /** Nothing the workers and the leases do reaches the committed data. */
  lemma SameFold(d: Deployment, s: System, t: System)
    requires FoldInvariant(d, s)
    requires t == s.(engineLease := t.engineLease, leases := t.leases, queue := t.queue, engines := t.engines,
        workers := t.workers)
    requires forall e :: EngineOf(t, e).Transitioning? ==>
               EngineOf(t, e) == EngineOf(s, e) || SnapshotFaithful(s, EngineOf(t, e).snapshot)
    ensures FoldInvariant(d, t)
  {
    forall e | EngineOf(t, e).Transitioning?
      ensures SnapshotFaithful(t, EngineOf(t, e).snapshot)
    {
      assert EngineOf(t, e) == EngineOf(s, e) || SnapshotFaithful(s, EngineOf(t, e).snapshot);
      assert SnapshotFaithful(s, EngineOf(t, e).snapshot);
    }
  }

  lemma HeldSnapshotFaithful(d: Deployment, s: System, e: nat)
    requires FoldInvariant(d, s) && EngineOf(s, e).Transitioning?
    ensures SnapshotFaithful(SetEngine(s, e, EngineIdle), EngineOf(s, e).snapshot)
  {
  }

  lemma EngineKeepsFold(d: Deployment, s: System, e: nat)
    requires FoldInvariant(d, s) && EngineOf(s, e).Transitioning?
    ensures FoldInvariant(d, EngineRuns(d, s, e, EngineOf(s, e).snapshot))
  {
    hide FoldInvariant, SnapshotFaithful, Computed, Committed;
    var snapshot := EngineOf(s, e).snapshot;
    var done := SetEngine(s, e, EngineIdle);
    SameFold(d, s, done);
    assert SnapshotFaithful(done, snapshot) by {
      HeldSnapshotFaithful(d, s, e);
    }
    SameFold(d, s, ReleaseLease(done, snapshot.lease));
    if snapshot.entries != [] && Computed(d, snapshot).Some? && CommitAllowed(s, snapshot) {
      CommitKeepsFold(d, done, snapshot);
      var committed := Committed(done, snapshot, Computed(d, snapshot).value.0, Computed(d, snapshot).value.1);
      SameFold(d, committed, ReleaseLease(committed, snapshot.lease));
    }
  }

  lemma AcquireKeepsFold(d: Deployment, s: System, e: nat, count: nat)
    requires FoldInvariant(d, s) && Enabled(s, Acquire(e, count))
    ensures FoldInvariant(d, Next(d, s, Acquire(e, count)))
  {
    SameFold(d, s, Next(d, s, Acquire(e, count)));
  }

  predicate IsJournalOrEngineStep(step: Step) {
    step.AppendJournal? || step.Acquire? || step.RunEngine? || step.AppendNext?
  }

  /** Only leases, queue and processes differ, and no engine got a new snapshot. */
  ghost predicate SameData(s: System, t: System) {
    && t == s.(engineLease := t.engineLease, leases := t.leases, queue := t.queue, engines := t.engines,
        workers := t.workers)
    && forall e :: EngineOf(t, e).Transitioning? ==> EngineOf(t, e) == EngineOf(s, e)
  }

  lemma WorkersLeaveData(d: Deployment, s: System, w: nat, p: WorkerProcess, execution: Execution, stopped: bool,
      detail: Json)
    requires !p.WorkerIdle? && p.messageId < |s.issued|
    ensures p.Handling? ==> SameData(s, Handled(d, s, w, p, execution, stopped, detail))
    ensures p.Appending? ==> SameData(s, AppendFailed(d, s, w, p, stopped, detail))
  {
    hide SuccessEvents, FailureEvents, SameData, SetWorker, ReturnItem;
    var events := SuccessEvents(s.issued[p.messageId], p.messageId, execution);
    var failure := FailureEvents(s.issued[p.messageId], p.messageId, detail);
    OneWorkerSameData(s, w, WorkerIdle, p.messageId, p.lease);
    OneWorkerSameData(s, w,
        Appending(p.messageId, p.lease, p.attempt, if failure.Some? then failure.value else [], ThenDead), p.messageId,
        p.lease);
    OneWorkerSameData(s, w,
        Appending(p.messageId, p.lease, p.attempt, if events.Some? then events.value else [], ThenAck), p.messageId,
        p.lease);
    OneWorkerSameData(s, w, Appending(p.messageId, p.lease, p.attempt, [], ThenAck), p.messageId, p.lease);
  }

  lemma OneWorkerSameData(s: System, w: nat, process: WorkerProcess, messageId: nat, lease: nat)
    ensures SameData(s, SetWorker(s, w, process)) && SameData(s, SetWorker(ReturnItem(s, messageId, lease), w, process))
  {
  }

  /** Expiring leases, crashes and workers touch leases, queue and processes only. */
  lemma OtherStepsLeaveData(d: Deployment, s: System, step: Step)
    requires Enabled(s, step) && !IsJournalOrEngineStep(step)
    ensures SameData(s, Next(d, s, step))
  {
    hide Handled, AppendFailed;
    match step
    case Handle(w, execution, stopped, detail) => WorkersLeaveData(d, s, w, WorkerOf(s, w), execution, stopped, detail);
    case AppendFails(w, stopped, detail) => WorkersLeaveData(d, s, w, WorkerOf(s, w), Threw, stopped, detail);
    case _ =>
  }

  lemma AppendNextKeepsFold(d: Deployment, s: System, w: nat)
    requires FoldInvariant(d, s) && Enabled(s, AppendNext(w))
    ensures FoldInvariant(d, Next(d, s, AppendNext(w)))
  {
    hide FoldInvariant;
    var p := WorkerOf(s, w);
    AppendKeepsFold(d, s, p.rest[0]);
    SameFold(d, s.(journal := s.journal + [p.rest[0]]), Next(d, s, AppendNext(w)));
  }

  lemma StepKeepsFold(d: Deployment, s: System, step: Step)
    requires FoldInvariant(d, s) && Enabled(s, step)
    ensures FoldInvariant(d, Next(d, s, step))
  {
    hide FoldInvariant;
    match step
    case AppendJournal(event) => AppendKeepsFold(d, s, event);
    case Acquire(e, count) => AcquireKeepsFold(d, s, e, count);
    case RunEngine(e) => EngineKeepsFold(d, s, e);
    case AppendNext(w) => AppendNextKeepsFold(d, s, w);
    case _ =>
      OtherStepsLeaveData(d, s, step);
      hide Next;
      SameFold(d, s, Next(d, s, step));
  }

  lemma {:induction false} RunsFold(d: Deployment, run: seq<Step>)
    ensures FoldInvariant(d, After(d, run))
  {
    if run != [] {
      RunsFold(d, run[..|run| - 1]);
      var s := After(d, run[..|run| - 1]);
      if Enabled(s, run[|run| - 1]) {
        StepKeepsFold(d, s, run[|run| - 1]);
      }
    }
  }

  lemma {:induction false} RangesCover(commits: seq<Commit>, cursor: nat, k: nat)
    requires Contiguous(commits, cursor) && k < cursor
    ensures exists i :: 0 <= i < |commits| && commits[i].from <= k < commits[i].to
  {
    var c := commits[|commits| - 1];
    if k < c.from {
      RangesCover(commits[..|commits| - 1], c.from, k);
      var i :| 0 <= i < |commits[..|commits| - 1]|
          && commits[..|commits| - 1][i].from <= k < commits[..|commits| - 1][i].to;
      assert commits[i].from <= k < commits[i].to;
    }
  }

  lemma {:induction false} RangesOrdered(commits: seq<Commit>, cursor: nat, i: nat, j: nat)
    requires Contiguous(commits, cursor) && i < j < |commits|
    ensures commits[i].to <= commits[j].from && commits[j].to <= cursor
  {
    var rest := commits[..|commits| - 1];
    if j < |commits| - 1 {
      RangesOrdered(rest, commits[|commits| - 1].from, i, j);
    } else {
      RangeBelow(rest, commits[j].from, i);
    }
  }

  lemma {:induction false} RangeBelow(commits: seq<Commit>, cursor: nat, i: nat)
    requires Contiguous(commits, cursor) && i < |commits|
    ensures commits[i].to <= cursor
  {
    if i < |commits| - 1 {
      RangeBelow(commits[..|commits| - 1], commits[|commits| - 1].from, i);
    }
  }

  /** In every run, however engines race and crash: the committed state, spec and issued effects are the
      journal folded range by range, and each entry below the cursor lies in exactly one range, in order. */
  lemma ExactlyOnceInOrder(d: Deployment, run: seq<Step>, k: nat)
    requires k < After(d, run).cursor
    ensures var s := After(d, run);
            && Replay(d, s.journal, s.commits) == Some(Folded(s.state, s.spec, s.issued))
            && (exists i :: 0 <= i < |s.commits| && s.commits[i].from <= k < s.commits[i].to)
            && (forall i, j :: 0 <= i < j < |s.commits| ==> s.commits[i].to <= s.commits[j].from)
  {
    var s := After(d, run);
    RunsFold(d, run);
    RangesCover(s.commits, s.cursor, k);
    forall i, j | 0 <= i < j < |s.commits|
      ensures s.commits[i].to <= s.commits[j].from
    {
      RangesOrdered(s.commits, s.cursor, i, j);
    }
  }

  lemma {:induction false} AcceptedBy(commits: seq<Commit>, i: nat)
    requires i < |commits|
    ensures forall id :: id in commits[i].accepted ==> id in AllAccepted(commits)
  {
    if i < |commits| - 1 {
      AcceptedBy(commits[..|commits| - 1], i);
    }
  }

  lemma {:induction false} AcceptedOnce(commits: seq<Commit>, i: nat, j: nat, id: nat)
    requires Distinct(AllAccepted(commits)) && i < j < |commits| && id in commits[i].accepted
    ensures id !in commits[j].accepted
  {
    var rest, last := commits[..|commits| - 1], commits[|commits| - 1];
    var all := AllAccepted(commits);
    if j < |commits| - 1 {
      assert forall a, b ::
          0 <= a < b < |AllAccepted(rest)|
          ==> AllAccepted(rest)[a] == all[a] && AllAccepted(rest)[b] == all[b];
      AcceptedOnce(rest, i, j, id);
    } else {
      AcceptedBy(rest, i);
      var a :| 0 <= a < |AllAccepted(rest)| && AllAccepted(rest)[a] == id;
      forall b | 0 <= b < |last.accepted|
        ensures last.accepted[b] != id
      {
        assert all[a] == id && all[|AllAccepted(rest)| + b] == last.accepted[b];
      }
    }
  }

  /** In every run: a message id is accepted as a settlement by at most one committed transition and at most
      once in it, and the accepted ids are exactly those the folded part of the journal settles. */
  lemma SettledAtMostOnce(d: Deployment, run: seq<Step>)
    ensures var s := After(d, run);
            && Distinct(AllAccepted(s.commits))
            && (forall i, j, id ::
                0 <= i < j < |s.commits| && id in s.commits[i].accepted
                ==> id !in s.commits[j].accepted)
            && s.cursor <= |s.journal|
            && (forall id :: id in AllAccepted(s.commits) <==> id in Ids(s.journal[..s.cursor]))
  {
    var s := After(d, run);
    RunsFold(d, run);
    forall i, j, id | 0 <= i < j < |s.commits| && id in s.commits[i].accepted
      ensures id !in s.commits[j].accepted
    {
      AcceptedOnce(s.commits, i, j, id);
    }
    assert forall id :: id in AllAccepted(s.commits) <==> id in ToSet(s.spec.settled);
  }

  // ---- no effect vanishes ---------------------------------------------------------------

  /** The message's settlement is recorded: in the journal or already in the committed spec. */
  ghost predicate Accounted(s: System, messageId: nat) {
    Settles(s.journal, messageId) || messageId in s.spec.settled
  }

  /** An effect that must settle is still queued or accounted for, and a worker about to remove it has its
      settlement in hand. */
  ghost predicate QueueInvariant(s: System) {
    && (forall id :: id in s.queue ==> id < |s.issued|)
    && (forall id: nat :: id < |s.issued| && NeedsSettlement(s.issued[id]) && id !in s.queue ==> Accounted(s, id))
    && (forall w :: WorkerOf(s, w).Handling? ==> WorkerOf(s, w).messageId < |s.issued|)
    && (forall w :: WorkerOf(s, w).Appending? ==>
          var p := WorkerOf(s, w);
          p.messageId < |s.issued|
          && (NeedsSettlement(s.issued[p.messageId]) ==> Settles(p.rest, p.messageId) || Accounted(s, p.messageId)))
  }

  /** Journal and settled record only grow, and so does what is accounted for. */
  lemma AccountedGrows(s: System, t: System, id: nat)
    requires s.journal <= t.journal && s.spec.settled <= t.spec.settled && Accounted(s, id)
    ensures Accounted(t, id)
  {
    if Settles(s.journal, id) {
      var e :| e in s.journal && e.Settlement? && e.messageId == id;
      assert e in t.journal;
    }
  }

  lemma AccountedMonotone(s: System, t: System)
    requires s.journal <= t.journal && s.spec.settled <= t.spec.settled
    ensures forall id :: Accounted(s, id) ==> Accounted(t, id)
  {
    forall id | Accounted(s, id) { AccountedGrows(s, t, id); }
  }

  lemma CommitKeepsQueue(d: Deployment, s: System, snapshot: Snapshot)
    requires FoldInvariant(d, s) && QueueInvariant(s) && SnapshotFaithful(s, snapshot) && CommitAllowed(s, snapshot)
    requires Computed(d, snapshot).Some?
    ensures QueueInvariant(Committed(s, snapshot, Computed(d, snapshot).value.0, Computed(d, snapshot).value.1))
  {
    var (output, spec) := Computed(d, snapshot).value;
    var t := Committed(s, snapshot, output, spec);
    UpdatesRecord(d.engine, s.spec, output.updates);
    AccountedMonotone(s, t);
    assert forall w :: WorkerOf(t, w) == WorkerOf(s, w);
    forall w | WorkerOf(t, w).Appending?
      ensures var p := WorkerOf(t, w);
              p.messageId < |t.issued|
              && (NeedsSettlement(t.issued[p.messageId]) ==> Settles(p.rest, p.messageId) || Accounted(t, p.messageId))
    {
      assert WorkerOf(t, w) == WorkerOf(s, w);
    }
  }

  /** Steps that change neither the journal, the spec nor the issued effects. */
  ghost predicate OnlyProcesses(s: System, t: System) {
    t.journal == s.journal && t.spec == s.spec && t.issued == s.issued
  }

  lemma EngineKeepsQueue(d: Deployment, s: System, e: nat)
    requires FoldInvariant(d, s) && QueueInvariant(s) && EngineOf(s, e).Transitioning?
    ensures QueueInvariant(EngineRuns(d, s, e, EngineOf(s, e).snapshot))
  {
    var snapshot := EngineOf(s, e).snapshot;
    var done := SetEngine(s, e, EngineIdle);
    SameFold(d, s, done);
    ProcessesKeepQueue(s, done);
    ProcessesKeepQueue(s, ReleaseLease(done, snapshot.lease));
    if snapshot.entries != [] && Computed(d, snapshot).Some? && CommitAllowed(s, snapshot) {
      assert SnapshotFaithful(done, snapshot);
      CommitKeepsQueue(d, done, snapshot);
      var committed := Committed(done, snapshot, Computed(d, snapshot).value.0, Computed(d, snapshot).value.1);
      ProcessesKeepQueue(committed, ReleaseLease(committed, snapshot.lease));
    }
  }

  lemma ProcessesKeepQueue(s: System, t: System)
    requires QueueInvariant(s) && OnlyProcesses(s, t) && t.queue.Keys == s.queue.Keys && t.workers == s.workers
    ensures QueueInvariant(t)
  {
    AccountedMonotone(s, t);
    assert forall w :: WorkerOf(t, w) == WorkerOf(s, w);
  }

  /** A worker goes idle, or takes up a message, without removing one. */
  lemma WorkerMoves(s: System, t: System, w: nat)
    requires QueueInvariant(s) && OnlyProcesses(s, t) && t.queue.Keys == s.queue.Keys
    requires w in t.workers && t.workers == s.workers[w := t.workers[w]]
    requires t.workers[w].Handling? ==> t.workers[w].messageId < |s.issued|
    requires t.workers[w].Appending? ==>
               var p := t.workers[w];
               p.messageId < |s.issued|
               && (NeedsSettlement(s.issued[p.messageId]) ==> Settles(p.rest, p.messageId) || Accounted(s, p.messageId))
    ensures QueueInvariant(t)
  {
    AccountedMonotone(s, t);
    assert forall v :: v != w ==> WorkerOf(t, v) == WorkerOf(s, v);
    assert WorkerOf(t, w) == t.workers[w];
  }

  lemma ErrorKeepsQueue(d: Deployment, s: System, w: nat, messageId: nat, lease: nat, attempt: nat, stopped: bool,
      detail: Json)
    requires QueueInvariant(s) && messageId < |s.issued|
    ensures QueueInvariant(OnError(d, s, w, messageId, lease, attempt, stopped, detail))
  {
    if NeedsSettlement(s.issued[messageId]) {
      EventsSettle(s.issued[messageId], messageId, Threw, detail);
    }
    WorkerMoves(s, OnError(d, s, w, messageId, lease, attempt, stopped, detail), w);
  }

  lemma HandleKeepsQueue(d: Deployment, s: System, w: nat, execution: Execution, stopped: bool, detail: Json)
    requires QueueInvariant(s) && Enabled(s, Handle(w, execution, stopped, detail))
    ensures QueueInvariant(Next(d, s, Handle(w, execution, stopped, detail)))
  {
    var p := WorkerOf(s, w);
    var effect := s.issued[p.messageId];
    if NeedsSettlement(effect) {
      EventsSettle(effect, p.messageId, execution, detail);
    }
    if p.messageId !in s.spec.settled && SuccessEvents(effect, p.messageId, execution).None? {
      ErrorKeepsQueue(d, s, w, p.messageId, p.lease, p.attempt, stopped, detail);
    } else {
      WorkerMoves(s, Next(d, s, Handle(w, execution, stopped, detail)), w);
    }
  }

  /** The journal grows by the worker's next event, and what it still holds shrinks by it. */
  lemma AppendKeepsQueue(d: Deployment, s: System, w: nat)
    requires QueueInvariant(s) && Enabled(s, AppendNext(w))
    ensures QueueInvariant(Next(d, s, AppendNext(w)))
  {
    var p := WorkerOf(s, w);
    var t := Next(d, s, AppendNext(w));
    AccountedMonotone(s, t);
    if Settles(p.rest, p.messageId) {
      var e :| e in p.rest && e.Settlement? && e.messageId == p.messageId;
      if e == p.rest[0] {
        assert t.journal[|s.journal|] == e;
      } else {
        assert e in p.rest[1..];
      }
    }
    assert forall v :: v != w ==> WorkerOf(t, v) == WorkerOf(s, v);
  }

  /** Only an ack or a dead nack removes a message, and then its settlement is accounted for. */
  lemma FinishKeepsQueue(d: Deployment, s: System, w: nat)
    requires QueueInvariant(s) && Enabled(s, Finish(w))
    ensures QueueInvariant(Next(d, s, Finish(w)))
  {
    var p := WorkerOf(s, w);
    var t := Next(d, s, Finish(w));
    AccountedMonotone(s, t);
    assert !Settles(p.rest, p.messageId);
    assert forall v :: v != w ==> WorkerOf(t, v) == WorkerOf(s, v);
  }

  lemma JournalKeepsQueue(s: System, event: Event)
    requires QueueInvariant(s)
    ensures QueueInvariant(s.(journal := s.journal + [event]))
  {
    var t := s.(journal := s.journal + [event]);
    AccountedMonotone(s, t);
    assert forall w :: WorkerOf(t, w) == WorkerOf(s, w);
  }

  lemma StepKeepsQueue(d: Deployment, s: System, step: Step)
    requires FoldInvariant(d, s) && QueueInvariant(s) && Enabled(s, step)
    ensures QueueInvariant(Next(d, s, step))
  {
    hide QueueInvariant, FoldInvariant, Accounted, Settles, NeedsSettlement, EngineRuns, Handled, OnError;
    match step
    case AppendJournal(event) => JournalKeepsQueue(s, event);
    case Acquire(_, _) => ProcessesKeepQueue(s, Next(d, s, step));
    case EngineLeaseExpires => ProcessesKeepQueue(s, Next(d, s, step));
    case EngineDies(_) => ProcessesKeepQueue(s, Next(d, s, step));
    case ItemLeaseExpires(_) => ProcessesKeepQueue(s, Next(d, s, step));
    case RunEngine(e) => EngineKeepsQueue(d, s, e);
    case LeaseItem(w, _) => WorkerMoves(s, Next(d, s, step), w);
    case WorkerDies(w) => WorkerMoves(s, Next(d, s, step), w);
    case Handle(w, execution, stopped, detail) => HandleKeepsQueue(d, s, w, execution, stopped, detail);
    case AppendNext(w) => AppendKeepsQueue(d, s, w);
    case AppendFails(w, stopped, detail) =>
      var p := WorkerOf(s, w);
      if p.ending.ThenAck? {
        ErrorKeepsQueue(d, s, w, p.messageId, p.lease, p.attempt, stopped, detail);
      } else {
        WorkerMoves(s, Next(d, s, step), w);
      }
    case Finish(w) => FinishKeepsQueue(d, s, w);
  }

  /** In every run, whatever crashes, lost acks and redeliveries it holds: an effect that must settle has left
      the queue only if its settlement is in the journal or its id is in the committed spec. */
  lemma {:induction false} NoEffectVanishes(d: Deployment, run: seq<Step>)
    ensures QueueInvariant(After(d, run))
    ensures var s := After(d, run);
            forall id: nat :: id < |s.issued| && NeedsSettlement(s.issued[id]) && id !in s.queue ==> Accounted(s, id)
  {
    if run != [] {
      NoEffectVanishes(d, run[..|run| - 1]);
      RunsFold(d, run[..|run| - 1]);
      var s := After(d, run[..|run| - 1]);
      if Enabled(s, run[|run| - 1]) {
        StepKeepsQueue(d, s, run[|run| - 1]);
      }
    }
  }
}
