/** Kernel transitions and the patches they publish (kernel/src/kernel.ts:237-276, 287-319, 325-410,
    443-494, 573-611, 673-715, 820-829, 916-990, 1240-1260, 1317-1382).

    Reduction, graph traversal and orchestrator calls are the environment: a transition is the list of
    things they make the kernel do to its store, its program and its effect journal. */
module PatchStream {
  import opened Json
  import opened Paths
  import opened Derivations
  import opened Settlement
  import opened DerivationScheduling

  /** One thing a transition does. */
  datatype Act =
    | Operate(operations: seq<PatchOp>)              // applyAndDerive
    | PublishGraph(values: seq<(string, Json)>)      // applyGraphPublications
    | SettleEverything                               // derivations.settleAll
    | Fire                                           // an effect enters the journal
    | Commit(program: seq<Json>, derivations: seq<Derivation>)   // with the new scheduler's stored order

  datatype Kind =
    | Dispatch | GraphTransition | SettleSource(current: bool) | SettleRequest | SettleInvocation
    | ProgramTransition | SyncExternal | CancelInvocation | Restore | Compensate | PublishSync

  datatype Patch = Patch(rev: nat, ops: seq<PatchOp>, program: seq<Json>)

  /** The kernel's own state: revision, store, program and standing derivations. */
  datatype Kernel = Kernel(rev: nat, data: Fields, program: seq<Json>, derivations: seq<Derivation>)

  /** A transition under way: the store so far and the accumulated lists. */
  datatype Body = Body(data: Fields, derivations: seq<Derivation>, ops: seq<PatchOp>, fired: nat, program: seq<Json>)

  function PathsOf(operations: seq<PatchOp>): seq<string> {
    seq(|operations|, i requires 0 <= i < |operations| => operations[i].path)
  }

  function Publications(values: seq<(string, Json)>): seq<PatchOp> {
    seq(|values|, i requires 0 <= i < |values| => SetOp(values[i].0, values[i].1))
  }

  /** Apply the operations, then let the derivations catch up; nothing at all for an empty list. */
  function ApplyThenDerive(eval: Evaluator, b: Body, operations: seq<PatchOp>): Body {
    if operations == [] then b
    else
      var settled := Settlement.Settle(eval, b.derivations, PathsOf(operations), ApplyOps(b.data, operations));
      b.(data := settled.store, ops := b.ops + operations + settled.operations)
  }

  function DoAct(eval: Evaluator, b: Body, act: Act): Body {
    match act
    case Operate(operations) => ApplyThenDerive(eval, b, operations)
    case PublishGraph(values) => b.(data := ApplyOps(b.data, Publications(values)), ops := b.ops + Publications(values))
    case SettleEverything =>
      var settled := Settlement.SettleAll(eval, b.derivations, b.data);
      b.(data := settled.store, ops := b.ops + settled.operations)
    case Fire => b.(fired := b.fired + 1)
    case Commit(program, derivations) => b.(program := b.program + program, derivations := derivations)
  }

  function DoActs(eval: Evaluator, b: Body, acts: seq<Act>): Body {
    if acts == [] then b else DoAct(eval, DoActs(eval, b, acts[..|acts| - 1]), acts[|acts| - 1])
  }

  /** Which transitions may commit program operations; elsewhere the kernel throws on one. */
  predicate MayCommit(kind: Kind) {
    kind.Dispatch? || kind.GraphTransition? || kind.SettleInvocation? || kind.ProgramTransition? || kind.Restore?
  }

  predicate Admissible(kind: Kind, acts: seq<Act>) {
    && (!MayCommit(kind) ==> forall act :: act in acts ==> !act.Commit?)
    && (kind.PublishSync? ==> forall act :: act in acts ==> act.PublishGraph?)
    && (kind.SettleSource? && !kind.current ==> acts == [])
  }

  predicate RaisesRevision(kind: Kind, b: Body) {
    match kind
    case GraphTransition => b.ops != [] || b.fired > 0 || b.program != []
    case SyncExternal => b.ops != [] || b.fired > 0
    case CancelInvocation => b.ops != [] || b.fired > 0
    case PublishSync => b.ops != []
    case SettleSource(current) => current
    case _ => true
  }

  predicate Publishes(kind: Kind, b: Body) {
    match kind
    case GraphTransition => b.ops != [] || b.program != []
    case SyncExternal => true
    case _ => RaisesRevision(kind, b)
  }

  /** A whole non-throwing transition: the next kernel and the patch it published, if any. */
  function Transition(eval: Evaluator, k: Kernel, kind: Kind, acts: seq<Act>): (Kernel, Option<Patch>) {
    var b := DoActs(eval, Body(k.data, k.derivations, [], 0, []), acts);
    var rev := if RaisesRevision(kind, b) then k.rev + 1 else k.rev;
    (Kernel(rev, b.data, k.program + b.program, b.derivations),
     if Publishes(kind, b) then Some(Patch(rev, b.ops, b.program)) else None)
  }

  /** The kernel object: its store and scheduler are the objects the transitions mutate. */
  class KernelObject {
    const eval: Evaluator
    var rev: nat
    var store: InMemoryStateModel
    var scheduler: DerivationScheduler
    var program: seq<Json>

    constructor (eval: Evaluator, store: InMemoryStateModel, scheduler: DerivationScheduler)
      ensures this.eval == eval && this.store == store && this.scheduler == scheduler
      ensures TheKernel() == Kernel(0, store.data, [], scheduler.derivations)
    {
      this.eval, this.store, this.scheduler := eval, store, scheduler;
      rev, program := 0, [];
    }

    ghost function TheKernel(): Kernel
      reads this, store
    {
      Kernel(rev, store.data, program, scheduler.derivations)
    }

    ghost function Current(ops: seq<PatchOp>, fired: nat, committed: seq<Json>): Body
      reads this, store
    {
      Body(store.data, scheduler.derivations, ops, fired, committed)
    }

    /** `applyAndDerive`: mutates the store and returns what it appended to the accumulated list. */
    method ApplyAndDerive(operations: seq<PatchOp>, acc: seq<PatchOp>, ghost fired: nat, ghost committed: seq<Json>)
      returns (next: seq<PatchOp>)
      modifies store
      ensures Current(next, fired, committed) == ApplyThenDerive(eval, old(Current(acc, fired, committed)), operations)
    {
      if operations == [] {
        return acc;
      }
      store.Apply(operations);
      var derived, order := scheduler.Settle(eval, PathsOf(operations), store);
      next := acc + operations + derived;
    }

    /** `applyGraphPublications`: one `set` at a time. */
    method ApplyGraphPublications(values: seq<(string, Json)>, acc: seq<PatchOp>) returns (next: seq<PatchOp>)
      modifies store
      ensures next == acc + Publications(values)
      ensures store.data == ApplyOps(old(store.data), Publications(values))
    {
      next := acc;
      for i := 0 to |values|
        invariant next == acc + Publications(values[..i])
        invariant store.data == ApplyOps(old(store.data), Publications(values[..i]))
      {
        var operation := SetOp(values[i].0, values[i].1);
        assert Publications(values[..i + 1]) == Publications(values[..i]) + [operation];
        ApplyOpsConcat(old(store.data), Publications(values[..i]), [operation]);
        store.Apply([operation]);
        next := next + [operation];
      }
      assert values[..|values|] == values;
    }

    method Run(kind: Kind, acts: seq<Act>) returns (published: Option<Patch>)
      requires Admissible(kind, acts)
      modifies this, store
      ensures store == old(store)
      ensures (TheKernel(), published) == Transition(eval, old(TheKernel()), kind, acts)
    {
      hide ApplyThenDerive, Publications;
      var ops: seq<PatchOp>, fired: nat, committed: seq<Json> := [], 0, [];
      ghost var start := Current([], 0, []);
      for i := 0 to |acts|
        invariant store == old(store) && rev == old(rev) && program == old(program)
        invariant Current(ops, fired, committed) == DoActs(eval, start, acts[..i])
      {
        assert acts[..i + 1][..i] == acts[..i];
        match acts[i]
        case Operate(operations) => ops := ApplyAndDerive(operations, ops, fired, committed);
        case PublishGraph(values) => ops := ApplyGraphPublications(values, ops);
        case SettleEverything =>
          var derived, order := scheduler.SettleAll(eval, store);
          ops := ops + derived;
        case Fire => fired := fired + 1;
        case Commit(more, derivations) =>
          committed := committed + more;
          scheduler := new DerivationScheduler(derivations);
      }
      assert acts[..|acts|] == acts;
      ghost var b := Current(ops, fired, committed);
      if Raises(kind, ops, fired, committed) {
        rev := rev + 1;
      }
      program := program + committed;
      published := if Sends(kind, ops, fired, committed) then Some(Patch(rev, ops, committed)) else None;
    }

    function Raises(kind: Kind, ops: seq<PatchOp>, fired: nat, committed: seq<Json>): bool {
      RaisesRevision(kind, Body(map[], [], ops, fired, committed))
    }

    function Sends(kind: Kind, ops: seq<PatchOp>, fired: nat, committed: seq<Json>): bool {
      Publishes(kind, Body(map[], [], ops, fired, committed))
    }
  }

  // ---- the stream is complete ------------------------------------------------------------

  /** Everything a transition does to the store is in its list of operations. */
  lemma {:induction false} ActsReplay(eval: Evaluator, b: Body, acts: seq<Act>, origin: Fields)
    requires b.data == ApplyOps(origin, b.ops)
    ensures DoActs(eval, b, acts).data == ApplyOps(origin, DoActs(eval, b, acts).ops)
  {
    if acts != [] {
      ActsReplay(eval, b, acts[..|acts| - 1], origin);
      ActReplays(eval, DoActs(eval, b, acts[..|acts| - 1]), acts[|acts| - 1], origin);
    }
  }

  lemma ActReplays(eval: Evaluator, b: Body, act: Act, origin: Fields)
    requires b.data == ApplyOps(origin, b.ops)
    ensures DoAct(eval, b, act).data == ApplyOps(origin, DoAct(eval, b, act).ops)
  {
    match act
    case Operate(operations) =>
      var applied := ApplyOps(b.data, operations);
      var settled := Settlement.Settle(eval, b.derivations, PathsOf(operations), applied);
      ApplyOpsConcat(origin, b.ops, operations);
      SettleReplays(eval, b.derivations, PathsOf(operations), applied);
      ApplyOpsConcat(origin, b.ops + operations, settled.operations);
    case PublishGraph(values) => ApplyOpsConcat(origin, b.ops, Publications(values));
    case SettleEverything =>
      SettleReplays(eval, b.derivations, AllDependencies(b.derivations), b.data);
      ApplyOpsConcat(origin, b.ops, Settlement.SettleAll(eval, b.derivations, b.data).operations);
    case Fire =>
    case Commit(_, _) =>
  }

  lemma {:induction false} NoCommitNoProgram(eval: Evaluator, b: Body, acts: seq<Act>)
    requires forall act :: act in acts ==> !act.Commit?
    ensures DoActs(eval, b, acts).program == b.program
  {
    if acts != [] {
      NoCommitNoProgram(eval, b, acts[..|acts| - 1]);
    }
  }

  /** What one transition tells its listeners is all it did. */
  lemma TransitionTellsAll(eval: Evaluator, k: Kernel, kind: Kind, acts: seq<Act>)
    requires Admissible(kind, acts)
    ensures var (k', patch) := Transition(eval, k, kind, acts);
            && k.rev <= k'.rev <= k.rev + 1
            && (patch.None? ==> k'.data == k.data && k'.program == k.program)
            && (patch.Some? ==>
                  && patch.value.rev == k'.rev
                  && k'.data == ApplyOps(k.data, patch.value.ops)
                  && k'.program == k.program + patch.value.program
                  && (patch.value.ops != [] || patch.value.program != [] ==> k'.rev == k.rev + 1))
            && (kind.Dispatch? ==> patch.Some? && k'.rev == k.rev + 1)
  {
    var start := Body(k.data, k.derivations, [], 0, []);
    ActsReplay(eval, start, acts, k.data);
    if !MayCommit(kind) {
      NoCommitNoProgram(eval, start, acts);
    }
  }

  /** A history of transitions, and the patches published in it. */
  datatype History = History(kernel: Kernel, patches: seq<Patch>)

  function After(eval: Evaluator, k: Kernel, run: seq<(Kind, seq<Act>)>): History {
    if run == [] then History(k, [])
    else
      var before := After(eval, k, run[..|run| - 1]);
      var (k', patch) := Transition(eval, before.kernel, run[|run| - 1].0, run[|run| - 1].1);
      History(k', if patch.Some? then before.patches + [patch.value] else before.patches)
  }

  function AllOps(patches: seq<Patch>): seq<PatchOp> {
    if patches == [] then [] else AllOps(patches[..|patches| - 1]) + patches[|patches| - 1].ops
  }

  function AllProgram(patches: seq<Patch>): seq<Json> {
    if patches == [] then [] else AllProgram(patches[..|patches| - 1]) + patches[|patches| - 1].program
  }

  /** Revisions never fall, and a patch that changes something is beyond every patch before it. */
  ghost predicate RevisionsRise(patches: seq<Patch>) {
    && (forall i, j :: 0 <= i < j < |patches| ==> patches[i].rev <= patches[j].rev)
    && (forall i, j :: 0 <= i < j < |patches| && patches[j].ops != [] ==> patches[i].rev < patches[j].rev)
  }

  /** All of them after `low` if they change anything, none after `high`. */
  ghost predicate RevisionsWithin(patches: seq<Patch>, low: nat, high: nat) {
    && (forall i :: 0 <= i < |patches| ==> low <= patches[i].rev <= high)
    && (forall i :: 0 <= i < |patches| && patches[i].ops != [] ==> low < patches[i].rev)
  }

  lemma AllOpsAppend(patches: seq<Patch>, patch: Patch)
    ensures AllOps(patches + [patch]) == AllOps(patches) + patch.ops
    ensures AllProgram(patches + [patch]) == AllProgram(patches) + patch.program
  {
    assert (patches + [patch])[..|patches|] == patches;
  }

  lemma RevisionsAppend(patches: seq<Patch>, low: nat, high: nat, patch: Patch)
    requires RevisionsRise(patches) && RevisionsWithin(patches, low, high)
    requires low <= high <= patch.rev && (patch.ops != [] ==> high < patch.rev)
    ensures RevisionsRise(patches + [patch]) && RevisionsWithin(patches + [patch], low, patch.rev)
  {
  }

  /** Folding the published operations from `k` rebuilds the store and the program, with rising revisions. */
  ghost predicate Complete(k: Kernel, h: History) {
    && h.kernel.data == ApplyOps(k.data, AllOps(h.patches))
    && h.kernel.program == k.program + AllProgram(h.patches)
    && k.rev <= h.kernel.rev
    && RevisionsRise(h.patches)
    && RevisionsWithin(h.patches, k.rev, h.kernel.rev)
  }

  lemma AppendKeepsComplete(k: Kernel, h: History, k': Kernel, patch: Patch)
    requires Complete(k, h)
    requires patch.rev == k'.rev && h.kernel.rev <= k'.rev <= h.kernel.rev + 1
    requires k'.data == ApplyOps(h.kernel.data, patch.ops) && k'.program == h.kernel.program + patch.program
    requires patch.ops != [] ==> k'.rev == h.kernel.rev + 1
    ensures Complete(k, History(k', h.patches + [patch]))
  {
    hide ApplyOps, AllOps, AllProgram, RevisionsRise, RevisionsWithin;
    AllOpsAppend(h.patches, patch);
    RevisionsAppend(h.patches, k.rev, h.kernel.rev, patch);
    ApplyOpsConcat(k.data, AllOps(h.patches), patch.ops);
    assert (k.program + AllProgram(h.patches)) + patch.program == k.program + (AllProgram(h.patches) + patch.program);
  }

  /** The stream of every run of non-throwing transitions is complete. */
  lemma {:induction false} StreamComplete(eval: Evaluator, k: Kernel, run: seq<(Kind, seq<Act>)>)
    requires forall i :: 0 <= i < |run| ==> Admissible(run[i].0, run[i].1)
    ensures Complete(k, After(eval, k, run))
  {
    if run == [] {
      assert k.program + [] == k.program;
    } else {
      StreamComplete(eval, k, run[..|run| - 1]);
      var before := After(eval, k, run[..|run| - 1]);
      var (kind, acts) := run[|run| - 1];
      hide Complete, Transition, Admissible;
      TransitionTellsAll(eval, before.kernel, kind, acts);
      var (k', patch) := Transition(eval, before.kernel, kind, acts);
      if patch.Some? {
        AppendKeepsComplete(k, before, k', patch.value);
      } else {
        SilentKeepsComplete(k, before, k');
      }
    }
  }

  lemma SilentKeepsComplete(k: Kernel, h: History, k': Kernel)
    requires Complete(k, h) && k'.data == h.kernel.data && k'.program == h.kernel.program && h.kernel.rev <= k'.rev
    ensures Complete(k, History(k', h.patches))
  {
  }
}
