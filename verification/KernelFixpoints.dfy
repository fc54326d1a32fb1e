/** The kernel's standing derivations hold after whole transitions and runs, and on every store that folds the
    published patches (kernel/src/kernel.ts:709-715, 820-829, 1234-1260). */
module KernelFixpoints {
  import opened Json
  import opened Paths
  import opened Derivations
  import opened Settlement
  import opened SettleTheorems
  import opened PatchStream

  ghost predicate AllAtFixpoint(eval: Evaluator, ds: seq<Derivation>, store: Fields) {
    forall d :: d in ds ==> AtFixpoint(eval, store, d)
  }

  // ---- operations -------------------------------------------------------------------------------

  /** Operations change nothing beside their own paths. */
  lemma {:induction false} OperationsChangeOnly(data: Fields, ops: seq<PatchOp>)
    ensures ChangedOnly(data, ApplyOps(data, ops), PathsOf(ops))
  {
    if ops != [] {
      var rest, last := ops[..|ops| - 1], ops[|ops| - 1];
      OperationsChangeOnly(data, rest);
      forall path | forall j :: 0 <= j < |ops| ==> !PathsOverlap(path, PathsOf(ops)[j])
        ensures GetPath(ApplyOps(data, ops), path) == GetPath(data, path)
      {
        assert forall j :: 0 <= j < |rest| ==> PathsOf(rest)[j] == PathsOf(ops)[j];
        assert PathsOf(ops)[|rest|] == last.path;
        OpFrame(ApplyOps(data, rest), last, path);
      }
    }
  }

  /** The written value is read back unless a later operation overlaps its path. */
  lemma {:induction false} LastWriteReads(data: Fields, ops: seq<PatchOp>, k: nat)
    requires k < |ops| && ops[k].SetOp?
    requires forall j :: k < j < |ops| ==> !PathsOverlap(ops[j].path, ops[k].path)
    ensures GetPath(ApplyOps(data, ops), ops[k].path) == ops[k].value
  {
    var rest, last := ops[..|ops| - 1], ops[|ops| - 1];
    if k == |rest| {
      SetPathGet(ApplyOps(data, rest), last.path, last.value);
    } else {
      LastWriteReads(data, rest, k);
      OpFrame(ApplyOps(data, rest), last, ops[k].path);
    }
  }

  // ---- one act ------------------------------------------------------------------------------------

  /** Operations that write no target and from which no derivation can be overtaken. */
  ghost predicate Harmless(ds: seq<Derivation>, ops: seq<PatchOp>) {
    NoTargetChanged(ds, PathsOf(ops)) && NoOvertaking(ds, PathsOf(ops))
  }

  /** Paths that reach neither a target nor a dependency. */
  ghost predicate Beside(ds: seq<Derivation>, paths: seq<string>) {
    forall d, j :: d in ds && 0 <= j < |paths| ==>
      !PathsOverlap(d.target, paths[j]) && forall i ::
          0 <= i < |d.dependencies| ==> !PathsOverlap(d.dependencies[i], paths[j])
  }

  ghost predicate KeepsDerived(ds: seq<Derivation>, act: Act) {
    match act
    case Operate(operations) => Harmless(ds, operations)
    case PublishGraph(values) => Beside(ds, PathsOf(Publications(values)))
    case SettleEverything => true
    case Fire => true
    case Commit(_, derivations) => derivations == ds
  }

  /** Whatever leaves dependencies and target alone leaves a derivation at its fixpoint. */
  lemma UntouchedStays(eval: Evaluator, d: Derivation, before: Fields, after: Fields)
    requires ReadsDeclared(eval, d) && AtFixpoint(eval, before, d)
    requires GetPath(after, d.target) == GetPath(before, d.target)
    requires forall i ::
        0 <= i < |d.dependencies|
        ==> GetPath(after, d.dependencies[i]) == GetPath(before, d.dependencies[i])
    ensures AtFixpoint(eval, after, d)
  {
  }

  lemma BesideStays(eval: Evaluator, ds: seq<Derivation>, before: Fields, ops: seq<PatchOp>)
    requires WellFormed(eval, ds) && AllAtFixpoint(eval, ds, before) && Beside(ds, PathsOf(ops))
    ensures AllAtFixpoint(eval, ds, ApplyOps(before, ops))
  {
    hide ApplyOps, PathsOf;
    OperationsChangeOnly(before, ops);
    forall d | d in ds
      ensures AtFixpoint(eval, ApplyOps(before, ops), d)
    {
      UntouchedStays(eval, d, before, ApplyOps(before, ops));
    }
  }

  /** Settling everything writes targets only. */
  lemma {:induction false} PassWritesTargets(eval: Evaluator, ds: seq<Derivation>, changed: seq<string>, p: Progress,
      path: string)
    requires forall d :: d in ds ==> !PathsOverlap(d.target, path)
    ensures GetPath(Pass(eval, ds, changed, p).store, path) == GetPath(p.store, path)
  {
    if ds != [] {
      var rest, d := ds[..|ds| - 1], ds[|ds| - 1];
      PassWritesTargets(eval, rest, changed, p, path);
      var before := Pass(eval, rest, changed, p);
      OpFrame(before.store, SetOp(d.target, eval(d.expression, before.store)), path);
    }
  }

  lemma {:induction false} RoundsWriteTargets(eval: Evaluator, ds: seq<Derivation>, p: Progress, path: string)
    requires forall d :: d in ds ==> !PathsOverlap(d.target, path)
    ensures GetPath(Rounds(eval, ds, p).store, path) == GetPath(p.store, path)
    decreases |Waiting(ds, p.evaluated)|, |p.pending|
  {
    if p.pending != [] {
      PassWritesTargets(eval, ds, p.pending, p.(pending := []), path);
      RoundShrinks(eval, ds, p);
      RoundsWriteTargets(eval, ds, Pass(eval, ds, p.pending, p.(pending := [])), path);
    }
  }

  /** A derivation without dependencies is a constant, and its target stays as it is. */
  lemma {:induction false} PassKeepsConstant(eval: Evaluator, ds: seq<Derivation>, all: seq<Derivation>,
      changed: seq<string>, p: Progress, d: Derivation)
    requires ds <= all && DisjointTargets(all) && d in all && d.dependencies == []
    ensures GetPath(Pass(eval, ds, changed, p).store, d.target) == GetPath(p.store, d.target)
  {
    if ds != [] {
      var rest, e := ds[..|ds| - 1], ds[|ds| - 1];
      PassKeepsConstant(eval, rest, all, changed, p, d);
      var before := Pass(eval, rest, changed, p);
      if e != d {
        assert all[|ds| - 1] == e;
        if PathsOverlap(e.target, d.target) {
          DistinctTargets(all, e, d);
        }
        OpFrame(before.store, SetOp(e.target, eval(e.expression, before.store)), d.target);
      }
    }
  }

  lemma {:induction false} RoundsKeepConstant(eval: Evaluator, ds: seq<Derivation>, p: Progress, d: Derivation)
    requires DisjointTargets(ds) && d in ds && d.dependencies == []
    ensures GetPath(Rounds(eval, ds, p).store, d.target) == GetPath(p.store, d.target)
    decreases |Waiting(ds, p.evaluated)|, |p.pending|
  {
    if p.pending != [] {
      PassKeepsConstant(eval, ds, ds, p.pending, p.(pending := []), d);
      RoundShrinks(eval, ds, p);
      RoundsKeepConstant(eval, ds, Pass(eval, ds, p.pending, p.(pending := [])), d);
    }
  }

  lemma SettlingEverythingStays(eval: Evaluator, ds: seq<Derivation>, store: Fields)
    requires WellFormed(eval, ds) && AllAtFixpoint(eval, ds, store)
    ensures AllAtFixpoint(eval, ds, Settlement.SettleAll(eval, ds, store).store)
  {
    SettleAllReachesFixpoint(eval, ds, store);
    var after := Settlement.SettleAll(eval, ds, store).store;
    forall d | d in ds && d.dependencies == []
      ensures AtFixpoint(eval, after, d)
    {
      RoundsKeepConstant(eval, ds, Progress(store, AllDependencies(ds), [], []), d);
      UntouchedStays(eval, d, store, after);
    }
  }

  /** After operations the derivations that held hold again: the kernel settles before it goes on. */
  lemma ActKeepsFixpoint(eval: Evaluator, b: Body, act: Act)
    requires WellFormed(eval, b.derivations) && AllAtFixpoint(eval, b.derivations, b.data)
    requires KeepsDerived(b.derivations, act)
    ensures var after := DoAct(eval, b, act);
            after.derivations == b.derivations && AllAtFixpoint(eval, b.derivations, after.data)
  {
    hide WellFormed, ApplyOps, AtFixpoint;
    match act
    case Operate(operations) =>
      if operations != [] {
        OperationsChangeOnly(b.data, operations);
        SettleReachesFixpoint(eval, b.derivations, PathsOf(operations), b.data, ApplyOps(b.data, operations));
      }
    case PublishGraph(values) => BesideStays(eval, b.derivations, b.data, Publications(values));
    case SettleEverything => SettlingEverythingStays(eval, b.derivations, b.data);
    case Fire =>
    case Commit(_, _) =>
  }

  /** Where operations reach no target, what they wrote is what is read after the derivations caught up. */
  lemma OperationsLand(eval: Evaluator, b: Body, operations: seq<PatchOp>, path: string)
    requires forall d :: d in b.derivations ==> !PathsOverlap(d.target, path)
    ensures GetPath(DoAct(eval, b, Operate(operations)).data, path) == GetPath(ApplyOps(b.data, operations), path)
  {
    RoundsWriteTargets(eval, b.derivations, Progress(ApplyOps(b.data, operations), PathsOf(operations), [], []), path);
  }

  /** A published token reads as its value, unless a later publication overlaps it. */
  lemma PublicationsLand(eval: Evaluator, b: Body, values: seq<(string, Json)>, k: nat)
    requires k < |values| && forall j :: k < j < |values| ==> !PathsOverlap(values[j].0, values[k].0)
    ensures GetPath(DoAct(eval, b, PublishGraph(values)).data, values[k].0) == values[k].1
  {
    LastWriteReads(b.data, Publications(values), k);
  }

  /** Settling everything repairs whatever went before. */
  lemma SettlingRepairs(eval: Evaluator, b: Body)
    requires WellFormed(eval, b.derivations)
    ensures forall d :: d in b.derivations && d.dependencies != []
              ==> AtFixpoint(eval, DoAct(eval, b, SettleEverything).data, d)
  {
    SettleAllReachesFixpoint(eval, b.derivations, b.data);
  }

  // ---- transitions and runs ---------------------------------------------------------------------------

  ghost predicate AllKeepDerived(ds: seq<Derivation>, acts: seq<Act>) {
    forall act :: act in acts ==> KeepsDerived(ds, act)
  }

  lemma {:induction false} ActsKeepFixpoint(eval: Evaluator, b: Body, acts: seq<Act>)
    requires WellFormed(eval, b.derivations) && AllAtFixpoint(eval, b.derivations, b.data)
    requires AllKeepDerived(b.derivations, acts)
    ensures var after := DoActs(eval, b, acts);
            after.derivations == b.derivations && AllAtFixpoint(eval, b.derivations, after.data)
  {
    hide WellFormed, AllAtFixpoint, KeepsDerived, DoAct;
    if acts != [] {
      ActsKeepFixpoint(eval, b, acts[..|acts| - 1]);
      ActKeepsFixpoint(eval, DoActs(eval, b, acts[..|acts| - 1]), acts[|acts| - 1]);
    }
  }

  lemma TransitionKeepsFixpoint(eval: Evaluator, k: Kernel, kind: Kind, acts: seq<Act>)
    requires WellFormed(eval, k.derivations) && AllAtFixpoint(eval, k.derivations, k.data)
    requires AllKeepDerived(k.derivations, acts)
    ensures var (k', _) := Transition(eval, k, kind, acts);
            k'.derivations == k.derivations && AllAtFixpoint(eval, k.derivations, k'.data)
  {
    ActsKeepFixpoint(eval, Body(k.data, k.derivations, [], 0, []), acts);
  }

  /** Over any run of such transitions every derivation holds on the kernel's store, and on the store anybody gets
      who folds the published patches from the start. */
  lemma {:induction false} RunKeepsFixpoint(eval: Evaluator, k: Kernel, run: seq<(Kind, seq<Act>)>)
    requires WellFormed(eval, k.derivations) && AllAtFixpoint(eval, k.derivations, k.data)
    requires forall i :: 0 <= i < |run| ==> Admissible(run[i].0, run[i].1) && AllKeepDerived(k.derivations, run[i].1)
    ensures var h := After(eval, k, run);
            && h.kernel.derivations == k.derivations
            && AllAtFixpoint(eval, k.derivations, h.kernel.data)
            && AllAtFixpoint(eval, k.derivations, ApplyOps(k.data, AllOps(h.patches)))
  {
    hide WellFormed, AllAtFixpoint, AllKeepDerived, Admissible, Transition;
    StreamComplete(eval, k, run);
    if run != [] {
      var rest := run[..|run| - 1];
      RunKeepsFixpoint(eval, k, rest);
      TransitionKeepsFixpoint(eval, After(eval, k, rest).kernel, run[|run| - 1].0, run[|run| - 1].1);
    }
  }

  // ---- program, derivations and journal ------------------------------------------------------------------

  function Committed(acts: seq<Act>): seq<Json> {
    if acts == [] then []
    else Committed(acts[..|acts| - 1]) + if acts[|acts| - 1].Commit? then acts[|acts| - 1].program else []
  }

  function LastDerivations(acts: seq<Act>, ds: seq<Derivation>): seq<Derivation> {
    if acts == [] then ds
    else if acts[|acts| - 1].Commit? then acts[|acts| - 1].derivations
    else LastDerivations(acts[..|acts| - 1], ds)
  }

  function Fired(acts: seq<Act>): nat {
    if acts == [] then 0 else Fired(acts[..|acts| - 1]) + if acts[|acts| - 1].Fire? then 1 else 0
  }

  lemma {:induction false} ActsCommit(eval: Evaluator, b: Body, acts: seq<Act>)
    ensures var after := DoActs(eval, b, acts);
            && after.program == b.program + Committed(acts)
            && after.derivations == LastDerivations(acts, b.derivations)
            && after.fired == b.fired + Fired(acts)
  {
    hide ApplyThenDerive, Settlement.SettleAll, ApplyOps, Publications;
    if acts == [] {
      assert b.program + [] == b.program;
    } else {
      ActsCommit(eval, b, acts[..|acts| - 1]);
      var act := acts[|acts| - 1];
      var before := Committed(acts[..|acts| - 1]);
      assert act.Commit? ==> (b.program + before) + act.program == b.program + (before + act.program);
      assert !act.Commit? ==> Committed(acts) == before;
      OperateCommitsNothing(eval, DoActs(eval, b, acts[..|acts| - 1]), act);
    }
  }

  lemma OperateCommitsNothing(eval: Evaluator, b: Body, act: Act)
    ensures var after := DoAct(eval, b, act);
            !act.Commit? ==> after.program == b.program && after.derivations == b.derivations
    ensures DoAct(eval, b, act).fired == b.fired + if act.Fire? then 1 else 0
  {
  }

  /** Some transitions count only when something happened; the others always. */
  predicate Optional(kind: Kind) {
    kind.GraphTransition? || kind.SyncExternal? || kind.CancelInvocation? || kind.PublishSync?
  }

  /** A transition commits exactly the programs and derivations of its acts; it raises the revision, by one, unless
      its kind is optional and it changed nothing and fired nothing, or it settles a source under a stale token. */
  lemma TransitionCommits(eval: Evaluator, k: Kernel, kind: Kind, acts: seq<Act>)
    requires Admissible(kind, acts)
    ensures var (k', patch) := Transition(eval, k, kind, acts);
            && k'.program == k.program + Committed(acts)
            && k'.derivations == LastDerivations(acts, k.derivations)
            && (!Optional(kind) && kind != SettleSource(false) ==> k'.rev == k.rev + 1 && patch.Some?)
            && (kind == SettleSource(false) ==> k'.rev == k.rev && patch.None?)
            && (Optional(kind) && Fired(acts) == 0
                && (patch.None? || (patch.value.ops == [] && patch.value.program == []))
                ==> k'.rev == k.rev && (patch.None? || kind.SyncExternal?))
            && (Fired(acts) > 0 && !kind.PublishSync? ==> k'.rev == k.rev + 1)
  {
    var start := Body(k.data, k.derivations, [], 0, []);
    ActsCommit(eval, start, acts);
    if kind == SettleSource(false) {
      assert acts == [];
    }
    if !MayCommit(kind) {
      NoCommitNoProgram(eval, start, acts);
    }
  }
}
