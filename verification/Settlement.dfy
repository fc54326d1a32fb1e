/** What `settle` computes (kernel/src/derivations.ts:78-114), and when that is a fixpoint. */
module Settlement {
  import opened Json
  import opened Paths
  import opened Derivations

  // ---- the settle loop as a function --------------------------------------------------

  /** Some dependency overlaps some changed path. */
  predicate Touched(d: Derivation, changed: seq<string>) {
    exists i, j :: 0 <= i < |d.dependencies| && 0 <= j < |changed| && PathsOverlap(d.dependencies[i], changed[j])
  }

  /** The variables of the loop; `evaluated` lists the ids in the order they were evaluated. */
  datatype Progress = Progress(store: Fields, pending: seq<string>, operations: seq<PatchOp>, evaluated: seq<string>)

  predicate Due(d: Derivation, changed: seq<string>, p: Progress) {
    d.id !in p.evaluated && Touched(d, changed)
  }

  function Evaluate(eval: Evaluator, d: Derivation, p: Progress): Progress {
    var value := eval(d.expression, p.store);
    if GetPath(p.store, d.target) == value then p.(evaluated := p.evaluated + [d.id])
    else Progress(SetPath(p.store, d.target, value), p.pending + [d.target],
                  p.operations + [SetOp(d.target, value)], p.evaluated + [d.id])
  }

  /** One pass over the derivations with a fixed list of changed paths. */
  function Pass(eval: Evaluator, ds: seq<Derivation>, changed: seq<string>, p: Progress): Progress {
    if ds == [] then p
    else
      var before := Pass(eval, ds[..|ds| - 1], changed, p);
      var d := ds[|ds| - 1];
      if Due(d, changed, before) then Evaluate(eval, d, before) else before
  }

  function Ids(ds: seq<Derivation>): set<string> {
    set d | d in ds :: d.id
  }

  function Waiting(ds: seq<Derivation>, evaluated: seq<string>): set<string> {
    set d | d in ds && d.id !in evaluated :: d.id
  }

  lemma {:induction false} PassGrows(eval: Evaluator, ds: seq<Derivation>, changed: seq<string>, p: Progress)
    ensures var p' := Pass(eval, ds, changed, p);
            && p.evaluated <= p'.evaluated
            && (forall id :: id in p'.evaluated && id !in p.evaluated ==> id in Ids(ds))
            && (|p'.pending| > |p.pending| ==> |p'.evaluated| > |p.evaluated|)
            && |p'.pending| >= |p.pending|
            && (|p'.evaluated| > |p.evaluated| ==> exists d :: d in ds && d.id in p'.evaluated && d.id !in p.evaluated)
  {
    if ds != [] {
      PassGrows(eval, ds[..|ds| - 1], changed, p);
      assert ds[|ds| - 1] in ds;
    }
  }

  /** The outer loop: passes until nothing is pending. */
  function Rounds(eval: Evaluator, ds: seq<Derivation>, p: Progress): Progress
    decreases |Waiting(ds, p.evaluated)|, |p.pending|
  {
    if p.pending == [] then p
    else
      var p' := Pass(eval, ds, p.pending, p.(pending := []));
      RoundShrinks(eval, ds, p);
      Rounds(eval, ds, p')
  }

  lemma RoundShrinks(eval: Evaluator, ds: seq<Derivation>, p: Progress)
    requires p.pending != []
    ensures var p' := Pass(eval, ds, p.pending, p.(pending := []));
            || |Waiting(ds, p'.evaluated)| < |Waiting(ds, p.evaluated)|
            || (Waiting(ds, p'.evaluated) == Waiting(ds, p.evaluated) && p'.pending == [])
  {
    var p' := Pass(eval, ds, p.pending, p.(pending := []));
    PassGrows(eval, ds, p.pending, p.(pending := []));
    assert Waiting(ds, p'.evaluated) <= Waiting(ds, p.evaluated);
    if |p'.evaluated| > |p.evaluated| {
      var d :| d in ds && d.id in p'.evaluated && d.id !in p.evaluated;
      assert d.id in Waiting(ds, p.evaluated) && d.id !in Waiting(ds, p'.evaluated);
      ProperSubsetSmaller(Waiting(ds, p'.evaluated), Waiting(ds, p.evaluated));
    } else {
      assert p'.evaluated == p.evaluated;
    }
  }

  lemma ProperSubsetSmaller(a: set<string>, b: set<string>)
    requires a < b
    ensures |a| < |b|
  {
    var x :| x in b && x !in a;
    assert a <= b - {x};
    SubsetNotLarger(a, b - {x});
  }

  lemma {:induction false} SubsetNotLarger(a: set<string>, b: set<string>)
    requires a <= b
    ensures |a| <= |b|
    decreases a
  {
    if a != {} {
      var x :| x in a;
      SubsetNotLarger(a - {x}, b - {x});
    }
  }

  function Settle(eval: Evaluator, ds: seq<Derivation>, changed: seq<string>, store: Fields): Progress {
    Rounds(eval, ds, Progress(store, changed, [], []))
  }

  function AllDependencies(ds: seq<Derivation>): seq<string> {
    if ds == [] then [] else AllDependencies(ds[..|ds| - 1]) + ds[|ds| - 1].dependencies
  }

  function SettleAll(eval: Evaluator, ds: seq<Derivation>, store: Fields): Progress {
    Settle(eval, ds, AllDependencies(ds), store)
  }

  lemma ReplayOne(origin: Fields, operations: seq<PatchOp>, operation: PatchOp)
    ensures ApplyOps(origin, operations + [operation]) == ApplyOp(ApplyOps(origin, operations), operation)
  {
    assert (operations + [operation])[..|operations|] == operations;
  }

  /** The published operations are exactly what happened to the store. */
  lemma {:induction false} PassReplays(eval: Evaluator, ds: seq<Derivation>, changed: seq<string>, p: Progress,
      origin: Fields)
    requires p.store == ApplyOps(origin, p.operations)
    ensures Pass(eval, ds, changed, p).store == ApplyOps(origin, Pass(eval, ds, changed, p).operations)
  {
    hide Due, SetPath, GetPath;
    if ds != [] {
      var before, d := Pass(eval, ds[..|ds| - 1], changed, p), ds[|ds| - 1];
      PassReplays(eval, ds[..|ds| - 1], changed, p, origin);
      ReplayOne(origin, before.operations, SetOp(d.target, eval(d.expression, before.store)));
    }
  }

  lemma {:induction false} RoundsReplay(eval: Evaluator, ds: seq<Derivation>, p: Progress, origin: Fields)
    requires p.store == ApplyOps(origin, p.operations)
    ensures Rounds(eval, ds, p).store == ApplyOps(origin, Rounds(eval, ds, p).operations)
    decreases |Waiting(ds, p.evaluated)|, |p.pending|
  {
    if p.pending != [] {
      PassReplays(eval, ds, p.pending, p.(pending := []), origin);
      RoundShrinks(eval, ds, p);
      RoundsReplay(eval, ds, Pass(eval, ds, p.pending, p.(pending := [])), origin);
    }
  }

  lemma SettleReplays(eval: Evaluator, ds: seq<Derivation>, changed: seq<string>, store: Fields)
    ensures Settle(eval, ds, changed, store).store == ApplyOps(store, Settle(eval, ds, changed, store).operations)
  {
    RoundsReplay(eval, ds, Progress(store, changed, [], []), store);
  }

  // ---- fixpoints ---------------------------------------------------------------------------

  ghost predicate AtFixpoint(eval: Evaluator, store: Fields, d: Derivation) {
    GetPath(store, d.target) == eval(d.expression, store)
  }

  /** The expression's value depends on the declared dependencies only. */
  ghost predicate ReadsDeclared(eval: Evaluator, d: Derivation) {
    forall s, t ::
      (forall i :: 0 <= i < |d.dependencies| ==> GetPath(s, d.dependencies[i]) == GetPath(t, d.dependencies[i]))
      ==> eval(d.expression, s) == eval(d.expression, t)
  }

  ghost predicate DisjointTargets(ds: seq<Derivation>) {
    forall i, j :: 0 <= i < j < |ds| ==> !PathsOverlap(ds[i].target, ds[j].target)
  }

  /** Producers first, one id and one target each, and every expression reads what it declares. */
  ghost predicate WellFormed(eval: Evaluator, ds: seq<Derivation>) {
    && Topological(ds) && UniqueIds(ds) && DisjointTargets(ds)
    && forall d :: d in ds ==> ReadsDeclared(eval, d)
  }

  /** A write that reaches neither the target nor a dependency leaves a derivation where it was. */
  lemma WriteElsewhere(eval: Evaluator, store: Fields, d: Derivation, path: string, value: Json)
    requires ReadsDeclared(eval, d)
    requires !PathsOverlap(path, d.target)
    requires forall i :: 0 <= i < |d.dependencies| ==> !PathsOverlap(d.dependencies[i], path)
    ensures var store' := SetPath(store, path, value);
            && GetPath(store', d.target) == GetPath(store, d.target)
            && eval(d.expression, store') == eval(d.expression, store)
  {
    var store' := SetPath(store, path, value);
    OpFrame(store, SetOp(path, value), d.target);
    forall i | 0 <= i < |d.dependencies|
      ensures GetPath(store, d.dependencies[i]) == GetPath(store', d.dependencies[i])
    {
      OpFrame(store, SetOp(path, value), d.dependencies[i]);
    }
  }

  /** Evaluating puts a derivation at its fixpoint, unless it feeds itself. */
  lemma EvaluateReaches(eval: Evaluator, d: Derivation, p: Progress)
    requires ReadsDeclared(eval, d) && !Feeds(d, d)
    ensures AtFixpoint(eval, Evaluate(eval, d, p).store, d)
  {
    var value := eval(d.expression, p.store);
    if GetPath(p.store, d.target) != value {
      var store' := SetPath(p.store, d.target, value);
      SetPathGet(p.store, d.target, value);
      forall i | 0 <= i < |d.dependencies|
        ensures GetPath(p.store, d.dependencies[i]) == GetPath(store', d.dependencies[i])
      {
        OpFrame(p.store, SetOp(d.target, value), d.dependencies[i]);
      }
    }
  }

  /** Evaluating `p` does not disturb a derivation it does not feed. */
  lemma EvaluateElsewhere(eval: Evaluator, p: Derivation, d: Derivation, g: Progress)
    requires ReadsDeclared(eval, d) && !Feeds(p, d) && !PathsOverlap(p.target, d.target)
    requires AtFixpoint(eval, g.store, d)
    ensures AtFixpoint(eval, Evaluate(eval, p, g).store, d)
  {
    var value := eval(p.expression, g.store);
    if GetPath(g.store, p.target) != value {
      WriteElsewhere(eval, g.store, d, p.target, value);
    }
  }

  // ---- settling what is settled --------------------------------------------------------------------------

  lemma {:induction false} IdlePassWritesNothing(eval: Evaluator, ds: seq<Derivation>, changed: seq<string>,
      p: Progress)
    requires forall d :: d in ds ==> AtFixpoint(eval, p.store, d)
    ensures var p' := Pass(eval, ds, changed, p);
            p'.store == p.store && p'.pending == p.pending && p'.operations == p.operations
  {
    if ds != [] {
      var rest, last := ds[..|ds| - 1], ds[|ds| - 1];
      assert last in ds && forall d :: d in rest ==> d in ds;
      IdlePassWritesNothing(eval, rest, changed, p);
      assert AtFixpoint(eval, Pass(eval, rest, changed, p).store, last);
    }
  }

  /** Whatever changed, a store at the fixpoint is left alone and nothing is published. */
  lemma FixpointIsSilent(eval: Evaluator, ds: seq<Derivation>, changed: seq<string>, store: Fields)
    requires forall d :: d in ds ==> AtFixpoint(eval, store, d)
    ensures Settle(eval, ds, changed, store).store == store && Settle(eval, ds, changed, store).operations == []
  {
    if changed != [] {
      var start := Progress(store, changed, [], []);
      IdlePassWritesNothing(eval, ds, changed, start.(pending := []));
      var p := Pass(eval, ds, changed, start.(pending := []));
      assert Rounds(eval, ds, start) == Rounds(eval, ds, p) == p;
    }
  }
}
