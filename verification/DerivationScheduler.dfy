/** The scheduler object of kernel/src/derivations.ts:61-115. */
module DerivationScheduling {
  import opened Json
  import opened Paths
  import opened Derivations
  import opened DerivationOrder
  import opened Settlement

  datatype Construction =
    | Constructed(scheduler: DerivationScheduler)
    | DuplicateId
    | DuplicateTarget
    | Cyclic(cycle: seq<string>)

  class DerivationScheduler {
    const derivations: seq<Derivation>

    constructor (ordered: seq<Derivation>)
      ensures derivations == ordered
    {
      derivations := ordered;
    }

    /** The constructor of the source: it succeeds if and only if ids and targets are unique and the
        overlap relation is acyclic, and then stores a permutation with producers first. */
    static method Create(ds: seq<Derivation>) returns (r: Construction)
      ensures r.Constructed? <==> UniqueIds(ds) && UniqueTargets(ds) && Acyclic(ds)
      ensures r.Constructed? ==>
          multiset(r.scheduler.derivations) == multiset(ds)
          && Topological(r.scheduler.derivations)
      ensures r.DuplicateId? ==> !UniqueIds(ds)
      ensures r.DuplicateTarget? ==> !UniqueTargets(ds)
      ensures r.Cyclic? ==> IsCycle(ds, r.cycle)
    {
      var ids: set<string>, targets: set<string> := {}, {};
      for i := 0 to |ds|
        invariant forall id :: id in ids <==> exists k :: 0 <= k < i && ds[k].id == id
        invariant forall t :: t in targets <==> exists k :: 0 <= k < i && ds[k].target == t
        invariant UniqueIds(ds[..i]) && UniqueTargets(ds[..i])
      {
        if ds[i].id in ids {
          return DuplicateId;
        }
        if ds[i].target in targets {
          return DuplicateTarget;
        }
        ids, targets := ids + {ds[i].id}, targets + {ds[i].target};
      }
      assert ds[..|ds|] == ds;
      var cycle, order := CycleIn(ds);
      if cycle.Some? {
        return Cyclic(cycle.value);
      }
      var ordered := OrderedDerivations(ds, order);
      var scheduler := new DerivationScheduler(ordered);
      r := Constructed(scheduler);
    }

    /** The incremental loop, writing the store as it goes; `order` lists the evaluations. */
    method Settle(eval: Evaluator, changedPaths: seq<string>, store: InMemoryStateModel)
      returns (operations: seq<PatchOp>, ghost order: seq<string>)
      modifies store
      ensures Progress(store.data, [], operations, order)
          == Settlement.Settle(eval, derivations, changedPaths, old(store.data))
    {
      var pending := changedPaths;
      var evaluated: set<string> := {};
      operations, order := [], [];
      while pending != []
        invariant forall id :: id in evaluated <==> id in order
        invariant Rounds(eval, derivations, Progress(store.data, pending, operations, order))
               == Settlement.Settle(eval, derivations, changedPaths, old(store.data))
        decreases |Waiting(derivations, order)|, |pending|
      {
        ghost var start := Progress(store.data, pending, operations, order);
        RoundShrinks(eval, derivations, start);
        var changed := pending;
        pending := [];
        for i := 0 to |derivations|
          invariant forall id :: id in evaluated <==> id in order
          invariant Progress(store.data, pending, operations, order)
              == Pass(eval, derivations[..i], changed, start.(pending := []))
        {
          var d := derivations[i];
          assert derivations[..i + 1][..i] == derivations[..i];
          if d.id !in evaluated && Touched(d, changed) {
            var value := eval(d.expression, store.data);
            var current := store.Get(d.target);
            if current != value {
              var operation := SetOp(d.target, value);
              ghost var data := store.data;
              store.Apply([operation]);
              assert ApplyOps(data, [operation]) == ApplyOp(ApplyOps(data, []), operation);
              operations := operations + [operation];
              pending := pending + [d.target];
            }
            evaluated, order := evaluated + {d.id}, order + [d.id];
          }
        }
        assert derivations[..|derivations|] == derivations;
      }
    }

    method SettleAll(eval: Evaluator, store: InMemoryStateModel) returns (operations: seq<PatchOp>,
        ghost order: seq<string>)
      modifies store
      ensures Progress(store.data, [], operations, order) == Settlement.SettleAll(eval, derivations, old(store.data))
    {
      var all: seq<string> := [];
      for i := 0 to |derivations|
        invariant all == AllDependencies(derivations[..i])
      {
        assert derivations[..i + 1][..i] == derivations[..i];
        all := all + derivations[i].dependencies;
      }
      assert derivations[..|derivations|] == derivations;
      operations, order := Settle(eval, all, store);
    }
  }
}
