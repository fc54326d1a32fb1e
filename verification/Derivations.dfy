/** Standing derivations: targets kept equal to expressions over other paths (kernel/src/derivations.ts). */
module Derivations {
  import opened Json
  import opened Paths

  datatype Derivation = Derivation(id: string, target: string, expression: string, dependencies: seq<string>)

  /** `ExpressionProvider.eval`, an uninterpreted deterministic function of the snapshot. */
  type Evaluator = (string, Fields) -> Json

  predicate UniqueIds(ds: seq<Derivation>) {
    forall i, j :: 0 <= i < j < |ds| ==> ds[i].id != ds[j].id
  }

  predicate UniqueTargets(ds: seq<Derivation>) {
    forall i, j :: 0 <= i < j < |ds| ==> ds[i].target != ds[j].target
  }

  /** `p` writes where `d` reads. */
  predicate Feeds(p: Derivation, d: Derivation) {
    exists i :: 0 <= i < |d.dependencies| && PathsOverlap(d.dependencies[i], p.target)
  }

  /** Every producer stands before its consumers. */
  ghost predicate Topological(ds: seq<Derivation>) {
    forall i, j :: 0 <= i < |ds| && 0 <= j < |ds| && Feeds(ds[i], ds[j]) ==> i < j
  }
}
