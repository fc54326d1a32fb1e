/** The two depth-first searches of kernel/src/derivations.ts:12-59: cycle detection and ordering. */
module DerivationOrder {
  import opened Json
  import opened Paths
  import opened Derivations

  // ---- the dependency relation between targets --------------------------------------

  ghost predicate Edge(ds: seq<Derivation>, from: string, to: string) {
    exists d, p :: d in ds && p in ds && d.target == from && p.target == to && Feeds(p, d)
  }

  /** A closed walk, named by its targets as the error message names it. */
  ghost predicate IsCycle(ds: seq<Derivation>, cycle: seq<string>) {
    && |cycle| >= 2 && cycle[0] == cycle[|cycle| - 1]
    && forall i :: 0 <= i < |cycle| - 1 ==> Edge(ds, cycle[i], cycle[i + 1])
  }

  ghost predicate Acyclic(ds: seq<Derivation>) {
    forall cycle :: !IsCycle(ds, cycle)
  }

  function Targets(ds: seq<Derivation>): set<string> {
    set d | d in ds :: d.target
  }

  predicate Distinct<T(==)>(s: seq<T>) {
    forall i, j :: 0 <= i < j < |s| ==> s[i] != s[j]
  }

  /** A finishing order: everything a target reads finished before it. */
  ghost predicate Finished(ds: seq<Derivation>, order: seq<string>) {
    && Distinct(order)
    && forall i, to :: 0 <= i < |order| && Edge(ds, order[i], to) ==> to in order[..i]
  }

  lemma FinishedAppend(ds: seq<Derivation>, order: seq<string>, target: string)
    requires Finished(ds, order) && target !in order
    requires forall to :: Edge(ds, target, to) ==> to in order
    ensures Finished(ds, order + [target])
  {
    var next := order + [target];
    forall i, to | 0 <= i < |next| && Edge(ds, next[i], to)
      ensures to in next[..i]
    {
      if i < |order| {
        assert next[..i] == order[..i];
      } else {
        assert next[..i] == order;
      }
    }
  }

  /** Along a closed walk the finishing position would have to drop all the way round. */
  lemma {:induction false} WalkDescends(ds: seq<Derivation>, order: seq<string>, walk: seq<string>,
      first: nat) returns (last: nat)
    requires Finished(ds, order) && |walk| >= 1
    requires forall i :: 0 <= i < |walk| - 1 ==> Edge(ds, walk[i], walk[i + 1])
    requires first < |order| && order[first] == walk[0]
    ensures last <= first < |order| && order[last] == walk[|walk| - 1]
    ensures |walk| >= 2 ==> last < first
  {
    if |walk| == 1 {
      last := first;
    } else {
      assert Edge(ds, walk[0], walk[1]);
      var next :| 0 <= next < |order[..first]| && order[..first][next] == walk[1];
      var rest := walk[1..];
      forall i | 0 <= i < |rest| - 1
        ensures Edge(ds, rest[i], rest[i + 1])
      {
        assert Edge(ds, walk[i + 1], walk[i + 2]);
      }
      last := WalkDescends(ds, order, walk[1..], next);
    }
  }

  lemma FinishedMeansAcyclic(ds: seq<Derivation>, order: seq<string>)
    requires Finished(ds, order) && forall target :: target in Targets(ds) ==> target in order
    ensures Acyclic(ds)
  {
    forall cycle | IsCycle(ds, cycle)
      ensures false
    {
      assert Edge(ds, cycle[0], cycle[1]);
      var d, p :| d in ds && p in ds && d.target == cycle[0] && p.target == cycle[1] && Feeds(p, d);
      assert d.target in Targets(ds);
      var first :| 0 <= first < |order| && order[first] == cycle[0];
      var last := WalkDescends(ds, order, cycle, first);
    }
  }

  // ---- cycleIn: depth-first search with a visiting set and a path ----------------------------

  class CycleSearch {
    const derivations: seq<Derivation>
    var visiting: set<string>
    var visited: set<string>
    var path: seq<string>
    ghost var order: seq<string>

    constructor (derivations: seq<Derivation>)
      ensures this.derivations == derivations
      ensures visiting == {} && visited == {} && path == [] && order == []
    {
      this.derivations := derivations;
      visiting, visited, path, order := {}, {}, [], [];
    }

    /** The path is a walk of distinct targets, disjoint from the finished ones. */
    ghost predicate Valid()
      reads this
    {
      && UniqueTargets(derivations)
      && Finished(derivations, order)
      && (forall t :: t in visited <==> t in order)
      && (forall t :: t in visiting <==> t in path)
      && visiting <= Targets(derivations) && visiting !! visited
      && Distinct(path)
      && forall i :: 0 <= i < |path| - 1 ==> Edge(derivations, path[i], path[i + 1])
    }

    /** The first `i` dependencies of `d` lead only to finished targets. */
    ghost predicate Explored(d: Derivation, i: nat, done: set<string>)
      requires i <= |d.dependencies|
    {
      forall k, p :: 0 <= k < i && p in derivations && PathsOverlap(d.dependencies[k], p.target) ==> p.target in done
    }

    method Visit(target: string) returns (cycle: Option<seq<string>>)
      requires Valid() && target in Targets(derivations)
      requires path != [] ==> Edge(derivations, path[|path| - 1], target)
      modifies this
      decreases Targets(derivations) - visiting, 0
      ensures cycle.Some? ==> IsCycle(derivations, cycle.value)
      ensures cycle.None? ==> Valid() && visiting == old(visiting) && path == old(path)
      ensures cycle.None? ==> old(visited) <= visited && target in visited
    {
      if target in visiting {
        var at := PositionOf(path, target);
        ghost var walk := path[at..] + [target];
        forall i | 0 <= i < |walk| - 1
          ensures Edge(derivations, walk[i], walk[i + 1])
        {
          assert walk[i] == path[at + i];
        }
        return Some(path[at..] + [target]);
      }
      if target in visited {
        return None;
      }
      visiting := visiting + {target};
      path := path + [target];
      var d := DerivationFor(derivations, target);
      cycle := VisitDependencies(d);
      if cycle.Some? {
        return;
      }
      ExploredMeansClosed(d);
      FinishedAppend(derivations, order, target);
      path := path[..|path| - 1];
      visiting := visiting - {target};
      visited := visited + {target};
      order := order + [target];
    }

    method VisitDependencies(d: Derivation) returns (cycle: Option<seq<string>>)
      requires Valid() && d in derivations && path != [] && path[|path| - 1] == d.target
      modifies this
      decreases Targets(derivations) - visiting, 1
      ensures cycle.Some? ==> IsCycle(derivations, cycle.value)
      ensures cycle.None? ==> Valid() && visiting == old(visiting) && path == old(path)
      ensures cycle.None? ==> old(visited) <= visited && Explored(d, |d.dependencies|, visited)
    {
      hide PathsOverlap, Finished, UniqueTargets, Distinct, Acyclic;
      for i := 0 to |d.dependencies|
        invariant Valid() && visiting == old(visiting) && path == old(path) && old(visited) <= visited
        invariant Explored(d, i, visited)
      {
        for j := 0 to |derivations|
          invariant Valid() && visiting == old(visiting) && path == old(path) && old(visited) <= visited
          invariant Explored(d, i, visited)
          invariant forall k ::
              0 <= k < j && PathsOverlap(d.dependencies[i], derivations[k].target)
              ==> derivations[k].target in visited
        {
          var candidate := derivations[j];
          if PathsOverlap(d.dependencies[i], candidate.target) {
            assert Feeds(candidate, d);
            cycle := Visit(candidate.target);
            if cycle.Some? {
              return;
            }
          }
        }
      }
      cycle := None;
    }

    lemma ExploredMeansClosed(d: Derivation)
      requires Valid() && d in derivations && Explored(d, |d.dependencies|, visited)
      ensures forall to :: Edge(derivations, d.target, to) ==> to in order
    {
      forall to | Edge(derivations, d.target, to)
        ensures to in order
      {
        var e, p :| e in derivations && p in derivations && e.target == d.target && p.target == to && Feeds(p, e);
        SameTarget(derivations, d, e);
      }
    }
  }

  lemma SameTarget(ds: seq<Derivation>, d: Derivation, e: Derivation)
    requires UniqueTargets(ds) && d in ds && e in ds && d.target == e.target
    ensures d == e
  {
    var i :| 0 <= i < |ds| && ds[i] == d;
    var j :| 0 <= j < |ds| && ds[j] == e;
    assert !(i < j) && !(j < i);
  }

  function PositionOf(s: seq<string>, x: string): (i: nat)
    requires x in s
    ensures i < |s| && s[i] == x
  {
    if s[0] == x then 0 else 1 + PositionOf(s[1..], x)
  }

  function DerivationFor(ds: seq<Derivation>, target: string): (d: Derivation)
    requires target in Targets(ds)
    ensures d in ds && d.target == target
  {
    if ds[0].target == target then ds[0] else DerivationFor(ds[1..], target)
  }

  /** `cycleIn`: a cycle if and only if there is one, together with the order the search finished in. */
  method CycleIn(ds: seq<Derivation>) returns (cycle: Option<seq<string>>, ghost order: seq<string>)
    requires UniqueTargets(ds)
    ensures cycle.Some? ==> IsCycle(ds, cycle.value)
    ensures cycle.None? ==> Finished(ds, order) && forall d :: d in ds ==> d.target in order
    ensures cycle.None? <==> Acyclic(ds)
  {
    var search := new CycleSearch(ds);
    for i := 0 to |ds|
      invariant search.Valid() && search.derivations == ds && search.path == [] && fresh(search)
      invariant forall k :: 0 <= k < i ==> ds[k].target in search.visited
    {
      cycle := search.Visit(ds[i].target);
      if cycle.Some? {
        order := [];
        return;
      }
    }
    cycle, order := None, search.order;
    FinishedMeansAcyclic(ds, order);
  }

  // ---- orderedDerivations ------------------------------------------------------------------------

  /** A derivation stands after everything that feeds it. */
  ghost predicate FedBefore(ds: seq<Derivation>, ordered: seq<Derivation>) {
    forall i, p :: 0 <= i < |ordered| && p in ds && Feeds(p, ordered[i]) ==> p in ordered[..i]
  }

  class Ordering {
    const derivations: seq<Derivation>
    var visited: set<string>
    var ordered: seq<Derivation>

    constructor (derivations: seq<Derivation>)
      ensures this.derivations == derivations && visited == {} && ordered == []
    {
      this.derivations := derivations;
      visited, ordered := {}, [];
    }

    ghost predicate Valid()
      reads this
    {
      && UniqueIds(derivations)
      && (forall d :: d in ordered ==> d in derivations)
      && (forall d :: d in derivations ==> (d.id in visited <==> d in ordered))
      && Distinct(ordered)
      && FedBefore(derivations, ordered)
    }

    /** The first `i` dependencies of `d` lead only to ordered derivations. */
    ghost predicate Placed(d: Derivation, i: nat, done: seq<Derivation>)
      requires i <= |d.dependencies|
    {
      forall k, p :: 0 <= k < i && p in derivations && PathsOverlap(d.dependencies[k], p.target) ==> p in done
    }

    /** `now` extends `before` by derivations that finished at positions below `bound`. */
    ghost predicate GrownBelow(before: seq<Derivation>, now: seq<Derivation>, order: seq<string>, bound: nat) {
      && (forall e :: e in before ==> e in now)
      && (forall e :: e in now && e !in before ==> e.target in order && PositionOf(order, e.target) < bound)
    }

    /** Recursion without a visiting set: it ends because the finishing order goes down. */
    method Visit(d: Derivation, ghost order: seq<string>)
      requires Valid() && d in derivations
      requires Finished(derivations, order) && forall e :: e in derivations ==> e.target in order
      modifies this
      decreases PositionOf(order, d.target), 1
      ensures Valid() && d in ordered
      ensures GrownBelow(old(ordered), ordered, order, PositionOf(order, d.target) + 1)
    {
      if d.id in visited {
        return;
      }
      VisitDependencies(d, order);
      Append(d);
    }

    method VisitDependencies(d: Derivation, ghost order: seq<string>)
      requires Valid() && d in derivations
      requires Finished(derivations, order) && forall e :: e in derivations ==> e.target in order
      modifies this
      decreases PositionOf(order, d.target), 0
      ensures Valid() && Placed(d, |d.dependencies|, ordered)
      ensures GrownBelow(old(ordered), ordered, order, PositionOf(order, d.target))
    {
      hide PathsOverlap, UniqueIds, FedBefore, Acyclic;
      for i := 0 to |d.dependencies|
        invariant Valid() && Placed(d, i, ordered)
        invariant GrownBelow(old(ordered), ordered, order, PositionOf(order, d.target))
      {
        for j := 0 to |derivations|
          invariant Valid() && Placed(d, i, ordered)
          invariant GrownBelow(old(ordered), ordered, order, PositionOf(order, d.target))
          invariant forall k ::
              0 <= k < j && PathsOverlap(d.dependencies[i], derivations[k].target)
              ==> derivations[k] in ordered
        {
          var candidate := derivations[j];
          if PathsOverlap(d.dependencies[i], candidate.target) {
            assert Feeds(candidate, d) && Edge(derivations, d.target, candidate.target);
            EarlierPosition(order, d.target, candidate.target);
            ghost var before := ordered;
            Visit(candidate, order);
            assert forall e :: e in before ==> e in ordered;
          }
        }
      }
    }

    method Append(d: Derivation)
      requires Valid() && d in derivations && d !in ordered
      requires forall p :: p in derivations && Feeds(p, d) ==> p in ordered
      modifies this
      ensures Valid() && ordered == old(ordered) + [d]
    {
      visited := visited + {d.id};
      ordered := ordered + [d];
      forall i, p | 0 <= i < |ordered| && p in derivations && Feeds(p, ordered[i])
        ensures p in ordered[..i]
      {
        assert ordered[..i] == old(ordered)[..i];
      }
      forall e | e in derivations
        ensures e.id in visited <==> e in ordered
      {
        if e.id == d.id {
          SameId(derivations, d, e);
        }
      }
    }
  }

  lemma SameId(ds: seq<Derivation>, d: Derivation, e: Derivation)
    requires UniqueIds(ds) && d in ds && e in ds && d.id == e.id
    ensures d == e
  {
    var i :| 0 <= i < |ds| && ds[i] == d;
    var j :| 0 <= j < |ds| && ds[j] == e;
    assert !(i < j) && !(j < i);
  }

  lemma EarlierPosition(order: seq<string>, later: string, earlier: string)
    requires Distinct(order) && later in order && earlier in order[..PositionOf(order, later)]
    ensures PositionOf(order, earlier) < PositionOf(order, later)
  {
    var i :| 0 <= i < PositionOf(order, later) && order[i] == earlier;
    var j := PositionOf(order, earlier);
    assert !(i < j);
  }

  method OrderedDerivations(ds: seq<Derivation>, ghost order: seq<string>) returns (ordered: seq<Derivation>)
    requires UniqueIds(ds) && UniqueTargets(ds)
    requires Finished(ds, order) && forall d :: d in ds ==> d.target in order
    ensures multiset(ordered) == multiset(ds)
    ensures Topological(ordered)
  {
    var ordering := new Ordering(ds);
    for i := 0 to |ds|
      invariant ordering.Valid() && ordering.derivations == ds && fresh(ordering)
      invariant forall k :: 0 <= k < i ==> ds[k] in ordering.ordered
    {
      ghost var before := ordering.ordered;
      ordering.Visit(ds[i], order);
      assert forall d :: d in before ==> d in ordering.ordered;
    }
    ordered := ordering.ordered;
    SameElementsSameMultiset(ordered, ds);
    forall i, j | 0 <= i < |ordered| && 0 <= j < |ordered| && Feeds(ordered[i], ordered[j])
      ensures i < j
    {
      assert ordered[i] in ordered[..j];
    }
  }

  lemma SameElementsSameMultiset(a: seq<Derivation>, b: seq<Derivation>)
    requires Distinct(a) && Distinct(b) && forall d :: d in a <==> d in b
    ensures multiset(a) == multiset(b)
  {
    forall d
      ensures multiset(a)[d] == multiset(b)[d]
    {
      CountInDistinct(a, d);
      CountInDistinct(b, d);
    }
  }

  lemma {:induction false} CountInDistinct(s: seq<Derivation>, d: Derivation)
    requires Distinct(s)
    ensures multiset(s)[d] == if d in s then 1 else 0
  {
    if s != [] {
      var last := |s| - 1;
      CountInDistinct(s[..last], d);
      assert s == s[..last] + [s[last]];
    }
  }
}
