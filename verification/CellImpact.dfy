/** Which cells a change reaches and in which stages they can run (blueprint/src/cell-impact.ts). */
module CellImpact {
  datatype Edge = Edge(provider: string, consumer: string)
  datatype Blocker = Blocker(cellId: string, waitingOn: seq<string>)
  datatype Analysis = Analysis(
    changedCells: seq<string>, affectedCells: seq<string>, stages: seq<seq<string>>, blockers: seq<Blocker>)
  datatype Outcome = Analysed(analysis: Analysis) | UnknownCell(cellId: string)

  // ---- sorted sets of names ------------------------------------------------------------------

  /** The order of `Array.prototype.sort`: character codes, a prefix first. */
  predicate Before(a: string, b: string) {
    if b == [] then false
    else a == [] || a[0] < b[0] || (a[0] == b[0] && Before(a[1..], b[1..]))
  }

  predicate Ascending(s: seq<string>) {
    forall i, j :: 0 <= i < j < |s| ==> Before(s[i], s[j])
  }

  function Elements(s: seq<string>): set<string> {
    set x | x in s
  }

  lemma {:induction false} BeforeTotal(a: string, b: string)
    ensures a != b ==> Before(a, b) || Before(b, a)
    ensures !(Before(a, b) && Before(b, a)) && !Before(a, a)
  {
    if a != [] && b != [] {
      assert a == [a[0]] + a[1..] && b == [b[0]] + b[1..];
      BeforeTotal(a[1..], b[1..]);
      BeforeTotal(a[1..], a[1..]);
    } else if a != [] {
      BeforeTotal(a[1..], a[1..]);
    }
  }

  lemma {:induction false} BeforeTransitive(a: string, b: string, c: string)
    requires Before(a, b) && Before(b, c)
    ensures Before(a, c)
  {
    if a != [] && a[0] == b[0] == c[0] {
      BeforeTransitive(a[1..], b[1..], c[1..]);
    }
  }

  lemma NoElements(s: seq<string>)
    ensures Elements(s) == {} <==> s == []
  {
    if s != [] {
      assert s[0] in Elements(s);
    }
  }

  /** A set has one ascending listing, so an ascending result is determined by its elements. */
  lemma {:induction false} AscendingUnique(a: seq<string>, b: seq<string>)
    requires Ascending(a) && Ascending(b) && Elements(a) == Elements(b)
    ensures a == b
  {
    NoElements(a);
    NoElements(b);
    if a != [] {
      FirstIsLeast(a, b);
      FirstIsLeast(b, a);
      BeforeTotal(a[0], b[0]);
      RestElements(a);
      RestElements(b);
      AscendingUnique(a[1..], b[1..]);
      assert a == [a[0]] + a[1..] && b == [b[0]] + b[1..];
    }
  }

  lemma FirstIsLeast(a: seq<string>, b: seq<string>)
    requires Ascending(a) && a != [] && b != [] && Elements(a) == Elements(b)
    ensures a[0] == b[0] || Before(a[0], b[0])
  {
    assert b[0] in Elements(a);
    var i :| 0 <= i < |a| && a[i] == b[0];
  }

  lemma RestElements(a: seq<string>)
    requires Ascending(a) && a != []
    ensures Elements(a[1..]) == Elements(a) - {a[0]}
  {
    forall x | x in a[1..]
      ensures x != a[0]
    {
      var i :| 0 <= i < |a[1..]| && a[1..][i] == x;
      assert a[i + 1] == x;
      BeforeTotal(a[0], a[0]);
    }
  }

  function Insert(x: string, s: seq<string>): seq<string> {
    if s == [] || Before(x, s[0]) then [x] + s
    else if x == s[0] then s
    else [s[0]] + Insert(x, s[1..])
  }

  lemma ElementsOfPrepend(x: string, s: seq<string>)
    ensures Elements([x] + s) == {x} + Elements(s)
  {
  }

  /** Something before all of an ascending list goes in front of it. */
  lemma PrependAscends(x: string, s: seq<string>)
    requires Ascending(s) && forall y :: y in s ==> Before(x, y)
    ensures Ascending([x] + s)
  {
  }

  lemma TailAscends(s: seq<string>)
    requires Ascending(s) && s != []
    ensures Ascending(s[1..]) && s == [s[0]] + s[1..] && forall y :: y in s[1..] ==> Before(s[0], y)
  {
    hide Before;
    forall y | y in s[1..]
      ensures Before(s[0], y)
    {
      var i :| 0 <= i < |s[1..]| && s[1..][i] == y;
    }
  }

  lemma BeforeAll(x: string, s: seq<string>)
    requires Ascending(s) && s != [] && Before(x, s[0])
    ensures forall y :: y in s ==> Before(x, y)
  {
    hide Before;
    forall j | 0 < j < |s|
      ensures Before(x, s[j])
    {
      BeforeTransitive(x, s[0], s[j]);
    }
  }

  lemma {:induction false} InsertAscends(x: string, s: seq<string>)
    requires Ascending(s)
    ensures Ascending(Insert(x, s)) && Elements(Insert(x, s)) == Elements(s) + {x}
  {
    hide Before, Ascending, Elements;
    if s == [] {
      PrependAscends(x, s);
      ElementsOfPrepend(x, s);
    } else if Before(x, s[0]) {
      BeforeAll(x, s);
      PrependAscends(x, s);
      ElementsOfPrepend(x, s);
    } else {
      TailAscends(s);
      ElementsOfPrepend(s[0], s[1..]);
      if x != s[0] {
        BeforeTotal(x, s[0]);
        InsertAscends(x, s[1..]);
        var rest := Insert(x, s[1..]);
        forall y | y in rest
          ensures Before(s[0], y)
        {
          InsertedIsOldOrNew(x, s[1..], y);
        }
        PrependAscends(s[0], rest);
        ElementsOfPrepend(s[0], rest);
      }
    }
  }

  lemma {:induction false} InsertedIsOldOrNew(x: string, s: seq<string>, y: string)
    requires y in Insert(x, s)
    ensures y == x || y in s
  {
    hide Before;
    if s != [] && !Before(x, s[0]) && x != s[0] && y != s[0] {
      InsertedIsOldOrNew(x, s[1..], y);
    }
  }

  /** uniqueSorted. */
  method UniqueSorted(values: seq<string>) returns (r: seq<string>)
    ensures Ascending(r) && Elements(r) == Elements(values)
  {
    r := [];
    for i := 0 to |values|
      invariant Ascending(r) && Elements(r) == Elements(values[..i])
    {
      InsertAscends(values[i], r);
      assert values[..i + 1] == values[..i] + [values[i]];
      r := Insert(values[i], r);
    }
    assert values[..|values|] == values;
  }

  // ---- reachability --------------------------------------------------------------------------

  ghost predicate Path(edges: seq<Edge>, path: seq<string>) {
    path != [] && forall i :: 0 <= i < |path| - 1 ==> Edge(path[i], path[i + 1]) in edges
  }

  ghost predicate PathFrom(edges: seq<Edge>, roots: set<string>, path: seq<string>, cell: string) {
    Path(edges, path) && path[0] in roots && path[|path| - 1] == cell
  }

  ghost predicate Reachable(edges: seq<Edge>, roots: set<string>, cell: string) {
    exists path :: PathFrom(edges, roots, path, cell)
  }

  lemma ReachableNext(edges: seq<Edge>, roots: set<string>, provider: string, consumer: string)
    requires Reachable(edges, roots, provider) && Edge(provider, consumer) in edges
    ensures Reachable(edges, roots, consumer)
  {
    var path :| PathFrom(edges, roots, path, provider);
    assert PathFrom(edges, roots, path + [consumer], consumer);
  }

  lemma ReachableRoot(edges: seq<Edge>, roots: set<string>, cell: string)
    requires cell in roots
    ensures Reachable(edges, roots, cell)
  {
    assert PathFrom(edges, roots, [cell], cell);
  }

  ghost predicate ClosedUnder(edges: seq<Edge>, cells: set<string>) {
    forall e :: e in edges && e.provider in cells ==> e.consumer in cells
  }

  lemma {:induction false} PathStays(edges: seq<Edge>, cells: set<string>, path: seq<string>)
    requires ClosedUnder(edges, cells) && Path(edges, path) && path[0] in cells
    ensures path[|path| - 1] in cells
  {
    if |path| > 1 {
      var rest := path[..|path| - 1];
      PathStays(edges, cells, rest);
      assert Edge(path[|path| - 2], path[|path| - 1]) in edges;
    }
  }

  lemma ClosedHoldsReachable(edges: seq<Edge>, roots: set<string>, cells: set<string>, cell: string)
    requires ClosedUnder(edges, cells) && roots <= cells && Reachable(edges, roots, cell)
    ensures cell in cells
  {
    var path :| PathFrom(edges, roots, path, cell);
    PathStays(edges, cells, path);
  }

  // ---- the two indexes -----------------------------------------------------------------------

  /** A JavaScript Map of insertion-ordered Sets. */
  type Index = map<string, seq<string>>

  function Get(index: Index, key: string): seq<string> {
    if key in index then index[key] else []
  }

  function Add(index: Index, key: string, value: string): Index {
    index[key := if value in Get(index, key) then Get(index, key) else Get(index, key) + [value]]
  }

  method DependenciesByConsumer(edges: seq<Edge>) returns (index: Index)
    ensures forall p, c :: p in Get(index, c) <==> Edge(p, c) in edges
  {
    index := map[];
    for i := 0 to |edges|
      invariant forall p, c :: p in Get(index, c) <==> Edge(p, c) in edges[..i]
    {
      index := Add(index, edges[i].consumer, edges[i].provider);
      assert edges[..i + 1] == edges[..i] + [edges[i]];
    }
    assert edges[..|edges|] == edges;
  }

  method ConsumersByProvider(edges: seq<Edge>) returns (index: Index)
    ensures forall p, c :: c in Get(index, p) <==> Edge(p, c) in edges
  {
    index := map[];
    for i := 0 to |edges|
      invariant forall p, c :: c in Get(index, p) <==> Edge(p, c) in edges[..i]
    {
      index := Add(index, edges[i].provider, edges[i].consumer);
      assert edges[..i + 1] == edges[..i] + [edges[i]];
    }
    assert edges[..|edges|] == edges;
  }

  ghost function Consumers(edges: seq<Edge>): set<string> {
    set e | e in edges :: e.consumer
  }

  /** Everything seen is reachable, and whatever a cell no longer queued feeds has been seen. */
  ghost predicate Searching(edges: seq<Edge>, roots: set<string>, seen: set<string>, affected: set<string>,
      queue: seq<string>) {
    && seen == roots + affected && roots !! affected && Elements(queue) <= seen
    && affected <= Consumers(edges)
    && (forall c :: c in seen ==> Reachable(edges, roots, c))
    && (forall e :: e in edges && e.provider in seen ==> e.provider in queue || e.consumer in seen)
  }

  lemma SearchStarts(edges: seq<Edge>, roots: seq<string>)
    ensures Searching(edges, Elements(roots), Elements(roots), {}, roots)
  {
    forall c | c in Elements(roots)
      ensures Reachable(edges, Elements(roots), c)
    {
      ReachableRoot(edges, Elements(roots), c);
    }
  }

  lemma SearchMeets(edges: seq<Edge>, roots: set<string>, seen: set<string>, affected: seq<string>, queue: seq<string>,
                    current: string, next: string)
    requires Searching(edges, roots, seen, Elements(affected), queue + [current])
    requires next !in seen && Edge(current, next) in edges
    ensures Searching(edges, roots, seen + {next}, Elements(affected + [next]), queue + [next] + [current])
    ensures Elements(affected + [next]) == Elements(affected) + {next} && next in Consumers(edges) - Elements(affected)
  {
    hide Reachable;
    assert current in queue + [current] && current in Elements(queue + [current]);
    ReachableNext(edges, roots, current, next);
    assert Edge(current, next).consumer in Consumers(edges);
    assert Elements(affected + [next]) == Elements(affected) + {next};
    assert Elements(queue + [next] + [current]) == Elements(queue + [current]) + {next};
    assert forall x :: x in queue + [current] ==> x in queue + [next] + [current];
  }

  lemma SearchLeaves(edges: seq<Edge>, roots: set<string>, seen: set<string>, affected: set<string>,
      queue: seq<string>, current: string)
    requires Searching(edges, roots, seen, affected, queue + [current])
    requires forall c :: Edge(current, c) in edges ==> c in seen
    ensures Searching(edges, roots, seen, affected, queue)
  {
    hide Reachable;
    assert Elements(queue) <= Elements(queue + [current]);
    forall e | e in edges && e.provider in seen
      ensures e.provider in queue || e.consumer in seen
    {
      assert e.provider == current ==> Edge(current, e.consumer) in edges;
    }
  }

  lemma SearchAnswers(edges: seq<Edge>, roots: set<string>, seen: set<string>, affected: set<string>)
    requires Searching(edges, roots, seen, affected, [])
    ensures forall c :: c in affected <==> Reachable(edges, roots, c) && c !in roots
  {
    hide Reachable;
    forall c | Reachable(edges, roots, c)
      ensures c in seen
    {
      ClosedHoldsReachable(edges, roots, seen, c);
    }
  }

  /** The breadth-first search: its answer is exactly what a path from a root reaches. */
  method ReachableCells(edges: seq<Edge>, roots: seq<string>) returns (r: seq<string>)
    ensures Ascending(r)
    ensures forall c :: c in r <==> Reachable(edges, Elements(roots), c) && c !in roots
  {
    hide Searching, Reachable;
    var consumers := ConsumersByProvider(edges);
    ghost var start := Elements(roots);
    var seen := set x | x in roots;
    var affected: seq<string> := [];
    var queue := roots;
    SearchStarts(edges, roots);
    assert Elements(affected) == {};
    while queue != []
      invariant Searching(edges, start, seen, Elements(affected), queue)
      decreases Consumers(edges) - Elements(affected), |queue|
    {
      var current := queue[0];
      ghost var met, waiting := Elements(affected), queue[1..];
      Requeue(edges, start, seen, met, queue);
      queue := queue[1..];
      var fed := Get(consumers, current);
      for i := 0 to |fed|
        invariant Searching(edges, start, seen, Elements(affected), queue + [current])
        invariant if Elements(affected) == met then queue == waiting
            else Consumers(edges) - Elements(affected) < Consumers(edges) - met
        invariant forall k :: 0 <= k < i ==> fed[k] in seen
      {
        if fed[i] !in seen {
          SearchMeets(edges, start, seen, affected, queue, current, fed[i]);
          seen := seen + {fed[i]};
          affected := affected + [fed[i]];
          queue := queue + [fed[i]];
        }
      }
      SearchLeaves(edges, start, seen, Elements(affected), queue, current);
    }
    SearchAnswers(edges, start, seen, Elements(affected));
    r := UniqueSorted(affected);
    assert forall c :: c in r <==> c in Elements(r);
  }

  lemma Requeue(edges: seq<Edge>, roots: set<string>, seen: set<string>, affected: set<string>, queue: seq<string>)
    requires Searching(edges, roots, seen, affected, queue) && queue != []
    ensures Searching(edges, roots, seen, affected, queue[1..] + [queue[0]])
  {
    hide Reachable;
    var turned := queue[1..] + [queue[0]];
    assert forall x :: x in queue ==> x == queue[0] || x in queue[1..];
    assert Elements(turned) == Elements(queue);
  }

  // ---- stages --------------------------------------------------------------------------------

  ghost function Providers(edges: seq<Edge>, cell: string): set<string> {
    set e | e in edges && e.consumer == cell :: e.provider
  }

  ghost function Scheduled(stages: seq<seq<string>>): set<string> {
    if stages == [] then {} else Scheduled(stages[..|stages| - 1]) + Elements(stages[|stages| - 1])
  }

  ghost predicate CanRun(edges: seq<Edge>, roots: set<string>, stages: seq<seq<string>>, cell: string) {
    Providers(edges, cell) <= roots + Scheduled(stages)
  }

  /** Each stage lists exactly the affected cells that can run after the earlier stages and did not yet. */
  ghost predicate Staged(edges: seq<Edge>, roots: set<string>, affected: seq<string>, stages: seq<seq<string>>) {
    forall i :: 0 <= i < |stages| ==>
      && stages[i] != [] && Ascending(stages[i])
      && forall c :: c in stages[i] <==>
          c in affected && c !in Scheduled(stages[..i])
          && CanRun(edges, roots, stages[..i], c)
  }

  ghost predicate Exhausted(edges: seq<Edge>, roots: set<string>, affected: seq<string>, stages: seq<seq<string>>) {
    forall c :: c in affected && c !in Scheduled(stages) ==> !CanRun(edges, roots, stages, c)
  }

  ghost predicate Blocks(edges: seq<Edge>, roots: set<string>, stages: seq<seq<string>>, b: Blocker) {
    && Ascending(b.waitingOn)
    && Elements(b.waitingOn) == Providers(edges, b.cellId) - roots - Scheduled(stages)
  }

  /** The analysis of a change at `roots`. */
  ghost predicate IsImpact(edges: seq<Edge>, roots: set<string>, a: Analysis) {
    && Ascending(a.affectedCells)
    && (forall c :: c in a.affectedCells <==> Reachable(edges, roots, c) && c !in roots)
    && Staged(edges, roots, a.affectedCells, a.stages)
    && Exhausted(edges, roots, a.affectedCells, a.stages)
    && (forall b :: b in a.blockers ==> Blocks(edges, roots, a.stages, b))
    && Ascending(CellIds(a.blockers))
    && (forall c :: c in CellIds(a.blockers) <==> c in a.affectedCells && c !in Scheduled(a.stages))
  }

  function CellIds(blockers: seq<Blocker>): (r: seq<string>)
    ensures |r| == |blockers|
  {
    seq(|blockers|, i requires 0 <= i < |blockers| => blockers[i].cellId)
  }

  /** `Array.prototype.filter`. */
  function Filter(keep: string -> bool, s: seq<string>): seq<string> {
    if s == [] then []
    else Filter(keep, s[..|s| - 1]) + if keep(s[|s| - 1]) then [s[|s| - 1]] else []
  }

  lemma {:induction false} FilterAscends(keep: string -> bool, s: seq<string>)
    requires Ascending(s)
    ensures Ascending(Filter(keep, s))
    ensures forall x :: x in Filter(keep, s) <==> x in s && keep(x)
  {
    if s != [] {
      var rest, last := s[..|s| - 1], s[|s| - 1];
      FilterAscends(keep, rest);
      assert s == rest + [last];
      forall x | x in Filter(keep, rest)
        ensures Before(x, last)
      {
        var i :| 0 <= i < |rest| && rest[i] == x;
        assert s[i] == x;
      }
    }
  }

  predicate IsReady(dependencies: Index, scheduled: set<string>, available: set<string>, cell: string) {
    cell !in scheduled && forall d :: d in Get(dependencies, cell) ==> d in available
  }

  lemma ScheduledAppend(stages: seq<seq<string>>, ready: seq<string>)
    ensures Scheduled(stages + [ready]) == Scheduled(stages) + Elements(ready)
  {
    assert (stages + [ready])[..|stages|] == stages;
  }

  lemma StageAdded(edges: seq<Edge>, roots: set<string>, affected: seq<string>, stages: seq<seq<string>>,
      ready: seq<string>)
    requires Staged(edges, roots, affected, stages)
    requires ready != [] && Ascending(ready)
    requires forall c :: c in ready <==> c in affected && c !in Scheduled(stages) && CanRun(edges, roots, stages, c)
    ensures Staged(edges, roots, affected, stages + [ready])
    ensures Scheduled(stages + [ready]) == Scheduled(stages) + Elements(ready)
  {
    hide CanRun, Ascending, Scheduled;
    var longer := stages + [ready];
    assert longer[..|stages|] == stages;
    ScheduledAppend(stages, ready);
    forall i | 0 <= i < |stages|
      ensures longer[..i] == stages[..i] && longer[i] == stages[i]
    {
    }
  }

  ghost predicate Indexes(dependencies: Index, edges: seq<Edge>) {
    forall p, c :: p in Get(dependencies, c) <==> Edge(p, c) in edges
  }

  lemma IndexedProviders(dependencies: Index, edges: seq<Edge>, cell: string)
    requires Indexes(dependencies, edges)
    ensures Elements(Get(dependencies, cell)) == Providers(edges, cell)
  {
    forall p | p in Providers(edges, cell)
      ensures p in Get(dependencies, cell)
    {
      assert Edge(p, cell) in edges;
    }
    forall p | p in Get(dependencies, cell)
      ensures p in Providers(edges, cell)
    {
      assert Edge(p, cell) in edges && Edge(p, cell).provider == p;
    }
  }

  lemma ReadyIffCanRun(dependencies: Index, edges: seq<Edge>, roots: set<string>, stages: seq<seq<string>>,
      cell: string)
    requires Indexes(dependencies, edges)
    ensures IsReady(dependencies, Scheduled(stages), roots + Scheduled(stages), cell)
       <==> cell !in Scheduled(stages) && CanRun(edges, roots, stages, cell)
  {
    hide Scheduled, Indexes, Providers;
    IndexedProviders(dependencies, edges, cell);
    assert forall d :: d in Get(dependencies, cell) <==> d in Elements(Get(dependencies, cell));
  }

  lemma NoStages(edges: seq<Edge>, roots: set<string>, affected: seq<string>)
    ensures Staged(edges, roots, affected, []) && Scheduled([]) == {}
  {
  }

  lemma NothingReady(edges: seq<Edge>, roots: set<string>, affected: seq<string>, stages: seq<seq<string>>)
    requires forall c :: !(c in affected && c !in Scheduled(stages) && CanRun(edges, roots, stages, c))
    ensures Exhausted(edges, roots, affected, stages)
  {
  }

  /** The staging loop. */
  method Schedule(edges: seq<Edge>, roots: set<string>, affected: seq<string>, dependencies: Index)
    returns (stages: seq<seq<string>>, scheduled: set<string>, available: set<string>)
    requires Ascending(affected) && Indexes(dependencies, edges)
    ensures Staged(edges, roots, affected, stages) && Exhausted(edges, roots, affected, stages)
    ensures scheduled == Scheduled(stages) && available == roots + scheduled
  {
    hide Ascending, IsReady, CanRun, Indexes, Staged, Exhausted, Scheduled, Filter;
    available := roots;
    stages := [];
    scheduled := {};
    NoStages(edges, roots, affected);
    while true
      invariant Staged(edges, roots, affected, stages)
      invariant scheduled == Scheduled(stages) && available == roots + scheduled
      decreases Elements(affected) - scheduled
    {
      var ready := Filter(c => IsReady(dependencies, scheduled, available, c), affected);
      FilterAscends(c => IsReady(dependencies, scheduled, available, c), affected);
      forall c
        ensures c in ready <==> c in affected && c !in Scheduled(stages) && CanRun(edges, roots, stages, c)
      {
        ReadyIffCanRun(dependencies, edges, roots, stages, c);
      }
      if ready == [] {
        NothingReady(edges, roots, affected, stages);
        return;
      }
      StageAdded(edges, roots, affected, stages, ready);
      assert ready[0] in Elements(affected) - scheduled && ready[0] in Elements(ready);
      stages := stages + [ready];
      ghost var before := scheduled;
      for i := 0 to |ready|
        invariant scheduled == before + Elements(ready[..i]) && available == roots + scheduled
      {
        assert ready[..i + 1] == ready[..i] + [ready[i]];
        scheduled := scheduled + {ready[i]};
        available := available + {ready[i]};
      }
      assert ready[..|ready|] == ready;
    }
  }

  lemma BlockedList(dependencies: Index, edges: seq<Edge>, roots: set<string>, stages: seq<seq<string>>,
      waiting: seq<string>, cell: string)
    requires Indexes(dependencies, edges) && Ascending(waiting)
    requires forall p :: p in waiting <==> p in Get(dependencies, cell) && p !in roots + Scheduled(stages)
    ensures Blocks(edges, roots, stages, Blocker(cell, waiting))
  {
    hide Scheduled, Indexes, Providers, Ascending;
    IndexedProviders(dependencies, edges, cell);
    assert forall d :: d in Get(dependencies, cell) <==> d in Elements(Get(dependencies, cell));
  }

  /** What no stage took, each with what it waits for. */
  method Block(ghost edges: seq<Edge>, ghost roots: set<string>, affected: seq<string>, dependencies: Index,
               ghost stages: seq<seq<string>>, scheduled: set<string>, available: set<string>)
    returns (blockers: seq<Blocker>)
    requires Ascending(affected) && Indexes(dependencies, edges)
    requires scheduled == Scheduled(stages) && available == roots + scheduled
    ensures forall b :: b in blockers ==> Blocks(edges, roots, stages, b)
    ensures Ascending(CellIds(blockers))
    ensures forall c :: c in CellIds(blockers) <==> c in affected && c !in Scheduled(stages)
  {
    hide Scheduled, Indexes, Blocks, Ascending;
    var rest := Filter(c => c !in scheduled, affected);
    FilterAscends(c => c !in scheduled, affected);
    blockers := [];
    for i := 0 to |rest|
      invariant |blockers| == i && CellIds(blockers) == rest[..i]
      invariant forall b :: b in blockers ==> Blocks(edges, roots, stages, b)
    {
      var providers := UniqueSorted(Get(dependencies, rest[i]));
      var waiting := Filter(p => p !in available, providers);
      FilterAscends(p => p !in available, providers);
      assert forall p :: p in providers <==> p in Elements(providers);
      assert forall p :: p in Get(dependencies, rest[i]) <==> p in Elements(Get(dependencies, rest[i]));
      BlockedList(dependencies, edges, roots, stages, waiting, rest[i]);
      blockers := blockers + [Blocker(rest[i], waiting)];
    }
    assert CellIds(blockers) == rest;
  }

  /** The first unknown cell of an ascending listing of `ids`. */
  ghost predicate LeastUnknown(cells: seq<string>, ids: seq<string>, id: string) {
    id in ids && id !in cells && forall other :: other in ids && other !in cells ==> other == id || Before(id, other)
  }

  ghost predicate Known(cells: seq<string>, ids: seq<string>) {
    forall id :: id in ids ==> id in cells
  }

  method CheckKnown(cells: seq<string>, ids: seq<string>, ghost given: seq<string>) returns (ok: bool, unknown: string)
    requires Ascending(ids) && Elements(ids) == Elements(given)
    ensures ok <==> Known(cells, given)
    ensures !ok ==> LeastUnknown(cells, given, unknown)
  {
    assert forall x :: x in ids <==> x in Elements(ids);
    assert forall x :: x in given <==> x in Elements(given);
    for i := 0 to |ids|
      invariant forall k :: 0 <= k < i ==> ids[k] in cells
    {
      if ids[i] !in cells {
        return false, ids[i];
      }
    }
    return true, "";
  }

  /** analyzeCellImpact: an error names the first unknown cell, changed cells before completed ones. */
  method AnalyzeCellImpact(cells: seq<string>, edges: seq<Edge>, changed: seq<string>,
      completed: seq<string>) returns (o: Outcome)
    ensures o.Analysed? <==> Known(cells, changed) && Known(cells, completed)
    ensures o.UnknownCell? ==> LeastUnknown(cells, if Known(cells, changed) then completed else changed, o.cellId)
    ensures o.Analysed? ==>
              && Ascending(o.analysis.changedCells) && Elements(o.analysis.changedCells) == Elements(changed)
              && IsImpact(edges, Elements(changed) + Elements(completed), o.analysis)
  {
    hide Ascending, Known, LeastUnknown, Staged, Exhausted, Reachable, Blocks, CellIds;
    var changedCells := UniqueSorted(changed);
    var completedCells := UniqueSorted(completed);
    var ok, unknown := CheckKnown(cells, changedCells, changed);
    if !ok {
      return UnknownCell(unknown);
    }
    ok, unknown := CheckKnown(cells, completedCells, completed);
    if !ok {
      return UnknownCell(unknown);
    }
    var starts := changedCells + completedCells;
    var roots := set x | x in starts;
    assert Elements(starts) == Elements(changedCells) + Elements(completedCells);
    var affected := ReachableCells(edges, starts);
    var dependencies := DependenciesByConsumer(edges);
    assert Indexes(dependencies, edges);
    var stages, scheduled, available := Schedule(edges, roots, affected, dependencies);
    var blockers := Block(edges, roots, affected, dependencies, stages, scheduled, available);
    o := Analysed(Analysis(changedCells, affected, stages, blockers));
  }

  // ---- what the stages are -------------------------------------------------------------------

  lemma {:induction false} ScheduledIn(stages: seq<seq<string>>, cell: string) returns (i: nat)
    requires cell in Scheduled(stages)
    ensures i < |stages| && cell in stages[i]
  {
    var last := |stages| - 1;
    if cell in stages[last] {
      i := last;
    } else {
      i := ScheduledIn(stages[..last], cell);
    }
  }

  lemma {:induction false} ScheduledFrom(stages: seq<seq<string>>, i: nat, cell: string)
    requires i < |stages| && cell in stages[i]
    ensures cell in Scheduled(stages)
  {
    if i < |stages| - 1 {
      ScheduledFrom(stages[..|stages| - 1], i, cell);
    }
  }

  lemma {:induction false} ScheduledGrows(stages: seq<seq<string>>, i: nat)
    requires i <= |stages|
    ensures Scheduled(stages[..i]) <= Scheduled(stages)
  {
    if i < |stages| {
      var shorter := stages[..|stages| - 1];
      ScheduledGrows(shorter, i);
      assert shorter[..i] == stages[..i];
    } else {
      assert stages[..i] == stages;
    }
  }

  /** A rival schedule: its cells consume something, are no roots, and every provider is a root or runs before. */
  ghost predicate ValidSchedule(edges: seq<Edge>, roots: set<string>, rival: seq<seq<string>>) {
    forall j, c :: 0 <= j < |rival| && c in rival[j] ==>
      c !in roots && Providers(edges, c) != {} && CanRun(edges, roots, rival[..j], c)
  }

  /** The analysis itself is one. */
  lemma StagesAreValid(edges: seq<Edge>, roots: set<string>, a: Analysis)
    requires IsImpact(edges, roots, a)
    ensures ValidSchedule(edges, roots, a.stages)
  {
    hide CanRun, Scheduled, Ascending;
    forall j, c | 0 <= j < |a.stages| && c in a.stages[j]
      ensures c !in roots && Providers(edges, c) != {}
    {
      assert Reachable(edges, roots, c);
      AffectedConsumes(edges, roots, c);
    }
  }

  lemma AffectedConsumes(edges: seq<Edge>, roots: set<string>, cell: string)
    requires Reachable(edges, roots, cell) && cell !in roots
    ensures Providers(edges, cell) != {}
  {
    var path :| PathFrom(edges, roots, path, cell);
    assert |path| > 1;
    assert Edge(path[|path| - 2], cell) in edges;
    assert Edge(path[|path| - 2], cell).provider in Providers(edges, cell);
  }

  /** Whatever any valid schedule runs, the analysis runs, and in no later a stage. */
  lemma {:induction false} StagesAreEarliest(edges: seq<Edge>, roots: set<string>, a: Analysis,
      rival: seq<seq<string>>, j: nat, cell: string)
    returns (i: nat)
    requires IsImpact(edges, roots, a) && ValidSchedule(edges, roots, rival)
    requires j < |rival| && cell in rival[j]
    ensures i <= j && i < |a.stages| && cell in a.stages[i]
    decreases j
  {
    hide Ascending, Blocks, CellIds, Reachable;
    var within := if j < |a.stages| then j else |a.stages|;
    forall p | p in Providers(edges, cell)
      ensures p in roots || (p in Scheduled(a.stages[..within]) && Reachable(edges, roots, p))
    {
      if p !in roots {
        var k := ScheduledIn(rival[..j], p);
        var l := StagesAreEarliest(edges, roots, a, rival, k, p);
        ScheduledFrom(a.stages[..within], l, p);
        assert p in a.affectedCells;
      }
    }
    RivalIsAffected(edges, roots, cell);
    assert CanRun(edges, roots, a.stages[..within], cell);
    if cell in Scheduled(a.stages[..within]) {
      i := ScheduledIn(a.stages[..within], cell);
    } else {
      assert a.stages[..|a.stages|] == a.stages;
      assert within == j && cell in a.affectedCells;
      i := j;
    }
  }

  lemma RivalIsAffected(edges: seq<Edge>, roots: set<string>, cell: string)
    requires Providers(edges, cell) != {}
    requires forall p :: p in Providers(edges, cell) ==> p in roots || Reachable(edges, roots, p)
    ensures Reachable(edges, roots, cell)
  {
    var p :| p in Providers(edges, cell);
    assert Edge(p, cell) in edges;
    if p in roots {
      ReachableRoot(edges, roots, p);
    }
    ReachableNext(edges, roots, p, cell);
  }

  /** No blocker waits for nothing, and a cell is scheduled or blocked, never both. */
  lemma BlockersWait(edges: seq<Edge>, roots: set<string>, a: Analysis, b: Blocker)
    requires IsImpact(edges, roots, a) && b in a.blockers
    ensures b.waitingOn != [] && b.cellId in a.affectedCells && b.cellId !in Scheduled(a.stages)
  {
    hide Ascending, Scheduled, Staged, Reachable;
    var i :| 0 <= i < |a.blockers| && a.blockers[i] == b;
    assert CellIds(a.blockers)[i] == b.cellId;
    NoElements(b.waitingOn);
    assert b.cellId in CellIds(a.blockers);
    assert !CanRun(edges, roots, a.stages, b.cellId);
    var p :| p in Providers(edges, b.cellId) && p !in roots + Scheduled(a.stages);
    assert p in Elements(b.waitingOn);
  }

  /** A numbering under which every affected cell has all its providers among roots and lower affected cells. */
  ghost predicate Layered(edges: seq<Edge>, roots: set<string>, affected: seq<string>, level: string -> nat) {
    forall c, p :: c in affected && p in Providers(edges, c) ==> p in roots || (p in affected && level(p) < level(c))
  }

  lemma {:induction false} LayeredIsScheduled(edges: seq<Edge>, roots: set<string>, a: Analysis, level: string -> nat,
      cell: string)
    requires IsImpact(edges, roots, a) && Layered(edges, roots, a.affectedCells, level) && cell in a.affectedCells
    ensures cell in Scheduled(a.stages)
    decreases level(cell)
  {
    hide Ascending, Blocks, CellIds, Reachable, Staged, Scheduled;
    forall p | p in Providers(edges, cell)
      ensures p in roots + Scheduled(a.stages)
    {
      if p !in roots {
        LayeredIsScheduled(edges, roots, a, level, p);
      }
    }
    assert CanRun(edges, roots, a.stages, cell);
  }

  ghost function StageOf(stages: seq<seq<string>>, cell: string): nat {
    if stages == [] || cell in stages[|stages| - 1] then |stages| else StageOf(stages[..|stages| - 1], cell)
  }

  /** Nothing is blocked exactly when the affected cells hang together without a cycle and without a provider
      outside; a blocker is always the sign of one of the two. */
  lemma NothingBlockedIffLayered(edges: seq<Edge>, roots: set<string>, a: Analysis)
    requires IsImpact(edges, roots, a)
    ensures a.blockers == [] <==> exists level :: Layered(edges, roots, a.affectedCells, level)
  {
    hide Ascending, Blocks, Reachable;
    if level :| Layered(edges, roots, a.affectedCells, level) {
      if a.blockers != [] {
        BlockersWait(edges, roots, a, a.blockers[0]);
        LayeredIsScheduled(edges, roots, a, level, a.blockers[0].cellId);
      }
    }
    if a.blockers == [] {
      var level := (c: string) => StageOf(a.stages, c);
      forall c, p | c in a.affectedCells && p in Providers(edges, c) && p !in roots
        ensures p in a.affectedCells && level(p) < level(c)
      {
        StageBelow(edges, roots, a, c, p);
      }
      assert Layered(edges, roots, a.affectedCells, level);
    }
  }

  lemma StageBelow(edges: seq<Edge>, roots: set<string>, a: Analysis, c: string, p: string)
    requires IsImpact(edges, roots, a) && a.blockers == []
    requires c in a.affectedCells && p in Providers(edges, c) && p !in roots
    ensures p in a.affectedCells && StageOf(a.stages, p) < StageOf(a.stages, c)
  {
    hide Ascending, Blocks, Reachable;
    assert c !in CellIds(a.blockers);
    var i := ScheduledIn(a.stages, c);
    var j := ScheduledIn(a.stages[..i], p);
    OnlyStage(edges, roots, a, i, c, |a.stages|);
    OnlyStage(edges, roots, a, j, p, |a.stages|);
    assert a.stages[..|a.stages|] == a.stages;
  }

  lemma {:induction false} OnlyStage(edges: seq<Edge>, roots: set<string>, a: Analysis, i: nat, c: string, n: nat)
    requires Staged(edges, roots, a.affectedCells, a.stages) && i < n <= |a.stages| && c in a.stages[i]
    ensures StageOf(a.stages[..n], c) == i + 1
  {
    hide Ascending, CanRun;
    if n > i + 1 {
      ScheduledFrom(a.stages[..n - 1], i, c);
      assert c !in a.stages[n - 1];
      OnlyStage(edges, roots, a, i, c, n - 1);
      assert a.stages[..n][..n - 1] == a.stages[..n - 1];
    }
  }
}
