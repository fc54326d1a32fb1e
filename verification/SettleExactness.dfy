/** Incremental settling reaches the fixpoint for every evaluator and every change exactly when no derivation
    can be overtaken (kernel/src/derivations.ts:86-114): an overtaken one is left with a stale value. */
module SettleExactness {
  import opened Json
  import opened Paths
  import opened Derivations
  import opened Settlement
  import opened SettleTheorems

  // ---- a value with something at every path ------------------------------------------------------

  function Deep(keys: set<string>, depth: nat): Json {
    if depth == 0 then Obj(map[]) else Obj(map k | k in keys :: Deep(keys, depth - 1))
  }

  /** Reading any dependency's remaining segments in the value finds something. */
  ghost predicate Full(value: Json, keys: set<string>, depth: nat) {
    forall parts: seq<string> :: |parts| <= depth && (forall s :: s in parts ==> s in keys)
        ==> GetParts(value, parts) != Null
  }

  lemma {:induction false} DeepFound(keys: set<string>, depth: nat, parts: seq<string>)
    requires |parts| <= depth && forall s :: s in parts ==> s in keys
    ensures GetParts(Deep(keys, depth), parts) != Null
  {
    if parts != [] {
      assert parts[0] in parts && forall s :: s in parts[1..] ==> s in parts;
      DeepFound(keys, depth - 1, parts[1..]);
    }
  }

  lemma DeepIsFull(keys: set<string>, depth: nat)
    ensures Full(Deep(keys, depth), keys, depth)
  {
    forall parts: seq<string> | |parts| <= depth && forall s :: s in parts ==> s in keys
      ensures GetParts(Deep(keys, depth), parts) != Null
    {
      DeepFound(keys, depth, parts);
    }
  }

  /** A key no dotted path can name. */
  const MARK := "."

  /** The same with `note` under the mark: what is read by path stays as it was. */
  function Noted(value: Json, note: Json): Json
    requires value.Obj?
  {
    Obj(value.fields[MARK := note])
  }

  lemma NotedIsFull(value: Json, note: Json, keys: set<string>, depth: nat)
    requires value.Obj? && Full(value, keys, depth) && MARK !in keys
    ensures Full(Noted(value, note), keys, depth)
  {
    forall parts: seq<string> | |parts| <= depth && forall s :: s in parts ==> s in keys
      ensures GetParts(Noted(value, note), parts) != Null
    {
      if parts != [] {
        assert parts[0] in parts;
        assert GetParts(value, parts) != Null;
      }
    }
  }

  lemma {:induction false} SegmentsHaveNoDot(path: string)
    ensures forall s :: s in Split(path) ==> '.' !in s
  {
    if path != "" {
      SegmentsHaveNoDot(path[1..]);
    }
  }

  // ---- the segments of all dependencies ------------------------------------------------------------

  function SetOf(parts: seq<string>): set<string> {
    set s | s in parts
  }

  function Segments(paths: seq<string>): set<string> {
    if paths == [] then {} else Segments(paths[..|paths| - 1]) + SetOf(Split(paths[|paths| - 1]))
  }

  function Longest(paths: seq<string>): nat {
    if paths == [] then 0
    else
      var rest, last := Longest(paths[..|paths| - 1]), |Split(paths[|paths| - 1])|;
      if rest < last then last else rest
  }

  lemma {:induction false} SegmentsCover(paths: seq<string>, path: string)
    requires path in paths
    ensures |Split(path)| <= Longest(paths) && forall s :: s in Split(path) ==> s in Segments(paths)
  {
    if path != paths[|paths| - 1] {
      SegmentsCover(paths[..|paths| - 1], path);
    }
  }

  lemma {:induction false} MarkIsNoSegment(paths: seq<string>)
    ensures MARK !in Segments(paths)
  {
    if paths != [] {
      MarkIsNoSegment(paths[..|paths| - 1]);
      SegmentsHaveNoDot(paths[|paths| - 1]);
      assert '.' in MARK;
    }
  }

  // ---- the scene ---------------------------------------------------------------------------------------

  /** The producer overtakes the victim when exactly the movers, and the victim, change. */
  datatype Scene = Scene(ds: seq<Derivation>, changed: seq<string>, movers: set<string>, producer: Derivation,
      victim: Derivation)

  ghost predicate DistinctExpressions(ds: seq<Derivation>) {
    forall i, j :: 0 <= i < j < |ds| ==> ds[i].expression != ds[j].expression
  }

  ghost predicate Staged(x: Scene) {
    && Topological(x.ds) && UniqueIds(x.ds) && DisjointTargets(x.ds) && DistinctExpressions(x.ds)
    && NoTargetChanged(x.ds, x.changed)
    && x.producer in x.ds && x.victim in x.ds && Feeds(x.producer, x.victim)
    && x.producer.id in x.movers && x.victim.id in x.movers && x.producer != x.victim
  }

  function Value(x: Scene): Json {
    Deep(Segments(AllDependencies(x.ds)), Longest(AllDependencies(x.ds)))
  }

  lemma ValueIsObject(x: Scene)
    ensures Value(x).Obj?
  {
  }

  /** What the victim's value remembers of the store it was computed on. */
  function DependencyValues(d: Derivation, store: Fields): (r: seq<Json>)
    ensures |r| == |d.dependencies|
    ensures forall i :: 0 <= i < |r| ==> r[i] == GetPath(store, d.dependencies[i])
  {
    seq(|d.dependencies|, i requires 0 <= i < |d.dependencies| => GetPath(store, d.dependencies[i]))
  }

  predicate AllNull(d: Derivation, store: Fields) {
    forall i :: 0 <= i < |d.dependencies| ==> GetPath(store, d.dependencies[i]) == Null
  }

  function EvaluateIn(x: Scene, d: Derivation, store: Fields): Json {
    if AllNull(d, store) || d.id !in x.movers then Null
    else if d == x.victim then Noted(Value(x), Arr(DependencyValues(d, store)))
    else Value(x)
  }

  function Owner(ds: seq<Derivation>, expression: string): Option<Derivation> {
    if ds == [] then None
    else if ds[0].expression == expression then Some(ds[0])
    else Owner(ds[1..], expression)
  }

  lemma {:induction false} OwnerIs(ds: seq<Derivation>, d: Derivation)
    requires DistinctExpressions(ds) && d in ds
    ensures Owner(ds, d.expression) == Some(d)
  {
    var i :| 0 <= i < |ds| && ds[i] == d;
    if i > 0 {
      assert forall k :: 0 <= k < |ds[1..]| ==> ds[1..][k] == ds[k + 1];
      assert ds[1..][i - 1] == d;
      OwnerIs(ds[1..], d);
    }
  }

  function EvaluatorOf(x: Scene): Evaluator {
    (expression, store) =>
      var owner := Owner(x.ds, expression);
      if owner.None? then Null else EvaluateIn(x, owner.value, store)
  }

  lemma EvaluatorIs(x: Scene, d: Derivation, store: Fields)
    requires DistinctExpressions(x.ds) && d in x.ds
    ensures EvaluatorOf(x)(d.expression, store) == EvaluateIn(x, d, store)
  {
    OwnerIs(x.ds, d);
  }

  lemma ReadsWhatItDeclares(x: Scene, d: Derivation)
    requires DistinctExpressions(x.ds) && d in x.ds
    ensures ReadsDeclared(EvaluatorOf(x), d)
  {
    forall s, t | forall i ::
        0 <= i < |d.dependencies|
        ==> GetPath(s, d.dependencies[i]) == GetPath(t, d.dependencies[i])
      ensures EvaluatorOf(x)(d.expression, s) == EvaluatorOf(x)(d.expression, t)
    {
      EvaluatorIs(x, d, s);
      EvaluatorIs(x, d, t);
      assert DependencyValues(d, s) == DependencyValues(d, t);
    }
  }

  // ---- lit dependencies ------------------------------------------------------------------------------------

  ghost predicate IsDependency(ds: seq<Derivation>, path: string) {
    path in AllDependencies(ds)
  }

  ghost predicate FullFor(ds: seq<Derivation>, value: Json) {
    Full(value, Segments(AllDependencies(ds)), Longest(AllDependencies(ds)))
  }

  lemma EvaluatedIsFull(x: Scene, d: Derivation, store: Fields)
    requires EvaluateIn(x, d, store) != Null
    ensures FullFor(x.ds, EvaluateIn(x, d, store))
  {
    var keys, depth := Segments(AllDependencies(x.ds)), Longest(AllDependencies(x.ds));
    DeepIsFull(keys, depth);
    MarkIsNoSegment(AllDependencies(x.ds));
    NotedIsFull(Value(x), Arr(DependencyValues(d, store)), keys, depth);
  }

  /** A full value below, at or above a dependency lights it, and puts no other dependency out. */
  lemma WriteLights(ds: seq<Derivation>, store: Fields, path: string, value: Json, dependency: string)
    requires FullFor(ds, value) && IsDependency(ds, dependency)
    ensures PathsOverlap(dependency, path) || GetPath(store, dependency) != Null
        ==> GetPath(SetPath(store, path, value), dependency) != Null
  {
    hide Segments, Longest, AllDependencies, PathsOverlap, Split, GetParts, SetParts;
    var p, q := Split(path), Split(dependency);
    OverlapIsPrefix(dependency, path);
    if q < p {
      GetAboveSet(store, p, value, q);
    } else {
      GetAfterSet(store, p, value, q);
      if p <= q {
        SegmentsCover(AllDependencies(ds), dependency);
        assert forall s :: s in q[|p|..] ==> s in q;
      }
    }
  }

  ghost predicate LitBy(ds: seq<Derivation>, store: Fields, path: string) {
    forall dependency :: IsDependency(ds, dependency) && PathsOverlap(dependency, path)
        ==> GetPath(store, dependency) != Null
  }

  lemma WriteKeepsLit(ds: seq<Derivation>, store: Fields, path: string, value: Json, other: string)
    requires FullFor(ds, value) && (LitBy(ds, store, other) || other == path)
    ensures LitBy(ds, SetPath(store, path, value), other)
  {
    forall dependency | IsDependency(ds, dependency) && PathsOverlap(dependency, other)
      ensures GetPath(SetPath(store, path, value), dependency) != Null
    {
      WriteLights(ds, store, path, value, dependency);
    }
  }

  lemma {:induction false} DependencyListed(ds: seq<Derivation>, d: Derivation, i: nat)
    requires d in ds && i < |d.dependencies|
    ensures IsDependency(ds, d.dependencies[i])
  {
    if d != ds[|ds| - 1] {
      DependencyListed(ds[..|ds| - 1], d, i);
    }
  }

  /** A touched derivation whose touching path is lit computes something, if it moves at all. */
  lemma TouchedComputes(x: Scene, d: Derivation, store: Fields, paths: seq<string>)
    requires d in x.ds && Touched(d, paths) && forall path :: path in paths ==> LitBy(x.ds, store, path)
    ensures EvaluateIn(x, d, store) != Null <==> d.id in x.movers
  {
    var i, j :| 0 <= i < |d.dependencies| && 0 <= j < |paths| && PathsOverlap(d.dependencies[i], paths[j]);
    DependencyListed(x.ds, d, i);
    assert LitBy(x.ds, store, paths[j]);
  }

  // ---- what the run keeps --------------------------------------------------------------------------------------

  ghost predicate ByMover(x: Scene, evaluated: seq<string>, path: string) {
    exists e :: e in x.ds && path == e.target && e.id in x.movers && e.id in evaluated
  }

  ghost predicate OpsByMovers(x: Scene, g: Progress) {
    forall j :: 0 <= j < |g.operations| ==> ByMover(x, g.evaluated, g.operations[j].path)
  }

  lemma ByMoverLater(x: Scene, evaluated: seq<string>, id: string, path: string)
    requires ByMover(x, evaluated, path)
    ensures ByMover(x, evaluated + [id], path)
  {
    var e :| e in x.ds && path == e.target && e.id in x.movers && e.id in evaluated;
    assert e.id in evaluated + [id];
  }

  /** A derivation not yet evaluated still reads null at its target. */
  ghost predicate FreshNull(x: Scene, g: Progress) {
    forall e :: e in x.ds && e.id !in g.evaluated ==> GetPath(g.store, e.target) == Null
  }

  ghost predicate AllLit(x: Scene, g: Progress) {
    && (forall path :: path in x.changed ==> LitBy(x.ds, g.store, path))
    && (forall j :: 0 <= j < |g.operations| ==> LitBy(x.ds, g.store, g.operations[j].path))
  }

  ghost predicate MoversWrote(x: Scene, g: Progress) {
    forall e :: e in x.ds && e.id in g.evaluated && e.id in x.movers ==>
      Wrote(e, g.operations) && FullFor(x.ds, GetPath(g.store, e.target))
  }

  /** The victim holds what it computed on a store the producer had not written to. */
  ghost predicate Stale(x: Scene, store: Fields) {
    exists s :: GetPath(s, x.producer.target) == Null && !AllNull(x.victim, s)
                && GetPath(store, x.victim.target) == EvaluateIn(x, x.victim, s)
  }

  ghost predicate Good(x: Scene, g: Progress) {
    && OpsByMovers(x, g) && FreshNull(x, g) && AllLit(x, g) && MoversWrote(x, g)
    && (x.victim.id in g.evaluated ==> Stale(x, g.store))
    && (x.producer.id in g.evaluated ==> x.victim.id in g.evaluated)
  }

  ghost predicate Listed(x: Scene, paths: seq<string>, operations: seq<PatchOp>) {
    forall path :: path in paths ==> path in x.changed || exists j ::
        0 <= j < |operations| && operations[j].path == path
  }

  function Moved(x: Scene, e: Derivation, g: Progress): Progress {
    var value := EvaluateIn(x, e, g.store);
    Progress(SetPath(g.store, e.target, value), g.pending + [e.target], g.operations + [SetOp(e.target, value)],
        g.evaluated + [e.id])
  }

  /** A due derivation writes if and only if it is a mover, and what it writes is full. */
  lemma EvaluationWrites(x: Scene, e: Derivation, g: Progress, paths: seq<string>)
    requires Staged(x) && Good(x, g) && e in x.ds && Due(e, paths, g) && Listed(x, paths, g.operations)
    ensures e.id in x.movers ==> Evaluate(EvaluatorOf(x), e, g) == Moved(x, e, g) && !AllNull(e, g.store)
                                 && FullFor(x.ds, EvaluateIn(x, e, g.store))
    ensures e.id !in x.movers ==> Evaluate(EvaluatorOf(x), e, g) == g.(evaluated := g.evaluated + [e.id])
  {
    hide Topological, UniqueIds, DisjointTargets, DistinctExpressions, NoTargetChanged, Feeds, OpsByMovers,
        MoversWrote, Stale, LitBy, FullFor, Touched;
    EvaluatorIs(x, e, g.store);
    forall path | path in paths
      ensures LitBy(x.ds, g.store, path)
    {
    }
    TouchedComputes(x, e, g.store, paths);
    if e.id in x.movers {
      EvaluatedIsFull(x, e, g.store);
    }
  }

  lemma OtherTargetsStay(x: Scene, e: Derivation, g: Progress, other: Derivation)
    requires Staged(x) && e in x.ds && other in x.ds && e != other
    ensures GetPath(Moved(x, e, g).store, other.target) == GetPath(g.store, other.target)
  {
    if PathsOverlap(e.target, other.target) {
      DistinctTargets(x.ds, e, other);
    }
    OpFrame(g.store, SetOp(e.target, EvaluateIn(x, e, g.store)), other.target);
  }

  lemma MovedLit(x: Scene, e: Derivation, g: Progress)
    requires AllLit(x, g) && FullFor(x.ds, EvaluateIn(x, e, g.store))
    ensures AllLit(x, Moved(x, e, g))
  {
    hide LitBy, FullFor, EvaluateIn;
    var value, g' := EvaluateIn(x, e, g.store), Moved(x, e, g);
    forall path | path in x.changed
      ensures LitBy(x.ds, g'.store, path)
    {
      WriteKeepsLit(x.ds, g.store, e.target, value, path);
    }
    forall j | 0 <= j < |g'.operations|
      ensures LitBy(x.ds, g'.store, g'.operations[j].path)
    {
      WriteKeepsLit(x.ds, g.store, e.target, value, g'.operations[j].path);
    }
  }

  lemma WroteStays(e: Derivation, operations: seq<PatchOp>, operation: PatchOp)
    ensures Wrote(e, operations) || operation.path == e.target ==> Wrote(e, operations + [operation])
  {
    if Wrote(e, operations) {
      var i :| 0 <= i < |operations| && operations[i].path == e.target;
      assert (operations + [operation])[i].path == e.target;
    } else if operation.path == e.target {
      assert (operations + [operation])[|operations|].path == e.target;
    }
  }

  lemma MovedWrote(x: Scene, e: Derivation, g: Progress)
    requires Staged(x) && e in x.ds && MoversWrote(x, g) && FullFor(x.ds, EvaluateIn(x, e, g.store))
    ensures MoversWrote(x, Moved(x, e, g))
  {
    hide Wrote, FullFor, EvaluateIn, Topological, DisjointTargets, DistinctExpressions, NoTargetChanged, Feeds;
    var value, g' := EvaluateIn(x, e, g.store), Moved(x, e, g);
    forall other | other in x.ds && other.id in g'.evaluated && other.id in x.movers
      ensures Wrote(other, g'.operations) && FullFor(x.ds, GetPath(g'.store, other.target))
    {
      WroteStays(other, g.operations, SetOp(e.target, value));
      if other == e {
        SetPathGet(g.store, e.target, value);
      } else {
        if other.id == e.id {
          SameId(x.ds, other, e);
        }
        OtherTargetsStay(x, e, g, other);
      }
    }
  }

  lemma MovedFresh(x: Scene, e: Derivation, g: Progress)
    requires Staged(x) && e in x.ds && FreshNull(x, g) && OpsByMovers(x, g) && e.id in x.movers
    ensures FreshNull(x, Moved(x, e, g)) && OpsByMovers(x, Moved(x, e, g))
  {
    hide EvaluateIn, Topological, DisjointTargets, DistinctExpressions, NoTargetChanged, Feeds;
    var g' := Moved(x, e, g);
    forall other | other in x.ds && other.id !in g'.evaluated
      ensures GetPath(g'.store, other.target) == Null
    {
      assert other != e;
      OtherTargetsStay(x, e, g, other);
    }
    forall j | 0 <= j < |g'.operations|
      ensures ByMover(x, g'.evaluated, g'.operations[j].path)
    {
      if j < |g.operations| {
        ByMoverLater(x, g.evaluated, e.id, g.operations[j].path);
      } else {
        assert g'.operations[j].path == e.target && e.id in g'.evaluated;
      }
    }
  }

  lemma MovedStale(x: Scene, e: Derivation, g: Progress)
    requires Staged(x) && Good(x, g) && e in x.ds && e.id !in g.evaluated && !AllNull(e, g.store)
    requires e == x.producer ==> x.victim.id in g.evaluated
    ensures x.victim.id in Moved(x, e, g).evaluated ==> Stale(x, Moved(x, e, g).store)
  {
    hide EvaluateIn, Topological, DisjointTargets, DistinctExpressions, NoTargetChanged, Feeds, OpsByMovers, AllLit,
        MoversWrote;
    var g' := Moved(x, e, g);
    if e == x.victim {
      SetPathGet(g.store, e.target, EvaluateIn(x, e, g.store));
      assert GetPath(g.store, x.producer.target) == Null;
    } else if x.victim.id in g'.evaluated {
      if e.id == x.victim.id {
        SameId(x.ds, e, x.victim);
      }
      OtherTargetsStay(x, e, g, x.victim);
    }
  }

  lemma EvaluationKeepsGood(x: Scene, e: Derivation, g: Progress, paths: seq<string>)
    requires Staged(x) && Good(x, g) && e in x.ds && Due(e, paths, g) && Listed(x, paths, g.operations)
    requires e == x.producer ==> x.victim.id in g.evaluated
    ensures Good(x, Evaluate(EvaluatorOf(x), e, g)) && Listed(x, paths, Evaluate(EvaluatorOf(x), e, g).operations)
  {
    hide OpsByMovers, FreshNull, AllLit, MoversWrote, Stale, Staged, FullFor, Evaluate, Due, EvaluateIn, AllNull;
    EvaluationWrites(x, e, g, paths);
    var g' := Evaluate(EvaluatorOf(x), e, g);
    if e.id in x.movers {
      MovedFresh(x, e, g);
      MovedLit(x, e, g);
      MovedWrote(x, e, g);
      DueIsNew(e, paths, g);
      MovedStale(x, e, g);
      ProducerBehind(x, e, g);
      assert forall j :: 0 <= j < |g.operations| ==> g'.operations[j] == g.operations[j];
    } else {
      IdleKeepsGood(x, e, g);
    }
  }

  lemma DueIsNew(e: Derivation, paths: seq<string>, g: Progress)
    requires Due(e, paths, g)
    ensures e.id !in g.evaluated
  {
  }

  lemma ProducerBehind(x: Scene, e: Derivation, g: Progress)
    requires Staged(x) && e in x.ds && (e == x.producer ==> x.victim.id in g.evaluated)
    requires x.producer.id in g.evaluated ==> x.victim.id in g.evaluated
    ensures x.producer.id in g.evaluated + [e.id] ==> x.victim.id in g.evaluated + [e.id]
  {
    if e.id == x.producer.id {
      SameId(x.ds, e, x.producer);
    }
  }

  lemma IdleKeepsGood(x: Scene, e: Derivation, g: Progress)
    requires Staged(x) && Good(x, g) && e in x.ds && e.id !in x.movers
    ensures Good(x, g.(evaluated := g.evaluated + [e.id]))
  {
    hide FullFor, Wrote, LitBy, Stale;
    var g' := g.(evaluated := g.evaluated + [e.id]);
    assert forall id :: id in g'.evaluated <==> id in g.evaluated || id == e.id;
    forall j | 0 <= j < |g.operations|
      ensures ByMover(x, g'.evaluated, g'.operations[j].path)
    {
      ByMoverLater(x, g.evaluated, e.id, g.operations[j].path);
    }
  }

  /** A pass keeps it all, provided the producer is not due before the victim was evaluated. */
  lemma {:induction false} PassKeepsGood(x: Scene, k: nat, paths: seq<string>, p: Progress)
    requires Staged(x) && Good(x, p) && Listed(x, paths, p.operations) && k <= |x.ds|
    requires Due(x.producer, paths, p) ==> x.victim.id in p.evaluated
    ensures var g := Pass(EvaluatorOf(x), x.ds[..k], paths, p); Good(x, g) && Listed(x, paths, g.operations)
  {
    hide Good, Staged, Listed, Evaluate;
    if k > 0 {
      PassKeepsGood(x, k - 1, paths, p);
      assert x.ds[..k][..k - 1] == x.ds[..k - 1];
      var g, e := Pass(EvaluatorOf(x), x.ds[..k - 1], paths, p), x.ds[k - 1];
      PassGrows(EvaluatorOf(x), x.ds[..k - 1], paths, p);
      if Due(e, paths, g) {
        assert Due(e, paths, p);
        EvaluationKeepsGood(x, e, g, paths);
      }
    }
  }

  // ---- the rounds ----------------------------------------------------------------------------------------------

  /** So the waves of the movers are the rounds of this run. */
  lemma MoversAgree(x: Scene, p: Progress)
    requires Staged(x) && Good(x, Pass(EvaluatorOf(x), x.ds, p.pending, p.(pending := [])))
    ensures WritesAgree(EvaluatorOf(x), x.ds, x.movers, p)
  {
    hide FullFor, LitBy, Stale, Pass, FreshNull, AllLit;
    var start := p.(pending := []);
    var p' := Pass(EvaluatorOf(x), x.ds, p.pending, start);
    forall d | d in x.ds && Due(d, p.pending, p)
      ensures d.id in x.movers <==> Wrote(d, p'.operations)
    {
      assert Due(d, p.pending, start);
      PassEvaluates(EvaluatorOf(x), x.ds, p.pending, start, d.id);
      if Wrote(d, p'.operations) {
        var j :| 0 <= j < |p'.operations| && p'.operations[j].path == d.target;
        assert ByMover(x, p'.evaluated, p'.operations[j].path);
        var e :| e in x.ds && p'.operations[j].path == e.target && e.id in x.movers && e.id in p'.evaluated;
        DistinctTargets(x.ds, d, e);
      }
    }
  }

  lemma {:induction false} EarlierHolds(ds: seq<Derivation>, changed: seq<string>, movers: set<string>, at: nat,
      round: nat, id: string)
    requires at < round && id in Wave(ds, changed, movers, at)
    ensures id in Earlier(ds, changed, movers, round)
  {
    if at < round - 1 {
      EarlierHolds(ds, changed, movers, at, round - 1, id);
    }
  }

  /** A derivation is in one wave only. */
  lemma WaveOnce(ds: seq<Derivation>, changed: seq<string>, movers: set<string>, at: nat, round: nat, id: string)
    requires UniqueIds(ds) && id in Wave(ds, changed, movers, at) && id in Wave(ds, changed, movers, round)
    ensures at == round
  {
    if at < round {
      EarlierHolds(ds, changed, movers, at, round, id);
    }
    if round < at {
      EarlierHolds(ds, changed, movers, round, at, id);
    }
  }

  /** Once a round reaches nothing, no later one does. */
  lemma {:induction false} WavesDie(ds: seq<Derivation>, changed: seq<string>, movers: set<string>, round: nat,
      later: nat)
    requires Wave(ds, changed, movers, round) == {} && round <= later
    ensures Wave(ds, changed, movers, later) == {}
    decreases later
  {
    if round < later {
      WavesDie(ds, changed, movers, round, later - 1);
      forall d | d in ds
        ensures !FedBy(d, ds, Wave(ds, changed, movers, later - 1) * movers)
      {
      }
    }
  }

  lemma NothingPendingNothingDue(ds: seq<Derivation>, changed: seq<string>, movers: set<string>, round: nat,
      p: Progress)
    requires UniqueIds(ds) && RoundTrace(ds, changed, movers, round, p) && p.pending == []
    ensures Wave(ds, changed, movers, round) == {}
  {
    forall id | id in Wave(ds, changed, movers, round)
      ensures false
    {
      WaveMembers(ds, changed, movers, round, id);
      var d :| d in ds && d.id == id;
      DueIsWave(ds, changed, movers, round, p, d);
    }
  }

  ghost predicate Overtakes(x: Scene, at: nat, read: nat) {
    && x.producer.id in Wave(x.ds, x.changed, x.movers, at)
    && x.victim.id in Wave(x.ds, x.changed, x.movers, read)
    && read < at
  }

  /** In the run the producer is due only after the victim was evaluated. */
  lemma ProducerComesLate(x: Scene, at: nat, read: nat, round: nat, p: Progress)
    requires Staged(x) && Overtakes(x, at, read) && RoundTrace(x.ds, x.changed, x.movers, round, p)
    ensures Due(x.producer, p.pending, p) ==> x.victim.id in p.evaluated
  {
    DueIsWave(x.ds, x.changed, x.movers, round, p, x.producer);
    if Due(x.producer, p.pending, p) {
      WaveOnce(x.ds, x.changed, x.movers, at, round, x.producer.id);
      EarlierHolds(x.ds, x.changed, x.movers, read, round, x.victim.id);
    }
  }

  lemma RoundKeepsGood(x: Scene, at: nat, read: nat, round: nat, p: Progress)
    requires Staged(x) && Overtakes(x, at, read) && p.pending != []
    requires RoundTrace(x.ds, x.changed, x.movers, round, p) && Good(x, p) && Listed(x, p.pending, p.operations)
    ensures var p' := Pass(EvaluatorOf(x), x.ds, p.pending, p.(pending := []));
            RoundTrace(x.ds, x.changed, x.movers, round + 1, p') && Good(x, p') && Listed(x, p'.pending, p'.operations)
  {
    hide RoundTrace, Overtakes, OpsByMovers, FreshNull, AllLit, MoversWrote, Stale, Pass, WritesAgree;
    var start := p.(pending := []);
    var p' := Pass(EvaluatorOf(x), x.ds, p.pending, start);
    ProducerComesLate(x, at, read, round, p);
    StartIsGood(x, p);
    assert Due(x.producer, p.pending, start) <==> Due(x.producer, p.pending, p);
    PassKeepsGood(x, |x.ds|, p.pending, start);
    assert x.ds[..|x.ds|] == x.ds;
    MoversAgree(x, p);
    RoundKeepsTrace(EvaluatorOf(x), x.ds, x.changed, x.movers, round, p);
    PassWrites(EvaluatorOf(x), x.ds, p.pending, start);
    WrittenAreListed(x, p'.operations, |p.operations|);
  }

  lemma StartIsGood(x: Scene, p: Progress)
    requires Good(x, p)
    ensures Good(x, p.(pending := []))
  {
    hide FullFor, LitBy, Stale, Wrote;
  }

  lemma WrittenAreListed(x: Scene, operations: seq<PatchOp>, from: nat)
    requires from <= |operations|
    ensures Listed(x, Written(operations[from..]), operations)
  {
    forall path | path in Written(operations[from..])
      ensures exists j :: 0 <= j < |operations| && operations[j].path == path
    {
      var i :| 0 <= i < |Written(operations[from..])| && Written(operations[from..])[i] == path;
      assert operations[from + i].path == path;
    }
  }

  lemma EndEvaluatedProducer(x: Scene, at: nat, read: nat, round: nat, p: Progress)
    requires Staged(x) && Overtakes(x, at, read)
    requires RoundTrace(x.ds, x.changed, x.movers, round, p) && p.pending == []
    ensures x.producer.id in p.evaluated
  {
    hide Wave, Earlier, Topological, DisjointTargets, DistinctExpressions, NoTargetChanged, Feeds;
    NothingPendingNothingDue(x.ds, x.changed, x.movers, round, p);
    if round <= at {
      WavesDie(x.ds, x.changed, x.movers, round, at);
    } else {
      EarlierHolds(x.ds, x.changed, x.movers, at, round, x.producer.id);
    }
  }

  lemma {:induction false} RunKeepsGood(x: Scene, at: nat, read: nat, round: nat, p: Progress)
    requires Staged(x) && Overtakes(x, at, read)
    requires RoundTrace(x.ds, x.changed, x.movers, round, p) && Good(x, p) && Listed(x, p.pending, p.operations)
    ensures Good(x, Rounds(EvaluatorOf(x), x.ds, p)) && x.producer.id in Rounds(EvaluatorOf(x), x.ds, p).evaluated
    decreases |Waiting(x.ds, p.evaluated)|, |p.pending|
  {
    hide Good, Listed, Pass, RoundTrace, Overtakes, Staged;
    if p.pending == [] {
      EndEvaluatedProducer(x, at, read, round, p);
    } else {
      RoundKeepsGood(x, at, read, round, p);
      RoundShrinks(EvaluatorOf(x), x.ds, p);
      RunKeepsGood(x, at, read, round + 1, Pass(EvaluatorOf(x), x.ds, p.pending, p.(pending := [])));
    }
  }

  // ---- the change that starts it --------------------------------------------------------------------------------

  /** Full values at all changed paths of an empty store. */
  function Planted(value: Json, changed: seq<string>): Fields {
    if changed == [] then map[] else SetPath(Planted(value, changed[..|changed| - 1]), changed[|changed| - 1], value)
  }

  lemma NothingThere(path: string)
    ensures GetPath(map[], path) == Null
  {
    EmptyChild(Split(path));
  }

  lemma {:induction false} PlantedElsewhere(value: Json, changed: seq<string>, path: string)
    requires forall j :: 0 <= j < |changed| ==> !PathsOverlap(path, changed[j])
    ensures GetPath(Planted(value, changed), path) == Null
  {
    if changed == [] {
      NothingThere(path);
    } else {
      PlantedElsewhere(value, changed[..|changed| - 1], path);
      OverlapSymmetric(path, changed[|changed| - 1]);
      OpFrame(Planted(value, changed[..|changed| - 1]), SetOp(changed[|changed| - 1], value), path);
    }
  }

  lemma OverlapSymmetric(a: string, b: string)
    ensures PathsOverlap(a, b) <==> PathsOverlap(b, a)
  {
  }

  lemma {:induction false} PlantedLit(ds: seq<Derivation>, value: Json, changed: seq<string>, path: string)
    requires FullFor(ds, value) && path in changed
    ensures LitBy(ds, Planted(value, changed), path)
  {
    hide LitBy, FullFor;
    var last := changed[|changed| - 1];
    if path != last {
      PlantedLit(ds, value, changed[..|changed| - 1], path);
    }
    WriteKeepsLit(ds, Planted(value, changed[..|changed| - 1]), last, value, path);
  }

  lemma StartHolds(x: Scene)
    requires Staged(x)
    ensures var p := Progress(Planted(Value(x), x.changed), x.changed, [], []);
            RoundTrace(x.ds, x.changed, x.movers, 0, p) && Good(x, p) && Listed(x, p.pending, p.operations)
  {
    hide FullFor, LitBy, Topological, UniqueIds, DisjointTargets, DistinctExpressions, Value;
    var store := Planted(Value(x), x.changed);
    ValueIsFull(x);
    forall path | path in x.changed
      ensures LitBy(x.ds, store, path)
    {
      PlantedLit(x.ds, Value(x), x.changed, path);
    }
    forall e | e in x.ds
      ensures GetPath(store, e.target) == Null
    {
      PlantedElsewhere(Value(x), x.changed, e.target);
    }
  }

  lemma ValueIsFull(x: Scene)
    ensures FullFor(x.ds, Value(x))
  {
    DeepIsFull(Segments(AllDependencies(x.ds)), Longest(AllDependencies(x.ds)));
  }

  lemma NothingIsFixpoint(x: Scene, d: Derivation)
    requires DistinctExpressions(x.ds) && d in x.ds
    ensures AtFixpoint(EvaluatorOf(x), map[], d)
  {
    EvaluatorIs(x, d, map[]);
    NothingThere(d.target);
    forall i | 0 <= i < |d.dependencies|
      ensures GetPath(map[], d.dependencies[i]) == Null
    {
      NothingThere(d.dependencies[i]);
    }
  }

  // ---- the victim stays behind ------------------------------------------------------------------------------------

  lemma {:induction false} GetTwice(value: Json, a: seq<string>, b: seq<string>)
    ensures GetParts(value, a + b) == GetParts(GetParts(value, a), b)
  {
    if a == [] {
      assert a + b == b;
    } else {
      assert (a + b)[1..] == a[1..] + b && (a + b)[0] == a[0];
      if value.Obj? && a[0] in value.fields {
        GetTwice(value.fields[a[0]], a[1..], b);
      }
    }
  }

  lemma ReadNothing(value: Json)
    ensures GetParts(value, []) == value
  {
  }

  lemma NothingBelowNull(parts: seq<string>)
    ensures GetParts(Null, parts) == Null
  {
  }

  /** A dependency overlapping the target tells a store where the target is null from one where it is full. */
  lemma DependencyTells(ds: seq<Derivation>, s: Fields, t: Fields, target: string, dependency: string)
    requires IsDependency(ds, dependency) && PathsOverlap(dependency, target)
    requires GetPath(s, target) == Null && FullFor(ds, GetPath(t, target))
    ensures GetPath(s, dependency) != GetPath(t, dependency)
  {
    hide Segments, Longest, AllDependencies, PathsOverlap, Split, GetParts;
    var p, q := Split(target), Split(dependency);
    OverlapIsPrefix(dependency, target);
    SegmentsCover(AllDependencies(ds), dependency);
    if p <= q {
      var rest := q[|p|..];
      assert q == p + rest;
      assert forall k :: k in rest ==> k in q;
      GetTwice(Obj(s), p, rest);
      GetTwice(Obj(t), p, rest);
      assert GetParts(GetPath(t, target), rest) != Null;
      NothingBelowNull(rest);
    } else {
      var rest := p[|q|..];
      assert p == q + rest;
      GetTwice(Obj(s), q, rest);
      GetTwice(Obj(t), q, rest);
      var none: seq<string> := [];
      assert GetParts(GetPath(t, target), none) != Null;
      ReadNothing(GetPath(t, target));
    }
  }

  lemma VictimIsStale(x: Scene, g: Progress)
    requires Staged(x) && Good(x, g) && x.producer.id in g.evaluated
    ensures !AtFixpoint(EvaluatorOf(x), g.store, x.victim)
  {
    hide FullFor, LitBy, Wrote, FreshNull, AllLit, OpsByMovers, AllNull, Topological, UniqueIds, DisjointTargets,
        NoTargetChanged;
    var d := x.victim;
    var s :| GetPath(s, x.producer.target) == Null && !AllNull(d, s)
        && GetPath(g.store, d.target) == EvaluateIn(x, d, s);
    EvaluatorIs(x, d, g.store);
    assert FullFor(x.ds, GetPath(g.store, x.producer.target));
    var i :| 0 <= i < |d.dependencies| && PathsOverlap(d.dependencies[i], x.producer.target);
    DependencyListed(x.ds, d, i);
    DependencyTells(x.ds, s, g.store, x.producer.target, d.dependencies[i]);
    assert DependencyValues(d, s)[i] != DependencyValues(d, g.store)[i];
    NotesDiffer(Value(x), Arr(DependencyValues(d, s)), Arr(DependencyValues(d, g.store)));
    ValueIsObject(x);
  }

  lemma NotesDiffer(value: Json, a: Json, b: Json)
    requires value.Obj? && a != b
    ensures Noted(value, a) != Noted(value, b)
  {
    assert Noted(value, a).fields[MARK] == a && Noted(value, b).fields[MARK] == b;
  }

  // ---- exactly then -------------------------------------------------------------------------------------------------

  /** Whether a derivation moves is no matter to the waves of those before it, or to its own. */
  lemma {:induction false} SameWaves(ds: seq<Derivation>, changed: seq<string>, m: set<string>, n: set<string>, v: nat,
      i: nat, round: nat)
    requires Topological(ds) && UniqueIds(ds) && i <= v < |ds| && n == m + {ds[v].id}
    ensures ds[i].id in Wave(ds, changed, m, round) <==> ds[i].id in Wave(ds, changed, n, round)
    ensures ds[i].id in Earlier(ds, changed, m, round) <==> ds[i].id in Earlier(ds, changed, n, round)
    decreases round, 0
  {
    hide Wave, Earlier, Topological, UniqueIds;
    FirstWave(ds, changed, m, n);
    if round > 0 {
      SameWaves(ds, changed, m, n, v, i, round - 1);
      SameFeeders(ds, changed, m, n, v, i, round - 1);
      EarlierOf(ds, changed, m, round);
      EarlierOf(ds, changed, n, round);
      WaveOf(ds, changed, m, round, i);
      WaveOf(ds, changed, n, round, i);
    }
  }

  lemma FirstWave(ds: seq<Derivation>, changed: seq<string>, m: set<string>, n: set<string>)
    ensures Wave(ds, changed, m, 0) == Wave(ds, changed, n, 0)
        && Earlier(ds, changed, m, 0) == Earlier(ds, changed, n, 0)
  {
  }

  lemma EarlierOf(ds: seq<Derivation>, changed: seq<string>, movers: set<string>, round: nat)
    requires round > 0
    ensures Earlier(ds, changed, movers, round) == Earlier(ds, changed, movers, round - 1)
        + Wave(ds, changed, movers, round - 1)
  {
    hide Wave;
  }

  lemma WaveOf(ds: seq<Derivation>, changed: seq<string>, movers: set<string>, round: nat, i: nat)
    requires UniqueIds(ds) && i < |ds| && round > 0
    ensures ds[i].id in Wave(ds, changed, movers, round) <==>
            ds[i].id !in Earlier(ds, changed, movers, round)
                && FedBy(ds[i], ds, Wave(ds, changed, movers, round - 1) * movers)
  {
    hide FedBy, Earlier;
    if ds[i].id in Wave(ds, changed, movers, round) {
      var e :| e in ds && e.id == ds[i].id && e.id !in Earlier(ds, changed, movers, round)
        && FedBy(e, ds, Wave(ds, changed, movers, round - 1) * movers);
      SameId(ds, e, ds[i]);
    }
  }

  lemma {:induction false} SameFeeders(ds: seq<Derivation>, changed: seq<string>, m: set<string>, n: set<string>,
      v: nat, i: nat, round: nat)
    requires Topological(ds) && UniqueIds(ds) && i <= v < |ds| && n == m + {ds[v].id}
    ensures FedBy(ds[i], ds, Wave(ds, changed, m, round) * m) <==> FedBy(ds[i], ds, Wave(ds, changed, n, round) * n)
    decreases round, 1
  {
    hide Wave, Earlier;
    forall p | p in ds && Feeds(p, ds[i])
      ensures p.id in Wave(ds, changed, m, round) * m <==> p.id in Wave(ds, changed, n, round) * n
    {
      var k :| 0 <= k < |ds| && ds[k] == p;
      assert k < i && ds[k].id != ds[v].id;
      SameWaves(ds, changed, m, n, v, k, round);
    }
  }

  /** Overtaken is overtaken also when the victim is among the movers. */
  lemma SceneFor(ds: seq<Derivation>, changed: seq<string>) returns (x: Scene, at: nat, read: nat)
    requires Topological(ds) && UniqueIds(ds) && DisjointTargets(ds) && DistinctExpressions(ds)
        && NoTargetChanged(ds, changed)
    requires !NoOvertaking(ds, changed)
    ensures x.ds == ds && x.changed == changed && Staged(x) && Overtakes(x, at, read)
  {
    hide DisjointTargets, DistinctExpressions, NoTargetChanged, Wave;
    var movers, p, d, a: nat, r: nat :| p in ds && d in ds && Feeds(p, d) && p.id in movers
      && p.id in Wave(ds, changed, movers, a) && d.id in Wave(ds, changed, movers, r) && r < a;
    var v :| 0 <= v < |ds| && ds[v] == d;
    var k :| 0 <= k < |ds| && ds[k] == p;
    x, at, read := Scene(ds, changed, movers + {d.id}, p, d), a, r;
    SameWaves(ds, changed, movers, movers + {d.id}, v, k, a);
    SameWaves(ds, changed, movers, movers + {d.id}, v, v, r);
  }

  /** If one can be overtaken, an evaluator and a change exist that leave it behind: everything was at its
      fixpoint, nothing but the changed paths changed, and settling ends with a stale target. */
  lemma OvertakingLeavesBehind(ds: seq<Derivation>, changed: seq<string>) returns (eval: Evaluator, after: Fields,
      left: Derivation)
    requires Topological(ds) && UniqueIds(ds) && DisjointTargets(ds) && DistinctExpressions(ds)
        && NoTargetChanged(ds, changed)
    requires !NoOvertaking(ds, changed)
    ensures WellFormed(eval, ds) && ChangedOnly(map[], after, changed)
    ensures forall d :: d in ds ==> AtFixpoint(eval, map[], d)
    ensures left in ds && !AtFixpoint(eval, Settle(eval, ds, changed, after).store, left)
  {
    hide NoOvertaking, Good, RoundTrace, Listed, Overtakes, ReadsDeclared, AtFixpoint, Topological, UniqueIds,
        DisjointTargets, DistinctExpressions, NoTargetChanged, Rounds;
    var x, at, read := SceneFor(ds, changed);
    eval, after, left := EvaluatorOf(x), Planted(Value(x), changed), x.victim;
    StartHolds(x);
    RunKeepsGood(x, at, read, 0, Progress(after, changed, [], []));
    VictimIsStale(x, Settle(eval, ds, changed, after));
    forall d | d in ds
      ensures ReadsDeclared(eval, d) && AtFixpoint(eval, map[], d)
    {
      ReadsWhatItDeclares(x, d);
      NothingIsFixpoint(x, d);
    }
    forall path | forall j :: 0 <= j < |changed| ==> !PathsOverlap(path, changed[j])
      ensures GetPath(after, path) == GetPath(map[], path)
    {
      PlantedElsewhere(Value(x), changed, path);
      NothingThere(path);
    }
  }

  /** A change an application may make: everything was derived, and only the changed paths differ. */
  ghost predicate Consistent(eval: Evaluator, ds: seq<Derivation>, changed: seq<string>, before: Fields,
      after: Fields) {
    && WellFormed(eval, ds) && ChangedOnly(before, after, changed)
    && forall d :: d in ds ==> AtFixpoint(eval, before, d)
  }

  ghost predicate Settles(eval: Evaluator, ds: seq<Derivation>, changed: seq<string>, after: Fields) {
    forall d :: d in ds ==> AtFixpoint(eval, Settle(eval, ds, changed, after).store, d)
  }

  /** Settling the changes at some paths equals full recomputation whatever the expressions compute, if and only
      if no derivation can be overtaken. */
  lemma SettlesIffNoOvertaking(ds: seq<Derivation>, changed: seq<string>)
    requires Topological(ds) && UniqueIds(ds) && DisjointTargets(ds) && DistinctExpressions(ds)
        && NoTargetChanged(ds, changed)
    ensures NoOvertaking(ds, changed) <==>
            forall eval, before, after :: Consistent(eval, ds, changed, before, after)
                ==> Settles(eval, ds, changed, after)
  {
    hide NoOvertaking, Topological, UniqueIds, DisjointTargets, DistinctExpressions, NoTargetChanged, ChangedOnly,
        Settle, AtFixpoint;
    if NoOvertaking(ds, changed) {
      forall eval, before, after | Consistent(eval, ds, changed, before, after)
        ensures Settles(eval, ds, changed, after)
      {
        SettleReachesFixpoint(eval, ds, changed, before, after);
      }
    } else {
      var eval, after, left := OvertakingLeavesBehind(ds, changed);
      assert Consistent(eval, ds, changed, map[], after) && !Settles(eval, ds, changed, after);
    }
  }

  // ---- the diamond of unequal depth ----------------------------------------------------

  /** A reads x, B reads A, C reads x and B. */
  const DIAMOND := [
    Derivation("a", "a", "fa", ["x"]),
    Derivation("b", "b", "fb", ["a"]),
    Derivation("c", "c", "fc", ["x", "b"])]

  lemma OneSegment(a: char, b: char)
    ensures PathsOverlap([a], [b]) <==> a == b
  {
  }

  /** `d` reads the one-letter path `t`. */
  lemma ReadsLetter(d: Derivation, t: char, letters: seq<char>)
    requires |letters| == |d.dependencies| && forall i :: 0 <= i < |letters| ==> d.dependencies[i] == [letters[i]]
    ensures (exists i :: 0 <= i < |d.dependencies| && PathsOverlap(d.dependencies[i], [t])) <==> t in letters
  {
    forall i | 0 <= i < |letters|
      ensures PathsOverlap(d.dependencies[i], [t]) <==> letters[i] == t
    {
      OneSegment(letters[i], t);
    }
    if t in letters {
      var i :| 0 <= i < |letters| && letters[i] == t;
      assert PathsOverlap(d.dependencies[i], [t]);
    }
  }

  lemma DiamondReads(p: Derivation, t: char)
    requires p.target == [t]
    ensures Feeds(p, DIAMOND[0]) <==> t == 'x'
    ensures Feeds(p, DIAMOND[1]) <==> t == 'a'
    ensures Feeds(p, DIAMOND[2]) <==> t == 'x' || t == 'b'
  {
    hide PathsOverlap;
    ReadsLetter(DIAMOND[0], t, ['x']);
    ReadsLetter(DIAMOND[1], t, ['a']);
    ReadsLetter(DIAMOND[2], t, ['x', 'b']);
  }

  lemma DiamondIsOrdered()
    ensures Topological(DIAMOND) && UniqueIds(DIAMOND) && DisjointTargets(DIAMOND) && DistinctExpressions(DIAMOND)
    ensures NoTargetChanged(DIAMOND, ["x"])
  {
    hide Feeds, PathsOverlap;
    DiamondReads(DIAMOND[0], 'a');
    DiamondReads(DIAMOND[1], 'b');
    DiamondReads(DIAMOND[2], 'c');
    OneSegment('a', 'b');
    OneSegment('a', 'c');
    OneSegment('b', 'c');
    OneSegment('a', 'x');
    OneSegment('b', 'x');
    OneSegment('c', 'x');
  }

  lemma TouchedByOne(d: Derivation, t: char)
    ensures Touched(d, [[t]]) <==> exists i :: 0 <= i < |d.dependencies| && PathsOverlap(d.dependencies[i], [t])
  {
    hide PathsOverlap;
    if i :| 0 <= i < |d.dependencies| && PathsOverlap(d.dependencies[i], [t]) {
      assert PathsOverlap(d.dependencies[i], [[t]][0]);
    }
  }

  lemma DiamondWaves(movers: set<string>)
    requires movers == {"a", "b"}
    ensures "c" in Wave(DIAMOND, ["x"], movers, 0) && "b" in Wave(DIAMOND, ["x"], movers, 1)
  {
    hide PathsOverlap, Touched, Feeds;
    var a, b, c := DIAMOND[0], DIAMOND[1], DIAMOND[2];
    assert ["x"] == [['x']];
    TouchedByOne(a, 'x');
    TouchedByOne(b, 'x');
    TouchedByOne(c, 'x');
    ReadsLetter(a, 'x', ['x']);
    ReadsLetter(b, 'x', ['a']);
    ReadsLetter(c, 'x', ['x', 'b']);
    DiamondReads(a, 'a');
    assert a in DIAMOND && b in DIAMOND && c in DIAMOND;
    var first := Wave(DIAMOND, ["x"], movers, 0);
    assert a.id in first && c.id in first;
    assert b.id !in first by {
      assert forall d :: d in DIAMOND && d.id == b.id ==> d == b;
    }
    assert FedBy(b, DIAMOND, first * movers);
    assert Earlier(DIAMOND, ["x"], movers, 1) == Earlier(DIAMOND, ["x"], movers, 0) + first;
  }

  /** C is evaluated with A in the first round and never again, so it misses what B writes in the second. */
  lemma DiamondOvertakes()
    ensures !NoOvertaking(DIAMOND, ["x"])
  {
    hide Wave, Feeds, PathsOverlap;
    var movers := {"a", "b"};
    var b, c, at: nat, read: nat := DIAMOND[1], DIAMOND[2], 1, 0;
    DiamondWaves(movers);
    DiamondReads(b, 'b');
    assert b in DIAMOND && c in DIAMOND && Feeds(b, c) && b.id in movers;
    assert b.id in Wave(DIAMOND, ["x"], movers, at) && c.id in Wave(DIAMOND, ["x"], movers, read);
  }

  /** So for some expressions and some value of x the diamond is left with a stale target. */
  lemma UnequalDiamondBreaks() returns (eval: Evaluator, after: Fields, left: Derivation)
    ensures WellFormed(eval, DIAMOND) && ChangedOnly(map[], after, ["x"])
    ensures forall d :: d in DIAMOND ==> AtFixpoint(eval, map[], d)
    ensures left in DIAMOND && !AtFixpoint(eval, Settle(eval, DIAMOND, ["x"], after).store, left)
  {
    hide *;
    DiamondIsOrdered();
    DiamondOvertakes();
    eval, after, left := OvertakingLeavesBehind(DIAMOND, ["x"]);
  }
}
