/** When incremental settling agrees with full recomputation (kernel/src/derivations.ts:78-114). */
module SettleTheorems {
  import opened Json
  import opened Paths
  import opened Derivations
  import opened Settlement

  // ---- settleAll --------------------------------------------------------------------------

  /** The ids of the derivations that have dependencies, in stored order. */
  function Dependent(ds: seq<Derivation>): seq<string> {
    if ds == [] then []
    else Dependent(ds[..|ds| - 1]) + if ds[|ds| - 1].dependencies == [] then [] else [ds[|ds| - 1].id]
  }

  lemma {:induction false} DependentMembers(ds: seq<Derivation>)
    ensures forall id :: id in Dependent(ds) ==> exists i :: 0 <= i < |ds| && ds[i].id == id && ds[i].dependencies != []
    ensures forall i :: 0 <= i < |ds| && ds[i].dependencies != [] ==> ds[i].id in Dependent(ds)
  {
    if ds != [] {
      DependentMembers(ds[..|ds| - 1]);
    }
  }

  lemma {:induction false} NoneDependent(ds: seq<Derivation>)
    requires forall k :: 0 <= k < |ds| ==> ds[k].dependencies == []
    ensures Dependent(ds) == []
  {
    if ds != [] {
      NoneDependent(ds[..|ds| - 1]);
    }
  }

  lemma {:induction false} EveryDependencyListed(ds: seq<Derivation>, k: nat, i: nat)
    requires k < |ds| && i < |ds[k].dependencies|
    ensures ds[k].dependencies[i] in AllDependencies(ds)
  {
    if k < |ds| - 1 {
      EveryDependencyListed(ds[..|ds| - 1], k, i);
    }
  }

  lemma TouchedByAll(ds: seq<Derivation>, k: nat)
    requires k < |ds|
    ensures Touched(ds[k], AllDependencies(ds)) <==> ds[k].dependencies != []
  {
    if ds[k].dependencies != [] {
      EveryDependencyListed(ds, k, 0);
      var j :| 0 <= j < |AllDependencies(ds)| && AllDependencies(ds)[j] == ds[k].dependencies[0];
      assert PathsOverlap(ds[k].dependencies[0], AllDependencies(ds)[j]);
    }
  }

  lemma NotSelfFed(ds: seq<Derivation>, k: nat)
    requires Topological(ds) && k < |ds|
    ensures !Feeds(ds[k], ds[k])
  {
  }

  /** Producers first: what was evaluated earlier in the pass is not disturbed by what follows. */
  lemma {:induction false} FullPass(eval: Evaluator, ds: seq<Derivation>, store: Fields, k: nat)
    requires WellFormed(eval, ds) && k <= |ds|
    ensures var p := Pass(eval, ds[..k], AllDependencies(ds), Progress(store, [], [], []));
            && p.evaluated == Dependent(ds[..k])
            && forall i :: 0 <= i < k && ds[i].dependencies != [] ==> AtFixpoint(eval, p.store, ds[i])
  {
    hide WellFormed, AtFixpoint, Touched, Evaluate, AllDependencies;
    if k > 0 {
      FullPass(eval, ds, store, k - 1);
      assert ds[..k][..k - 1] == ds[..k - 1];
      var p := Pass(eval, ds[..k - 1], AllDependencies(ds), Progress(store, [], [], []));
      var d := ds[k - 1];
      DependentMembers(ds[..k - 1]);
      assert d.id !in p.evaluated by {
        NotAmongEarlier(eval, ds, k - 1);
      }
      TouchedByAll(ds, k - 1);
      if d.dependencies != [] {
        EvaluateMarks(eval, d, p);
        FullPassStep(eval, ds, k, p);
      }
    }
  }

  lemma EvaluateMarks(eval: Evaluator, d: Derivation, p: Progress)
    ensures Evaluate(eval, d, p).evaluated == p.evaluated + [d.id]
  {
  }

  lemma NotAmongEarlier(eval: Evaluator, ds: seq<Derivation>, k: nat)
    requires WellFormed(eval, ds) && k < |ds|
    ensures forall d :: d in ds[..k] ==> d.id != ds[k].id
  {
  }

  lemma FullPassStep(eval: Evaluator, ds: seq<Derivation>, k: nat, p: Progress)
    requires WellFormed(eval, ds) && 1 <= k <= |ds|
    requires forall i :: 0 <= i < k - 1 && ds[i].dependencies != [] ==> AtFixpoint(eval, p.store, ds[i])
    ensures forall i ::
        0 <= i < k && ds[i].dependencies != []
        ==> AtFixpoint(eval, Evaluate(eval, ds[k - 1], p).store, ds[i])
  {
    NotSelfFed(ds, k - 1);
    EvaluateReaches(eval, ds[k - 1], p);
    forall i | 0 <= i < k - 1 && ds[i].dependencies != []
      ensures AtFixpoint(eval, Evaluate(eval, ds[k - 1], p).store, ds[i])
    {
      assert !PathsOverlap(ds[i].target, ds[k - 1].target);
      EvaluateElsewhere(eval, ds[k - 1], ds[i], p);
    }
  }

  lemma {:induction false} IdlePass(eval: Evaluator, ds: seq<Derivation>, changed: seq<string>, p: Progress)
    requires forall d :: d in ds ==> !Due(d, changed, p)
    ensures Pass(eval, ds, changed, p) == p
  {
    if ds != [] {
      IdlePass(eval, ds[..|ds| - 1], changed, p);
    }
  }

  /** `settleAll` evaluates each derivation that has dependencies exactly once, in stored order, and
      leaves all of them at the fixpoint. */
  lemma SettleAllReachesFixpoint(eval: Evaluator, ds: seq<Derivation>, store: Fields)
    requires WellFormed(eval, ds)
    ensures SettleAll(eval, ds, store).evaluated == Dependent(ds)
    ensures forall d :: d in ds && d.dependencies != [] ==> AtFixpoint(eval, SettleAll(eval, ds, store).store, d)
  {
    var start := Progress(store, AllDependencies(ds), [], []);
    assert ds[..|ds|] == ds;
    FullPass(eval, ds, store, |ds|);
    DependentMembers(ds);
    if start.pending != [] {
      var p := Pass(eval, ds, start.pending, start.(pending := []));
      if p.pending != [] {
        forall d | d in ds
          ensures !Due(d, p.pending, p.(pending := []))
        {
          var k :| 0 <= k < |ds| && ds[k] == d;
        }
        var q := p.(pending := []);
        IdlePass(eval, ds, p.pending, q);
        assert Rounds(eval, ds, p) == Rounds(eval, ds, q) == q;
      }
      assert Rounds(eval, ds, start) == Rounds(eval, ds, p);
    } else {
      forall k | 0 <= k < |ds|
        ensures ds[k].dependencies == []
      {
        TouchedByAll(ds, k);
      }
      NoneDependent(ds);
    }
  }

  // ---- waves: which derivations each round reaches, if exactly those in `movers` change ---------------

  ghost predicate FedBy(d: Derivation, ds: seq<Derivation>, ids: set<string>) {
    exists p :: p in ds && p.id in ids && Feeds(p, d)
  }

  ghost function Wave(ds: seq<Derivation>, changed: seq<string>, movers: set<string>, round: nat): set<string>
    decreases round, 1
  {
    if round == 0 then set d | d in ds && Touched(d, changed) :: d.id
    else set d | d in ds && d.id !in Earlier(ds, changed, movers, round)
                         && FedBy(d, ds, Wave(ds, changed, movers, round - 1) * movers) :: d.id
  }

  ghost function Earlier(ds: seq<Derivation>, changed: seq<string>, movers: set<string>, round: nat): set<string>
    decreases round, 0
  {
    if round == 0 then {}
    else Earlier(ds, changed, movers, round - 1) + Wave(ds, changed, movers, round - 1)
  }

  /** Whichever derivations change, none changes in a later round than one it feeds was evaluated. */
  ghost predicate NoOvertaking(ds: seq<Derivation>, changed: seq<string>) {
    forall movers, p, d, at: nat, read: nat ::
      (&& p in ds && d in ds && Feeds(p, d)
       && p.id in movers
       && p.id in Wave(ds, changed, movers, at)
       && d.id in Wave(ds, changed, movers, read))
      ==> at <= read
  }

  // ---- facts about one pass and about the whole loop ----------------------------------------------------

  predicate Wrote(d: Derivation, operations: seq<PatchOp>) {
    exists i :: 0 <= i < |operations| && operations[i].path == d.target
  }

  function Written(operations: seq<PatchOp>): seq<string> {
    seq(|operations|, i requires 0 <= i < |operations| => operations[i].path)
  }

  lemma UniqueFront(ds: seq<Derivation>)
    requires UniqueIds(ds) && ds != []
    ensures ds == ds[..|ds| - 1] + [ds[|ds| - 1]] && UniqueIds(ds[..|ds| - 1])
    ensures forall e :: e in ds[..|ds| - 1] ==> e.id != ds[|ds| - 1].id
  {
  }

  /** A pass evaluates exactly what was due when it began. */
  lemma {:induction false} PassEvaluates(eval: Evaluator, ds: seq<Derivation>, changed: seq<string>, p: Progress,
      id: string)
    requires UniqueIds(ds)
    ensures id in Pass(eval, ds, changed, p).evaluated
      <==> id in p.evaluated || exists d :: d in ds && d.id == id && Due(d, changed, p)
  {
    hide Touched, UniqueIds, GetPath, SetPath;
    if ds != [] {
      var rest, d := ds[..|ds| - 1], ds[|ds| - 1];
      assert ds == rest + [d] && UniqueIds(rest) && (forall e :: e in rest ==> e.id != d.id) by {
        UniqueFront(ds);
      }
      PassEvaluates(eval, rest, changed, p, id);
      PassEvaluates(eval, rest, changed, p, d.id);
    }
  }

  /** The operation sets the target of a derivation that was due. */
  ghost predicate WrittenByDue(ds: seq<Derivation>, changed: seq<string>, p: Progress, operation: PatchOp) {
    exists d :: d in ds && Due(d, changed, p) && operation.path == d.target
  }

  lemma WrittenByDueGrows(ds: seq<Derivation>, changed: seq<string>, p: Progress, operation: PatchOp)
    requires ds != [] && WrittenByDue(ds[..|ds| - 1], changed, p, operation)
    ensures WrittenByDue(ds, changed, p, operation)
  {
    var d :| d in ds[..|ds| - 1] && Due(d, changed, p) && operation.path == d.target;
    assert d in ds;
  }

  /** Its pending list is the targets it wrote, and it writes only targets of what was due. */
  lemma {:induction false} PassWrites(eval: Evaluator, ds: seq<Derivation>, changed: seq<string>, p: Progress)
    requires UniqueIds(ds) && p.pending == []
    ensures var p' := Pass(eval, ds, changed, p);
            && p.operations <= p'.operations
            && p'.pending == Written(p'.operations[|p.operations|..])
            && (forall i :: |p.operations| <= i < |p'.operations| ==> WrittenByDue(ds, changed, p, p'.operations[i]))
  {
    if ds != [] {
      var rest, d := ds[..|ds| - 1], ds[|ds| - 1];
      var before, p' := Pass(eval, rest, changed, p), Pass(eval, ds, changed, p);
      PassWrites(eval, rest, changed, p);
      PassEvaluates(eval, rest, changed, p, d.id);
      forall i | |p.operations| <= i < |p'.operations|
        ensures WrittenByDue(ds, changed, p, p'.operations[i])
      {
        if i < |before.operations| {
          assert p'.operations[i] == before.operations[i];
          WrittenByDueGrows(ds, changed, p, before.operations[i]);
        } else {
          assert Due(d, changed, p);
        }
      }
      if p'.operations != before.operations {
        assert p'.operations[|p.operations|..] == before.operations[|p.operations|..]
            + [p'.operations[|before.operations|]];
      }
    }
  }

  /** Later rounds only write targets of derivations not evaluated before. */
  lemma {:induction false} RoundsFacts(eval: Evaluator, ds: seq<Derivation>, p: Progress)
    requires UniqueIds(ds)
    ensures var p' := Rounds(eval, ds, p);
            && p.operations <= p'.operations
            && (forall i :: |p.operations| <= i < |p'.operations| ==>
                  exists d :: d in ds && d.id !in p.evaluated && p'.operations[i].path == d.target)
    decreases |Waiting(ds, p.evaluated)|, |p.pending|
  {
    if p.pending != [] {
      var p' := Pass(eval, ds, p.pending, p.(pending := []));
      PassWrites(eval, ds, p.pending, p.(pending := []));
      PassGrows(eval, ds, p.pending, p.(pending := []));
      RoundShrinks(eval, ds, p);
      RoundsFacts(eval, ds, p');
    }
  }

  lemma DistinctTargets(ds: seq<Derivation>, d: Derivation, e: Derivation)
    requires DisjointTargets(ds) && d in ds && e in ds && PathsOverlap(d.target, e.target)
    ensures d == e
  {
    var i :| 0 <= i < |ds| && ds[i] == d;
    var j :| 0 <= j < |ds| && ds[j] == e;
    assert !(i < j) && !(j < i);
  }

  /** Whether a derivation wrote is decided once it was evaluated. */
  lemma WroteIsFinal(eval: Evaluator, ds: seq<Derivation>, p: Progress, d: Derivation)
    requires UniqueIds(ds) && DisjointTargets(ds) && d in ds && d.id in p.evaluated
    ensures Wrote(d, Rounds(eval, ds, p).operations) <==> Wrote(d, p.operations)
  {
    var p' := Rounds(eval, ds, p);
    RoundsFacts(eval, ds, p);
    if Wrote(d, p.operations) {
      var i :| 0 <= i < |p.operations| && p.operations[i].path == d.target;
      assert p'.operations[i].path == d.target;
    }
    if Wrote(d, p'.operations) {
      var i :| 0 <= i < |p'.operations| && p'.operations[i].path == d.target;
      if i >= |p.operations| {
        var e :| e in ds && e.id !in p.evaluated && p'.operations[i].path == e.target;
        DistinctTargets(ds, d, e);
      }
    }
  }

  // ---- one pass keeps everyone at the fixpoint or due ------------------------------------------------------

  /** Settled, or still to be evaluated because of `changed` or because of what this pass wrote. */
  ghost predicate SettledOrDue(eval: Evaluator, d: Derivation, changed: seq<string>, p: Progress) {
    AtFixpoint(eval, p.store, d) || (d.id !in p.evaluated && (Touched(d, changed) || Touched(d, p.pending)))
  }

  /** No derivation that this pass changes feeds one evaluated in an earlier round. */
  ghost predicate NoneTooLate(eval: Evaluator, ds: seq<Derivation>, changed: seq<string>, p: Progress) {
    forall e, d ::
      (e in ds && d in ds && Feeds(e, d) && Due(e, changed, p) && Wrote(e, Pass(eval, ds, changed, p).operations))
      ==> d.id !in p.evaluated
  }

  lemma {:induction false} PassKeepsSettled(eval: Evaluator, ds: seq<Derivation>, changed: seq<string>, p: Progress,
      k: nat)
    requires WellFormed(eval, ds) && p.pending == [] && k <= |ds|
    requires forall d :: d in ds ==> SettledOrDue(eval, d, changed, p)
    requires NoneTooLate(eval, ds, changed, p)
    ensures forall d :: d in ds ==> SettledOrDue(eval, d, changed, Pass(eval, ds[..k], changed, p))
  {
    if k == 0 {
      assert ds[..k] == [];
    } else {
      PassKeepsSettled(eval, ds, changed, p, k - 1);
      assert ds[..k][..k - 1] == ds[..k - 1];
      var g, e := Pass(eval, ds[..k - 1], changed, p), ds[k - 1];
      if Due(e, changed, g) {
        forall d | d in ds
          ensures SettledOrDue(eval, d, changed, Evaluate(eval, e, g))
        {
          EvaluateKeepsSettled(eval, ds, changed, p, k, d);
        }
      }
    }
  }

  lemma EvaluateKeepsSettled(eval: Evaluator, ds: seq<Derivation>, changed: seq<string>, p: Progress, k: nat,
      d: Derivation)
    requires WellFormed(eval, ds) && p.pending == [] && 1 <= k <= |ds| && d in ds
    requires NoneTooLate(eval, ds, changed, p)
    requires var g := Pass(eval, ds[..k - 1], changed, p);
             SettledOrDue(eval, d, changed, g) && Due(ds[k - 1], changed, g)
    ensures SettledOrDue(eval, d, changed, Evaluate(eval, ds[k - 1], Pass(eval, ds[..k - 1], changed, p)))
  {
    var g, e := Pass(eval, ds[..k - 1], changed, p), ds[k - 1];
    var h := Evaluate(eval, e, g);
    if d == e {
      NotSelfFed(ds, k - 1);
      EvaluateReaches(eval, e, g);
    } else {
      if PathsOverlap(e.target, d.target) {
        DistinctTargets(ds, e, d);
      }
      assert g.pending <= h.pending;
      assert Touched(d, g.pending) ==> Touched(d, h.pending);
      assert d.id != e.id by {
        if d.id == e.id { SameId(ds, d, e); }
      }
      if AtFixpoint(eval, g.store, d) {
        if !Feeds(e, d) {
          EvaluateElsewhere(eval, e, d, g);
        } else if h.store != g.store {
          WriterTouches(e, d, h.pending);
          NotYetEvaluated(eval, ds, changed, p, k, d);
        }
      }
    }
  }

  lemma SameId(ds: seq<Derivation>, d: Derivation, e: Derivation)
    requires UniqueIds(ds) && d in ds && e in ds && d.id == e.id
    ensures d == e
  {
    var i :| 0 <= i < |ds| && ds[i] == d;
    var j :| 0 <= j < |ds| && ds[j] == e;
    assert !(i < j) && !(j < i);
  }

  lemma WriterTouches(e: Derivation, d: Derivation, pending: seq<string>)
    requires Feeds(e, d) && pending != [] && pending[|pending| - 1] == e.target
    ensures Touched(d, pending)
  {
    var i :| 0 <= i < |d.dependencies| && PathsOverlap(d.dependencies[i], e.target);
    assert PathsOverlap(d.dependencies[i], pending[|pending| - 1]);
  }

  /** A consumer of a derivation that writes in this pass stands after it, so it was not evaluated yet. */
  lemma NotYetEvaluated(eval: Evaluator, ds: seq<Derivation>, changed: seq<string>, p: Progress, k: nat, d: Derivation)
    requires WellFormed(eval, ds) && p.pending == [] && 1 <= k <= |ds| && d in ds
    requires NoneTooLate(eval, ds, changed, p)
    requires Feeds(ds[k - 1], d)
    requires var g := Pass(eval, ds[..k - 1], changed, p);
             Due(ds[k - 1], changed, g) && Evaluate(eval, ds[k - 1], g).store != g.store
    ensures d.id !in Pass(eval, ds[..k - 1], changed, p).evaluated
  {
    var g, e := Pass(eval, ds[..k - 1], changed, p), ds[k - 1];
    PassEvaluates(eval, ds[..k - 1], changed, p, e.id);
    PassEvaluates(eval, ds[..k - 1], changed, p, d.id);
    assert Due(e, changed, p);
    var h := Evaluate(eval, e, g);
    assert ds[..k][..k - 1] == ds[..k - 1] && h == Pass(eval, ds[..k], changed, p);
    PassPrefixOps(eval, ds, changed, p, k);
    assert h.operations[|h.operations| - 1].path == e.target;
    assert Pass(eval, ds, changed, p).operations[|h.operations| - 1].path == e.target;
    assert Wrote(e, Pass(eval, ds, changed, p).operations);
  }

  lemma {:induction false} PassPrefixOps(eval: Evaluator, ds: seq<Derivation>, changed: seq<string>, p: Progress,
      k: nat)
    requires k <= |ds|
    ensures Pass(eval, ds[..k], changed, p).operations <= Pass(eval, ds, changed, p).operations
    decreases |ds|
  {
    if k == |ds| {
      assert ds[..k] == ds;
    } else {
      assert ds[..|ds| - 1][..k] == ds[..k];
      PassPrefixOps(eval, ds[..|ds| - 1], changed, p, k);
    }
  }

  // ---- the whole loop ------------------------------------------------------------------------------------------

  /** The state of the loop at the start of a round, compared with the waves of the derivations that write. */
  ghost predicate RoundTrace(ds: seq<Derivation>, changed: seq<string>, movers: set<string>, round: nat, p: Progress) {
    && (forall id :: id in p.evaluated <==> id in Earlier(ds, changed, movers, round))
    && (forall d :: d in ds ==>
          (Touched(d, p.pending) <==> if round == 0 then Touched(d, changed)
                                      else FedBy(d, ds, Wave(ds, changed, movers, round - 1) * movers)))
    && (forall d :: d in ds && Wrote(d, p.operations) ==> d.id in p.evaluated)
  }

  /** The movers are those that write when this round evaluates them. */
  ghost predicate WritesAgree(eval: Evaluator, ds: seq<Derivation>, movers: set<string>, p: Progress) {
    forall d :: d in ds && Due(d, p.pending, p) ==>
      (d.id in movers <==> Wrote(d, Pass(eval, ds, p.pending, p.(pending := [])).operations))
  }

  /** Settled, or about to be evaluated. */
  ghost predicate SettledSoFar(eval: Evaluator, ds: seq<Derivation>, p: Progress) {
    forall d :: d in ds ==> AtFixpoint(eval, p.store, d) || (d.id !in p.evaluated && Touched(d, p.pending))
  }

  /** The ids of the derivations whose target some operation sets. */
  function Writers(ds: seq<Derivation>, operations: seq<PatchOp>): set<string> {
    set d | d in ds && Wrote(d, operations) :: d.id
  }

  lemma WritersExact(ds: seq<Derivation>, operations: seq<PatchOp>, d: Derivation)
    requires UniqueIds(ds) && d in ds
    ensures d.id in Writers(ds, operations) <==> Wrote(d, operations)
  {
    if d.id in Writers(ds, operations) {
      var e :| e in ds && Wrote(e, operations) && e.id == d.id;
      SameId(ds, d, e);
    }
  }

  /** What is due at the start of a round is the round's wave. */
  lemma DueIsWave(ds: seq<Derivation>, changed: seq<string>, movers: set<string>, round: nat, p: Progress,
      d: Derivation)
    requires UniqueIds(ds) && d in ds && RoundTrace(ds, changed, movers, round, p)
    ensures Due(d, p.pending, p) <==> d.id in Wave(ds, changed, movers, round)
  {
    var wave := Wave(ds, changed, movers, round);
    if d.id in wave {
      if round == 0 {
        var e :| e in ds && Touched(e, changed) && e.id == d.id;
        SameId(ds, d, e);
      } else {
        var e :| e in ds && e.id == d.id && e.id !in Earlier(ds, changed, movers, round)
          && FedBy(e, ds, Wave(ds, changed, movers, round - 1) * movers);
        SameId(ds, d, e);
      }
    }
  }

  lemma TouchedByWriters(d: Derivation, operations: seq<PatchOp>)
    ensures Touched(d, Written(operations))
       <==> exists i, j ::
           0 <= i < |d.dependencies| && 0 <= j < |operations|
           && PathsOverlap(d.dependencies[i], operations[j].path)
  {
    var paths := Written(operations);
    forall i, j | 0 <= i < |d.dependencies| && 0 <= j < |operations|
        && PathsOverlap(d.dependencies[i], operations[j].path)
      ensures PathsOverlap(d.dependencies[i], paths[j])
    {
    }
    if Touched(d, paths) {
      var i, j :| 0 <= i < |d.dependencies| && 0 <= j < |paths| && PathsOverlap(d.dependencies[i], paths[j]);
      assert PathsOverlap(d.dependencies[i], operations[j].path);
    }
  }

  /** The writers of a round: in the round's wave and among the movers, if and only if they wrote now. */
  lemma WriterOfRound(eval: Evaluator, ds: seq<Derivation>, changed: seq<string>, movers: set<string>, round: nat,
      p: Progress, e: Derivation)
    requires UniqueIds(ds) && DisjointTargets(ds) && e in ds && p.pending != []
    requires RoundTrace(ds, changed, movers, round, p)
    requires WritesAgree(eval, ds, movers, p)
    ensures e.id in Wave(ds, changed, movers, round) * movers
       <==> Due(e, p.pending, p) && Wrote(e, Pass(eval, ds, p.pending, p.(pending := [])).operations)
  {
    hide RoundTrace, Wave, Wrote, Pass;
    DueIsWave(ds, changed, movers, round, p, e);
  }

  /** The final writers are movers in this sense: whether a derivation wrote is decided when it is evaluated. */
  lemma WritersAgree(eval: Evaluator, ds: seq<Derivation>, movers: set<string>, p: Progress)
    requires UniqueIds(ds) && DisjointTargets(ds) && p.pending != []
    requires movers == Writers(ds, Rounds(eval, ds, p).operations)
    ensures WritesAgree(eval, ds, movers, p)
  {
    hide Writers, Wrote, Pass;
    var start := p.(pending := []);
    var p' := Pass(eval, ds, p.pending, start);
    RoundShrinks(eval, ds, p);
    assert Rounds(eval, ds, p) == Rounds(eval, ds, p');
    forall e | e in ds && Due(e, p.pending, p)
      ensures e.id in movers <==> Wrote(e, p'.operations)
    {
      WritersExact(ds, Rounds(eval, ds, p).operations, e);
      PassEvaluates(eval, ds, p.pending, start, e.id);
      assert Due(e, p.pending, start);
      WroteIsFinal(eval, ds, p', e);
    }
  }

  /** After a round, what is pending touches exactly the derivations fed by this round's writers. */
  lemma PendingIsNextFeed(eval: Evaluator, ds: seq<Derivation>, changed: seq<string>, movers: set<string>, round: nat,
      p: Progress, d: Derivation)
    requires UniqueIds(ds) && DisjointTargets(ds) && d in ds && p.pending != []
    requires RoundTrace(ds, changed, movers, round, p) && WritesAgree(eval, ds, movers, p)
    ensures Touched(d, Pass(eval, ds, p.pending, p.(pending := [])).pending)
       <==> FedBy(d, ds, Wave(ds, changed, movers, round) * movers)
  {
    hide RoundTrace, WritesAgree, Wave, Pass, FedBy, Touched, Wrote, Written;
    var start := p.(pending := []);
    var p' := Pass(eval, ds, p.pending, start);
    PassWrites(eval, ds, p.pending, start);
    forall e | e in ds
      ensures e.id in Wave(ds, changed, movers, round) * movers <==> WroteSince(e, p'.operations, |p.operations|)
    {
      WriterOfRound(eval, ds, changed, movers, round, p, e);
      RecentWriter(eval, ds, changed, movers, round, p, e);
    }
    FedByRecentWriters(ds, d, p'.operations, |p.operations|, Wave(ds, changed, movers, round) * movers);
  }

  ghost predicate WroteSince(e: Derivation, operations: seq<PatchOp>, from: nat) {
    exists j :: from <= j < |operations| && operations[j].path == e.target
  }

  /** A due derivation that wrote by the end of the pass wrote in the pass, and only due ones did. */
  lemma RecentWriter(eval: Evaluator, ds: seq<Derivation>, changed: seq<string>, movers: set<string>, round: nat,
      p: Progress, e: Derivation)
    requires UniqueIds(ds) && DisjointTargets(ds) && e in ds
    requires RoundTrace(ds, changed, movers, round, p)
    ensures var p' := Pass(eval, ds, p.pending, p.(pending := []));
            Due(e, p.pending, p) && Wrote(e, p'.operations) <==> WroteSince(e, p'.operations, |p.operations|)
  {
    var start := p.(pending := []);
    var p' := Pass(eval, ds, p.pending, start);
    PassWrites(eval, ds, p.pending, start);
    if Due(e, p.pending, p) && Wrote(e, p'.operations) {
      var j :| 0 <= j < |p'.operations| && p'.operations[j].path == e.target;
      assert j < |p.operations| ==> p.operations[j] == p'.operations[j];
      assert j < |p.operations| ==> Wrote(e, p.operations);
    }
    if WroteSince(e, p'.operations, |p.operations|) {
      var j :| |p.operations| <= j < |p'.operations| && p'.operations[j].path == e.target;
      var f :| f in ds && Due(f, p.pending, start) && p'.operations[j].path == f.target;
      DistinctTargets(ds, e, f);
    }
  }

  lemma FedByRecentWriters(ds: seq<Derivation>, d: Derivation, operations: seq<PatchOp>, from: nat, ids: set<string>)
    requires from <= |operations|
    requires forall e :: e in ds ==> (e.id in ids <==> WroteSince(e, operations, from))
    requires forall j :: from <= j < |operations| ==> exists e :: e in ds && operations[j].path == e.target
    ensures Touched(d, Written(operations[from..])) <==> FedBy(d, ds, ids)
  {
    hide *;
    TouchedByWriters(d, operations[from..]);
    if Touched(d, Written(operations[from..])) {
      TouchedMeansFed(ds, d, operations, from, ids);
    }
    if FedBy(d, ds, ids) {
      FedMeansTouched(ds, d, operations, from, ids);
    }
  }

  lemma TouchedMeansFed(ds: seq<Derivation>, d: Derivation, operations: seq<PatchOp>, from: nat, ids: set<string>)
    requires from <= |operations|
    requires forall e :: e in ds ==> (e.id in ids <==> WroteSince(e, operations, from))
    requires forall j :: from <= j < |operations| ==> exists e :: e in ds && operations[j].path == e.target
    requires exists i, j ::
        0 <= i < |d.dependencies| && 0 <= j < |operations[from..]|
        && PathsOverlap(d.dependencies[i], operations[from..][j].path)
    ensures FedBy(d, ds, ids)
  {
    hide PathsOverlap;
    var i, j :| 0 <= i < |d.dependencies| && 0 <= j < |operations[from..]|
        && PathsOverlap(d.dependencies[i], operations[from..][j].path);
    assert operations[from..][j] == operations[from + j];
    var e :| e in ds && operations[from + j].path == e.target;
    WriterFeeds(e, d, operations, from, i, from + j);
  }

  lemma FedMeansTouched(ds: seq<Derivation>, d: Derivation, operations: seq<PatchOp>, from: nat, ids: set<string>)
    requires from <= |operations|
    requires forall e :: e in ds ==> (e.id in ids <==> WroteSince(e, operations, from))
    requires FedBy(d, ds, ids)
    ensures exists i, j ::
        0 <= i < |d.dependencies| && 0 <= j < |operations[from..]|
        && PathsOverlap(d.dependencies[i], operations[from..][j].path)
  {
    hide PathsOverlap;
    var e :| e in ds && e.id in ids && Feeds(e, d);
    var j :| from <= j < |operations| && operations[j].path == e.target;
    var i :| 0 <= i < |d.dependencies| && PathsOverlap(d.dependencies[i], e.target);
    assert operations[from..][j - from] == operations[j];
    assert PathsOverlap(d.dependencies[i], operations[from..][j - from].path);
  }

  lemma WriterFeeds(e: Derivation, d: Derivation, operations: seq<PatchOp>, from: nat, i: nat, j: nat)
    requires i < |d.dependencies| && from <= j < |operations| && operations[j].path == e.target
    requires PathsOverlap(d.dependencies[i], e.target)
    ensures WroteSince(e, operations, from) && Feeds(e, d)
  {
  }

  /** The waves do not let a round change something an earlier round's evaluation read. */
  lemma RoundNotTooLate(eval: Evaluator, ds: seq<Derivation>, changed: seq<string>, movers: set<string>, round: nat,
      p: Progress)
    requires UniqueIds(ds) && DisjointTargets(ds) && p.pending != []
    requires RoundTrace(ds, changed, movers, round, p) && WritesAgree(eval, ds, movers, p)
    requires NoOvertaking(ds, changed)
    ensures NoneTooLate(eval, ds, p.pending, p.(pending := []))
  {
    var start := p.(pending := []);
    var p' := Pass(eval, ds, p.pending, start);
    forall e, d | e in ds && d in ds && Feeds(e, d) && Due(e, p.pending, start) && Wrote(e, p'.operations)
      ensures d.id !in p.evaluated
    {
      assert Due(e, p.pending, p);
      DueIsWave(ds, changed, movers, round, p, e);
      if d.id in p.evaluated {
        var read := EarlierWave(ds, changed, movers, round, d.id);
      }
    }
  }

  lemma {:induction false} EarlierWave(ds: seq<Derivation>, changed: seq<string>, movers: set<string>, round: nat,
      id: string) returns (at: nat)
    requires id in Earlier(ds, changed, movers, round)
    ensures at < round && id in Wave(ds, changed, movers, at)
  {
    if id in Wave(ds, changed, movers, round - 1) {
      at := round - 1;
    } else {
      at := EarlierWave(ds, changed, movers, round - 1, id);
    }
  }

  /** What a round evaluates is its wave. */
  lemma EvaluatedGrowsByWave(eval: Evaluator, ds: seq<Derivation>, changed: seq<string>, movers: set<string>,
      round: nat, p: Progress, id: string)
    requires UniqueIds(ds) && RoundTrace(ds, changed, movers, round, p)
    ensures id in Pass(eval, ds, p.pending, p.(pending := [])).evaluated
        <==> id in Earlier(ds, changed, movers, round + 1)
  {
    PassEvaluates(eval, ds, p.pending, p.(pending := []), id);
    forall d | d in ds
      ensures Due(d, p.pending, p.(pending := [])) <==> d.id in Wave(ds, changed, movers, round)
    {
      DueIsWave(ds, changed, movers, round, p, d);
    }
    if id in Wave(ds, changed, movers, round) {
      WaveMembers(ds, changed, movers, round, id);
    }
  }

  lemma WroteMeansEvaluated(eval: Evaluator, ds: seq<Derivation>, p: Progress, d: Derivation)
    requires UniqueIds(ds) && DisjointTargets(ds) && d in ds
    requires Wrote(d, p.operations) ==> d.id in p.evaluated
    requires Wrote(d, Pass(eval, ds, p.pending, p.(pending := [])).operations)
    ensures d.id in Pass(eval, ds, p.pending, p.(pending := [])).evaluated
  {
    var start := p.(pending := []);
    var p' := Pass(eval, ds, p.pending, start);
    PassWrites(eval, ds, p.pending, start);
    PassEvaluates(eval, ds, p.pending, start, d.id);
    var j :| 0 <= j < |p'.operations| && p'.operations[j].path == d.target;
    if j < |p.operations| {
      assert p.operations[j].path == d.target;
    } else {
      var e :| e in ds && Due(e, p.pending, start) && p'.operations[j].path == e.target;
      DistinctTargets(ds, d, e);
    }
  }

  lemma RoundKeepsTrace(eval: Evaluator, ds: seq<Derivation>, changed: seq<string>, movers: set<string>, round: nat,
      p: Progress)
    requires UniqueIds(ds) && DisjointTargets(ds) && p.pending != []
    requires RoundTrace(ds, changed, movers, round, p) && WritesAgree(eval, ds, movers, p)
    ensures RoundTrace(ds, changed, movers, round + 1, Pass(eval, ds, p.pending, p.(pending := [])))
  {
    hide Wave, Earlier, Pass, WritesAgree;
    var start := p.(pending := []);
    var p' := Pass(eval, ds, p.pending, start);
    forall d | d in ds
      ensures Touched(d, p'.pending) <==> FedBy(d, ds, Wave(ds, changed, movers, round) * movers)
      ensures Wrote(d, p'.operations) ==> d.id in p'.evaluated
    {
      PendingIsNextFeed(eval, ds, changed, movers, round, p, d);
      if Wrote(d, p'.operations) {
        WroteMeansEvaluated(eval, ds, p, d);
      }
    }
    forall id
      ensures id in p'.evaluated <==> id in Earlier(ds, changed, movers, round + 1)
    {
      EvaluatedGrowsByWave(eval, ds, changed, movers, round, p, id);
    }
  }

  /** At the end of a pass only what it wrote can leave a derivation due. */
  lemma AfterPassSettled(eval: Evaluator, ds: seq<Derivation>, p: Progress)
    requires WellFormed(eval, ds)
    requires SettledSoFar(eval, ds, p) && NoneTooLate(eval, ds, p.pending, p.(pending := []))
    ensures SettledSoFar(eval, ds, Pass(eval, ds, p.pending, p.(pending := [])))
  {
    var start := p.(pending := []);
    PassKeepsSettled(eval, ds, p.pending, start, |ds|);
    assert ds[..|ds|] == ds;
    var p' := Pass(eval, ds, p.pending, start);
    forall d | d in ds
      ensures AtFixpoint(eval, p'.store, d) || (d.id !in p'.evaluated && Touched(d, p'.pending))
    {
      PassEvaluates(eval, ds, p.pending, start, d.id);
      assert SettledOrDue(eval, d, p.pending, p');
    }
  }

  lemma WaveMembers(ds: seq<Derivation>, changed: seq<string>, movers: set<string>, round: nat, id: string)
    requires id in Wave(ds, changed, movers, round)
    ensures exists d :: d in ds && d.id == id
  {
  }

  lemma {:induction false} RoundsReachFixpoint(eval: Evaluator, ds: seq<Derivation>, changed: seq<string>,
      movers: set<string>, round: nat, p: Progress)
    requires WellFormed(eval, ds) && NoOvertaking(ds, changed)
    requires RoundTrace(ds, changed, movers, round, p) && SettledSoFar(eval, ds, p)
    requires movers == Writers(ds, Rounds(eval, ds, p).operations)
    ensures forall d :: d in ds ==> AtFixpoint(eval, Rounds(eval, ds, p).store, d)
    decreases |Waiting(ds, p.evaluated)|, |p.pending|
  {
    hide NoOvertaking, Pass, Writers, WritesAgree, RoundTrace;
    if p.pending == [] {
      forall d | d in ds
        ensures !Touched(d, p.pending)
      {
      }
    } else {
      WritersAgree(eval, ds, movers, p);
      RoundNotTooLate(eval, ds, changed, movers, round, p);
      RoundKeepsTrace(eval, ds, changed, movers, round, p);
      AfterPassSettled(eval, ds, p);
      RoundShrinks(eval, ds, p);
      RoundsReachFixpoint(eval, ds, changed, movers, round + 1, Pass(eval, ds, p.pending, p.(pending := [])));
    }
  }

  /** The store before and after an outside change, which is visible only at paths overlapping `changed`. */
  ghost predicate ChangedOnly(before: Fields, after: Fields, changed: seq<string>) {
    forall path :: (forall j :: 0 <= j < |changed| ==> !PathsOverlap(path, changed[j]))
        ==> GetPath(after, path) == GetPath(before, path)
  }

  ghost predicate NoTargetChanged(ds: seq<Derivation>, changed: seq<string>) {
    forall d, j :: d in ds && 0 <= j < |changed| ==> !PathsOverlap(d.target, changed[j])
  }

  /** Incremental settling equals full recomputation, provided no derivation can be overtaken. */
  lemma SettleReachesFixpoint(eval: Evaluator, ds: seq<Derivation>, changed: seq<string>, before: Fields, after: Fields)
    requires WellFormed(eval, ds) && NoOvertaking(ds, changed)
    requires ChangedOnly(before, after, changed) && NoTargetChanged(ds, changed)
    requires forall d :: d in ds ==> AtFixpoint(eval, before, d)
    ensures forall d :: d in ds ==> AtFixpoint(eval, Settle(eval, ds, changed, after).store, d)
  {
    var start := Progress(after, changed, [], []);
    forall d | d in ds
      ensures AtFixpoint(eval, after, d) || Touched(d, changed)
    {
      if !Touched(d, changed) {
        forall i | 0 <= i < |d.dependencies|
          ensures GetPath(after, d.dependencies[i]) == GetPath(before, d.dependencies[i])
        {
        }
      }
    }
    RoundsReachFixpoint(eval, ds, changed, Writers(ds, Rounds(eval, ds, start).operations), 0, start);
  }

  // ---- levels ----------------------------------------------------------------------------------------------------

  /** Every edge raises the level by one, and the changed paths feed level zero only. */
  ghost predicate Levelled(ds: seq<Derivation>, changed: seq<string>, level: map<string, nat>) {
    && (forall d :: d in ds ==> d.id in level)
    && (forall p, d :: p in ds && d in ds && Feeds(p, d) ==> level[d.id] == level[p.id] + 1)
    && (forall d :: d in ds && Touched(d, changed) ==> level[d.id] == 0)
  }

  lemma {:induction false} WaveIsLevel(ds: seq<Derivation>, changed: seq<string>, level: map<string, nat>,
      movers: set<string>, round: nat, d: Derivation)
    requires UniqueIds(ds) && Levelled(ds, changed, level) && d in ds
    requires d.id in Wave(ds, changed, movers, round)
    ensures level[d.id] == round
    decreases round
  {
    hide Touched, Feeds, UniqueIds;
    if round == 0 {
      var e :| e in ds && Touched(e, changed) && e.id == d.id;
    } else {
      var e :| e in ds && e.id == d.id && FedBy(e, ds, Wave(ds, changed, movers, round - 1) * movers);
      var p :| p in ds && p.id in Wave(ds, changed, movers, round - 1) * movers && Feeds(p, e);
      WaveIsLevel(ds, changed, level, movers, round - 1, p);
    }
  }

  /** A levelled relation is a case of it: each round evaluates within one level. */
  lemma LevelledMeansNoOvertaking(ds: seq<Derivation>, changed: seq<string>, level: map<string, nat>)
    requires UniqueIds(ds) && Levelled(ds, changed, level)
    ensures NoOvertaking(ds, changed)
  {
    forall movers, p, d, at: nat, read: nat | p in ds && d in ds && Feeds(p, d) && p.id in movers
      && p.id in Wave(ds, changed, movers, at) && d.id in Wave(ds, changed, movers, read)
      ensures at <= read
    {
      WaveIsLevel(ds, changed, level, movers, at, p);
      WaveIsLevel(ds, changed, level, movers, read, d);
    }
  }
}
