/** Yield and resume are transparent: splitting a run by its budget and merging the two results gives the
    uninterrupted run (kernel/src/graph-runtime.ts:170-172, 239-314; kernel/src/kernel.ts:717-731). */
module GraphResume {
  import opened Json
  import opened Graphs
  import opened GraphSemantics
  import opened GraphFrames

  /** Kernel.mergeGraphResults. */
  function MergeGraphResults(first: Result, second: Result): Result {
    Result(
      second.status,
      first.publications + second.publications,
      first.operations + second.operations,
      first.effects + second.effects,
      first.events + second.events,
      first.program + second.program,
      second.readyNodes,
      first.nodeExecutions + second.nodeExecutions,
      first.publicationCount + second.publicationCount)
  }

  /** A turn adds to the result without looking at it. */
  lemma MergeThenTurn(env: Env, s: State, a: Result, b: Result)
    requires ReadyNodes(env, s) != []
    ensures TakeTurn(env, s, MergeGraphResults(a, b)) == match TakeTurn(env, s, b)
              case Broke(s', node, output) => Broke(s', node, output)
              case Turned(s', b') => Turned(s', MergeGraphResults(a, b'))
  {
    var n := ReadyNodes(env, s)[0];
    var outcome := OutcomeOf(env, s, n);
    match RunNode(env, s, n)
    case StepThrew(_, _) =>
    case Stepped(_, publications, count) => MergeThenStep(a, b, outcome, publications, count);
  }

  lemma MergeThenStep(a: Result, b: Result, outcome: Outcome, publications: map<string, Json>, count: nat)
    ensures AddStep(MergeGraphResults(a, b), outcome, publications, count)
         == MergeGraphResults(a, AddStep(b, outcome, publications, count))
  {
    assert (a.publications + b.publications) + publications == a.publications + (b.publications + publications);
    assert (a.operations + b.operations) + outcome.operations == a.operations + (b.operations + outcome.operations);
    assert (a.effects + b.effects) + outcome.effects == a.effects + (b.effects + outcome.effects);
    assert (a.events + b.events) + outcome.events == a.events + (b.events + outcome.events);
    assert (a.program + b.program) + outcome.program == a.program + (b.program + outcome.program);
  }

  lemma MergeWithStart(a: Result)
    ensures MergeGraphResults(a, StartResult(map[], 0)) == a.(status := Quiescent, readyNodes := [])
  {
    var m := MergeGraphResults(a, StartResult(map[], 0));
    assert m.publications == a.publications && m.operations == a.operations && m.effects == a.effects;
    assert m.events == a.events && m.program == a.program;
  }

  /** The status a traversal starts from leaves no trace, in the state or in the result. */
  lemma {:induction false} StartStatusIrrelevant(env: Env, s: State, t: State, r: Result, q: Result, budget: Budget)
    requires t == s.(status := t.status)
    requires q == r.(status := q.status, readyNodes := q.readyNodes)
    ensures var a := Traverse(env, s, r, budget);
            var b := Traverse(env, t, q, budget);
            if a.Done? then a == b else b.Threw? && b.node == a.node && b.output == a.output
    decreases budget.maxNodeExecutions - r.nodeExecutions
  {
    SameReadyNodes(env, s, t);
    if ReadyNodes(env, s) != []
       && r.nodeExecutions < budget.maxNodeExecutions && !budget.maxPublications.Reached(r.publicationCount)
    {
      StatusIrrelevantToTurn(env, s, t, r, q);
      hide TakeTurn, ReadyNodes;
      var a, b := TakeTurn(env, s, r), TakeTurn(env, t, q);
      if a.Turned? {
        StartStatusIrrelevant(env, a.state, b.state, a.result, b.result, budget);
      }
    }
  }

  lemma StatusIrrelevantToTurn(env: Env, s: State, t: State, r: Result, q: Result)
    requires t == s.(status := t.status)
    requires q == r.(status := q.status, readyNodes := q.readyNodes)
    requires ReadyNodes(env, s) != []
    ensures ReadyNodes(env, t) != []
    ensures TakeTurn(env, t, q) == match TakeTurn(env, s, r)
              case Broke(s', node, output) => Broke(s'.(status := t.status), node, output)
              case Turned(s', r') => Turned(s'.(status := t.status),
                  r'.(status := q.status, readyNodes := q.readyNodes))
  {
    SameReadyNodes(env, s, t);
    StatusIrrelevantToNode(env, s, t, ReadyNodes(env, s)[0]);
  }

  lemma SameReadyNodes(env: Env, s: State, t: State)
    requires t == s.(status := t.status)
    ensures ReadyNodes(env, s) == ReadyNodes(env, t)
  {
    SameReadyAmong(s, t, env.graph.nodes);
  }

  lemma {:induction false} SameReadyAmong(s: State, t: State, nodes: seq<Node>)
    requires t == s.(status := t.status)
    ensures ReadyAmong(s, nodes) == ReadyAmong(t, nodes)
  {
    if nodes != [] {
      SameReadyAmong(s, t, nodes[..|nodes| - 1]);
      var n := nodes[|nodes| - 1];
      assert forall token :: TokenOf(s, token) == TokenOf(t, token);
      assert IsReady(s, n) == IsReady(t, n);
    }
  }

  lemma StatusIrrelevantToNode(env: Env, s: State, t: State, n: Node)
    requires t == s.(status := t.status)
    ensures OutcomeOf(env, s, n) == OutcomeOf(env, t, n)
    ensures RunNode(env, t, n) == match RunNode(env, s, n)
                                  case Stepped(s', p, c) => Stepped(s'.(status := t.status), p, c)
                                  case StepThrew(s', name) => StepThrew(s'.(status := t.status), name)
  {
    SameReads(s, t, n);
    hide ReadInputs, Capture, TriggerEvents, PublishOutputs, TokenOf;
    var outcome := OutcomeOf(env, s, n);
    var begun := Begin(s, n);
    var untriggered := begun.(triggered := begun.triggered - {n.id}, eventByNode := begun.eventByNode - {n.id});
    StatusIrrelevantToEvents(env.graph, untriggered, t.status, outcome.events);
    StatusIrrelevantToOutputs(env.graph, n, AfterExecution(env, s, n), t.status, outcome.outputs);
  }

  lemma SameReads(s: State, t: State, n: Node)
    requires t == s.(status := t.status)
    ensures ReadInputs(s, n) == ReadInputs(t, n) && Capture(s, n) == Capture(t, n)
  {
  }

  lemma {:induction false} StatusIrrelevantToEvents(g: Graph, s: State, status: Status, events: seq<Event>)
    ensures TriggerEvents(g, s.(status := status), events) == TriggerEvents(g, s, events).(status := status)
  {
    if events != [] {
      var rest := events[..|events| - 1];
      StatusIrrelevantToEvents(g, s, status, rest);
      StatusIrrelevantToTriggers(g.nodes, TriggerEvents(g, s, rest), status, events[|events| - 1]);
    }
  }

  lemma {:induction false} StatusIrrelevantToTriggers(nodes: seq<Node>, s: State, status: Status, e: Event)
    ensures TriggerAmong(nodes, s.(status := status), e) == TriggerAmong(nodes, s, e).(status := status)
  {
    if nodes != [] {
      StatusIrrelevantToTriggers(nodes[..|nodes| - 1], s, status, e);
    }
  }

  lemma {:induction false} StatusIrrelevantToOutputs(g: Graph, n: Node, s: State, status: Status,
      outputs: seq<(string, Json)>)
    ensures PublishOutputs(g, n, s.(status := status), outputs) == match PublishOutputs(g, n, s, outputs)
              case AllPublished(s', p, c) => AllPublished(s'.(status := status), p, c)
              case Undeclared(s', name) => Undeclared(s'.(status := status), name)
  {
    if outputs != [] {
      StatusIrrelevantToOutputs(g, n, s, status, outputs[..|outputs| - 1]);
    }
  }

  /** A run that already produced `a` goes on exactly as a fresh run would, with `a` in front. */
  lemma {:induction false} HistoryOnlyPrefixes(env: Env, s: State, a: Result, b: Result, m: nat)
    ensures var total := Traverse(env, s, MergeGraphResults(a, b), Budget(a.nodeExecutions + m, Unlimited));
            var rest := Traverse(env, s, b, Budget(m, Unlimited));
            if rest.Threw? then total == rest
            else total == Done(rest.state, MergeGraphResults(a, rest.result))
    decreases m - b.nodeExecutions
  {
    if ReadyNodes(env, s) != [] && b.nodeExecutions < m {
      MergeThenTurn(env, s, a, b);
      hide TakeTurn, ReadyNodes;
      var turn := TakeTurn(env, s, b);
      if turn.Turned? {
        HistoryOnlyPrefixes(env, turn.state, a, turn.result, m);
      }
    }
  }

  lemma TraverseOneTurn(env: Env, s: State, r: Result, budget: Budget)
    requires ReadyNodes(env, s) != [] && r.nodeExecutions < budget.maxNodeExecutions
        && budget.maxPublications.Unlimited?
    ensures var turn := TakeTurn(env, s, r);
            Traverse(env, s, r, budget) == if turn.Turned? then Traverse(env, turn.state, turn.result, budget)
                                           else Threw(turn.state, turn.node, turn.output)
  {
  }

  /** `whole` is `first` followed by a resumed run of at most m nodes. */
  ghost predicate Splits(env: Env, whole: Run, first: Run, m: nat) {
    if first.Threw? then whole == first
    else
      var second := Resume(env, first.state, Budget(m, Unlimited));
      if second.Threw? then whole.Threw? && whole.node == second.node && whole.output == second.output
      else whole == Done(second.state, MergeGraphResults(first.result, second.result))
  }

  lemma SplitAtRest(env: Env, s: State, r: Result, k: nat, m: nat)
    requires ReadyNodes(env, s) == []
    ensures Splits(env, Traverse(env, s, r, Budget(k + m, Unlimited)), Traverse(env, s, r, Budget(k, Unlimited)), m)
  {
    SettledHasNoReadyNode(env, s);
    MergeWithStart(Traverse(env, s, r, Budget(k, Unlimited)).result);
  }

  /** The part of the whole run after the yield, seen from the yielded state. */
  lemma ContinuesAs(env: Env, s: State, r: Result, a: Result, m: nat)
    requires a == r.(status := Yielded, readyNodes := a.readyNodes)
    ensures var whole := Traverse(env, s, r, Budget(r.nodeExecutions + m, Unlimited));
            var second := Resume(env, s.(status := Yielded), Budget(m, Unlimited));
            if second.Threw? then whole.Threw? && whole.node == second.node && whole.output == second.output
            else whole == Done(second.state, MergeGraphResults(a, second.result))
  {
    var start := StartResult(map[], 0);
    MergeWithStart(a);
    var merged := MergeGraphResults(a, start);
    var whole := Traverse(env, s, r, Budget(r.nodeExecutions + m, Unlimited));
    var behind := Traverse(env, s, merged, Budget(r.nodeExecutions + m, Unlimited));
    assert if whole.Done? then whole == behind else
        behind.Threw? && behind.node == whole.node
        && behind.output == whole.output by {
      StartStatusIrrelevant(env, s, s, r, merged, Budget(r.nodeExecutions + m, Unlimited));
    }
    var rest := Traverse(env, s, start, Budget(m, Unlimited));
    assert if rest.Threw? then behind == rest else behind == Done(rest.state, MergeGraphResults(a, rest.result)) by {
      HistoryOnlyPrefixes(env, s, a, start, m);
    }
    var second := Traverse(env, s.(status := Yielded), start, Budget(m, Unlimited));
    assert if rest.Done? then rest == second else
        second.Threw? && second.node == rest.node
        && second.output == rest.output by {
      StartStatusIrrelevant(env, s, s.(status := Yielded), start, start, Budget(m, Unlimited));
    }
  }

  lemma SplitAtYield(env: Env, s: State, r: Result, m: nat)
    requires ReadyNodes(env, s) != []
    ensures Splits(env, Traverse(env, s, r, Budget(r.nodeExecutions + m, Unlimited)),
                        Traverse(env, s, r, Budget(r.nodeExecutions, Unlimited)), m)
  {
    var yielded := r.(status := Yielded, readyNodes := Ids(ReadyNodes(env, s)));
    assert Traverse(env, s, r, Budget(r.nodeExecutions, Unlimited)) == Done(s.(status := Yielded), yielded);
    ContinuesAs(env, s, r, yielded, m);
  }

  /** Running k nodes, then m more in a resumed run, is running k + m nodes. */
  lemma {:induction false} SplitRun(env: Env, s: State, r: Result, k: nat, m: nat)
    requires r.nodeExecutions <= k
    ensures Splits(env, Traverse(env, s, r, Budget(k + m, Unlimited)), Traverse(env, s, r, Budget(k, Unlimited)), m)
    decreases k - r.nodeExecutions
  {
    hide *;
    if ReadyNodes(env, s) == [] {
      SplitAtRest(env, s, r, k, m);
    } else if r.nodeExecutions == k {
      SplitAtYield(env, s, r, m);
    } else {
      TraverseOneTurn(env, s, r, Budget(k + m, Unlimited));
      TraverseOneTurn(env, s, r, Budget(k, Unlimited));
      var turn := TakeTurn(env, s, r);
      if turn.Turned? {
        SplitRun(env, turn.state, turn.result, k, m);
      } else {
        SplitAtThrow(env, s, r, k, m);
      }
    }
  }

  lemma SplitAtThrow(env: Env, s: State, r: Result, k: nat, m: nat)
    requires r.nodeExecutions < k && ReadyNodes(env, s) != [] && TakeTurn(env, s, r).Broke?
    ensures Splits(env, Traverse(env, s, r, Budget(k + m, Unlimited)), Traverse(env, s, r, Budget(k, Unlimited)), m)
  {
  }

  /** A finite publication limit that the run stays under has no effect. */
  lemma {:induction false} LimitNotReached(env: Env, s: State, r: Result, k: nat, limit: nat)
    requires var run := Traverse(env, s, r, Budget(k, Unlimited));
             run.Done? && run.result.publicationCount < limit
    ensures Traverse(env, s, r, Budget(k, AtMost(limit))) == Traverse(env, s, r, Budget(k, Unlimited))
    ensures Traverse(env, s, r, Budget(k, Unlimited)).result.publicationCount >= r.publicationCount
    decreases k - r.nodeExecutions
  {
    hide TakeTurn, ReadyNodes;
    if ReadyNodes(env, s) != [] && r.nodeExecutions < k {
      var turn := TakeTurn(env, s, r);
      LimitNotReached(env, turn.state, turn.result, k, limit);
    }
  }

  /** The transparency theorem for a publication, under any publication limit the whole run stays below:
      the default of 10 000 included. */
  lemma YieldResumeTransparent(env: Env, s: State, values: seq<(string, Json)>, k: nat, m: nat, limit: nat)
    requires var run := Publish(env, s, values, Budget(k + m, Unlimited));
             run.Done? && run.result.publicationCount < limit
    ensures var whole := Publish(env, s, values, Budget(k + m, AtMost(limit)));
            var first := Publish(env, s, values, Budget(k, AtMost(limit)));
            && whole.Done? && first.Done?
            && var second := Resume(env, first.state, Budget(m, AtMost(limit)));
               && second.Done?
               && whole.state == second.state
               && whole.result == MergeGraphResults(first.result, second.result)
  {
    hide Traverse, PublishValues;
    var seeded := PublishValues(env.graph, s, values);
    var r := StartResult(seeded.publications, seeded.count);
    SplitRun(env, seeded.state, r, k, m);
    LimitNotReached(env, seeded.state, r, k + m, limit);
    LimitNotReached(env, seeded.state, r, k, limit);
    var first := Traverse(env, seeded.state, r, Budget(k, Unlimited));
    LimitNotReached(env, first.state, StartResult(map[], 0), m, limit);
  }
}
