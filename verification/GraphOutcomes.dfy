/** What a run reports and what each operation leaves: the exact status, every outcome's share in the result,
    and the state of tokens, triggers and nodes (kernel/src/graph-runtime.ts:111-373, 464-473). */
module GraphOutcomes {
  import opened Json
  import opened Graphs
  import opened GraphSemantics
  import opened GraphFrames
  import opened GraphTermination
  import opened GraphDenotation
  import opened GraphEvaluation

  // ---- the status of a run ------------------------------------------------------------------------

  ghost predicate SomeReady(env: Env, s: State) {
    exists n :: n in env.graph.nodes && IsReady(s, n)
  }

  ghost predicate SomeSuspended(s: State) {
    exists id :: NodeOf(s, id).status.Suspended?
  }

  /** Yielded with a ready node left, awaiting with none ready but one suspended, quiescent with neither. */
  ghost predicate StatusExact(env: Env, t: State, result: Result) {
    && t.status == result.status
    && (result.status.Yielded? <==> SomeReady(env, t))
    && (result.status.AwaitingNode? <==> !SomeReady(env, t) && SomeSuspended(t))
    && (result.status.Quiescent? <==> !SomeReady(env, t) && !SomeSuspended(t))
    && (forall id :: id in result.readyNodes <==> exists n :: n in env.graph.nodes && IsReady(t, n) && n.id == id)
  }

  lemma ReadyListExact(env: Env, s: State)
    ensures ReadyNodes(env, s) == [] <==> !SomeReady(env, s)
    ensures forall id ::
        id in Ids(ReadyNodes(env, s))
        <==> exists n :: n in env.graph.nodes && IsReady(s, n) && n.id == id
  {
    hide IsReady, ReadyNodes;
    forall n
      ensures n in ReadyNodes(env, s) <==> n in env.graph.nodes && IsReady(s, n)
    {
      ReadyNodesExact(env, s, n);
    }
    var ready := ReadyNodes(env, s);
    if ready != [] {
      assert ready[0] in ready;
    }
    forall id
      ensures id in Ids(ready) <==> exists n :: n in env.graph.nodes && IsReady(s, n) && n.id == id
    {
      if id in Ids(ready) {
        var i :| 0 <= i < |ready| && ready[i].id == id;
        assert ready[i] in ready;
      }
      if n :| n in env.graph.nodes && IsReady(s, n) && n.id == id {
        var i :| 0 <= i < |ready| && ready[i] == n;
        assert Ids(ready)[i] == id;
      }
    }
  }

  lemma AtRestStatus(env: Env, s: State, r: Result)
    requires ReadyNodes(env, s) == []
    ensures var t := Settle(env.graph, s); StatusExact(env, t, r.(status := t.status, readyNodes := []))
  {
    hide IsReady, ReadyNodes;
    var t := Settle(env.graph, s);
    SettledHasNoReadyNode(env, s);
    ReadyListExact(env, t);
    assert AnySuspended(s) <==> SomeSuspended(t) by {
      if id :| id in s.nodes && s.nodes[id].status.Suspended? {
        assert NodeOf(t, id).status.Suspended?;
      }
    }
  }

  lemma YieldedStatus(env: Env, s: State, r: Result)
    requires ReadyNodes(env, s) != []
    ensures var t := s.(status := Yielded); StatusExact(env, t,
        r.(status := Yielded, readyNodes := Ids(ReadyNodes(env, s))))
  {
    hide ReadyNodes;
    var t := s.(status := Yielded);
    SameReadiness(env, s, t);
    ReadyListExact(env, t);
  }

  lemma SameReadiness(env: Env, s: State, t: State)
    requires t == s.(status := t.status)
    ensures (forall n :: IsReady(t, n) <==> IsReady(s, n)) && ReadyNodes(env, t) == ReadyNodes(env, s)
  {
    SameFilter(s, t, env.graph.nodes);
  }

  lemma {:induction false} SameFilter(s: State, t: State, nodes: seq<Node>)
    requires t == s.(status := t.status)
    ensures ReadyAmong(t, nodes) == ReadyAmong(s, nodes)
  {
    if nodes != [] {
      SameFilter(s, t, nodes[..|nodes| - 1]);
    }
  }

  /** The budget is respected, and only a spent budget makes a run yield. */
  ghost predicate BudgetExact(budget: Budget, r: Result, result: Result) {
    && (result.nodeExecutions <= budget.maxNodeExecutions || result.nodeExecutions == r.nodeExecutions)
    && (result.status.Yielded? ==>
          result.nodeExecutions >= budget.maxNodeExecutions || budget.maxPublications.Reached(result.publicationCount))
  }

  /** Every traversal that returns reports exactly what it left. */
  lemma {:induction false} TraversalStatus(env: Env, s: State, r: Result, budget: Budget)
    ensures var run := Traverse(env, s, r, budget);
            run.Done? ==> StatusExact(env, run.state, run.result) && BudgetExact(budget, r, run.result)
    decreases budget.maxNodeExecutions - r.nodeExecutions
  {
    hide StatusExact, ReadyNodes, RunNode;
    if ReadyNodes(env, s) == [] {
      AtRestStatus(env, s, r);
    } else if r.nodeExecutions >= budget.maxNodeExecutions || budget.maxPublications.Reached(r.publicationCount) {
      YieldedStatus(env, s, r);
    } else {
      var turn := TakeTurn(env, s, r);
      if turn.Turned? {
        TraversalStatus(env, turn.state, turn.result, budget);
      }
    }
  }

  // ---- who is suspended -----------------------------------------------------------------------------

  ghost predicate NeverSuspends(env: Env) {
    forall n, inputs, e :: n in env.graph.nodes ==> !env.exec(n, inputs, e).suspended
  }

  ghost predicate SameSuspended(s: State, t: State) {
    forall id :: NodeOf(t, id).status.Suspended? <==> NodeOf(s, id).status.Suspended?
  }

  lemma RunNodeSuspendsNone(env: Env, s: State, n: Node)
    requires NeverSuspends(env) && n in env.graph.nodes && IsReady(s, n) && RunNode(env, s, n).Stepped?
    ensures SameSuspended(s, RunNode(env, s, n).state)
  {
    hide RunNode;
    RunNodeFrame(env, s, n);
    var t := RunNode(env, s, n).state;
    forall id
      ensures NodeOf(t, id).status.Suspended? <==> NodeOf(s, id).status.Suspended?
    {
      if id != n.id {
        assert NodeOf(t, id) == NodeOf(s, id);
      }
    }
  }

  lemma {:induction false} TraverseSuspendsNone(env: Env, s: State, r: Result, budget: Budget)
    requires NeverSuspends(env)
    ensures var run := Traverse(env, s, r, budget); run.Done? ==> SameSuspended(s, run.state)
    decreases budget.maxNodeExecutions - r.nodeExecutions
  {
    hide ReadyNodes, RunNode, NeverSuspends;
    if ReadyNodes(env, s) != [] && r.nodeExecutions < budget.maxNodeExecutions
       && !budget.maxPublications.Reached(r.publicationCount) {
      ReadyHead(env, s);
      var n := ReadyNodes(env, s)[0];
      var turn := TakeTurn(env, s, r);
      if turn.Turned? {
        RunNodeSuspendsNone(env, s, n);
        TraverseSuspendsNone(env, turn.state, turn.result, budget);
      }
    }
  }

  /** With 2^N - 1 executions an acyclic graph without events or suspensions becomes quiescent. */
  lemma QuiescentWithinPow2(env: Env, rank: map<string, nat>, s: State, budget: Budget)
    requires Ranked(env.graph, rank) && EmitsNoEvents(env) && NeverSuspends(env) && !SomeSuspended(s)
    requires budget.maxPublications.Unlimited? && budget.maxNodeExecutions >= Pow2(|env.graph.nodes|) - 1
    ensures Resume(env, s, budget).Done? ==> Resume(env, s, budget).result.status == Quiescent
  {
    hide Ranked, EmitsNoEvents, NeverSuspends, Traverse;
    TerminatesWithinPow2(env, rank, s, budget);
    TraversalStatus(env, s, StartResult(map[], 0), budget);
    TraverseSuspendsNone(env, s, StartResult(map[], 0), budget);
  }

  // ---- acyclic graphs are evaluated, whatever is done to them -----------------------------------------

  /** Enough for any run of the graph. */
  predicate Ample(g: Graph, budget: Budget) {
    budget.maxPublications.Unlimited? && budget.maxNodeExecutions >= Pow2(|g.nodes|) - 1
  }

  lemma PerformSuspendsNone(env: Env, s: State, op: Operation)
    requires Regular(env) && Consistent(env, s) && Justified(env, s) && External(env.graph, op) && NeverSuspends(env)
    ensures SameSuspended(s, Perform(env, s, op).state)
  {
    hide Traverse, Consistent, Justified, Regular, NeverSuspends;
    PerformKeepsConsistent(env, s, op);
    match op
    case DoPublish(values, budget) =>
      var seeded := PublishValues(env.graph, s, values);
      SeedingKeepsNodes(env.graph, s, values);
      TraverseSuspendsNone(env, seeded.state, StartResult(seeded.publications, seeded.count), budget);
    case DoStart(budget) =>
      var hit := set n | n in env.graph.nodes && n.trigger.OnStartup? :: n.id;
      TraverseSuspendsNone(env, s.(triggered := s.triggered + hit), StartResult(map[], 0), budget);
    case DoDispatch(event, budget) =>
      TriggerAmongFrame(env.graph.nodes, s, event);
      TraverseSuspendsNone(env, TriggerEvent(env.graph, s, event), StartResult(map[], 0), budget);
    case DoActivate(id, budget) =>
      TraverseSuspendsNone(env, s.(triggered := s.triggered + {id}), StartResult(map[], 0), budget);
    case DoResume(budget) =>
      TraverseSuspendsNone(env, s, StartResult(map[], 0), budget);
  }

  lemma {:induction false} SeedingKeepsNodes(g: Graph, s: State, values: seq<(string, Json)>)
    ensures PublishValues(g, s, values).state.nodes == s.nodes
  {
    if values != [] {
      SeedingKeepsNodes(g, s, values[..|values| - 1]);
    }
  }

  lemma {:induction false} HistorySuspendsNone(env: Env, history: seq<Operation>)
    requires Regular(env) && AllExternal(env.graph, history) && NeverSuspends(env)
    ensures !SomeSuspended(After(env, history))
  {
    hide Perform, Regular, NeverSuspends;
    if history == [] {
      assert forall id :: NodeOf(Initial(env.graph), id) == NodeState(Idle, map[]);
    } else {
      var rest := history[..|history| - 1];
      HistorySuspendsNone(env, rest);
      HistoryConsistent(env, rest);
      HistoryJustified(env, rest);
      PerformSuspendsNone(env, After(env, rest), history[|history| - 1]);
    }
  }

  /** An operation with an ample budget ends quiescent. */
  lemma AmpleIsQuiescent(env: Env, rank: map<string, nat>, s: State, op: Operation)
    requires Regular(env) && Ranked(env.graph, rank) && EmitsNoEvents(env) && NeverSuspends(env)
    requires Consistent(env, s) && Justified(env, s) && External(env.graph, op) && !SomeSuspended(s)
    requires Ample(env.graph, op.budget)
    ensures Perform(env, s, op).Done? && Perform(env, s, op).result.status == Quiescent
  {
    hide Traverse, Consistent, Justified, Regular, Ranked, EmitsNoEvents, NeverSuspends, StatusExact;
    PerformKeepsConsistent(env, s, op);
    PerformSuspendsNone(env, s, op);
    var t, r := PerformTraverses(env, s, op);
    TraversalStatus(env, t, r, op.budget);
    WeightBound(env, rank, t, 0);
    TraversalWithinWeight(env, rank, t, r, op.budget);
    StatusSaysQuiescent(env, Perform(env, s, op).state, Perform(env, s, op).result);
  }

  lemma StatusSaysQuiescent(env: Env, t: State, result: Result)
    requires StatusExact(env, t, result) && !SomeSuspended(t) && result.status != Yielded
    ensures result.status == Quiescent
  {
  }

  /** No status is assumed: after any history, every operation with an ample budget on an acyclic graph of nodes
      that neither emit events nor suspend ends quiescent, with every token at its evaluation. */
  lemma AcyclicRunsEvaluate(env: Env, rank: map<string, nat>, history: seq<Operation>, op: Operation, token: string)
    requires Regular(env) && Ranked(env.graph, rank) && EmitsNoEvents(env) && NeverSuspends(env)
    requires AllExternal(env.graph, history) && External(env.graph, op) && Ample(env.graph, op.budget)
    ensures var run := Perform(env, After(env, history), op);
            && run.Done? && run.result.status == Quiescent
            && ValueOf(run.state, token)
               == Eval(env, rank, ExternalValues(env.graph, run.state),
                       ArmedBy(env.graph, history) + Arms(env.graph, op), token)
  {
    hide Perform, Regular, Ranked, EmitsNoEvents, NeverSuspends, AllExternal, External, Eval;
    HistoryConsistent(env, history);
    HistoryJustified(env, history);
    HistorySuspendsNone(env, history);
    AmpleIsQuiescent(env, rank, After(env, history), op);
    QuiescenceIsEvaluationOfHistory(env, rank, history, op, token);
  }

  // ---- what the executions contribute -------------------------------------------------------------------

  datatype Execution = Execution(node: Node, inputs: map<string, Json>, event: Option<Event>, outcome: Outcome)

  function ExecutionOf(env: Env, s: State, n: Node): Execution {
    Execution(n, ReadInputs(s, n), EventFor(s, n), OutcomeOf(env, s, n))
  }

  /** The executions of a traversal that returns, in order. */
  function Executions(env: Env, s: State, r: Result, budget: Budget): seq<Execution>
    decreases budget.maxNodeExecutions - r.nodeExecutions
  {
    if ReadyNodes(env, s) == [] || r.nodeExecutions >= budget.maxNodeExecutions
       || budget.maxPublications.Reached(r.publicationCount)
    then []
    else
      var first := ExecutionOf(env, s, ReadyNodes(env, s)[0]);
      match TakeTurn(env, s, r)
      case Broke(_, _, _) => [first]
      case Turned(s', r') => [first] + Executions(env, s', r', budget)
  }

  function Flatten<T>(lists: seq<seq<T>>): seq<T> {
    if lists == [] then [] else lists[0] + Flatten(lists[1..])
  }

  /** One list of every outcome. */
  function Each<T>(executions: seq<Execution>, list: Outcome -> seq<T>): seq<seq<T>> {
    seq(|executions|, i requires 0 <= i < |executions| => list(executions[i].outcome))
  }

  lemma FlattenEach<T>(first: Execution, rest: seq<Execution>, list: Outcome -> seq<T>, before: seq<T>)
    ensures before + Flatten(Each([first] + rest, list)) == (before + list(first.outcome)) + Flatten(Each(rest, list))
  {
    assert Each([first] + rest, list) == [list(first.outcome)] + Each(rest, list);
    assert ([list(first.outcome)] + Each(rest, list))[1..] == Each(rest, list);
    assert before + (list(first.outcome) + Flatten(Each(rest, list)))
        == (before + list(first.outcome)) + Flatten(Each(rest, list));
  }

  /** The result holds the operations, effects, events and program steps of all outcomes, in order, each once. */
  ghost predicate Collects(r: Result, executions: seq<Execution>, result: Result) {
    && result.operations == r.operations + Flatten(Each(executions, (o: Outcome) => o.operations))
    && result.effects == r.effects + Flatten(Each(executions, (o: Outcome) => o.effects))
    && result.events == r.events + Flatten(Each(executions, (o: Outcome) => o.events))
    && result.program == r.program + Flatten(Each(executions, (o: Outcome) => o.program))
    && result.nodeExecutions == r.nodeExecutions + |executions|
  }

  lemma CollectsNothing(r: Result, result: Result)
    requires result == r.(status := result.status, readyNodes := result.readyNodes)
    ensures Collects(r, [], result)
  {
  }

  lemma CollectsFirst(r: Result, first: Execution, rest: seq<Execution>, publications: map<string, Json>, count: nat,
      result: Result)
    requires Collects(AddStep(r, first.outcome, publications, count), rest, result)
    ensures Collects(r, [first] + rest, result)
  {
    FlattenEach(first, rest, (o: Outcome) => o.operations, r.operations);
    FlattenEach(first, rest, (o: Outcome) => o.effects, r.effects);
    FlattenEach(first, rest, (o: Outcome) => o.events, r.events);
    FlattenEach(first, rest, (o: Outcome) => o.program, r.program);
    hide Flatten, Each;
  }

  lemma {:induction false} ResultCollects(env: Env, s: State, r: Result, budget: Budget)
    ensures var run := Traverse(env, s, r, budget);
            run.Done? ==> Collects(r, Executions(env, s, r, budget), run.result)
    decreases budget.maxNodeExecutions - r.nodeExecutions
  {
    hide Collects, ReadyNodes, RunNode, AddStep;
    var run := Traverse(env, s, r, budget);
    if ReadyNodes(env, s) == [] || r.nodeExecutions >= budget.maxNodeExecutions
       || budget.maxPublications.Reached(r.publicationCount) {
      if run.Done? {
        CollectsNothing(r, run.result);
      }
    } else {
      var n := ReadyNodes(env, s)[0];
      match RunNode(env, s, n)
      case StepThrew(_, _) =>
      case Stepped(s', publications, count) =>
        var next := AddStep(r, OutcomeOf(env, s, n), publications, count);
        ResultCollects(env, s', next, budget);
        if run.Done? {
          CollectsFirst(r, ExecutionOf(env, s, n), Executions(env, s', next, budget), publications, count, run.result);
        }
    }
  }
}
