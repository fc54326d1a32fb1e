/** The runtime object of kernel/src/graph-runtime.ts: every method updates the fields in the order the
    source does and leaves exactly the state its semantic function gives. */
module GraphRuntime {
  import opened Json
  import opened Graphs
  import opened GraphSemantics
  import Semantics = GraphSemantics
  import GraphMutations

  class ContinuousGraphRuntime {
    const exec: Executor
    const collate: string -> real
    var graph: Graph
    var topologyVersion: nat
    var tokens: map<string, Token>
    var nodes: map<string, NodeState>
    var triggered: set<string>
    var eventByNode: map<string, Event>
    var lastStatus: Status

    function TheEnv(): Env
      reads this`graph
    {
      Env(graph, exec, collate)
    }

    function TheState(): State
      reads this
    {
      State(tokens, nodes, triggered, eventByNode, lastStatus)
    }

    /** The constructed object is usable exactly when `reindex` did not throw. */
    static method Create(graph: Graph, exec: Executor, collate: string -> real)
      returns (ok: bool, runtime: ContinuousGraphRuntime)
      ensures fresh(runtime)
      ensures ok <==> graph.UniqueIds()
      ensures ok ==> runtime.TheEnv() == Env(graph, exec, collate)
      ensures ok ==> runtime.TheState() == Initial(graph) && runtime.topologyVersion == 0
    {
      runtime := new ContinuousGraphRuntime(graph, exec, collate);
      ok := runtime.Reindex();
    }

    constructor (graph: Graph, exec: Executor, collate: string -> real)
      ensures TheEnv() == Env(graph, exec, collate)
      ensures TheState() == EMPTY && topologyVersion == 0
    {
      this.graph, this.exec, this.collate := graph, exec, collate;
      topologyVersion := 0;
      tokens, nodes, triggered, eventByNode, lastStatus := map[], map[], {}, map[], Quiescent;
    }

    /** Refused at the first repeated id, with the nodes before it already ensured. */
    method Reindex() returns (ok: bool)
      modifies this`tokens, this`nodes
      ensures ok <==> graph.UniqueIds()
      ensures ok ==> TheState() == Semantics.Reindex(graph, old(TheState()))
      ensures !ok ==> exists k: nat ::
          FirstRepeat(graph.nodes, k)
          && TheState() == EnsureAll(old(TheState()), graph.nodes[..k])
    {
      hide DeclaredTokens, NodeIds, EnsureAll, FirstRepeat;
      ghost var before := TheState();
      var ids: set<string>;
      ok, ids := EnsureNodes();
      if ok {
        var s := TheState();
        tokens := (map token | token in DeclaredTokens(graph) :: TokenOf(s, token)) + tokens;
        nodes := map id | id in ids :: NodeOf(s, id);
        ReindexedFrom(graph, before);
      }
    }

    /** Walks the nodes, refusing a repeated id; a node met for the first time starts idle. */
    method EnsureNodes() returns (ok: bool, ids: set<string>)
      modifies this`tokens, this`nodes
      ensures ok <==> graph.UniqueIds()
      ensures ok ==> ids == NodeIds(graph.nodes) && TheState() == EnsureAll(old(TheState()), graph.nodes)
      ensures !ok ==> exists k: nat ::
          FirstRepeat(graph.nodes, k)
          && TheState() == EnsureAll(old(TheState()), graph.nodes[..k])
    {
      hide NodeTokens, TokenOf, Distinct, NodeIds, EnsureAll, Ensure;
      ids := {};
      ghost var s := TheState();
      NoneEnsured(s);
      for i := 0 to |graph.nodes|
        invariant ids == NodeIds(graph.nodes[..i]) && Distinct(graph.nodes[..i])
        invariant TheState() == EnsureAll(s, graph.nodes[..i])
        modifies this`tokens, this`nodes
      {
        var n := graph.nodes[i];
        EnsureStep(s, graph.nodes, i);
        if n.id in ids {
          RepeatedId(graph, i);
          return false, ids;
        }
        ids := ids + {n.id};
        DistinctStep(graph.nodes, i);
        if n.id !in nodes {
          nodes := nodes[n.id := NodeState(Idle, map[])];
        }
        ghost var t := TheState();
        tokens := (map token | token in NodeTokens(n) :: if token in tokens then tokens[token] else ABSENT) + tokens;
        TokensEnsured(EnsureAll(s, graph.nodes[..i]), n, t, TheState());
      }
      assert graph.nodes[..|graph.nodes|] == graph.nodes;
      DistinctIsUnique(graph);
      ok := true;
    }

    /** Live topology mutation.  A throw inside `applyGraphMutations` changes nothing; one inside
        `reindex` (two nodes with one id) comes after the graph was replaced. */
    method Mutate(mutations: seq<GraphMutations.Mutation>) returns (ok: bool)
      modifies this`graph, this`topologyVersion, this`tokens, this`nodes
      ensures var next := GraphMutations.MutateAll(old(graph), mutations);
              if next.None? then !ok && graph == old(graph) && TheState() == old(TheState())
              else
                && graph == next.value
                && topologyVersion == old(topologyVersion) + 1
                && (ok <==> next.value.UniqueIds())
                && (ok ==> TheState() == Semantics.Reindex(graph, old(TheState())))
                && (!ok ==> exists k: nat ::
                      FirstRepeat(graph.nodes, k) && TheState() == EnsureAll(old(TheState()), graph.nodes[..k]))
    {
      hide EnsureAll, FirstRepeat;
      var next := GraphMutations.ApplyGraphMutations(graph, mutations);
      if next.None? {
        return false;
      }
      graph := next.value;
      topologyVersion := topologyVersion + 1;
      ok := Reindex();
    }

    method PublishToken(token: string, value: Json, producer: Option<string>, mode: PortMode) returns (changed: bool)
      modifies this`tokens
      ensures changed == Changes(old(TheState()), token, value, mode)
      ensures TheState() == Semantics.PublishToken(old(TheState()), token, value, producer, mode)
    {
      if token !in tokens {
        tokens := tokens[token := ABSENT];
      }
      var state := tokens[token];
      if mode.ValueMode? && state.available && state.value == Some(value) {
        return false;
      }
      tokens := tokens[token := NextToken(state, value, producer, mode)];
      changed := true;
    }

    method PublishValues(values: seq<(string, Json)>) returns (publications: map<string, Json>, count: nat)
      modifies this`tokens
      ensures Published(TheState(), publications, count) == Semantics.PublishValues(graph, old(TheState()), values)
    {
      publications, count := map[], 0;
      for i := 0 to |values|
        invariant Published(TheState(), publications, count)
               == Semantics.PublishValues(graph, old(TheState()), values[..i])
        modifies this`tokens
      {
        assert values[..i + 1][..i] == values[..i];
        var (token, value) := values[i];
        var changed := PublishToken(token, value, None, graph.PortModeOf(token));
        if changed {
          publications, count := publications[token := value], count + 1;
        }
      }
      assert values[..|values|] == values;
    }

    method PublishOutputs(n: Node, outputs: seq<(string, Json)>) returns (r: Outputs)
      modifies this`tokens
      ensures r == Semantics.PublishOutputs(graph, n, old(TheState()), outputs)
      ensures r.state == TheState()
    {
      r := AllPublished(TheState(), map[], 0);
      for i := 0 to |outputs|
        invariant r == Semantics.PublishOutputs(graph, n, old(TheState()), outputs[..i])
        invariant r.AllPublished? && r.state == TheState()
        modifies this`tokens
      {
        assert outputs[..i + 1][..i] == outputs[..i];
        var (name, value) := outputs[i];
        if name !in n.outputs {
          r := Undeclared(TheState(), name);
          UndeclaredStays(graph, n, old(TheState()), outputs, i + 1);
          return;
        }
        var port := n.outputs[name];
        var changed := PublishToken(port.token, value, Some(n.id), OutputMode(graph, port));
        r := if changed then AllPublished(TheState(), r.publications[port.token := value], r.count + 1)
             else AllPublished(TheState(), r.publications, r.count);
      }
      assert outputs[..|outputs|] == outputs;
    }

    method TriggerEvent(e: Event)
      modifies this`triggered, this`eventByNode
      ensures TheState() == Semantics.TriggerEvent(graph, old(TheState()), e)
    {
      for i := 0 to |graph.nodes|
        invariant TheState() == TriggerAmong(graph.nodes[..i], old(TheState()), e)
        modifies this`triggered, this`eventByNode
      {
        var n := graph.nodes[i];
        assert graph.nodes[..i + 1][..i] == graph.nodes[..i];
        if Matches(n, e) {
          triggered := triggered + {n.id};
          eventByNode := eventByNode[n.id := e];
        }
      }
      assert graph.nodes[..|graph.nodes|] == graph.nodes;
    }

    method ClearSignals()
      modifies this`tokens
      ensures TheState() == Semantics.ClearSignals(graph, old(TheState()))
    {
      tokens := map token | token in tokens
        :: if graph.PortModeOf(token).SignalMode? then tokens[token].(available := false) else tokens[token];
    }

    /** The evaluation loop, with the executor as the only source of outcomes. */
    method Traverse(publications: map<string, Json>, count: nat, budget: Budget) returns (run: Run)
      modifies this`tokens, this`nodes, this`triggered, this`eventByNode, this`lastStatus
      ensures run == Semantics.Traverse(TheEnv(), old(TheState()), StartResult(publications, count), budget)
      ensures TheState() == run.state
    {
      var r := StartResult(publications, count);
      while true
        invariant Semantics.Traverse(TheEnv(), TheState(), r, budget)
               == Semantics.Traverse(TheEnv(), old(TheState()), StartResult(publications, count), budget)
        modifies this`tokens, this`nodes, this`triggered, this`eventByNode, this`lastStatus
        decreases budget.maxNodeExecutions - r.nodeExecutions
      {
        var ready := ReadyNow();
        if ready == [] {
          lastStatus := if exists id :: id in nodes && nodes[id].status.Suspended? then AwaitingNode else Quiescent;
          ClearSignals();
          return Done(TheState(), r.(status := lastStatus, readyNodes := []));
        }
        if r.nodeExecutions >= budget.maxNodeExecutions || budget.maxPublications.Reached(r.publicationCount) {
          lastStatus := Yielded;
          return Done(TheState(), r.(status := Yielded, readyNodes := Ids(ready)));
        }
        var n := ready[0];
        ghost var turn := TakeTurn(TheEnv(), TheState(), r);
        var step, outcome := RunNode(n);
        if step.StepThrew? {
          assert turn == Broke(TheState(), n.id, step.output);
          return Threw(TheState(), n.id, step.output);
        }
        r := AddStep(r, outcome, step.publications, step.count);
        assert turn == Turned(TheState(), r);
      }
    }

    method RunNode(n: Node) returns (step: Step, outcome: Outcome)
      modifies this`tokens, this`nodes, this`triggered, this`eventByNode
      ensures outcome == OutcomeOf(TheEnv(), old(TheState()), n)
      ensures step == Semantics.RunNode(TheEnv(), old(TheState()), n)
      ensures TheState() == step.state
    {
      var inputs := ReadInputs(TheState(), n);
      CaptureAndRun(n);
      outcome := exec(n, inputs, if n.id in eventByNode then Some(eventByNode[n.id]) else None);
      triggered := triggered - {n.id};
      eventByNode := eventByNode - {n.id};
      TriggerEvents(outcome.events);
      var published := PublishOutputs(n, outcome.outputs);
      if published.Undeclared? {
        return StepThrew(TheState(), published.name), outcome;
      }
      nodes := nodes[n.id := NodeOf(TheState(), n.id).(status := if outcome.suspended then Suspended else Idle)];
      step := Stepped(TheState(), published.publications, published.count);
    }

    method ReadyNow() returns (ready: seq<Node>)
      ensures ready == ReadyNodes(TheEnv(), TheState())
    {
      var filtered: seq<Node> := [];
      for i := 0 to |graph.nodes|
        invariant filtered == ReadyAmong(TheState(), graph.nodes[..i])
      {
        assert graph.nodes[..i + 1][..i] == graph.nodes[..i];
        if IsReady(TheState(), graph.nodes[i]) {
          filtered := filtered + [graph.nodes[i]];
        }
      }
      assert graph.nodes[..|graph.nodes|] == graph.nodes;
      ready := SortById(collate, filtered);
    }

    method CaptureAndRun(n: Node)
      modifies this`nodes
      ensures TheState() == Begin(old(TheState()), n)
    {
      nodes := nodes[n.id := NodeState(Running, Capture(TheState(), n))];
    }

    method TriggerEvents(events: seq<Event>)
      modifies this`triggered, this`eventByNode
      ensures TheState() == Semantics.TriggerEvents(graph, old(TheState()), events)
    {
      for i := 0 to |events|
        invariant TheState() == Semantics.TriggerEvents(graph, old(TheState()), events[..i])
        modifies this`triggered, this`eventByNode
      {
        assert events[..i + 1][..i] == events[..i];
        TriggerEvent(events[i]);
      }
      assert events[..|events|] == events;
    }

    method Publish(values: seq<(string, Json)>, budget: Budget) returns (run: Run)
      modifies this`tokens, this`nodes, this`triggered, this`eventByNode, this`lastStatus
      ensures run == Semantics.Publish(TheEnv(), old(TheState()), values, budget)
      ensures TheState() == run.state
    {
      var publications, count := PublishValues(values);
      run := Traverse(publications, count, budget);
    }

    method Resume(budget: Budget) returns (run: Run)
      modifies this`tokens, this`nodes, this`triggered, this`eventByNode, this`lastStatus
      ensures run == Semantics.Resume(TheEnv(), old(TheState()), budget)
      ensures TheState() == run.state
    {
      run := Traverse(map[], 0, budget);
    }

    method Start(budget: Budget) returns (run: Run)
      modifies this`tokens, this`nodes, this`triggered, this`eventByNode, this`lastStatus
      ensures run == Semantics.Start(TheEnv(), old(TheState()), budget)
      ensures TheState() == run.state
    {
      ghost var before := TheState();
      for i := 0 to |graph.nodes|
        invariant TheState()
            == before.(triggered := before.triggered + set n | n in graph.nodes[..i] && n.trigger.OnStartup? :: n.id)
        modifies this`triggered
      {
        assert graph.nodes[..i + 1] == graph.nodes[..i] + [graph.nodes[i]];
        if graph.nodes[i].trigger.OnStartup? {
          triggered := triggered + {graph.nodes[i].id};
        }
      }
      assert graph.nodes[..|graph.nodes|] == graph.nodes;
      run := Traverse(map[], 0, budget);
    }

    method Hydrate(values: seq<(string, Json)>)
      modifies this`tokens, this`nodes
      ensures TheState() == Semantics.Hydrate(graph, old(TheState()), values)
    {
      hide Capture, Semantics.PublishValues;
      var publications, count := PublishValues(values);
      ghost var seeded := TheState();
      for i := 0 to |graph.nodes|
        invariant TheState() == CaptureAll(seeded, graph.nodes[..i])
        modifies this`nodes
      {
        assert graph.nodes[..i + 1][..i] == graph.nodes[..i];
        var n := graph.nodes[i];
        nodes := nodes[n.id := NodeOf(TheState(), n.id).(consumed := Capture(TheState(), n))];
      }
      assert graph.nodes[..|graph.nodes|] == graph.nodes;
    }

    method Dispatch(e: Event, budget: Budget) returns (run: Run)
      modifies this`tokens, this`nodes, this`triggered, this`eventByNode, this`lastStatus
      ensures run == Semantics.Dispatch(TheEnv(), old(TheState()), e, budget)
      ensures TheState() == run.state
    {
      TriggerEvent(e);
      run := Traverse(map[], 0, budget);
    }

    method Activate(id: string, budget: Budget) returns (run: Option<Run>)
      modifies this`tokens, this`nodes, this`triggered, this`eventByNode, this`lastStatus
      ensures if graph.HasNode(id)
              then run == Some(Semantics.Activate(TheEnv(), old(TheState()), id, budget))
                  && TheState() == run.value.state
              else run == None && TheState() == old(TheState())
    {
      if !graph.HasNode(id) {
        return None;
      }
      triggered := triggered + {id};
      var r := Traverse(map[], 0, budget);
      run := Some(r);
    }

    method Complete(id: string, outputs: seq<(string, Json)>, budget: Budget) returns (r: Completion)
      modifies this`tokens, this`nodes, this`triggered, this`eventByNode, this`lastStatus
      ensures r == Semantics.Complete(TheEnv(), old(TheState()), id, outputs, budget)
      ensures TheState() == if r.Completed? then r.run.state else old(TheState())
    {
      if !graph.HasNode(id) {
        return UnknownNode;
      }
      var n := FirstNode(graph, id);
      if !NodeOf(TheState(), id).status.Suspended? {
        return NotSuspended;
      }
      nodes := nodes[id := NodeOf(TheState(), id).(status := Idle)];
      var published := PublishOutputs(n, outputs);
      if published.Undeclared? {
        return Completed(Threw(TheState(), id, published.name));
      }
      var run := Traverse(published.publications, published.count, budget);
      r := Completed(run);
    }
  }

  /** Idle nodes added ahead of a reindex make no difference to it. */
  lemma NoneEnsured(s: State)
    ensures NodeIds([]) == {} && EnsureAll(s, []) == s && Distinct([])
  {
  }

  lemma EnsureStep(s: State, nodes: seq<Node>, i: nat)
    requires i < |nodes|
    ensures NodeIds(nodes[..i + 1]) == NodeIds(nodes[..i]) + {nodes[i].id}
    ensures EnsureAll(s, nodes[..i + 1]) == Ensure(EnsureAll(s, nodes[..i]), nodes[i])
  {
    assert nodes[..i + 1][..i] == nodes[..i];
  }

  lemma SameViews(g: Graph, s: State, t: State)
    requires t == s.(tokens := t.tokens, nodes := t.nodes)
    requires (forall token :: TokenOf(t, token) == TokenOf(s, token)) && (forall id :: NodeOf(t, id) == NodeOf(s, id))
    requires s.tokens.Keys <= t.tokens.Keys <= s.tokens.Keys + DeclaredTokens(g)
    ensures Semantics.Reindex(g, t) == Semantics.Reindex(g, s)
  {
    hide NodeIds, DeclaredTokens, NodeOf;
    var a, b := Semantics.Reindex(g, t).tokens, Semantics.Reindex(g, s).tokens;
    assert a.Keys == b.Keys;
    forall token | token in a
      ensures a[token] == b[token]
    {
      assert TokenOf(t, token) == TokenOf(s, token);
    }
  }

  /** Ensuring every node first makes no difference to what `reindex` leaves. */
  lemma ReindexedFrom(g: Graph, before: State)
    ensures Semantics.Reindex(g, EnsureAll(before, g.nodes)) == Semantics.Reindex(g, before)
  {
    hide NodeIds, DeclaredTokens, EnsureAll, NodeTokens, TokenOf, NodeOf;
    EnsuredViews(before, g.nodes);
    DeclaresAll(g);
    SameViews(g, before, EnsureAll(before, g.nodes));
  }

  lemma DeclaresAll(g: Graph)
    ensures forall n :: n in g.nodes ==> NodeTokens(n) <= DeclaredTokens(g)
  {
  }

  lemma {:induction false} EnsuredViews(s: State, nodes: seq<Node>)
    ensures var t := EnsureAll(s, nodes);
            && t == s.(tokens := t.tokens, nodes := t.nodes)
            && (forall token :: TokenOf(t, token) == TokenOf(s, token)) && (forall id :: NodeOf(t, id) == NodeOf(s, id))
            && s.tokens.Keys <= t.tokens.Keys
            && (forall token :: token in t.tokens ==> token in s.tokens || exists n ::
                n in nodes && token in NodeTokens(n))
  {
    hide NodeTokens;
    if nodes != [] {
      var rest, last := nodes[..|nodes| - 1], nodes[|nodes| - 1];
      EnsuredViews(s, rest);
      assert nodes == rest + [last] && last in nodes;
      EnsuredOne(EnsureAll(s, rest), last);
      hide Ensure;
    }
  }

  lemma EnsuredOne(s: State, n: Node)
    ensures var t := Ensure(s, n);
            && t == s.(tokens := t.tokens, nodes := t.nodes)
            && (forall token :: TokenOf(t, token) == TokenOf(s, token)) && (forall id :: NodeOf(t, id) == NodeOf(s, id))
            && t.tokens.Keys == s.tokens.Keys + NodeTokens(n)
  {
  }

  lemma TokensEnsured(s: State, n: Node, t: State, t': State)
    requires t == s.(nodes := if n.id in s.nodes then s.nodes else s.nodes[n.id := NodeState(Idle, map[])])
    requires t' == t.(tokens :=
      (map token | token in NodeTokens(n) :: if token in t.tokens then t.tokens[token] else ABSENT) + t.tokens)
    ensures t' == Ensure(s, n)
  {
  }

  lemma DistinctStep(nodes: seq<Node>, i: nat)
    requires i < |nodes| && Distinct(nodes[..i]) && nodes[i].id !in NodeIds(nodes[..i])
    ensures Distinct(nodes[..i + 1])
  {
    NodeIdsContains(nodes[..i], nodes[i].id);
  }

  lemma RepeatedId(g: Graph, i: nat)
    requires i < |g.nodes| && g.nodes[i].id in NodeIds(g.nodes[..i])
    ensures !g.UniqueIds()
  {
    NodeIdsContains(g.nodes[..i], g.nodes[i].id);
  }

  lemma DistinctIsUnique(g: Graph)
    ensures Distinct(g.nodes) <==> g.UniqueIds()
  {
  }

  /** Once an undeclared output was met, the outputs after it are not published. */
  lemma {:induction false} UndeclaredStays(g: Graph, n: Node, s: State, outputs: seq<(string, Json)>, i: nat)
    requires i <= |outputs|
    requires Semantics.PublishOutputs(g, n, s, outputs[..i]).Undeclared?
    ensures Semantics.PublishOutputs(g, n, s, outputs) == Semantics.PublishOutputs(g, n, s, outputs[..i])
  {
    if i == |outputs| {
      assert outputs[..i] == outputs;
    } else {
      assert outputs[..|outputs| - 1][..i] == outputs[..i];
      UndeclaredStays(g, n, s, outputs[..|outputs| - 1], i);
    }
  }
}
