/** What publishing, dispatching, completing, hydrating and reindexing leave behind
    (kernel/src/graph-runtime.ts:111-208, 239-343, 363-373, 464-473). */
module GraphEffects {
  import opened Json
  import opened Graphs
  import opened GraphSemantics
  import opened GraphFrames
  import opened GraphTermination
  import opened GraphOutcomes

  // ---- publications -----------------------------------------------------------------------------

  /** Some port is in stream mode. */
  ghost predicate HasStreams(g: Graph) {
    || (exists token :: g.PortModeOf(token).StreamMode?)
    || (exists n, name :: n in g.nodes && name in n.outputs && OutputMode(g, n.outputs[name]).StreamMode?)
  }

  /** The token's value is the published one, or a stream that ends with it. */
  ghost predicate Shows(g: Graph, value: Option<Json>, published: Json) {
    || value == Some(published)
    || (HasStreams(g) && exists items :: value == Some(Arr(items + [published])))
  }

  /** `log` holds each token as often as it was published: every publication raises the token's version by one
      and is counted, and the last value published to a token is the one reported. */
  ghost predicate Reported(g: Graph, s: State, t: State, before: map<string, Json>, after: map<string, Json>,
      log: multiset<string>)
  {
    && (forall token :: TokenOf(t, token).version == TokenOf(s, token).version + log[token])
    && (forall token :: token in after <==> token in before || token in log)
    && (forall token :: token in log ==> Shows(g, TokenOf(t, token).value, after[token]))
    && (forall token :: token !in log ==> TokenOf(t, token).value == TokenOf(s, token).value)
    && (forall token :: token in before && token !in log ==> after[token] == before[token])
  }

  lemma NothingReported(g: Graph, s: State, t: State, publications: map<string, Json>)
    requires forall token :: TokenOf(t, token).version == TokenOf(s, token).version
                             && TokenOf(t, token).value == TokenOf(s, token).value
    ensures Reported(g, s, t, publications, publications, multiset{})
  {
  }

  lemma ReportedComposes(g: Graph, a: State, b: State, c: State, p: map<string, Json>, q: map<string, Json>,
      r: map<string, Json>, first: multiset<string>, second: multiset<string>)
    requires Reported(g, a, b, p, q, first) && Reported(g, b, c, q, r, second)
    ensures Reported(g, a, c, p, r, first + second)
  {
    hide Shows, TokenOf;
  }

  /** One value published to a token. */
  lemma TokenReported(g: Graph, s: State, token: string, value: Json, producer: Option<string>, mode: PortMode,
      before: map<string, Json>)
    requires mode.StreamMode? ==> HasStreams(g)
    ensures var changes := Changes(s, token, value, mode);
            Reported(g, s, PublishToken(s, token, value, producer, mode), before,
              if changes then before[token := value] else before, if changes then multiset{token} else multiset{})
  {
    hide HasStreams;
    PublishTokenFrame(s, token, value, producer, mode);
  }

  lemma {:induction false} SeedingReported(g: Graph, s: State,
      values: seq<(string, Json)>) returns (log: multiset<string>)
    ensures var r := PublishValues(g, s, values);
            Reported(g, s, r.state, map[], r.publications, log) && |log| == r.count
  {
    hide Reported, PublishToken, Changes, HasStreams;
    if values == [] {
      log := multiset{};
      NothingReported(g, s, s, map[]);
    } else {
      var before := PublishValues(g, s, values[..|values| - 1]);
      var first := SeedingReported(g, s, values[..|values| - 1]);
      var (token, value) := values[|values| - 1];
      var mode := g.PortModeOf(token);
      StreamsSeen(g, token);
      TokenReported(g, before.state, token, value, None, mode, before.publications);
      var last := if Changes(before.state, token, value, mode) then multiset{token} else multiset{};
      var r := PublishValues(g, s, values);
      ReportedComposes(g, s, before.state, r.state, map[], before.publications, r.publications, first, last);
      log := first + last;
    }
  }

  lemma StreamsSeen(g: Graph, token: string)
    ensures g.PortModeOf(token).StreamMode? ==> HasStreams(g)
  {
  }

  lemma PortStreamsSeen(g: Graph, n: Node, name: string)
    requires n in g.nodes && name in n.outputs
    ensures OutputMode(g, n.outputs[name]).StreamMode? ==> HasStreams(g)
  {
  }

  lemma {:induction false} OutputsReported(g: Graph, n: Node, s: State, outputs: seq<(string, Json)>)
      returns (log: multiset<string>)
    requires n in g.nodes && PublishOutputs(g, n, s, outputs).AllPublished?
    ensures var r := PublishOutputs(g, n, s, outputs);
            Reported(g, s, r.state, map[], r.publications, log) && |log| == r.count
  {
    hide Reported, PublishToken, Changes, HasStreams;
    if outputs == [] {
      log := multiset{};
      NothingReported(g, s, s, map[]);
    } else {
      var before := PublishOutputs(g, n, s, outputs[..|outputs| - 1]);
      var first := OutputsReported(g, n, s, outputs[..|outputs| - 1]);
      var (name, value) := outputs[|outputs| - 1];
      var port := n.outputs[name];
      var mode := OutputMode(g, port);
      PortStreamsSeen(g, n, name);
      TokenReported(g, before.state, port.token, value, Some(n.id), mode, before.publications);
      var last := if Changes(before.state, port.token, value, mode) then multiset{port.token} else multiset{};
      var r := PublishOutputs(g, n, s, outputs);
      ReportedComposes(g, s, before.state, r.state, map[], before.publications, r.publications, first, last);
      log := first + last;
    }
  }

  lemma MergedReported(g: Graph, s: State, t: State, before: map<string, Json>, after: map<string, Json>,
      log: multiset<string>)
    requires Reported(g, s, t, map[], after, log)
    ensures Reported(g, s, t, before, before + after, log)
  {
  }

  lemma StepReported(env: Env, s: State, n: Node, before: map<string, Json>) returns (log: multiset<string>)
    requires n in env.graph.nodes && RunNode(env, s, n).Stepped?
    ensures var step := RunNode(env, s, n);
            Reported(env.graph, s, step.state, before, before + step.publications, log) && |log| == step.count
  {
    hide Reported, PublishOutputs, TriggerEvents, HasStreams;
    var step, begun := RunNode(env, s, n), AfterExecution(env, s, n);
    var outputs := OutcomeOf(env, s, n).outputs;
    var published := PublishOutputs(env.graph, n, begun, outputs);
    var untriggered := Begin(s, n);
    TriggerEventsFrame(env.graph,
      untriggered.(triggered := untriggered.triggered - {n.id}, eventByNode := untriggered.eventByNode - {n.id}),
      OutcomeOf(env, s, n).events);
    NothingReported(env.graph, s, begun, map[]);
    log := OutputsReported(env.graph, n, begun, outputs);
    NothingReported(env.graph, published.state, step.state, published.publications);
    ReportedComposes(env.graph, s, begun, published.state, map[], map[], published.publications, multiset{}, log);
    ReportedComposes(env.graph, s, published.state, step.state, map[], published.publications,
      published.publications, multiset{} + log, multiset{});
    assert multiset{} + log + multiset{} == log;
    MergedReported(env.graph, s, step.state, before, step.publications, log);
  }

  /** A run reports every publication: one count each, and the newest value of every token published. */
  lemma {:induction false} PublicationsReported(env: Env, s: State, r: Result, budget: Budget)
      returns (log: multiset<string>)
    requires Traverse(env, s, r, budget).Done?
    ensures var run := Traverse(env, s, r, budget);
            && Reported(env.graph, s, run.state, r.publications, run.result.publications, log)
            && run.result.publicationCount == r.publicationCount + |log|
    decreases budget.maxNodeExecutions - r.nodeExecutions
  {
    hide Reported, ReadyNodes, RunNode;
    var run := Traverse(env, s, r, budget);
    if ReadyNodes(env, s) == [] || r.nodeExecutions >= budget.maxNodeExecutions
       || budget.maxPublications.Reached(r.publicationCount) {
      log := multiset{};
      RestKeepsValues(env, s);
      NothingReported(env.graph, s, run.state, r.publications);
    } else {
      ReadyHead(env, s);
      var n := ReadyNodes(env, s)[0];
      var step := RunNode(env, s, n);
      var turn := TakeTurn(env, s, r);
      var first := StepReported(env, s, n, r.publications);
      var rest := PublicationsReported(env, turn.state, turn.result, budget);
      ReportedComposes(env.graph, s, turn.state, run.state, r.publications, turn.result.publications,
        run.result.publications, first, rest);
      log := first + rest;
    }
  }

  lemma RestKeepsValues(env: Env, s: State)
    ensures forall token :: TokenOf(Settle(env.graph, s), token).version == TokenOf(s, token).version
                            && TokenOf(Settle(env.graph, s), token).value == TokenOf(s, token).value
    ensures forall token :: TokenOf(s.(status := Yielded), token) == TokenOf(s, token)
  {
  }

  /** At rest no signal is left; a yielded run keeps its signals. */
  lemma {:induction false} RestClearsSignals(env: Env, s: State, r: Result, budget: Budget, token: string)
    requires Traverse(env, s, r, budget).Done? && env.graph.PortModeOf(token).SignalMode?
    ensures var run := Traverse(env, s, r, budget);
            !run.result.status.Yielded? ==> !TokenOf(run.state, token).available
    decreases budget.maxNodeExecutions - r.nodeExecutions
  {
    hide ReadyNodes, RunNode;
    if ReadyNodes(env, s) != [] && r.nodeExecutions < budget.maxNodeExecutions
       && !budget.maxPublications.Reached(r.publicationCount) {
      var turn := TakeTurn(env, s, r);
      RestClearsSignals(env, turn.state, turn.result, budget, token);
    }
  }

  /** No other token ever becomes unavailable. */
  lemma {:induction false} OthersStayAvailable(env: Env, s: State, r: Result, budget: Budget, token: string)
    requires Traverse(env, s, r, budget).Done? && TokenOf(s, token).available
    requires Traverse(env, s, r, budget).result.status.Yielded? || !env.graph.PortModeOf(token).SignalMode?
    ensures TokenOf(Traverse(env, s, r, budget).state, token).available
    decreases budget.maxNodeExecutions - r.nodeExecutions
  {
    hide ReadyNodes, RunNode;
    if ReadyNodes(env, s) != [] && r.nodeExecutions < budget.maxNodeExecutions
       && !budget.maxPublications.Reached(r.publicationCount) {
      RunNodeFrame(env, s, ReadyNodes(env, s)[0]);
      var turn := TakeTurn(env, s, r);
      OthersStayAvailable(env, turn.state, turn.result, budget, token);
    }
  }

  /** Every token an execution raised is available and names the node as its producer. */
  lemma {:induction false} OutputsNameProducer(g: Graph, n: Node, s: State, outputs: seq<(string, Json)>, token: string)
    ensures var t := PublishOutputs(g, n, s, outputs).state;
            TokenOf(t, token).version > TokenOf(s, token).version
            ==> TokenOf(t, token).available && TokenOf(t, token).producedBy == Some(n.id)
  {
    hide Changes;
    if outputs != [] {
      OutputsNameProducer(g, n, s, outputs[..|outputs| - 1], token);
      OutputsFrame(g, n, s, outputs[..|outputs| - 1]);
      var before := PublishOutputs(g, n, s, outputs[..|outputs| - 1]);
      var (name, value) := outputs[|outputs| - 1];
      if before.AllPublished? && name in n.outputs {
        PublishTokenFrame(before.state, n.outputs[name].token, value, Some(n.id), OutputMode(g, n.outputs[name]));
      }
    }
  }

  // ---- what outside publications leave ------------------------------------------------------------

  /** The values published to one token, in order. */
  function ValuesFor(values: seq<(string, Json)>, token: string): seq<Json> {
    if values == [] then []
    else ValuesFor(values[..|values| - 1], token)
         + if values[|values| - 1].0 == token then [values[|values| - 1].1] else []
  }

  function ItemsOf(t: Token): seq<Json> {
    if t.value.Some? && t.value.value.Arr? then t.value.value.items else []
  }

  /** A stream keeps everything published to it, oldest first; any other token the newest value. */
  lemma {:induction false} SeededValues(g: Graph, s: State, values: seq<(string, Json)>, token: string)
    ensures var t, vs := TokenOf(PublishValues(g, s, values).state, token), ValuesFor(values, token);
            if vs == [] then t == TokenOf(s, token)
            else
              && t.available
              && (if g.PortModeOf(token).StreamMode? then t.value == Some(Arr(ItemsOf(TokenOf(s, token)) + vs))
                  else t.value == Some(vs[|vs| - 1]))
  {
    hide Changes;
    if values != [] {
      var rest := values[..|values| - 1];
      SeededValues(g, s, rest, token);
      var (last, value) := values[|values| - 1];
      var before := PublishValues(g, s, rest).state;
      PublishTokenFrame(before, last, value, None, g.PortModeOf(last));
      var items := ItemsOf(TokenOf(s, token));
      assert (items + ValuesFor(rest, token)) + [value] == items + (ValuesFor(rest, token) + [value]);
      UnchangedHolds(before, last, value, g.PortModeOf(last));
      assert last != token ==> ValuesFor(values, token) == ValuesFor(rest, token);
      if last == token && g.PortModeOf(token).StreamMode? {
        assert ItemsOf(TokenOf(before, token)) == items + ValuesFor(rest, token);
        assert Changes(before, token, value, g.PortModeOf(token));
        StreamAppends(TokenOf(before, token), value);
        assert TokenOf(PublishValues(g, s, values).state, token)
            == NextToken(TokenOf(before, token), value, None, StreamMode);
        assert ValuesFor(values, token) == ValuesFor(rest, token) + [value];
      }
    }
  }

  lemma StreamAppends(t: Token, value: Json)
    ensures NextToken(t, value, None, StreamMode).value == Some(Arr(ItemsOf(t) + [value]))
    ensures NextToken(t, value, None, StreamMode).available
  {
  }

  lemma UnchangedHolds(s: State, token: string, value: Json, mode: PortMode)
    ensures !Changes(s, token, value, mode) ==>
              mode.ValueMode? && TokenOf(s, token).available && TokenOf(s, token).value == Some(value)
  {
  }

  lemma {:induction false} CapturesLeaveTokens(s: State, nodes: seq<Node>)
    ensures var t := CaptureAll(s, nodes);
            t == s.(nodes := t.nodes) && forall id :: NodeOf(t, id).status == NodeOf(s, id).status
  {
    if nodes != [] {
      CapturesLeaveTokens(s, nodes[..|nodes| - 1]);
    }
  }

  /** Hydration publishes its values like any others, arms nothing and suspends or resumes nothing. */
  lemma HydrationSeeds(g: Graph, s: State, values: seq<(string, Json)>, token: string)
    ensures var t, vs := Hydrate(g, s, values), ValuesFor(values, token);
            && (vs == [] ==> TokenOf(t, token) == TokenOf(s, token))
            && (vs != [] ==> TokenOf(t, token).available)
            && (vs != [] && !g.PortModeOf(token).StreamMode? ==> TokenOf(t, token).value == Some(vs[|vs| - 1]))
            && t.triggered == s.triggered && t.eventByNode == s.eventByNode
            && forall id :: NodeOf(t, id).status == NodeOf(s, id).status
  {
    hide PublishValues, CaptureAll;
    SeededValues(g, s, values, token);
    SeedingLeavesNodes(g, s, values);
    CapturesLeaveTokens(PublishValues(g, s, values).state, g.nodes);
  }

  lemma {:induction false} SeedingLeavesNodes(g: Graph, s: State, values: seq<(string, Json)>)
    ensures var t := PublishValues(g, s, values).state; t == s.(tokens := t.tokens)
  {
    if values != [] {
      SeedingLeavesNodes(g, s, values[..|values| - 1]);
    }
  }

  // ---- events reach the nodes they trigger ----------------------------------------------------------

  /** After a dispatch every matching node is armed with the event, and all others are as they were. */
  lemma {:induction false} DispatchArms(nodes: seq<Node>, s: State, e: Event, id: string)
    ensures var t, hit := TriggerAmong(nodes, s, e), exists n :: n in nodes && n.id == id && Matches(n, e);
            && (hit ==> id in t.triggered && id in t.eventByNode && t.eventByNode[id] == e)
            && (!hit ==> (id in t.triggered <==> id in s.triggered) && (id in t.eventByNode <==> id in s.eventByNode)
                         && (id in s.eventByNode ==> t.eventByNode[id] == s.eventByNode[id]))
  {
    hide Matches;
    if nodes != [] {
      var rest, last := nodes[..|nodes| - 1], nodes[|nodes| - 1];
      DispatchArms(rest, s, e, id);
      assert nodes == rest + [last];
      assert last in nodes;
      assert forall n :: n in nodes <==> n in rest || n == last;
    }
  }

  /** The first execution of `id` in a traversal; |executions| when there is none. */
  function FirstOf(executions: seq<Execution>, id: string): nat {
    if executions == [] then 0
    else if executions[0].node.id == id then 0
    else 1 + FirstOf(executions[1..], id)
  }

  ghost predicate GivenOnce(executions: seq<Execution>, id: string, pending: Option<Event>) {
    forall k :: 0 <= k < |executions| && executions[k].node.id == id
      ==> executions[k].event == if k == FirstOf(executions, id) then pending else None
  }

  lemma GivenFirst(first: Execution, rest: seq<Execution>, id: string, pending: Option<Event>)
    requires first.node.id == id ==> first.event == pending && GivenOnce(rest, id, None)
    requires first.node.id != id ==> GivenOnce(rest, id, pending)
    ensures GivenOnce([first] + rest, id, pending)
  {
    var all := [first] + rest;
    assert all[1..] == rest;
    forall k | 0 <= k < |all| && all[k].node.id == id
      ensures all[k].event == if k == FirstOf(all, id) then pending else None
    {
      if k > 0 {
        assert all[k] == rest[k - 1];
      }
    }
  }

  lemma RunNodeEvents(env: Env, s: State, n: Node, id: string)
    requires EmitsNoEvents(env) && n in env.graph.nodes
    ensures var t := RunNode(env, s, n).state;
            && (id == n.id ==> id !in t.eventByNode)
            && (id != n.id ==> (id in t.eventByNode <==> id in s.eventByNode)
                               && (id in s.eventByNode ==> t.eventByNode[id] == s.eventByNode[id]))
  {
    var outcome := OutcomeOf(env, s, n);
    assert outcome.events == [];
    OutputsFrame(env.graph, n, AfterExecution(env, s, n), outcome.outputs);
  }

  function PendingFor(s: State, id: string): Option<Event> {
    if id in s.eventByNode then Some(s.eventByNode[id]) else None
  }

  /** Where nodes emit no events, a node's first execution is given the event pending for it, and later ones none. */
  lemma {:induction false} EventGivenOnce(env: Env, s: State, r: Result, budget: Budget, id: string)
    requires EmitsNoEvents(env)
    ensures GivenOnce(Executions(env, s, r, budget), id, PendingFor(s, id))
    decreases budget.maxNodeExecutions - r.nodeExecutions
  {
    hide ReadyNodes, RunNode, EmitsNoEvents, GivenOnce, OutcomeOf, ReadInputs;
    if ReadyNodes(env, s) == [] || r.nodeExecutions >= budget.maxNodeExecutions
       || budget.maxPublications.Reached(r.publicationCount) {
      NoneGiven(id, PendingFor(s, id));
    } else {
      ReadyHead(env, s);
      var n := ReadyNodes(env, s)[0];
      var first := ExecutionOf(env, s, n);
      RunNodeEvents(env, s, n, id);
      match TakeTurn(env, s, r)
      case Broke(_, _, _) =>
        NoneGiven(id, None);
        NoneGiven(id, PendingFor(s, id));
        GivenFirst(first, [], id, PendingFor(s, id));
        assert [first] + [] == [first];
      case Turned(s', r') =>
        EventGivenOnce(env, s', r', budget, id);
        GivenFirst(first, Executions(env, s', r', budget), id, PendingFor(s, id));
    }
  }

  lemma NoneGiven(id: string, pending: Option<Event>)
    ensures GivenOnce([], id, pending)
  {
  }

  /** So a dispatched event is what every node it triggers is first executed with. */
  lemma DispatchDelivers(env: Env, s: State, e: Event, budget: Budget, n: Node, k: nat)
    requires EmitsNoEvents(env) && n in env.graph.nodes && Matches(n, e)
    requires var executions := Executions(env, TriggerEvent(env.graph, s, e), StartResult(map[], 0), budget);
             k < |executions| && executions[k].node.id == n.id
    ensures var executions := Executions(env, TriggerEvent(env.graph, s, e), StartResult(map[], 0), budget);
            executions[k].event == if k == FirstOf(executions, n.id) then Some(e) else None
  {
    hide EmitsNoEvents, Executions, Matches, FirstOf;
    DispatchArms(env.graph.nodes, s, e, n.id);
    EventGivenOnce(env, TriggerEvent(env.graph, s, e), StartResult(map[], 0), budget, n.id);
  }

  // ---- the answer to a suspended node -------------------------------------------------------------------

  /** With an executor that never suspends, completing a node takes it and nothing else out of suspension. */
  lemma CompletionResumes(env: Env, s: State, id: string, outputs: seq<(string, Json)>, budget: Budget)
    requires NeverSuspends(env) && env.graph.HasNode(id) && NodeOf(s, id).status.Suspended?
    requires Complete(env, s, id, outputs, budget).Completed? && Complete(env, s, id, outputs, budget).run.Done?
    ensures var t := Complete(env, s, id, outputs, budget).run.state;
            forall other :: NodeOf(t, other).status.Suspended? <==> other != id && NodeOf(s, other).status.Suspended?
  {
    hide Traverse, PublishOutputs, NeverSuspends;
    var n := FirstNode(env.graph, id);
    var idle := WithNode(s, id, NodeOf(s, id).(status := Idle));
    OutputsFrame(env.graph, n, idle, outputs);
    var published := PublishOutputs(env.graph, n, idle, outputs);
    TraverseSuspendsNone(env, published.state, StartResult(published.publications, published.count), budget);
    assert forall other :: NodeOf(published.state, other) == NodeOf(idle, other);
  }

  /** The answer is published like an execution's: counted, reported, one version each. */
  lemma CompletionReported(env: Env, s: State, id: string, outputs: seq<(string, Json)>, budget: Budget)
      returns (log: multiset<string>)
    requires env.graph.HasNode(id) && NodeOf(s, id).status.Suspended?
    requires Complete(env, s, id, outputs, budget).Completed? && Complete(env, s, id, outputs, budget).run.Done?
    ensures var run := Complete(env, s, id, outputs, budget).run;
            Reported(env.graph, s, run.state, map[], run.result.publications, log)
            && run.result.publicationCount == |log|
  {
    hide Traverse, PublishOutputs, Reported;
    var n := FirstNode(env.graph, id);
    var idle := WithNode(s, id, NodeOf(s, id).(status := Idle));
    var published := PublishOutputs(env.graph, n, idle, outputs);
    var run := Complete(env, s, id, outputs, budget).run;
    NothingReported(env.graph, s, idle, map[]);
    var first := OutputsReported(env.graph, n, idle, outputs);
    ReportedComposes(env.graph, s, idle, published.state, map[], map[], published.publications, multiset{}, first);
    var rest := PublicationsReported(env, published.state, StartResult(published.publications, published.count),
        budget);
    ReportedComposes(env.graph, s, published.state, run.state, map[], published.publications, run.result.publications,
      multiset{} + first, rest);
    log := multiset{} + first + rest;
  }

  // ---- reindexing ------------------------------------------------------------------------------------------

  /** Kept nodes and all tokens keep their state, removed nodes lose it, new ones start fresh. */
  lemma ReindexKeeps(g: Graph, s: State)
    ensures var t := Reindex(g, s);
            && (forall id :: id in t.nodes <==> exists n :: n in g.nodes && n.id == id)
            && (forall id :: id in t.nodes ==> t.nodes[id] == NodeOf(s, id))
            && (forall token :: TokenOf(t, token) == TokenOf(s, token))
            && (forall n, name :: n in g.nodes && name in n.inputs ==> n.inputs[name].token in t.tokens)
            && (forall n, name :: n in g.nodes && name in n.outputs ==> n.outputs[name].token in t.tokens)
            && t.triggered == s.triggered && t.eventByNode == s.eventByNode && t.status == s.status
  {
    var t := Reindex(g, s);
    forall id
      ensures id in t.nodes <==> exists n :: n in g.nodes && n.id == id
    {
      NodeIdsContains(g.nodes, id);
      if n :| n in g.nodes && n.id == id {
        var i :| 0 <= i < |g.nodes| && g.nodes[i] == n;
      }
    }
  }
}
