/** The topological evaluation of an acyclic graph, and the theorem that a quiescent runtime holds exactly
    it, whatever order its id-sorted scheduler took. */
module GraphEvaluation {
  import opened Json
  import opened Graphs
  import opened GraphSemantics
  import opened GraphFrames
  import opened GraphTermination
  import opened GraphDenotation

  ghost predicate Produced(g: Graph, token: string) {
    exists n, name :: n in g.nodes && name in n.outputs && n.outputs[name].token == token
  }

  ghost function Producer(g: Graph, token: string): (p: (Node, string))
    requires Produced(g, token)
    ensures p.0 in g.nodes && p.1 in p.0.outputs && p.0.outputs[p.1].token == token
  {
    var n, name :| n in g.nodes && name in n.outputs && n.outputs[name].token == token;
    (n, name)
  }

  ghost function TokenRank(g: Graph, rank: map<string, nat>, token: string): nat
    requires Ranked(g, rank)
  {
    if Produced(g, token) then 1 + rank[Producer(g, token).0.id] else 0
  }

  lemma InputsRankLower(g: Graph, rank: map<string, nat>, n: Node, name: string)
    requires Ranked(g, rank) && n in g.nodes && name in n.inputs
    ensures TokenRank(g, rank, n.inputs[name].token) < 1 + rank[n.id]
  {
    var token := n.inputs[name].token;
    assert n.Reads(token);
    if Produced(g, token) {
      assert Producer(g, token).0.Writes(token);
    }
  }

  ghost predicate NoRequired(n: Node) {
    forall name :: name in n.inputs ==> n.inputs[name].optional
  }

  /** One output of a node whose inputs have the given values; None when the node is not fed.  A node without
      any available input needs none of its inputs and must have been started. */
  ghost function EvalNode(env: Env, started: set<string>, n: Node, port: string, values: map<string,
      Option<Json>>): Option<Json>
    requires values.Keys == n.inputs.Keys
  {
    if (forall name :: name in n.inputs && !n.inputs[name].optional ==> values[name].Some?)
       && ((exists name :: name in n.inputs && values[name].Some?) || n.id in started)
    then
      var outputs := NodeFunction(env, n, map name | name in n.inputs && values[name].Some? :: values[name].value);
      if port in outputs then Some(outputs[port]) else None
    else None
  }

  /** The value of a token, computed from the external tokens and the started nodes; None when it has none. */
  ghost function Eval(
    env: Env, rank: map<string, nat>, external: map<string, Json>, started: set<string>, token: string): Option<Json>
    requires Ranked(env.graph, rank)
    decreases TokenRank(env.graph, rank, token), 1
  {
    if !Produced(env.graph, token) then
      if token in external then Some(external[token]) else None
    else
      var (n, port) := Producer(env.graph, token);
      EvalNode(env, started, n, port, EvalInputs(env, rank, external, started, n))
  }

  ghost function EvalInputs(env: Env, rank: map<string, nat>, external: map<string, Json>, started: set<string>,
      n: Node)
    : (values: map<string, Option<Json>>)
    requires Ranked(env.graph, rank) && n in env.graph.nodes
    ensures values.Keys == n.inputs.Keys
    decreases 1 + rank[n.id], 0
  {
    assert forall name :: name in n.inputs ==> TokenRank(env.graph, rank, n.inputs[name].token) < 1 + rank[n.id] by {
      forall name | name in n.inputs { InputsRankLower(env.graph, rank, n, name); }
    }
    map name | name in n.inputs :: Eval(env, rank, external, started, n.inputs[name].token)
  }

  /** The available tokens that no node produces. */
  ghost function ExternalValues(g: Graph, s: State): map<string, Json> {
    map token | token in s.tokens && ValueOf(s, token).Some? && !Produced(g, token) :: ValueOf(s, token).value
  }

  predicate HasRun(s: State, n: Node) {
    exists name :: name in n.outputs && TokenOf(s, n.outputs[name].token).available
  }

  /** The nodes that require nothing and have run. */
  ghost function Started(g: Graph, s: State): set<string> {
    set n | n in g.nodes && NoRequired(n) && HasRun(s, n) :: n.id
  }

  // ---- nothing is published without a reason ------------------------------------------------------

  ghost predicate OutputsAre(s: State, n: Node, outputs: map<string, Json>) {
    outputs.Keys == n.outputs.Keys
    && forall name :: name in n.outputs ==> ValueOf(s, n.outputs[name].token) == Some(outputs[name])
  }

  ghost predicate AllOutputs(s: State, n: Node) {
    forall name :: name in n.outputs ==> TokenOf(s, n.outputs[name].token).available
  }

  /** A node that has run has its required inputs and published all its outputs; one that found no input
      published its function of nothing. */
  ghost predicate NodeJustified(env: Env, s: State, n: Node) {
    HasRun(s, n) ==>
      && RequiredAvailable(s, n) && AllOutputs(s, n)
      && (SomeAvailable(s, n) || OutputsAre(s, n, NodeFunction(env, n, map[])))
  }

  ghost predicate Justified(env: Env, s: State) {
    forall n :: n in env.graph.nodes ==> NodeJustified(env, s, n)
  }

  ghost predicate StaysAvailable(s: State, s': State) {
    forall token :: TokenOf(s, token).available ==> TokenOf(s', token).available
  }

  /** A node whose outputs did not move stays justified while inputs only become available. */
  lemma BystanderJustified(env: Env, s: State, s': State, m: Node)
    requires NodeJustified(env, s, m) && StaysAvailable(s, s')
    requires forall name :: name in m.outputs ==>
        TokenOf(s', m.outputs[name].token)
        == TokenOf(s, m.outputs[name].token)
    ensures NodeJustified(env, s', m)
  {
  }

  lemma ReadsNothing(s: State, n: Node)
    requires !SomeAvailable(s, n)
    ensures ReadInputs(s, n) == map[] && !HasNewInput(s, n)
    ensures RequiredAvailable(s, n) ==> NoRequired(n)
  {
  }

  /** What a ready node leaves on its outputs. */
  lemma ExecutedJustified(env: Env, s: State, n: Node)
    requires Regular(env) && Sound(env, s) && n in env.graph.nodes && IsReady(s, n) && RunNode(env, s, n).Stepped?
    ensures NodeJustified(env, RunNode(env, s, n).state, n)
    ensures AllOutputs(RunNode(env, s, n).state, n)
  {
    hide RunNode, Regular, Sound, NodeFunction, ReadInputs, HasNewInput;
    var s' := RunNode(env, s, n).state;
    RunNodeStays(env, s, n);
    ExecutedHolds(env, s, n);
    assert OutputsAre(s', n, NodeFunction(env, n, ReadInputs(s, n)));
    OutputsAvailable(s', n, NodeFunction(env, n, ReadInputs(s, n)));
    hide OutputsAre, AllOutputs;
    if !SomeAvailable(s', n) {
      assert !SomeAvailable(s, n);
      ReadsNothing(s, n);
    }
  }

  lemma RunNodeStays(env: Env, s: State, n: Node)
    ensures StaysAvailable(s, RunNode(env, s, n).state)
  {
    hide RunNode;
    RunNodeFrame(env, s, n);
  }

  lemma OutputsAvailable(s: State, n: Node, outputs: map<string, Json>)
    requires OutputsAre(s, n, outputs)
    ensures AllOutputs(s, n)
  {
    assert forall token :: ValueOf(s, token).Some? ==> TokenOf(s, token).available;
  }

  lemma RunNodeKeepsJustified(env: Env, s: State, n: Node)
    requires Regular(env) && Sound(env, s) && Justified(env, s)
    requires n in env.graph.nodes && IsReady(s, n) && RunNode(env, s, n).Stepped?
    ensures Justified(env, RunNode(env, s, n).state)
  {
    hide RunNode, NodeJustified, Sound;
    var s' := RunNode(env, s, n).state;
    RunNodeFrame(env, s, n);
    forall m | m in env.graph.nodes
      ensures NodeJustified(env, s', m)
    {
      if m.id == n.id {
        SameIdSameNode(env.graph, m, n);
        ExecutedJustified(env, s, n);
      } else {
        forall name | name in m.outputs
          ensures TokenOf(s', m.outputs[name].token) == TokenOf(s, m.outputs[name].token)
        {
          assert !n.Writes(m.outputs[name].token);
        }
        BystanderJustified(env, s, s', m);
      }
    }
  }

  lemma {:induction false} PublishKeepsJustified(env: Env, s: State, values: seq<(string, Json)>)
    requires Justified(env, s)
    requires forall i, n :: 0 <= i < |values| && n in env.graph.nodes ==> !n.Writes(values[i].0)
    ensures Justified(env, PublishValues(env.graph, s, values).state)
  {
    hide NodeJustified;
    if values != [] {
      var last := |values| - 1;
      PublishKeepsJustified(env, s, values[..last]);
      var (token, value) := values[last];
      var t := PublishValues(env.graph, s, values[..last]).state;
      var t' := PublishValues(env.graph, s, values).state;
      PublishTokenFrame(t, token, value, None, env.graph.PortModeOf(token));
      forall m | m in env.graph.nodes
        ensures NodeJustified(env, t', m)
      {
        assert forall name :: name in m.outputs ==> m.Writes(m.outputs[name].token);
        BystanderJustified(env, t, t', m);
      }
    }
  }

  lemma SameTokensJustified(env: Env, s: State, s': State)
    requires Justified(env, s)
    requires s'.tokens == s.tokens || (ValueGraph(env.graph) && s' == Settle(env.graph, s))
    ensures Justified(env, s')
    ensures forall token :: TokenOf(s', token) == TokenOf(s, token)
  {
    assert forall token :: TokenOf(s', token) == TokenOf(s, token);
    forall m | m in env.graph.nodes
      ensures NodeJustified(env, s', m)
    {
      BystanderJustified(env, s, s', m);
    }
  }

  lemma {:induction false} TraverseKeepsJustified(env: Env, s: State, r: Result, budget: Budget)
    requires Regular(env) && Consistent(env, s) && Justified(env, s)
    ensures Justified(env, Traverse(env, s, r, budget).state)
    decreases budget.maxNodeExecutions - r.nodeExecutions
  {
    hide Justified, RunNode;
    if ReadyNodes(env, s) == [] {
      SameTokensJustified(env, s, Settle(env.graph, s));
    } else {
      SameTokensJustified(env, s, s.(status := Yielded));
      var n := ReadyNodes(env, s)[0];
      ReadyHead(env, s);
      RunNodeKeepsConsistent(env, s, n);
      RunNodeKeepsJustified(env, s, n);
      if r.nodeExecutions < budget.maxNodeExecutions && !budget.maxPublications.Reached(r.publicationCount) {
        var turn := TakeTurn(env, s, r);
        TraverseKeepsJustified(env, turn.state, turn.result, budget);
      }
    }
  }

  // ---- an operation is a preparation and a traversal -------------------------------------------------

  /** The ids an operation arms, apart from the events nodes emit. */
  ghost function Arms(g: Graph, op: Operation): set<string> {
    match op
    case DoPublish(values, budget) => {}
    case DoStart(budget) => set n | n in g.nodes && n.trigger.OnStartup? :: n.id
    case DoDispatch(event, budget) => set n | n in g.nodes && Matches(n, event) :: n.id
    case DoActivate(id, budget) => {id}
    case DoResume(budget) => {}
  }

  lemma {:induction false} TriggerAmongExact(nodes: seq<Node>, s: State, e: Event)
    ensures TriggerAmong(nodes, s, e).triggered == s.triggered + set n | n in nodes && Matches(n, e) :: n.id
  {
    if nodes != [] {
      TriggerAmongExact(nodes[..|nodes| - 1], s, e);
      assert nodes == nodes[..|nodes| - 1] + [nodes[|nodes| - 1]];
    }
  }

  lemma {:induction false} PublishArmsNothing(g: Graph, s: State, values: seq<(string, Json)>)
    ensures PublishValues(g, s, values).state.triggered == s.triggered
  {
    if values != [] {
      PublishArmsNothing(g, s, values[..|values| - 1]);
    }
  }

  /** Every operation arms nodes or publishes to external tokens, and then traverses. */
  lemma PerformTraverses(env: Env, s: State, op: Operation) returns (t: State, r: Result)
    requires Regular(env) && Consistent(env, s) && Justified(env, s) && External(env.graph, op)
    ensures Perform(env, s, op) == Traverse(env, t, r, op.budget) && r.nodeExecutions == 0
    ensures Consistent(env, t) && Justified(env, t) && StaysAvailable(s, t)
    ensures t.triggered == s.triggered + Arms(env.graph, op)
    ensures forall n :: n in env.graph.nodes ==> (HasRun(t, n) <==> HasRun(s, n))
  {
    hide Traverse, Consistent, PublishValues, Regular, Justified, StaysAvailable, HasRun, TriggerAmong, TokenOf;
    if op.DoPublish? {
      PublishKeepsConsistent(env, s, op.values);
      PublishKeepsJustified(env, s, op.values);
      PublishArmsNothing(env.graph, s, op.values);
      PublishStays(env.graph, s, op.values);
      var seeded := PublishValues(env.graph, s, op.values);
      t, r := seeded.state, StartResult(seeded.publications, seeded.count);
    } else {
      r := StartResult(map[], 0);
      if op.DoDispatch? {
        TriggerAmongFrame(env.graph.nodes, s, op.event);
        TriggerAmongExact(env.graph.nodes, s, op.event);
        t := TriggerEvent(env.graph, s, op.event);
      } else {
        t := s.(triggered := s.triggered + Arms(env.graph, op));
        assert op.DoResume? ==> t == s;
      }
      SameTokensConsistent(env, s, t);
      SameTokensJustified(env, s, t);
      SameTokensStay(env, s, t);
    }
  }

  lemma SameTokensStay(env: Env, s: State, t: State)
    requires forall token :: TokenOf(t, token) == TokenOf(s, token)
    ensures StaysAvailable(s, t) && forall n :: HasRun(t, n) <==> HasRun(s, n)
  {
  }

  lemma {:induction false} PublishStays(g: Graph, s: State, values: seq<(string, Json)>)
    requires forall i, n :: 0 <= i < |values| && n in g.nodes ==> !n.Writes(values[i].0)
    ensures StaysAvailable(s, PublishValues(g, s, values).state)
    ensures forall n :: n in g.nodes ==> (HasRun(PublishValues(g, s, values).state, n) <==> HasRun(s, n))
  {
    if values != [] {
      var last := |values| - 1;
      PublishStays(g, s, values[..last]);
      var (token, value) := values[last];
      var t := PublishValues(g, s, values[..last]).state;
      PublishTokenFrame(t, token, value, None, g.PortModeOf(token));
      forall n | n in g.nodes
        ensures HasRun(PublishValues(g, s, values).state, n) <==> HasRun(t, n)
      {
        assert forall name :: name in n.outputs ==> n.Writes(n.outputs[name].token);
      }
    }
  }

  lemma PerformKeepsJustified(env: Env, s: State, op: Operation)
    requires Regular(env) && Consistent(env, s) && Justified(env, s) && External(env.graph, op)
    ensures Justified(env, Perform(env, s, op).state)
  {
    hide Traverse, Perform, Consistent, Justified, Regular;
    var t, r := PerformTraverses(env, s, op);
    TraverseKeepsJustified(env, t, r, op.budget);
  }

  lemma {:induction false} HistoryJustified(env: Env, history: seq<Operation>)
    requires Regular(env) && AllExternal(env.graph, history)
    ensures Justified(env, After(env, history))
  {
    if history == [] {
      assert forall token :: TokenOf(Initial(env.graph), token) == ABSENT;
    } else {
      HistoryJustified(env, history[..|history| - 1]);
      HistoryConsistent(env, history[..|history| - 1]);
      PerformKeepsJustified(env, After(env, history[..|history| - 1]), history[|history| - 1]);
    }
  }

  // ---- at rest every token is evaluated -----------------------------------------------------------------

  ghost function InputValues(s: State, n: Node): (values: map<string, Option<Json>>)
    ensures values.Keys == n.inputs.Keys
  {
    map name | name in n.inputs :: ValueOf(s, n.inputs[name].token)
  }

  /** The started nodes as far as the evaluation asks for them. */
  ghost predicate Starts(env: Env, s: State, started: set<string>) {
    forall n :: n in env.graph.nodes && NoRequired(n) && !SomeAvailable(s, n) && n.outputs != map[]
      ==> (n.id in started <==> HasRun(s, n))
  }

  lemma StartedStarts(env: Env, s: State)
    requires env.graph.UniqueIds()
    ensures Starts(env, s, Started(env.graph, s))
  {
    forall n | n in env.graph.nodes && n.id in Started(env.graph, s)
      ensures HasRun(s, n)
    {
      var m :| m in env.graph.nodes && NoRequired(m) && HasRun(s, m) && m.id == n.id;
      SameIdSameNode(env.graph, m, n);
    }
  }

  lemma InputsAre(s: State, n: Node)
    requires forall token :: TokenOf(s, token).available ==> TokenOf(s, token).value.Some?
    ensures var values := InputValues(s, n);
            && ReadInputs(s, n) == (map name | name in n.inputs && values[name].Some? :: values[name].value)
            && ((exists name :: name in n.inputs && values[name].Some?) <==> SomeAvailable(s, n))
            && ((forall name :: name in n.inputs && !n.inputs[name].optional ==> values[name].Some?)
                <==> RequiredAvailable(s, n))
  {
    var values := InputValues(s, n);
    assert forall name :: name in n.inputs ==> (values[name].Some? <==> TokenOf(s, n.inputs[name].token).available);
    if SomeAvailable(s, n) {
      var name :| name in n.inputs && TokenOf(s, n.inputs[name].token).available;
      assert values[name].Some?;
    }
  }

  lemma NodeEvaluates(env: Env, s: State, started: set<string>, n: Node, port: string)
    requires Regular(env) && Consistent(env, s) && Justified(env, s) && AtRest(env, s) && Starts(env, s, started)
    requires n in env.graph.nodes && port in n.outputs
    ensures ValueOf(s, n.outputs[port].token) == EvalNode(env, started, n, port, InputValues(s, n))
  {
    hide InputValues, NodeFunction, ReadInputs, Regular, AtRest;
    InputsAre(s, n);
    assert NodeJustified(env, s, n);
    if SomeAvailable(s, n) {
      if RequiredAvailable(s, n) {
        RestMeansAgreement(env, s, n);
      } else {
        assert !HasRun(s, n);
      }
    } else {
      ReadsNothing(s, n);
      assert ValueOf(s, n.outputs[port].token).Some? ==> HasRun(s, n);
      assert RequiredAvailable(s, n) ==> (n.id in started <==> HasRun(s, n));
    }
  }

  /** At rest, every token has the value the evaluation gives it, and is absent where it gives none. */
  lemma {:induction false} RestEvaluates(env: Env, rank: map<string, nat>, s: State, started: set<string>,
      token: string)
    requires Regular(env) && Ranked(env.graph, rank)
    requires Consistent(env, s) && Justified(env, s) && AtRest(env, s) && Starts(env, s, started)
    ensures ValueOf(s, token) == Eval(env, rank, ExternalValues(env.graph, s), started, token)
    decreases TokenRank(env.graph, rank, token), 1
  {
    var external := ExternalValues(env.graph, s);
    if Produced(env.graph, token) {
      var (n, port) := Producer(env.graph, token);
      InputsEvaluate(env, rank, s, started, n);
      hide Regular, Ranked, Consistent, Justified, AtRest, ValueOf, EvalNode, EvalInputs, InputValues, Starts;
      NodeEvaluates(env, s, started, n, port);
    } else {
      UnproducedIsExternal(env.graph, s, token);
    }
  }

  lemma {:induction false} InputsEvaluate(env: Env, rank: map<string, nat>, s: State, started: set<string>, n: Node)
    requires Regular(env) && Ranked(env.graph, rank) && n in env.graph.nodes
    requires Consistent(env, s) && Justified(env, s) && AtRest(env, s) && Starts(env, s, started)
    ensures InputValues(s, n) == EvalInputs(env, rank, ExternalValues(env.graph, s), started, n)
    decreases 1 + rank[n.id], 0
  {
    hide Regular, Consistent, Justified, AtRest, ValueOf, Eval, Starts;
    forall name | name in n.inputs
      ensures ValueOf(s, n.inputs[name].token)
           == Eval(env, rank, ExternalValues(env.graph, s), started, n.inputs[name].token)
    {
      InputsRankLower(env.graph, rank, n, name);
      RestEvaluates(env, rank, s, started, n.inputs[name].token);
    }
  }

  lemma UnproducedIsExternal(g: Graph, s: State, token: string)
    requires !Produced(g, token)
    ensures ValueOf(s, token) == if token in ExternalValues(g, s) then Some(ExternalValues(g, s)[token]) else None
  {
  }

  /** The refinement: in an acyclic graph, a run that reports quiescence leaves every token at its topological
      evaluation from the external tokens and from the nodes without required inputs that have run. */
  lemma QuiescenceIsEvaluation(env: Env, rank: map<string, nat>, history: seq<Operation>, op: Operation, token: string)
    requires Regular(env) && Ranked(env.graph, rank)
    requires AllExternal(env.graph, history) && External(env.graph, op)
    requires Perform(env, After(env, history), op).Done?
        && Perform(env, After(env, history), op).result.status == Quiescent
    ensures var s := Perform(env, After(env, history), op).state;
            ValueOf(s, token) == Eval(env, rank, ExternalValues(env.graph, s), Started(env.graph, s), token)
  {
    var s := After(env, history);
    HistoryConsistent(env, history);
    HistoryJustified(env, history);
    PerformKeepsConsistent(env, s, op);
    PerformKeepsJustified(env, s, op);
    PerformedIsAtRest(env, s, op);
    StartedStarts(env, Perform(env, s, op).state);
    RestEvaluates(env, rank, Perform(env, s, op).state, Started(env.graph, Perform(env, s, op).state), token);
  }

  // ---- which nodes have run --------------------------------------------------------------------------------

  /** `armed` holds every id triggered so far: what ran without an input was armed, and what was armed and
      requires nothing is still armed or has run. */
  ghost predicate Tracked(env: Env, s: State, armed: set<string>) {
    && s.triggered <= armed
    && (forall n :: n in env.graph.nodes && HasRun(s, n) && !SomeAvailable(s, n) ==> n.id in armed)
    && (forall n :: n in env.graph.nodes && n.id in armed && NoRequired(n) && n.outputs != map[]
          ==> n.id in s.triggered || HasRun(s, n))
  }

  lemma RunNodeKeepsTracked(env: Env, s: State, n: Node, armed: set<string>)
    requires Regular(env) && EmitsNoEvents(env) && Sound(env, s) && Tracked(env, s, armed)
    requires n in env.graph.nodes && IsReady(s, n) && RunNode(env, s, n).Stepped?
    ensures Tracked(env, RunNode(env, s, n).state, armed)
  {
    hide RunNode, Regular, Sound;
    var s' := RunNode(env, s, n).state;
    RunNodeFrame(env, s, n);
    assert s'.triggered == s.triggered - {n.id};
    forall m | m in env.graph.nodes
      ensures HasRun(s', m) && !SomeAvailable(s', m) ==> m.id in armed
      ensures m.id in armed && NoRequired(m) && m.outputs != map[] ==> m.id in s'.triggered || HasRun(s', m)
    {
      assert !SomeAvailable(s', m) ==> !SomeAvailable(s, m);
      if m.id == n.id {
        SameNode(env, m, n);
        ExecutedJustified(env, s, n);
        AllOutputsHasRun(s', n);
        if !SomeAvailable(s, n) {
          ReadsNothing(s, n);
        }
      } else {
        OthersHaveRun(env, s, n, m);
      }
    }
  }

  lemma SameNode(env: Env, m: Node, n: Node)
    requires Regular(env) && m in env.graph.nodes && n in env.graph.nodes && m.id == n.id
    ensures m == n
  {
    SameIdSameNode(env.graph, m, n);
  }

  lemma AllOutputsHasRun(s: State, n: Node)
    requires AllOutputs(s, n)
    ensures n.outputs != map[] ==> HasRun(s, n)
  {
    if n.outputs != map[] {
      var name :| name in n.outputs;
    }
  }

  lemma OthersHaveRun(env: Env, s: State, n: Node, m: Node)
    requires Regular(env) && n in env.graph.nodes && m in env.graph.nodes && m.id != n.id
    ensures HasRun(RunNode(env, s, n).state, m) <==> HasRun(s, m)
  {
    hide RunNode;
    RunNodeFrame(env, s, n);
    forall name | name in m.outputs
      ensures TokenOf(RunNode(env, s, n).state, m.outputs[name].token) == TokenOf(s, m.outputs[name].token)
    {
      assert !n.Writes(m.outputs[name].token);
    }
  }

  lemma SameTokensTracked(env: Env, s: State, s': State, armed: set<string>)
    requires Tracked(env, s, armed) && s'.triggered == s.triggered
    requires forall token :: TokenOf(s', token) == TokenOf(s, token)
    ensures Tracked(env, s', armed)
  {
  }

  lemma {:induction false} TraverseKeepsTracked(env: Env, s: State, r: Result, budget: Budget, armed: set<string>)
    requires Regular(env) && EmitsNoEvents(env) && Consistent(env, s) && Justified(env, s) && Tracked(env, s, armed)
    ensures Tracked(env, Traverse(env, s, r, budget).state, armed)
    decreases budget.maxNodeExecutions - r.nodeExecutions
  {
    hide Justified, RunNode, Tracked;
    if ReadyNodes(env, s) == [] {
      SameTokensJustified(env, s, Settle(env.graph, s));
      SameTokensTracked(env, s, Settle(env.graph, s), armed);
    } else {
      SameTokensTracked(env, s, s.(status := Yielded), armed);
      var n := ReadyNodes(env, s)[0];
      ReadyHead(env, s);
      RunNodeKeepsConsistent(env, s, n);
      RunNodeKeepsJustified(env, s, n);
      RunNodeKeepsTracked(env, s, n, armed);
      if r.nodeExecutions < budget.maxNodeExecutions && !budget.maxPublications.Reached(r.publicationCount) {
        var turn := TakeTurn(env, s, r);
        TraverseKeepsTracked(env, turn.state, turn.result, budget, armed);
      }
    }
  }

  lemma PreparedTracked(env: Env, s: State, t: State, armed: set<string>, more: set<string>)
    requires Tracked(env, s, armed) && StaysAvailable(s, t) && t.triggered == s.triggered + more
    requires forall n :: n in env.graph.nodes ==> (HasRun(t, n) <==> HasRun(s, n))
    ensures Tracked(env, t, armed + more)
  {
  }

  lemma PerformKeepsTracked(env: Env, s: State, op: Operation, armed: set<string>)
    requires Regular(env) && EmitsNoEvents(env) && Consistent(env, s) && Justified(env, s) && External(env.graph, op)
    requires Tracked(env, s, armed)
    ensures Tracked(env, Perform(env, s, op).state, armed + Arms(env.graph, op))
  {
    hide Traverse, Perform, Consistent, Justified, Regular, Tracked, EmitsNoEvents, HasRun, StaysAvailable;
    var t, r := PerformTraverses(env, s, op);
    PreparedTracked(env, s, t, armed, Arms(env.graph, op));
    TraverseKeepsTracked(env, t, r, op.budget, armed + Arms(env.graph, op));
  }

  ghost function ArmedBy(g: Graph, history: seq<Operation>): set<string> {
    if history == [] then {} else ArmedBy(g, history[..|history| - 1]) + Arms(g, history[|history| - 1])
  }

  lemma {:induction false} HistoryTracked(env: Env, history: seq<Operation>)
    requires Regular(env) && EmitsNoEvents(env) && AllExternal(env.graph, history)
    ensures Tracked(env, After(env, history), ArmedBy(env.graph, history))
  {
    hide Tracked, EmitsNoEvents, Regular, Perform;
    if history == [] {
      NothingTracked(env);
    } else {
      var rest := history[..|history| - 1];
      HistoryTracked(env, rest);
      HistoryConsistent(env, rest);
      HistoryJustified(env, rest);
      PerformKeepsTracked(env, After(env, rest), history[|history| - 1], ArmedBy(env.graph, rest));
    }
  }

  lemma NothingTracked(env: Env)
    ensures Tracked(env, Initial(env.graph), {})
  {
    assert forall token :: TokenOf(Initial(env.graph), token) == ABSENT;
  }

  /** At rest nothing that requires no input is still armed. */
  lemma TrackedAtRest(env: Env, s: State, armed: set<string>)
    requires Consistent(env, s) && AtRest(env, s) && Tracked(env, s, armed)
    ensures Starts(env, s, armed)
  {
    forall n | n in env.graph.nodes && NoRequired(n) && !SomeAvailable(s, n) && n.outputs != map[]
      ensures n.id in armed <==> HasRun(s, n)
    {
      assert !IsReady(s, n) && NodeOf(s, n.id).status.Idle?;
    }
  }

  /** Where nodes emit no events the evaluation needs nothing of the state but the external tokens: the nodes
      started are those some operation armed. */
  lemma QuiescenceIsEvaluationOfHistory(
    env: Env, rank: map<string, nat>, history: seq<Operation>, op: Operation, token: string)
    requires Regular(env) && EmitsNoEvents(env) && Ranked(env.graph, rank)
    requires AllExternal(env.graph, history) && External(env.graph, op)
    requires Perform(env, After(env, history), op).Done?
        && Perform(env, After(env, history), op).result.status == Quiescent
    ensures var s := Perform(env, After(env, history), op).state;
            ValueOf(s, token)
            == Eval(env, rank, ExternalValues(env.graph, s), ArmedBy(env.graph, history) + Arms(env.graph, op), token)
  {
    hide Regular, EmitsNoEvents, Ranked, Consistent, Justified, Tracked, AtRest, Starts, Perform, After, ArmedBy, Arms,
        Eval;
    var s := After(env, history);
    HistoryConsistent(env, history);
    HistoryJustified(env, history);
    HistoryTracked(env, history);
    PerformKeepsConsistent(env, s, op);
    PerformKeepsJustified(env, s, op);
    PerformKeepsTracked(env, s, op, ArmedBy(env.graph, history));
    PerformedIsAtRest(env, s, op);
    var armed := ArmedBy(env.graph, history) + Arms(env.graph, op);
    TrackedAtRest(env, Perform(env, s, op).state, armed);
    RestEvaluates(env, rank, Perform(env, s, op).state, armed, token);
  }
}
