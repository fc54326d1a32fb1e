/** What a quiescent runtime means: every fed node's outputs are its function of the current token
    values, and in an acyclic graph those values are the topological evaluation of the external tokens
    (kernel/src/graph-runtime.ts:239-314, 363-406). */
module GraphDenotation {
  import opened Json
  import opened Graphs
  import opened GraphSemantics
  import opened GraphFrames
  import opened GraphTermination

  // ---- the class of graphs and executors the property is about ---------------------------------

  /** The outcome's outputs as an object; a name published twice keeps its last value. */
  function OutputMap(outputs: seq<(string, Json)>): map<string, Json> {
    if outputs == [] then map[]
    else OutputMap(outputs[..|outputs| - 1])[outputs[|outputs| - 1].0 := outputs[|outputs| - 1].1]
  }

  ghost predicate NoRepeats(outputs: seq<(string, Json)>) {
    forall i, j :: 0 <= i < j < |outputs| ==> outputs[i].0 != outputs[j].0
  }

  /** Every port is in value mode. */
  ghost predicate ValueGraph(g: Graph) {
    && (forall token :: g.PortModeOf(token).ValueMode?)
    && (forall n, name :: n in g.nodes && name in n.outputs ==> OutputMode(g, n.outputs[name]).ValueMode?)
  }

  /** Each token is written by at most one output port of one node. */
  ghost predicate SingleProducers(g: Graph) {
    forall m, n, p, q ::
      (m in g.nodes && n in g.nodes && p in m.outputs && q in n.outputs && m.outputs[p].token == n.outputs[q].token)
      ==> (m.id == n.id && p == q)
  }

  /** The node as a function of its inputs. */
  function NodeFunction(env: Env, n: Node, inputs: map<string, Json>): map<string, Json> {
    OutputMap(env.exec(n, inputs, None).outputs)
  }

  /** Every run of a node publishes each of its outputs once, as a function of its inputs alone. */
  ghost predicate PublishesAll(env: Env) {
    forall n, inputs, e :: n in env.graph.nodes ==>
      var outputs := env.exec(n, inputs, e).outputs;
      NoRepeats(outputs) && OutputMap(outputs) == NodeFunction(env, n, inputs)
          && OutputMap(outputs).Keys == n.outputs.Keys
  }

  ghost predicate Regular(env: Env) {
    env.graph.UniqueIds() && ValueGraph(env.graph) && SingleProducers(env.graph) && PublishesAll(env)
  }

  // ---- the invariant -------------------------------------------------------------------------------

  predicate SomeAvailable(s: State, n: Node) {
    exists name :: name in n.inputs && TokenOf(s, n.inputs[name].token).available
  }

  /** The node has an available input and all its required inputs. */
  predicate Fed(s: State, n: Node) {
    RequiredAvailable(s, n) && SomeAvailable(s, n)
  }

  function ValueOf(s: State, token: string): Option<Json> {
    if TokenOf(s, token).available then TokenOf(s, token).value else None
  }

  /** The node's output tokens hold its function of the current input tokens. */
  ghost predicate Agrees(env: Env, s: State, n: Node) {
    var wanted := NodeFunction(env, n, ReadInputs(s, n));
    wanted.Keys == n.outputs.Keys &&
    forall name :: name in n.outputs ==> ValueOf(s, n.outputs[name].token) == Some(wanted[name])
  }

  /** No record of a consumed version runs ahead of the token, and available tokens have a value. */
  ghost predicate Sound(env: Env, s: State) {
    && (forall n, token ::
        n in env.graph.nodes && n.Reads(token)
        ==> Consumed(s, n.id, token) <= TokenOf(s, token).version)
    && (forall token :: TokenOf(s, token).available ==> TokenOf(s, token).value.Some?)
    && (forall id :: !NodeOf(s, id).status.Running?)
  }

  /** The invariant of the runtime between turns: a fed node that has seen its inputs agrees with them. */
  ghost predicate Consistent(env: Env, s: State) {
    && Sound(env, s)
    && forall n :: n in env.graph.nodes && Fed(s, n) && !HasNewInput(s, n) ==> Agrees(env, s, n)
  }

  // ---- publishing keeps it ---------------------------------------------------------------------------

  /** `s'` is `s` with some tokens published anew: each changed token moved to a later version. */
  ghost predicate TokensAdvance(s: State, s': State) {
    && (forall token :: TokenOf(s', token).version >= TokenOf(s, token).version)
    && (forall token ::
        TokenOf(s', token).version == TokenOf(s, token).version
        ==> TokenOf(s', token) == TokenOf(s, token))
    && (forall token :: TokenOf(s, token).available ==> TokenOf(s', token).available)
  }

  /** A node that has nothing new to read in `s'`, and whose record did not move, reads what it read in `s`. */
  lemma NothingNewNothingMoved(env: Env, s: State, s': State, m: Node)
    requires Sound(env, s) && TokensAdvance(s, s') && m in env.graph.nodes
    requires NodeOf(s', m.id).consumed == NodeOf(s, m.id).consumed
    requires !HasNewInput(s', m)
    ensures forall name :: name in m.inputs && TokenOf(s', m.inputs[name].token).available
              ==> TokenOf(s', m.inputs[name].token) == TokenOf(s, m.inputs[name].token)
    ensures ReadInputs(s', m) == ReadInputs(s, m)
    ensures Fed(s', m) ==> Fed(s, m)
    ensures !HasNewInput(s, m)
  {
    forall name | name in m.inputs && TokenOf(s', m.inputs[name].token).available
      ensures TokenOf(s', m.inputs[name].token) == TokenOf(s, m.inputs[name].token)
    {
      assert m.Reads(m.inputs[name].token);
    }
  }

  /** A node none of whose own record and output tokens moved keeps the invariant. */
  lemma BystanderAgrees(env: Env, s: State, s': State, m: Node)
    requires Consistent(env, s) && TokensAdvance(s, s') && m in env.graph.nodes
    requires NodeOf(s', m.id).consumed == NodeOf(s, m.id).consumed
    requires forall name :: name in m.outputs ==>
        TokenOf(s', m.outputs[name].token)
        == TokenOf(s, m.outputs[name].token)
    requires Fed(s', m) && !HasNewInput(s', m)
    ensures Agrees(env, s', m)
  {
    NothingNewNothingMoved(env, s, s', m);
  }

  /** After a node published its outputs in value mode, each of its tokens holds the published value. */
  lemma {:induction false} OutputsHeld(g: Graph, n: Node, s: State, outputs: seq<(string, Json)>)
    requires ValueGraph(g) && SingleProducers(g) && n in g.nodes
    requires NoRepeats(outputs) && OutputMap(outputs).Keys <= n.outputs.Keys
    requires forall token :: TokenOf(s, token).available ==> TokenOf(s, token).value.Some?
    ensures var r := PublishOutputs(g, n, s, outputs);
            && r.AllPublished?
            && (forall token :: TokenOf(r.state, token).available ==> TokenOf(r.state, token).value.Some?)
            && forall name :: name in OutputMap(outputs) ==>
                 ValueOf(r.state, n.outputs[name].token) == Some(OutputMap(outputs)[name])
  {
    if outputs != [] {
      var rest := outputs[..|outputs| - 1];
      assert OutputMap(rest).Keys <= OutputMap(outputs).Keys;
      OutputsHeld(g, n, s, rest);
      KeysAreNames(rest);
      var name := outputs[|outputs| - 1].0;
      assert name in OutputMap(outputs);
      var before := PublishOutputs(g, n, s, rest).state;
      PublishTokenFrame(before, n.outputs[name].token, outputs[|outputs| - 1].1, Some(n.id),
          OutputMode(g, n.outputs[name]));
      forall other | other in OutputMap(rest)
        ensures n.outputs[other].token != n.outputs[name].token
      {
        var i :| 0 <= i < |rest| && rest[i].0 == other;
        assert outputs[i].0 == other;
      }
    }
  }

  lemma {:induction false} KeysAreNames(outputs: seq<(string, Json)>)
    ensures forall name :: name in OutputMap(outputs) <==> exists i :: 0 <= i < |outputs| && outputs[i].0 == name
  {
    if outputs != [] {
      KeysAreNames(outputs[..|outputs| - 1]);
    }
  }

  /** Whatever ready node runs, fed or triggered, with events or without: the invariant survives. */
  lemma RunNodeKeepsConsistent(env: Env, s: State, n: Node)
    requires Regular(env) && Consistent(env, s) && n in env.graph.nodes
    ensures RunNode(env, s, n).Stepped? && Consistent(env, RunNode(env, s, n).state)
  {
    RunNodeFrame(env, s, n);
    var before := AfterExecution(env, s, n);
    var outcome := OutcomeOf(env, s, n);
    SameTokensBeforePublishing(env, s, n);
    OutputsHeld(env.graph, n, before, outcome.outputs);
    var s' := RunNode(env, s, n).state;
    assert forall token ::
        TokenOf(s', token) == TokenOf(PublishOutputs(env.graph, n, before, outcome.outputs).state, token);
    assert TokensAdvance(s, s');
    RunNodeKeepsSound(env, s, n);
    forall m | m in env.graph.nodes && Fed(s', m) && !HasNewInput(s', m)
      ensures Agrees(env, s', m)
    {
      if m.id == n.id {
        SameIdSameNode(env.graph, m, n);
        ExecutedAgrees(env, s, n);
      } else {
        forall name | name in m.outputs
          ensures TokenOf(s', m.outputs[name].token) == TokenOf(s, m.outputs[name].token)
        {
          assert !n.Writes(m.outputs[name].token);
        }
        BystanderAgrees(env, s, s', m);
      }
    }
  }

  lemma SameTokensBeforePublishing(env: Env, s: State, n: Node)
    ensures forall token :: TokenOf(AfterExecution(env, s, n), token) == TokenOf(s, token)
  {
    var begun := Begin(s, n);
    TriggerEventsFrame(env.graph,
      begun.(triggered := begun.triggered - {n.id}, eventByNode := begun.eventByNode - {n.id}),
          OutcomeOf(env, s, n).events);
  }

  lemma RunNodeKeepsSound(env: Env, s: State, n: Node)
    requires Regular(env) && Sound(env, s) && n in env.graph.nodes && RunNode(env, s, n).Stepped?
    requires forall token ::
        TokenOf(RunNode(env, s, n).state, token).available
        ==> TokenOf(RunNode(env, s, n).state, token).value.Some?
    ensures Sound(env, RunNode(env, s, n).state)
  {
    var s' := RunNode(env, s, n).state;
    RunNodeFrame(env, s, n);
    forall m, token | m in env.graph.nodes && m.Reads(token)
      ensures Consumed(s', m.id, token) <= TokenOf(s', token).version
    {
      if m.id == n.id {
        SameIdSameNode(env.graph, m, n);
        CapturedIsCurrent(s, n, token);
      }
    }
  }

  /** What the node computed is on its output tokens. */
  lemma ExecutedHolds(env: Env, s: State, n: Node)
    requires Regular(env) && Sound(env, s) && n in env.graph.nodes && RunNode(env, s, n).Stepped?
    ensures var wanted := NodeFunction(env, n, ReadInputs(s, n));
            && wanted.Keys == n.outputs.Keys
            && forall name :: name in n.outputs ==>
                ValueOf(RunNode(env, s, n).state, n.outputs[name].token)
                == Some(wanted[name])
  {
    hide PublishOutputs, AfterExecution, ReadInputs, OutputMap, NoRepeats;
    var s' := RunNode(env, s, n).state;
    var outcome := OutcomeOf(env, s, n);
    SameTokensBeforePublishing(env, s, n);
    OutputsHeld(env.graph, n, AfterExecution(env, s, n), outcome.outputs);
    var published := PublishOutputs(env.graph, n, AfterExecution(env, s, n), outcome.outputs).state;
    assert forall token :: TokenOf(s', token) == TokenOf(published, token);
  }

  /** If nothing new reached it meanwhile, it read what its inputs still hold. */
  lemma ExecutedReadsTheSame(env: Env, s: State, n: Node)
    requires !HasNewInput(RunNode(env, s, n).state, n) && Sound(env, s)
    ensures ReadInputs(RunNode(env, s, n).state, n) == ReadInputs(s, n)
  {
    hide RunNode, Sound;
    var s' := RunNode(env, s, n).state;
    RunNodeFrame(env, s, n);
    forall name | name in n.inputs && TokenOf(s', n.inputs[name].token).available
      ensures TokenOf(s', n.inputs[name].token) == TokenOf(s, n.inputs[name].token)
    {
      CapturedIsCurrent(s, n, n.inputs[name].token);
    }
  }

  /** So the executed node agrees with its inputs. */
  lemma ExecutedAgrees(env: Env, s: State, n: Node)
    requires Regular(env) && Sound(env, s) && n in env.graph.nodes && RunNode(env, s, n).Stepped?
    requires !HasNewInput(RunNode(env, s, n).state, n)
    ensures Agrees(env, RunNode(env, s, n).state, n)
  {
    hide RunNode, Regular, Sound, ReadInputs, NodeFunction, ValueOf;
    ExecutedHolds(env, s, n);
    ExecutedReadsTheSame(env, s, n);
  }

  /** Publishing to tokens no node produces keeps the invariant. */
  lemma {:induction false} PublishKeepsConsistent(env: Env, s: State, values: seq<(string, Json)>)
    requires Regular(env) && Consistent(env, s)
    requires forall i, n :: 0 <= i < |values| && n in env.graph.nodes ==> !n.Writes(values[i].0)
    ensures Consistent(env, PublishValues(env.graph, s, values).state)
  {
    if values != [] {
      var last := |values| - 1;
      PublishKeepsConsistent(env, s, values[..last]);
      var (token, value) := values[last];
      var t := PublishValues(env.graph, s, values[..last]).state;
      var t' := PublishValues(env.graph, s, values).state;
      PublishTokenFrame(t, token, value, None, env.graph.PortModeOf(token));
      assert forall id :: NodeOf(t', id) == NodeOf(t, id);
      forall m | m in env.graph.nodes && Fed(t', m) && !HasNewInput(t', m)
        ensures Agrees(env, t', m)
      {
        forall name | name in m.outputs
          ensures m.outputs[name].token != token
        {
          assert m.Writes(m.outputs[name].token);
        }
        BystanderAgrees(env, t, t', m);
      }
    }
  }

  lemma {:induction false} TraverseKeepsConsistent(env: Env, s: State, r: Result, budget: Budget)
    requires Regular(env) && Consistent(env, s)
    ensures Traverse(env, s, r, budget).Done? && Consistent(env, Traverse(env, s, r, budget).state)
    decreases budget.maxNodeExecutions - r.nodeExecutions
  {
    if ReadyNodes(env, s) == [] {
      SameTokensConsistent(env, s, Settle(env.graph, s));
    } else {
      SameTokensConsistent(env, s, s.(status := Yielded));
      ReadyHead(env, s);
      RunNodeKeepsConsistent(env, s, ReadyNodes(env, s)[0]);
      if r.nodeExecutions < budget.maxNodeExecutions && !budget.maxPublications.Reached(r.publicationCount) {
        var turn := TakeTurn(env, s, r);
        TraverseKeepsConsistent(env, turn.state, turn.result, budget);
      }
    }
  }

  lemma SameTokensConsistent(env: Env, s: State, s': State)
    requires Consistent(env, s) && s'.nodes == s.nodes
    requires s'.tokens == s.tokens || (ValueGraph(env.graph) && s' == Settle(env.graph, s))
    ensures Consistent(env, s')
  {
    assert forall token :: TokenOf(s', token) == TokenOf(s, token);
    assert forall id :: NodeOf(s', id) == NodeOf(s, id);
    forall m | m in env.graph.nodes && Fed(s', m) && !HasNewInput(s', m)
      ensures Agrees(env, s', m)
    {
      BystanderAgrees(env, s, s', m);
    }
  }

  // ---- histories ---------------------------------------------------------------------------------------

  /** The operations a history may consist of: everything but hydrate, complete, mutate and publishing to
      a token some node produces. */
  datatype Operation =
    | DoPublish(values: seq<(string, Json)>, budget: Budget)
    | DoStart(budget: Budget)
    | DoDispatch(event: Event, budget: Budget)
    | DoActivate(id: string, budget: Budget)
    | DoResume(budget: Budget)

  function Perform(env: Env, s: State, op: Operation): Run {
    match op
    case DoPublish(values, budget) => Publish(env, s, values, budget)
    case DoStart(budget) => Start(env, s, budget)
    case DoDispatch(event, budget) => Dispatch(env, s, event, budget)
    case DoActivate(id, budget) => Activate(env, s, id, budget)
    case DoResume(budget) => Resume(env, s, budget)
  }

  ghost predicate External(g: Graph, op: Operation) {
    op.DoPublish? ==> forall i, n :: 0 <= i < |op.values| && n in g.nodes ==> !n.Writes(op.values[i].0)
  }

  function After(env: Env, history: seq<Operation>): State {
    if history == [] then Initial(env.graph)
    else Perform(env, After(env, history[..|history| - 1]), history[|history| - 1]).state
  }

  ghost predicate AllExternal(g: Graph, history: seq<Operation>) {
    forall op :: op in history ==> External(g, op)
  }

  lemma PerformKeepsConsistent(env: Env, s: State, op: Operation)
    requires Regular(env) && Consistent(env, s) && External(env.graph, op)
    ensures Perform(env, s, op).Done? && Consistent(env, Perform(env, s, op).state)
  {
    match op
    case DoPublish(values, budget) =>
      PublishKeepsConsistent(env, s, values);
      var seeded := PublishValues(env.graph, s, values);
      TraverseKeepsConsistent(env, seeded.state, StartResult(seeded.publications, seeded.count), budget);
    case DoStart(budget) =>
      var hit := set n | n in env.graph.nodes && n.trigger.OnStartup? :: n.id;
      SameTokensConsistent(env, s, s.(triggered := s.triggered + hit));
      TraverseKeepsConsistent(env, s.(triggered := s.triggered + hit), StartResult(map[], 0), budget);
    case DoDispatch(event, budget) =>
      TriggerAmongFrame(env.graph.nodes, s, event);
      SameTokensConsistent(env, s, TriggerEvent(env.graph, s, event));
      TraverseKeepsConsistent(env, TriggerEvent(env.graph, s, event), StartResult(map[], 0), budget);
    case DoActivate(id, budget) =>
      SameTokensConsistent(env, s, s.(triggered := s.triggered + {id}));
      TraverseKeepsConsistent(env, s.(triggered := s.triggered + {id}), StartResult(map[], 0), budget);
    case DoResume(budget) =>
      TraverseKeepsConsistent(env, s, StartResult(map[], 0), budget);
  }

  lemma {:induction false} HistoryConsistent(env: Env, history: seq<Operation>)
    requires Regular(env) && AllExternal(env.graph, history)
    ensures Consistent(env, After(env, history))
  {
    if history == [] {
      assert forall token :: TokenOf(Initial(env.graph), token) == ABSENT;
      assert forall id :: NodeOf(Initial(env.graph), id) == NodeState(Idle, map[]);
    } else {
      HistoryConsistent(env, history[..|history| - 1]);
      PerformKeepsConsistent(env, After(env, history[..|history| - 1]), history[|history| - 1]);
    }
  }

  /** At rest: no node is ready and none waits for an answer. */
  ghost predicate AtRest(env: Env, s: State) {
    && (forall n :: n in env.graph.nodes ==> !IsReady(s, n) && !NodeOf(s, n.id).status.Suspended?)
  }

  /** A run that reports quiescence leaves the runtime at rest. */
  lemma {:induction false} QuiescentIsAtRest(env: Env, s: State, r: Result, budget: Budget)
    requires Traverse(env, s, r, budget).Done? && Traverse(env, s, r, budget).result.status == Quiescent
    ensures AtRest(env, Traverse(env, s, r, budget).state)
    decreases budget.maxNodeExecutions - r.nodeExecutions
  {
    if ReadyNodes(env, s) == [] {
      SettledHasNoReadyNode(env, s);
      forall n | n in env.graph.nodes
        ensures !IsReady(Settle(env.graph, s), n)
      {
        ReadyNodesExact(env, Settle(env.graph, s), n);
      }
    } else {
      var turn := TakeTurn(env, s, r);
      QuiescentIsAtRest(env, turn.state, turn.result, budget);
    }
  }

  lemma PerformedIsAtRest(env: Env, s: State, op: Operation)
    requires Perform(env, s, op).Done? && Perform(env, s, op).result.status == Quiescent
    ensures AtRest(env, Perform(env, s, op).state)
  {
    hide Traverse, AtRest;
    match op
    case DoPublish(values, budget) =>
      var seeded := PublishValues(env.graph, s, values);
      QuiescentIsAtRest(env, seeded.state, StartResult(seeded.publications, seeded.count), budget);
    case DoStart(budget) =>
      var hit := set n | n in env.graph.nodes && n.trigger.OnStartup? :: n.id;
      QuiescentIsAtRest(env, s.(triggered := s.triggered + hit), StartResult(map[], 0), budget);
    case DoDispatch(event, budget) =>
      QuiescentIsAtRest(env, TriggerEvent(env.graph, s, event), StartResult(map[], 0), budget);
    case DoActivate(id, budget) =>
      QuiescentIsAtRest(env, s.(triggered := s.triggered + {id}), StartResult(map[], 0), budget);
    case DoResume(budget) =>
      QuiescentIsAtRest(env, s, StartResult(map[], 0), budget);
  }

  lemma RestMeansAgreement(env: Env, s: State, n: Node)
    requires Consistent(env, s) && AtRest(env, s) && n in env.graph.nodes && Fed(s, n)
    ensures Agrees(env, s, n)
  {
  }

  /** After any history of external publications, triggers and resumptions, cyclic graphs included: when
      the last run reports quiescence, every fed node's outputs are its function of the current tokens. */
  lemma QuiescenceRefinesDenotation(env: Env, history: seq<Operation>, op: Operation)
    requires Regular(env) && AllExternal(env.graph, history) && External(env.graph, op)
    ensures var run := Perform(env, After(env, history), op);
            && run.Done?
            && (run.result.status == Quiescent ==>
                  forall n :: n in env.graph.nodes && Fed(run.state, n) ==> Agrees(env, run.state, n))
  {
    var s := After(env, history);
    HistoryConsistent(env, history);
    PerformKeepsConsistent(env, s, op);
    if Perform(env, s, op).result.status == Quiescent {
      PerformedIsAtRest(env, s, op);
      forall n | n in env.graph.nodes && Fed(Perform(env, s, op).state, n)
        ensures Agrees(env, Perform(env, s, op).state, n)
      {
        RestMeansAgreement(env, Perform(env, s, op).state, n);
      }
    }
  }
}
