/** The continuous dataflow runtime (kernel/src/graph-runtime.ts).

    The meaning of each operation as a function from runtime state to runtime state.  The class in
    GraphRuntime.dfy updates its fields step by step and is proved against these functions. */
module GraphSemantics {
  import opened Json
  import opened Graphs

  /** A token slot.  A signal that was cleared keeps its last value, so `value` may outlive `available`. */
  datatype Token = Token(available: bool, value: Option<Json>, version: nat, producedBy: Option<string>)

  const ABSENT := Token(false, None, 0, None)

  datatype NodeStatus = Idle | Running | Suspended

  datatype NodeState = NodeState(status: NodeStatus, consumed: map<string, nat>)

  datatype Status = Quiescent | AwaitingNode | Yielded

  datatype State = State(
    tokens: map<string, Token>,
    nodes: map<string, NodeState>,
    triggered: set<string>,
    eventByNode: map<string, Event>,
    status: Status)

  /** A budget limit; JavaScript callers may pass `Infinity`. */
  datatype Limit = AtMost(n: nat) | Unlimited
  {
    predicate Reached(count: nat) {
      AtMost? && count >= n
    }
  }

  datatype Budget = Budget(maxNodeExecutions: nat, maxPublications: Limit)

  /** The graph, the node executor, and the collation key that stands for `localeCompare`. */
  datatype Env = Env(graph: Graph, exec: Executor, collate: string -> real)

  datatype Result = Result(
    status: Status,
    publications: map<string, Json>,
    operations: seq<Json>,
    effects: seq<Json>,
    events: seq<Event>,
    program: seq<Json>,
    readyNodes: seq<string>,
    nodeExecutions: nat,
    publicationCount: nat)

  /** A traversal either returns, or throws because `node` published an output it does not declare. */
  datatype Run = Done(state: State, result: Result) | Threw(state: State, node: string, output: string)

  function StartResult(publications: map<string, Json>, count: nat): Result {
    Result(Quiescent, publications, [], [], [], [], [], 0, count)
  }

  function TokenOf(s: State, token: string): Token {
    if token in s.tokens then s.tokens[token] else ABSENT
  }

  function NodeOf(s: State, id: string): NodeState {
    if id in s.nodes then s.nodes[id] else NodeState(Idle, map[])
  }

  function Consumed(s: State, id: string, token: string): nat {
    if token in NodeOf(s, id).consumed then NodeOf(s, id).consumed[token] else 0
  }

  // ---- publishing -----------------------------------------------------------

  function NextToken(current: Token, value: Json, producer: Option<string>, mode: PortMode): Token {
    var stored := if mode.StreamMode?
                  then Arr((if current.value.Some? && current.value.value.Arr? then current.value.value.items else [])
                      + [value])
                  else value;
    Token(true, Some(stored), current.version + 1, producer)
  }

  /** Whether publishing `value` changes the token; an equal value in value mode does not. */
  predicate Changes(s: State, token: string, value: Json, mode: PortMode) {
    !(mode.ValueMode? && TokenOf(s, token).available && TokenOf(s, token).value == Some(value))
  }

  function PublishToken(s: State, token: string, value: Json, producer: Option<string>, mode: PortMode): State {
    if Changes(s, token, value, mode)
    then s.(tokens := s.tokens[token := NextToken(TokenOf(s, token), value, producer, mode)])
    else s.(tokens := s.tokens[token := TokenOf(s, token)])
  }

  datatype Published = Published(state: State, publications: map<string, Json>, count: nat)

  /** Values published from outside the graph, in order. */
  function PublishValues(g: Graph, s: State, values: seq<(string, Json)>): Published {
    if values == [] then Published(s, map[], 0)
    else
      var before := PublishValues(g, s, values[..|values| - 1]);
      var (token, value) := values[|values| - 1];
      var mode := g.PortModeOf(token);
      var next := PublishToken(before.state, token, value, None, mode);
      if Changes(before.state, token, value, mode)
      then Published(next, before.publications[token := value], before.count + 1)
      else Published(next, before.publications, before.count)
  }

  function OutputMode(g: Graph, port: OutputPort): PortMode {
    if port.mode.Some? then port.mode.value else g.PortModeOf(port.token)
  }

  datatype Outputs =
    | AllPublished(state: State, publications: map<string, Json>, count: nat)
    | Undeclared(state: State, name: string)

  /** The outputs of one node, in order, up to the first one the node does not declare. */
  function PublishOutputs(g: Graph, n: Node, s: State, outputs: seq<(string, Json)>): Outputs {
    if outputs == [] then AllPublished(s, map[], 0)
    else
      var before := PublishOutputs(g, n, s, outputs[..|outputs| - 1]);
      if before.Undeclared? then before
      else
        var (name, value) := outputs[|outputs| - 1];
        if name !in n.outputs then Undeclared(before.state, name)
        else
          var port := n.outputs[name];
          var mode := OutputMode(g, port);
          var next := PublishToken(before.state, port.token, value, Some(n.id), mode);
          if Changes(before.state, port.token, value, mode)
          then AllPublished(next, before.publications[port.token := value], before.count + 1)
          else AllPublished(next, before.publications, before.count)
  }

  // ---- readiness --------------------------------------------------------------

  predicate RequiredAvailable(s: State, n: Node) {
    forall name :: name in n.inputs && !n.inputs[name].optional ==> TokenOf(s, n.inputs[name].token).available
  }

  predicate HasNewInput(s: State, n: Node) {
    exists name :: name in n.inputs &&
      TokenOf(s, n.inputs[name].token).available &&
      TokenOf(s, n.inputs[name].token).version > Consumed(s, n.id, n.inputs[name].token)
  }

  predicate IsReady(s: State, n: Node) {
    && NodeOf(s, n.id).status.Idle?
    && RequiredAvailable(s, n)
    && (n.id in s.triggered || HasNewInput(s, n))
  }

  /** `Array.prototype.filter`. */
  function ReadyAmong(s: State, nodes: seq<Node>): seq<Node> {
    if nodes == [] then []
    else
      var rest := ReadyAmong(s, nodes[..|nodes| - 1]);
      var last := nodes[|nodes| - 1];
      if IsReady(s, last) then rest + [last] else rest
  }

  /** Stable insertion: after every element whose key is not greater. */
  function InsertById(collate: string -> real, n: Node, sorted: seq<Node>): seq<Node> {
    if sorted == [] || collate(sorted[|sorted| - 1].id) <= collate(n.id) then sorted + [n]
    else InsertById(collate, n, sorted[..|sorted| - 1]) + [sorted[|sorted| - 1]]
  }

  function SortById(collate: string -> real, nodes: seq<Node>): seq<Node> {
    if nodes == [] then []
    else InsertById(collate, nodes[|nodes| - 1], SortById(collate, nodes[..|nodes| - 1]))
  }

  function ReadyNodes(env: Env, s: State): seq<Node> {
    SortById(env.collate, ReadyAmong(s, env.graph.nodes))
  }

  function Ids(nodes: seq<Node>): seq<string> {
    seq(|nodes|, i requires 0 <= i < |nodes| => nodes[i].id)
  }

  // ---- running one node -----------------------------------------------------------

  function ReadInputs(s: State, n: Node): map<string, Json> {
    map name | name in n.inputs && TokenOf(s, n.inputs[name].token).available
      :: var v := TokenOf(s, n.inputs[name].token).value; if v.Some? then v.value else Null
  }

  function InputTokens(n: Node): set<string> {
    set name | name in n.inputs :: n.inputs[name].token
  }

  function Capture(s: State, n: Node): map<string, nat> {
    NodeOf(s, n.id).consumed + map token | token in InputTokens(n) :: TokenOf(s, token).version
  }

  function WithNode(s: State, id: string, node: NodeState): State {
    s.(nodes := s.nodes[id := node])
  }

  /** A node whose declared trigger matches the event. */
  predicate Matches(n: Node, e: Event) {
    n.trigger.OnEvent? && n.trigger.name == e.name && (n.trigger.node.Some? ==> n.trigger.node.value == e.node)
  }

  function TriggerAmong(nodes: seq<Node>, s: State, e: Event): State {
    if nodes == [] then s
    else
      var before := TriggerAmong(nodes[..|nodes| - 1], s, e);
      var n := nodes[|nodes| - 1];
      if Matches(n, e)
      then before.(triggered := before.triggered + {n.id}, eventByNode := before.eventByNode[n.id := e])
      else before
  }

  function TriggerEvent(g: Graph, s: State, e: Event): State {
    TriggerAmong(g.nodes, s, e)
  }

  function TriggerEvents(g: Graph, s: State, events: seq<Event>): State {
    if events == [] then s
    else TriggerEvent(g, TriggerEvents(g, s, events[..|events| - 1]), events[|events| - 1])
  }

  /** The node is marked running and its input versions are recorded. */
  function Begin(s: State, n: Node): State {
    WithNode(s, n.id, NodeState(Running, Capture(s, n)))
  }

  function EventFor(s: State, n: Node): Option<Event> {
    if n.id in s.eventByNode then Some(s.eventByNode[n.id]) else None
  }

  function OutcomeOf(env: Env, s: State, n: Node): Outcome {
    env.exec(n, ReadInputs(s, n), EventFor(s, n))
  }

  /** The state in which the node's outputs are published. */
  function AfterExecution(env: Env, s: State, n: Node): State {
    var begun := Begin(s, n);
    var untriggered := begun.(triggered := begun.triggered - {n.id}, eventByNode := begun.eventByNode - {n.id});
    TriggerEvents(env.graph, untriggered, OutcomeOf(env, s, n).events)
  }

  datatype Step =
    | Stepped(state: State, publications: map<string, Json>, count: nat)
    | StepThrew(state: State, output: string)

  function RunNode(env: Env, s: State, n: Node): Step {
    var outcome := OutcomeOf(env, s, n);
    match PublishOutputs(env.graph, n, AfterExecution(env, s, n), outcome.outputs)
    case Undeclared(s', name) => StepThrew(s', name)
    case AllPublished(s', publications, count) =>
      var status := if outcome.suspended then Suspended else Idle;
      Stepped(WithNode(s', n.id, NodeOf(s', n.id).(status := status)), publications, count)
  }

  function AddStep(r: Result, outcome: Outcome, publications: map<string, Json>, count: nat): Result {
    r.(publications := r.publications + publications,
       operations := r.operations + outcome.operations,
       effects := r.effects + outcome.effects,
       events := r.events + outcome.events,
       program := r.program + outcome.program,
       nodeExecutions := r.nodeExecutions + 1,
       publicationCount := r.publicationCount + count)
  }

  // ---- traversal ----------------------------------------------------------------------

  function ClearSignals(g: Graph, s: State): State {
    s.(tokens := map token | token in s.tokens
       :: if g.PortModeOf(token).SignalMode? then s.tokens[token].(available := false) else s.tokens[token])
  }

  predicate AnySuspended(s: State) {
    exists id :: id in s.nodes && s.nodes[id].status.Suspended?
  }

  function Settle(g: Graph, s: State): State {
    ClearSignals(g, s).(status := if AnySuspended(s) then AwaitingNode else Quiescent)
  }

  /** One turn of the loop, taken by the first ready node. */
  datatype Turn = Turned(state: State, result: Result) | Broke(state: State, node: string, output: string)

  function TakeTurn(env: Env, s: State, r: Result): (t: Turn)
    requires ReadyNodes(env, s) != []
    ensures t.Turned? ==> t.result.nodeExecutions == r.nodeExecutions + 1
    ensures t.Turned? ==> t.result.publicationCount >= r.publicationCount
  {
    var n := ReadyNodes(env, s)[0];
    match RunNode(env, s, n)
    case StepThrew(s', name) => Broke(s', n.id, name)
    case Stepped(s', publications, count) => Turned(s', AddStep(r, OutcomeOf(env, s, n), publications, count))
  }

  /** Runs the first ready node again and again, until none is ready or the budget is spent. */
  function Traverse(env: Env, s: State, r: Result, budget: Budget): Run
    decreases budget.maxNodeExecutions - r.nodeExecutions
  {
    var ready := ReadyNodes(env, s);
    if ready == [] then
      var s' := Settle(env.graph, s);
      Done(s', r.(status := s'.status, readyNodes := []))
    else if r.nodeExecutions >= budget.maxNodeExecutions || budget.maxPublications.Reached(r.publicationCount) then
      Done(s.(status := Yielded), r.(status := Yielded, readyNodes := Ids(ready)))
    else
      match TakeTurn(env, s, r)
      case Broke(s', node, output) => Threw(s', node, output)
      case Turned(s', r') => Traverse(env, s', r', budget)
  }

  // ---- the public operations ---------------------------------------------------------------

  function Publish(env: Env, s: State, values: seq<(string, Json)>, budget: Budget): Run {
    var seeded := PublishValues(env.graph, s, values);
    Traverse(env, seeded.state, StartResult(seeded.publications, seeded.count), budget)
  }

  function Resume(env: Env, s: State, budget: Budget): Run {
    Traverse(env, s, StartResult(map[], 0), budget)
  }

  function Start(env: Env, s: State, budget: Budget): Run {
    var hit := set n | n in env.graph.nodes && n.trigger.OnStartup? :: n.id;
    Resume(env, s.(triggered := s.triggered + hit), budget)
  }

  function Dispatch(env: Env, s: State, e: Event, budget: Budget): Run {
    Resume(env, TriggerEvent(env.graph, s, e), budget)
  }

  function Activate(env: Env, s: State, id: string, budget: Budget): Run {
    Resume(env, s.(triggered := s.triggered + {id}), budget)
  }

  datatype Completion = Completed(run: Run) | UnknownNode | NotSuspended

  /** The answer of a suspended node arrives from outside. */
  function Complete(env: Env, s: State, id: string, outputs: seq<(string, Json)>, budget: Budget): Completion {
    if !env.graph.HasNode(id) then UnknownNode
    else
      var n := FirstNode(env.graph, id);
      if !NodeOf(s, id).status.Suspended? then NotSuspended
      else
        match PublishOutputs(env.graph, n, WithNode(s, id, NodeOf(s, id).(status := Idle)), outputs)
        case Undeclared(s', name) => Completed(Threw(s', id, name))
        case AllPublished(s', publications, count) =>
          Completed(Traverse(env, s', StartResult(publications, count), budget))
  }

  function FirstIn(nodes: seq<Node>, id: string): (n: Node)
    requires exists m :: m in nodes && m.id == id
    ensures n in nodes && n.id == id
  {
    if nodes[0].id == id then nodes[0] else FirstIn(nodes[1..], id)
  }

  function FirstNode(g: Graph, id: string): (n: Node)
    requires g.HasNode(id)
    ensures n in g.nodes && n.id == id
  {
    FirstIn(g.nodes, id)
  }

  /** Seeds the tokens and marks everything as already seen, so that nothing becomes ready. */
  function Hydrate(g: Graph, s: State, values: seq<(string, Json)>): State {
    CaptureAll(PublishValues(g, s, values).state, g.nodes)
  }

  function CaptureAll(s: State, nodes: seq<Node>): State {
    if nodes == [] then s
    else
      var before := CaptureAll(s, nodes[..|nodes| - 1]);
      var n := nodes[|nodes| - 1];
      WithNode(before, n.id, NodeOf(before, n.id).(consumed := Capture(before, n)))
  }

  // ---- topology ---------------------------------------------------------------------------------

  function DeclaredTokens(g: Graph): set<string> {
    (set n, name | n in g.nodes && name in n.inputs :: n.inputs[name].token)
    + (set n, name | n in g.nodes && name in n.outputs :: n.outputs[name].token)
    + (set token | token in g.inputs) + (set token | token in g.outputs) + g.ports.Keys
  }

  function NodeIds(nodes: seq<Node>): set<string> {
    if nodes == [] then {} else NodeIds(nodes[..|nodes| - 1]) + {nodes[|nodes| - 1].id}
  }

  lemma {:induction false} NodeIdsContains(nodes: seq<Node>, id: string)
    ensures id in NodeIds(nodes) <==> exists i :: 0 <= i < |nodes| && nodes[i].id == id
  {
    if nodes != [] {
      NodeIdsContains(nodes[..|nodes| - 1], id);
    }
  }

  /** New tokens are absent, new nodes idle; a removed node loses its state, a removed token keeps it. */
  function Reindex(g: Graph, s: State): State {
    s.(tokens := (map token | token in DeclaredTokens(g) :: TokenOf(s, token)) + s.tokens,
       nodes := map id | id in NodeIds(g.nodes) :: NodeOf(s, id))
  }

  function NodeTokens(n: Node): set<string> {
    (set name | name in n.inputs :: n.inputs[name].token) + (set name | name in n.outputs :: n.outputs[name].token)
  }

  /** A node met by `reindex`: it and its tokens have a state from then on. */
  function Ensure(s: State, n: Node): State {
    s.(tokens := (map token | token in NodeTokens(n) :: TokenOf(s, token)) + s.tokens,
       nodes := if n.id in s.nodes then s.nodes else s.nodes[n.id := NodeState(Idle, map[])])
  }

  function EnsureAll(s: State, nodes: seq<Node>): State {
    if nodes == [] then s else Ensure(EnsureAll(s, nodes[..|nodes| - 1]), nodes[|nodes| - 1])
  }

  ghost predicate Distinct(nodes: seq<Node>) {
    forall i, j :: 0 <= i < j < |nodes| ==> nodes[i].id != nodes[j].id
  }

  /** The first node whose id another one before it has. */
  ghost predicate FirstRepeat(nodes: seq<Node>, k: nat) {
    k < |nodes| && Distinct(nodes[..k]) && nodes[k].id in NodeIds(nodes[..k])
  }

  const EMPTY := State(map[], map[], {}, map[], Quiescent)

  function Initial(g: Graph): State {
    Reindex(g, EMPTY)
  }
}
