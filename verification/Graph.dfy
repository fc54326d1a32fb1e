/** Program graphs: nodes joined by named tokens (kernel/src/types.ts). */
module Graphs {
  import opened Json

  datatype PortMode = ValueMode | SignalMode | StreamMode

  datatype InputPort = InputPort(token: string, optional: bool)

  datatype OutputPort = OutputPort(token: string, mode: Option<PortMode>)

  datatype PortDefinition = PortDefinition(mode: Option<PortMode>, producers: Option<string>)

  datatype Trigger = NoTrigger | OnStartup | OnEvent(name: string, node: Option<string>)

  /** `operation` stands for the node's operation together with its optional `when` gate: both are
      handed to the executor unread. */
  datatype Node = Node(
    id: string,
    inputs: map<string, InputPort>,
    outputs: map<string, OutputPort>,
    trigger: Trigger,
    operation: Json)
  {
    predicate Reads(token: string) {
      exists name :: name in inputs && inputs[name].token == token
    }

    predicate Writes(token: string) {
      exists name :: name in outputs && outputs[name].token == token
    }
  }

  datatype Graph = Graph(
    nodes: seq<Node>,
    inputs: seq<string>,
    outputs: seq<string>,
    ports: map<string, PortDefinition>)
  {
    /** Two occurrences of one node id are what `reindex` refuses. */
    predicate UniqueIds() {
      forall i, j :: 0 <= i < j < |nodes| ==> nodes[i].id != nodes[j].id
    }

    predicate HasNode(id: string) {
      exists n :: n in nodes && n.id == id
    }

    function PortModeOf(token: string): PortMode {
      if token in ports && ports[token].mode.Some? then ports[token].mode.value else ValueMode
    }
  }

  datatype Event = Event(node: string, name: string, payload: Json)

  /** What one execution of a node hands back to the runtime. */
  datatype Outcome = Outcome(
    outputs: seq<(string, Json)>,
    operations: seq<Json>,
    effects: seq<Json>,
    events: seq<Event>,
    program: seq<Json>,
    suspended: bool)

  type Executor = (Node, map<string, Json>, Option<Event>) -> Outcome

  lemma SameIdSameNode(g: Graph, m: Node, n: Node)
    requires g.UniqueIds() && m in g.nodes && n in g.nodes && m.id == n.id
    ensures m == n
  {
    var i :| 0 <= i < |g.nodes| && g.nodes[i] == m;
    var j :| 0 <= j < |g.nodes| && g.nodes[j] == n;
    assert !(i < j) && !(j < i);
  }
}
