/** Live edits of a program graph (kernel/src/program-patch.ts, applyGraphMutations). */
module GraphMutations {
  import opened Json
  import opened Graphs

  datatype Mutation =
    | AddNode(node: Node)
    | RemoveNode(nodeId: string)
    | ReplaceNode(nodeId: string, node: Node)
    | AddPort(token: string, definition: PortDefinition)
    | RemovePort(token: string)
    | UpdatePort(token: string, definition: PortDefinition)

  function Without(nodes: seq<Node>, id: string): (r: seq<Node>)
    ensures forall n :: n in r <==> n in nodes && n.id != id
  {
    if nodes == [] then []
    else (if nodes[0].id == id then [] else [nodes[0]]) + Without(nodes[1..], id)
  }

  /** `findIndex` by node id; the length when there is none. */
  function IndexOf(nodes: seq<Node>, id: string): (i: nat)
    ensures i <= |nodes|
    ensures i < |nodes| ==> nodes[i].id == id
    ensures forall j :: 0 <= j < i ==> nodes[j].id != id
  {
    if nodes == [] || nodes[0].id == id then 0 else 1 + IndexOf(nodes[1..], id)
  }

  /** None where the code throws: a duplicate `addNode` or an unknown `replaceNode`. */
  function Mutate(g: Graph, m: Mutation): Option<Graph> {
    match m
    case AddNode(node) => if g.HasNode(node.id) then None else Some(g.(nodes := g.nodes + [node]))
    case RemoveNode(id) => Some(g.(nodes := Without(g.nodes, id)))
    case ReplaceNode(id, node) =>
      var i := IndexOf(g.nodes, id);
      if i == |g.nodes| then None else Some(g.(nodes := g.nodes[i := node]))
    case AddPort(token, definition) => Some(g.(ports := g.ports[token := definition]))
    case RemovePort(token) => Some(g.(ports := g.ports - {token}))
    case UpdatePort(token, definition) => Some(g.(ports := g.ports[token := definition]))
  }

  function MutateAll(g: Graph, ms: seq<Mutation>): Option<Graph> {
    if ms == [] then Some(g)
    else
      match MutateAll(g, ms[..|ms| - 1])
      case None => None
      case Some(next) => Mutate(next, ms[|ms| - 1])
  }

  /** The loop of `applyGraphMutations`; None is a throw, which leaves the caller's graph alone. */
  method ApplyGraphMutations(g: Graph, ms: seq<Mutation>) returns (next: Option<Graph>)
    ensures next == MutateAll(g, ms)
  {
    next := Some(g);
    for i := 0 to |ms|
      invariant next == MutateAll(g, ms[..i])
    {
      assert ms[..i + 1][..i] == ms[..i];
      if next.Some? {
        next := Mutate(next.value, ms[i]);
      }
    }
    assert ms[..|ms|] == ms;
  }

  // ---- what a list of mutations leaves --------------------------------------------------------------

  /** An addition is refused exactly for an id the graph has, a replacement for one it has not; nothing else is. */
  lemma RefusedIff(g: Graph, m: Mutation)
    ensures Mutate(g, m).None?
       <==> (m.AddNode? && exists n :: n in g.nodes && n.id == m.node.id)
            || (m.ReplaceNode? && !exists n :: n in g.nodes && n.id == m.nodeId)
  {
    if m.AddNode? && g.HasNode(m.node.id) {
      var n :| n in g.nodes && n.id == m.node.id;
    }
    if m.ReplaceNode? {
      var i := IndexOf(g.nodes, m.nodeId);
      if i < |g.nodes| {
        assert g.nodes[i] in g.nodes;
      }
    }
  }

  /** The node a mutation concerns, and what it makes of it. */
  function NodeSet(m: Mutation, id: string): Option<Option<Node>> {
    match m
    case AddNode(node) => if node.id == id then Some(Some(node)) else None
    case RemoveNode(other) => if other == id then Some(None) else None
    case ReplaceNode(other, node) => if other == id then Some(Some(node)) else None
    case _ => None
  }

  function PortSet(m: Mutation, token: string): Option<Option<PortDefinition>> {
    match m
    case AddPort(other, definition) => if other == token then Some(Some(definition)) else None
    case UpdatePort(other, definition) => if other == token then Some(Some(definition)) else None
    case RemovePort(other) => if other == token then Some(None) else None
    case _ => None
  }

  /** The last of the settings counts; None where there is none. */
  function LastNodeSet(ms: seq<Mutation>, id: string): Option<Option<Node>> {
    if ms == [] then None
    else if NodeSet(ms[|ms| - 1], id).Some? then NodeSet(ms[|ms| - 1], id)
    else LastNodeSet(ms[..|ms| - 1], id)
  }

  function LastPortSet(ms: seq<Mutation>, token: string): Option<Option<PortDefinition>> {
    if ms == [] then None
    else if PortSet(ms[|ms| - 1], token).Some? then PortSet(ms[|ms| - 1], token)
    else LastPortSet(ms[..|ms| - 1], token)
  }

  predicate KeepsId(m: Mutation) {
    m.ReplaceNode? ==> m.node.id == m.nodeId
  }

  /** Every port is as the last mutation naming it left it, or as it was. */
  lemma {:induction false} PortsFollow(g: Graph, ms: seq<Mutation>, token: string)
    requires MutateAll(g, ms).Some?
    ensures var after, setting := MutateAll(g, ms).value, LastPortSet(ms, token);
            if setting.None? then (token in after.ports <==> token in g.ports)
                               && (token in g.ports ==> after.ports[token] == g.ports[token])
            else if setting.value.None? then token !in after.ports
            else token in after.ports && after.ports[token] == setting.value.value
    ensures MutateAll(g, ms).value.inputs == g.inputs && MutateAll(g, ms).value.outputs == g.outputs
  {
    if ms != [] {
      PortsFollow(g, ms[..|ms| - 1], token);
    }
  }

  ghost predicate UniqueNodes(nodes: seq<Node>) {
    forall i, j :: 0 <= i < j < |nodes| ==> nodes[i].id != nodes[j].id
  }

  lemma {:induction false} WithoutUnique(nodes: seq<Node>, id: string)
    requires UniqueNodes(nodes)
    ensures UniqueNodes(Without(nodes, id))
  {
    if nodes != [] {
      WithoutUnique(nodes[1..], id);
      var rest := Without(nodes[1..], id);
      forall j | 0 <= j < |rest|
        ensures rest[j].id != nodes[0].id
      {
        assert rest[j] in nodes[1..];
      }
    }
  }

  lemma MutationSetsNode(g: Graph, m: Mutation, n: Node)
    requires UniqueNodes(g.nodes) && KeepsId(m) && Mutate(g, m).Some?
    ensures UniqueNodes(Mutate(g, m).value.nodes)
    ensures n in Mutate(g, m).value.nodes
       <==> if NodeSet(m, n.id).Some? then NodeSet(m, n.id).value == Some(n) else n in g.nodes
  {
    var after := Mutate(g, m).value.nodes;
    if m.RemoveNode? {
      WithoutUnique(g.nodes, m.nodeId);
    } else if m.ReplaceNode? {
      var i := IndexOf(g.nodes, m.nodeId);
      assert after[i] == m.node;
      assert forall j :: 0 <= j < |after| && j != i ==> after[j] == g.nodes[j] && after[j].id != m.nodeId;
      if n in g.nodes && n.id != m.nodeId {
        var j :| 0 <= j < |g.nodes| && g.nodes[j] == n;
        assert after[j] == n;
      }
    } else if m.AddNode? {
      assert after[|g.nodes|] == m.node;
      if n in g.nodes {
        var j :| 0 <= j < |g.nodes| && g.nodes[j] == n;
        assert after[j] == n;
      }
    }
  }

  /** Where replacements keep the id, every node is as the last mutation naming its id left it, or as it was, and
      ids stay unique. */
  lemma {:induction false} NodesFollow(g: Graph, ms: seq<Mutation>, n: Node)
    requires UniqueNodes(g.nodes) && MutateAll(g, ms).Some? && forall m :: m in ms ==> KeepsId(m)
    ensures UniqueNodes(MutateAll(g, ms).value.nodes)
    ensures n in MutateAll(g, ms).value.nodes
       <==> if LastNodeSet(ms, n.id).Some? then LastNodeSet(ms, n.id).value == Some(n) else n in g.nodes
  {
    if ms != [] {
      NodesFollow(g, ms[..|ms| - 1], n);
      MutationSetsNode(MutateAll(g, ms[..|ms| - 1]).value, ms[|ms| - 1], n);
      hide Mutate, UniqueNodes, NodeSet;
    }
  }
}
