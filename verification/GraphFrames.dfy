/** What one execution of a node can and cannot touch: the facts the runtime theorems share. */
module GraphFrames {
  import opened Json
  import opened Graphs
  import opened GraphSemantics

  /** A publication touches one token, and changes it only by moving it to the next version. */
  lemma PublishTokenFrame(s: State, token: string, value: Json, producer: Option<string>, mode: PortMode)
    ensures var s' := PublishToken(s, token, value, producer, mode);
            && s' == s.(tokens := s'.tokens)
            && (forall other :: other != token ==> TokenOf(s', other) == TokenOf(s, other))
            && (if Changes(s, token, value, mode)
                then TokenOf(s', token) == NextToken(TokenOf(s, token), value, producer, mode)
                else TokenOf(s', token) == TokenOf(s, token))
  {
  }

  /** Nothing but the tokens a node writes moves while its outputs are published. */
  lemma {:induction false} OutputsFrame(g: Graph, n: Node, s: State, outputs: seq<(string, Json)>)
    ensures var s' := PublishOutputs(g, n, s, outputs).state;
            && s'.nodes == s.nodes && s'.triggered == s.triggered
            && s'.eventByNode == s.eventByNode && s'.status == s.status
            && (forall token :: !n.Writes(token) ==> TokenOf(s', token) == TokenOf(s, token))
            && (forall token :: TokenOf(s', token).version >= TokenOf(s, token).version)
            && (forall token :: TokenOf(s', token).version == TokenOf(s, token).version
                                ==> TokenOf(s', token) == TokenOf(s, token))
            && (forall token :: TokenOf(s, token).available ==> TokenOf(s', token).available)
  {
    if outputs != [] {
      OutputsFrame(g, n, s, outputs[..|outputs| - 1]);
      var (name, value) := outputs[|outputs| - 1];
      var before := PublishOutputs(g, n, s, outputs[..|outputs| - 1]);
      if before.AllPublished? && name in n.outputs {
        var port := n.outputs[name];
        assert n.Writes(port.token);
        PublishTokenFrame(before.state, port.token, value, Some(n.id), OutputMode(g, port));
      }
    }
  }

  /** Events only ever add triggers. */
  lemma {:induction false} TriggerAmongFrame(nodes: seq<Node>, s: State, e: Event)
    ensures var s' := TriggerAmong(nodes, s, e);
            s'.tokens == s.tokens && s'.nodes == s.nodes && s'.status == s.status && s.triggered <= s'.triggered
  {
    if nodes != [] {
      TriggerAmongFrame(nodes[..|nodes| - 1], s, e);
    }
  }

  lemma {:induction false} TriggerEventsFrame(g: Graph, s: State, events: seq<Event>)
    ensures var s' := TriggerEvents(g, s, events);
            s'.tokens == s.tokens && s'.nodes == s.nodes && s'.status == s.status && s.triggered <= s'.triggered
  {
    if events != [] {
      TriggerEventsFrame(g, s, events[..|events| - 1]);
      TriggerAmongFrame(g.nodes, TriggerEvents(g, s, events[..|events| - 1]), events[|events| - 1]);
    }
  }

  /** After a node ran: its input versions are recorded, its trigger is gone unless an event re-armed it,
      no other node's record moved, and only tokens it writes changed. */
  lemma RunNodeFrame(env: Env, s: State, n: Node)
    ensures var s' := RunNode(env, s, n).state;
            && (forall id :: id != n.id ==> NodeOf(s', id) == NodeOf(s, id))
            && NodeOf(s', n.id).consumed == Capture(s, n)
            && (forall token :: !n.Writes(token) ==> TokenOf(s', token) == TokenOf(s, token))
            && (forall token :: TokenOf(s', token).version >= TokenOf(s, token).version)
            && (forall token :: TokenOf(s', token).version == TokenOf(s, token).version
                                ==> TokenOf(s', token) == TokenOf(s, token))
            && (forall token :: TokenOf(s, token).available ==> TokenOf(s', token).available)
            && (OutcomeOf(env, s, n).events == [] ==> s'.triggered == s.triggered - {n.id})
            && (RunNode(env, s, n).Stepped? ==>
                  NodeOf(s', n.id).status == if OutcomeOf(env, s, n).suspended then Suspended else Idle)
  {
    var begun := Begin(s, n);
    var untriggered := begun.(triggered := begun.triggered - {n.id}, eventByNode := begun.eventByNode - {n.id});
    TriggerEventsFrame(env.graph, untriggered, OutcomeOf(env, s, n).events);
    assert forall token :: TokenOf(AfterExecution(env, s, n), token) == TokenOf(s, token);
    OutputsFrame(env.graph, n, AfterExecution(env, s, n), OutcomeOf(env, s, n).outputs);
  }

  /** The recorded version of every input token is the current one. */
  lemma CapturedIsCurrent(s: State, n: Node, token: string)
    requires token in InputTokens(n)
    ensures token in Capture(s, n) && Capture(s, n)[token] == TokenOf(s, token).version
  {
  }

  lemma {:induction false} FilterExact(s: State, nodes: seq<Node>, n: Node)
    ensures n in ReadyAmong(s, nodes) <==> n in nodes && IsReady(s, n)
  {
    if nodes != [] {
      FilterExact(s, nodes[..|nodes| - 1], n);
      assert nodes == nodes[..|nodes| - 1] + [nodes[|nodes| - 1]];
    }
  }

  /** Sorting keeps every node as often as it was there, in non-decreasing key order. */
  ghost predicate SortedById(collate: string -> real, nodes: seq<Node>) {
    forall i, j :: 0 <= i < j < |nodes| ==> collate(nodes[i].id) <= collate(nodes[j].id)
  }

  lemma {:induction false} InsertKeeps(collate: string -> real, n: Node, sorted: seq<Node>)
    ensures multiset(InsertById(collate, n, sorted)) == multiset(sorted) + multiset{n}
  {
    if sorted == [] || collate(sorted[|sorted| - 1].id) <= collate(n.id) {
    } else {
      InsertKeeps(collate, n, sorted[..|sorted| - 1]);
      assert sorted == sorted[..|sorted| - 1] + [sorted[|sorted| - 1]];
    }
  }

  lemma {:induction false} InsertSorts(collate: string -> real, n: Node, sorted: seq<Node>, top: real)
    requires SortedById(collate, sorted)
    requires collate(n.id) <= top && (sorted != [] ==> collate(sorted[|sorted| - 1].id) <= top)
    ensures var r := InsertById(collate, n, sorted);
            SortedById(collate, r) && r != [] && collate(r[|r| - 1].id) <= top
  {
    if sorted == [] || collate(sorted[|sorted| - 1].id) <= collate(n.id) {
    } else {
      var last := |sorted| - 1;
      assert last > 0 ==> collate(sorted[..last][last - 1].id) <= collate(sorted[last].id);
      InsertSorts(collate, n, sorted[..last], collate(sorted[last].id));
    }
  }

  lemma NothingSorted(collate: string -> real)
    ensures SortedById(collate, [])
  {
  }

  function TopOf(collate: string -> real, sorted: seq<Node>, floor: real): real {
    if sorted == [] || collate(sorted[|sorted| - 1].id) <= floor then floor else collate(sorted[|sorted| - 1].id)
  }

  lemma {:induction false} SortSorts(collate: string -> real, nodes: seq<Node>)
    ensures multiset(SortById(collate, nodes)) == multiset(nodes)
    ensures SortedById(collate, SortById(collate, nodes))
  {
    hide InsertById, SortedById;
    if nodes == [] {
      NothingSorted(collate);
    } else {
      SortSorts(collate, nodes[..|nodes| - 1]);
      var rest, last := SortById(collate, nodes[..|nodes| - 1]), nodes[|nodes| - 1];
      InsertKeeps(collate, last, rest);
      InsertSorts(collate, last, rest, TopOf(collate, rest, collate(last.id)));
      assert nodes == nodes[..|nodes| - 1] + [nodes[|nodes| - 1]];
    }
  }

  lemma ReadyNodesExact(env: Env, s: State, n: Node)
    ensures n in ReadyNodes(env, s) <==> n in env.graph.nodes && IsReady(s, n)
  {
    FilterExact(s, env.graph.nodes, n);
    SortSorts(env.collate, ReadyAmong(s, env.graph.nodes));
    assert n in multiset(ReadyNodes(env, s)) <==> n in multiset(ReadyAmong(s, env.graph.nodes));
  }

  /** The scheduler takes a node that is ready and whose id no other ready node precedes. */
  lemma ReadyHead(env: Env, s: State)
    requires ReadyNodes(env, s) != []
    ensures var n := ReadyNodes(env, s)[0];
            && n in env.graph.nodes && IsReady(s, n)
            && forall m :: m in env.graph.nodes && IsReady(s, m) ==> env.collate(n.id) <= env.collate(m.id)
  {
    var ready := ReadyNodes(env, s);
    SortSorts(env.collate, ReadyAmong(s, env.graph.nodes));
    ReadyNodesExact(env, s, ready[0]);
    forall m | m in env.graph.nodes && IsReady(s, m)
      ensures env.collate(ready[0].id) <= env.collate(m.id)
    {
      ReadyNodesExact(env, s, m);
    }
  }

  /** A state without ready nodes stays so when its signals are cleared. */
  lemma SettledHasNoReadyNode(env: Env, s: State)
    requires ReadyNodes(env, s) == []
    ensures ReadyNodes(env, Settle(env.graph, s)) == []
    ensures Settle(env.graph, Settle(env.graph, s)) == Settle(env.graph, s)
  {
    var s' := Settle(env.graph, s);
    assert forall token :: TokenOf(s', token).available ==> TokenOf(s, token).available;
    assert forall token :: TokenOf(s', token).version == TokenOf(s, token).version;
    forall n | n in env.graph.nodes
      ensures !IsReady(s', n)
    {
      ReadyNodesExact(env, s, n);
    }
    if ReadyNodes(env, s') != [] {
      ReadyHead(env, s');
    }
  }

  lemma {:induction false} CapturedAll(s: State, nodes: seq<Node>, n: Node, token: string)
    requires n in nodes && token in InputTokens(n)
    ensures CaptureAll(s, nodes).tokens == s.tokens
    ensures Consumed(CaptureAll(s, nodes), n.id, token) == TokenOf(s, token).version
  {
    hide InputTokens;
    var rest, last := nodes[..|nodes| - 1], nodes[|nodes| - 1];
    TokensStay(s, rest);
    CapturedIsCurrent(CaptureAll(s, rest), n, token);
    if n in rest {
      CapturedAll(s, rest, n, token);
      RecaptureKeeps(CaptureAll(s, rest), last, n.id, token);
    }
  }

  /** A second capture records the same version or leaves the record alone. */
  lemma RecaptureKeeps(s: State, last: Node, id: string, token: string)
    requires Consumed(s, id, token) == TokenOf(s, token).version
    ensures Consumed(WithNode(s, last.id, NodeOf(s, last.id).(consumed := Capture(s, last))), id, token)
        == TokenOf(s, token).version
  {
  }

  lemma {:induction false} TokensStay(s: State, nodes: seq<Node>)
    ensures CaptureAll(s, nodes).tokens == s.tokens
  {
    if nodes != [] {
      TokensStay(s, nodes[..|nodes| - 1]);
    }
  }

  /** After a hydration no input is new to any node: only a trigger can make one ready. */
  lemma HydrationIsNoNews(g: Graph, s: State, values: seq<(string, Json)>, n: Node)
    requires n in g.nodes
    ensures !HasNewInput(Hydrate(g, s, values), n)
  {
    var seeded, t := PublishValues(g, s, values).state, Hydrate(g, s, values);
    TokensStay(seeded, g.nodes);
    forall name | name in n.inputs
      ensures TokenOf(t, n.inputs[name].token).version == Consumed(t, n.id, n.inputs[name].token)
    {
      assert n.inputs[name].token in InputTokens(n);
      CapturedAll(seeded, g.nodes, n, n.inputs[name].token);
    }
  }

  // ---- ties ------------------------------------------------------------------------------------------------

  /** The nodes of one collation key, in order. */
  function OfKey(collate: string -> real, nodes: seq<Node>, key: real): seq<Node> {
    if nodes == [] then []
    else
      OfKey(collate, nodes[..|nodes| - 1], key)
      + if collate(nodes[|nodes| - 1].id) == key then [nodes[|nodes| - 1]] else []
  }

  lemma OfKeyAppend(collate: string -> real, nodes: seq<Node>, n: Node, key: real)
    ensures OfKey(collate, nodes + [n], key) == OfKey(collate, nodes, key) + if collate(n.id) == key then [n] else []
  {
    assert (nodes + [n])[..|nodes|] == nodes;
  }

  lemma {:induction false} InsertionIsStable(collate: string -> real, n: Node, sorted: seq<Node>, key: real)
    ensures OfKey(collate, InsertById(collate, n, sorted), key)
         == OfKey(collate, sorted, key) + if collate(n.id) == key then [n] else []
  {
    if sorted == [] || collate(sorted[|sorted| - 1].id) <= collate(n.id) {
      OfKeyAppend(collate, sorted, n, key);
    } else {
      var rest, last := sorted[..|sorted| - 1], sorted[|sorted| - 1];
      InsertionIsStable(collate, n, rest, key);
      OfKeyAppend(collate, InsertById(collate, n, rest), last, key);
    }
  }

  /** Nodes whose ids collate alike keep the order they have in the graph. */
  lemma {:induction false} SortIsStable(collate: string -> real, nodes: seq<Node>, key: real)
    ensures OfKey(collate, SortById(collate, nodes), key) == OfKey(collate, nodes, key)
  {
    if nodes != [] {
      SortIsStable(collate, nodes[..|nodes| - 1], key);
      InsertionIsStable(collate, nodes[|nodes| - 1], SortById(collate, nodes[..|nodes| - 1]), key);
    }
  }
}
