/** Committing a program patch keeps the live graph runtime on the program's graph (kernel/src/kernel.ts:613-636). */
module ProgramCommit {
  import opened Json
  import opened Graphs
  import opened GraphMutations
  import opened GraphRuntime
  import Semantics = GraphSemantics
  import Derivations
  import DerivationOrder
  import opened DerivationScheduling
  import opened ProgramPatches

  /** Schema and capability validation of a program, unread. */
  type Validator = Program -> bool

  /** Validation and the derivation scheduler's constructor accept the candidate. */
  ghost predicate Accepted(valid: Validator, p: Program) {
    && valid(p)
    && Derivations.UniqueIds(ListOf(p.derivations)) && Derivations.UniqueTargets(ListOf(p.derivations))
    && DerivationOrder.Acyclic(ListOf(p.derivations))
  }

  predicate IsMutation(patch: seq<Operation>) {
    |patch| == 1 && patch[0].MutateGraph?
  }

  /** A graph with two nodes of one id: what `reindex` refuses. */
  predicate GraphUnique(graph: Option<Graph>) {
    graph.Some? ==> graph.value.UniqueIds()
  }

  /** What a caller can check before the call: whether the commit goes through. */
  ghost predicate Commits(valid: Validator, doc: Program, patch: seq<Operation>) {
    && patch != [] && ApplyPatch(doc, patch).Some?
    && Accepted(valid, ApplyPatch(doc, patch).value)
    && (ApplyPatch(doc, patch).value.graph != doc.graph ==> GraphUnique(ApplyPatch(doc, patch).value.graph))
  }

  /** A lone graph mutation that leaves two nodes with one id: the runtime takes the graph before refusing it. */
  ghost predicate Diverges(valid: Validator, doc: Program, patch: seq<Operation>) {
    && IsMutation(patch) && ApplyPatch(doc, patch).Some?
    && Accepted(valid, ApplyPatch(doc, patch).value)
    && !GraphUnique(ApplyPatch(doc, patch).value.graph)
  }

  class KernelProgram {
    const valid: Validator
    const exec: Executor
    const collate: string -> real
    var doc: Program
    var graph: ContinuousGraphRuntime?
    var derivations: DerivationScheduler

    /** The live runtime executes the program's own graph. */
    ghost predicate Aligned()
      reads this, graph
    {
      && (graph == null <==> doc.graph.None?)
      && (graph != null ==> graph.graph == doc.graph.value && graph.graph.UniqueIds())
    }

    constructor (valid: Validator, exec: Executor, collate: string -> real, doc: Program,
        graph: ContinuousGraphRuntime?,
                 derivations: DerivationScheduler)
      ensures this.valid == valid && this.doc == doc && this.graph == graph && this.derivations == derivations
    {
      this.valid, this.exec, this.collate := valid, exec, collate;
      this.doc, this.graph, this.derivations := doc, graph, derivations;
    }

    /** A refusal leaves the program as it was, and the runtime too unless the patch diverges; a lone mutation
        keeps the runtime object and its tokens, any other change of the graph starts a new one. */
    method CommitProgramPatch(patch: seq<Operation>) returns (ok: bool)
      requires Aligned()
      modifies this, graph
      ensures ok <==> Commits(valid, old(doc), patch)
      ensures ok ==> Some(doc) == ApplyPatch(old(doc), patch) && Aligned()
      ensures ok ==>
          multiset(derivations.derivations) == multiset(ListOf(doc.derivations))
          && Derivations.Topological(derivations.derivations)
      ensures ok && IsMutation(patch) ==>
                graph == old(graph) && graph != null
                    && graph.TheState() == Semantics.Reindex(doc.graph.value, old(graph.TheState()))
      ensures ok && !IsMutation(patch) && doc.graph == old(doc.graph) && graph != null ==>
                graph == old(graph) && graph.TheState() == old(graph.TheState())
      ensures ok && !IsMutation(patch) && doc.graph != old(doc.graph) && graph != null ==>
                fresh(graph) && graph.TheState() == Semantics.Initial(doc.graph.value)
      ensures !ok ==> doc == old(doc) && derivations == old(derivations) && graph == old(graph)
      ensures !ok ==> (Aligned() <==> !Diverges(valid, doc, patch))
    {
      if |patch| == 0 {
        return false;
      }
      var applied := ApplyProgramPatch(doc, patch);
      if applied.None? {
        return false;
      }
      var candidate := applied.value;
      if !valid(candidate) {
        return false;
      }
      var scheduled := DerivationScheduler.Create(ListOf(candidate.derivations));
      if !scheduled.Constructed? {
        return false;
      }
      var mutation := |patch| == 1 && patch[0].MutateGraph?;
      var graphChanged := candidate.graph != doc.graph;
      var nextGraph: ContinuousGraphRuntime? := null;
      if graphChanged && !mutation && candidate.graph.Some? {
        var built, runtime := ContinuousGraphRuntime.Create(candidate.graph.value, exec, collate);
        if !built {
          return false;
        }
        nextGraph := runtime;
      }
      if mutation && graph != null {
        LoneMutation(doc, patch);
        var mutated := graph.Mutate(patch[0].mutations);
        if !mutated {
          return false;
        }
      } else if graphChanged {
        graph := nextGraph;
      }
      doc := candidate;
      derivations := scheduled.scheduler;
      ok := true;
    }
  }

  lemma LoneMutation(doc: Program, patch: seq<Operation>)
    requires IsMutation(patch) && ApplyPatch(doc, patch).Some?
    ensures doc.graph.Some? && MutateAll(doc.graph.value, patch[0].mutations) == ApplyPatch(doc, patch).value.graph
    ensures ApplyPatch(doc, patch).value.graph.Some?
  {
    assert ApplyPatch(doc, patch) == ApplyPatch(Apply(doc, patch[0]).value, patch[1..]);
  }

  // ---- which mutations can diverge --------------------------------------------------------------------

  predicate KeepsItsId(m: Mutation) {
    m.ReplaceNode? ==> m.node.id == m.nodeId
  }

  lemma MutateKeepsUnique(g: Graph, m: Mutation)
    requires g.UniqueIds() && KeepsItsId(m) && Mutate(g, m).Some?
    ensures Mutate(g, m).value.UniqueIds()
  {
    if m.RemoveNode? {
      WithoutKeepsUnique(g.nodes, m.nodeId);
      assert Mutate(g, m).value.nodes == Without(g.nodes, m.nodeId);
    } else if m.AddNode? {
      forall i | 0 <= i < |g.nodes|
        ensures g.nodes[i].id != m.node.id
      {
        assert g.nodes[i] in g.nodes;
      }
    } else if m.ReplaceNode? {
      var i := IndexOf(g.nodes, m.nodeId);
      var next := g.nodes[i := m.node];
      assert forall k :: 0 <= k < |next| ==> next[k].id == g.nodes[k].id;
    }
  }

  lemma {:induction false} WithoutKeepsUnique(nodes: seq<Node>, id: string)
    requires forall i, j :: 0 <= i < j < |nodes| ==> nodes[i].id != nodes[j].id
    ensures forall i, j :: 0 <= i < j < |Without(nodes, id)| ==> Without(nodes, id)[i].id != Without(nodes, id)[j].id
  {
    if nodes != [] {
      assert forall i :: 0 <= i < |nodes[1..]| ==> nodes[1..][i] == nodes[i + 1];
      WithoutKeepsUnique(nodes[1..], id);
      var rest := Without(nodes[1..], id);
      forall i | 0 <= i < |rest|
        ensures rest[i].id != nodes[0].id
      {
        assert rest[i] in rest;
        var k :| 0 <= k < |nodes[1..]| && nodes[1..][k] == rest[i];
      }
      var r := Without(nodes, id);
      assert r == if nodes[0].id == id then rest else [nodes[0]] + rest;
      assert nodes[0].id != id ==> forall i :: 0 < i < |r| ==> r[i] == rest[i - 1];
    }
  }

  lemma {:induction false} MutateAllKeepsUnique(g: Graph, ms: seq<Mutation>)
    requires g.UniqueIds() && (forall m :: m in ms ==> KeepsItsId(m)) && MutateAll(g, ms).Some?
    ensures MutateAll(g, ms).value.UniqueIds()
  {
    if ms != [] {
      MutateAllKeepsUnique(g, ms[..|ms| - 1]);
      MutateKeepsUnique(MutateAll(g, ms[..|ms| - 1]).value, ms[|ms| - 1]);
    }
  }

  /** Only a replacement under another node's id can: without one, no commit leaves the runtime apart. */
  lemma RenamingAloneDiverges(valid: Validator, doc: Program, patch: seq<Operation>)
    requires GraphUnique(doc.graph) && Diverges(valid, doc, patch)
    ensures exists m :: m in patch[0].mutations && !KeepsItsId(m)
  {
    LoneMutation(doc, patch);
    if forall m :: m in patch[0].mutations ==> KeepsItsId(m) {
      MutateAllKeepsUnique(doc.graph.value, patch[0].mutations);
    }
  }

  /** And it does: two nodes, one replaced under the other's id. */
  lemma RenamingDiverges(a: Node, b: Node)
    requires a.id != b.id
    ensures var doc := Program(None, Some(Graph([a, b], [], [], map[])), None, None, None, None);
            Diverges(_ => true, doc, [MutateGraph([ReplaceNode(b.id, b.(id := a.id))])])
  {
    var g := Graph([a, b], [], [], map[]);
    var doc := Program(None, Some(g), None, None, None, None);
    var m := ReplaceNode(b.id, b.(id := a.id));
    assert IndexOf([a, b], b.id) == 1;
    var next := g.(nodes := [a, b.(id := a.id)]);
    assert [a, b][1 := b.(id := a.id)] == [a, b.(id := a.id)];
    assert Mutate(g, m) == Some(next);
    assert MutateAll(g, [m][..0]) == Some(g);
    assert MutateAll(g, [m]) == Some(next);
    assert ApplyPatch(doc, [MutateGraph([m])]) == ApplyPatch(doc.(graph := Some(next)), []);
    assert next.nodes[0].id == next.nodes[1].id;
    NothingIsAcyclic();
  }

  lemma NothingIsAcyclic()
    ensures DerivationOrder.Acyclic([])
  {
    forall cycle: seq<string>
      ensures !DerivationOrder.IsCycle([], cycle)
    {
      if |cycle| >= 2 {
        assert !DerivationOrder.Edge([], cycle[0], cycle[0 + 1]);
      }
    }
  }
}
