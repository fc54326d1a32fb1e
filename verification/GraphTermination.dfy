/** Without events, an acyclic graph of N nodes comes to rest within 2^N - 1 executions, whatever the id
    order the scheduler follows (kernel/src/graph-runtime.ts:254-314, 375-389). */
module GraphTermination {
  import opened Json
  import opened Graphs
  import opened GraphSemantics
  import opened GraphFrames

  function Pow2(n: nat): (p: nat)
    ensures p >= 1
  {
    if n == 0 then 1 else 2 * Pow2(n - 1)
  }

  /** A topological numbering of the nodes: a token's reader ranks above every one of its writers. */
  ghost predicate Ranked(g: Graph, rank: map<string, nat>) {
    && g.UniqueIds()
    && (forall n :: n in g.nodes ==> n.id in rank && rank[n.id] < |g.nodes|)
    && (forall m, n :: m in g.nodes && n in g.nodes && rank[m.id] == rank[n.id] ==> m.id == n.id)
    && (forall m, n, token :: m in g.nodes && n in g.nodes && m.Writes(token) && n.Reads(token)
          ==> rank[m.id] < rank[n.id])
  }

  ghost predicate EmitsNoEvents(env: Env) {
    forall n, inputs, e :: n in env.graph.nodes ==> env.exec(n, inputs, e).events == []
  }

  ghost predicate ReadyAt(env: Env, rank: map<string, nat>, s: State, r: nat)
    requires Ranked(env.graph, rank)
  {
    exists n :: n in env.graph.nodes && rank[n.id] == r && IsReady(s, n)
  }

  /** The readiness bits of ranks r and above as a binary number, lowest rank most significant. */
  ghost function Weight(env: Env, rank: map<string, nat>, s: State, r: nat): nat
    requires Ranked(env.graph, rank)
    decreases |env.graph.nodes| - r
  {
    if r >= |env.graph.nodes| then 0
    else (if ReadyAt(env, rank, s, r) then Pow2(|env.graph.nodes| - 1 - r) else 0) + Weight(env, rank, s, r + 1)
  }

  lemma {:induction false} WeightBound(env: Env, rank: map<string, nat>, s: State, r: nat)
    requires Ranked(env.graph, rank) && r <= |env.graph.nodes|
    ensures Weight(env, rank, s, r) <= Pow2(|env.graph.nodes| - r) - 1
    decreases |env.graph.nodes| - r
  {
    if r < |env.graph.nodes| {
      WeightBound(env, rank, s, r + 1);
    }
  }

  /** Clearing one bit outweighs setting every less significant one. */
  lemma {:induction false} WeightDrops(env: Env, rank: map<string, nat>, s: State, s': State, at: nat, r: nat)
    requires Ranked(env.graph, rank) && r <= at < |env.graph.nodes|
    requires ReadyAt(env, rank, s, at) && !ReadyAt(env, rank, s', at)
    requires forall q: nat :: q < at && ReadyAt(env, rank, s', q) ==> ReadyAt(env, rank, s, q)
    ensures Weight(env, rank, s', r) < Weight(env, rank, s, r)
    decreases at - r
  {
    if r < at {
      WeightDrops(env, rank, s, s', at, r + 1);
    } else {
      WeightBound(env, rank, s', r + 1);
    }
  }

  /** A node of lower rank reads nothing the executed node writes, so it cannot become ready. */
  lemma LowerRanksUntouched(env: Env, rank: map<string, nat>, s: State, n: Node, m: Node)
    requires Ranked(env.graph, rank) && EmitsNoEvents(env)
    requires n in env.graph.nodes && m in env.graph.nodes && rank[m.id] < rank[n.id]
    requires IsReady(RunNode(env, s, n).state, m)
    ensures IsReady(s, m)
  {
    var s' := RunNode(env, s, n).state;
    RunNodeFrame(env, s, n);
    forall name | name in m.inputs
      ensures TokenOf(s', m.inputs[name].token) == TokenOf(s, m.inputs[name].token)
    {
      assert m.Reads(m.inputs[name].token);
    }
  }

  /** The executed node itself has seen all its inputs and lost its trigger. */
  lemma ExecutedIsNotReady(env: Env, rank: map<string, nat>, s: State, n: Node)
    requires Ranked(env.graph, rank) && EmitsNoEvents(env) && n in env.graph.nodes
    ensures !IsReady(RunNode(env, s, n).state, n)
  {
    var s' := RunNode(env, s, n).state;
    RunNodeFrame(env, s, n);
    forall name | name in n.inputs
      ensures TokenOf(s', n.inputs[name].token).version == Consumed(s', n.id, n.inputs[name].token)
    {
      assert n.Reads(n.inputs[name].token);
      CapturedIsCurrent(s, n, n.inputs[name].token);
    }
  }

  lemma StepDropsWeight(env: Env, rank: map<string, nat>, s: State, n: Node)
    requires Ranked(env.graph, rank) && EmitsNoEvents(env)
    requires n in env.graph.nodes && IsReady(s, n)
    ensures Weight(env, rank, RunNode(env, s, n).state, 0) < Weight(env, rank, s, 0)
  {
    var s' := RunNode(env, s, n).state;
    ExecutedIsNotReady(env, rank, s, n);
    if ReadyAt(env, rank, s', rank[n.id]) {
      var m :| m in env.graph.nodes && rank[m.id] == rank[n.id] && IsReady(s', m);
      SameIdSameNode(env.graph, m, n);
    }
    forall q: nat | q < rank[n.id] && ReadyAt(env, rank, s', q)
      ensures ReadyAt(env, rank, s, q)
    {
      var m :| m in env.graph.nodes && rank[m.id] == q && IsReady(s', m);
      LowerRanksUntouched(env, rank, s, n, m);
    }
    WeightDrops(env, rank, s, s', rank[n.id], 0);
  }

  /** A budget as large as the current weight is never exhausted. */
  lemma {:induction false} TraversalWithinWeight(env: Env, rank: map<string, nat>, s: State, r: Result, budget: Budget)
    requires Ranked(env.graph, rank) && EmitsNoEvents(env)
    requires budget.maxPublications.Unlimited?
    requires r.nodeExecutions + Weight(env, rank, s, 0) <= budget.maxNodeExecutions
    ensures var run := Traverse(env, s, r, budget);
            run.Done? ==>
              && run.result.status != Yielded
              && ReadyNodes(env, run.state) == []
              && run.result.nodeExecutions <= r.nodeExecutions + Weight(env, rank, s, 0)
    decreases Weight(env, rank, s, 0)
  {
    if ReadyNodes(env, s) == [] {
      SettledHasNoReadyNode(env, s);
    } else {
      ReadyHead(env, s);
      var n := ReadyNodes(env, s)[0];
      StepDropsWeight(env, rank, s, n);
      var turn := TakeTurn(env, s, r);
      if turn.Turned? {
        TraversalWithinWeight(env, rank, turn.state, turn.result, budget);
      }
    }
  }

  /** From any state at all, 2^N - 1 executions suffice to leave no node ready. */
  lemma TerminatesWithinPow2(env: Env, rank: map<string, nat>, s: State, budget: Budget)
    requires Ranked(env.graph, rank) && EmitsNoEvents(env)
    requires budget.maxPublications.Unlimited? && budget.maxNodeExecutions >= Pow2(|env.graph.nodes|) - 1
    ensures var run := Resume(env, s, budget);
            run.Done? ==>
              && run.result.status != Yielded
              && ReadyNodes(env, run.state) == []
              && run.result.nodeExecutions <= Pow2(|env.graph.nodes|) - 1
  {
    WeightBound(env, rank, s, 0);
    TraversalWithinWeight(env, rank, s, StartResult(map[], 0), budget);
  }
}
