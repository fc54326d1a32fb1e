# Verified model

A model of the event-driven kernel, its durable runtime and its lowering tools, with proofs of what every run of
them keeps. Values the kernel stores are JSON; expressions, node operations, schema checks and storage are
arbitrary but deterministic functions, so each statement holds for all of them.

| files | component |
|---|---|
| `Graph*.dfy` | the continuous graph runtime: tokens with versions, triggers, signals, suspension, budgets, live mutation |
| `Paths.dfy` | dotted paths into the namespaced store, and the in-memory store |
| `Derivations.dfy`, `DerivationOrder.dfy`, `DerivationScheduler.dfy`, `Settlement.dfy`, `SettleTheorems.dfy`, `SettleExactness.dfy` | standing derivations: cycle search, order, incremental settling and exactly when it equals recomputation |
| `Source*.dfy` | the single-flight source-request protocol |
| `PatchStream.dfy`, `KernelFixpoints.dfy`, `Replica*.dfy` | the kernel's transitions and patch stream, the broker's bounded log, clients that come, go and resume |
| `Durable*.dfy` | leased engines folding a journal, the effect queue, settlements deduplicated by message id |
| `CellImpact.dfy` | staged impact analysis |
| `LoweringAxis.dfy`, `Service{Lowering,Effects}.dfy`, `Projection{Lowering,Effects}.dfy` | the lowering chains |
| `ProgramPatch.dfy`, `ProgramCommit.dfy` | program patches, their difference, and committing them to the live runtime |
| `ServiceHost*.dfy`, `ServiceInterleaving.dfy` | attempt accounting of the service host, also when executions interleave |
| `SseCodec.dfy`, `JsonReader.dfy` | framing of messages as server-sent events |

Where the source updates fields or runs loops, a class or a method with a loop does the same and is proved equal to
a function of the old state; the theorems are about that function. Where the durable runtime and the transport
interleave several processes, a step system over values says what may happen, and every interleaving is a run.
`dafny verify dfyconfig.toml` checks everything.

## Where the code does less than its description

- Incremental settling (kernel/src/derivations.ts:86-114) matches dependencies against the paths of the round before
  and evaluates a derivation once. It equals full recomputation for all expressions exactly when no derivation can
  change in a later round than one of its consumers was evaluated (`SettlesIffNoOvertaking`); a diamond of unequal
  depth violates this (`UnequalDiamondBreaks`).
- A client ignores a patch it already has unless its revision is 0 (kernel/src/client.ts:129). Redelivering one of
  revision 0 to a client that moved on applies it again and lowers the client's revision (`RedeliveryHarmlessIff`); the
  store it holds is then the kernel's only if nothing changed since the baseline (`ZeroRedeliveryHarmlessIff`).
- A client whose document lost its root ignores later program patches until it is onboarded in full, even when the
  kernel's document has a root again (`RootReturnsToKernelOnly`; exactly what it holds: `DrainedClientsConverge`,
  `ReplayedDocument`).
- A lone graph mutation that replaces a node under the id of another one is refused after the runtime already took
  the new graph, while the program keeps the old one (`RenamingDiverges`, and only then: `RenamingAloneDiverges`).
- A promotion activation that emits its source twice sends both requests under one token
  (`IncreasingIffOneReemission`).
- A frame that does not parse makes the parser throw, lose the messages read before it in the same chunk
  (`ThrowDropsItsChunk`) and leave the frames after it unread (`ThrowDelaysTheRest`). So chunks can matter, exactly as
  `CutsAgreeIff` says.
- Axis resolution accepts declared tiers that no recipe touches, as long as there is at least one recipe.

## Model

| member | source | states |
|---|---|---|
| `GraphRuntime.ContinuousGraphRuntime.Create` | kernel/src/graph-runtime.ts:64-71 | construction succeeds exactly for graphs without two nodes of one id, and then every declared token is absent and every node idle |
| `GraphRuntime.ContinuousGraphRuntime.Reindex` | kernel/src/graph-runtime.ts:322-343 | fails exactly on two nodes of one id, at the first repeated one, with those before it already given a state; otherwise new tokens and nodes start fresh, kept ones keep their state, removed nodes lose it |
| `GraphRuntime.ContinuousGraphRuntime.Mutate` | kernel/src/graph-runtime.ts:316-320 | a refused mutation changes nothing; an accepted one replaces the graph and raises the topology version before the ids are checked, and where a repeated id stops it the nodes before it have a state |
| `GraphRuntime.ContinuousGraphRuntime.PublishToken` | kernel/src/graph-runtime.ts:363-373 | an equal value in value mode is no publication; any other publication raises the version, and a stream appends |
| `GraphRuntime.ContinuousGraphRuntime.PublishValues` | kernel/src/graph-runtime.ts:127-141 | tokens, publications and count after seeding are those of the specification the theorems below are about |
| `GraphRuntime.ContinuousGraphRuntime.PublishOutputs` | kernel/src/graph-runtime.ts:302-311 | outputs are published one by one up to the first undeclared one, which throws with the earlier ones already published |
| `GraphRuntime.ContinuousGraphRuntime.TriggerEvent` | kernel/src/graph-runtime.ts:464-473 | exactly the nodes whose trigger matches the event are armed with it |
| `GraphRuntime.ContinuousGraphRuntime.ClearSignals` | kernel/src/graph-runtime.ts:357-361 | signal tokens become absent, all others stay |
| `GraphRuntime.ContinuousGraphRuntime.RunNode` | kernel/src/graph-runtime.ts:288-312 | one execution, fields in the order the loop updates them, equals the specified step |
| `GraphRuntime.ContinuousGraphRuntime.ReadyNow` | kernel/src/graph-runtime.ts:375-389 | the ready list is the filtered node list in collation order |
| `GraphRuntime.ContinuousGraphRuntime.Traverse` | kernel/src/graph-runtime.ts:239-314 | the evaluation loop over the mutable fields ends in the specified state with the specified result, for every budget |
| `GraphRuntime.ContinuousGraphRuntime.Publish` | kernel/src/graph-runtime.ts:111-117 | publication and run refine the specified operation |
| `GraphRuntime.ContinuousGraphRuntime.Start` | kernel/src/graph-runtime.ts:152-157 | startup nodes are armed, then the run is the specified one |
| `GraphRuntime.ContinuousGraphRuntime.Hydrate` | kernel/src/graph-runtime.ts:143-150 | tokens are seeded and every node has recorded every input version |
| `GraphRuntime.ContinuousGraphRuntime.Dispatch` | kernel/src/graph-runtime.ts:159-168 | matching nodes are armed, then the run is the specified one |
| `GraphRuntime.ContinuousGraphRuntime.Activate` | kernel/src/graph-runtime.ts:178-184 | an unknown node is refused with nothing changed; a known one is armed and the graph runs |
| `GraphRuntime.ContinuousGraphRuntime.Resume` | kernel/src/graph-runtime.ts:170-172 | the run is the specified one |
| `GraphRuntime.ContinuousGraphRuntime.Complete` | kernel/src/graph-runtime.ts:186-208 | unknown and not suspended nodes are refused with nothing changed; otherwise the outside answer is published as the node and the graph runs |
| `GraphFrames.ReadyNodesExact` | kernel/src/graph-runtime.ts:375-389 | a node is in the ready list if and only if it is in the graph and ready |
| `GraphFrames.SortSorts` | kernel/src/graph-runtime.ts:388 | sorting keeps every node as often as it was there, in non-decreasing collation order |
| `GraphFrames.ReadyHead` | kernel/src/graph-runtime.ts:254-288 | the node the loop runs is ready and collates before every other ready node |
| `GraphFrames.SettledHasNoReadyNode` | kernel/src/graph-runtime.ts:255-261 | clearing the signals at rest cannot make a node ready |
| `GraphFrames.RunNodeFrame` | kernel/src/graph-runtime.ts:288-312 | an execution records the versions it read, changes no other node's record and only tokens the node writes, and never lowers a version |
| `GraphFrames.HydrationIsNoNews` | kernel/src/graph-runtime.ts:143-150 | after a hydration no input is new to any node |
| `GraphTermination.LowerRanksUntouched` | kernel/src/graph-runtime.ts:375-389 | in an acyclic graph an execution makes no node ready that ranks below the executed one |
| `GraphTermination.StepDropsWeight` | kernel/src/graph-runtime.ts:288-312 | read as a binary number with the lowest rank most significant, the readiness bits drop at every execution, whichever ready node the id order picks |
| `GraphTermination.TraversalWithinWeight` | kernel/src/graph-runtime.ts:254-314 | from any state, a budget as large as that number is never exhausted and no node is ready at the end |
| `GraphTermination.TerminatesWithinPow2` | kernel/src/graph-runtime.ts:239-314 | an acyclic graph of N nodes whose outcomes emit no events comes to rest within 2^N - 1 executions from any state |
| `GraphResume.SplitRun` | kernel/src/graph-runtime.ts:239-314 | a run with node budget k + m passes through the state the run with budget k stops in |
| `GraphResume.LimitNotReached` | kernel/src/graph-runtime.ts:273-286 | a publication limit the run stays below has no effect on it |
| `GraphResume.YieldResumeTransparent` | kernel/src/kernel.ts:717-731 | running with budget k, resuming with m and merging gives the state, publications, lists, counts and status of one run with k + m, under any publication limit the whole run stays below |
| `GraphDenotation.RunNodeKeepsConsistent` | kernel/src/graph-runtime.ts:288-312 | whatever node runs, fed or triggered: every fed node that has seen its inputs keeps output tokens equal to its function of them |
| `GraphDenotation.PublishKeepsConsistent` | kernel/src/graph-runtime.ts:127-141 | publishing to tokens no node produces keeps that invariant |
| `GraphDenotation.QuiescenceRefinesDenotation` | kernel/src/graph-runtime.ts:239-314 | after any history of publications, triggers and resumptions, cycles included: a run that reports quiescence leaves every fed node's outputs at its function of the current tokens |
| `GraphEvaluation.QuiescenceIsEvaluation` | kernel/src/graph-runtime.ts:239-314 | for acyclic graphs every token is then at its topological evaluation, absent ones included, from the external tokens and the nodes that require no input and have run |
| `GraphEvaluation.QuiescenceIsEvaluationOfHistory` | kernel/src/graph-runtime.ts:152-184 | where nodes emit no events, the nodes that have run without an input are those some start, dispatch or activation armed: the evaluation depends on the external tokens and the history alone |
| `GraphEvaluation.RunNodeKeepsJustified` | kernel/src/graph-runtime.ts:288-312 | every execution, fed or triggered, keeps this: a node with an output has its required inputs and all its outputs, and if it has no input at all they are its function of nothing |
| `GraphOutcomes.TraversalStatus` | kernel/src/graph-runtime.ts:254-314 | every run that returns reports yielded exactly when a node is ready in the state it leaves, awaiting exactly when none is ready and one is suspended, quiescent exactly when neither; it lists exactly the ready nodes, and yields only for a spent budget |
| `GraphOutcomes.QuiescentWithinPow2` | kernel/src/graph-runtime.ts:239-314 | the runs of at most 2^N - 1 executions end quiescent where no node suspends |
| `GraphOutcomes.AcyclicRunsEvaluate` | kernel/src/graph-runtime.ts:239-314 | with no status assumed: after any history, every operation with an ample budget on an acyclic graph whose nodes neither emit events nor suspend ends quiescent with every token at its evaluation |
| `GraphOutcomes.ResultCollects` | kernel/src/graph-runtime.ts:288-300 | operations, effects, events and program steps of a result are those of all executed outcomes, in order, each once |
| `GraphEffects.PublicationsReported` | kernel/src/graph-runtime.ts:302-311 | a run counts each publication once, one version each, and reports the newest value of exactly the tokens published |
| `GraphEffects.RestClearsSignals` | kernel/src/graph-runtime.ts:357-361 | a run that does not yield leaves no signal available |
| `GraphEffects.OthersStayAvailable` | kernel/src/graph-runtime.ts:357-361 | no other token becomes unavailable |
| `GraphEffects.OutputsNameProducer` | kernel/src/graph-runtime.ts:302-311 | a token raised by an execution is available and names its producer |
| `GraphEffects.SeededValues` | kernel/src/graph-runtime.ts:127-141 | a stream keeps everything published to it in order, any other token the newest value |
| `GraphEffects.HydrationSeeds` | kernel/src/graph-runtime.ts:143-150 | hydration publishes all its values and arms, suspends and resumes nothing |
| `GraphEffects.DispatchDelivers` | kernel/src/graph-runtime.ts:159-168 | a dispatched event is what every node it triggers is first executed with, and is given once |
| `GraphEffects.CompletionResumes` | kernel/src/graph-runtime.ts:186-208 | completing a node takes it and nothing else out of suspension, where no node suspends anew |
| `GraphEffects.ReindexKeeps` | kernel/src/graph-runtime.ts:322-343 | kept nodes and all tokens keep their state, removed nodes lose it, new ones start fresh |
| `GraphFrames.SortIsStable` | kernel/src/graph-runtime.ts:388 | nodes whose ids collate alike keep the order of the graph |
| `GraphMutations.ApplyGraphMutations` | kernel/src/program-patch.ts:8-48 | the mutation loop computes the graph the commit theorems are about, or refuses, never a partial one |
| `GraphMutations.RefusedIff` | kernel/src/program-patch.ts:13-31 | refused are exactly additions under a known id and replacements under an unknown one |
| `GraphMutations.NodesFollow` | kernel/src/program-patch.ts:12-33 | every node is as the last mutation naming its id left it, or as it was |
| `GraphMutations.PortsFollow` | kernel/src/program-patch.ts:32-47 | the same for ports; graph inputs and outputs stay |
| `Paths.ReadPath` | kernel/src/providers.ts:35-44 | the segment loop reads what the recursive specification reads |
| `Paths.OverlapIsPrefix` | kernel/src/derivations.ts:4-6 | the string test with trailing dots holds if and only if one path is a prefix of the other, segment by segment |
| `Paths.JoinSplit` | kernel/src/providers.ts:36 | splitting a path at its dots loses nothing |
| `Paths.GetAfterSet` | kernel/src/providers.ts:46-58 | a read at or below a written path reads the written value; one beside it is unaffected |
| `Paths.GetAboveSet` | kernel/src/providers.ts:46-58 | a read above a written path finds the old object with the write in it, or a fresh one where there was none |
| `Paths.GetAfterRemove` | kernel/src/providers.ts:60-69 | after a removal the path reads null, and paths beside it are unaffected |
| `Paths.SetsCommute` | kernel/src/providers.ts:46-58 | writes to paths of which neither extends the other commute |
| `Paths.SetOverwrites` | kernel/src/providers.ts:46-58 | the last write to a path wins outright |
| `Paths.OpFrame` | kernel/src/providers.ts:71-84 | no operation is visible at a path its own path does not overlap |
| `Paths.MergeAtPath` | kernel/src/providers.ts:74-80 | a merge leaves an object with exactly the merged members, as merged, and the old ones beside them |
| `Paths.MergeBelowPath` | kernel/src/providers.ts:74-80 | below the path a merged member reads as merged, any other as before |
| `Paths.MergesAtPath` | kernel/src/providers.ts:74-80 | after several merges every member is as the last one naming it left it, or as it was |
| `Paths.RemoveAtParent` | kernel/src/providers.ts:60-69 | a removal takes the one member out of its object, or empties the one element of its array, and nothing else |
| `Paths.ApplyOpsConcat` | kernel/src/providers.ts:251-253 | applying two lists of operations one after the other is applying their concatenation |
| `Paths.InMemoryStateModel.constructor` | kernel/src/providers.ts:239-241 | one empty object per namespace |
| `Paths.InMemoryStateModel.Get` | kernel/src/providers.ts:247-249 | reads the path |
| `Paths.InMemoryStateModel.Apply` | kernel/src/providers.ts:251-253 | the store after the loop is the fold of the operations over the store before |
| `DerivationOrder.CycleSearch.Visit` | kernel/src/derivations.ts:18-35 | a reported cycle is a closed walk of overlaps; without one, the target and all it reaches are finished and the search state is as before |
| `DerivationOrder.CycleIn` | kernel/src/derivations.ts:12-42 | a cycle is returned if and only if the overlap relation has one |
| `DerivationOrder.FinishedMeansAcyclic` | kernel/src/derivations.ts:12-42 | a finishing order in which every target follows all it reaches excludes every cycle |
| `DerivationOrder.Ordering.Visit` | kernel/src/derivations.ts:47-56 | without a visiting set the recursion still ends, and adds a derivation only after all its producers |
| `DerivationOrder.OrderedDerivations` | kernel/src/derivations.ts:44-59 | the result is a permutation with every overlapping producer before its consumer |
| `DerivationScheduling.DerivationScheduler.Create` | kernel/src/derivations.ts:64-76 | construction succeeds if and only if ids and targets are unique and the overlap relation is acyclic; the stored order is a permutation, producers first |
| `DerivationScheduling.DerivationScheduler.Settle` | kernel/src/derivations.ts:86-114 | the loop over pending and evaluated leaves the store, the operations and the order of evaluations the specification gives |
| `DerivationScheduling.DerivationScheduler.SettleAll` | kernel/src/derivations.ts:78-84 | the same from all dependencies at once |
| `Settlement.SettleReplays` | kernel/src/derivations.ts:86-114 | the returned operations, applied to the store before, give the store after |
| `Settlement.EvaluateReaches` | kernel/src/derivations.ts:103-108 | evaluating puts a derivation that does not feed itself at its fixpoint |
| `Settlement.FixpointIsSilent` | kernel/src/derivations.ts:86-114 | a store at the fixpoint is left alone and nothing is published, whatever changed |
| `SettleTheorems.PassEvaluates` | kernel/src/derivations.ts:97-111 | a pass evaluates exactly the derivations that were due when it began |
| `SettleTheorems.PassWrites` | kernel/src/derivations.ts:104-109 | what is pending after a pass is what the pass wrote, and it wrote only targets of due derivations |
| `SettleTheorems.RoundKeepsTrace` | kernel/src/derivations.ts:95-112 | round by round, what is evaluated is the wave of those derivations that change |
| `SettleTheorems.SettleAllReachesFixpoint` | kernel/src/derivations.ts:78-84 | every derivation with dependencies is evaluated exactly once, in stored order, and all of them end at their fixpoint |
| `SettleTheorems.SettleReachesFixpoint` | kernel/src/derivations.ts:86-114 | settling a change equals full recomputation if no derivation can be overtaken |
| `SettleTheorems.LevelledMeansNoOvertaking` | kernel/src/derivations.ts:86-114 | a dependency relation levelled from the changed paths admits no overtaking |
| `SettleExactness.OvertakingLeavesBehind` | kernel/src/derivations.ts:95-110 | if one can be overtaken there are an evaluator and a change after which settling leaves a stale target |
| `SettleExactness.SettlesIffNoOvertaking` | kernel/src/derivations.ts:86-114 | for ordered derivations with distinct expressions, settling equals full recomputation whatever the expressions compute, if and only if no derivation can be overtaken |
| `SettleExactness.UnequalDiamondBreaks` | kernel/src/derivations.ts:95-110 | A reads x, B reads A, C reads x and B: for some evaluator and some change C is left stale |
| `SourceRequests.SourceHost.AdmitSourceEffect` | kernel/src/kernel.ts:1027-1063 | the run state and the token the effect goes out under, or none, as specified |
| `SourceRequests.SourceHost.CompleteSourceEffect` | kernel/src/kernel.ts:1085-1114 | only the current token completes; the answer is the token still pending |
| `SourceRequests.SourceHost.CompleteAndPromoteSourceEffect` | kernel/src/kernel.ts:1116-1139 | completion, the re-emissions of the activation and the removal of both promotion marks, as specified |
| `SourceRequests.SourceHost.SettleSourceEffect` | kernel/src/kernel.ts:325-363 | a token that is not current changes nothing |
| `SourceTheorems.AdmitKeeps` | kernel/src/kernel.ts:1027-1063 | an admission outside its own promotion keeps the token order of every source |
| `SourceTheorems.PromotionAdmits` | kernel/src/kernel.ts:1043-1063 | during a promotion the first re-emission goes out under the pending token, and other sources are undisturbed |
| `SourceTheorems.SettledIsSilent` | kernel/src/kernel.ts:1029 | with nothing pending the settled source admits nothing during its activation |
| `SourceTheorems.RequestRecorded` | kernel/src/kernel.ts:1027-1063 | a request goes out at once under the next token if its source is idle, and is queued under it if not |
| `SourceTheorems.OutcomeRecorded` | kernel/src/source-run-state.ts:37-51 | in every history a source holds the token and the outcome, success or failure with its detail, of its newest settlement that was current |
| `SourceTheorems.SingleFlight` | kernel/src/kernel.ts:1027-1139 | in every reachable state tokens are ordered, admitted tokens strictly increase, and admitted less completed is 1 exactly while in flight, else 0 |
| `SourceTheorems.RequestsCoalesce` | kernel/src/kernel.ts:1043-1062 | whatever happens to this and other sources while a request is in flight admits nothing of it; its completion admits all requests made meanwhile as one, under the newest queued token, as often as the graph re-emits the source, and nothing if there was none |
| `SourceTheorems.StaleSettlementsErased` | kernel/src/kernel.ts:325-327 | a history ends as it does without its settlements under a token that was not current |
| `SourceTheorems.PerformIsSettleSource` | kernel/src/kernel.ts:1116-1139 | the steps of the histories are the states the kernel methods leave |
| `SourceTheorems.IncreasingIffOneReemission` | kernel/src/kernel.ts:1116-1139 | a completion with a request pending keeps the admitted tokens strictly increasing if and only if its activation re-emits the source at most once |
| `PatchStream.KernelObject.ApplyAndDerive` | kernel/src/kernel.ts:820-829 | store and accumulated operations after applying and settling, nothing applied that is not accumulated |
| `PatchStream.KernelObject.ApplyGraphPublications` | kernel/src/kernel.ts:709-715 | one set operation per publication, applied and accumulated |
| `PatchStream.KernelObject.Run` | kernel/src/kernel.ts:237-276 | a whole transition on the objects equals the specified one: revision, store, program and published patch |
| `PatchStream.TransitionTellsAll` | kernel/src/kernel.ts:237-276 | whatever a transition did to store and program is in the patch it publishes; a change raises the revision by one and is published |
| `PatchStream.StreamComplete` | kernel/src/kernel.ts:1234-1238 | over any run, folding the published operations from the start rebuilds the store exactly, and patches with operations carry strictly increasing revisions |
| `KernelFixpoints.ActKeepsFixpoint` | kernel/src/kernel.ts:820-829 | after operations that write no target and let no derivation be overtaken, and after settling everything, every derivation that held holds on the kernel's store |
| `KernelFixpoints.RunKeepsFixpoint` | kernel/src/kernel.ts:237-276 | so over whole runs, and on the store that folds the published patches |
| `KernelFixpoints.SettlingRepairs` | kernel/src/derivations.ts:78-84 | settling everything brings every derivation with dependencies to its fixpoint, whatever went before |
| `KernelFixpoints.OperationsLand` | kernel/src/kernel.ts:820-829 | beside the targets the store reads as the operations left it |
| `KernelFixpoints.PublicationsLand` | kernel/src/kernel.ts:709-715 | a published token reads as its value |
| `KernelFixpoints.TransitionCommits` | kernel/src/kernel.ts:237-276 | a transition commits exactly its programs and the newest derivations; it raises the revision unless its kind is optional and nothing happened, or its token is stale |
| `Replica.GIKClient.OnMessage` | kernel/src/client.ts:105-139 | store, document and revision after each of the three messages |
| `Replica.KernelTransportHost.EnsureBaseline` | kernel/src/transport.ts:115-119 | the baseline enters the log once |
| `Replica.KernelTransportHost.Attach` | kernel/src/transport.ts:94-139 | a connection gets the deltas after its revision if the log covers it, else vocabulary, program and snapshot |
| `Replica.KernelTransportHost.Detach` | kernel/src/transport.ts:104-109 | only the connection goes |
| `Replica.KernelTransportHost.OnKernelPatch` | kernel/src/transport.ts:141-159 | every connection gets the patch, and the log keeps its newest entries up to the bound |
| `Replica.SnapshotRebuilds` | kernel/src/kernel.ts:223-231 | a snapshot patch on a fresh replica rebuilds the store, provided the store still has every namespace |
| `ReplicaConvergence.TransitionsAreMoves` | kernel/src/kernel.ts:1234-1238 | every kernel transition is a move of the net: what changes something raises the revision and is published |
| `ReplicaConvergence.ReplayIsSuffix` | kernel/src/transport.ts:125-131 | what the broker replays is the end of the whole stream from some point on: truncation drops only what the client has |
| `ReplicaConvergence.ResumeCatchesUp` | kernel/src/transport.ts:125-131 | a client resuming from no further than it got will have seen everything it lacks when its messages are delivered |
| `ReplicaConvergence.NextKeeps` | kernel/src/transport.ts:94-159 | every move, attachment, delivery, redelivery and disconnection keeps each client at a position of the stream |
| `ReplicaConvergence.DrainedClientsConverge` | kernel/src/transport.ts:94-159 | in every run a connected client with nothing undelivered holds exactly the kernel's store, and its document if the document kept its root ever since the client was last onboarded in full, else none |
| `ReplicaConvergence.LogKeepsNewest` | kernel/src/transport.ts:141-159 | the broker's log is the newest end of the stream, all of it up to the bound |
| `ReplicaConvergence.RedeliveryHarmlessIff` | kernel/src/client.ts:126-136 | in every run, redelivering what was sent and is no further than the client got changes nothing if and only if its revision is not 0 or the client's still is |
| `ReplicaConvergence.ZeroRedeliveryHarmlessIff` | kernel/src/client.ts:126-136 | a drained client that moved on and gets the baseline of revision 0 again falls back to revision 0, and keeps the kernel's store if and only if every namespace is as the baseline made it |
| `ReplicaConvergence.ReplayedDocument` | kernel/src/client.ts:131-135 | taking patches in turn, a client holds the amended document if every amendment left it a root, and else none |
| `ReplicaConvergence.RootReturnsToKernelOnly` | kernel/src/client.ts:131-135 | a run after which the kernel's document has a root again and a client with nothing undelivered has no document |
| `DurableTransition.AcceptSettlements` | blueprint/src/durable-transition.ts:117-126 | the filtering loop accepts what the specification accepts |
| `DurableTransition.AcceptedExactly` | blueprint/src/durable-transition.ts:121-126 | accepted are the settlements of ids not yet settled, one for each, first come first |
| `DurableTransition.ApplySpecUpdates` | blueprint/src/durable-transition.ts:166-191 | the update loop yields the specified spec, or throws where a patch does |
| `DurableTransition.TransitionRecordsAccepted` | blueprint/src/durable-transition.ts:116-164 | the next spec has settled exactly what it had plus what the transition accepted |
| `DurableDelivery.TransitionDelivers` | blueprint/src/durable-transition.ts:116-158 | for every engine: it is run once, on the committed state and Blueprint, with every regular event and with every first settlement of an unsettled message in the list of its effect's kind, in order, and nothing else |
| `DurableDelivery.NextBlueprint` | blueprint/src/durable-transition.ts:159-190 | the next Blueprint is the committed one under every proposed patch in order; a throw of the engine or a patch is a throw of the transition |
| `DurableDelivery.RepeatErased` | blueprint/src/durable-transition.ts:121-126 | for every engine, state and spec a repeated settlement might as well not be in the batch |
| `DurableDelivery.FreshSuffices` | blueprint/src/durable-transition.ts:116-158 | a transition is that of the batch without all its repeated settlements |
| `DurableTransition.EventsSettle` | blueprint/src/worker.ts:170-223 | whichever way an effect that must settle ends without a throw, its events settle it |
| `DurableTheorems.CommitKeepsFold` | packages/durable-runtime/src/runtime/browser-runtime.ts:62-75 | a commit that passes lease, revision and cursor folds the next journal range onto what is committed |
| `DurableTheorems.ExactlyOnceInOrder` | packages/durable-runtime/src/runtime/browser-runtime.ts:43-94 | in every run of racing, crashing, expiring engines the committed data is the journal folded range by range, each entry below the cursor in exactly one range, in order |
| `DurableTheorems.SettledAtMostOnce` | blueprint/src/durable-transition.ts:116-191 | each message id is accepted by at most one committed transition, and the settled list is what the transitions accepted |
| `DurableDelivery.RepeatsNeverReachState` | packages/durable-runtime/src/runtime/browser-runtime.ts:43-94 | in every run the committed data is the fold of the journal without its repeated settlements: only the first of a message ever reaches the engine |
| `DurableWorkers.SuccessIs` | blueprint/src/worker.ts:170-197 | an executed effect appends one settlement with its result and itself if it must settle, else nothing |
| `DurableWorkers.FailureIs` | blueprint/src/worker.ts:199-223 | the same for the failure of a given-up effect |
| `DurableWorkers.FailedAttempt` | packages/durable-runtime/src/runtime/browser-runtime.ts:312-348 | a failed attempt makes the message visible again while attempts are left; after the last its failure is to be appended |
| `DurableWorkers.HandledMessage` | blueprint/src/worker.ts:259-278 | a message settled before is acknowledged without being executed again |
| `DurableWorkers.FinishedMessage` | packages/durable-runtime/src/runtime/browser-runtime.ts:300-348 | finishing removes the message still held under its lease and no other |
| `DurableWorkers.GivenUpOnlyAfterLimit` | packages/durable-runtime/src/runtime/browser-runtime.ts:312-348 | in every run only a worker with at least the last allowed attempt gives a message up |
| `DurableTheorems.NoEffectVanishes` | packages/durable-runtime/src/runtime/browser-runtime.ts:237-349 | in every run an effect that must settle has left the queue only if its settlement is in the journal or its id in the committed spec |
| `DurableEngine.DurableRuntimeHost.ExecuteEngine` | packages/durable-runtime/src/runtime/browser-runtime.ts:43-94 | whatever others do between its calls, the call is a run of the step system; it commits exactly when its entries fold and nobody committed or took the lease meanwhile |
| `DurableEngine.DurableRuntimeHost.FoldSnapshot` | packages/durable-runtime/src/runtime/browser-runtime.ts:47-93 | idle, aborted, conflict and committed each say what happened to cursor, commits, state and spec |
| `DurableEngine.DurableRuntimeHost.AppendEvents` | packages/durable-runtime/src/runtime/browser-runtime.ts:282 | events are appended one at a time between other processes' steps, up to the first append that fails |
| `DurableEngine.DurableRuntimeHost.HandleError` | packages/durable-runtime/src/runtime/browser-runtime.ts:283-332 | the failure events are appended before the message is dead-lettered; if that fails, or attempts are left, the message goes back |
| `DurableEngine.DurableRuntimeHost.ProcessQueueLaneItem` | packages/durable-runtime/src/runtime/browser-runtime.ts:237-349 | a run of the step system; unless it reports idle or retry, a settlement of the message is on record, and a completed message has left the queue |
| `CellImpact.UniqueSorted` | blueprint/src/cell-impact.ts:93-95 | the ascending listing of the same set |
| `CellImpact.AscendingUnique` | blueprint/src/cell-impact.ts:93-95 | a set has only one ascending listing |
| `CellImpact.DependenciesByConsumer` | blueprint/src/cell-impact.ts:65-73 | the index holds exactly the edges |
| `CellImpact.ReachableCells` | blueprint/src/cell-impact.ts:75-91 | exactly the cells a path from a root reaches that are no roots, ascending |
| `CellImpact.Schedule` | blueprint/src/cell-impact.ts:34-49 | each stage is exactly what can run after the stages before it, and at the end nothing more can |
| `CellImpact.Block` | blueprint/src/cell-impact.ts:51-58 | the blockers are the affected cells no stage took, each with exactly its unavailable providers, ascending |
| `CellImpact.AnalyzeCellImpact` | blueprint/src/cell-impact.ts:22-61 | an error exactly for unknown cells, naming the first; else the impact of the roots |
| `CellImpact.StagesAreValid` | blueprint/src/cell-impact.ts:34-49 | the stages are themselves a valid schedule |
| `CellImpact.StagesAreEarliest` | blueprint/src/cell-impact.ts:34-49 | whatever any valid schedule runs, the analysis runs too, in no later a stage |
| `CellImpact.BlockersWait` | blueprint/src/cell-impact.ts:51-58 | no blocker waits for nothing, and none is scheduled |
| `CellImpact.NothingBlockedIffLayered` | blueprint/src/cell-impact.ts:34-58 | nothing is blocked if and only if the affected cells can be layered: no cycle among them and no provider outside roots and affected cells |
| `LoweringAxis.ResolveLoweringAxis` | blueprint/src/execution.ts:54-137 | an axis is returned if and only if identities are complete and unique and the recipes form one simple path over declared tiers, or there are none and exactly one tier; the cycle error is never thrown |
| `LoweringAxis.CheckTiers` | blueprint/src/execution.ts:63-75 | passes exactly for a non-empty list of complete, unique tiers |
| `LoweringAxis.CheckRecipes` | blueprint/src/execution.ts:76-96 | passes exactly for complete, unique recipes between declared tiers, and counts the degrees |
| `LoweringAxis.TargetsDifferIff` | blueprint/src/execution.ts:97-101 | no tier has more than one recipe into it if and only if no two recipes share a target |
| `LoweringAxis.FindSource` | blueprint/src/execution.ts:116-118 | the first tier with a way out and none in; without one there is no path |
| `LoweringAxis.Walk` | blueprint/src/execution.ts:120-136 | the walk from the source returns if and only if it uses every recipe, that is if the recipes form a path |
| `LoweringAxis.ArrivesAtNewTier` | blueprint/src/execution.ts:123-124 | the walk never meets a tier again |
| `LoweringAxis.OrderIsUnique` | blueprint/src/execution.ts:120-136 | recipes can be put end to end in at most one way |
| `LoweringAxis.StagesAreUnique` | blueprint/src/execution.ts:120-136 | the returned stages are that way, from source to terminal tier |
| `ServiceLowering.ApplyServiceRecipe` | blueprint/src/fixed-lowering-meta-graph.ts:444-461 | the stage of the selected program, or the refusal, as specified |
| `ServiceLowering.ApplyCellImplementationOverrides` | blueprint/src/fixed-lowering-meta-graph.ts:463-476 | the loop over the overridden cells, with all three refusals |
| `ServiceLowering.ApplyServiceImplementationOverrides` | blueprint/src/fixed-lowering-meta-graph.ts:527-540 | the loop over the replaced services, with all three refusals |
| `ServiceEffects.StageInstalls` | blueprint/src/fixed-lowering-meta-graph.ts:444-540 | a stage that goes through installs the first program whose condition holds, else the last with the fallback id: each source list, compute, behavior and service is that of the last entry setting it, else the authored one, and nothing else changes |
| `ServiceEffects.ChainInstalls` | blueprint/src/fixed-lowering-meta-graph.ts:444-540 | the same over a chain, for the entries of all its programs in order |
| `ServiceEffects.StageGoesThroughIff` | blueprint/src/fixed-lowering-meta-graph.ts:444-557 | a stage goes through if and only if a program can be chosen and the authored artifact could take each of its entries alone |
| `ServiceLowering.SameEntriesIffEqual` | blueprint/src/fixed-lowering-meta-graph.ts:511-525 | equal sizes and one-sided agreement, as the code tests them, are equality of the contract maps |
| `ServiceLowering.ServiceChainKeepsContracts` | blueprint/src/fixed-lowering-meta-graph.ts:444-557 | after any successful chain every cell has the same source ids, each resolving in the possibly replaced services to its authored contract; ports, events, views and presentation are untouched |
| `ServiceLowering.EachSourceKeepsItsContract` | blueprint/src/fixed-lowering-meta-graph.ts:495-525 | with unique ids, source by source: none is lost or bound to another contract |
| `ServiceLowering.ServiceChainKeepsHandlersDeclared` | blueprint/src/fixed-lowering-meta-graph.ts:478-489 | a chain never makes a cell handle an event it does not declare |
| `ServiceLowering.ServiceChainBlind` | blueprint/src/fixed-lowering-meta-graph.ts:440-461 | artifacts that differ in views, presentation and declared externals only are lowered alike, or refused for the same reason |
| `ProjectionLowering.InheritanceChain` | blueprint/src/fixed-lowering-meta-graph.ts:282-293 | a returned chain runs from an ancestor without parent to the selected representation; failure, by cycle or unknown ancestor, means there is none |
| `ProjectionLowering.ApplyProjectionRecipe` | blueprint/src/fixed-lowering-meta-graph.ts:270-340 | the stage of the selected representation's lineage, or a refusal where it has none |
| `ProjectionEffects.SelectionIs` | blueprint/src/fixed-lowering-meta-graph.ts:275-279 | the selected representation is the first whose condition holds, else the last with the fallback id |
| `ProjectionEffects.RepresentationFollows` | blueprint/src/fixed-lowering-meta-graph.ts:299-331 | every view is the representation's own, else removed if it says so, else as before; the presentation is its own under the authored authority, else the one before, with the appended slots |
| `ProjectionEffects.RepresentationGoesThroughIff` | blueprint/src/fixed-lowering-meta-graph.ts:299-331 | it goes through if and only if its cells are known, the views it removes are there and named once, and there is authority for a presentation and a presentation to append to |
| `ProjectionEffects.DecoratorFollows` | blueprint/src/fixed-lowering-meta-graph.ts:366-417 | a decorator declares its capabilities and decorates every view of every selected cell once |
| `ProjectionEffects.CapabilityIsDeclared` | blueprint/src/fixed-lowering-meta-graph.ts:419-442 | declaring goes through exactly for alias:name and adds the name to the alias |
| `ProjectionEffects.StageFollows` | blueprint/src/fixed-lowering-meta-graph.ts:295-340 | a stage follows its lineage representation by representation, then decorator by decorator, and ends with the presentation of the last |
| `ProjectionLowering.ProjectionStageKeeps` | blueprint/src/fixed-lowering-meta-graph.ts:270-340 | a stage that goes through started from a presentation, kept its capability authority, and changed nothing of sources, compute, behavior, events, ports or services |
| `ProjectionLowering.LoweringKeepsContracts` | blueprint/src/fixed-lowering-meta-graph.ts:207-246 | through both chains every cell keeps identity, ports and events, and every source id its contract |
| `ProjectionLowering.ServiceSelectionIgnoresProjection` | blueprint/src/fixed-lowering-meta-graph.ts:210-216 | projecting first would have selected the same implementations, or refused for the same reason |
| `ProgramPatches.ApplyProgramPatch` | kernel/src/program-patch.ts:64-108 | the loop yields the specified program, or throws without a partial one |
| `ProgramPatches.DiffById` | kernel/src/program-patch.ts:114-129 | the two loops yield the specified edits |
| `ProgramPatches.DiffProgram` | kernel/src/program-patch.ts:132-149 | the patch is the specified one |
| `ProgramPatches.RoundTripsIffConsistent` | kernel/src/program-patch.ts:114-129 | the edits lead from every list to the target's values under the target's ids, if and only if the target has one value for each of its ids |
| `ProgramPatches.RoundTripElements` | kernel/src/program-patch.ts:114-129 | with unique ids the result holds exactly the target's values, each once |
| `ProgramPatches.ApplyDiff` | kernel/src/program-patch.ts:132-149 | the difference never fails to apply, and each part of the program comes from its own part of it |
| `ProgramPatches.DiffRoundTrips` | kernel/src/program-patch.ts:132-149 | applying the difference of p and q to p yields q up to list order, for programs of one vocabulary |
| `ProgramPatches.NoDiffIffOneValuePerId` | kernel/src/program-patch.ts:132-149 | a program differs from itself in nothing if and only if each id of its lists has one value |
| `ProgramCommit.KernelProgram.CommitProgramPatch` | kernel/src/kernel.ts:613-636 | commits exactly what applies, validates, schedules and has unique node ids; the runtime then executes the program's graph, kept for a lone mutation, else fresh; a refusal leaves runtime and program aligned unless the patch diverges |
| `ProgramCommit.RenamingAloneDiverges` | kernel/src/kernel.ts:629-630 | only a mutation that replaces a node under another id can leave the runtime on a graph the program does not have |
| `ProgramCommit.RenamingDiverges` | kernel/src/kernel.ts:629-630 | and such a mutation does: two nodes, one replaced under the other's id |
| `ServiceHosts.DefaultServiceHost.RunAdapterAttempt` | face/src/services/service-host.ts:742-775 | one more run of the adapter, or none where authorization refuses; an adapter may answer, answer nothing or throw |
| `ServiceHosts.DefaultServiceHost.Validate` | face/src/services/service-host.ts:784-858 | completion, guardrail retry or failure, with the retry recorded before the adapter runs again |
| `ServiceHosts.DefaultServiceHost.ExecuteRequest` | face/src/services/service-host.ts:676-740 | the record and the queue after one execution: completed, queued again, dead-lettered or failed |
| `ServiceHosts.DefaultServiceHost.EnqueueRequest` | face/src/services/service-host.ts:350-362 | an accepted request is queued |
| `ServiceHosts.DefaultServiceHost.InvokeRequest` | face/src/services/service-host.ts:299-348 | an immediate request is executed at once, a queued one queued |
| `ServiceHosts.DefaultServiceHost.RunNextRequest` | face/src/services/service-host.ts:472-482 | the oldest queued request is executed if it is still accepted and authorized |
| `ServiceHosts.DefaultServiceHost.CancelRequest` | face/src/services/service-host.ts:492-502 | a request not yet ended is marked cancelled, any other left alone |
| `ServiceHostTheorems.ValidationPays` | face/src/services/service-host.ts:784-858 | however the recursion ends, the adapter runs are covered by the attempts and guardrail attempts of the record it leaves or raises |
| `ServiceHostTheorems.AdapterRunsBounded` | face/src/services/service-host.ts:676-858 | over any sequence of calls and any outside: at most max(1, maxAttempts) + max(0, g - 1) runs for a queued request, 1 + max(0, g - 1) for an immediate one |
| `ServiceInterleaving.InterleavedRunsBounded` | face/src/services/service-host.ts:472-858 | the same bound when executions of different requests interleave at every await |
| `ServiceInterleaving.NextAccounted` | face/src/services/service-host.ts:472-858 | every step of an interleaving keeps the accounts of every request: runs are covered, at most one execution, and queued only while it may be executed again |
| `ServiceInterleaving.CallMoves` | face/src/services/service-host.ts:299-858 | every call of the host, executed while others wait, is a run of those steps |
| `ServiceHostTheorems.BoundIsReached` | face/src/services/service-host.ts:676-858 | for all limits some outside and some calls use the bound up |
| `ServiceHostOutcomes.ExecutionMeans` | face/src/services/service-host.ts:676-873 | the status after an execution means what happened: completed, the newest answer passed; failed, an error of an immediate request or spent guardrails; accepted, an error with attempts left, and queued; dead-lettered, none left; running, no answer |
| `ServiceHostOutcomes.GoodAnswerCompletes` | face/src/services/service-host.ts:676-740 | an adapter that is authorized, answers and passes completes the request in one run |
| `ServiceHostOutcomes.RefusedIsRecorded` | face/src/services/service-host.ts:472-482 | a refused request is recorded as such without a run |
| `ServiceHostOutcomes.EnqueuedIs` | face/src/services/service-host.ts:350-362 | a new request has an id of its own and is queued if and only if it is accepted |
| `SseCodec.StringifyOneLine` | transports/http-sse/src/codec.ts:8-10 | the text of a message holds no line break, whatever strings are in it |
| `JsonReader.ValueRead` | transports/http-sse/src/codec.ts:8-10 | what is written is read back whatever follows it: text and message determine each other |
| `JsonReader.TextIsRead` | transports/http-sse/src/codec.ts:8-10 | reading the whole text of a message gives the message |
| `SseCodec.SseFrameParser.Push` | transports/http-sse/src/codec.ts:21-36 | messages and buffer after a push are those of reading the buffered text and the chunk joined, a throw included |
| `SseCodec.FirstBreakIsFirst` | transports/http-sse/src/codec.ts:25 | the separator found is the first one |
| `SseCodec.FramesConcat` | transports/http-sse/src/codec.ts:21-36 | reading two chunks one after the other is reading them joined |
| `SseCodec.ChunksDoNotMatter` | transports/http-sse/src/codec.ts:21-36 | for any text and any way to cut it: some push throws if and only if one push of the whole would, and otherwise messages and rest are those of the whole |
| `SseCodec.CutsAgreeIff` | transports/http-sse/src/codec.ts:21-36 | all ways to cut a text give the same messages and the same buffer if and only if every frame parses, or no message comes before the first that does not and no whole frame after it |
| `SseCodec.ThrowDropsItsChunk` | transports/http-sse/src/codec.ts:33 | messages before a frame that does not parse are lost in one chunk with it, and delivered when the cut is between |
| `SseCodec.ThrowDelaysTheRest` | transports/http-sse/src/codec.ts:33 | frames after one that does not parse stay unread in one chunk with it, and are read when the cut is between |
| `SseCodec.SentIsReceived` | transports/http-sse/src/codec.ts:8-36 | messages arrive whole, once and in order, comments ignored, nothing left in the buffer, however the wire is cut |
| `JsonReader.SentIsRead` | transports/http-sse/src/codec.ts:8-36 | with that reader the messages sent are the messages received, however the wire is cut |
| `JsonReader.FrameOfLines` | transports/http-sse/src/codec.ts:28-32 | the data of a frame is its data lines, with or without a space, joined by line breaks |

## Left out

- JSON object key order: objects are maps, so comparison by `JSON.stringify` is equality, and an edit that only
  reorders keys counts as none (kernel/src/program-patch.ts:110-112, kernel/src/kernel.ts:625).
- JSON numbers are integers; text encodings, lone surrogates and the prototype chain of objects are not modelled.
- In-place updates of nested objects in the store, and the sharing of values between store, patches and checkpoints:
  the store's fields are updated as values (kernel/src/providers.ts:46-69).
- Removing a path that names the `length` of an array, which throws in the source, changes nothing in the model.
- Throwing evaluations in the middle of a graph run or a kernel transition: executors, evaluators and reducers
  return; an undeclared output, which throws after earlier outputs were published, is modelled.
- `evaluateNode` with its `when`, decision and compute operations (kernel/src/graph-runtime.ts:408-462), and the
  reducer: uninterpreted functions; JSONata, schema validation and storage likewise.
- The synchronous variants of the graph runtime, `inspect` and the snapshots.
- `localeCompare`: any key function into the reals; two ids may share a key.
- GraphEvaluation.QuiescenceIsEvaluation: stated for value-mode graphs with one producer per token whose nodes
  publish all outputs on every run as a function of their inputs, without hydration, outside answers to suspended
  nodes, topology mutation and external publications to produced tokens. Whether each of these conditions is needed
  is not part of this model.
- GraphEvaluation.QuiescenceIsEvaluationOfHistory: in addition stated for nodes that emit no events.
- Wall clocks: request tokens are integers with a strict successor; timers, leases by duration and poll intervals
  are replaced by steps that may happen at any time.
- SourceRequests.SourceHost.AdmitSourceEffect: the run states are a map of their own, not a place in the store, so
  the derivations their write settles are left out (kernel/src/kernel.ts:1027-1063); operations of effects are taken
  not to touch them.
- SourceRequests.SourceHost.CompleteSourceEffect: likewise.
- SourceRequests.SourceHost.CompleteAndPromoteSourceEffect: hydration and activation of the promotion node are an
  arbitrary list of emissions.
- SourceRequests.SourceHost.SettleSourceEffect: result operations, follow-up events and the published patch are left
  out.
- PatchStream.KernelObject.Run: the kernel's transitions are sequences of abstract acts (apply and settle, publish,
  settle everything, fire, commit): which acts an event leads to, invocations and their progress, and the effect log
  are left out.
- ReplicaConvergence.DrainedClientsConverge: onboarding is one step, namespaces are never removed as a whole,
  a patch of revision 0 is redelivered only to a client at revision 0, namespaces have no dot in their names (a
  snapshot would rebuild such a one in another place), and the composite store of shared contexts is not modelled.
- Replica.KernelTransportHost.Attach: the refusal where the program has no root is a condition of the step
  (`ReplicaConvergence.Enabled`), not of the method.
- The transport's promise queues, several brokers over one kernel, `rebind` and presentation resolving.
- Provider implementations, engine wake requests, snapshot reads and notifications of the durable runtime; message
  ids are positions in the list of all effects ever enqueued.
- DurableTheorems.NoEffectVanishes: states what has happened when a message has left the queue, not that a queued
  message is ever executed, which needs fairness of the provider.
- The materialized transition and Blueprint patches of the durable adapter: uninterpreted, with a throw as one
  possible result.
- CellImpact.UniqueSorted: compares characters by Unicode scalar value, where the source compares UTF-16 units.
- LoweringAxis.ResolveLoweringAxis: names the kind of each error but, beyond success and failure, says nothing
  about which of several applicable errors is thrown first.
- The capability check after each projection stage is an arbitrary predicate, the emitted Blueprint's tiers and
  capability list and its final validation are left out (blueprint/src/fixed-lowering-meta-graph.ts:248-262).
- ProgramCommit.KernelProgram.CommitProgramPatch: the validation of the candidate program is an arbitrary predicate.
- Authorization policy, snapshots, agent tools, settlement transforms and abort signals of the service host: a check
  that authorizes, refuses or throws, at every point where the source consults it.
- ServiceHosts.DefaultServiceHost.InvokeRequest: what settlement makes of the result, and the errors returned to the
  caller, are left out.
- ServiceHostTheorems.AdapterRunsBounded: the calls of its histories run one after the other; interleavings are the
  matter of ServiceInterleaving.
- SseCodec.SentIsReceived: `JSON.parse` is any function that inverts the texts of the messages sent; JsonReader has one
  such function, which reads no white space between values and no fractions or exponents.
- KernelFixpoints.RunKeepsFixpoint: stated for runs whose graph publications reach no target and no dependency and whose
  commits keep the derivations; `SettlingRepairs` is what the kernel does after the others.
- GraphEffects.EventGivenOnce: stated for nodes that emit no events, which could arm a node anew.
- Exploration frontier, presentation regions, Blueprint references, capability catalogs, proposal hosts, React
  adapters, servers and connectors.
