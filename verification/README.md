# Incident investigator: a verified model

The repository investigates incidents. Evidence arrives in batches; signals are extracted from
it; a question protocol decides what to ask next and adjusts hypotheses; reasoners propose
actions that are merged, validated and applied; and the whole session is mirrored in an
investigation graph that is searched and checked. This project models those parts in Dafny and
proves what they promise, over all inputs, all runs and all orders of arrival.

Three kinds of statement carry the weight: what each algorithm computes (against walks,
distances, least sets, sorted orders), what every run keeps (plans, sessions, stores, logs), and
what does not depend on order (completion order, evidence order, hash-map order).

Objects that the program updates in place are classes (`Store.MemoryStore`, `Protocol.Session`
and `Protocol.Engine`, `Lifecycle.Session`, `ActionLog.LiveSession`), loops are methods with
invariants, and each such method is proved against a function of the old state. The functions
are then the subject of the lemmas. What such a function means is said once more without it: a run's
decisions in terms of the evidence present and the verdict (`Decisions`), a merged change in terms of
the proposals (`MergedChange`), an applied action in terms of what it writes (`ActionEffects`).

| module | part of the program |
|---|---|
| `Store`, `Walks`, `Traversal`, `Query`, `Upstream`, `Consistency` | graph store, searches, queries, cycle finder and consistency report |
| `Protocol`, `PlanRuns`, `Decisions`, `PlanOrder`, `PlanGrounding`, `Fixpoint`, `Requests`, `Turns` | question protocol: one run, all runs, which questions a run decides, where dependencies sit, the fixed point, evidence requests, effects on hypotheses |
| `Signals`, `InsertionSort`, `LockContention` | signal extraction and lock-queue detection |
| `Hypotheses`, `Archetypes`, `Coverage` | confidences, normalisations, rankings, coverage |
| `Orchestration`, `WeightedMerge`, `MergedChange`, `Applier`, `ActionEffects`, `ActionLog`, `LogReplay`, `ReasoningCycle` | reasoners in any completion order, both merges and which way a merged change goes, validation and application, which way shares move, the stored log |
| `GraphBuilder`, `GraphInference`, `BuiltGraph`, `SessionGraph`, `BuiltDetails`, `AppliedGraph`, `CycleGraph` | rebuilding the graph, which nodes and edges it has and what they hold, why reachable sessions pass the checks, and what reasoning cycles keep of that |
| `Lifecycle` | Start, Submit, Get, ResolveQuestion, Finish |
| `Sorting`, `Wrappers` | string order, stable sorting, optional values |

The result that ties the parts together is `SessionGraph.ReachableGraphsSound`: whatever runs
and operator resolutions came before, on whatever evidence, the graph built from the session has
no dangling edge and no depends_on cycle, if the playbook is one of those whose reachable plans
miss no dependency (`PlanGrounding.GroundedExactly` says exactly which) and have no cycle of them
(`PlanGrounding.AcyclicExactly`). What a session keeps is a snapshot, and every reasoning
cycle loads it, lets the reasoners change it and stores it again. `CycleGraph.CyclesCheckClean`
follows it through any number of cycles: it passes the high-severity checks as long as the
snapshots that reasoners propose are rebuilt from reachable sessions, as the built-in one's are,
and no depends_on link is proposed. Neither condition is idle: a proposed snapshot is stored
without any validation (`AppliedGraph.UncheckedSnapshot`), so that runs keep the session's graph
sound exactly when the proposed snapshots are sound (`AppliedGraph.SnapshotsExactly`), and a
depends_on link can close a cycle (`AppliedGraph.LinkClosesCycle`). `CycleGraph.CycleAndCheck` is
the executable chain of summarising, building, merging, applying and checking.

## Where the code does something else than one might expect

Each of these is a lemma: a concrete input for which the expectation fails, the exact condition
under which it holds, or both.

- Automatic edge ids join endpoints with `-`. Two different edges get one id exactly when they
  are equal or a `-` inside an endpoint allows two readings (`Store.AutoIdCollision`); the
  second then replaces the first (`Store.CollisionLosesEdge`).
- The consistency report joins source, target and type with `|` to find duplicates. Two edges are taken
  for one exactly when they have one type and either the same ends or a `|` inside an end that allows two
  readings (`Consistency.KeyCollision`). Without a `|` duplicates are the parallel edges and nothing else
  (`Consistency.DuplicatesExactly`); a built graph has none (`BuiltDetails.BuiltHasNoDuplicate`).
- `DeleteNode` leaves the id in the insertion order; one operation keeps the order free of
  repeats exactly when it does not re-add a deleted node (`Store.OrderStaysDistinct`).
- `ExplainPath` counts the edges among the nodes of the path, not the hops: two parallel edges
  make one hop two (`Query.TwoForOneHop`). The hop count of every path is its distance exactly
  when the stored graph has no cycle and no parallel edges (`Query.HopCountsExactly`).
- The reverse search can exceed its limit by one node's successors: five predecessors and limit 2
  list six nodes (`Upstream.FiveForTwo`). Searches respect every limit exactly when no node has two
  predecessors (`Upstream.LimitExactly`). The start is listed again when it lies on a cycle.
- Downstream queries do not follow depends_on edges and upstream queries do
  (`Upstream.DependsOnBreaksConverse`). The two are converses exactly when the target of every
  depends_on edge is causally reachable from its source (`Upstream.ConversesExactly`).
- Generated questions skip the dependency test. One run can ask a question whose dependency is
  not in the plan, and its graph edge dangles (`SessionGraph.GeneratedChildUngrounded`,
  `SessionGraph.GeneratedChildDangles`). Runs keep dependencies at earlier places on every plan
  exactly when each dependency of a generated question is its generator, is static and called for by
  the generator alone, or is generated ahead of it (`PlanOrder.OrderExactly`). In the plans that a
  session can reach they sit at earlier places exactly when, for every other generated question, its
  generator cannot be asked while the question and that dependency are not
  (`PlanOrder.ReachableOrderExactly`). That they are in the plan at all, and that they form no cycle,
  has exact conditions of its own (`PlanGrounding.GroundedExactly`, `PlanGrounding.AcyclicExactly`),
  which the former implies (`PlanGrounding.OrderIsSafe`). For one session, the graph passes the
  high-severity checks exactly when the plan names only its own questions and its dependencies form no
  cycle (`SessionGraph.ChecksExactly`).
- A link of the session is stored as it is unless a `-` in its ends is followed by the beginning of a
  node's id (`SessionGraph.FreeStored`); ids without `:`, as the program makes them, are safe
  (`SessionGraph.ColonFree`).
- Rounding to a tenth by adding half a tenth and truncating is rounding to the nearest tenth
  exactly from -0.05 up and at negative odd multiples of 0.05 (`Hypotheses.Round1Exact`).
- Greedy time windows can separate a lock holder from its waiter
  (`LockContention.GreedyCutsSplitQueue`). Detection misses nothing, whatever the row counts, exactly
  when "within two seconds" is transitive on the entity's events (`LockContention.CompleteExactly`);
  what is detected is real (`LockContention.ContentionIsReal`).
- Effects of resolved questions do not re-sort the hypotheses: a resolution can turn 60 and 40 into
  20 and 80 (`Hypotheses.FirstNeedNotLead`). The first one loses the lead exactly when a step of the
  rounding parts its adjusted confidence from a larger one (`Hypotheses.LosesLeadExactly`), and never
  when the effects leave it ahead (`Hypotheses.AheadStaysAhead`).
- An applied increase of a confidence above 100, which no check keeps out, lowers it: the sum is clamped
  to 100. Up to 100 an increase raises the share and a decrease lowers it
  (`ActionEffects.AppliedMovesShares`).
- A session can show the status `ready` without the state of high confidence, exactly when the question
  can be answered, or the progress is high enough, without it (`Lifecycle.ReadyWithoutConfidence`).
- An operator can resolve a question that is resolved already, and its effects are then applied
  again. Over a whole investigation no question's effects are applied twice exactly when the
  operator resolves open questions only (`Turns.EffectsOnceExactly`).
- The sequentially merged list is independent of the order of arrival exactly when any two
  proposals of equal priority give the same list in both orders
  (`Orchestration.ArrivalIndependence`).
- The weighted merge walks a hash map. Its result is determined exactly when at most one
  hypothesis has a weighted average other than zero (`ReasoningCycle.DeterminedExactly`); with two,
  the two orders can lead to different sessions (`ReasoningCycle.MapOrderShows`).
- A stored `ReplaceHypotheses` action shares its slice with the session. After a later change in
  place the stored log no longer replays (`LogReplay.LogMisleads`). A log of applied actions is stored
  as it was, whatever confidences and statuses its replacements have, exactly when each replacement is
  empty or untouched until the session's list is replaced or outgrows the slice
  (`LogReplay.LogExactly`).
- The validator lets any depends_on link through; the link closes a cycle exactly when its target
  already leads to its source without the edge, if any, whose id the link takes over
  (`AppliedGraph.LinkClosesCycle`).
- The validator lets every proposed snapshot through, dangling edges included
  (`AppliedGraph.UncheckedSnapshot`). A link that is added after a snapshot was proposed brings back
  the old graph (`AppliedGraph.LateLinkUndoesUpdate`).
- A blank recommendation before there is a plan would create one although it reports no effect;
  only the validator stops it (`Applier.HarmlessExactly`).
- `docs/architecture.md:62` says that ResolveQuestion triggers a recompute. The code does so only
  when the session has no plan, which no started session lacks: of evidence, state, status and
  confidence it changes the confidence at most (`Lifecycle.ResolveOnlyScores`).
- The state `started` is never shown after Start (`Lifecycle.ReachableSessions`). A failed Submit
  keeps the items before the first bad one (`Lifecycle.FailedSubmit`).

## Model

| member | source | states |
|---|---|---|
| Store.MemoryStore.AddNode | internal/graph/store.go:50-59 | the store becomes what the operation gives: first node of an id wins |
| Store.MemoryStore.UpdateNode | internal/graph/store.go:61-70 | replaces a stored node; the error exactly for an unknown id |
| Store.MemoryStore.DeleteNode | internal/graph/store.go:72-85 | removes the node and exactly the edges that touch it; the id stays in the order |
| Store.MemoryStore.GetNode | internal/graph/store.go:87-96 | the stored node, or none |
| Store.MemoryStore.AddEdge | internal/graph/store.go:98-106 | stores under the edge's id, or the automatic id; last edge of an id wins |
| Store.MemoryStore.RemoveEdge | internal/graph/store.go:108-116 | removes one edge; the error exactly for an unknown id |
| Store.MemoryStore.GetEdges | internal/graph/store.go:118-129 | exactly the edges at the node, ascending by id |
| Store.MemoryStore.AllNodes | internal/graph/store.go:131-142 | the live nodes along the insertion order |
| Store.MemoryStore.AllEdges | internal/graph/store.go:144-153 | exactly the stored edges, ascending by id, whatever order the hash map is walked in |
| Store.MemoryStore.View | internal/graph/store.go:227-237 | the listings of nodes and edges |
| Store.MemoryStore.Reset | internal/graph/store.go:155-161 | the store is empty |
| Store.FromView | internal/graph/store.go:252-268 | a fresh store loaded with the view; empty for no view |
| Store.ListingUnique | internal/graph/store.go:144-153 | a set of edges has one listing only |
| Store.OrderStaysDistinct | internal/graph/store.go:50-85 | an operation keeps the order duplicate-free if and only if it does not re-add a deleted node |
| Store.DeleteExactly | internal/graph/store.go:72-85 | deleting a stored node takes exactly it and the edges at it, so that no edge dangles that did not before |
| Store.AddThenDelete | internal/graph/store.go:50-85 | adding a new node and deleting it gives back nodes and edges, but not the insertion order |
| Store.HarmlessOps | internal/graph/store.go:50-116 | adding a stored node and updating or deleting an unknown one change nothing; removing undoes adding a new edge |
| Store.AllNodesListsOnce | internal/graph/store.go:131-142 | after any run that never re-adds a deleted node, each live node is listed exactly once, in insertion order |
| Store.ReaddListsTwice | internal/graph/store.go:72-85 | add, delete, add lists the node twice |
| Store.RoundTrip | internal/graph/store.go:227-268 | load of a snapshot rebuilds the same nodes and edges |
| Store.LoadViewIdempotent | internal/graph/store.go:252-268 | for an arbitrary view, load-snapshot-load equals load, insertion order included |
| Store.AutoIdsNeverRepeat | internal/graph/store.go:98-106 | after any run of edges without ids, no two stored edges share source, target and type |
| Store.AutoIdCollision | internal/graph/store.go:98-106 | exactly when two edges get the same automatic id |
| Store.AnyTypeCollision | internal/graph/store.go:98-106 | the same question for arbitrary edge type strings, which may contain a dash |
| Store.CollisionLosesEdge | internal/graph/store.go:98-106 | two different edges with one id: after both are added the store holds the second under it and not the first |
| Traversal.BuildAdjacency | internal/graph/traversal.go:76-88 | the successor lists are exactly the stored arcs of the wanted types |
| Traversal.Search | internal/graph/traversal.go:91-131 | found if and only if reachable, and then the path is a walk of minimum length |
| Traversal.Rebuild | internal/graph/traversal.go:125-130 | following parent links back ends and gives a shortest walk |
| Traversal.BreadthFirst | internal/graph/traversal.go:55-71 | the order is a stopped search, nearest nodes first |
| Traversal.DepthFirst | internal/graph/traversal.go:42-54 | visited and order stay the same distinct set within the limit; below the limit everything visited is expanded |
| Traversal.Walk | internal/graph/traversal.go:33-74 | both strategies list min(limit, reachable) distinct reachable nodes; breadth-first in order of distance, and nothing left out is nearer |
| Query.SubgraphFromNodes | internal/graph/traversal.go:138-159 | exactly the stored nodes of the ids and the edges between them, sorted |
| Query.ShortestPath | internal/graph/traversal.go:91-131 | empty exactly when unreachable, otherwise the subgraph induced by a shortest path |
| Query.NoForwardSkip | internal/graph/traversal.go:138-159 | no induced edge skips forward along the shortest path |
| Query.HopIsIncluded | internal/graph/traversal.go:138-159 | every hop of the path is an induced edge |
| Query.HopsAtLeastDistance | internal/graph/query.go:169-189 | the number of induced edges is at least the distance |
| Query.HopCountExact | internal/graph/query.go:169-189 | for one path, it is the distance if and only if the induced edges are the hops alone |
| Query.HopCountsExactly | internal/graph/query.go:169-189 | the hop count of every path is its distance if and only if the store has no cycle and no parallel edges |
| Query.TwoForOneHop | internal/graph/query.go:169-189 | two parallel edges: a hop count of two at distance one |
| Query.ExplainPath | internal/graph/query.go:169-189 | empty exactly when there is no path; otherwise the subgraph induced by a shortest path, the hop count being the number of its edges, the confidence their average, and the hop count the distance in a store without cycles and parallel edges |
| Query.AverageBounds | internal/graph/query.go:169-189 | the average confidence stays within the bounds of the edges |
| Query.Traverse | internal/graph/traversal.go:33-74 | the subgraph induced by the traversal order, for each direction and mode |
| Query.FollowedEdges | internal/graph/traversal.go:21-31 | a traversal follows all stored edges, the causal ones or the temporal ones, by its mode |
| Upstream.ReverseWalk | internal/graph/query.go:54-76 | sound; complete if the queue drains; all predecessors of the start and at most one node's successors beyond the limit; when the start repeats |
| Upstream.LimitExactly | internal/graph/query.go:54-76 | every search stays within its limit if and only if no node has two successors in the direction searched |
| Upstream.FiveForTwo | internal/graph/query.go:54-76 | five predecessors and limit 2: six nodes listed |
| Upstream.QueryUpstream | internal/graph/query.go:44-47 | only nodes upstream of the start, all of them if drained |
| Upstream.QueryDownstream | internal/graph/query.go:49-52 | min(limit, reachable) nearest nodes downstream |
| Upstream.QueriedEdges | internal/graph/query.go:44-76 | downstream leads along causal edges, upstream back along causal and depends_on edges |
| Upstream.DownstreamThenUpstream | internal/graph/query.go:44-76 | found downstream of u, with a drained search, finds u upstream |
| Upstream.ExactConverses | internal/graph/query.go:44-76 | without cut-off the two queries are exact converses when every depends_on edge has a causal detour |
| Upstream.ConversesExactly | internal/graph/query.go:44-76 | for all pairs of nodes, the two relations are converses if and only if each depends_on edge's target is causally reachable from its source |
| Upstream.DependsOnBreaksConverse | internal/graph/traversal.go:21-25 | one depends_on edge breaks the converse |
| Consistency.Dfs | internal/graph/inference.go:80-95 | white/grey/black search: an answer is an edge on a cycle; without one, all finished nodes are numbered downhill |
| Consistency.FindCycle | internal/graph/inference.go:71-104 | an answer if and only if a cycle can be reached from a root, with marks shared by all roots; the answer is an edge on a cycle that a root leads to |
| Consistency.EdgeIssues | internal/graph/inference.go:23-39 | the findings about edges in their order; what they say is EdgeReport and KeyCollision |
| Consistency.EdgeReport | internal/graph/inference.go:23-39 | the findings are exactly the stored edges that dangle and the common text of each two that read alike |
| Consistency.KeyCollision | internal/graph/inference.go:31-37 | two edges have one key if and only if they have one type and either the same ends or a bar inside an end that allows two readings |
| Consistency.DuplicatesExactly | internal/graph/inference.go:31-37 | when no end contains a bar, a duplicate is reported if and only if two stored edges agree in source, target and type |
| Consistency.OrphanIssues | internal/graph/inference.go:41-56 | exactly the nodes without edges, investigations apart |
| Consistency.Check | internal/graph/inference.go:16-69 | reports exactly the dangling edges, the texts of stored edges that read alike (one type, and the same ends or a bar that cuts them in two ways) and the orphans, and a cycle if and only if a stored node leads to one; high severity if and only if something dangles or such a cycle exists |
| Protocol.Engine.Ensure | internal/engine/protocol/engine.go:63-83 | appends the static questions whose dependencies are answered |
| Protocol.Engine.Generate | internal/engine/protocol/engine.go:85-129 | appends triggered questions, then the children of confirmed ones |
| Protocol.Engine.Unlock | internal/engine/protocol/engine.go:112-128 | the nested loops over playbook and generated ids append each match once, in playbook order |
| Protocol.Engine.ResolveQuestions | internal/engine/protocol/engine.go:196-227 | every open question is resolved or gets its partial status; the history grows by the resolutions found; which ones and how is Decisions.RunDecides |
| Protocol.Engine.SyncRequests | internal/engine/protocol/engine.go:140-194 | the at most two chosen requests and both legacy lists; which questions these are about is Requests.BestAreAsked |
| Protocol.Engine.UpdateLists | internal/engine/protocol/engine.go:261-275 | the ids of open and of resolved questions |
| Protocol.Engine.Run | internal/engine/protocol/engine.go:29-52 | asks, resolves, asks again; the whole new plan, of which Decisions says what is decided and recorded |
| Protocol.Engine.ResolveQuestion | internal/engine/protocol/engine.go:278-308 | the operator's resolution of the first question with the id, resolved or not; nothing for an unknown id |
| PlanRuns.RunKeepsResolved | internal/engine/protocol/engine.go:29-52 | a run never alters an answered or rejected question and only appends |
| PlanRuns.RunKeepsInv | internal/engine/protocol/engine.go:29-129 | for every playbook, a run keeps distinct ids, history in step with statuses, and open questions without entries |
| Decisions.RunDecides | internal/engine/protocol/engine.go:196-227 | a question open when resolution begins is closed if and only if evidence is required, all of it is present and the verdict is clear; status, confidence and resolution are then the verdict's; otherwise it waits when nothing required is present, is partially answered when some is and some is not, and keeps its status when all is |
| Decisions.ResolvesExactly | internal/engine/protocol/resolution.go:20-27 | a resolution exists exactly in that case |
| Decisions.RunRecords | internal/engine/protocol/engine.go:196-227 | the history grows by one entry for each question decided, in the order of the plan, with the verdict's status and confidence |
| Decisions.RoundAsks | internal/engine/protocol/engine.go:63-129 | a round of asking leaves the questions it finds and appends questions of the playbook, open, with its priority, evidence and dependencies |
| Decisions.ForceDecides | internal/engine/protocol/engine.go:278-308 | nothing for an unknown id; otherwise the first question with the id is closed at confidence 91 and one entry is added |
| Decisions.ListedIds | internal/engine/protocol/engine.go:261-275 | the listed ids are those of the questions kept, in order |
| PlanRuns.ForceExtends | internal/engine/protocol/engine.go:278-308 | an operator resolution changes one question's standing and adds one entry, on any plan |
| PlanRuns.ForceKeepsInv | internal/engine/protocol/engine.go:278-308 | it keeps the invariant as well |
| PlanRuns.StepsKeepInv | internal/engine/protocol/engine.go:63-129 | for every playbook, the invariant over every interleaving of runs and operator resolutions |
| PlanRuns.OnlyExtended | internal/engine/protocol/engine.go:63-129 | for every playbook and plan, later events only extend the list of questions and the history |
| PlanOrder.OrderExactly | internal/engine/protocol/engine.go:63-129 | every run on every plan keeps dependencies at earlier places if and only if no generated question has a dependency other than its generator, what the generator alone calls for, and what is generated ahead of it |
| PlanOrder.ExposedBreaks | internal/engine/protocol/engine.go:111-127 | with its generator alone confirmed, such a question is asked without its dependency |
| PlanOrder.ReachableOrderExactly | internal/engine/protocol/engine.go:63-129 | in every reachable plan dependencies sit at earlier places if and only if the generator of no such question can be asked by rounds that avoid the question and the dependency |
| PlanOrder.RoundAdds | internal/engine/protocol/engine.go:29-129 | a run that decides nothing asks exactly what the rules call for when a given set is confirmed and given triggers fire |
| PlanOrder.ReachablePlans | internal/engine/protocol/engine.go:63-129 | the invariant of every reachable plan, with dependencies at earlier places for the playbooks of that kind |
| PlanGrounding.GroundedExactly | internal/engine/protocol/engine.go:63-129 | every reachable plan holds all dependencies of its questions if and only if the same holds of generated questions whose dependency their generator never brings along |
| PlanGrounding.AcyclicExactly | internal/engine/protocol/engine.go:63-129 | no reachable plan has a cycle of dependencies if and only if the questions that can be asked at all have none |
| PlanGrounding.OrderIsSafe | internal/engine/protocol/engine.go:63-129 | playbooks whose reachable plans keep dependencies at earlier places satisfy both |
| Turns.Turn | internal/engine/protocol/engine.go:29-52 | the new plan together with the hypotheses adjusted by exactly the resolutions that the run adds to the history |
| Turns.Decide | internal/engine/protocol/engine.go:278-308 | the operator's resolution together with its effects; nothing for an unknown id |
| Turns.RunResolvesOnce | internal/engine/protocol/engine.go:196-227 | a run resolves only questions that have never been resolved |
| Turns.ForceOnceExactly | internal/engine/protocol/engine.go:278-308 | an operator resolution repeats none if and only if the question was open |
| Turns.EffectsOnceExactly | internal/engine/protocol/engine.go:229-259 | for every playbook and every interleaving, no question's effects are applied twice if and only if the operator resolves open questions only |
| Fixpoint.MeasureFalls | internal/engine/protocol/engine.go:196-227 | 2 * unasked + open falls in every run by exactly what is added plus what is resolved |
| Fixpoint.FewChanges | internal/engine/protocol/engine.go:29-52 | whatever the runs see, at most 2N of them add or resolve anything |
| Fixpoint.ReachesLeastClosed | internal/engine/protocol/engine.go:63-129 | on fixed evidence, 2N runs reach the least set closed under the trigger, dependency and GENERATES rules, a question being confirmed when evidence is required, all of it is present and the verdict confirms it |
| Fixpoint.FullyFixed | internal/engine/protocol/engine.go:526-538 | one run more and the plan is a fixed point, partial statuses included |
| Fixpoint.OrderDoesNotMatter | internal/engine/protocol/engine.go:63-129 | the set reached does not depend on the order of the playbook |
| Requests.RequestsAreBest | internal/engine/protocol/engine.go:140-194 | at most two requests, for open questions that lack evidence, for absent categories only, none left out with more gain; the gain itself is in RequestsName |
| Requests.RequestsName | internal/engine/protocol/engine.go:140-194 | each request is for an open question, names all its missing categories in order, has the urgency of its priority, and is worth a third of the priority and eight per missing category within 10 and 40 |
| Requests.BestAreAsked | internal/engine/protocol/engine.go:140-194 | with distinct ids, which every reachable plan has: a question asked about is worth more than any left out, or as much with a higher priority, or both the same and earlier in the plan |
| Requests.NoneOverlooked | internal/engine/protocol/engine.go:459-461 | no question left out has a higher priority and at least as many missing categories as one asked about |
| Requests.RequestsInOrder | internal/engine/protocol/engine.go:171-177 | the first of two requests is for the better question |
| Requests.EvidenceListed | internal/engine/protocol/engine.go:485-524 | while evidence is missing, the list is the first category of each request, all of it missing; otherwise what the open questions require, none of it missing |
| Requests.RequestsMade | internal/engine/protocol/engine.go:140-194 | no request if and only if every open question has all its evidence |
| Requests.MissingEvidenceExact | internal/engine/protocol/engine.go:485-524 | the missing list is empty if and only if every open question has all its evidence |
| Signals.Analyze | internal/signals/signals.go:78-133 | one pass meets the set-based specification: first deployment, onset and recovery are the (time, id)-least matches |
| Signals.KeywordsMean | internal/signals/signals.go:92-105 | a keyword is raised if and only if some item has its group, for deployments and configuration changes one that does not rule it out |
| Signals.FirstItemsMean | internal/signals/signals.go:107-120 | the first deployment, onset and recovery are the earliest items of their kind: deployments are not ruled out, symptoms report no recovery |
| Signals.RuledOutAddsNoDeployment | internal/signals/signals.go:93-112 | an added item that rules a deployment out neither raises that keyword nor changes the first deployment |
| Signals.SignalsDetermined | internal/signals/signals.go:78-133 | with distinct ids, permuted or re-batched evidence gives the same signals |
| Signals.TimeOrderDetermined | internal/signals/signals.go:209-219 | and the same time order |
| Signals.MoreEvidenceGrows | internal/signals/signals.go:78-133 | added evidence removes no count or keyword and moves no first item later |
| Signals.NeverUntriggered | internal/engine/protocol/engine.go:370-434 | a trigger that fires keeps firing |
| InsertionSort.SortInPlace | internal/signals/signals.go:319-325 | the neighbour-swapping sort is left-to-right insertion |
| InsertionSort.SortLastIsStableSort | internal/signals/signals.go:319-325 | which is the stable sort by time |
| LockContention.ClusterByTimestamp | internal/signals/signals.go:298-317 | the clusters are the segments of at least two events of the greedy segmentation of the stably sorted events |
| LockContention.GreedyUnique | internal/signals/signals.go:298-317 | there is one greedy segmentation only |
| LockContention.PartitionLockQueue | internal/signals/signals.go:327-340 | holders and waiters of a cluster in order |
| LockContention.FindLock | internal/signals/signals.go:236-273 | finds a queue if and only if some entity has one, whichever entity is looked at first |
| LockContention.AnalyzeLockContention | internal/signals/signals.go:236-296 | present if and only if some entity has a queue; the reported ids are that queue's |
| LockContention.ReportMeans | internal/signals/signals.go:327-340 | the reported ids are those of the queue's events with a positive row count and of those with none, at least one of each |
| LockContention.ContentionIsReal | internal/signals/signals.go:236-273 | a holder (positive row count) and a waiter (no rows) among the database events of one entity, within two seconds |
| LockContention.CompleteExactly | internal/signals/signals.go:236-317 | no holder and waiter within the window are missed, whatever the row counts, if and only if being within the window is transitive on the entity's events |
| LockContention.GreedyCutsSplitQueue | internal/signals/signals.go:298-317 | a queue that is missed: three events that break transitivity |
| Hypotheses.Round1Exact | internal/engine/signals_compat.go:37-39 | exactly when the rounding is to the nearest tenth |
| Hypotheses.Round1NotIdentityOnNegatives | internal/engine/signals_compat.go:37-39 | -1 becomes -0.9 |
| Hypotheses.SharesProportional | internal/engine/protocol/engine.go:619-633 | rounded shares lie within 0 and 100, keep the order and add up to 100 within 0.05 each |
| Hypotheses.NormalizeAll | internal/engine/protocol/engine.go:619-633 | in place, every entry becomes its rounded share |
| Hypotheses.NormalizedField | internal/engine/protocol/engine.go:619-633 | the shares are proportional, ids and statuses stay, all zero if none is positive |
| Hypotheses.ApplyPlaybookEffects | internal/engine/protocol/engine.go:229-259 | each hypothesis takes the effects of the resolutions in order, then the field is normalised |
| Hypotheses.OneEffect | internal/engine/protocol/engine.go:229-259 | an effect is added or subtracted, within 0 and 100, if it is for the hypothesis and for the outcome: whenTrue for a confirmed question, the others for a refused one |
| Hypotheses.EffectsGo | internal/engine/protocol/engine.go:229-259 | effects that raise never lower a hypothesis, effects that lower never raise it, and without one that concerns it, it stays |
| Hypotheses.ResolutionsGo | internal/engine/protocol/engine.go:229-259 | the same for all resolutions of a run, before the normalisation |
| Hypotheses.EffectsFound | internal/engine/protocol/engine.go:229-259 | a resolution has the effects of the first playbook entry with the question's id, or none |
| Hypotheses.AheadStaysAhead | internal/engine/protocol/engine.go:229-259 | if the effects leave the first hypothesis ahead, it leads after the normalisation |
| Hypotheses.LosesLeadExactly | internal/engine/protocol/engine.go:229-259 | it loses the lead if and only if, before the normalisation, a rounding step lies above its adjusted confidence and not above another's |
| Hypotheses.FarAheadTakesLead | internal/engine/protocol/engine.go:229-259 | which it does when the other's share is a tenth of a percent larger before rounding |
| Hypotheses.FirstNeedNotLead | internal/engine/protocol/engine.go:229-259 | one resolution turns a field of 60 and 40 into 20 and 80 |
| Archetypes.CandidatesToHypotheses | internal/archetype/registry.go:75-113 | the kept candidates, normalised, ranked and given statuses |
| Archetypes.AssignStatuses | internal/archetype/registry.go:115-128 | statuses by place and confidence, in place |
| Archetypes.RankedField | internal/archetype/registry.go:75-128 | confidences within 0 and 100, adding up to 100 within 0.05 each, falling along the ranking |
| Archetypes.EntriesAreKept | internal/archetype/registry.go:75-113 | the entries are those of the candidates with a positive score or to be kept in any case |
| Archetypes.RankingExactly | internal/archetype/registry.go:75-128 | ranked by confidence, then id; the first leads from 60 and is supported from 35; below 8 an entry is refuted |
| Archetypes.ScoresKeepOrder | internal/archetype/registry.go:75-113 | a candidate with a higher score never gets less confidence |
| Coverage.Compute | internal/engine/coverage.go:54-107 | the weighted average, whatever order the targets are visited in, and each percentage |
| Coverage.TargetExactly | internal/engine/coverage.go:54-73 | the targets are the categories of goal, requests and evidence; the depth wanted is 3 for the goal's and high requests, 2 for medium ones, 1 otherwise |
| Coverage.PercentExactly | internal/engine/coverage.go:80-88 | a category with as many items as wanted counts fully, any other by the part it has, within 0.05 |
| Coverage.OverallExactly | internal/engine/coverage.go:54-107 | when every target is met or without evidence, overall coverage is the weight of those met as a part of all |
| Coverage.OverallRange | internal/engine/coverage.go:54-107 | overall coverage is a percentage |
| Coverage.CoverageNeverFalls | internal/engine/coverage.go:54-107 | no added item lowers it, targeted or new, through both roundings |
| Orchestration.RunSequential | internal/reasoning/orchestrator.go:97-110 | the outcomes of the reasoners that support the session and succeed, in order |
| Orchestration.RunParallel | internal/reasoning/orchestrator.go:112-139 | the same outcomes in some order of completion, stably sorted |
| Orchestration.MergeSequential | internal/reasoning/merge.go:40-50 | the proposals by falling priority, one after the other |
| Orchestration.HigherFirst | internal/reasoning/merge.go:40-50 | the merged list is that of an arrangement by falling priority in which equal priorities keep their order |
| Orchestration.PriorityOrder | internal/reasoning/merge.go:119-134 | temporal, causal, hypothesis, consistency, semantic, then any other |
| Orchestration.ArrivalIndependence | internal/reasoning/merge.go:40-50 | the merged list is the same for every order of arrival if and only if ties commute |
| Orchestration.Propose | internal/reasoning/orchestrator.go:57-95 | with distinct priorities the parallel list is the sequential one |
| WeightedMerge.MergeWeighted | internal/reasoning/merge.go:52-90 | the passed actions, then in some order one change per hypothesis whose weighted average is not zero; which way each goes is MergedChange.MergedDirection |
| MergedChange.MergedDirection | internal/reasoning/merge.go:71-107 | from the proposals alone: the merged change is a decrease exactly when the weighted decreases outweigh the weighted increases, an increase in the opposite case, none when they are even; its size is the difference over the weight of all who proposed one |
| MergedChange.AgreementKept | internal/reasoning/merge.go:71-107 | when all who propose a change agree on its direction, the merged one goes that way and lies between the least and the greatest of theirs |
| MergedChange.PassedExactly | internal/reasoning/merge.go:52-69 | of the actions that replace hypotheses, graph or timeline the last proposed of each, once; all others as proposed and in order; no change of a confidence |
| WeightedMerge.WeightedAverageDelta | internal/reasoning/merge.go:92-107 | the weighted mean of the signed changes proposed for the hypothesis |
| WeightedMerge.ReplaceAction | internal/reasoning/merge.go:109-117 | overwrites the first action of the kind or appends |
| WeightedMerge.EachOnce | internal/reasoning/merge.go:52-90 | at most one merged change per hypothesis |
| WeightedMerge.MergedInRange | internal/reasoning/merge.go:52-107 | within (0, 50], and so valid, if all proposed changes are |
| WeightedMerge.AverageSymmetric | internal/reasoning/merge.go:92-107 | the mean does not depend on the order of the votes |
| WeightedMerge.PassedMeaning | internal/reasoning/merge.go:52-90 | of each replacing kind the last proposal and nothing else; the rest unchanged and in order |
| Applier.SplitsInOrder | internal/reasoning/applier.go:24-38 | applied and rejected together are the input, in order |
| Applier.HarmlessExactly | internal/reasoning/applier.go:40-139 | without the validator, an action without effect changes nothing, except one: exactly which |
| Applier.RejectedHarmless | internal/reasoning/applier.go:24-38 | a rejected action of any type leaves session and graph unchanged |
| Applier.Replay | internal/reasoning/applier.go:24-38 | replaying the applied actions gives the same session and graph and rejects nothing |
| Applier.RunKeepsGraph | internal/reasoning/applier.go:105-118 | no list of actions makes a dangling edge, repeats an edge or changes the nodes in the graph that links go into; the session's snapshot is AppliedGraph.SnapshotsExactly |
| Applier.RunKeepsQuestions | internal/reasoning/validator.go:20-33 | a resolved question stays as it is through any list of actions |
| Applier.NormalizedShares | internal/reasoning/applier.go:152-168 | 100 is shared out among the hypotheses that are not refuted; refuted ones, ids and statuses stay |
| Applier.AdjustedShares | internal/reasoning/applier.go:141-150 | one clamped change, then the field is shared out afresh |
| ActionEffects.AppliedExactly | internal/reasoning/validator.go:10-94 | what each action needs to be applied: ids, a delta within (0, 50], a known hypothesis, an open question, stored nodes, a text that is not blank |
| ActionEffects.AppliedWrites | internal/reasoning/applier.go:40-139 | an applied action writes exactly this and nothing else, any other nothing: a decrease subtracts and an increase adds within 0 and 100 and the field is shared out, a rejected hypothesis is refuted and a promoted one leads, a resolved question is answered and a rejected one rejected, each the first with its id |
| ActionEffects.AppliedMovesShares | internal/reasoning/applier.go:141-168 | an applied decrease of a hypothesis that is not refuted leaves its share no higher and the others' no lower than in the field shared out before; an increase the reverse, unless the confidence stood above 100 |
| ActionLog.LiveSession.Normalize | internal/reasoning/applier.go:152-168 | in place, the normalised field |
| ActionLog.LiveSession.Adjust | internal/reasoning/applier.go:141-150 | changes the first hypothesis with the id and normalises; false for an unknown id |
| ActionLog.LiveSession.AppendHypothesis | internal/reasoning/applier.go:170-181 | appends unless the id exists |
| ActionLog.LiveSession.SetHypothesisStatus | internal/reasoning/applier.go:183-191 | changes one status; false for an unknown id |
| ActionLog.LiveSession.AppendContradiction | internal/reasoning/applier.go:193-204 | appends unless the id exists; true in both cases |
| ActionLog.LiveSession.AppendQuestion | internal/reasoning/applier.go:206-217 | appends to an existing plan unless the id exists |
| ActionLog.LiveSession.Close | internal/reasoning/applier.go:219-230 | sets the status of the first question with the id |
| ActionLog.LiveSession.AppendRequest | internal/reasoning/applier.go:232-243 | appends to an existing plan unless the id exists |
| ActionLog.LiveSession.Link | internal/reasoning/applier.go:105-118 | adds the edge unless its triple exists, and refreshes the snapshot |
| ActionLog.ApplyOne | internal/reasoning/applier.go:40-139 | the switch over the action types: the whole new session and graph, and whether there was an effect; what that is is ActionEffects.AppliedWrites |
| ActionLog.Offer | internal/reasoning/applier.go:24-38 | validates, then applies; the reason of a refusal |
| ActionLog.Apply | internal/reasoning/applier.go:24-38 | the run of all actions, and the stored log with the changes that show through shared slices |
| LogReplay.LogFaithful | internal/reasoning/applier.go:52-54 | the stored log is what was applied if every replacement is empty or stays untouched while it is shared |
| LogReplay.EntryExactly | internal/reasoning/applier.go:52-54 | a replacement that was applied is stored as it was, whatever its confidences and statuses, if and only if it is empty or untouched while it is shared |
| LogReplay.LogExactly | internal/reasoning/applier.go:24-54 | the same for a whole log of applied actions |
| LogReplay.AppliedAlike | internal/reasoning/applier.go:24-38 | which actions of a list are applied does not depend on confidences and statuses of the hypotheses |
| LogReplay.LogMisleads | internal/reasoning/applier.go:52-54 | a stored log whose replay ends elsewhere |
| ReasoningCycle.Execute | internal/reasoning/orchestrator.go:57-95 | a cycle without a graph works on the one loaded from the session's snapshot; the session afterwards is that of applying the merged list, which for parallel runs is that of some order of completion and with distinct priorities the sequential one; the graph handed on is loaded from the new snapshot |
| ReasoningCycle.SameChanges | internal/reasoning/merge.go:71-89 | any two weighted merges of the same votes hold the same changes |
| ReasoningCycle.OneChangeDetermined | internal/reasoning/merge.go:71-89 | with at most one hypothesis to change two weighted merges are equal |
| ReasoningCycle.DeterminedExactly | internal/reasoning/merge.go:71-89 | the merged changes are determined if and only if at most one hypothesis has a weighted average other than zero |
| ReasoningCycle.MapOrderShows | internal/reasoning/merge.go:71-89 | two orders of the same two changes, two sessions |
| ReasoningCycle.BothOrdersMerge | internal/reasoning/merge.go:71-89 | both orders are weighted merges of the same votes |
| GraphBuilder.BuildBase | internal/engine/graph.go:47-141 | performs exactly the listed store operations |
| GraphBuilder.AddEntities | internal/engine/graph.go:62-64 | one node per entity in the arbitrary order of the hash map |
| GraphBuilder.AddEvidence | internal/engine/graph.go:66-85 | node and edges of each item in time order |
| GraphBuilder.AddChain | internal/engine/graph.go:87-95 | consecutive items are linked |
| GraphBuilder.AddHypotheses | internal/engine/graph.go:114-137 | hypothesis nodes; references only to items in the graph |
| GraphBuilder.AddQuestions | internal/engine/graph.go:148-164 | question nodes and depends_on edges |
| GraphBuilder.AddRequests | internal/engine/graph.go:165-174 | request nodes and their edges |
| GraphInference.Infer | internal/engine/graph_inference.go:17-42 | the correlations of observed successions and of databases with hypotheses, added to whatever valid store there was; exactly which is BuiltGraph.InferPerforms |
| GraphInference.Annotate | internal/engine/graph_inference.go:51-72 | notes the causal fan-out of exactly the nodes where it is at least two; edges and order stay |
| GraphInference.Build | internal/engine/graph.go:47-146 | the built graph; what it holds is BuiltDetails.NodesFit, EdgesFit and CorrelationsExactly |
| GraphInference.Rebuild | internal/reasoners/reasoners.go:226-231 | the snapshot that the hypothesis reasoner proposes: of the built graph, inferred over and annotated once more |
| BuiltGraph.BuildPerforms | internal/engine/graph.go:47-175 | the builder adds exactly the links that a session calls for |
| BuiltGraph.BuildNodes | internal/engine/graph.go:47-175 | and exactly the nodes |
| BuiltGraph.InferPerforms | internal/engine/graph_inference.go:17-42 | a link is inferred if and only if a stored occurred_before edge that is not itself inferred has its ends, or the database keyword is raised and it joins a database node to a hypothesis node |
| SessionGraph.InferenceKeeps | internal/engine/graph_inference.go:17-42 | inference on any valid store keeps nodes, order, stored ids and automatic keying |
| SessionGraph.InferenceEdge | internal/engine/graph_inference.go:17-42 | an edge after inference was there before or is such a link |
| SessionGraph.InferenceComplete | internal/engine/graph_inference.go:17-42 | and every such link has an edge stored under its id |
| SessionGraph.BuiltEdge | internal/engine/graph.go:47-175 | every stored edge is a called-for or an inferred link |
| SessionGraph.NoneForgotten | internal/engine/graph.go:47-175 | every called-for link has an edge stored under its id |
| SessionGraph.FreeStored | internal/engine/graph.go:47-175 | and is stored as it is when no dash in its ends is followed by the beginning of a node's id |
| SessionGraph.ColonFree | internal/runtime/id.go:11-20 | ids without a colon meet that condition, whatever dashes they have |
| SessionGraph.BuiltKeyed | internal/engine/graph.go:47-175 | no two built edges share source, target and type |
| BuiltDetails.NodesFit | internal/engine/graph.go:47-175 | each node of a built graph stands for something of the session and has the type of its kind |
| BuiltDetails.EdgesFit | internal/engine/graph.go:47-175 | correlations are inferred and all other edges observed, each with the confidence of its kind |
| BuiltDetails.NeighboursCorrelate | internal/engine/graph_inference.go:18-26 | whatever the ids, items that follow each other in time have an edge stored under their correlates_with id |
| BuiltDetails.CorrelationKept | internal/engine/graph_inference.go:17-42 | every correlation that the session calls for, of successive items and, with the keyword, of database items with hypotheses, has an edge stored under its id |
| BuiltDetails.CorrelationsExactly | internal/engine/graph_inference.go:17-42 | with no dash that a node's id could follow, the stored correlations are exactly those |
| BuiltDetails.AnnotatedExactly | internal/engine/graph_inference.go:51-72 | a node is annotated if and only if at least two stored causal edges leave it, and with their number |
| BuiltDetails.BuiltDuplicatesExactly | internal/graph/inference.go:31-37 | duplicates are reported in a built graph exactly for different ends that read the same around a bar |
| BuiltDetails.BuiltHasNoDuplicate | internal/graph/inference.go:31-37 | when no id or name contains a bar, the report on a built graph has no duplicate |
| SessionGraph.ExpectedEnds | internal/engine/graph.go:47-175 | both ends of every called-for link are nodes |
| SessionGraph.BuiltNoDangling | internal/engine/graph.go:47-175 | the built graph has no dangling edge when the plan names only its own questions |
| SessionGraph.DanglingExactly | internal/engine/graph.go:47-175 | the built graph has no dangling edge if and only if the plan names only its own questions |
| SessionGraph.BuiltAcyclic | internal/engine/graph.go:157-163 | it has no depends_on cycle when the plan's dependencies have none, whatever the ids |
| SessionGraph.CycleExactly | internal/engine/graph.go:157-163 | it has a depends_on cycle if and only if the plan's dependencies have one |
| SessionGraph.ChecksExactly | internal/graph/inference.go:16-69 | nothing of high severity is found if and only if the plan names only its own questions and its dependencies form no cycle |
| SessionGraph.StandingInv | internal/engine/protocol/engine.go:29-52 | in every reachable standing the requests name questions of the plan |
| SessionGraph.ReachedDanglingExactly | internal/engine/graph.go:47-175 | for every playbook, the graph of a reachable session has no dangling edge if and only if no question depends on one never asked |
| SessionGraph.ReachedExactly | internal/graph/inference.go:16-69 | for every playbook, the graph of a reachable session passes the high-severity checks if and only if its plan misses no dependency and has no cycle of them |
| SessionGraph.ReachableGraphsSound | internal/graph/inference.go:16-69 | graphs of reachable sessions have no dangling edge and no depends_on cycle, for exactly described playbooks |
| SessionGraph.RebuildAndCheck | internal/runtime/graph_api.go:89-97 | summarise, build, take the snapshot of a reachable session, load it again and check it: no high-severity issue |
| SessionGraph.GeneratedChildUngrounded | internal/engine/protocol/engine.go:111-127 | one run that asks a question whose dependency was never asked |
| SessionGraph.UngroundedDangles | internal/engine/graph.go:157-163 | a dependency outside the plan dangles, for all such ids |
| SessionGraph.UnaskedRequestDangles | internal/engine/graph.go:165-174 | so does a request for a question outside the plan |
| SessionGraph.GeneratedChildDangles | internal/engine/graph.go:157-163 | so that run's graph has a dangling edge |
| AppliedGraph.LinkClosesCycle | internal/reasoning/validator.go:52-68 | an accepted depends_on link, even one that takes over a stored edge's id, closes a cycle if and only if its target leads to its source without that edge |
| AppliedGraph.UncheckedSnapshot | internal/reasoning/applier.go:63-67 | a proposed snapshot with a dangling edge is applied, nothing is refused, and the session keeps it |
| AppliedGraph.RunKeepsGood | internal/reasoning/applier.go:24-38 | runs with sound proposals keep both the graph and the snapshot sound, and acyclic without depends_on links; links refresh the snapshot |
| AppliedGraph.SnapshotsExactly | internal/reasoning/applier.go:24-67 | every run over a set of proposed snapshots keeps the session's sound if and only if all of them are |
| AppliedGraph.LateLinkUndoesUpdate | internal/reasoning/applier.go:105-118 | the snapshot after an update and a link: the old graph with the link, or the update if the link is refused or present |
| AppliedGraph.EnrichedGood | internal/engine/graph_inference.go:17-72 | inference and annotation keep a sound acyclic graph sound and acyclic |
| AppliedGraph.ReachableThenApplied | internal/reasoning/applier.go:24-38 | any actions whose proposed snapshots are sound keep both the graph and the session's snapshot free of dangling and repeated edges, and without depends_on links of cycles |
| CycleGraph.MergesProposed | internal/reasoning/merge.go:40-117 | under each strategy a merged action is a proposed one or a weighted change of a confidence |
| CycleGraph.EmptyGood | internal/runtime/runtime.go:212 | the empty snapshot of a new session is sound and acyclic |
| CycleGraph.CyclesCheckClean | internal/engine/orchestrator.go:72-88 | over any number of cycles, each on the snapshot that the one before it left, the stored snapshot passes the high-severity checks |
| CycleGraph.CheckStored | internal/runtime/graph_api.go:89-97 | the check of the stored snapshot loaded again: high severity if and only if something dangles or a stored node leads to a depends_on cycle |
| CycleGraph.CycleAndCheck | internal/reasoning/orchestrator.go:57-95 | a cycle in which the hypothesis reasoner proposes its snapshot, then the check: nothing of high severity |
| Lifecycle.Start | internal/runtime/runtime.go:188-232 | the three checks in order; a session exactly when they pass |
| Lifecycle.Session.SubmitEvidence | internal/runtime/runtime.go:235-269 | the outcome of Submit, error paths included |
| Lifecycle.Session.GetSession | internal/runtime/runtime.go:272-277 | Get recomputes |
| Lifecycle.Session.Resolve | internal/runtime/runtime.go:349-378 | the operator's resolution of a question |
| Lifecycle.Session.FinishSession | internal/runtime/runtime.go:395-421 | Finish completes the session |
| Lifecycle.Session.Recompute | internal/runtime/runtime.go:461-507 | state, status and confidence after a recompute |
| Lifecycle.IngestAppends | internal/runtime/runtime.go:247-260 | a batch leaves the named items of a prefix, all with a summary and under new ids, all of it exactly when nothing failed; otherwise why the next item is refused |
| Lifecycle.FailedSubmit | internal/runtime/runtime.go:247-260 | a failed Submit adds exactly a strict prefix and changes nothing else |
| Lifecycle.StepKeeps | internal/runtime/runtime.go:235-421 | each call keeps the session invariant and only advances |
| Lifecycle.ShownExactly | internal/engine/state_machine.go:17-56 | in every reachable unfinished session, after Get and a successful Submit: exactly when the state is high confidence, waiting or collecting, and when the status is ready |
| Lifecycle.ReadyWithoutConfidence | internal/runtime/runtime.go:461-507 | high confidence comes with a ready status; exactly when ready comes without it |
| Lifecycle.CallsFail | internal/runtime/runtime.go:235-421 | which calls fail and why; Get and Finish never do |
| Lifecycle.FinishAndResolve | internal/runtime/runtime.go:349-421 | what Finish and an operator's resolution leave: completion, and which confidence |
| Lifecycle.ReachableSessions | internal/runtime/runtime.go:188-421 | in every run ids stay distinct, state and status agree on completion, and neither the reasoning state nor the started state shows |
| Lifecycle.RunsAdvance | internal/runtime/runtime.go:188-421 | evidence is append-only; completion is absorbing and freezes it |
| Lifecycle.ResolveOnlyScores | internal/runtime/runtime.go:349-378 | of evidence, state, status and confidence an operator resolution changes the confidence at most |

## Left out

- SessionGraph.DanglingExactly: speaks of ids in which no dash is followed by the beginning of a node's id; with others one link can replace another.
- SessionGraph.CycleExactly: the same.
- SessionGraph.ChecksExactly: the same.
- SessionGraph.ReachedExactly: the same.
- GraphBuilder.BuildBase: labels, reasons, timestamps, weights and evidence references of nodes and edges.
- GraphInference.Build: the same, and node properties other than the causal fan-out.
- Signals.Analyze: text scanning; the keyword groups, negations and database-metric tests of an item are attributes of the item.
- Protocol.Engine.Generate: the turn's list of new questions, which is shown to clients and read by no later step.
- Protocol.Engine.ResolveQuestions: the resolver's long table is a parameter that gives a verdict for each question id; that all required categories must be present first is modelled. Evidence references are left out.
- Protocol.Engine.SyncRequests: request ids and reasons, and the guard against repeated question and category pairs, which distinct question ids make idle.
- Protocol.Engine.Run: turn record, metrics and stages. The hypothesis effects are `Turns.Turn`.
- Protocol.Engine.ResolveQuestion: the hypothesis effects are `Turns.Decide`.
- Store.AutoIdCollision: the declared edge types; arbitrary type strings are `Store.AnyTypeCollision`.
- Query.ExplainPath: resolving a free-text target to a node id, and the steps' texts.
- BuiltDetails.CorrelationsExactly: speaks of ids in which no dash is followed by the beginning of a node's id, and of items with one category per id.
- ActionEffects.AppliedMovesShares: speaks of non-negative confidences with a positive total before and after; what is written otherwise is ActionEffects.AppliedWrites.
- Upstream.QueryUpstream: resolving a free-text target to a node id.
- Upstream.QueryDownstream: resolving a free-text target to a node id.
- Archetypes.CandidatesToHypotheses: statement, rationale and evidence lists of a hypothesis.
- Coverage.Compute: the order of the categories in the report.
- Lifecycle.Start: what the first recompute derives is a parameter.
- Lifecycle.Session.Recompute: what reasoners and calibration derive in a recompute is a parameter.
- Lifecycle.Session.Resolve: plan and hypotheses are not part of the lifecycle's session; `Turns.Decide` has both.
- Lifecycle.ResolveOnlyScores: the same; the call does change plan and hypotheses.
- Marks of fulfilled evidence requests, which the same step overwrites.
- Turn records, protocol metrics, stages, journal and report texts, question-graph export.
- Blast radius, strongest path, supporting-evidence, contradiction and service queries: compositions of the modelled searches.
- The archetypes' scoring tables, the playbook parser and the seeds: input data here.
- Similarity to past incidents, patterns and lessons.
- Model-based reasoners, which call an external service; reasoners are arbitrary proposals.
- Mutexes, the event bus and the map of sessions; operations on one session are atomic steps. The completion order of parallel reasoners is modelled.
- MCP server, command line, configuration loading, exporters: input and output.
- Floating point: confidences are real numbers; times are unbounded integers.
