# Plans, layouts and imports: a verified model

The repository is a workbench for investigations on a shared board. This project models the parts of it
that are protocols, graph algorithms and transactions, and proves what they promise for every input, every
interleaving and every run.

- **Plans.** A plan is a dependency graph of transforms. `Dag` breaks its cycles and ranks it, `Scheduler`
  is the ready-queue over it, `StartOrder` says which order it promises, `Executor` runs that queue under a parallelism ceiling while `Channel` carries
  its events to a consumer with backpressure, and `StepLeases` follows the leases of concurrent steps.
  `PlanOrder` and `ExecutorRuns` say of whole runs who is served when and what a stop, the ceiling and the high-water
  mark mean. `Prioritise`, `Projection` and `Selection` choose the steps that fit a budget, `SelectionReasons` says why.
  `Builder`, `LayoutWorkflow`, `Workflow`, `Compile`, `DrawingToRun` and `DrawnPaths` lead from a drawing to a plan and
  end in the order of execution that drawn arrows and drawn paths guarantee; `WorkflowMeaning` says what every issue,
  step and drawn node means. `Agent` and `AgentSession` are the bounded loop over plans, `AgentMeaning` what becomes of
  every offered step; `Resources` and `Pace` are its allocators, `Corroborate`, `Resolve` and `ResolveLinks` its record
  of evidence.
- **Layouts.** `LayoutGraph`, `LayoutRank`, `BreadthFirst`, `LayoutComponents` and `LayoutForest` are the graph
  algorithms, composed in `Layering`; `Scope` selects what is laid out; `Overlap` separates cards in place over a grid;
  `RunLayout` and `LayoutRerun` finish a layout and run it again on its own output, `LayoutAnchors` says where it lies.
- **Imports.** `Proposal` and `Apply` build and apply a proposal, `ImportRun` joins them; `ProposalMeaning` and
  `ApplyMeaning` say what a proposal holds and what is on the board afterwards. `JsonText`, `CanonicalJson` and
  `CanonicalForm` show that the canonical print is one, `JsonReader` that it is a JSON text of the value.
- `Eviction` is the idle clock of rooms, `Artifacts` the buffer that keeps the two ends of a stream. `Graphs`, `Sequences` and `Wrappers` hold what the others share: walks,
  cycles and longest paths; filters and folds; optional values.

Where the source updates things step by step the model does too: classes for its stateful objects, loops with
invariants for its loops, an array where cards are moved in place. Each such method is tied by its `ensures` to
a function of its input or old state, and the lemmas are about that function; the modules named after what their
results mean state them without naming it, by the inputs alone. Asynchronous code is a state machine whose steps are
the segments between awaits, taken in any order.

`dafny verify dfyconfig.toml` checks the whole project.

## Where the code and its comments differ

The model follows the code.

- `components` (`packages/layout/src/graph.ts:53`) announces each group in input order. The groups are in input order of
  their first nodes, but inside a group the nodes come as the search finds them: `LayoutComponents.FoundOutOfInputOrder`
  is a board where the two differ, `LayoutComponents.InInputOrderIff` says when they agree.
- A node left over by `graphToWorkflow` is reported with a cycle through it and called inside a cycle
  (`packages/query-engine/src/builder.ts:142`, `:159`). It may only stand behind one: `Builder.LeftOverIffCyclic`
  says exactly which nodes are reported and `Builder.BlamedThoughNotOnCycle` gives a drawing where the message is
  untrue.
- A compiled step is said to depend on the transforms upstream of it (`packages/query-engine/src/workflow.ts:156-158`). A
  transform left out of the plan ends that: what stands behind it does not wait for what stands before it.
  `DrawnPaths.ExcludedBreaksOrder` is such a drawing and `DrawnPaths.InOrderIffPathRuns` says when the order holds.
- The provenance list is capped with a count of what was collapsed (`packages/integrations/src/apply.ts:107`). Each append
  past the cap counts what it drops itself, the previous count being one of the entries, so the count is right up to the
  fifty-second append and two ever after: `Apply.MarkerIsTrueIff`, `Apply.MarkerForgets`.
- A workflow node listing itself as a parent passes `validateWorkflow`, which asks for parents declared earlier
  (`packages/query-engine/src/workflow.ts:97-133`), because the node is marked as seen first:
  `Workflow.SelfListingPasses`. Compiled, it does not depend on itself. `Workflow.SilentIffRunnable` says "declared no
  later" for that reason.
- The channel cannot deadlock for any high-water mark of zero or more and can for every negative one, which the
  executor accepts (`packages/query-engine/src/executor.ts:665`): `Executor.DeadlocksIffNegative`.
- A lease is released when the pacer refuses and when the engine ends or fails, but not when the pacer itself fails
  (`packages/query-engine/src/executor.ts:443`): `StepLeases.NothingLeaksIff`.
- A pacer grants a slot further away than `maxWaitMs` and lets the caller start before it. The slots are always spaced,
  the starts if and only if no caller's patience runs out: `Pace.StartsSpacedIffWithinPatience`, `Pace.TwoCallsTooClose`.
- `RoomEvictionTracker` treats a disconnect of an unconnected room as the end of its last connection, which leaves a
  timer that cannot be stopped if and only if the room was on the clock: `Eviction.TimersKeptIff`, `Eviction.TwoTimers`.
- The stream buffer is said to keep the first and last MiB (`apps/runner/src/artifacts.ts:12`). It drops whole chunks. The
  first MiB is always there, `Artifacts.FirstIsHeld`; the last one under the condition of `Artifacts.LastIsHeldIff`, and
  not in `Artifacts.LastIsLost`. A long last chunk makes the tail longer than a MiB.

## Model

| member | source | states |
|---|---|---|
| `Dag.AcyclicEdges` | packages/query-engine/src/schedule.ts:42-67 | The depth-first cycle break: an edge survives exactly when no warning names it, every dropped edge lies on a cycle of the declared graph, and a numbering of the nodes falls along everything kept, so what is kept is acyclic. |
| `Dag.Visit` | packages/query-engine/src/schedule.ts:51-63 | One recursive visit finishes its node, leaves the set of open nodes as it found it and keeps the search invariant: kept lists are exactly the finished parents, every cut edge closes a cycle. |
| `Dag.IndexSteps` | packages/query-engine/src/schedule.ts:77-84 | The first step of each transform is the one indexed, in order of first occurrence; a duplicate warning names exactly the transforms that occur more than once. |
| `Dag.RepeatsMeaning` | packages/query-engine/src/schedule.ts:78-84 | A transform is reported as repeated if and only if two different positions of the plan carry it. |
| `Dag.ParentsInPlan` | packages/query-engine/src/schedule.ts:88-97 | The parents are the declared dependencies that are other steps of the plan, each once, in order; a warning is added for exactly the unknown ones. |
| `Dag.CollectEdges` | packages/query-engine/src/schedule.ts:86-98 | The raw graph is the declared plan graph and the warnings so far are exactly the duplicates and the unknown parents. |
| `Dag.Invert` | packages/query-engine/src/schedule.ts:103-107 | The wake-up lists are the exact inverse of the kept dependency lists, without repetition. |
| `Dag.RankOf` | packages/query-engine/src/schedule.ts:110-118 | The memoised recursion with its placeholder never reads a placeholder on an acyclic graph: the table it returns obeys the longest-path rule for every finished node. |
| `Dag.AllRanks` | packages/query-engine/src/schedule.ts:109-130 | Every rank is the length of the longest dependency chain below the node. |
| `Dag.Width` | packages/query-engine/src/schedule.ts:133-134 | `width` is the size of the fullest rank: no rank has more nodes and some rank has that many. |
| `Dag.Depth` | packages/query-engine/src/schedule.ts:139 | `depth` is one more than the largest rank, 0 for an empty plan. |
| `Dag.Wire` | packages/query-engine/src/schedule.ts:120-142 | The assembled DAG is closed, duplicate-free and acyclic, its `roots` are exactly the nodes without dependencies in plan order, its wake-up lists invert its dependencies, and ranks, depth and width are as stated above. |
| `Dag.BuildDag` | packages/query-engine/src/schedule.ts:73-143 | For every list of steps: the DAG is well formed, keeps every in-plan dependency except the edges its cycle warnings name, each of which lies on a cycle, and reports exactly the duplicates and unknown parents besides. |
| `Dag.DropsNothingIffAcyclic` | packages/query-engine/src/schedule.ts:41-67 | No edge is dropped if and only if the declared plan is acyclic, and then the dependencies of the DAG are those of the plan. |
| `PlanOrder.StepOfIsFirst` | packages/query-engine/src/schedule.ts:77-84 | Of the steps that name a transform the one that counts is the first in the plan. |
| `PlanOrder.FirstIdsInOrder` | packages/query-engine/src/schedule.ts:77-84 | The transforms of a plan are taken in the order of their first steps. |
| `PlanOrder.ParentsInOrder` | packages/query-engine/src/schedule.ts:88-97 | The parents of a step keep the order of its declaration. |
| `Scheduler.DagScheduler.constructor` | packages/query-engine/src/schedule.ts:167-172 | A new scheduler counts the dependencies of every node and queues the roots. |
| `Scheduler.DagScheduler.Take` | packages/query-engine/src/schedule.ts:175-179 | `take` removes a prefix of the queue of the asked length (nothing for a limit below 1) and marks it running; nothing else changes. |
| `Scheduler.DagScheduler.Settle` | packages/query-engine/src/schedule.ts:180-189 | `settle` ends a running node, ignores a node that has settled already, takes one off the count of each dependent and queues those that reach zero. |
| `Scheduler.InitInv` | packages/query-engine/src/schedule.ts:167-172 | The invariant holds at the start: the counts are the unsettled parents; queued, running and settled nodes are disjoint, duplicate-free and together exactly the nodes that wait for nothing. |
| `Scheduler.TakeInv` | packages/query-engine/src/schedule.ts:175-179 | `take` keeps the invariant, with any limit. |
| `Scheduler.SettleInv` | packages/query-engine/src/schedule.ts:180-189 | Reporting a running or an already settled node keeps the invariant and settles exactly that node. |
| `Scheduler.RunIsSafe` | packages/query-engine/src/schedule.ts:166-195 | Over every interleaving of takes and (possibly repeated) reports the invariant holds, no node is handed out twice, and what was handed out is what is running or settled. |
| `Scheduler.QueuedAreReady` | packages/query-engine/src/schedule.ts:147-149 | A queued node has only settled dependencies. |
| `Scheduler.StartsAfterParents` | packages/query-engine/src/schedule.ts:158-165 | In every run, a node is handed out only after everything it depends on has settled. |
| `Scheduler.IdleMeansDone` | packages/query-engine/src/schedule.ts:190-193 | `finished()` implies that every node has settled and `blocked()` is empty: no node is stranded. |
| `PlanOrder.TakeFromFront` | packages/query-engine/src/schedule.ts:175-179 | What a take hands out and what it leaves queued are together the queue as it was, and it hands out the asked number as far as there are as many. |
| `PlanOrder.FirstReadyFirstServed` | packages/query-engine/src/schedule.ts:166-195 | Over every run, whoever is ready now is handed out in that order and before anyone who becomes ready later. |
| `StartOrder.SettlesExactly` | packages/query-engine/src/schedule.ts:166-195 | For every set of nodes that contains the dependencies of its members, some run settles exactly that set: the scheduler holds nothing back but for a dependency. |
| `StartOrder.AlwaysBeforeIffDepends` | packages/query-engine/src/schedule.ts:158-195 | Every run settles one node before it starts another if and only if the other depends on it, directly or through a chain. |
| `Channel.EventChannel.constructor` | packages/query-engine/src/executor.ts:133-137 | A new channel is empty and open with both wake-up slots unset. |
| `Channel.EventChannel.PushMessage` | packages/query-engine/src/executor.ts:150-153 | A push appends, and fires and clears the consumer slot if it was set. |
| `Channel.EventChannel.CloseChannel` | packages/query-engine/src/executor.ts:154-158 | Closing fires and clears both slots. |
| `Channel.EventChannel.WaitForDrain` | packages/query-engine/src/executor.ts:140-149 | One turn of the wait parks the driver exactly when the channel is open and over the mark, and fills its slot then. |
| `Channel.EventChannel.Drain` | packages/query-engine/src/executor.ts:159-175 | One segment of the generator hands over the oldest item, returns when empty and closed, or parks; it fires the driver slot exactly when it finds or leaves the buffer empty. |
| `Executor.LaunchKeeps` | packages/query-engine/src/executor.ts:677-691 | Taking as many nodes as the ceiling leaves room for keeps at most `max(1, maxParallel)` tasks in flight, and leaves none in flight only when the scheduler is finished. |
| `Executor.StepKeeps` | packages/query-engine/src/executor.ts:662-714 | Every enabled step of driver, consumer, task or abort keeps the scheduler, driver and channel invariants together. |
| `Executor.RunKeeps` | packages/query-engine/src/executor.ts:662-714 | The joint invariant holds in every reachable state, for every order in which tasks emit and settle and every interleaving with the consumer. |
| `Executor.DriverGuarantee` | packages/query-engine/src/executor.ts:662-714 | In every reachable state the ceiling holds and the branch that would spin with nothing in flight is not taken; the loop leaves with nothing in flight; and unless cancelled or over budget it has then settled every node, so the "never reached" warning cannot fire. |
| `Executor.ChannelGuarantee` | packages/query-engine/src/executor.ts:133-177 | In every reachable state delivered items plus the buffer are the pushed items in order; a parked consumer has its slot set and an empty open buffer, a parked driver has its slot set and a non-empty one, so they are never parked together; the generator returns only after everything pushed was delivered, and nothing can be pushed afterwards. |
| `Executor.NeverStuck` | packages/query-engine/src/executor.ts:662-708 | Until the generator returns, the driver or the consumer can move or a task is in flight: no wake-up is lost. |
| `Executor.RunIsBounded` | packages/query-engine/src/executor.ts:662-701 | The run's own steps are at most 11 per node plus 6 per emitted event plus 5: once the engines fall silent the run ends. |
| `Executor.DeadlocksIffNegative` | packages/query-engine/src/executor.ts:665-671 | Driver and consumer can park on each other if and only if the configured high-water mark is negative. |
| `ExecutorRuns.NothingStartsAfterStop` | packages/query-engine/src/executor.ts:672-676 | Once a run is cancelled, aborted or over budget, every continuation of it has started exactly the nodes that had been started then: nothing more starts, and what runs settles or keeps running. |
| `ExecutorRuns.StoppedIffAsked` | packages/query-engine/src/executor.ts:223-676 | A run is cancelled if and only if it began so, was aborted or some event cancelled it, and over budget if and only if some event said so. |
| `ExecutorRuns.RunsToTheEnd` | packages/query-engine/src/executor.ts:662-714 | A run nobody asks to stop leaves the loop with every node of the plan settled; any run that leaves it has settled exactly what it started, and reports exactly the other nodes as blocked. |
| `ExecutorRuns.ConsumerSeesAll` | packages/query-engine/src/executor.ts:133-177 | What the consumer has been handed is a prefix of the events the tasks produced, in order, and all of them when the generator returns. |
| `ExecutorRuns.CeilingIsUsed` | packages/query-engine/src/executor.ts:677-699 | Whenever the driver can only wait for a task to end, `max(1, maxParallel)` tasks are in flight or no node is ready. |
| `ExecutorRuns.MarkIsTested` | packages/query-engine/src/executor.ts:666-671 | The driver goes on to schedule only from a test that found the buffer within the high-water mark, and parks only from one that found it over the mark. |
| `ExecutorRuns.StartsAreDue` | packages/query-engine/src/executor.ts:666-691 | Over all runs, a node is started only by the driver, in a run nobody has asked to stop, after a test that found the buffer within the mark, and once everything it depends on has settled. |
| `StepLeases.StepKeeps` | packages/query-engine/src/executor.ts:428-467 | Asking for capacity, an answer of the pacer, a failure of the pacer and an answer of the engine each keep the account: every chain that waits holds a lease of its own, and beside those exactly the leases lost to a failing pacer are not released. |
| `StepLeases.RunKeeps` | packages/query-engine/src/executor.ts:428-467 | The account holds in every interleaving of concurrent fallback chains, with one lost lease for each failure of the pacer. |
| `StepLeases.LeasesLost` | packages/query-engine/src/executor.ts:429-467 | Once no chain waits any more, the leases still held are exactly as many as the pacer has failed. |
| `StepLeases.NothingLeaksIff` | packages/query-engine/src/executor.ts:442-467 | Whenever no chain waits, everything acquired has been given back if and only if the pacer never failed; refusals and failing engines give their lease back. |
| `LayoutGraph.BuildAdjacency` | packages/layout/src/graph.ts:19-51 | `out`, `in` and the undirected lists hold exactly the edges between two different nodes of the board, each once, and `in` inverts `out`. |
| `LayoutGraph.Turn` | packages/layout/src/graph.ts:90-106 | One turn of the explicit-stack loop keeps the search invariant (the stack is a path, marks 0, 1, 2 mean untouched, on it, finished) and makes progress. |
| `LayoutGraph.SearchFrom` | packages/layout/src/graph.ts:85-107 | The search from one root terminates, empties its stack and never forgets a touched node. |
| `LayoutGraph.FeedbackEdges` | packages/layout/src/graph.ts:80-109 | Every returned edge lies on a directed cycle, and a numbering falls along all the others. |
| `LayoutGraph.FeedbackBreaksCycles` | packages/layout/src/graph.ts:76-79 | Removing feedback edges leaves an acyclic graph, and there are none if and only if the graph was acyclic. |
| `LayoutGraph.AcyclicView` | packages/layout/src/graph.ts:111-131 | The acyclic view is the graph without the feedback edges, `in` inverts `out`, it has no cycle, and an acyclic input loses nothing. |
| `LayoutRank.TellTargets` | packages/layout/src/graph.ts:155-161 | Processing one queued node keeps the topological-order invariant: counts are the parents not processed, ranks the best of the processed ones, the queue exactly the nodes whose count is zero. |
| `LayoutRank.DrainQueue` | packages/layout/src/graph.ts:142-162 | The queue loop terminates with every queued node processed. |
| `LayoutRank.QueueDrained` | packages/layout/src/graph.ts:151-165 | The queue reaches every node if and only if there is no cycle, and then every rank is the length of the longest path from a source. |
| `LayoutRank.RankMissed` | packages/layout/src/graph.ts:163-165 | The fallback gives rank 0 to exactly the nodes without a rank and leaves the others alone. |
| `LayoutRank.RankNodes` | packages/layout/src/graph.ts:137-167 | Every node gets a rank; on an acyclic view it is the longest-path length from a source and the fallback assigns nothing. |
| `LayoutComponents.Spread` | packages/layout/src/graph.ts:65-69 | Every unseen neighbour joins the queue once, after everything found so far; the search stays inside the class of its start and in finding order. |
| `LayoutComponents.Explore` | packages/layout/src/graph.ts:57-72 | The group found from a start node is exactly what an undirected path joins to it, each node once, in the order a breadth-first search finds them. |
| `LayoutComponents.Components` | packages/layout/src/graph.ts:54-74 | The groups are exactly the connectivity classes of the board: they share no node and cover all; each starts with its first node in input order, and the groups come in the input order of those. |
| `LayoutComponents.SameGroupIffConnected` | packages/layout/src/graph.ts:53-74 | Two nodes are in one group if and only if a path joins them. |
| `BreadthFirst.FindingOrderIsUnique` | packages/layout/src/graph.ts:62-70 | The order in which a breadth-first search finds a set of nodes is determined by the graph and the first node. |
| `LayoutComponents.InInputOrderIff` | packages/layout/src/graph.ts:53 | A group is in input order if and only if the input order of its class is a finding order: each node but the first has an earlier neighbour, and nodes stand in the order of their earliest neighbours and of the neighbour lists. |
| `LayoutComponents.FoundOutOfInputOrder` | packages/layout/src/graph.ts:53-74 | On a board a, b, c with edges a to c and c to b the only group is a, c, b. |
| `LayoutForest.Visit` | packages/layout/src/graph.ts:184-201 | Visiting a root adds it to the roots and its whole unvisited reach to its tree; parent and child links stay inverse. |
| `LayoutForest.SourcesMeaning` | packages/layout/src/graph.ts:203-204 | The sources are exactly the nodes without incoming edges. |
| `LayoutForest.PlantSources` | packages/layout/src/graph.ts:203-204 | After the first loop the roots are exactly the sources, in input order. |
| `LayoutForest.AnchorComponents` | packages/layout/src/graph.ts:205-209 | The second loop only adds trees, and adds none when everything is covered. |
| `LayoutForest.VisitRest` | packages/layout/src/graph.ts:210 | After the third loop every node is covered; if all were before, nothing changes. |
| `LayoutForest.AcyclicIsCovered` | packages/layout/src/graph.ts:170-171 | On an acyclic view the trees of the sources cover every node. |
| `LayoutForest.SpanningForest` | packages/layout/src/graph.ts:173-212 | Every node is covered, parent and children are inverse and follow edges of the view, sources come first among the roots, and on an acyclic view the roots are exactly the sources in input order. |
| `LayoutForest.OneTreeEach` | packages/layout/src/graph.ts:169-212 | Every node hangs below exactly one root. |
| `Layering.Layer` | packages/layout/src/graph.ts:19-212 | Composed for any board with distinct ids: the acyclic view has longest-path ranks with no node missed, and its forest has exactly the sources as roots. |
| `Scope.SpreadLevel` | packages/layout/src/scope.ts:30-36 | One level adds exactly the neighbours of the frontier; the new ones are the next frontier. |
| `Scope.BallGrows` | packages/layout/src/scope.ts:29-37 | Adding the neighbours of the nodes within n hops gives the nodes within n + 1 hops. |
| `Scope.BallStops` | packages/layout/src/scope.ts:38 | Once a level adds nothing, further levels cannot: the early exit loses nothing. |
| `Scope.Reach` | packages/layout/src/scope.ts:25-40 | The search keeps exactly the nodes within `max(0, depth)` undirected hops of the seeds. |
| `Scope.ApplyScope` | packages/layout/src/scope.ts:19-46 | The scoped graph holds exactly the nodes asked for and the edges between them, the excluded list exactly the others, all in board order and as often as on the board; the board scope changes nothing. |
| `Overlap.PushParts` | packages/layout/src/overlap.ts:65-78 | Pushing an overlapping pair leaves it two units clear along the axis of smaller overlap, moves no pin, touches nothing but positions, and keeps the sum of positions of two free cards. |
| `Overlap.PushApart` | packages/layout/src/overlap.ts:65-78 | The in-place push moves exactly that pair. |
| `Overlap.OverlapMeaning` | packages/layout/src/overlap.ts:23-27 | Two cards overlap if and only if neither is clear of the other on one of its four sides. |
| `Overlap.PushKeepsSides` | packages/layout/src/overlap.ts:65-78 | A push keeps the two cards on their sides of each other along its axis; on a tie the first goes left or up. |
| `Overlap.OverlapIsNear` | packages/layout/src/overlap.ts:23-27 | Two overlapping cards lie in the same or neighbouring grid cells when the cell is as large as the largest card plus clearance. |
| `Overlap.NineCellsSuffice` | packages/layout/src/overlap.ts:55-62 | A card that overlaps no later card filed in the nine cells around it overlaps no later card at all. |
| `Overlap.CellSize` | packages/layout/src/overlap.ts:35-37 | The computed cell is the one the grid argument needs. |
| `Overlap.FillBuckets` | packages/layout/src/overlap.ts:41-50 | Every card is filed under its cell, in order. |
| `Overlap.PassOver` | packages/layout/src/overlap.ts:52-82 | One in-place pass is the pass about which `PassCounts` speaks: pairs in the order of the code, each pushed at once. |
| `Overlap.PassCounts` | packages/layout/src/overlap.ts:40-83 | A pass counts nothing if and only if no two cards overlap, and then moves nothing; any pass keeps pins and, without pins, the sums of all x and of all y. |
| `Overlap.Separate` | packages/layout/src/overlap.ts:33-86 | The in-place loop of at most 64 passes returns the separated arrangement and the count of its last pass. |
| `Overlap.SeparatedIsLegal` | packages/layout/src/overlap.ts:29-86 | If the result is 0 then no two cards overlap at all; pins never move; without pins the sums of x and of y are conserved; a legal arrangement is returned unchanged. |
| `Overlap.CountOverlaps` | packages/layout/src/overlap.ts:89-101 | The nested loop counts exactly the overlapping pairs. |
| `Overlap.LegalMeansNoPairs` | packages/layout/src/overlap.ts:89-101 | The grid verdict and the all-pairs count agree: legal if and only if the count is 0. |
| `Overlap.OverlappingPinsStay` | packages/layout/src/overlap.ts:70-71 | Two overlapping pins can never be separated by moves that leave pins alone. |
| `Overlap.TwoCardsSeparate` | packages/layout/src/overlap.ts:33-86 | Two cards end with a result of 0, and apart, if and only if they are not two overlapping pins. |
| `RunLayout.SnapOnGrid` | packages/layout/src/spacing.ts:21-23 | Snapping is idempotent and moves a coordinate by at most half a cell. |
| `RunLayout.SnapShifted` | packages/layout/src/runLayout.ts:138-146 | Shifting by whole cells commutes with snapping. |
| `RunLayout.RecentringKeeps` | packages/layout/src/runLayout.ts:138-152 | Re-centring on the grid preserves both the separation and the snapping. |
| `RunLayout.FinishedKeepsApart` | packages/layout/src/runLayout.ts:132-153 | Snapping costs at most one grid cell of clearance: after a successful separation the finished cards of a board of any size keep half the clearance between them. |
| `RunLayout.Complete` | packages/layout/src/runLayout.ts:89-103 | Nodes the algorithm did not place keep their geometry, appended in order. |
| `RunLayout.Centroid` | packages/layout/src/runLayout.ts:44-56 | The loop computes the averages of the card centres, the origin for none. |
| `RunLayout.RestorePins` | packages/layout/src/runLayout.ts:122-129 | Every pinned node goes back to its own position; other cards are untouched. |
| `RunLayout.SnapUnpinned` | packages/layout/src/runLayout.ts:132-136 | Exactly the unpinned cards are snapped. |
| `RunLayout.Prepare` | packages/layout/src/runLayout.ts:89-129 | The cards handed to the separation: completed, aligned on the pins when asked, pins restored. |
| `RunLayout.Finish` | packages/layout/src/runLayout.ts:132-152 | After separation: snapped, then re-centred by whole cells when nothing is pinned. |
| `RunLayout.RunLayout` | packages/layout/src/runLayout.ts:73-183 | The proposed positions are the arranged ones; the reported overlap count is the true number of overlapping pairs on boards of up to 512 cards whose separation succeeded, the remainder of the separation otherwise; after a successful separation no two cards come closer than the clearance less one grid cell. |
| `RunLayout.PinsStay` | packages/layout/src/runLayout.ts:122-131 | Wherever the algorithm puts the nodes, a pinned node ends exactly where it was and no node of the board is lost. |
| `LayoutAnchors.AnchoredAnywhere` | packages/layout/src/runLayout.ts:105-120 | With a pinned node and every node placed, moving all placements by any amount changes neither what is separated nor what is proposed. |
| `LayoutAnchors.MovedAsAWhole` | packages/layout/src/runLayout.ts:105-129 | If the algorithm only moves a board with pins as a whole, what goes into the separation is the board as it was; a board whose cards are apart and on the grid is proposed unchanged. |
| `LayoutAnchors.FreeCardsFollowPins` | packages/layout/src/runLayout.ts:109-119 | Every free card moves by the one amount that brings the centre of the pinned cards, as placed, back to the centre they have on the board. |
| `LayoutAnchors.FreeCardsStay` | packages/layout/src/runLayout.ts:109 | Without `preserveCentroid` every free card goes into the separation where the algorithm put it. |
| `LayoutAnchors.CompletedMeaning` | packages/layout/src/runLayout.ts:89-103 | The placements are kept, and behind them stand exactly the nodes that have none, as they are on the board. |
| `LayoutAnchors.FreeCardsOnGrid` | packages/layout/src/runLayout.ts:132-152 | Both coordinates of every unpinned card of a proposal are multiples of eight. |
| `LayoutAnchors.CentreIsKept` | packages/layout/src/runLayout.ts:138-152 | Without pins the proposal has the centre of the board to within half a grid cell on each axis. |
| `LayoutAnchors.ProposalIsClear` | packages/layout/src/runLayout.ts:131-152 | Where the separation at sixteen units ends with 0, the proposed cards are eight units apart. |
| `LayoutAnchors.DiffMeaning` | packages/layout/src/runLayout.ts:188-207 | A move is in the diff if and only if a position gives an unpinned node of the board another place; it names where the node is and where it goes. |
| `LayoutRerun.AcceptedDiff` | packages/layout/src/runLayout.ts:188-207 | Accepting the proposed moves puts one node exactly where the result has it, or leaves it if it is pinned or not in the result. |
| `LayoutRerun.Accepted` | packages/layout/src/runLayout.ts:184-207 | Accepting the whole diff turns the board into the result on every unpinned node and changes nothing else. |
| `LayoutRerun.SumPermuted` | packages/layout/src/runLayout.ts:44-56 | The centroid of uniquely named cards does not depend on their order. |
| `LayoutRerun.RecentredAgain` | packages/layout/src/runLayout.ts:138-152 | A board that already has the centre of the re-centred arrangement is re-centred to the same place. |
| `LayoutRerun.RerunChangesNothing` | packages/layout/src/runLayout.ts:105-152 | With no pinned node and an algorithm that places every node once at its own size without reading positions, the second run gives the same positions and an empty diff. |
| `Projection.ProjectRuntimeMs` | packages/query-engine/src/prioritise.ts:90-105 | The bucket loop computes, over depths in order of first appearance, batches times slowest step. |
| `Projection.ProjectionAnyOrder` | packages/query-engine/src/prioritise.ts:89-105 | The projection does not depend on the order of the steps. |
| `Projection.SlowestIsMax` | packages/query-engine/src/prioritise.ts:101 | The slowest of a non-empty bucket is one of its runtimes and no smaller than any. |
| `Projection.BatchesAreLeast` | packages/query-engine/src/prioritise.ts:100 | The number of batches of a group is the least that has room for it. |
| `Projection.OneDepth` | packages/query-engine/src/prioritise.ts:90-105 | Steps of a single depth take as many times the slowest as they need batches of `max(1, maxParallel)`. |
| `Projection.DepthsAddUp` | packages/query-engine/src/prioritise.ts:99-104 | The projection of steps that share no depth is the sum of their projections. |
| `Projection.PartTakesNoLonger` | packages/query-engine/src/prioritise.ts:90-105 | With no negative runtime, a part of a plan never takes longer than the plan. |
| `Prioritise.VisitParents` | packages/query-engine/src/prioritise.ts:113-119 | The recursion over the shared growing set terminates on any plan, cyclic ones included, and collects the in-plan ancestors in visiting order. |
| `Prioritise.CollectCovers` | packages/query-engine/src/prioritise.ts:108-124 | Everything collected has its in-plan parents collected: the ancestor set is closed. |
| `Prioritise.CollectWithin` | packages/query-engine/src/prioritise.ts:108-124 | The search never leaves a closed set that contains its start. |
| `Prioritise.CollectRestricted` | packages/query-engine/src/prioritise.ts:108-124 | Restricting the plan to a closed set changes no ancestor list inside it. |
| `Prioritise.NotOwnAncestor` | packages/query-engine/src/prioritise.ts:107-124 | On an acyclic plan no step is among its own ancestors. |
| `Prioritise.BundleKeeps` | packages/query-engine/src/prioritise.ts:172-174 | Admitting a step with its missing ancestors keeps the kept set closed and duplicate-free. |
| `Prioritise.ConsiderKeeps` | packages/query-engine/src/prioritise.ts:162-195 | Each turn decides about its step for good, keeps kept and dropped disjoint and both ceilings unbroken. |
| `Prioritise.PricedOrdered` | packages/query-engine/src/prioritise.ts:152-154 | The priced steps are in falling order of score with ties by id. |
| `Prioritise.FilterPriced` | packages/query-engine/src/prioritise.ts:152-154 | Leaving steps out before or after sorting gives the same list. |
| `Selection.Admit` | packages/query-engine/src/prioritise.ts:175-194 | A bundle is kept as a whole, and nothing dropped, if and only if it meets no dropped step and together with what is kept stays within `maxSteps` and `maxRuntimeMs`; else the step is dropped, for the first of the three reasons that applies, and nothing kept changes. |
| `Selection.ConsiderStep` | packages/query-engine/src/prioritise.ts:162-195 | One turn of the loop: a kept step is passed over, a step below the floor dropped, any other judged with its bundle. |
| `Selection.ChooseSteps` | packages/query-engine/src/prioritise.ts:156-195 | The loop over the priced steps makes the choice about which the following results speak. |
| `Selection.SelectSteps` | packages/query-engine/src/prioritise.ts:145-228 | The returned steps are the kept ones in plan order, with the drops in order and the projection of the result. |
| `Selection.SelectionIsSound` | packages/query-engine/src/prioritise.ts:140-228 | For unique ids and acyclic dependencies: kept and dropped split the plan, kept is closed under in-plan ancestors, at most `maxSteps` are kept and their projected runtime is at most `maxRuntimeMs`. |
| `Selection.Follows` | packages/query-engine/src/prioritise.ts:162-195 | Running the loop on the kept steps alone makes, step by step, the same admissions. |
| `Selection.RerunDropsNothing` | packages/query-engine/src/prioritise.ts:145-228 | Selecting again from the selected plan with the same options drops nothing and returns the same plan. |
| `SelectionReasons.WhatFitsIsKept` | packages/query-engine/src/prioritise.ts:145-228 | With unique ids, acyclic dependencies and no negative runtime: if every score reaches `minScore`, the plan has at most `maxSteps` steps and is projected to take at most `maxRuntimeMs`, nothing is dropped and the selection is the plan. |
| `SelectionReasons.DropsAreJustified` | packages/query-engine/src/prioritise.ts:156-196 | Every drop is made for a reason that is true when the step has its turn: it is below the floor, or it and its in-plan ancestors not kept yet meet a dropped step, or would exceed `maxSteps`, or would take too long, in this order. By then every step of higher rank has been decided about, only such steps have been dropped, and every kept step is one of them above the floor or an ancestor of one. |
| `SelectionReasons.SelectedAreWanted` | packages/query-engine/src/prioritise.ts:156-196 | Every selected step reaches the floor or is an in-plan ancestor of a selected step that does. |
| `SelectionReasons.AncestorsMeaning` | packages/query-engine/src/prioritise.ts:107-124 | The search finds exactly the steps of the plan to which a chain of dependencies leads. |
| `Builder.CollectParents` | packages/query-engine/src/builder.ts:126-140 | Each parent list holds the sources of the arrows into the node, once each and in order; an issue is raised for exactly the dangling and self-looping arrows. |
| `Builder.DrawnAcyclic` | packages/query-engine/src/builder.ts:129-140 | Without dangling arrows the drawing is acyclic if and only if no arrow loops and the parent lists are acyclic. |
| `Builder.PlaceInRounds` | packages/query-engine/src/builder.ts:142-157 | The rounds place nodes in topological order, and what is left over is exactly the nodes that lead back to a cycle. |
| `Builder.LeftOverIffCyclic` | packages/query-engine/src/builder.ts:142-160 | When no node is ready, a node is left over if and only if following its parents can end up on a cycle. |
| `Builder.StuckIffCyclic` | packages/query-engine/src/builder.ts:142-160 | Nothing is left over if and only if the parent lists are acyclic. |
| `Builder.BlamedThoughNotOnCycle` | packages/query-engine/src/builder.ts:158-160 | A concrete drawing in which a node is reported to have a cycle through it although none passes through it: it only stands behind one. |
| `Builder.SaveAll` | packages/query-engine/src/builder.ts:163-178 | Every placed node is saved as drawn, with its own parent list. |
| `Builder.GraphToWorkflow` | packages/query-engine/src/builder.ts:124-180 | A drawing with unique ids is accepted if and only if no arrow dangles and the arrows, self-loops included, form no cycle; the workflow is then a topological permutation of the drawn nodes with exactly the drawn parents, and otherwise the issues are exactly the bad arrows and the nodes on or behind a cycle. |
| `LayoutWorkflow.RankNodes` | packages/query-engine/src/builder.ts:80-84 | In a well-ordered workflow the single pass gives every node the length of the longest path to it. |
| `LayoutWorkflow.PlaceNodes` | packages/query-engine/src/builder.ts:86-100 | Each node takes the column of its rank and the next free row of that column. |
| `LayoutWorkflow.DrawArrows` | packages/query-engine/src/builder.ts:102-104 | The arrows join exactly the nodes of which one lists the other, one arrow for each entry of each list. |
| `LayoutWorkflow.LayoutWorkflow` | packages/query-engine/src/builder.ts:79-107 | The drawing has the nodes of the workflow, placed as above, and its arrows. |
| `LayoutWorkflow.NoSharedSlot` | packages/query-engine/src/builder.ts:86-100 | No two nodes share a slot, whatever the workflow. |
| `LayoutWorkflow.ColumnsAreLongestPaths` | packages/query-engine/src/builder.ts:74-84 | In a well-ordered workflow the column of a node is its longest-path length. |
| `LayoutWorkflow.ArrowsGoRight` | packages/query-engine/src/builder.ts:75-77 | In a well-ordered workflow every arrow goes strictly right. |
| `LayoutWorkflow.RoundTrip` | packages/query-engine/src/builder.ts:79-180 | Drawing a well-ordered workflow with duplicate-free lists and saving the drawing gives back the same nodes and the same `after` lists, up to order and filled-in labels; the drawing is accepted. |
| `WorkflowMeaning.DrawnAsSaved` | packages/query-engine/src/builder.ts:86-100 | A drawn node has the stage, transform and kind of the saved one, is called by its label, else its transform, else its stage, and stands 96 units lower for each node drawn before it in its column. |
| `Workflow.CheckParents` | packages/query-engine/src/workflow.ts:125-142 | The issues about one node's parents, in order. |
| `Workflow.CheckNode` | packages/query-engine/src/workflow.ts:96-143 | With unique ids, one node gets no issue if and only if nothing is wrong with it: its transform and kind belong, and its parents are declared no later and of no later stage. |
| `Workflow.ValidateWorkflow` | packages/query-engine/src/workflow.ts:78-146 | All issues in the order the code pushes them; there are none if and only if the workflow can run. |
| `Workflow.SilentIffRunnable` | packages/query-engine/src/workflow.ts:77-146 | Validation is silent if and only if the workflow has one input, at least one transform, unique ids, known transforms and kinds where they belong, and every parent declared no later and of no later stage. |
| `WorkflowMeaning.IssueIffDeserved` | packages/query-engine/src/workflow.ts:78-146 | Every single issue is reported if and only if what it says is true, of the workflow or of one of its nodes, for each of the thirteen kinds. |
| `Workflow.OrderedHasNoOrderIssue` | packages/query-engine/src/workflow.ts:97-133 | A workflow built from a drawing never gets a duplicate-id or a forward-reference issue. |
| `Workflow.SelfListingPasses` | packages/query-engine/src/workflow.ts:97-133 | A workflow whose only transform lists itself among its parents passes validation. |
| `Compile.CompileNodes` | packages/query-engine/src/workflow.ts:192-238 | The steps are compiled in declaration order from the nodes that run; exactly the transforms that cannot run are excluded. |
| `Compile.CompileWorkflow` | packages/query-engine/src/workflow.ts:162-260 | Issues and no plan, or the compiled steps and exclusions. |
| `WorkflowMeaning.StepsAreNodes` | packages/query-engine/src/workflow.ts:192-238 | The plan has one step for each transform node an engine can run, in declaration order, for its transform and with the runtime and result limit of that transform. |
| `Compile.AboveIsNamed` | packages/query-engine/src/workflow.ts:178-190 | When stages never fall, the search through non-transform nodes meets no transform: it returns the transforms of the listed nodes. |
| `Compile.AncestorsAreNamed` | packages/query-engine/src/workflow.ts:178-190 | In a valid workflow the nearest transform ancestors of a transform node are exactly the transforms with an arrow into it. |
| `Compile.DependsOnFeeder` | packages/query-engine/src/workflow.ts:220-222 | A compiled step depends only on compiled transforms declared earlier with an arrow into its node. |
| `Compile.FeederIsDependency` | packages/query-engine/src/workflow.ts:220-222 | It depends on every one of those. |
| `DrawingToRun.DepthIsLocal` | packages/query-engine/src/workflow.ts:223-225 | A compiled depth is at least 1, greater than the depth of every dependency, and one more than some dependency when above 1. |
| `DrawingToRun.DepthIsLayering` | packages/query-engine/src/workflow.ts:223-225 | Depth minus one is the longest-path layering of the compiled dependencies. |
| `DrawingToRun.CompiledPlanIsClean` | packages/query-engine/src/schedule.ts:73-143 | A valid workflow that uses each transform once compiles into steps from which `buildDag` makes a DAG without any warning, with the same edges, and with each depth one more than the rank. |
| `DrawingToRun.FeedersSettleFirst` | packages/query-engine/src/schedule.ts:166-195 | In every run of the scheduler a compiled transform is handed out only after every compiled transform with an arrow into its node has settled. |
| `DrawingToRun.ArrowsRunInOrder` | packages/query-engine/src/builder.ts:119-180 | From the drawn arrow to execution: if the drawing is accepted, validation is silent and each transform is used once, no run starts a drawn transform before every transform drawn with an arrow into it has settled. |
| `DrawnPaths.InOrderIffPathRuns` | packages/query-engine/src/workflow.ts:178-222 | One drawn transform settles before another starts, in every run, if and only if a drawn path leads from the first to the second over transforms that are all compiled. |
| `DrawnPaths.ExcludedBreaksOrder` | packages/query-engine/src/workflow.ts:220-222 | Along a to b to c with no engine for b, some run starts c before a has settled, although the workflow is valid. |
| `JsonText.ReadsBack` | packages/integrations/src/consent.ts:207 | Reading a printed string literal, with the escapes of section 7 of RFC 8259, gives the string back and stops at its closing quote. |
| `JsonText.QuotedUnique` | packages/integrations/src/consent.ts:207 | Two string literals followed by anything agree only if the strings and what follows agree. |
| `JsonText.NumberUnique` | packages/integrations/src/consent.ts:207 | An integer print followed by a delimiter can be read in one way only. |
| `JsonText.PlainStringPrintsItself` | packages/integrations/src/consent.ts:207 | A string without quotes, backslashes, control units and surrogates stands for itself between quotes. |
| `JsonText.LessMeaning` | packages/integrations/src/consent.ts:209-211 | One key comes before another if and only if it is a proper prefix of it or smaller at the first unit where they differ. |
| `CanonicalJson.JoinUnique` | packages/integrations/src/consent.ts:212 | A printed list of entries can be read in one way only. |
| `CanonicalJson.OrderedUnique` | packages/integrations/src/consent.ts:209-211 | Two key-ordered entry lists with the same entries are equal: the sort removes every trace of insertion order. |
| `CanonicalForm.PrintUnique` | packages/integrations/src/consent.ts:206-213 | Two prints followed by delimiters agree only if they are the same print. |
| `JsonReader.PrintReadsBack` | packages/integrations/src/consent.ts:206-213 | The print is a JSON text of the value: a reader of RFC 8259 texts without white space gets back, whatever follows the print, the value up to the order of keys, with keys ascending and nothing undefined. |
| `CanonicalForm.EqualPrintsAreSame` | packages/integrations/src/consent.ts:206-213 | Equal prints come from values equal up to key order. |
| `CanonicalForm.SamePrintEqual` | packages/integrations/src/consent.ts:206-213 | Values equal up to key order print alike. |
| `CanonicalForm.CanonicalIffSame` | packages/integrations/src/consent.ts:206-213 | The print is a canonical form: two plain values print alike if and only if they are equal up to object key order (undefined counting as absent in an object and as null elsewhere). |
| `CanonicalForm.PrintOneLine` | packages/integrations/src/consent.ts:203-213 | The print never contains a line break, so the newline after the integration id is the last one of the hashed text. |
| `CanonicalForm.SameHashSameInput` | packages/integrations/src/consent.ts:201-204 | With a collision-free hash, two runs share the dedupe key if and only if they are the same integration with the same input up to key order. |
| `Proposal.MapNodes` | packages/integrations/src/pipeline.ts:732-759 | One proposed node per unresolved identity, at its first entity, with its slot on the rings. |
| `Proposal.MappedNodesMeaning` | packages/integrations/src/pipeline.ts:737-754 | Exactly the identities that resolve to nothing become nodes, each under its own temporary id. |
| `Proposal.MappedOnce` | packages/integrations/src/pipeline.ts:739 | No identity becomes two nodes. |
| `Proposal.MapEdges` | packages/integrations/src/pipeline.ts:761-795 | The loop gives the edges about which `ProposalMeaning.EdgesAreRelations` speaks: one for each relation both ends of which are known, in order. |
| `Proposal.MappedEdgesMeaning` | packages/integrations/src/pipeline.ts:785-795 | An edge refers to a proposed node of that identity if there is one, else to the node the identity resolves to. |
| `ProposalMeaning.EdgesAreRelations` | packages/integrations/src/pipeline.ts:761-795 | The edges of a proposal are, in order and one each, those of the relations both ends of which resolve to a board node or are the identity of an entity, between the board nodes or the temporary ids of these ends, with the kind and provenance of the relation. |
| `ProposalMeaning.EdgeProposedIff` | packages/integrations/src/pipeline.ts:761-795 | An edge under the identity of two ends and a kind is proposed if and only if some relation has them and both ends are known. |
| `ProposalMeaning.NodeComesFrom` | packages/integrations/src/pipeline.ts:732-759 | The k-th proposed node has the type, title, fields and provenance of the first entity of its identity and stands at place k mod 12 of ring 1 + k / 12. |
| `ProposalMeaning.NodesInOrder` | packages/integrations/src/pipeline.ts:736-756 | The proposed nodes come in the order in which their identities first appear. |
| `ProposalMeaning.NodeSelectedIff` | packages/integrations/src/pipeline.ts:820-829 | The node items are those of the proposed nodes, selected by default if and only if the confidence is at least 0.6. |
| `ProposalMeaning.EdgeSelectedIff` | packages/integrations/src/pipeline.ts:831-848 | An edge item is selected by default if and only if each of its ends is on the board or a node item selected by default. |
| `ProposalMeaning.FieldOutcome` | packages/integrations/src/resolve/merge.ts:122-134 | For every field of an entity that is on the board: a field that is empty there is set to the value, one that collects and differs has it added, in an enrichment of that node with the provenance of the entity; any other that differs becomes a conflict, which by default keeps a value set by hand and yields otherwise to a confidence higher by 0.2. |
| `ProposalMeaning.EnrichmentsAreDue` | packages/integrations/src/pipeline.ts:852-912 | Nothing else is proposed for nodes on the board: every patch and every conflict comes from a field of an entity that calls for it. |
| `Proposal.EnrichExisting` | packages/integrations/src/pipeline.ts:852-912 | The conflicts of one entity, then its patches if there are any. |
| `Proposal.BuildProposal` | packages/integrations/src/pipeline.ts:816-933 | Nodes, then edges, then enrichments; an edge is selected by default exactly when both ends are on the board or selected. |
| `Proposal.Propose` | packages/integrations/src/pipeline.ts:732-933 | The default mappers followed by the builder give the items about which the results of `ProposalMeaning` and `ImportRun` speak. |
| `Proposal.PatchesFillGaps` | packages/integrations/src/resolve/merge.ts:122-134 | A patch touches only a field that is empty on the board or collects values. |
| `Apply.CreateNodes` | packages/integrations/src/apply.ts:185-228 | Every item becomes one node: the fresh ids are given out in order and recorded under the temporary ids, each new node holds its item's content, and nothing else is added. |
| `Apply.CreateEdges` | packages/integrations/src/apply.ts:230-256 | Of the edges not applied before, exactly those with an unknown end are reported as missing, in order; every other one becomes an edge between the two nodes it refers to. |
| `Apply.EnrichNodes` | packages/integrations/src/apply.ts:258-271 | Exactly the enrichments of nodes that are gone are reported; every other one patches its node, and no field changes but those it names and the provenance. |
| `Apply.SettleConflicts` | packages/integrations/src/apply.ts:273-296 | Exactly the conflicts about missing nodes and those settled in favour of the board are reported, for that reason; any other leaves the incoming value in its field unless a later one is about that field, and touches no other but the provenance. |
| `Apply.ApplyProposal` | packages/integrations/src/apply.ts:142-328 | A proposal is refused if and only if it has expired or a selected new node does not name its source; else every selected new node is created and the board keeps all its nodes and edges. |
| `ApplyMeaning.NodesAreCreated` | packages/integrations/src/apply.ts:168-228 | With fresh ids: exactly the selected new nodes not applied before are created, in order, and the k-th is on the board with the type, title, provenance, place, identity and the fields its item proposes. |
| `ApplyMeaning.TempIdsLead` | packages/integrations/src/apply.ts:187-188 | The temporary id of a created node leads to the board id it was given. |
| `ApplyMeaning.EdgesAreCreated` | packages/integrations/src/apply.ts:230-256 | With fresh ids: exactly the selected new edges not applied before whose ends lead to a board node or a temporary id in use are on the board afterwards, between those ends with their kind and provenance; every other one is reported as missing a target. |
| `ApplyMeaning.PatchMeaning` | packages/integrations/src/apply.ts:115-133 | A set replaces the value of its field; an append puts the value behind what the field collects; an add to a set does so unless it is there already; other fields are untouched. |
| `ApplyMeaning.FieldsFollowPatches` | packages/integrations/src/apply.ts:258-314 | After an application every field of every node that was on the board, the list of provenances apart, is what the patches of its selected enrichments and then those its conflicts come to make of it, in order. |
| `ApplyMeaning.EveryPatchIsSourced` | packages/integrations/src/apply.ts:258-314 | A node of the board is patched if and only if a selected item had a say about it, and its list of provenances grows by those items' provenances in order, under the cap. |
| `Apply.RunOfAppends` | packages/integrations/src/apply.ts:100-113 | After any number of appends the list holds the last fifty entries in order, behind a marker that says one after the fifty-first append and two after every later one. |
| `Apply.MarkerIsTrueIff` | packages/integrations/src/apply.ts:107-111 | The marker tells how many entries were collapsed if and only if there were at most fifty-two appends. |
| `Apply.MarkerForgets` | packages/integrations/src/apply.ts:107-111 | After fifty-three appends three entries are gone and the marker says two. |
| `ImportRun.DefaultSelectionApplies` | packages/integrations/src/apply.ts:142-328 | The default selection of an unexpired default proposal, on a board holding every resolved node, is applied with nothing skipped; every created edge joins two nodes of the board and every selected node and edge is recorded. |
| `ImportRun.NoConflictWork` | packages/integrations/src/pipeline.ts:877 | No conflict is selected by default. |
| `ImportRun.AppliedCreatesNothing` | packages/integrations/src/apply.ts:159-165 | If every selected node and edge has been applied before, no node and no edge is created and the board keeps its nodes and edges. |
| `ImportRun.ReapplyCreatesNothing` | packages/integrations/src/apply.ts:142-165 | Applying the default selection a second time with the first temporary-id map, even to a board changed in between, creates no node and no edge. |
| `ImportRun.ImportsNeverMove` | packages/integrations/src/apply.ts:198-204 | Whatever is selected, an application with fresh ids neither removes nor moves an existing node and touches nothing but the data of the patched ones. |
| `ImportRun.DefaultKeepsValues` | packages/integrations/src/resolve/merge.ts:121-134 | The default selection overwrites no field that holds something and is not a collecting field. |
| `Agent.AgentMemory.constructor` | packages/query-engine/src/agent.ts:95-106 | The memory starts with the given entities and runs. |
| `Agent.AgentMemory.Learn` | packages/query-engine/src/agent.ts:110-112 | Exactly the found entities are added. |
| `Agent.AgentMemory.RecordRuns` | packages/query-engine/src/agent.ts:113-115 | Exactly the (transform, entity key) pairs of the tasks are added. |
| `Agent.SortStep` | packages/query-engine/src/agent.ts:358-387 | A candidate step is skipped as declined, already run or over the job limit, held for approval, or taken, for exactly the first reason that applies. |
| `Agent.TakeKeeps` | packages/query-engine/src/agent.ts:351-356 | Taking a permitted step within the limit keeps every chosen step permitted and the job count exact. |
| `Agent.Draft` | packages/query-engine/src/agent.ts:358-387 | Every candidate step of every frontier entity has been sorted. |
| `Agent.HonourAll` | packages/query-engine/src/agent.ts:389-407 | Every granted request is taken or, when the job limit is reached, reported; ungranted ones change nothing. |
| `Agent.StepAccounted` | packages/query-engine/src/agent.ts:346-407 | Every offered step ends up in the right list: run, awaiting approval, or skipped for a reason that is true. |
| `Agent.PlanRound` | packages/query-engine/src/agent.ts:338-437 | A round's tasks hold only steps that were offered for their entity, picked, never run against it and approved if they had to be, within the job limit; no offered step is forgotten, no step is skipped for a reason that is not true of it, and only steps that must be approved wait. |
| `AgentSession.FrontierIsBest` | packages/query-engine/src/agent.ts:257-266 | For any limit, negative ones dropping from the end: the next frontier holds as many entities as the limit allows, no seed, and no entity left out is more confident than one taken. |
| `AgentSession.Execute` | packages/query-engine/src/agent.ts:456-469 | Runs are recorded before the engines answer; newness is counted against the memory before it learns. |
| `AgentSession.RunRound` | packages/query-engine/src/agent.ts:323-481 | One round observes the frontier it was given, runs a permitted plan and leaves the memory exactly as the rounds so far make it. |
| `AgentSession.RunAgent` | packages/query-engine/src/agent.ts:294-487 | For every brain, approver, clock and engine: at most `maxDepth` rounds, the rounds' jobs sum to the session's and never exceed `maxJobs`, the memory holds exactly the runs made, and the session ends when, and for the reason for which, the questions of the loop are first answered so. |
| `AgentSession.RunsArePermitted` | packages/query-engine/src/agent.ts:338-437 | Every step any round runs was offered for that entity, picked by the brain, granted if it needs approval, and had not run against it before. |
| `AgentSession.NoRunTwice` | packages/query-engine/src/agent.ts:367-370 | No (transform, entity key) pair runs in two different rounds, nor if the memory knew it at the start. |
| `AgentMeaning.EveryOfferIsAnswered` | packages/query-engine/src/agent.ts:338-407 | Every step offered for an entity a round observes is declined by the brain, known to have run, left because the job limit is reached, awaits the analyst because it must be approved and was not, or runs. |
| `AgentMeaning.SkipsAreTrue` | packages/query-engine/src/agent.ts:358-402 | Every reported skip is of an offered step, and its reason is true of it: not picked, run before, or no job left. |
| `AgentMeaning.AwaitingMustWait` | packages/query-engine/src/agent.ts:389-393 | Whatever awaits approval was offered, picked, had not run, has a step that exceeds the node threshold or spends a credential, and was not granted. |
| `AgentMeaning.RunsAreApproved` | packages/query-engine/src/agent.ts:338-437 | Whatever runs was offered and picked, had run neither before the session nor in an earlier round, and was granted if it exceeds the node threshold or spends a credential. |
| `AgentMeaning.RoundsLookAtTheNew` | packages/query-engine/src/agent.ts:257-266 | The first round observes the seed; each later one observes entities the round before found that no earlier round and not the memory knew, no seeds, as many as the limit allows and none less confident than one left out. |
| `AgentMeaning.EqualsKeepOrder` | packages/query-engine/src/agent.ts:262-265 | Entities of equal confidence are taken in the order in which they were found. |
| `AgentMeaning.AddedAreNew` | packages/query-engine/src/agent.ts:465-480 | A round that ran something reports how many entities it found and how many of them were new. |
| `AgentMeaning.GoesOnWithin` | packages/query-engine/src/agent.ts:317-321 | Before every round something was left to observe and depth, jobs and time were within their limits, and the round before had run something and brought at least `minNewEntities`. |
| `AgentMeaning.EndsForItsReason` | packages/query-engine/src/agent.ts:317-321 | The reported reason of the end is true, and none that is asked earlier holds. |
| `Resources.ResourceManager.constructor` | packages/query-engine/src/resources.ts:93-99 | A new manager has granted nothing. |
| `Resources.ResourceManager.CountInFlight` | packages/query-engine/src/resources.ts:115 | The number in flight is the sum over the engines. |
| `Resources.ResourceManager.Acquire` | packages/query-engine/src/resources.ts:107-177 | The checks are made in the order of the code; the first that fails is the reason, and otherwise the request is charged and a lease handed out. |
| `Resources.ResourceManager.Release` | packages/query-engine/src/resources.ts:166-174 | The first release of a lease gives back its amounts and slot; any other call changes nothing. |
| `Resources.GrantedIffItFits` | packages/query-engine/src/resources.ts:117-149 | A request is granted if and only if it is short enough and everything fits after charging it; a refusal changes nothing. |
| `Resources.RequestIsDecided` | packages/query-engine/src/resources.ts:107-177 | Told by the leases still held: a request is granted the next lease, for what it asks or a quarter of a core, 128 MB, no disk and one process, if and only if it breaks none of the eight ceilings, and is else refused, with nothing changed, for the first it breaks. |
| `Resources.CeilingIsLimit` | packages/query-engine/src/resources.ts:126-135 | The number of leases an engine may hold is at least one, and beyond that neither more than three fifths of the slots nor than it allows itself. |
| `Resources.ReleaseMarks` | packages/query-engine/src/resources.ts:166-174 | Releasing a lease that is held marks that lease alone as given back; any other call changes nothing. |
| `Resources.AcquiredSound` | packages/query-engine/src/resources.ts:107-177 | An acquire with non-negative amounts keeps the books sound and never lowers the network count. |
| `Resources.ReleasedSound` | packages/query-engine/src/resources.ts:166-174 | A release keeps the books sound and the network count. |
| `Resources.RunIsSound` | packages/query-engine/src/resources.ts:90-192 | Over any sequence of acquires and releases, repeated ones included, every total is the sum over the leases still held and stays within budget, in flight stays within `concurrency`, and no engine exceeds `max(1, floor(0.6 * concurrency))`. |
| `Resources.NetworkNeverFalls` | packages/query-engine/src/resources.ts:155-174 | The spent network budget never comes back. |
| `Resources.AllReleasedIsIdle` | packages/query-engine/src/resources.ts:166-174 | Releasing every lease brings cpu, memory, disk, processes and every engine count back to zero. |
| `Corroborate.StrongestByProvider` | packages/query-engine/src/resolve.ts:77-81 | The loop keeps the strongest positive word of each provider, in order of first mention. |
| `Corroborate.Corroborated` | packages/query-engine/src/resolve.ts:76-84 | The reduction computes the confidence. |
| `Corroborate.BestIsMax` | packages/query-engine/src/resolve.ts:78-81 | What is kept for a provider is the largest of its confidences. |
| `Corroborate.OrderDoesNotMatter` | packages/query-engine/src/resolve.ts:76-84 | The confidence depends only on the set of sources. |
| `Corroborate.ConfidenceInRange` | packages/query-engine/src/resolve.ts:82-84 | For confidences in [0, 1] it stays in [0, 0.99]. |
| `Corroborate.MoreSourcesNoWeaker` | packages/query-engine/src/resolve.ts:73-84 | Adding a source never lowers it. |
| `Corroborate.LongerNoWeaker` | packages/query-engine/src/resolve.ts:73-84 | Adding any number of sources never lowers it. |
| `Corroborate.WeakerRepeatIgnored` | packages/query-engine/src/resolve.ts:74-75 | A repeat by a provider no stronger than its best changes nothing. |
| `Corroborate.NoisyOr` | packages/query-engine/src/resolve.ts:73-84 | For sources of different providers the confidence is one minus the product of their doubts, rounded to four digits and capped at 0.99. |
| `Corroborate.OneOrTwo` | packages/query-engine/src/resolve.ts:73-84 | One source of confidence v is worth v, two providers are worth v + w - v w, rounded and capped. |
| `Corroborate.RoundsToTenThousandths` | packages/query-engine/src/resolve.ts:83 | Rounding gives a whole number of ten-thousandths, at most half of one away, halves upwards. |
| `Resolve.GraphBuilder.constructor` | packages/query-engine/src/resolve.ts:133-139 | A new builder holds nothing. |
| `Resolve.GraphBuilder.Upsert` | packages/query-engine/src/resolve.ts:144-176 | An observation is added to the entity of its identity, or a new entity is created; `created` says which. |
| `Resolve.GraphBuilder.Link` | packages/query-engine/src/resolve.ts:178-195 | A source is added to the relation of these ends and kind, or the relation is created. |
| `Resolve.GraphBuilder.Seed` | packages/query-engine/src/resolve.ts:198 | Seeding is an observation marked as the seed. |
| `Resolve.GraphBuilder.Absorb` | packages/query-engine/src/resolve.ts:200-246 | A result is folded in: its entities in order, then its relationships; the returned ids are exactly the new entities in arrival order. |
| `Resolve.GraphBuilder.LinkAll` | packages/query-engine/src/resolve.ts:238-244 | Relationships with an unknown end or two equal ends are dropped, the others linked. |
| `Resolve.UpsertKeeps` | packages/query-engine/src/resolve.ts:144-175 | An observation is recorded under the identity of its value or the next number; it adds one source to that entity, gives it a caption only if it has none and only the props it lacks, and touches no other entity or relation; a new entity has the kind, canonical value, caption, props and seed mark of the observation. |
| `Resolve.NoIdentityIsNew` | packages/query-engine/src/resolve.ts:141-142 | A value without an identity key always becomes an entity of its own. |
| `Resolve.LinkKeeps` | packages/query-engine/src/resolve.ts:178-195 | Linking two different recorded entities keeps one relation per (from, kind, to) and adds one source to it. |
| `Resolve.AbsorbKeeps` | packages/query-engine/src/resolve.ts:200-246 | Absorbing keeps the findings sound and loses nothing; the new relations are those its table of keys gives, which `ResolveLinks` states by what the keys stand for. |
| `ResolveLinks.KeysStandFor` | packages/query-engine/src/resolve.ts:221-237 | After the entities of a result a key stands for the identity of the last entity that bears it, or for the number that entity is given if it has no identity; the input reference, unless an entity takes it, stands for the input entity; no other key stands for anything. |
| `ResolveLinks.DistinctKeysStand` | packages/query-engine/src/resolve.ts:221-237 | With distinct keys, none of them the input reference, every key stands for the entity of its bearer, the known one if that has an identity, and the input reference for the input. |
| `ResolveLinks.AbsorbRelates` | packages/query-engine/src/resolve.ts:239-244 | Every relation gains, in order, exactly the sources of the relationships whose ends stand for its two different ends and whose kind it has, and exists afterwards if and only if it did or there is such a relationship. |
| `ResolveLinks.AbsorbLinks` | packages/query-engine/src/resolve.ts:239-244 | A relationship whose ends stand for two different entities is recorded with its source. |
| `ResolveLinks.AbsorbLinksOnly` | packages/query-engine/src/resolve.ts:239-244 | No relation is new but those a relationship of the result states. |
| `ResolveLinks.AbsorbObserves` | packages/query-engine/src/resolve.ts:222-237 | Every entity gains, in order, exactly the sources of the proposals about it, and exists afterwards if and only if it did or there is such a proposal. |
| `ResolveLinks.AnonymousAreNew` | packages/query-engine/src/resolve.ts:141-142 | A proposal without an identity is about an entity that was not there and that no other proposal of the result is about. |
| `Resolve.RunIsSound` | packages/query-engine/src/resolve.ts:133-268 | Over any run of seeds and absorbs every relation joins two distinct recorded entities and is filed under its own ends and kind. |
| `Resolve.RunRemembers` | packages/query-engine/src/resolve.ts:153-165 | Over any run sources only grow and recorded captions and props are never overwritten. |
| `Resolve.ConfidenceNeverFalls` | packages/query-engine/src/resolve.ts:120-129 | As results arrive the confidence of an entity never falls. |
| `Pace.Pacer.constructor` | packages/query-engine/src/pace.ts:55-59 | A new pacer knows no provider. |
| `Pace.Pacer.TakeSlot` | packages/query-engine/src/pace.ts:76-98 | The verdict and the new clock of the provider; other providers are untouched. |
| `Pace.SlotsAreSpaced` | packages/query-engine/src/pace.ts:87-94 | Whatever the times of the calls, any two slots granted to a rate-limited provider are at least `60000 / perMinute` apart, and no slot lies in the past. |
| `Pace.StartsSpacedIffWithinPatience` | packages/query-engine/src/pace.ts:76-98 | The calls themselves start at least an interval apart if and only if every granted call finds the provider free within `maxWaitMs`, quotas or not. |
| `Pace.TwoCallsTooClose` | packages/query-engine/src/pace.ts:92-97 | With sixty calls a minute and half a second of patience, two calls made at once start half a second apart. |
| `Pace.QuotaHolds` | packages/query-engine/src/pace.ts:68-87 | `used` is the number of grants since the day window began, and never exceeds a non-negative quota. |
| `Pace.SlotIsEarliest` | packages/query-engine/src/pace.ts:92-94 | A granted call gets the moment it comes or exactly an interval after the slot of an earlier call. |
| `Pace.WaitIsClamped` | packages/query-engine/src/pace.ts:89-97 | The caller waits until its slot, at most `maxWaitMs`, and not at all without a limit per minute. |
| `Pace.RefusedIffSpent` | packages/query-engine/src/pace.ts:55-86 | A call is refused if and only if as many calls as the daily quota have been granted in the window it falls into. |
| `Eviction.RoomEvictionTracker.constructor` | apps/sync/src/eviction.ts:23-34 | A new tracker has no timers and no connections. |
| `Eviction.RoomEvictionTracker.CancelTimer` | apps/sync/src/eviction.ts:37-41 | Exactly the remembered timer of the room is cleared and forgotten. |
| `Eviction.RoomEvictionTracker.Connected` | apps/sync/src/eviction.ts:36-43 | A connect stops the clock of the room and counts one more connection. |
| `Eviction.RoomEvictionTracker.Disconnected` | apps/sync/src/eviction.ts:45-55 | A disconnect counts down, not below zero, and starts a timer at zero. |
| `Eviction.RoomEvictionTracker.Fired` | apps/sync/src/eviction.ts:50-53 | A timer that fires makes the tracker forget the room's timer. |
| `Eviction.ApplyKeeps` | apps/sync/src/eviction.ts:36-74 | Any event but a disconnect of a room that is already on the clock keeps live and remembered timers the same and rooms on the clock unconnected. |
| `Eviction.CountIsConnections` | apps/sync/src/eviction.ts:36-55 | The count of a room is its connects less its disconnects, never below zero. |
| `Eviction.OnTheClockIffWaiting` | apps/sync/src/eviction.ts:36-74 | A room is on the clock if and only if its last connection has left it and nobody has come, flushed it or let its timer fire since; in a guarded run exactly then a timer runs for it. |
| `Eviction.RunKeeps` | apps/sync/src/eviction.ts:17-75 | As long as no room on the clock is disconnected again, paired connects and disconnects among them, a room has at most one outstanding timer and none while someone is connected. |
| `Eviction.StrayDisconnect` | apps/sync/src/eviction.ts:45-55 | An event leaves a timer nobody can stop if and only if it disconnects an unconnected room that is already on the clock. |
| `Eviction.TimersKeptIff` | apps/sync/src/eviction.ts:36-74 | Over a run the remembered timers are the live ones at every moment if and only if no room on the clock was disconnected again. |
| `Eviction.TwoTimers` | apps/sync/src/eviction.ts:45-55 | One connect and two disconnects leave two timers for one room, one of them forgotten. |
| `Artifacts.StreamRingBuffer.constructor` | apps/runner/src/artifacts.ts:16-21 | A new buffer is empty. |
| `Artifacts.StreamRingBuffer.Push` | apps/runner/src/artifacts.ts:23-37 | A chunk goes to the head until the head holds half the cap, afterwards to the tail, whose oldest chunks are dropped and counted while it is over half the cap and has another chunk. |
| `Artifacts.RunHoldsEnds` | apps/runner/src/artifacts.ts:12-37 | After any stream, however it was trimmed on the way, the head is the shortest prefix of chunks of a MiB, the tail the longest suffix of the rest within a MiB (or the last chunk alone), and the elided count is the size of what lies between. |
| `Artifacts.BytesAddUp` | apps/runner/src/artifacts.ts:39-50 | Head, tail and elided bytes sum to the bytes pushed, and a buffer that is not truncated holds the whole stream. |
| `Artifacts.HeldIsBounded` | apps/runner/src/artifacts.ts:12-37 | What is held never exceeds half the cap by more than a chunk at either end. |
| `Artifacts.HeldBytes` | apps/runner/src/artifacts.ts:43-50 | The bytes held are a prefix and a suffix of the stream. |
| `Artifacts.FirstIsHeld` | apps/runner/src/artifacts.ts:12-28 | The first MiB of the stream is never lost. |
| `Artifacts.LastIsHeldIff` | apps/runner/src/artifacts.ts:12-37 | The last MiB is held if and only if what follows the head fits into one, ends in a chunk that long, or has a suffix of whole chunks of exactly that length. |
| `Artifacts.LastIsLost` | apps/runner/src/artifacts.ts:31-36 | A chunk of one MiB followed by two of six tenths each: the middle one is dropped, and part of the last MiB with it. |
| `Artifacts.CollectedFits` | apps/runner/src/artifacts.ts:85-106 | The kept artifact is a prefix within both caps, cut exactly when it does not fit and no further than the smaller cap. |

## Left out

- Overlap.SeparatedIsLegal: over real numbers, so floating-point rounding is not covered; a result other than 0 after 64 passes says nothing about the arrangement.
- RunLayout.SnapOnGrid: coordinates are real numbers, `Math.round` is rounding half up on them.
- LayoutRerun.RerunChangesNothing: the layout algorithm is any function that reads no positions and places every node once at its own size; none of the algorithms themselves is modelled.
- RunLayout.RunLayout: the counters and bounds among the statistics, the catalogue of algorithms, seeds and checkpoints are not modelled.
- Executor.RunKeeps: what a task does between its awaits is an arbitrary sequence of pushed events, cancellation and budget flags; announcing ranks, choosing inputs, caching and the summary are not modelled.
- StepLeases.NothingLeaksIff: a chain is its waiting points only; which engine is tried next and what it found is left open.
- Dag.BuildDag: a step carries its transform, dependencies, depth, runtime and result limit; warnings are values, not sentences.
- Selection.SelectSteps: the score is any function of a step and the order of ids any total order; providers, credentials, the entity estimate and the wording of notes are not modelled.
- Compile.CompileWorkflow: routing and cost ceilings are one decision per transform; estimates, providers, credentials and the reasons of exclusions are not modelled.
- Builder.GraphToWorkflow: the workflow's name, description and version and the ids of arrows are not modelled; ids are unique, as the map from ids to nodes takes for granted.
- CanonicalForm.CanonicalIffSame: integers smaller in size than 10^21, which are printed without an exponent; other numbers, dates and objects with `toJSON` are not modelled. Keys that look like array indices need no separate treatment, as all keys are sorted.
- CanonicalForm.SameHashSameInput: SHA-256 is any function without collisions.
- Apply.CreateEdges: what an edge refers to is stated for edges whose ends are node references, as the mappers make them.
- ApplyMeaning.EveryPatchIsSourced: for items that do not write the reserved list of provenances themselves.
- Apply.ApplyProposal: excerpts, tags, labels, timestamps, the undo entry and the item count in the label are not modelled; a free place is given for each new node; the list of patched nodes is a set.
- Proposal.Propose: temporary ids are structured values, so they never collide; explanations, previous values, the summary and the expiry date are not modelled.
- ImportRun.ReapplyCreatesNothing: speaks of nodes and edges only. Applying enrichments and conflicts again is not a no-op, because the temporary-id map does not record them.
- AgentSession.RunAgent: the planner's offer, the price of a step and the identity key are functions; the entities a session has collected, headlines and notes are not modelled. Within one round the same transform may run on two equal entities, so the result about repeated runs is about different rounds.
- Corroborate.OrderDoesNotMatter: `toFixed(4)` is rounding half up on real numbers; the product is exact.
- Resolve.GraphBuilder.Absorb: the texts and references of evidence are part of an opaque detail; relation ids are triples, not joined strings; `byKind` and the frozen copies, which share the builder's own lists, are not modelled.
- Resources.RunIsSound: amounts are real numbers; messages of refusals are not modelled.
- Pace.QuotaHolds: the time a call is made is given; sleeping is not modelled.
- Eviction.RunKeeps: snapshots are not modelled; a timer is a number.
- `packages/query-engine/src/executor.ts:379` and `:454`: the node ceiling does not bound the entities of a run, since parallel steps read the remainder when they start and cached results are not clipped; nothing is stated about it.
- Artifacts.StreamRingBuffer.Push: decoding to text, the elision marker, hashing and the upload of artifacts are not modelled.
- Persistence, the live-sync server, queues, HTTP, rendering and the finite tables of manifests, licences, presets and feature flags.
- Small single-branch policies (watching, budgets, health, cost, governance, deprecation, caching, run and site diffs), which would add only easy members.
