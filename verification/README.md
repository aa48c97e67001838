# Verified models of the orchestration core

This project models, in Dafny, the parts of the agent framework whose correctness
depends on order, interleaving or canonical form, and proves what they promise.

* **Workflow scheduler** (`Workflow*.dfy`). A graph runs as an asynchronous frontier:
  nodes finish in any order, static edges fire at once, AND-joins collect arrivals in a
  table that resets on each firing, routers choose, LLM edges pause. The model is a step
  machine (`WorkflowStep`) in which the environment chooses which task finishes, whether
  it succeeded, which finished task is reaped next, and what every router answers. A
  finished but unreaped task is still in flight, as in the driver. `WorkflowDriver` holds
  the imperative driver, proved to perform exactly such a run.
* **Node state merge** (`Channels.dfy`), the reducer merge of node updates, and the state
  a whole run leaves (`WorkflowState.dfy`).
* **Background task pool** (`TaskPool.dfy`), the tracking tables over every order of
  submissions, completions, cancellations, consumption and resumes.
* **Ownership** (`Services.dfy`, `EngineShutdown.dfy`), leases where the last one closes,
  and a shutdown that keeps exactly the owners whose cleanup failed.
* **Canonical forms and codecs** (`FileMutations.dfy`, `FileCodec.dfy`, `Base64.dfy`,
  `Json.dfy`, `TopologyCodec.dfy`, `Symbols.dfy`).
* **Message queue and receipts** (`MessageQueue.dfy`, `Receipts.dfy`).

A protocol is a `State`, an `Action`, a total `Step`, and `Legal`/`Exec` over a whole
sequence of actions, so "every run" is a quantifier over legal action sequences. Code that
updates an object in place is a class whose `View()` is that state; each method's contract
is `View() == Step(old(View()), ...)`, which carries the theorems over to the class. Some
state fields are history variables that only record what happened: the scheduler's `log`,
the pool's `notices`, `started`, `cancelRequested`, `completions` and `since`,
the lease protocol's `closes` and `underflow`, and the engine's `minted` and `log`.

## Findings

* **A join into END can be reported as deadlocked although it fired.** END never enters
  `completed`, and two fresh runs of one compiled static graph can leave different
  leftovers in its arrival set, so the success/stall verdict depends on scheduling
  (`WorkflowEndJoin.EndJoinVerdictDependsOnSchedule`). The declaration decides the verdict
  (`WorkflowStall.ScheduleIndependence`, `WorkflowStall.EndReportExact`) if every join into
  END has a source outside the least closed set (in particular if there is none), or every
  join into END has one source, or there is one join into END and every node has a single
  channel of activation (`WorkflowOnce.OneChannel`). What remains open is a join into END
  with at least two sources, all of them inside, on a graph where some node has two
  channels or several joins lead to END.
* **The state a run leaves can depend on scheduling even with associative and commutative
  reducers**, because a node with two channels may run once or twice
  (`WorkflowState.SumDependsOnSchedule`). It does not if every node has a single channel
  (`WorkflowState.SameStateOnce`) or the reducers are idempotent
  (`WorkflowState.SameStateIdempotent`).
* **Skipping a node that has an LLM edge crashes a resumed run instead of pausing it.**
  While seeding, the edge is not recorded before the pause is announced, and announcing it
  reads a missing edge (orchestration/workflows/engine.py:472, 512-514 and notify.py:473-474). The resume tool does
  not guard against it. `WorkflowSeeding.SeedingCrashesIff` says exactly when it happens,
  `WorkflowSeeding.SkippedLlmNodes` in terms of the skip list,
  `WorkflowSeeding.SkippingAnLlmNodeCrashes` gives a run.
* **At most one waiting edge per target** is not an assumption about callers:
  `WorkflowGraph.NormalizeWaitingEdges` establishes it for every target but END.
* **Resubmitting a task keeps the pool consistent exactly when the task is not running**,
  which the pool does not check (`TaskPool.ResubmitKeepsIff`). The resume tool refuses only
  SUCCESS and RUNNING (product/workflows/run_graph/resume_tasks.py:126), so a cancelled task
  that has not ended yet can get there (`TaskPool.ResumeTooEarly`).
* **The order of merged updates does not matter exactly when the writers of each plain
  field write equal values**, given associative and commutative reducers
  (`Channels.OrderDoesNotMatterIff`).
* **Lowering is final exactly when no selectable surface contains the opening bracket.**
  Closing brackets in surfaces are harmless, and a vocabulary key that contains a closing
  bracket can never be selected (`Symbols.SafeIff`).
* **Re-encoding an accepted mutation-set dictionary gives an equal dictionary under
  Python's `==`**, and the identical one exactly when no confidence in it is written as an
  integer, since integers are accepted and widened (`FileCodec.EncodeDecodeSet`).
* **The base64 decoder accepts texts the encoder never writes** (stray low bits under the
  padding); `Base64.EncodeDecode` says which. The set decoder rejects them only through
  its final comparison.
* **Popping a queue empty leaves its signal set, draining it clears it**
  (`MessageQueue.DrainByPop`, `MessageQueue.MessageQueue.PopAll`), so a consumer that pops
  may be woken once for nothing but never misses a message.

## Model

| member | source | states |
|---|---|---|
| WorkflowGraph.NormalizeWaitingEdges | orchestration/workflows/graph.py:361-404 | After compilation every join target but END has one waiting edge, with distinct sources, over exactly what statically fed it; exactly the absorbed single edges are gone; joins into END and routed edges are untouched; a graph already in that form is left as it is. |
| WorkflowGraph.NormalizedFeeds | orchestration/workflows/graph.py:376-397 | The same of the specification function, source by source. |
| WorkflowGraph.NormalizeIsIdempotent | orchestration/workflows/graph.py:361-370 | Normalising twice is normalising once. |
| WorkflowGraph.MergeWaiting | orchestration/workflows/graph.py:376-387 | Grouping by target keeps, per target but END, exactly the union of sources, with no target and no source twice. |
| WorkflowGraph.AbsorbSingles | orchestration/workflows/graph.py:389-397 | Exactly the single edges into join targets (START's excepted) are dropped, and each becomes a source of its join. |
| WorkflowGraph.AddSource | orchestration/workflows/graph.py:384-387 | Adding a source changes one target's source set by that source and keeps targets and sources duplicate free. |
| WorkflowGraph.EntryNodesExact | orchestration/workflows/graph.py:530-536 | The entry nodes are exactly the targets of START's edges, each once. |
| WorkflowGraph.DedupKeepsOrder | orchestration/workflows/graph.py:530-536 | Deduplication keeps first occurrences in their order. |
| WorkflowStep.SpawnStarts | orchestration/workflows/engine.py:450-465 | Below the limit a node that is neither END nor in flight is started, and nothing aborts. |
| WorkflowStep.StepKeeps | orchestration/workflows/engine.py:477-511 | Every step keeps the in-flight bookkeeping exact and strictly decreases the termination measure. |
| WorkflowStep.SeedBounded | orchestration/workflows/engine.py:470-475 | Seeding from any completed set, arrival table, skip list and execute list establishes the bookkeeping and at most two steps of fuel per allowed activation. |
| WorkflowStep.RunsAreBounded | orchestration/workflows/engine.py:450-511 | Over any run the steps taken plus the fuel left never exceed the initial fuel, and the bookkeeping holds throughout. |
| WorkflowStep.DriverTerminates | orchestration/workflows/engine.py:450-511 | Any run, fresh or resumed, takes at most twice `recursion_limit` steps; at most that many tasks exist, exactly the activation beyond them aborts, `scheduled` is the set of names in flight, none twice, END never. |
| WorkflowStep.NeverStuck | orchestration/workflows/engine.py:477-478 | While tasks are running some step is possible. |
| WorkflowHops.TransitionCases | orchestration/workflows/engine.py:279-298 | A transition pauses exactly if the node has an LLM edge, at the first one; otherwise it fails exactly if a router raises or answers an unmapped key. |
| WorkflowHops.RoutedHopsExact | orchestration/workflows/engine.py:286-298 | The routed hops are exactly the targets the node's routers chose. |
| WorkflowHops.HopsExact | orchestration/workflows/engine.py:284-318 | Every hop is a chosen target, a static target or a join that just fired, and all of these are hops. |
| WorkflowHops.HopsInOrder | orchestration/workflows/engine.py:284-318 | Routed hops come first, then static ones, then fired joins. |
| WorkflowHops.StaticHopsInOrder | orchestration/workflows/engine.py:300-303 | Static hops follow declaration order. |
| WorkflowHops.RoutedHopsInOrder | orchestration/workflows/engine.py:286-298 | Routed hops follow declaration order. |
| WorkflowHops.FiredInOrder | orchestration/workflows/engine.py:311-316 | Fired joins follow declaration order. |
| WorkflowHops.RunReachesExactly | orchestration/workflows/engine.py:477-511 | In an active, error-free state of any run, routed graphs included, the nodes settled or in flight are exactly those it started with and the hops of the nodes it reaped. |
| WorkflowHops.ChosenTargetRuns | orchestration/workflows/engine.py:286-298 | What a router chose when its node was reaped is settled or in flight ever after, unless something failed or the run left early. |
| WorkflowHops.DrainedIsWhatWasFollowed | orchestration/workflows/engine.py:413-582 | A drained error-free fresh run of any graph completes exactly the entry nodes and the hops it followed. |
| WorkflowHops.ReapOutcome | orchestration/workflows/engine.py:505-524 | Reaping a success pauses at the node's first LLM edge, or fails with its router, exactly when there is one, and then leaves the table and the history alone. |
| WorkflowHistory.JoinsAtTarget | orchestration/workflows/engine.py:305-316 | Through the whole loop over waiting edges, a join with its own target gains the node and fires and resets exactly when all its sources have arrived. |
| WorkflowHistory.CallKeepsLaw | orchestration/workflows/engine.py:311-316 | One transition extends the firing law and moves the collected sources on. |
| WorkflowHistory.JoinAccounting | orchestration/workflows/engine.py:305-316 | In every state of every run, cycles, routers and resumes included, the arrival set is exactly the sources completed since the join last fired plus the seed before the first firing, and every firing obeyed the law. |
| WorkflowHistory.FiringsBoundedBySource | orchestration/workflows/engine.py:305-316 | A join never fires more often than any source completed, plus one if that source was seeded. |
| WorkflowHistory.EveryLapWaitsForAll | orchestration/workflows/engine.py:305-316 | Between two firings of a join every source completes again, on every lap. |
| WorkflowHistory.JoinFiresWhenAllArrived | orchestration/workflows/engine.py:311-316 | Once all sources are seeded or completed, at least one of them in this run, the join has fired. |
| WorkflowHistory.DistinctCallsFireOnce | orchestration/workflows/engine.py:311-316 | While no node completes twice no join fires twice. |
| WorkflowFixpoint.DrainedFacts | orchestration/workflows/engine.py:470-511 | After a drained error-free fresh run, `completed` is the set of reaped nodes and everything owed a spawn was spawned and reaped. |
| WorkflowFixpoint.DrainedIsClosed | orchestration/workflows/engine.py:262-318 | With routers or without, such a run leaves a set closed under entry nodes, static edges and joins. |
| WorkflowFixpoint.DrainedIsLeastClosed | orchestration/workflows/engine.py:413-582 | On graphs of static and waiting edges it is the least such set, which the declaration alone determines, whatever the order of finishes and reaps. |
| WorkflowFixpoint.LeastIsLeast | orchestration/workflows/engine.py:262-318 | The least closed set exists and is unique. |
| WorkflowStall.DetectStall | orchestration/workflows/engine.py:359-389 | The scanning loop computes the stall report. |
| WorkflowStall.ScanInOrder | orchestration/workflows/engine.py:377-389 | Stalled joins are found in the order of their waiting edges. |
| WorkflowStall.StalledIffBlocked | orchestration/workflows/engine.py:377-384 | At the end of a drained run the incremental table and the history-free notion agree, join by join. |
| WorkflowStall.StallReportExact | orchestration/workflows/engine.py:359-389 | The report names, without duplicates, exactly the join targets but END outside the completed set with a source inside it. |
| WorkflowStall.ScheduleIndependence | orchestration/workflows/engine.py:555-570 | Two drained fresh runs of one static graph complete the same nodes, the least closed set, and report the same nodes but END; the reports are identical if joins into END have a source outside that set, or one source each, or there is one on a graph of single channels. |
| WorkflowStall.EndReportExact | orchestration/workflows/engine.py:377-389 | In those cases END is reported exactly when a join into it has some but not all sources completed, however many joins lead there. |
| WorkflowEnd.EndLeftover | orchestration/workflows/engine.py:311-316 | In those cases what a drained run leaves in END's arrival set is a function of the completed set. |
| WorkflowEnd.OutsidePilesUp | orchestration/workflows/engine.py:311-316 | While every join into END lacks a source, all arrivals at END pile up and none is lost. |
| WorkflowOnce.NobodyRunsTwice | orchestration/workflows/engine.py:450-465 | If each node is an entry node, or fed by one static source, or by a join, and only one of these, no fresh run of a static graph completes a node twice or runs a completed node again. |
| WorkflowStall.EndReportedIff | orchestration/workflows/engine.py:377-384 | On any graph with one join into END, END is reported exactly when a source completed after the join last fired. |
| WorkflowEndJoin.EndJoinVerdictDependsOnSchedule | orchestration/workflows/engine.py:377-389 | A concrete compiled static graph, run from its own entry nodes, has two drained runs, one clean and one reported as deadlocked at END. |
| WorkflowResume.PrefillTriggerCount | orchestration/workflows/engine.py:400-405 | The seeded table holds, per target, exactly the completed sources of its waiting edges. |
| WorkflowResume.PrefillArrived | orchestration/workflows/engine.py:400-405 | The same of the specification function. |
| WorkflowResume.ResumeSeeds | orchestration/workflows/engine.py:644-735 | Each resume variant seeds an arrival for exactly the sources of a target that are done or skipped and not about to run again. |
| WorkflowResume.ResumeRuns | orchestration/workflows/engine.py:644-662 | Re-running puts exactly the asked nodes in flight and counts the other done nodes as completed. |
| WorkflowResume.ResumeSkipRuns | orchestration/workflows/engine.py:692-709 | Skipping takes exactly the asked nodes as just finished, in order, completes them, and puts exactly what they lead to in flight. |
| WorkflowResume.ResumeSkipAndFromRuns | orchestration/workflows/engine.py:728-750 | The combination does both, and a node both skipped and re-run is not completed. |
| WorkflowResume.LaunchedIsCompleted | orchestration/workflows/engine.py:470-511 | Whatever a launch puts in flight is completed once its run has drained without error. |
| WorkflowResume.ResumeCompletes | orchestration/workflows/engine.py:652-662 | A drained error-free resume completed every node it was asked to run. |
| WorkflowResume.ResumeSkipAndFromCompletes | orchestration/workflows/engine.py:739-750 | The same of the combination. |
| WorkflowResume.ResumedAccounting | orchestration/workflows/engine.py:400-405 | In every state of every resumed run the arrival table accounts for the seeded and the reaped sources. |
| WorkflowResume.ResumedJoinFires | orchestration/workflows/engine.py:644-650 | After any resume, a join whose sources are all completed or reaped, one of them in this run, has fired, and unless something failed its target was run or is in flight. |
| WorkflowResume.SkipFiresJoinOnce | orchestration/workflows/engine.py:470-475 | Skipping distinct nodes whose join sources are then all completed fires that join exactly once while seeding. |
| WorkflowDriver.Driver.FireJoins | orchestration/workflows/engine.py:305-316 | The loop over waiting edges adds the node, fires the full joins in order and resets them. |
| WorkflowDriver.Driver.Successors | orchestration/workflows/engine.py:262-318 | LLM edges first, then routers, static edges and joins; the hops are exactly the chosen, static and fired targets; the table is changed in place only if nothing raised. |
| WorkflowDriver.Driver.Spawn | orchestration/workflows/engine.py:450-465 | END and in-flight names are ignored; the activation beyond the limit aborts the run. |
| WorkflowDriver.Driver.Advance | orchestration/workflows/engine.py:505-511 | A reaped node's hops are spawned in order; a pause, a router failure or the limit ends the run. |
| WorkflowDriver.Driver.Seed | orchestration/workflows/engine.py:470-475 | Skipped nodes are advanced in order without running, then the execute list is spawned; an LLM edge on a skipped node crashes the run. |
| WorkflowSeeding.SeedingCrashesIff | orchestration/workflows/engine.py:470-475 | Seeding crashes exactly when it reaches a skipped node with an LLM edge while still active, and never pauses. |
| WorkflowSeeding.SkippedLlmNodes | orchestration/workflows/engine.py:512-521 | With an LLM edge on a skipped node no run gets past seeding, and it crashes unless a router or the activation limit stopped it first; without one it never crashes. |
| WorkflowSeeding.CrashOnlyWhileSeeding | orchestration/workflows/engine.py:505-521 | After seeding no step crashes: an LLM edge met by a reap pauses. |
| WorkflowSeeding.SkippingAnLlmNodeCrashes | orchestration/workflows/engine.py:692-709 | A concrete graph and skip list crash, whatever is already done. |
| WorkflowDriver.Driver.Reap | orchestration/workflows/engine.py:479-511 | A finished task leaves `running` and `scheduled`; a failure is collected, a success advances. |
| WorkflowDriver.Driver.Run | orchestration/workflows/engine.py:413-582 | The driver loop terminates, performs a legal run of the step machine, and reports the verdict of its last state. |
| WorkflowDriver.VerdictMeans | orchestration/workflows/engine.py:512-582 | Each verdict holds exactly when its cause does: a pause with its edge, the limit, a router, a crash, the collected failures, the stalled joins. |
| WorkflowDriver.CompileAndRun | orchestration/workflows/engine.py:590-618 | Compile and run any declared graph: success or stall means a closed (for static graphs the least closed) set, success means no blocked join, a stall names exactly the blocked ones; END is reported exactly for joins partly in, wherever the declaration decides that. |
| WorkflowDriver.NoEarlyPause | orchestration/workflows/engine.py:512-524 | Without routers and LLM edges the only early exit is the recursion limit. |
| Channels.GraphState.ApplyUpdates | orchestration/workflows/channels.py:103-118 | The in-place loop merges every entry field by field, independently of the order in which keys are visited. |
| Channels.MergeEffect | orchestration/workflows/channels.py:112-118 | A field with a reducer becomes the reducer's answer to its current or missing value and the update, in this order; a plain one takes the update; others stay. |
| Channels.MergesCommute | orchestration/workflows/channels.py:112-118 | Two updates commute if they agree on the plain fields both write. |
| Channels.OrderDoesNotMatterIff | orchestration/workflows/channels.py:103-118 | With associative and commutative reducers, from any store, all orders of the updates give the same state exactly when the writers of each plain field write equal values. |
| Channels.OrderDoesNotMatter | orchestration/workflows/channels.py:103-118 | In particular when each plain field has one writer. |
| Channels.OnlyTheSetMatters | orchestration/workflows/channels.py:103-118 | With idempotent reducers only the set of agreeing updates matters, not their order or number. |
| Channels.RunIsFieldwiseFold | orchestration/workflows/channels.py:103-118 | A run of updates is, field by field, the fold of that field's contributions. |
| Channels.PlainFieldOrderMatters | orchestration/workflows/channels.py:117-118 | Two different values for any plain field, from any store, make the order visible. |
| WorkflowState.FinishedAsReaped | orchestration/workflows/engine.py:248-249 | In a drained run every node merged its update as often as it was reaped. |
| WorkflowState.FailuresAreReported | orchestration/workflows/engine.py:482-495 | A drained run reports every node as often as it failed, and no other. |
| WorkflowState.SameStateOnce | orchestration/workflows/engine.py:248-249 | On a static graph of single channels every drained schedule leaves the same merged state. |
| WorkflowState.SameStateIdempotent | orchestration/workflows/engine.py:248-249 | On any static graph every drained schedule leaves the same merged state if the reducers are idempotent as well. |
| WorkflowState.SumDependsOnSchedule | orchestration/workflows/engine.py:450-465 | Two drained schedules of one static graph leave different sums. |
| TaskPool.PoolIsConsistent | orchestration/background_tasks/pool.py:808-995 | In every reachable state: terminal notices plus one if still tracked equal the runs started, per id; a retained consumed task is running or paused; a run with a requested cancel never ended in success or a pause. |
| TaskPool.IdsAreNeverReused | orchestration/background_tasks/pool.py:185-186 | The next id occurs in no table, run or notice so far. |
| TaskPool.PauseSurvives | orchestration/background_tasks/pool.py:342-384 | A paused task's record stays unchanged through every run that does not resume it. |
| TaskPool.WaitersSeeCompletions | orchestration/background_tasks/pool.py:982-987 | A completion resolves every registered waiter, and a pending waiter has seen no completion since it was created. |
| TaskPool.RunEndsOnce | orchestration/background_tasks/pool.py:808-995 | The end of a run emits exactly one terminal notice; its status, and that of a retained record, is the one the ending and a requested cancel call for; the record is dropped exactly when it was consumed and is not paused. |
| TaskPool.EndsAsExactly | orchestration/background_tasks/pool.py:824-920 | The exact condition of each of the six statuses a run can end with. |
| TaskPool.RunEndsAlone | orchestration/background_tasks/pool.py:808-995 | The end of a run touches no other task. |
| TaskPool.CancelWins | orchestration/background_tasks/pool.py:864-867 | A run whose cancel was requested ends as cancelled if it returns at all, however long it goes on and whatever it returns. |
| TaskPool.ConsumedThenForgotten | orchestration/background_tasks/pool.py:989-995 | A task consumed while running is forgotten when it ends, exactly unless it pauses. |
| TaskPool.StartEffect | orchestration/background_tasks/pool.py:185-224 | A submission tracks a pending task with its operation, an adoption a running one without, and nothing else changes. |
| TaskPool.SlotEffect | orchestration/background_tasks/pool.py:606-612 | A slot turns a pending task, and no other, into a running one. |
| TaskPool.CancelEffect | orchestration/background_tasks/pool.py:386-405 | A cancel marks a tracked task and is refused for any other. |
| TaskPool.ProgressEffect | orchestration/background_tasks/delivery.py:171-172 | The writer delivers a node's failure and nothing else. |
| TaskPool.RetrieveEffect | orchestration/background_tasks/pool.py:352-384 | Consuming marks a running task, forgets a finished one, and leaves a paused or unknown one alone. |
| TaskPool.ResubmitEffect | orchestration/background_tasks/pool.py:461-500 | Resuming a known task starts a clean run under its id. |
| TaskPool.WaiterEffect | orchestration/background_tasks/pool.py:579-598 | A new waiter is pending; discarding drops one waiter of the given identity. |
| TaskPool.ProgressKeeps | orchestration/background_tasks/delivery.py:151-174 | The progress writer delivers node failures only and never a terminal. |
| TaskPool.BackgroundTaskPool.Submit | orchestration/background_tasks/pool.py:157-224 | A new pending task under an unused id. |
| TaskPool.BackgroundTaskPool.Adopt | orchestration/background_tasks/pool.py:502-541 | A new running task under an unused id, without an operation. |
| TaskPool.BackgroundTaskPool.AcquireSlot | orchestration/background_tasks/pool.py:600-616 | Only a pending task becomes running. |
| TaskPool.BackgroundTaskPool.Cancel | orchestration/background_tasks/pool.py:386-405 | Marks a tracked task; unknown and finished ids are refused. |
| TaskPool.BackgroundTaskPool.MaybeReapMeta | orchestration/background_tasks/pool.py:368-384 | Forgets exactly a consumed task that is neither running nor paused. |
| TaskPool.BackgroundTaskPool.MarkRetrieved | orchestration/background_tasks/pool.py:342-366 | Consumes a known task unless it is paused, keeping the invariant. |
| TaskPool.BackgroundTaskPool.Resubmit | orchestration/background_tasks/pool.py:436-500 | Starts a new run under the same id, running or not; unknown ids are refused; the invariant survives exactly if the id was not running. |
| TaskPool.ResubmitKeepsIff | orchestration/background_tasks/pool.py:461-500 | Resubmitting keeps the tables consistent exactly when the id is not tracked. |
| TaskPool.ResumeTooEarly | orchestration/background_tasks/pool.py:386-405 | A submitted and cancelled task is still tracked, so resuming it then breaks the tables. |
| TaskPool.BackgroundTaskPool.NextCompletion | orchestration/background_tasks/pool.py:579-591 | Registers a pending one-shot waiter. |
| TaskPool.BackgroundTaskPool.ResolveWaiters | orchestration/background_tasks/pool.py:982-987 | The loop resolves every waiter. |
| TaskPool.BackgroundTaskPool.SettleRun | orchestration/background_tasks/pool.py:921-993 | Settle the record, notify with the status the ending calls for, wake the waiters, stop tracking. |
| TaskPool.BackgroundTaskPool.OnDone | orchestration/background_tasks/pool.py:808-995 | The completion callback performs the finishing step, delivers the status the ending and a requested cancel call for, and keeps the invariant. |
| Services.LeasesAreSafe | runtime/services.py:74-101 | Every interleaving keeps the owner count equal to the unreleased leases, never reaches the underflow branch, and never reopens a closed container. |
| Services.AllRunsAreSafe | runtime/services.py:74-101 | The same from the initial state. |
| Services.OneCloseAtATime | runtime/services.py:83-101 | While a close is in progress its lease is the only unreleased one. |
| Services.NoOwnerAfterClose | runtime/services.py:77-81 | After a successful last-lease close no acquire ever succeeds and the count stays zero. |
| Services.FailedCloseCanRetry | runtime/services.py:94-99 | After any failed close the same lease can close again and succeed. |
| Services.AcquireGrants | runtime/services.py:74-81 | While no close has started an acquire grants a new lease and counts its owner; otherwise it is refused. |
| Services.AcloseStartsRelease | runtime/services.py:125-132 | After closing a lease it is released, or its release is about to run or closing the services; no other lease is touched. |
| Services.ReleaseRuns | runtime/services.py:83-92 | A release that runs frees one of several owners, or starts the close for the last. |
| Services.CloseEffect | runtime/services.py:93-101 | A close that succeeds closes for good; one that fails gives the services back to its owner. |
| Services.LeaseCanClose | runtime/services.py:125-136 | From every reachable state an unreleased idle lease can be closed: freed at once if others are left, otherwise through a close. |
| Services.LostReleaseEffect | runtime/services.py:128-132 | A release task lost before it ran leaves its lease owned and ready to be closed. |
| Services.EngineServices.Acquire | runtime/services.py:74-81 | Refused exactly while a close has started. |
| Services.EngineServices.Aclose | runtime/services.py:125-132 | Idempotent; starts a task only if there is none or the last one failed; afterwards the lease is released or on its way. |
| Services.EngineServices.RunRelease | runtime/services.py:83-92 | Closes exactly for the last owner; the underflow branch is shown unreachable. |
| Services.EngineServices.CloseEnds | runtime/services.py:93-101 | A failure clears the flag, a success ends ownership. |
| EngineShutdown.ShutdownIsExact | runtime/engine.py:75-141 | Over any mints, releases and close attempts: no agent is cleaned twice, an agent is owned exactly while uncleaned, and a closed engine cleaned every agent exactly once before closing the services. |
| EngineShutdown.FailedAttemptKeepsFailing | runtime/engine.py:120-141 | An attempt keeps exactly the agents whose cleanup failed in it, and closes exactly when nothing failed. |
| EngineShutdown.RunCloseKeeps | runtime/engine.py:125-141 | A close attempt conserves agents and closes the services only with nobody owned. |
| EngineShutdown.MintEffect | runtime/engine.py:75-82 | An open engine owns what it mints, once; any other mints nothing. |
| EngineShutdown.ReleaseEffect | runtime/engine.py:84-91 | A successful release cleans an owned agent once and drops it, and only it; any other changes nothing. |
| EngineShutdown.BeginCloseEffect | runtime/engine.py:113-123 | Announcing a close ends minting; a closed engine stays closed. |
| EngineShutdown.LastMintedFirst | runtime/engine.py:127-132 | A close attempt tries every owned agent once, the last minted first. |
| EngineShutdown.CanAlwaysClose | runtime/engine.py:113-141 | From every reachable state that is not closed one more attempt in which nothing fails closes the engine. |
| EngineShutdown.Engine.Mint | runtime/engine.py:75-82 | Accepted exactly while open. |
| EngineShutdown.Engine.Release | runtime/engine.py:84-91 | Drops an owned agent, cleaned exactly once, if its cleanup succeeds; otherwise changes nothing. |
| EngineShutdown.Engine.CleanUp | runtime/engine.py:126-132 | The loop tries every agent in order and collects exactly the failing ones. |
| EngineShutdown.Engine.RunClose | runtime/engine.py:120-141 | A close attempt performs the closing step in reverse order and keeps the invariant; no failures exactly when nobody is left and the services closed. |
| FileMutations.ClashFree | contracts/file/mutations.py:122-133 | The loop growing names and targets succeeds exactly when no two mutations share a name or an existing target. |
| FileMutations.Construct | contracts/file/mutations.py:105-133 | The constructor accepts exactly the non-empty, scope-valid, clash-free inputs, and yields them sorted. |
| FileMutations.SortedCorrect | contracts/file/mutations.py:119-121 | The canonical list is an ordered rearrangement of the given mutations. |
| FileMutations.KeyLessTotal | contracts/file/mutations.py:180-196 | The order on sort keys is a strict total order on keys (with KeyLessTransitive). |
| FileMutations.TextLessIff | contracts/file/mutations.py:119-119 | Texts compare by code point at their first difference, a proper prefix first. |
| FileMutations.OrderMeans | contracts/file/mutations.py:180-196 | Mutations that can be in one set are ordered by project scheme, project key, displayed path, name scheme, name key. |
| FileMutations.DigestsAndSizes | contracts/file/mutations.py:143-153 | A digest is 64 lower-case hex digits; a size fits a signed 64-bit integer. |
| FileMutations.OrderedIsIncreasing | contracts/file/mutations.py:119-133 | Distinct names make all sort keys distinct, so the canonical order is strictly increasing. |
| FileMutations.IncreasingIsUnique | contracts/file/mutations.py:119-121 | There is only one strictly increasing arrangement of given mutations. |
| FileMutations.BuildIsCanonical | contracts/file/mutations.py:105-133 | Construction yields a canonical set of the same mutations, and the canonical sets are exactly its fixpoints. |
| FileMutations.BuildIgnoresOrder | contracts/file/mutations.py:105-133 | Every permutation of the same mutations gives the same set or the same refusal. |
| Base64.DecodeEncode | contracts/file/codec.py:35-39 | Decoding undoes encoding on every byte string. |
| Base64.EncodeDecode | contracts/file/codec.py:56-56 | Encoding undoes decoding of exactly the accepted texts without stray padding bits. |
| Base64.AlphabetIsTheTable | contracts/file/codec.py:38-38 | The alphabet is table 1 of RFC 4648. |
| Base64.TestVectors | contracts/file/codec.py:38-38 | The test vectors of section 10 of RFC 4648, with and without padding. |
| Json.NumbersCompareByValue | contracts/file/codec.py:341-342 | The final comparison takes numbers by value across types, and nothing else. |
| FileCodec.PathRoundTrip | contracts/file/codec.py:34-65 | Every valid path, text or bytes, decodes from its encoding. |
| FileCodec.VersionRoundTrip | contracts/file/codec.py:86-148 | Every valid version decodes from its encoding. |
| FileCodec.EncodingRoundTrip | contracts/file/codec.py:151-181 | Every valid encoding decision, or none, decodes from its encoding. |
| FileCodec.SnapshotRoundTrip | contracts/file/codec.py:184-232 | Every valid, consistent snapshot decodes from its encoding. |
| FileCodec.MutationRoundTrip | contracts/file/codec.py:235-307 | Every valid mutation decodes from its encoding. |
| FileCodec.DecodedMutation | contracts/file/codec.py:261-307 | An accepted mutation has consistent snapshots, a non-negative mtime, a non-empty label and a confidence in [0, 1]. |
| FileCodec.MutationExact | contracts/file/codec.py:235-307 | A dictionary that is accepted and equal to a mutation's encoding decodes to that mutation, and is that encoding unless a confidence is an integer. |
| FileCodec.ScopeIsWhatIsDecoded | contracts/file/mutations.py:156-177 | What construction demands of a mutation is exactly what the decoder checks, plus that a create has one path. |
| FileCodec.NoExtraFields | contracts/file/codec.py:45-181 | Leaf decoders accept no other fields than those they read. |
| FileCodec.NoExtraMutationFields | contracts/file/codec.py:261-307 | Nor do mutation decoders. |
| FileCodec.ConfidenceAccepts | contracts/file/codec.py:171-180 | A confidence is absent or a number from 0 to 1, but not a truth value. |
| FileCodec.WireLeaves | contracts/file/codec.py:34-181 | Which field carries which part of paths, identities, blobs and encoding decisions. |
| FileCodec.WireSets | contracts/file/codec.py:310-317 | Which field carries which part of a set. |
| FileCodec.WireKinds | contracts/file/codec.py:235-258 | The kind each mutation is written with. |
| FileCodec.EncodeDecodeSet | contracts/file/codec.py:310-343 | Whatever is accepted is a canonical set listed in canonical order, its encoding equals the input, and is identical to it exactly when no confidence is an integer. |
| FileCodec.DecodeEncodeSet | contracts/file/codec.py:310-343 | A set survives the round trip exactly when it is canonical, its snapshots are consistent, and mtimes, labels and confidences are in range. |
| FileCodec.CodecIsInjective | contracts/file/codec.py:310-317 | Sets with equal encodings are equal. |
| TopologyCodec.UnquoteQuote | contracts/model/topology_codec.py:81-89 | Percent-decoding undoes percent-encoding in any context. |
| TopologyCodec.SplitSlashed | contracts/model/topology_codec.py:83-89 | Splitting undoes joining with slashes. |
| TopologyCodec.ResolveSegments | contracts/model/topology_codec.py:82-88 | The push/pop loop computes the resolved segments, all plain. |
| TopologyCodec.DotSegmentLaws | contracts/model/topology_codec.py:82-88 | Empty and "." segments vanish, ".." cancels its left neighbour, a leading ".." vanishes, wherever they stand. |
| TopologyCodec.CanonicalPath | contracts/model/topology_codec.py:81-91 | The path part renders what the input path means. |
| TopologyCodec.RenderRoundTrip | contracts/model/topology_codec.py:81-91 | Reading a rendered path gives back its segments and trailing slash. |
| TopologyCodec.CanonicalIsIdempotent | contracts/model/topology_codec.py:81-91 | Canonicalising preserves meaning and is idempotent. |
| TopologyCodec.CanonicalDecidesMeaning | contracts/model/topology_codec.py:81-91 | Two paths have the same canonical form exactly when they mean the same. |
| TopologyCodec.CanonicalHasNoDotSegments | contracts/model/topology_codec.py:89-91 | As written, the output splits into no empty, "." or ".." segment but the leading one and one for a trailing slash. |
| TopologyCodec.CanonicalIsClean | contracts/model/topology_codec.py:89-91 | The output holds only unreserved characters, escapes and slashes, and starts with a slash. |
| TopologyCodec.UnreservedIsKept | contracts/model/topology_codec.py:89-89 | Unreserved characters are written as they are. |
| TopologyCodec.OthersAreEscaped | contracts/model/topology_codec.py:89-89 | Every other byte is written as '%' and two upper-case hex digits. |
| TopologyCodec.EscapesRead | contracts/model/topology_codec.py:81-81 | Escapes are read in either case, and a '%' without two hex digits stands for itself. |
| TopologyCodec.EscapedSlashSeparates | contracts/model/topology_codec.py:81-88 | An escaped slash separates segments like a plain one. |
| TopologyCodec.EmptyIsRoot | contracts/model/topology_codec.py:81-91 | The empty path means the root. |
| TopologyCodec.RouteAcceptedIff | contracts/model/topology_codec.py:34-44 | A tagged value is a route exactly if its name is not empty and holds neither a colon nor white space. |
| TopologyCodec.RouteRoundTrip | contracts/model/topology_codec.py:24-44 | Route ids and their accepted wire values correspond one to one. |
| Symbols.FindsNothingIff | kernel/commands/symbols.py:106-110 | The leftmost non-greedy scan finds nothing exactly when no opening bracket has a closing one after it. |
| Symbols.LowerUnchanged | kernel/commands/symbols.py:124-125 | Text without symbols is returned unchanged. |
| Symbols.LowerAtToken | kernel/commands/symbols.py:127-136 | The leftmost token is replaced by its surface and the scan goes on after it. |
| Symbols.LowerFailsIff | kernel/commands/symbols.py:127-136 | Lowering fails exactly when some symbol has no surface, and names the leftmost such symbol. |
| Symbols.LoweredIsFinal | kernel/commands/symbols.py:113-152 | With a safe vocabulary lowered text holds no symbol, and lowering it again with any vocabulary changes nothing. |
| Symbols.SafeIff | kernel/commands/symbols.py:113-152 | Every lowered text is symbol free exactly when no selectable surface contains the opening bracket. |
| MessageQueue.MessageQueue.Push | contracts/conversation/queue.py:72-75 | Appends and sets the signal. |
| MessageQueue.MessageQueue.Pop | contracts/conversation/queue.py:42-55 | Removes the earliest most urgent allowed item, or nothing if there is none; a non-empty queue keeps its signal. |
| MessageQueue.MessageQueue.PopAll | contracts/conversation/queue.py:57-70 | Takes all allowed items by priority then insertion order, keeps the others in order, and clears the signal only when empty. |
| MessageQueue.StableSortCorrect | contracts/conversation/queue.py:66-66 | The drain order is sorted, a permutation, and stable. |
| MessageQueue.PopTakesHead | contracts/conversation/queue.py:42-55 | The item the selection scan takes is the head of the sorted drain, and taking it leaves the rest of both parts alone. |
| MessageQueue.DrainByPop | contracts/conversation/queue.py:42-70 | Popping until nothing is left yields exactly what one pop-all returns and leaves the same items in the same order, but never touches the signal. |
| Receipts.HistoryAdvances | contracts/inference/receipt.py:95-105 | Between any two positions revisions are consecutive, tokens do not regress and the state moves strictly forward. |
| Receipts.HistoryIsShort | contracts/inference/receipt.py:22-64 | A valid history has at most six entries, and only its last can be terminal. |
| Receipts.CommittedBeforeOutcome | contracts/inference/receipt.py:31-64 | A history from ACCEPTED succeeds, is acknowledged or is in doubt only after SEND_COMMITTED. |
| Receipts.OutcomeHasPermit | contracts/inference/receipt.py:85-92 | Every entry past the first two, and every terminal one, is bound to a permit. |
| Receipts.SessionNeverRegresses | contracts/inference/session.py:44-82 | Between any two positions neither sequence number, the token nor the identity regresses. |
| Receipts.NoFailureAfterOpenSent | contracts/inference/session.py:56-78 | FAILED never follows OPEN_SEND_COMMITTED, and terminal receipts come last. |
| Receipts.SessionsAreUnbounded | contracts/inference/session.py:67-71 | Valid session histories exist at every length. |
| Receipts.TransitionsExact | contracts/inference/receipt.py:31-64 | The attempt table, by its rules: one step along the course, failure and cancellation before the end, doubt once committed, success once the wire was started. |
| Receipts.EveryTransitionOccurs | contracts/inference/receipt.py:95-105 | A valid receipt with a permit can be followed in every way the rules allow and in no other. |
| Receipts.FullCourse | contracts/inference/receipt.py:31-64 | The bound of six is met by the whole course, ended by success. |
| Receipts.PermitFreeIff | contracts/inference/receipt.py:85-92 | A receipt can do without a permit exactly in the two states before the send. |
| Receipts.EverySessionTransitionOccurs | contracts/inference/session.py:44-82 | A session receipt can be followed in every way the rules allow and in no other. |

## Left out

- Node bodies, recovery retries, progress messages and result commits of the workflow engine: a node step only succeeds or fails.
- Cancelled tasks after an early exit of the workflow driver: the model forgets them at once, so a node that completes while it is being cancelled is not recorded.
- WorkflowStall.StallReportExact: says nothing about second-lap stalls, because the detector skips targets that completed once.
- WorkflowStall.EndReportedIff: covers graphs with one waiting edge into END; several of them share one arrival set that each firing clears for all.
- WorkflowStall.ScheduleIndependence: leaves the END entry open for a join into END with two or more sources, all inside the least closed set, where some node has two channels or several joins lead to END; there neither answer holds in general, since whether a leftover remains depends on how re-activations of the sources interleave.
- WorkflowState.SameStateOnce: takes a node's update as given; updates computed from the shared state a node happens to read are not modelled.
- WorkflowResume.ResumedJoinFires: does not say a resumed join waits for re-run sources, because the seeded table may already hold them.
- Declaration-time validation of graphs (`_validate`), apart from the normalisation it follows.
- Runs after resubmitting a task that is still running: the theorems over whole runs of the pool cover resubmissions of tasks that are not, the exact condition under which the tables stay consistent.
- Pool shutdown, `wait_all`, timeouts, output stores, XML bodies, telemetry and result registration failures of the task pool: I/O and presentation. Task ids are the counter's numbers.
- Services closed directly by the engine while leases exist: that path does not set the closing flag, so the lease theorems cover the lease path only.
- Cleanups interrupted by cancellation, and the order of cleanups across retries, in the engine shutdown: the source rebuilds the map of failed agents in reverse. Minted agents are assumed to be new objects.
- Interleavings inside a critical section: lease release and engine close and release hold a lock, so each is one step.
- Host names, ports, IP literals and Unicode normalisation of base URLs: library behaviour. Paths are bytes, assuming that escapes decode to valid UTF-8.
- Lower-casing of content digests on direct construction: the decoder only accepts lower-case digests.
- Search-row codecs: they default and coerce, so no two-way law holds.
- `normalize_vocabulary` and the concrete symbol set.
- Timestamps and digest patterns of receipts: they take no part in transitions.
- Real floating point: confidences are real numbers, which is exact for the comparisons made.
