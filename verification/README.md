# Muli in Dafny

Muli is a multi-tenant server that queues jobs, runs them in containers, runs pipelines of
such jobs and hosts git repositories. This project models the parts of it whose correctness
depends on interleavings, retries, partial failures or nested data, and proves what those
parts are for. `dafny verify dfyconfig.toml` checks all of it.

The model takes the form of the source. Lock-free and racing code (`ResourceManager`,
`ConcurrencyLimiter`, `Scheduler`, `JobLifecycle`, `RepositoryRaces`,
`StepRaces`) is a machine whose steps are the single
atomic operations of any number of callers; theorems quantify over every list of steps. The
methods of the source are there as well, as methods of a class that perform those steps in
the source's order, with an arbitrary schedule of other callers' steps in between; an empty
schedule gives their sequential meaning. Code that updates records or buffers is a class with
methods tied to functions on values, and the theorems are about those functions. Code that
only computes is functions and lemmas.

| module | what it models |
|---|---|
| `ResourceManager` | admission by slots, CPU and memory with compare-exchange loops and roll-back |
| `ConcurrencyLimiter` | the global and per-tenant limits and the two-stage drop of a permit |
| `PriorityQueue`, `Scheduler` | the heap with tombstones, and the dispatch loop with clients cancelling at any point |
| `RetryPolicy`, `JobLifecycle` | backoff, and the race of `execute_job`, watchdog and cancel over one job record |
| `DagGraph`, `RunNames`, `DagExecutor` | topological levels, matrix run names, and level-by-level execution of a pipeline |
| `GitTree` | inserting, removing and listing files in git trees by path |
| `RepositoryService` | create, delete, fork and transfer over a record store and a directory tree |
| `RepositoryRaces` | the same operations running at the same time, call by call, over stores with and without unique keys |
| `LogCollector` | the log ring, flushing by sequence number, and the repair by a second fetch |
| `Utf8`, `Base64`, `Decimal`, `SubstepMarkers`, `JobScript`, `MarkerRoundTrip` | the job script, what it prints, and the parser of its substep markers |
| `SubstepRows` | folding log lines into substep rows |
| `StepRaces` | the executor and the log flusher writing one step record |
| `HashTemplates`, `HashNesting` | the `{{ hash('file') }}` rewriting loop, and when it is one pass from left to right |
| `Sums`, `Wrappers` | totals over maps; `Option` |

## What the proofs found

- The memory, SQLite and MongoDB job stores check the transition table inside `update_state`
  (crates/muli-store/src/memory/job_store.rs:66-84), although the trait promises only the
  swap. With such a store the retry path's swap from Running to Pending is always refused: a
  job runs at most once, and the refused retry leaves it Running with nobody in charge until
  the watchdog or a client ends it (`StrictStoreRunsOnce`, `RefusedRetryStrandsJob`,
  `StrandedUntilBuriedOrCancelled`). With a store that only swaps, the retry path works. Its
  unguarded record write is safe, for all that can follow, exactly when the state it overwrites
  is not terminal and no activation is executing the job or about to reset it
  (`RetryWriteSafeIff`). `CancelledJobRevived` is a run in which a cancelled job comes back,
  `TwoRunners` one in which two activations run the job at once.
- `execute_job` never chooses TimedOut, because a timeout is a retryable error (`Verdict`).
- A failed `Repository::new` after a successful clone leaves the forked directory behind
  (`ErrorLeavesDirectoryIff`). An operation that returns an error leaves the records as they
  were except in the one case of a create whose compensation fails too (`ErrorKeepsRecordsIff`).
- A step is credited with another step's matrix runs exactly when one is named like a run of
  the other (`AttributedIff`).
- When a substep's output does not end with a line end, its finish marker is glued to the
  unfinished line. Behind a timestamp, as the container engine delivers lines, the finish is
  then always lost, and the substep's row stays Running (`GluedFinishIff`, `OutputToRows`);
  bare, it is recognised exactly when that line is one word and a blank. A substep that prints
  markers of its own never changes how another one's output is read (`SectionsApart`).
- The documented retry delay, base times two to the attempt up to a cap, is what the code
  computes exactly when the attempt is below 32, the base is zero, or the cap is reached before
  the 32-bit power saturates (`DocumentedDelayIff`).
- A job id that is allocated while it is recorded overwrites its record, and the slot, CPU and
  memory of the older one are never given back. With such losses counted in, every interleaving
  is accounted for, and the books balance exactly when nothing was overwritten
  (`EveryInterleavingBalances`, `IdRecordedTwice`). A wrapped 64-bit sum is admitted exactly
  when it wraps into the limit (`WrappedSumIsAdmitted`).
- A cancel that arrives while a job is running leaves a tombstone, which swallows the job's
  next enqueue, a retry for instance (`RetrySwallowed`, `EnqueuedUnderTombstone`), exactly when
  no idle refresh of the queue came in between (`TombstoneLastsIff`).
- A retry whose record write fails is not counted, but the job is enqueued again. Each such
  failure allows one run more than `max_retries` + 1 (`RunsAndWaitsAreBounded`), and there are
  runs that reach this bound for any number of failures (`BoundIsMet`).
- The hash rewriting loop is one pass from left to right exactly when no file name ends with an
  opener and a name read before it (`LoopIsPassIff`). That is for names that do not start with
  `) }}` and share a quote with an opener before them, and for templates that the pass resolves.
  Elsewhere no condition on the template alone can be exact, because it depends on the hashes
  (`HashDecides`, `MadeUpAgreesIff`, `LeftOpenAgreesIff`).
- The repository service takes no lock. On all stores a create between a delete's two removals
  succeeds and ends with a record and no directory (`CreateInsideDelete`). On the SQLite store,
  which the server uses, and on MongoDB keys stay unique in every interleaving
  (`UniqueStoreKeepsKeys`), but the refused insert of a fork, or update of a transfer, rolls back
  by removing or moving a directory that a create has meanwhile taken over (`CreateInsideFork`,
  `CreateInsideTransfer`). The memory store has no unique keys: there two creates that both check
  before either inserts both succeed (`TwoCreatesCollide`). A lock for each repository would rule
  all of it out (`LockedRunsKeepInv`).
- The executor and the log flusher write the same step record whole. An update is lost exactly
  when a write is based on a record that has changed in between (`NothingLostIff`): a step's
  verdict (`VerdictLost`) or its substeps' progress (`ProgressLost`).

## Hypotheses

- Where a `ResourceManager` theorem says so, the sums of limits and requests fit 64 bits, or no
  allocation is started for an id that is live.
- 64-bit arithmetic wraps around, as it does in a release build (`ResourceManager`).
- An enqueued id is neither queued nor held by the loop (`Scheduler`); heap entries have unique
  ids (`PriorityQueue`).
- Pushed log lines have strictly increasing sequence numbers where a theorem says so.
- Step names and run names are unique, and every run has its row (`DagExecutor`).
- The id of a new repository is not in use, where a theorem says so (`RepositoryRaces`).
- A file hash is 64 hexadecimal digits.

## Model

| member | source | states |
|---|---|---|
| ResourceManager.EveryRunAccounts | crates/muli-engine/src/resource_manager.rs:53-145 | in every interleaving of allocates and releases, with any ids and amounts, permits, records, calls and overwritten records add up to the slots, and used CPU and memory are what is recorded, held or lost, modulo 2^64 |
| ResourceManager.EveryInterleavingBalances | crates/muli-engine/src/resource_manager.rs:53-145 | if the sums fit 64 bits this is exact, neither total is ever exceeded, and the counters are what is recorded or held if and only if no record was overwritten |
| ResourceManager.StepTracks | crates/muli-engine/src/resource_manager.rs:53-145 | each atomic step (take slot, load, compare-exchange, roll back, record, forget, return) moves each counter by what it moves the amount due, and that grows only where a compare-exchange succeeds |
| ResourceManager.StepKeepsBooks | crates/muli-engine/src/resource_manager.rs:53-145 | each atomic step keeps the exact accounting and both totals |
| ResourceManager.NoUnderflow | crates/muli-engine/src/resource_manager.rs:92-99 | what a call is about to subtract is contained in the counter |
| ResourceManager.RunNeverUnderflows | crates/muli-engine/src/resource_manager.rs:130-136 | so, as long as the sums fit, no subtraction in any reachable state wraps around |
| ResourceManager.FreshIdsLoseNothing | crates/muli-engine/src/resource_manager.rs:53-145 | when no allocation is started for a live id nothing is ever lost, so the books balance |
| ResourceManager.QuietManagerHasAllCapacityIff | crates/muli-engine/src/resource_manager.rs:53-145 | once no call is in flight and every job is released, what is missing is what was overwritten, and the state is the initial one if and only if nothing was |
| ResourceManager.RecordKeepsBooksIffFresh | crates/muli-engine/src/resource_manager.rs:116-117 | inserting an allocation keeps the books balanced if and only if the id was not recorded |
| ResourceManager.IdRecordedTwice | crates/muli-engine/src/resource_manager.rs:116-145 | for all limits with room for both requests: an id allocated twice and released once leaves an idle manager short of one slot and of the first request |
| ResourceManager.WrappedSumIsAdmitted | crates/muli-engine/src/resource_manager.rs:69-71 | a request beyond the limit passes the test if and only if the 64-bit sum wraps to within the limit |
| ResourceManager.Manager.constructor | crates/muli-engine/src/resource_manager.rs:34-50 | a new manager has nothing used and all slots free |
| ResourceManager.Manager.ReserveCpu | crates/muli-engine/src/resource_manager.rs:67-86 | the CPU loop, other callers before each load and each exchange: it ends holding the CPU or having left; undisturbed it succeeds exactly when the 64-bit sum is within the total |
| ResourceManager.Manager.RollBack | crates/muli-engine/src/resource_manager.rs:92-99 | the refusal path gives back exactly the reserved CPU and then the slot |
| ResourceManager.Manager.ReserveMemory | crates/muli-engine/src/resource_manager.rs:88-108 | the memory loop likewise, with the roll-back when refused |
| ResourceManager.Manager.Reserve | crates/muli-engine/src/resource_manager.rs:66-108 | both loops in turn: everything reserved or everything given back |
| ResourceManager.Manager.Enter | crates/muli-engine/src/resource_manager.rs:110-117 | the insert into the map of allocations, others before it |
| ResourceManager.Manager.TryAllocate | crates/muli-engine/src/resource_manager.rs:53-127 | for any id and any request, with others between any two operations, the call is an interleaving of the protocol; no slot exactly when no permit was free; allocated exactly when it recorded; undisturbed, the outcome by slots, CPU and memory in that order, the reserved amounts and the record, and a refusal changes nothing |
| ResourceManager.Manager.PutBack | crates/muli-engine/src/resource_manager.rs:132-136 | CPU, memory and slot return one by one under interference |
| ResourceManager.Manager.Release | crates/muli-engine/src/resource_manager.rs:130-145 | forgets the record and gives back exactly what it says; an unknown id changes nothing |
| ConcurrencyLimiter.EveryInterleavingCounts | crates/muli-queue/src/concurrency.rs:14-80 | in every interleaving each tenant counter equals that tenant's counted permits and stays within its limit, and their sum never exceeds the global permits held or the global limit |
| ConcurrencyLimiter.StepKeepsCounts | crates/muli-queue/src/concurrency.rs:14-80 | every atomic step keeps that accounting, the two stages of a permit's drop included |
| ConcurrencyLimiter.NoUnderflow | crates/muli-queue/src/concurrency.rs:19-23 | the counter a permit's drop decrements is positive |
| ConcurrencyLimiter.QuietLimiterIsFree | crates/muli-queue/src/concurrency.rs:42-80 | with no call in flight and no permit held, all counters are zero and all global permits are back, so a rejected acquire leaks nothing |
| ConcurrencyLimiter.Limiter.CountIn | crates/muli-queue/src/concurrency.rs:58-74 | the compare-exchange loop, others before each load and each exchange: counted in, or refused and the global permit back |
| ConcurrencyLimiter.Limiter.TryAcquire | crates/muli-queue/src/concurrency.rs:42-80 | the whole acquire under interference; undisturbed it succeeds exactly when both limits allow, and a refusal leaves permits and counts as they were |
| ConcurrencyLimiter.Limiter.DropPermit | crates/muli-queue/src/concurrency.rs:19-23 | the drop decrements the tenant's counter first and frees the global permit afterwards |
| PriorityQueue.LeqIsOrder | crates/muli-core/src/job/priority.rs:67-76 | score, then id, is a total order |
| PriorityQueue.PopTakesGreatestLive | crates/muli-queue/src/queue.rs:51-63 | `pop` with tombstones refines taking the greatest live entry of a plain set; none exactly when nothing is live |
| PriorityQueue.SkimOne | crates/muli-queue/src/queue.rs:53-62 | one round of the skipping loop uses up a tombstoned entry with its tombstone, or yields the result |
| PriorityQueue.LengthNeverOvercounts | crates/muli-queue/src/queue.rs:84-87 | `len` never exceeds the live jobs, and is exact if and only if every tombstone names a queued job or nothing is live |
| PriorityQueue.PushIsLiveIff | crates/muli-queue/src/queue.rs:40-47 | a pushed job is live if and only if its id carries no tombstone |
| PriorityQueue.RefreshKeepsLive | crates/muli-queue/src/queue.rs:96-111 | rescoring keeps the live ids and makes `len` exact |
| PriorityQueue.Queue.Push | crates/muli-queue/src/queue.rs:40-47 | adds the entry and its tier, and keeps ids unique when the id is new |
| PriorityQueue.Queue.Pop | crates/muli-queue/src/queue.rs:51-63 | performs the pop of `PopTakesGreatestLive` |
| PriorityQueue.Queue.Requeue | crates/muli-queue/src/queue.rs:69-73 | puts a popped entry back and touches nothing else |
| PriorityQueue.Queue.Remove | crates/muli-queue/src/queue.rs:77-81 | leaves the heap alone and takes exactly this id out of the live ones |
| PriorityQueue.Queue.Len | crates/muli-queue/src/queue.rs:84-87 | the saturating difference, with the bound and the exactness condition |
| PriorityQueue.Queue.RefreshScores | crates/muli-queue/src/queue.rs:96-111 | the heap becomes exactly the live entries with new scores, and no tombstone is left |
| Scheduler.EveryExecutionConserves | crates/muli-queue/src/scheduler.rs:70-132 | in every execution each id has been enqueued as often as it is queued, held, dispatched or cancelled, an enqueue under a tombstone counting as cancelled |
| Scheduler.NextConserves | crates/muli-queue/src/scheduler.rs:58-128 | every action of client or loop keeps that count |
| Scheduler.OnePlaceAtATime | crates/muli-queue/src/scheduler.rs:70-132 | an id enqueued once is in exactly one of those places and is dispatched at most once |
| Scheduler.GoneIsNeverDispatched | crates/muli-queue/src/scheduler.rs:70-132 | an id that is gone and not enqueued again is never dispatched |
| Scheduler.CancelWhileQueued | crates/muli-queue/src/scheduler.rs:64-66 | a cancel that lands while the id is queued means it is never dispatched |
| Scheduler.CancelWhileHeldThenRequeued | crates/muli-queue/src/scheduler.rs:97-102 | a cancel that lands while the loop holds the id, which is then requeued, means it is never dispatched |
| Scheduler.EnqueuedUnderTombstone | crates/muli-queue/src/scheduler.rs:58-66 | an enqueue of an id that carries a tombstone is discarded: the id is not dispatched until it is enqueued again |
| Scheduler.TombstoneLastsIff | crates/muli-queue/src/queue.rs:77-111 | the tombstone of a cancel that found the id neither queued nor held is there at its next enqueue if and only if no idle refresh came in between |
| Scheduler.RetrySwallowed | crates/muli-queue/src/queue.rs:51-81 | a run that comes to this: cancelled while running, then enqueued again, the job is in no place after the next pop |
| Scheduler.Loop.Client | crates/muli-queue/src/scheduler.rs:58-66 | an enqueue or cancel is one action of the machine |
| Scheduler.Loop.PopNext | crates/muli-queue/src/scheduler.rs:85 | the loop's pop is one action and holds the popped job |
| Scheduler.Loop.Settle | crates/muli-queue/src/scheduler.rs:86-103 | the held job is dispatched or requeued according to the acquire |
| Scheduler.Loop.DispatchAll | crates/muli-queue/src/scheduler.rs:84-104 | one drain of the queue, with client calls before every pop and while a job is held, is an execution of the machine, ends holding nothing, and is blocked exactly when it put a job back; else no live job is left |
| Scheduler.Loop.RefreshWhenIdle | crates/muli-queue/src/scheduler.rs:125-128 | the idle refresh is an action of the machine |
| RetryPolicy.MultiplierBounds | crates/muli-queue/src/retry.rs:30-37 | the saturating power lies between 1 and the true power |
| RetryPolicy.DelaysGrowToCap | crates/muli-queue/src/retry.rs:30-37 | delays never decrease from one attempt to the next and never exceed the cap |
| RetryPolicy.DocumentedDelayIff | crates/muli-queue/src/retry.rs:30-37 | the delay is base times two to the attempt, capped, if and only if the 32-bit power has not saturated or its saturation makes no difference |
| RetryPolicy.TotalDelayBound | crates/muli-queue/src/retry.rs:30-37 | the delays of n retries add up to at most base times 2^n - 1 |
| JobLifecycle.Verdict | crates/muli-server/src/execution.rs:214-222 | the state chosen without a retry is terminal and never TimedOut |
| JobLifecycle.StepKeepsExclusive | crates/muli-server/src/execution.rs:43-264 | every store access of activation, watchdog or cancel keeps one active activation at most and leaves terminal states alone, if it is not a harmful retry write |
| JobLifecycle.EveryRunIsSafe | crates/muli-server/src/execution.rs:43-264 | in every interleaving whose retry writes are harmless, one activation at most runs the job and a terminal state is final |
| JobLifecycle.UndisturbedIsHarmless | crates/muli-server/src/execution.rs:172-183 | retry writes are harmless when no other write falls between swap and write |
| JobLifecycle.SafeFromTheStart | crates/muli-server/src/execution.rs:43-264 | both together, from a fresh job on and between any two points of the interleaving |
| JobLifecycle.RetryWriteSafeIff | crates/muli-server/src/execution.rs:177-183 | for every state harmless writes lead to: a retry write and all continuations keep one runner and final terminal states if and only if the overwritten state is not terminal and no activation is executing or about to reset |
| JobLifecycle.TwoRunners | crates/muli-server/src/execution.rs:172-183 | a run with a harmful retry write after which two activations run the job |
| JobLifecycle.CancelledJobRevived | crates/muli-server/src/execution.rs:172-183 | a run in which a cancelled job becomes pending again |
| JobLifecycle.StepKeepsInv | crates/muli-store/src/memory/job_store.rs:66-84 | with a store that checks the transition table every step keeps one holder at most and leaves terminal states alone |
| JobLifecycle.StrictStoreRunsOnce | crates/muli-store/src/memory/job_store.rs:66-84 | so every interleaving is safe, the job runs at most once and no retry is written |
| JobLifecycle.RefusedRetryStrandsJob | crates/muli-server/src/execution.rs:195-201 | the refused retry leaves the record Running and no holder |
| JobLifecycle.StrandedUntilBuriedOrCancelled | crates/muli-server/src/watchdog.rs:42-94 | a stranded record changes only by a watchdog's or a client's swap |
| JobLifecycle.RunsAndWaitsAreBounded | crates/muli-server/src/execution.rs:160-212 | with activations started from the queue, and whatever watchdog, clients and a failing store do, a job runs at most `max_retries` + 1 times and waits at most base times 2^`max_retries` - 1, plus one run and one capped delay for each retry whose write failed |
| JobLifecycle.BoundIsMet | crates/muli-server/src/execution.rs:177-193 | for every policy that retries and every number of failed writes there is a run that meets the bound on the runs |
| JobLifecycle.Server.ClaimAndStart | crates/muli-server/src/execution.rs:43-64 | the two swaps to Scheduled and Running under interference |
| JobLifecycle.Server.ResetAndRewrite | crates/muli-server/src/execution.rs:172-201 | the retry path under interference; undisturbed the record is pending with one retry more, or none more if the write fails, or unchanged when the store refuses the swap |
| JobLifecycle.Server.SettleAndPublish | crates/muli-server/src/execution.rs:224-253 | the final path under interference; undisturbed the record holds the terminal state, even if the write fails |
| JobLifecycle.Server.Conclude | crates/muli-server/src/execution.rs:119-264 | what an activation makes of its container's outcome |
| JobLifecycle.Server.ExecuteJob | crates/muli-server/src/execution.rs:43-264 | the whole activation is an interleaving of the protocol; alone it leaves a job that is not pending unchanged |
| JobLifecycle.Server.SwapAndWriteOff | crates/muli-server/src/watchdog.rs:60-92 | the watchdog's swap and write of a listed job under interference |
| JobLifecycle.Server.BuryStale | crates/muli-server/src/watchdog.rs:54-92 | the watchdog fails a stale job, except that a checking store refuses a merely scheduled one |
| DagGraph.TopologicalLevels | crates/muli-pipeline/src/dag/graph.rs:29-72 | every step is placed at most once, all needs of a placed step lie in earlier levels, and a step left out has a need left out or unknown |
| DagGraph.BuildDependents | crates/muli-pipeline/src/dag/graph.rs:33-41 | the reversed edges hold each need with its multiplicity |
| DagGraph.Discharge | crates/muli-pipeline/src/dag/graph.rs:59-65 | in-degrees sink by the number of edges from the placed node |
| DagGraph.NextLevel | crates/muli-pipeline/src/dag/graph.rs:46-69 | one round keeps levels and in-degrees consistent, and an empty level means nothing more can be placed |
| DagGraph.AllPlacedIffAcyclic | crates/muli-pipeline/src/dag/graph.rs:29-72 | all steps are placed if and only if the needs are known and acyclic |
| RunNames.FindOriginalName | crates/muli-pipeline/src/dag/executor.rs:930-940 | the loop finds the first name the run could belong to |
| RunNames.OriginalMatches | crates/muli-pipeline/src/dag/executor.rs:930-940 | none exactly when no name matches; a found name is a given one and matches |
| RunNames.AttributedIff | crates/muli-pipeline/src/dag/executor.rs:930-940 | every run of a step is attributed to it if and only if no earlier step is named like one of its runs or it like one of theirs |
| RunNames.BuildRunMaps | crates/muli-pipeline/src/dag/executor.rs:906-926 | each step is mapped to exactly its attributed runs, in order |
| DagExecutor.PlanIsSound | crates/muli-pipeline/src/dag/executor.rs:273-283 | the runs of all levels are distinct, within and across levels |
| DagExecutor.NeedsAreTerminal | crates/muli-pipeline/src/dag/executor.rs:252-309 | no job is submitted before all runs of the steps it needs are terminal |
| DagExecutor.NothingAfterStop | crates/muli-pipeline/src/dag/executor.rs:463-489 | after a level with a Stop failure nothing later is submitted, and every open run there ends cancelled |
| DagExecutor.DueOnce | crates/muli-pipeline/src/dag/executor.rs:313-402 | no run is submitted twice |
| DagExecutor.OpenIsDue | crates/muli-pipeline/src/dag/executor.rs:313-402 | every open run of a level that no stop came before is submitted |
| DagExecutor.DueHasLevel | crates/muli-pipeline/src/dag/executor.rs:313-402 | and nothing else is |
| DagExecutor.FinalStateMeans | crates/muli-pipeline/src/dag/executor.rs:881-889 | at the end every reached run is terminal; Failed, Degraded and Succeeded each if and only if the rows say so, whatever the rows were before |
| DagExecutor.Executor.SubmitRun | crates/muli-pipeline/src/dag/executor.rs:324-398 | one run is skipped, submitted or failed, and logged in turn |
| DagExecutor.Executor.SubmitLevel | crates/muli-pipeline/src/dag/executor.rs:313-402 | the accepted runs, the new rows and both failure flags of a level |
| DagExecutor.Executor.WaitLevel | crates/muli-pipeline/src/dag/executor.rs:405-460 | every submitted run gets the state its job ended with, and both flags |
| DagExecutor.Executor.CancelLevelRuns | crates/muli-pipeline/src/dag/executor.rs:463-489 | exactly the open runs of the level become cancelled |
| DagExecutor.Executor.ExecuteDagLevels | crates/muli-pipeline/src/dag/executor.rs:252-309 | after all levels: rows, submissions and flags are those of the specification; after a failed access the submissions so far were still in turn |
| DagExecutor.Executor.Execute | crates/muli-pipeline/src/dag/executor.rs:67-174 | from definitions and run names to the final state: needs first, each due run once, every reached run terminal, and the state by if-and-only-if |
| GitTree.InsertAt | crates/muli-git/src/api/blobs.rs:208-255 | after an insert, lookup finds the blob at its path, nothing at conflicting prefixes and extensions, and every other path unchanged |
| GitTree.InsertSucceedsIff | crates/muli-git/src/api/blobs.rs:208-255 | an insert succeeds if and only if the path is non-empty and the builder accepts every segment |
| GitTree.InsertRefines | crates/muli-git/src/api/blobs.rs:208-255 | the insert refines the edit of the flat map |
| GitTree.RemoveAt | crates/muli-git/src/api/blobs.rs:259-303 | after a removal nothing is at or below the path, and every other path is unchanged |
| GitTree.RemoveRefines | crates/muli-git/src/api/blobs.rs:259-303 | the removal refines the deletion in the flat map, and succeeds if and only if something is at or below the path |
| GitTree.InsertKeepsWellFormed | crates/muli-git/src/api/blobs.rs:208-255 | an insert leaves no empty sub-directory |
| GitTree.RemoveKeepsWellFormed | crates/muli-git/src/api/blobs.rs:259-303 | a removal prunes every sub-directory it empties |
| GitTree.NormalFormIsUnique | crates/muli-git/src/api/blobs.rs:208-303 | two trees without empty sub-directories and with the same files are equal |
| GitTree.InsertThenRemove | crates/muli-git/src/api/blobs.rs:208-303 | inserting and then removing gives the original tree if and only if the path was free and in conflict with nothing |
| GitTree.DeleteAllRefines | crates/muli-git/src/api/blobs.rs:489-495 | a list of deletes refines the flat deletes and succeeds if and only if each finds something |
| GitTree.InsertAllRefines | crates/muli-git/src/api/blobs.rs:498-506 | a list of inserts refines the flat inserts |
| GitTree.ApplyDeletes | crates/muli-git/src/api/blobs.rs:489-495 | the delete loop, stopping at the first error |
| GitTree.ApplyInserts | crates/muli-git/src/api/blobs.rs:498-506 | the insert loop, stopping at the first error |
| GitTree.CreateFilesBatch | crates/muli-git/src/api/blobs.rs:479-506 | the batch succeeds if and only if the flat deletes and inserts do, and then represents their result |
| GitTree.ListRecursive | crates/muli-git/src/api/tree.rs:67-106 | the listing holds each file and directory once and nothing else |
| GitTree.ListingAgreesWithLookup | crates/muli-git/src/api/tree.rs:67-106 | a file path is listed once, and precisely when lookup finds a blob there |
| RepositoryService.OperationKeepsInvIff | crates/muli-core/src/service/repository.rs:28-210 | an operation keeps "every record has its directory" and "no two records share a key" if and only if no compensation failed |
| RepositoryService.EverySequenceKeepsInv | crates/muli-core/src/service/repository.rs:28-210 | every sequence of operations with succeeding compensations keeps both |
| RepositoryService.ErrorKeepsRecordsIff | crates/muli-core/src/service/repository.rs:28-210 | an operation that returns an error leaves the records as they were, except in the stated case |
| RepositoryService.SuccessChangesOneRecord | crates/muli-core/src/service/repository.rs:28-210 | a success adds, removes or moves exactly the one record asked for |
| RepositoryService.ErrorLeavesDirectoryIff | crates/muli-core/src/service/repository.rs:104-158 | exactly when a failed fork changes the set of directories |
| RepositoryService.ForkKeepsKeysUniqueIff | crates/muli-core/src/service/repository.rs:104-158 | fork relies on the directory check: when the store takes its record, keys stay unique if and only if no record had the target key |
| RepositoryService.FilesystemStorage.InitRepo | crates/muli-git/src/storage/filesystem.rs:38-69 | accepts an existing directory as it is, otherwise creates it or fails, possibly leaving it behind |
| RepositoryService.FilesystemStorage.DeleteRepo | crates/muli-git/src/storage/filesystem.rs:72-85 | removes an existing directory and refuses a missing one |
| RepositoryService.FilesystemStorage.ForkRepo | crates/muli-git/src/storage/filesystem.rs:88-133 | needs the source, refuses an existing target, otherwise clones or fails |
| RepositoryService.FilesystemStorage.TransferRepo | crates/muli-git/src/storage/filesystem.rs:137-163 | needs the source, refuses an existing target, otherwise renames or fails |
| RepositoryService.Service.Create | crates/muli-core/src/service/repository.rs:28-72 | the ordered effects of a create with its compensation |
| RepositoryService.Service.Delete | crates/muli-core/src/service/repository.rs:75-101 | the ordered effects of a delete |
| RepositoryService.Service.Fork | crates/muli-core/src/service/repository.rs:104-158 | the ordered effects of a fork with its compensation |
| RepositoryService.Service.Transfer | crates/muli-core/src/service/repository.rs:161-210 | the ordered effects of a transfer with its compensation |
| RepositoryRaces.StepGoodIff | crates/muli-core/src/service/repository.rs:28-210 | while creates, deletes, forks and transfers overlap, one call of store or file system keeps keys unique and every record with its directory or an operation that will see to it, if and only if it is not one of the stated clashes |
| RepositoryRaces.GoodThroughoutIff | crates/muli-core/src/service/repository.rs:28-210 | in every interleaving of the four operations that is so all the time if and only if no call clashes |
| RepositoryRaces.UniqueStoreKeepsKeys | crates/muli-store/src/sqlite/factory.rs:158-166 | with the unique keys of SQLite or MongoDB no two records come to share a key in any interleaving, without a lock |
| RepositoryRaces.UniqueStoreHousedIff | crates/muli-store/src/sqlite/git_repo_store.rs:29-51 | with such a store every record has its directory or an operation that will see to it, all the time, if and only if no call misplaces a directory; a create's insert never does |
| RepositoryRaces.CreatesCollideIff | crates/muli-core/src/service/repository.rs:37-56 | a create's insert meets a record of its key if and only if another operation brought one after its duplicate check and it is still there; then and only then a store with unique keys refuses it, and the memory store lets both in |
| RepositoryRaces.LockedRunIsGood | crates/muli-core/src/service/repository.rs:28-210 | if no operation starts on a repository another one is changing, no call clashes but a failed compensation, on any store |
| RepositoryRaces.LockedRunsKeepInv | crates/muli-core/src/service/repository.rs:28-210 | so concurrent operations then keep what every sequence of operations keeps |
| RepositoryRaces.TwoCreatesCollide | crates/muli-store/src/memory/git_repo_store.rs:37-47 | memory store, from every state: two creates that check before either inserts both succeed under one key |
| RepositoryRaces.CreateInsideDelete | crates/muli-core/src/service/repository.rs:75-101 | any store, from every state: a create between a delete's removal of record and directory ends without its directory |
| RepositoryRaces.CreateInsideFork | crates/muli-core/src/service/repository.rs:114-148 | store with unique keys, from every state: a create between a fork's clone and insert takes the clone over, and the fork's roll-back removes it |
| RepositoryRaces.CreateInsideTransfer | crates/muli-core/src/service/repository.rs:182-198 | store with unique keys, from every state: a create between a transfer's rename and update takes the directory over, and the roll-back moves it away |
| LogCollector.ReturnedExactlyIffNothingDropped | crates/muli-engine/src/docker/logs.rs:167-176 | for every interleaving of pushes and flushes, what flushes return is exactly what was pushed, in order and once, if and only if no unflushed line was evicted |
| LogCollector.EveryLineReturnedOnceIff | crates/muli-engine/src/docker/logs.rs:257-283 | and that if and only if every push finds fewer unflushed lines than the ring holds, for every limit, zero included |
| LogCollector.DropsIffFullOfUnflushed | crates/muli-engine/src/docker/logs.rs:167-176 | a push evicts an unflushed line if and only if the ring is full of them |
| LogCollector.StaleNumberIsNeverReturned | crates/muli-engine/src/docker/logs.rs:257-269 | from any state on, no line numbered below the flush offset is ever returned |
| LogCollector.OverlapLen | crates/muli-engine/src/docker/logs.rs:294-302 | the longest suffix of the collected lines that is a prefix of the fetched ones |
| LogCollector.RepairedIffPrefix | crates/muli-engine/src/docker/logs.rs:238-252 | the repair gives the full log if and only if the collected lines were a prefix of it |
| LogCollector.RepairedBuffer | crates/muli-engine/src/docker/logs.rs:238-252 | the same for the buffer and its numbers |
| LogCollector.Collector.PushLine | crates/muli-engine/src/docker/logs.rs:167-176 | appends, evicting the oldest line of a full ring |
| LogCollector.Collector.PeekUnflushed | crates/muli-engine/src/docker/logs.rs:257-269 | returns the unflushed lines in order and moves the offset past the last |
| LogCollector.Collector.Drain | crates/muli-engine/src/docker/logs.rs:273-283 | returns what is unflushed and empties the ring |
| LogCollector.Collector.FetchRemaining | crates/muli-engine/src/docker/logs.rs:238-252 | appends what lies beyond the longest overlap; with room in the ring the whole log is there if and only if the collected lines were a prefix |
| Utf8.DecodeEncode | crates/muli-engine/src/docker/logs.rs:384-389 | decoding the encoding of a text gives the text |
| Utf8.EncodeDecode | crates/muli-engine/src/docker/logs.rs:384-389 | bytes decode only if they are the encoding of the result |
| Base64.DecodeEncode | crates/muli-engine/src/docker/container.rs:154 | decoding the encoding of any bytes gives them back, for every alphabet |
| Base64.EncodeDecode | crates/muli-engine/src/docker/logs.rs:384-389 | text decodes only if it is the canonical encoding of the result |
| Base64.StandardIsProper | crates/muli-engine/src/docker/container.rs:154 | the digits of the standard alphabet and their values correspond |
| Decimal.PrintBack | crates/muli-engine/src/docker/logs.rs:375 | a printed 32-bit exit code parses to itself |
| SubstepMarkers.DecodeNameIff | crates/muli-engine/src/docker/logs.rs:384-389 | a text decodes to a name if and only if it is that name's encoding |
| SubstepMarkers.StartedIff | crates/muli-engine/src/docker/logs.rs:362-369 | a line is read as a start if and only if, past its first blank, it is that substep's start marker |
| SubstepMarkers.FinishedIff | crates/muli-engine/src/docker/logs.rs:371-382 | a line is read as a finish if and only if it is that substep's finish marker with some numeral of the code |
| SubstepMarkers.Parser.ParseOutputLines | crates/muli-engine/src/docker/logs.rs:304-354 | the log lines and the state after a chunk of output |
| SubstepMarkers.Parser.ParseLine | crates/muli-engine/src/docker/logs.rs:311-352 | what one line becomes, and the current substep after it |
| SubstepMarkers.ChunksParseAlike | crates/muli-engine/src/docker/logs.rs:304-354 | output parsed in chunks that end with line ends gives the same log lines as parsed at once |
| JobScript.BuildJobScript | crates/muli-engine/src/docker/container.rs:142-171 | the script is the rendering of one block of statements for each substep, or the plain commands |
| JobScript.MarkersSurviveQuoting | crates/muli-engine/src/docker/container.rs:155-167 | whatever the name, the quoted marker text reaches `printf` unchanged |
| JobScript.ProgramOutput | crates/muli-engine/src/docker/container.rs:152-170 | the script prints exactly the marked sections of the substeps up to the first that fails |
| MarkerRoundTrip.StartArrives | crates/muli-engine/src/docker/logs.rs:362-369 | a start marker, bare or timestamped, is read as that start |
| MarkerRoundTrip.FinishArrives | crates/muli-engine/src/docker/logs.rs:371-382 | a finish marker, bare or timestamped, is read as that finish with that code |
| MarkerRoundTrip.SectionsParse | crates/muli-engine/src/docker/logs.rs:304-354 | a list of sections, finished or not, gives exactly its started, visible and finished lines, numbered in order, the visible ones under the enclosing name, and leaves the parser in the last unfinished one |
| MarkerRoundTrip.FramedParses | crates/muli-engine/src/docker/logs.rs:304-354 | a section whose lines may pass for markers gives its started event, its lines as read from within, and its finished event if recognised, after which no substep is current |
| MarkerRoundTrip.SectionsApart | crates/muli-engine/src/docker/logs.rs:304-354 | the log lines of an output are those of each section parsed by itself, whatever the substeps print |
| MarkerRoundTrip.ScriptParses | crates/muli-engine/src/docker/container.rs:142-171 | so it is for the output of every job script, bare or behind timestamps, its last lines ended or not |
| MarkerRoundTrip.ScriptRoundTrip | crates/muli-engine/src/docker/container.rs:142-171 | if no line passes for a marker it parses back to exactly the substeps that were run, their lines under their names; a finish that is not recognised is read as output |
| MarkerRoundTrip.GluedFinishIff | crates/muli-engine/src/docker/container.rs:165-167 | a finish marker printed behind an unfinished line is recognised if and only if that line is empty or, without a timestamp, one word and a blank; else it is a visible line |
| MarkerRoundTrip.FinishLost | crates/muli-engine/src/docker/container.rs:165-167 | for every substep: an output of one word and a blank, whose finish is read bare and lost behind every timestamp |
| SubstepRows.BatchesDoNotMatter | crates/muli-server/src/execution.rs:330-411 | any split into batches gives the same rows |
| SubstepRows.LineChangesOneRow | crates/muli-server/src/execution.rs:341-397 | a line changes the row of its substep and no other |
| SubstepRows.OneRowPerName | crates/muli-server/src/execution.rs:349-354 | there is exactly one row for each name that had one or that a line carries |
| SubstepRows.RowsAfterStream | crates/muli-server/src/execution.rs:341-397 | after a well-bracketed stream each substep's row is Succeeded when its code is 0, Failed when it is not, and Running when no finish was seen, with its code and range |
| SubstepRows.RangeIsOwnLines | crates/muli-server/src/execution.rs:364-384 | a row's log range covers a visible line if and only if it is the substep's own |
| SubstepRows.RangesAreDisjoint | crates/muli-server/src/execution.rs:364-384 | the ranges of different substeps are disjoint |
| SubstepRows.OutputToRows | crates/muli-server/src/execution.rs:330-411 | from a job's parsed output to its rows: one row per substep, saying how it ended, or Running without a code if its finish was not recognised |
| SubstepRows.StepRecord.UpdateSubsteps | crates/muli-server/src/execution.rs:330-411 | the loop computes the fold, and not storing an unchanged step loses nothing |
| StepRaces.NothingLostIff | crates/muli-server/src/execution.rs:330-411 | in every interleaving of the executor's and the flusher's updates of a step record none is lost if and only if no write is based on a record whose other fields have changed in between |
| StepRaces.OneAtATimeKeeps | crates/muli-server/src/execution.rs:330-411 | so it is when no update is written while another is between its read and its write |
| StepRaces.VerdictLost | crates/muli-pipeline/src/dag/executor.rs:441-447 | for every record: a verdict entered while the flusher is at work is undone |
| StepRaces.ProgressLost | crates/muli-pipeline/src/dag/executor.rs:372-376 | for every record: progress entered while the executor enters the job is undone |
| HashTemplates.Find | crates/muli-pipeline/src/yaml/hash.rs:14-18 | the first place where the text occurs, and none only if it occurs nowhere |
| HashTemplates.ReplaceRemovesBraces | crates/muli-pipeline/src/yaml/hash.rs:22-23 | replacing a template that occurs by hexadecimal text strictly reduces the opening braces |
| HashTemplates.RoundKeepsPass | crates/muli-pipeline/src/yaml/hash.rs:14-24 | if the replaced template occurs in no other name, replacing all its copies does not change what one pass makes of the string, and takes out just its name |
| HashTemplates.ResolveHashTemplates | crates/muli-pipeline/src/yaml/hash.rs:12-26 | the loop terminates on every template and leaves no opener; it computes `Loop`, about which the lemmas below are |
| HashTemplates.PlainIsPass | crates/muli-pipeline/src/yaml/hash.rs:12-26 | it equals one pass, errors included, when no file name holds an opening brace |
| HashNesting.InsideOnlyAtEnd | crates/muli-pipeline/src/yaml/hash.rs:20-23 | a template occurs strictly inside another only at the end of its name, unless the inner name starts with `) }}` |
| HashNesting.RoundShrinks | crates/muli-pipeline/src/yaml/hash.rs:14-24 | unless a name starts with `) }}`, a round never makes the length of the result to come larger, and makes it smaller if it cuts another name |
| HashNesting.UnnestedIsPass | crates/muli-pipeline/src/yaml/hash.rs:12-26 | unless a name starts with `) }}`: if no name ends with an opener and a name read before it, the loop equals one pass, errors included |
| HashNesting.LoopIsPassIff | crates/muli-pipeline/src/yaml/hash.rs:12-26 | for every template the pass resolves, unless a name starts with `) }}`: the loop equals the pass if and only if nothing is so nested, and otherwise fails or falls short in length |
| HashNesting.NestedNameDiffers | crates/muli-pipeline/src/yaml/hash.rs:12-26 | a family of nested names on which the loop ends with an error |
| HashNesting.UnnestedTailDiffers | crates/muli-pipeline/src/yaml/hash.rs:12-26 | a family with names that start with `) }}` where nothing is nested and the loop still fails |
| HashNesting.MadeUpAgreesIff | crates/muli-pipeline/src/yaml/hash.rs:12-26 | a family with such names where something is nested: the loop equals the pass if and only if two pairs of files have equal hashes |
| HashNesting.HashDecides | crates/muli-pipeline/src/yaml/hash.rs:12-26 | of the same template of that family one hash makes loop and pass agree and another makes them differ |
| HashNesting.LeftOpenAgreesIff | crates/muli-pipeline/src/yaml/hash.rs:12-26 | a family where something is nested and the pass ends with an error: the loop ends with the same one if and only if a file it makes up the name of can be read |

## Left out

- HashNesting.LoopIsPassIff: names that start with `) }}` and templates on which the pass ends with an error are outside the equivalence; there the hashes decide, as `HashDecides` and `LeftOpenAgreesIff` show, and `UnnestedIsPass` gives one direction for errors.
- MarkerRoundTrip.ScriptParses: if it is left open line by line whether there is a timestamp, the output of every substep must end with a line end.
- RepositoryRaces.GoodThroughoutIff: a call of the storage is one step, its existence check and its effect together.
- PriorityQueue.Queue.Pop: the heap is a set with a greatest element, so two entries equal in id, score, tenant and time would be one, and the layout of `BinaryHeap` is not modelled; scores are real numbers, not floating point.
- Scheduler.Loop.DispatchAll: the outcome of each acquire is an argument; polling, notification and shutdown of the loop are not modelled, and no fairness or ageing is claimed, since scores are refreshed only when the queue is empty.
- SubstepMarkers.Parser.ParseOutputLines: time stamps of lines and the wrap-around of the 64-bit line counter are not modelled.
- SubstepRows.StepRecord.UpdateSubsteps: start and finish times of rows are not modelled.
- JobScript.ProgramOutput: a substep's commands are given by their output and exit status; commands that break out of the sub-shell's brackets are not considered.
- DagExecutor.Executor.Execute: building the job, conditions and path filters are not modelled beyond the rows they leave skipped; deadline and polling are part of the given job outcome; every listed run has a definition; nobody else writes the rows meanwhile, and `StepRaces` says when the log flusher does so.
- RepositoryService.Service.Create: paths, slugs, visibility and time stamps of records are not modelled; a repository is its key.
- GitTree.CreateFilesBatch: object storage, commits, references and the splitting of path strings into segments are not modelled.
- JobLifecycle.Server.ExecuteJob: a swap that fails without being refused is a step of the machine (`Abandon`) but not an outcome of the method; log persistence and metrics are not modelled.
- The gRPC agent service, which can also take jobs from the queue.
- Docker, git subprocesses, HTTP, gRPC and SSH transport, webhooks, configuration and metrics: input and output.
- Parsing of CPU and memory strings, validators, access checks, tokens and tenant slugs.
- Registry garbage collection, quotas, heartbeats and agent health.
- Matrix expansion, YAML interpolation and expressions.
