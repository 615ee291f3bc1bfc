# Verification of the pipeline library's execution core

A pipeline is a typed list of stages. A stage is a callable, a selected-output branch
(the first case whose predicate passes consumes the value) or a fan-in (every passing
case runs and the results are gathered in one aggregate). This project models how such a
list is built, run, observed, exported and given state, and proves what the library
promises about it. `dafny verify dfyconfig.toml` checks everything.

| file | subject |
|---|---|
| `core.dfy` | types, values, errors, stages, identities and observer events |
| `thread_pool.dfy`, `thread_pool_progress.dfy`, `thread_pool_object.dfy` | the worker pool: queue, workers, idle waiters, notifications as pending state, destruction; the pool as an object with its task guard |
| `fan_in.dfy`, `fan_in_runtime.dfy`, `fan_in_envelope.dfy` | the sequential fan-in recursion, on values and in place; barrier, cancellation, tally, error envelope |
| `fan_in_parallel.dfy`, `fan_in_invariant.dfy`, `fan_in_refinement.dfy`, `fan_in_trace.dfy` | the parallel fan-in as a step system, its invariant, its agreement with the recursion, its observer contract |
| `fan_in_shutdown.dfy` | a fan-in run whose pool is shut down while it posts |
| `fan_in_backend.dfy` | the thread-pool backend's fan-in on its objects: pool, barrier, token, aggregate, counters |
| `fan_in_on_pool.dfy` | a fan-in run on a shared pool: no deadlock, bounded runs |
| `selected_branch.dfy` | the two implementations of selected-output branches and route selection |
| `engine.dfy`, `pool_engine.dfy`, `trace.dfy` | the executors, their agreement, the shape of their traces |
| `typing.dfy`, `pool_typing.dfy` | the pipeline builder as a typed language, and type soundness of both executors |
| `decimal.dfy`, `descriptor.dfy`, `dot.dfy`, `routes.dfy`, `dot_text.dfy` | identifiers, flattened case records, the exported graph, its paths, its texts |
| `rules.dfy`, `run_rules.dfy`, `trace_rules.dfy`, `fan_in_rules.dfy` | what calls, runs, traces and fan-ins promise, stated on the fields of their results without naming an executor, and the proof that the executors do exactly that |
| `builder_rules.dfy`, `pool_rules.dfy`, `text_rules.dfy`, `graph_document.dfy` | the same for the builder's guards, the pool's posts and waits, exported texts and the exported graph as its reader sees it |
| `state_stack.dfy`, `stateful_engine.dfy` | the per-thread stack of active states and the storage policies |
| `json_string.dfy`, `json_document.dfy`, `json_export.dfy`, `graph_json.dfy` | JSON strings and documents, the error record and the graph exporter |

## How the code is modelled

- A critical section, an observer call and a thread-local action are one step each. Unlocking
  and notifying are separate steps, so a notification on its way is part of the state.
  Condition variables may wake spuriously.
- A stage body and a predicate are total functions from a value to a value, an error or an
  exception. Observers do not throw. The events are kept in order of their reports.
- An observer event of a fan-in carries the case that reported it, so that interleaved logs
  can be compared case by case.
- Builder operations are partial functions; their guards are the static assertions.
- Text is a sequence of characters; a byte is a character below 256, and no claim about text
  depends on that bound. Stage and case indices are unbounded except where a buffer of 20 digits
  is filled, which is proved for all indices below 2^64.

## Where the code does not do what one might expect

- `run` with an error type that cannot be made from a runtime error rethrows an exception
  through the frames of all earlier stages, and each reports it again. `Engine.ForeignRun` gives
  the trace, `Engine.ForeignTraceDiffers` and `Trace.ForeignTraceNesting` say exactly when it
  differs from the trace of `try_run` and when it is not well nested,
  `Trace.ForeignTraceExample` is an instance.
- A type-list join behind a homogeneous branch whose common output is itself a variant passes
  the builder's check with that variant, but is handed the variant's alternatives.
  `Typing.AcceptedButNotCallable` is such a pipeline; `Typing.CallsExistExactly` gives the exact
  condition under which all calls exist.
- `state_stack::pop` removes the newest entry for a state. If frames over the same state are
  destroyed out of order with another state between them, the older frame's entry stays in the
  newer one's place. `StateStack.PopIsExact` gives the exact condition, `StateStack.OutOfOrderExample`
  an instance.
- The observer's documentation (include/pb/runtime/observer.hpp:64-65) promises as many
  case-completed as scheduled events. Through `thread_pool_engine` that holds: the engine owns
  a share of its pool (include/pb/runtime/thread_pool_backend.hpp:389-400) and a pool stops only
  in its destructor (include/pb/runtime/thread_pool.hpp:70-75), so no shutdown happens during a
  run. The functions below the engine, `run_parallel_fan_in_branch` and `run_stages`, borrow the
  pool by reference; if its owner destroys it during a run, a case posted after that is reported
  scheduled and never completed, its slot stays skipped while the tally counts it failed, and the
  run returns an error. `FanInShutdown.PairingHoldsExactly` and `FanInShutdown.RefusedExactly` give
  the exact condition, `FanInShutdown.ShutdownIsACut` everything such a run leaves, and
  `FanInShutdown.RefusedPostExample` an instance.
- With the reset-per-run policy an initial state given to the constructor is overwritten before the
  first run (`StatefulEngine.ResetEngine.TryRun`).
- The early return inside the sequential fan-in recursion (include/pb/runtime/sequential.hpp:813-815)
  is never taken: a case stage files its failure in its slot and always returns success
  (`FanInRuntime.RunCaseStage`, `FanInRuntime.RunCases`).

## Model

| member | source | states |
|---|---|---|
| `FanInRefinement.EveryInterleavingIsSequential` | include/pb/runtime/thread_pool_backend.hpp:239-333 | Main result. For every interleaving of scheduler, worker, stop-request and spurious-wake steps on a running pool, the returned aggregate, the tally, the multiset of events and every case's own event sequence are those of the sequential recursion over the cases before the cut; without a stop request the cut is the case count |
| `FanInRefinement.UncancelledRunIsSequential` | include/pb/runtime/thread_pool_backend.hpp:299-333 | With an unstopped token the parallel run agrees with the sequential run of the same node |
| `FanInRefinement.CancellationIsACut` | include/pb/runtime/thread_pool_backend.hpp:255-284 | A stop raised at any step leaves a cut: slots below it equal the uncancelled run's, failed predicates stay failed everywhere, every other case from it on is skipped |
| `FanInRefinement.TruncateCase` | include/pb/runtime/thread_pool_backend.hpp:260-273 | Declining the passing predicates from the cut on gives exactly the slots and events a raised stop flag gives |
| `FanInRefinement.BarrierIsExact` | include/pb/runtime/thread_pool_backend.hpp:128-162 | In every reachable state cases added equal cases finished plus pending, a finish finds the count positive, and a waiter asleep on an open barrier has a notification on its way |
| `FanInRefinement.OpenBarrierStep` | include/pb/runtime/thread_pool_backend.hpp:317-333 | After the barrier has opened no task step touches a slot, the tally or the log |
| `FanInRefinement.ReturnedIsFinal` | include/pb/runtime/thread_pool_backend.hpp:190-197 | Once the run has returned no later step of any task changes what its caller sees, so the by-reference captures are no longer used |
| `FanInRefinement.LogIsBracketed` | include/pb/runtime/thread_pool_backend.hpp:306-328 | Every returned run logs the node's start first and its completion, with the final tally, last |
| `FanInTrace.ObserverContract` | include/pb/runtime/observer.hpp:61-70 | Over every run: started first, completed last, one scheduled event for each selected case, one later case-completed event for each selected case whose post was not refused; the two counts agree exactly when the run returns a value, which `FanInShutdown.PairingHoldsExactly` puts down to the order of posts and shutdown |
| `FanInTrace.CaseEventsPair` | include/pb/runtime/thread_pool_backend.hpp:195-200 | A finished case logs one scheduled and one case-completed event if it was selected and neither otherwise, the first fourth and the second last among its events |
| `FanInTrace.CountByCase` | include/pb/runtime/observer.hpp:61-70 | Counting events over the interleaved log and counting them case by case give the same number |
| `FanInRefinement.TallyConservation` | include/pb/runtime/thread_pool_backend.hpp:287-327 | Completed equals the completed slots, failed equals the failed slots plus the refused posts, completed never exceeds selected, the three states partition the cases, and the result is an error exactly when a post was refused |
| `FanInShutdown.RefusedExactly` | include/pb/runtime/thread_pool_backend.hpp:178-237 | The post of a case is refused if and only if the pool was shut down before that post |
| `FanInShutdown.ShutdownIsACut` | include/pb/runtime/thread_pool_backend.hpp:239-333 | Main result on shutdown. A pool shut down at any step leaves an index from which on exactly the selected cases are refused; slots, and the tally but for the refused cases, are those of the sequential run of the cases before the earlier of that index and the stop's cut, and each refused case counts as selected and failed |
| `FanInShutdown.ShutdownEvents` | include/pb/runtime/thread_pool_backend.hpp:178-237 | A refused case's events end with its being scheduled; every other case reports as it would on a running pool |
| `FanInShutdown.PairingHoldsExactly` | include/pb/runtime/observer.hpp:61-70 | As many case-completed as scheduled events, and a value as result, if and only if no case is posted after the pool was shut down |
| `FanInShutdown.RefusedMeansLatePost` | include/pb/runtime/thread_pool.hpp:168-178 | A run has refused posts if and only if some case is posted after the shutdown |
| `FanInShutdown.TaskMeansPost` | include/pb/runtime/thread_pool_backend.hpp:178-237 | A case has a task exactly when some step of the run posted it |
| `FanInShutdown.StoppedPoolRefusesAll` | include/pb/runtime/thread_pool_backend.hpp:255-284 | On a pool stopped before the run every selected case is refused, so a value is returned exactly when no case is selected |
| `FanInShutdown.RefusedPostExample` | include/pb/runtime/thread_pool_backend.hpp:178-328 | A run of twelve steps on a stopped pool: one case that passes is reported scheduled and never completed, its slot is skipped, the tally counts it failed, and the run returns the error of the refused post |
| `FanInRules.SequentialCaseByRules` | include/pb/runtime/sequential.hpp:676-818 | Every sequential case on the fields of its slot and events: a yield is completed with its value and no diagnostic, a failing predicate or stage is failed without a value and with the message of its exception or error, a declined case is skipped and empty; the reports of each are listed in order with their identities, errors and success flag |
| `FanInRules.ParallelCaseByRules` | include/pb/runtime/thread_pool_backend.hpp:178-285 | The same for every case of every returned parallel run, stopped or shut down at any step: a case runs unless it is past the cut or its post was refused |
| `FanInRules.CompletedCaseKeepsItsValue` | include/pb/core/pipeline_state.hpp:425-445 | The value a passing case yields is the value in its completed slot, in the sequential run and, below the cut, in every interleaving and in the returned aggregate |
| `FanInRules.ParallelValueByRules` | include/pb/runtime/thread_pool_backend.hpp:299-333 | Without stop and shutdown the parallel run returns an aggregate whose every slot follows its own case's rule |
| `FanInRules.RefusedRunError` | include/pb/runtime/thread_pool.hpp:168-178 | A parallel run returns an error exactly if a post was refused, and then one of the exception category that names no stage and says the pool was stopped |
| `FanInRules.NodeReports` | include/pb/runtime/thread_pool_backend.hpp:306-328 | Every returned run reports its case count first and last the numbers of selected, completed and failed cases, each as the size of the set of such cases |
| `FanInRules.SequentialNodeReports` | include/pb/runtime/sequential.hpp:829-848 | The sequential run reports the same numbers around its cases |
| `FanInRules.BranchForMeans` | include/pb/runtime/sequential.hpp:133-157 | A node runs its own cases on its input under the identities that keys, names and case numbers give: declared keys, or the node's key with the case number and the role |
| `FanInRefinement.FailedSlotsCount` | include/pb/runtime/thread_pool_backend.hpp:317-327 | Rejected predicates plus selected cases equal failed plus completed slots plus refused posts, for every prefix of the cases |
| `FanInRefinement.CompletedAtMostSelected` | include/pb/runtime/thread_pool_backend.hpp:323-326 | The subtraction of completed from selected never underflows, for every prefix of the cases |
| `FanInRefinement.SequentialRun` | include/pb/runtime/sequential.hpp:766-848 | The sequential recursion as a table: every slot, the tally and each case's events in terms of that case's predicate and stage alone; `FanInRules.SequentialCaseByRules` says on their fields what these slots and events are |
| `FanInRefinement.RunFanInCaseTable` | include/pb/runtime/sequential.hpp:787-818 | One sequential case files its own slot, logs its own events and adds its own share to the tally |
| `FanInRefinement.SameProjections` | include/pb/runtime/observer.hpp:61-70 | Two logs with the same events for every owner are permutations of each other |
| `ParallelFanInInvariant.RunsInv` | include/pb/runtime/thread_pool_backend.hpp:128-333 | The invariant of the step system (per-case logs and slots, tally, barrier, error, cut) holds in every state of every run |
| `ParallelFanInInvariant.NextInv` | include/pb/runtime/thread_pool_backend.hpp:178-333 | Every step of the scheduling thread, of any task, of a stop request, of a pool shutdown and every spurious wake-up keeps the invariant |
| `ParallelFanInInvariant.CaseStepInv` | include/pb/runtime/thread_pool_backend.hpp:239-285 | A step of the scheduling thread inside a case keeps the invariant for that case and all others |
| `ParallelFanInInvariant.TaskInvariant` | include/pb/runtime/thread_pool_backend.hpp:190-207 | A step of a posted task keeps the invariant for its own case and all others |
| `ParallelFanInInvariant.TaskBarrier` | include/pb/runtime/thread_pool_backend.hpp:135-146 | A finishing task finds the pending count positive and keeps the barrier's count exact |
| `FanInRuntime.TaskGroup.constructor` | include/pb/runtime/thread_pool_backend.hpp:157-161 | A new barrier has nothing added and no error |
| `FanInRuntime.TaskGroup.Add` | include/pb/runtime/thread_pool_backend.hpp:130-133 | Adding raises the count by one and keeps the outcomes |
| `FanInRuntime.TaskGroup.Finish` | include/pb/runtime/thread_pool_backend.hpp:135-146 | Finishing records the outcome, lowers the count by one and keeps the earliest error |
| `FanInRuntime.TaskGroup.TryWait` | include/pb/runtime/thread_pool_backend.hpp:148-155 | A waiter passes exactly when every added task has finished and gets the error of the earliest failing finish |
| `FanInRuntime.FirstFailureIsEarliest` | include/pb/runtime/thread_pool_backend.hpp:138-140 | The kept error is that of the first failing finish in the order of the finishes |
| `FanInRuntime.CancellationToken.StopRequested` | include/pb/runtime/cancellation.hpp:42-69 | A token reports a stop exactly when one was requested through its source at some earlier time, before or after the token was handed out; a default token never does |
| `FanInRuntime.CancellationSource.constructor` | include/pb/runtime/cancellation.hpp:61-65 | A new source has a fresh flag with no request made |
| `FanInRuntime.CancellationSource.RequestStop` | include/pb/runtime/cancellation.hpp:66-66 | A request adds to the requests made and takes none back, so every token of the source counts as requested to stop from then on |
| `FanInRefinement.RunsFlags` | include/pb/runtime/cancellation.hpp:42-69 | Over any run the stop flag is up exactly if a stop request is among the steps, and the pool's stop flag exactly if a shutdown is: nothing else raises either and nothing lowers it |
| `FanInRuntime.RunOneCase` | include/pb/runtime/sequential.hpp:787-818 | One case in place: aggregate, counters and log after it are those of the specified case step |
| `FanInRuntime.RunCaseStage` | include/pb/runtime/sequential.hpp:676-733 | The case stage overwrites its own slot with its completed or failed record and logs start, close and failure |
| `FanInRuntime.RunCases` | include/pb/runtime/sequential.hpp:766-826 | The recursion in place equals the recursion on values from any case on |
| `FanInRuntime.RunBranch` | include/pb/runtime/sequential.hpp:829-848 | The in-place branch run on a fresh aggregate equals the specified sequential fan-in |
| `FanInRuntime.TallyCompletions` | include/pb/runtime/thread_pool_backend.hpp:287-297 | The loop adds exactly the number of completed slots |
| `FanInRuntime.CollectErrors` | include/pb/runtime/fan_in_error.hpp:129-171 | The collected envelope holds the failure records of the aggregate |
| `FanInEnvelope.EnvelopeIsExact` | include/pb/runtime/fan_in_error.hpp:129-171 | The records are exactly the failed slots, once each, by strictly increasing case index, as many as there are failed slots |
| `FanInEnvelope.EnvelopeMatchesTally` | include/pb/runtime/fan_in_error.hpp:129-171 | After a parallel run the envelope holds as many records as the tally reports failed, exactly when no post was refused |
| `TextRules.FailureRecordsByRules` | include/pb/runtime/fan_in_error.hpp:120-145 | Each record carries a made-up identity with the case's number, the stage-failure category and its slot's message |
| `FanInRuntime.CaseResult.constructor` | include/pb/core/pipeline_state.hpp:411-418 | A new slot is skipped, without value and diagnostic |
| `FanInRuntime.CaseResult.Complete` | include/pb/core/pipeline_state.hpp:431-436 | A completion leaves the value and no diagnostic, whatever the slot held: state completed, the value kept, the diagnostic cleared |
| `FanInRuntime.CaseResult.Fail` | include/pb/core/pipeline_state.hpp:438-442 | A failure leaves the message and no value, whatever the slot held |
| `FanInBackend.PostFanInCase` | include/pb/runtime/thread_pool_backend.hpp:178-237 | A post adds to the barrier first; on a running pool the case joins the queue, on a stopped one it is finished at once with the error |
| `FanInBackend.ScheduleCase` | include/pb/runtime/thread_pool_backend.hpp:239-285 | One case on the scheduling thread, in place: predicate events, then the post, the skip or the failure with its slot, its count and its events |
| `FanInBackend.ScheduleCases` | include/pb/runtime/thread_pool_backend.hpp:239-285 | After the scheduling recursion the queue holds exactly the selected cases in order, the barrier counts them, and every slot, count and event is that of the schedule |
| `FanInBackend.RunPostedTask` | include/pb/runtime/thread_pool_backend.hpp:190-207 | A posted task files its own slot, reports, finishes at the barrier without an error and leaves the pool's active count and the thread's mark as before |
| `FanInBackend.DrainQueue` | include/pb/runtime/thread_pool_backend.hpp:190-207 | A worker that drains the queue runs every posted case once: afterwards all slots and events are final and every added case has finished |
| `FanInBackend.CloseRun` | include/pb/runtime/thread_pool_backend.hpp:317-328 | After the barrier the completed tally and the completion event make slots, tally and every owner's events those of the sequential run |
| `FanInBackend.RunParallelFanInBranch` | include/pb/runtime/thread_pool_backend.hpp:299-333 | The backend on its real parts, served by one worker on an idle pool: slots, tally and events of the sequential run, nothing selected if a stop was requested before, and the pool idle again; what those are, field by field, is `FanInRules.SequentialCaseByRules` |
| `FanInBackend.DrainedIsSequential` | include/pb/runtime/thread_pool_backend.hpp:317-327 | Slots, events and completed counts of a drained run are those of the sequential recursion over the truncated node |
| `ThreadPool.RunsKeepInv` | include/pb/runtime/thread_pool.hpp:46-216 | In every reachable pool state tasks are conserved and no wake-up is lost |
| `ThreadPool.NextNoLostTask` | include/pb/runtime/thread_pool.hpp:86-123 | While a worker sleeps every queued task has an awake worker or its own undelivered notification, after every step |
| `ThreadPool.NextNoLostStop` | include/pb/runtime/thread_pool.hpp:70-79 | A stopped pool with a sleeping worker has a broadcast pending, and a worker exits only from a stopped, empty pool |
| `ThreadPool.NextNoLostIdle` | include/pb/runtime/thread_pool.hpp:144-148 | A sleeping idle waiter in an idle pool has an idle notification on its way |
| `ThreadPool.NextConserved` | include/pb/runtime/thread_pool.hpp:52-68 | Accepted tasks are those started, in order, followed by those queued; started tasks are those in hand or finished; the active count is the number of running workers |
| `ThreadPool.NextWork` | include/pb/runtime/thread_pool.hpp:204-216 | Every finish finds the active count positive, and tasks move only from queue to hand to finished |
| `ThreadPoolProgress.PoolConservation` | include/pb/runtime/thread_pool.hpp:46-216 | Over every run: acceptance order is start order, accepted tasks are queued, active or finished, active never exceeds the worker count |
| `ThreadPoolProgress.SleepersLeaveNoTaskBehind` | include/pb/runtime/thread_pool.hpp:52-68 | No lost wake-up, in plain terms: in any reachable state a non-empty queue has a worker that is neither asleep nor gone, or a notification on its way; while a worker sleeps there are enough of them for all queued tasks, and on a stopped pool a broadcast is on its way |
| `ThreadPoolProgress.StepDecreases` | include/pb/runtime/thread_pool.hpp:46-79 | Every internal step lowers a natural-number measure |
| `ThreadPoolProgress.InternalRunsAreBounded` | include/pb/runtime/thread_pool.hpp:46-79 | A run of internal steps is no longer than the measure of the state it starts from |
| `ThreadPoolProgress.StuckIsDrained` | include/pb/runtime/thread_pool.hpp:46-79 | A state without an enabled internal step has an empty queue, no active task, no sleeping idle waiter, and, once stopped, only exited workers |
| `ThreadPoolProgress.EveryMaximalRunDrains` | include/pb/runtime/thread_pool.hpp:70-79 | Main result on the pool. From every reachable state every maximal internal run is finite and ends drained, so every accepted task has run and the destructor's joins succeed |
| `ThreadPoolObject.Pool.Enqueue` | include/pb/runtime/thread_pool.hpp:86-100 | A post is accepted exactly on a pool that is not stopped, and then joins the end of the queue |
| `ThreadPoolObject.Pool.EnqueueRange` | include/pb/runtime/thread_pool.hpp:102-123 | A range is accepted whole, in order, or refused whole |
| `ThreadPoolObject.Pool.TakeTask` | include/pb/runtime/thread_pool.hpp:53-60 | A worker sleeps, leaves, or takes the oldest task and counts it active |
| `ThreadPoolObject.Pool.FinishTask` | include/pb/runtime/thread_pool.hpp:204-216 | A finish lowers the active count and asks for an idle notification exactly when the pool has become idle |
| `ThreadPoolObject.Pool.RequestStop` | include/pb/runtime/thread_pool.hpp:70-75 | Destruction raises the stop flag and leaves the queue |
| `ThreadPoolObject.Pool.Snapshot` | include/pb/runtime/thread_pool.hpp:125-142 | The counts are those of one state and are both zero exactly when the pool is idle |
| `ThreadPoolObject.ActiveTaskGuard.constructor` | include/pb/runtime/thread_pool.hpp:181-183 | The guard marks its thread as running a task of the pool and remembers the mark that was there |
| `ThreadPoolObject.ActiveTaskGuard.Release` | include/pb/runtime/thread_pool.hpp:185-188 | The end of a task puts back the mark that was there before it and finishes the task at its pool |
| `ThreadPoolObject.WorkerTurn` | include/pb/runtime/thread_pool.hpp:50-68 | One turn of the worker loop whose task asks for an idle wait: the wait is refused, and afterwards the thread is marked as before and only the oldest task is gone from the pool |
| `ThreadPoolProgress.SelfWaitNeverPasses` | include/pb/runtime/thread_pool.hpp:198-202 | Why idle waits are refused inside a task: while a task runs the pool is never idle, so such a wait could never pass |
| `PoolRules.ReturnedWaitSawIdle` | include/pb/runtime/thread_pool.hpp:144-148 | Main result on idle waits. A wait that has returned had begun by a moment of the run at which the queue was empty, no task was active and every task accepted until then had finished |
| `PoolRules.StoppedPoolAcceptsNothing` | include/pb/runtime/thread_pool.hpp:70-75 | A stopped pool stays stopped and accepts nothing more |
| `PoolRules.PostsByRules` | include/pb/runtime/thread_pool.hpp:86-123 | A post or range joins the queue whole and last with one notification on its way; on a stopped pool nothing changes |
| `PoolRules.WorkerTestByRules` | include/pb/runtime/thread_pool.hpp:53-60 | A worker takes the oldest task and counts as active, or leaves a stopped empty pool, or sleeps |
| `PoolRules.WorkerCount` | include/pb/runtime/thread_pool.hpp:46-52 | A pool asked for no threads gets one, and the number never changes |
| `ThreadPoolProgress.QueuedTaskKeepsItsTurn` | include/pb/runtime/thread_pool.hpp:52-68 | First in, first out under any further posts: the task at place i of the queue starts with the pool's take i + 1 from now, however many tasks clients post meanwhile |
| `FanInOnPool.NextInv` | include/pb/runtime/thread_pool_backend.hpp:178-333 | Every step of the product of a fan-in run and a shared pool keeps both invariants and their link: a case is in the pool exactly while its task has steps left |
| `FanInOnPool.StuckHasReturned` | include/pb/runtime/thread_pool_backend.hpp:317-333 | The product has no deadlock: where no internal step is enabled the run has returned and the pool is drained |
| `FanInOnPool.StepDecreases` | include/pb/runtime/thread_pool_backend.hpp:239-333 | Every internal step of the product lowers a natural-number measure |
| `FanInOnPool.RunsProject` | include/pb/runtime/thread_pool_backend.hpp:178-237 | The fan-in part of any run on the pool is a run of the fan-in step system |
| `FanInOnPool.InternalRunEnds` | include/pb/runtime/thread_pool_backend.hpp:299-333 | From every reachable state of the product some internal run ends |
| `FanInOnPool.FanInAlwaysReturns` | include/pb/runtime/thread_pool_backend.hpp:299-333 | Main result on liveness. A fan-in run among other clients' tasks returns after a bounded number of its own and the pool's steps, with the sequential result if nobody asked for a stop |
| `SelectedBranch.FoldCases` | include/pb/runtime/sequential.hpp:577-612 | The flag fold gives the result and the events of the recursion over the cases, for every case list |
| `SelectedBranch.ProcessCase` | include/pb/runtime/sequential.hpp:584-605 | One undecided visit sets the match flag, the error flag and the output from the predicate's verdict |
| `SelectedBranch.EvaluatePredicate` | include/pb/runtime/sequential.hpp:404-432 | A predicate is bracketed by its start and the event of its verdict |
| `SelectedBranch.RunBranchStage` | include/pb/runtime/sequential.hpp:435-463 | The selected stage is bracketed by its start and its close; a success sits at the variant index of its case |
| `SelectedBranch.RunCasesVisits` | include/pb/runtime/sequential.hpp:474-574 | The recursion visits one case and continues exactly after a predicate that says no |
| `SelectedBranch.RunCasesClosed` | include/pb/runtime/sequential.hpp:474-574 | The recursion from any case is the skips up to the decisive predicate followed by the run from there |
| `SelectedBranch.BranchRunsTheRoutedCase` | include/pb/runtime/sequential.hpp:393-641 | A branch evaluates no predicate after the decisive one, runs the case route selection would choose, places its value at that case's variant index, and fails with the predicate's error or with no selection otherwise; the errors' own fields are those of `RunRules.StageByRules` and `RunRules.UnselectedBranch` |
| `RunRules.UnselectedBranch` | include/pb/runtime/sequential.hpp:465-471 | If every predicate says no, the branch fails as a contract violation under its own identity and with the fixed message, behind the branch's name when it leaves the stage |
| `TraceRules.BranchTraceByRules` | include/pb/runtime/sequential.hpp:403-612 | All a selected branch reports, position by position: three events for each case that declines, then the predicate that decides and, if it says yes, the selection and the stage's start and close |
| `SelectedBranch.Decisive` | include/pb/runtime/sequential.hpp:584-605 | The decisive case is the first whose predicate does not say no |
| `SelectedBranch.SelectRoute` | include/pb/runtime/routing.hpp:46-62 | The index loop returns the first matching case, and the two refusals exactly on a count mismatch and on no match |
| `SelectedBranch.FirstMatchIsFirst` | include/pb/runtime/routing.hpp:54-58 | The first match is a match with none before it, and is missing exactly when nothing matches |
| `Engine.RunMeetsTryRun` | include/pb/runtime/sequential.hpp:873-1087 | Main result on run. With runtime errors run and try_run report the same events and give the same value or error; where no stage returns a result, run throws exactly where try_run returns an exception error |
| `Engine.RunAfterIsTryRun` | include/pb/runtime/sequential.hpp:923-972 | The result-returning executor with runtime errors is try_run, event for event, from any stage on |
| `Engine.RunPlainIsTryRun` | include/pb/runtime/sequential.hpp:981-1026 | Without result-returning stages the plain executor logs what try_run logs and lets the same exception of the same stage escape |
| `Engine.TryRunStops` | include/pb/runtime/sequential.hpp:874-914 | try_run returns an error exactly when some stage stops it, and then that stage's own error under that stage's identity; `RunRules.StoppingErrorByRules` spells that error out |
| `RunRules.TryRunByRules` | include/pb/runtime/sequential.hpp:285-914 | Main result on meaning. try_run returns a result if and only if a relation on the stages' own callables, which names no executor, lets the run end with it; the relation fixes every value, variant index, slot, identity, category and message |
| `RunRules.StageByRules` | include/pb/runtime/sequential.hpp:94-123 | One stage, of any of the three kinds, makes of a value exactly the one outcome its rule allows |
| `RunRules.StoppingErrorByRules` | include/pb/runtime/sequential.hpp:351-391 | The error of a stopped run by how its stage ended: an exception's own text or the fixed one under the exception category, a foreign error's text under the expected category, both with the stage's identity; a runtime error as it is, the stage filled in only where it named none |
| `TraceRules.StageTraceByRules` | include/pb/runtime/sequential.hpp:873-914 | A stage reports its start, its inside, and a close that carries its identity and the error the rules give; later stages follow only a success |
| `TraceRules.FanInTraceByRules` | include/pb/runtime/sequential.hpp:764-848 | What a fan-in stage adds to a run's trace: the node's start and completion with its numbers, and in between every case by its rule |
| `Engine.StopOf` | include/pb/runtime/sequential.hpp:874-914 | The stopping stage is in range and did not yield |
| `Engine.ErrorsNameAStage` | include/pb/runtime/sequential.hpp:285-386 | Every error of try_run carries the identity of a stage |
| `Engine.InnermostIdentityIsKept` | include/pb/runtime/sequential.hpp:285-332 | An error that already names a stage passes through try_run unchanged |
| `Engine.BranchErrorKeepsItsSource` | include/pb/runtime/sequential.hpp:614-641 | A failing branch keeps identity and category of the decisive predicate's, the selected stage's or the no-selection error and its message as an ending; the branch name is put in front exactly of a message that is there |
| `Engine.ForeignRun` | include/pb/runtime/sequential.hpp:955-971 | run with an error type that cannot hold a runtime error: the trace of try_run, failures recategorized, followed by an exception event of every earlier stage when a stage throws |
| `Engine.ForeignTraceDiffers` | include/pb/runtime/sequential.hpp:955-971 | The two traces differ in length exactly when a stage other than the first throws |
| `TraceRules.ForeignRejectByRules` | include/pb/runtime/sequential.hpp:955-971 | A run with a foreign error type hands the error back unchanged and reports it last, under its stage, as a stage failure with the same text |
| `TraceRules.ForeignThrowByRules` | include/pb/runtime/sequential.hpp:955-971 | An exception escapes it unchanged and is last reported by the first stage, with the exception's text |
| `Engine.FrameAgreement` | include/pb/runtime/sequential.hpp:939-971 | An outer frame keeps the agreement and adds one exception event of its own to what escapes |
| `Engine.RunRange` | include/pb/runtime/sequential.hpp:1089-1123 | The loop over a range gives each input its own result, in order, and the events of the runs one after another |
| `Engine.TryRunRange` | include/pb/runtime/sequential.hpp:1089-1123 | try_run over a range is try_run of each input |
| `PoolEngine.PoolRunIsCutRun` | include/pb/runtime/thread_pool_backend.hpp:239-383 | Main result on the pool executor. Whatever the interleavings and whenever a stop is requested, a run of a whole pipeline is a sequential run in which each fan-in node declines its cases from some index on: from none without a request by its end, all of them if the request came before it; results equal, events equal up to order |
| `PoolEngine.PoolRunIsTryRun` | include/pb/runtime/thread_pool_backend.hpp:350-383 | Without a stop request every run of the thread-pool executor returns what try_run returns and reports the same multiset of events; without fan-in nodes the same sequence, stop or no stop |
| `PoolEngine.InvokesMatches` | include/pb/runtime/thread_pool_backend.hpp:335-348 | A stage invoked through the pool has the outcome and, up to order, the events of its sequential invocation with a cut, whatever the interleaving |
| `PoolEngine.StoppedBeforeSelectsNone` | include/pb/runtime/thread_pool_backend.hpp:260-267 | A fan-in whose token is stopped before it starts selects no case |
| `PoolEngine.UncutIsTryRun` | include/pb/runtime/thread_pool_backend.hpp:260-267 | Without a stop request the cuts are full, and full cuts cut nothing |
| `PoolEngine.PoolRunEnds` | include/pb/runtime/thread_pool_backend.hpp:350-383 | Every pipeline has a returning run on the pool |
| `Trace.TryRunIsNested` | include/pb/runtime/sequential.hpp:873-914 | Main result on traces. Every try_run log is well nested; its outermost stages are a prefix of the list, nothing starts after a non-success, and the result is an error exactly when the last outermost close is not a success |
| `Trace.InvocationIsNested` | include/pb/runtime/sequential.hpp:94-123 | What a stage reports from inside is well nested, for plain, selected-branch and fan-in stages |
| `Trace.SelectedBranchIsNested` | include/pb/runtime/sequential.hpp:403-463 | Every selected-branch log is well nested |
| `Trace.FanInIsNested` | include/pb/runtime/sequential.hpp:764-848 | Every sequential fan-in log is well nested |
| `Trace.FanInCaseIsNested` | include/pb/runtime/thread_pool_backend.hpp:195-232 | The events of one fan-in case are well nested on either backend, with or without a stop |
| `Trace.NestBelow` | include/pb/runtime/sequential.hpp:229-282 | A trace that closes all it opens reads the same under any open stages |
| `Trace.OutermostStage` | include/pb/runtime/sequential.hpp:873-914 | A stage in front of a trace contributes its start and close to the outermost events and hides what is inside |
| `Trace.ForeignTraceNesting` | include/pb/runtime/sequential.hpp:955-971 | The trace of run with a foreign error type is well nested exactly when no stage after the first throws |
| `Trace.ForeignTraceExample` | include/pb/runtime/sequential.hpp:955-971 | Two stages, the second of which throws: try_run logs four events, run with a foreign error type five, badly nested, and the exception escapes |
| `Typing.TypeSoundness` | include/pb/core/pipeline_state.hpp:691-865 | Main result on types. Every pipeline built by any accepted sequence of operations hands every stage, predicate and case stage an argument of its declared type that its callable accepts, and a success has the sink's type; the one guard is on the joins that `CallsExistExactly` singles out |
| `BuilderRules.CallsAreAccepted` | include/pb/runtime/sequential.hpp:94-123 | Whatever value reaches a stage of a built pipeline, its callables accept what they are handed: a type the stage declares, except at a join of a common variant, and the input of every predicate and case stage |
| `BuilderRules.SuccessFillsTheSink` | include/pb/core/pipeline_state.hpp:777-781 | A success the rules allow has the sink's shape: its tag, an alternative in range, or one slot for each case |
| `PoolTyping.PoolRunIsTyped` | include/pb/runtime/thread_pool_backend.hpp:350-383 | Every run of a built pipeline on the pool, at whatever step a stop is requested, is a cut run that is safe for every callee, and its success has the sink's type |
| `Typing.BuilderIsExact` | include/pb/core/pipeline_state.hpp:691-865 | The builder accepts exactly the well-typed stage lists: some sequence of operations builds a list if and only if every stage fits what reaches it; what fits is spelled out operation by operation in `BuilderRules` |
| `BuilderRules.BranchByRules` | include/pb/core/pipeline_state.hpp:856-865 | A branch is accepted if and only if it has cases and every predicate's and stage's input is the current type; it leaves the common output, or the variant of all outputs in case order |
| `BuilderRules.ThenByRules` | include/pb/core/pipeline_state.hpp:692-703 | A plain step is accepted if and only if the stage's input is the current type |
| `BuilderRules.JoinByRules` | include/pb/core/pipeline_state.hpp:723-743 | A join behind a branch is accepted if and only if it takes the unified output, or names all outputs in order and can be invoked with each |
| `BuilderRules.FanInByRules` | include/pb/core/pipeline_state.hpp:749-771 | A fan-in join behind a branch is accepted if and only if it takes the aggregate of all outputs in order and every predicate can be invoked; it turns the branch into a fan-in of the same cases |
| `BuilderRules.JoinsNeedABranch` | include/pb/core/pipeline_state.hpp:723-771 | Neither join is accepted without a branch right before it |
| `BuilderRules.BuildByRules` | include/pb/core/pipeline_state.hpp:705-717 | Operations are carried out from left to right, from the input type on, and stop at the first that is not accepted |
| `BuilderRules.HeterogeneousBranch` | include/pb/core/pipeline_state.hpp:309-328 | A branch of two cases with different outputs is accepted with the variant of both |
| `Typing.ApplyKeepsTyping` | include/pb/core/pipeline_state.hpp:691-772 | Every accepted operation, fan-in's replacement of the last node included, keeps the stage list typed and the current type right |
| `Typing.TypedIsBuilt` | include/pb/core/pipeline_state.hpp:691-772 | A sequence of operations can be read off any well-typed list |
| `Typing.CallsExistExactly` | include/pb/runtime/sequential.hpp:67-78 | Every call the executors instantiate exists, except exactly where a type-list join follows a homogeneous branch with a variant output and does not take each of its alternatives |
| `Typing.AcceptedButNotCallable` | include/pb/core/pipeline_state.hpp:132-143 | A concrete pipeline the builder accepts whose join is instantiated with a type it does not take |
| `Typing.ReachedStageIsSafe` | include/pb/runtime/sequential.hpp:94-123 | A value of the reaching type gives every callee an argument it declares and accepts |
| `Typing.SelectedBranchIsTyped` | include/pb/runtime/sequential.hpp:393-401 | A selected branch returns a value of its unified type, the variant index being the case index |
| `Typing.FanInIsTyped` | include/pb/core/pipeline_state.hpp:425-445 | A fan-in returns an aggregate whose filled slots hold values of their cases' types |
| `Typing.TypedRun` | include/pb/runtime/sequential.hpp:873-914 | From any stage on, a run on a value of the reaching type is safe and its success has the type that leaves the list |
| `Decimal.DecimalDigits` | include/pb/runtime/descriptor.hpp:110-117 | Counting by repeated division gives the length of the decimal text |
| `Decimal.ReadRender` | include/pb/runtime/descriptor.hpp:110-144 | Reading a decimal text gives back the number, for every number |
| `Decimal.RenderFitsScratch` | include/pb/runtime/descriptor.hpp:130-140 | Every 64-bit index has at most 20 decimal digits |
| `TextRules.DecimalByRules` | include/pb/runtime/descriptor.hpp:110-140 | A number's text is that of its tenth part followed by its last digit, and the ten digits are the usual ones |
| `Decimal.ConstevalBuffer.AppendLiteral` | include/pb/runtime/descriptor.hpp:124-128 | A literal is appended behind what was written |
| `Decimal.ConstevalBuffer.CollectDigits` | include/pb/runtime/descriptor.hpp:130-136 | The scratch array holds the digits last first and never overflows |
| `Decimal.ConstevalBuffer.AppendDecimal` | include/pb/runtime/descriptor.hpp:130-140 | The digits are appended in reading order |
| `Decimal.ConstevalBuffer.NullTerminate` | include/pb/runtime/descriptor.hpp:142-142 | The terminator goes behind the text and leaves the view unchanged |
| `Decimal.MakeIdStorage` | include/pb/runtime/descriptor.hpp:147-188 | Each identifier fills its storage exactly: the text and one terminator |
| `Decimal.CaseIdInjective` | include/pb/runtime/descriptor.hpp:147-202 | The identifiers of cases, predicate nodes and stage nodes never collide across branches, cases and roles |
| `Descriptor.FillBranchCaseRecords` | include/pb/runtime/descriptor.hpp:417-440 | The offset loop fills an array of exactly the total size with the records of all stages in order |
| `Descriptor.CollectOne` | include/pb/runtime/descriptor.hpp:424-436 | One stage writes its records at the offset, leaves the rest alone and moves the offset past them |
| `Descriptor.FlatteningIsExact` | include/pb/runtime/descriptor.hpp:417-472 | Filtering the flat records by stage index gives that stage's cases in order and nothing for other indices |
| `Dot.EmitDot` | include/pb/core/export_dot.hpp:178-207 | The emitter, which filters the flat records in each of its loops, writes exactly the graph specified from the stage list |
| `Dot.AppendBranchStage` | include/pb/core/export_dot.hpp:111-124 | A branch stage writes its diamond and the block of each of its own cases |
| `Dot.EmitCaseExits` | include/pb/core/export_dot.hpp:288-320 | The filter loops write one edge from each case of the stage to the next node |
| `Dot.EmitAllEdges` | include/pb/core/export_dot.hpp:241-320 | Input edge, adjacent edges and output edges are the exits of the stages in order, also for an empty pipeline |
| `Dot.GraphIsExact` | include/pb/core/export_dot.hpp:81-320 | The lines declare exactly the nodes and draw exactly the edges of the pipeline's graph, each once |
| `Routes.PathsAreChoices` | include/pb/core/export_dot.hpp:241-320 | Main result on graphs. The paths from input to output are in bijection with choosing one case at each branch stage, so their number is the product of the case counts |
| `Routes.ChainIsRoute` | include/pb/core/export_dot.hpp:241-320 | A chain of edges from a stage's entry to the output is the route of some choice |
| `Routes.RouteInjective` | include/pb/core/export_dot.hpp:241-320 | Different choices have different routes |
| `Routes.ChoicesAreAll` | include/pb/runtime/descriptor.hpp:310-318 | The enumeration lists every choice once, as many as the product of the case counts |
| `Routes.EveryNodeIsOnAPath` | include/pb/core/export_dot.hpp:81-124 | Every declared node lies on a path from input to output |
| `Routes.SuccessfulRunFollowsAPath` | include/pb/runtime/sequential.hpp:576-612 | A successful run of any pipeline reports as selected in its selected-output branches exactly the cases on a path of the graph, and its value is what the stages on that path compute; through a fan-in the path may take any case |
| `Routes.NodeNameInjective` | include/pb/core/export_dot.hpp:81-124 | Different nodes have different names in the exported text |
| `TextRules.NodeNamesByRules` | include/pb/core/export_dot.hpp:81-124 | The names of nodes, from their kind and numbers |
| `DotText.AppendLabel` | include/pb/core/export_dot.hpp:34-64 | The label loop writes the quoted label |
| `DotText.LabelRoundTrip` | include/pb/core/export_dot.hpp:34-64 | A quoted label is read back exactly, whatever follows: it neither ends its quotes early nor breaks its line |
| `TextRules.LabelEscapesByRules` | include/pb/core/export_dot.hpp:34-64 | Labels escape five characters, each as itself behind a backslash or by its letter, and copy all others |
| `DotText.SanitizeIdentifier` | include/pb/core/export_dot.hpp:17-32 | The in-place rewrite yields an identifier, keeps every legal character in place, and leaves a name alone exactly when it is an identifier |
| `StateStack.ThreadStack.Push` | include/pb/runtime/state.hpp:171-171 | A push puts the state on top |
| `StateStack.ThreadStack.Pop` | include/pb/runtime/state.hpp:173-187 | A pop removes the newest entry for the state, from any depth, and nothing else |
| `StateStack.PoppedRemovesLast` | include/pb/runtime/state.hpp:173-187 | Removing the newest entry is removing the last index that holds the state |
| `StateStack.StackIsLiveFrames` | include/pb/runtime/state.hpp:157-218 | For frames over distinct live states, destroyed in any order, the stack is the live frames in push order and the active state is the newest |
| `StateStack.PopIsExact` | include/pb/runtime/state.hpp:173-187 | Without distinctness the stack stays right exactly when all frames from the destroyed one up to the newest over its state are over that state |
| `StateStack.OutOfOrderExample` | include/pb/runtime/state.hpp:173-187 | Three frames over two states destroyed out of order leave the wrong state active |
| `StateStack.NestedFramesRestoreStack` | include/pb/runtime/state.hpp:196-246 | For lexically nested frames, re-entrant ones and ones left by a throw included, the stack on exit is the stack on entry and every read sees the frame around it |
| `StatefulEngine.OwnedEngine.TryRun` | include/pb/runtime/state.hpp:404-412 | One run moves the owned state and restores the thread's stack |
| `StatefulEngine.OwnedEngine.TryRunRange` | include/pb/runtime/state.hpp:414-429 | A range of runs is the left fold of the state over the inputs |
| `StatefulEngine.ResetEngine.TryRun` | include/pb/runtime/state.hpp:277-277 | A reset run starts from the default state whatever was there |
| `StatefulEngine.ResetEngine.TryRunRange` | include/pb/runtime/state.hpp:404-429 | Every result depends on its own input alone |
| `StatefulEngine.RunAllConcat` | include/pb/runtime/state.hpp:414-429 | Splitting a range does not change results or final state |
| `StatefulEngine.ThreadTable.Active` | include/pb/runtime/state.hpp:308-317 | A thread's slot is created from the seed on first access and kept afterwards; other slots stay |
| `StatefulEngine.ThreadLocalEngine.TryRun` | include/pb/runtime/state.hpp:281-318 | One run moves the calling thread's slot, made from the seed if it was missing, leaves every other slot, and restores the thread's stack |
| `StatefulEngine.ThreadLocalEngine.TryRunRange` | include/pb/runtime/state.hpp:414-429 | A range of runs is the left fold of the calling thread's slot over the inputs |
| `StatefulEngine.NonInterference` | include/pb/runtime/state.hpp:281-318 | In any interleaving a thread's slot, its run in flight and its results are those of its own steps alone |
| `StatefulEngine.ThreadsRunAsIfAlone` | include/pb/runtime/state.hpp:281-318 | Main result on per-thread state. In any interleaving a thread that runs some inputs gets the results and final state of running them alone from the seed |
| `StatefulEngine.ProgramAlone` | include/pb/runtime/state.hpp:392-429 | The steps of a thread's runs, taken alone, are the fold of whole runs from the seed |
| `JsonString.AppendJsonString` | src/runtime/error.cpp:11-48 | The error record's escaper appends the specified JSON string, for every byte string |
| `JsonString.AppendGraphJsonString` | include/pb/core/export_json.hpp:15-55 | The graph exporter's escaper appends the same output on every byte string |
| `JsonString.AppendFormatted` | src/runtime/error.cpp:14-45 | Control bytes printed through the format are escaped as specified |
| `JsonString.AppendLookedUp` | include/pb/core/export_json.hpp:19-53 | Control bytes taken from the digit table are escaped as specified |
| `JsonString.QuoteIsLegal` | src/runtime/error.cpp:11-48 | The output is a string under section 7 of RFC 8259, for every byte string |
| `JsonString.ReadQuote` | src/runtime/error.cpp:11-48 | A reader of JSON strings is a left inverse, whatever follows the string |
| `JsonString.ReadStringIsLegal` | src/runtime/error.cpp:11-48 | The reader reads nothing but legal strings |
| `JsonDocument.ReadText` | include/pb/core/export_json.hpp:167-207 | Every document tree is read back from its text, whatever follows |
| `JsonDocument.RoundTrip` | include/pb/core/export_json.hpp:167-207 | Reading inverts writing, for every tree of numbers, strings, arrays and objects |
| `TextRules.ListTextByRules` | include/pb/core/export_json.hpp:92-145 | A list grows by a comma and the text of the next element, in brackets |
| `TextRules.ObjectTextByRules` | include/pb/core/export_json.hpp:64-163 | An object grows by a comma and the next member, a quoted name, a colon and the text of its value, in braces |
| `JsonExport.ErrorToJson` | src/runtime/error.cpp:125-139 | The appended pieces of an error record are the text of its document tree |
| `JsonExport.ErrorRecordRoundTrip` | src/runtime/error.cpp:125-143 | An exported error record is read back to the same four fields |
| `JsonExport.ToRecordInjective` | src/runtime/error.cpp:52-87 | The record keeps the whole error: stage key and name, category and message |
| `TextRules.ExportedErrorReadsBack` | src/runtime/error.cpp:52-143 | Main result on exported errors. A reader of the text finds the version, the stage's key and name, the category's own name and the message, each under its name |
| `TextRules.JsonEscapesByRules` | include/pb/core/export_json.hpp:19-53 | The seven short escapes, character by character; every other character from the space on stands for itself |
| `TextRules.ControlEscapesByRules` | src/runtime/error.cpp:34-43 | Every other control byte is written with its two hexadecimal digits |
| `GraphJson.AppendBranchCases` | include/pb/core/export_json.hpp:64-107 | The filter loop with its first-case flag writes the comma-separated cases of one stage, each record laid out piece by piece with its identifiers, key, label or index, metadata and its two constant edges |
| `GraphJson.AppendStages` | include/pb/core/export_json.hpp:109-145 | The stage loop with its first-stage flag writes the comma-separated stages piece by piece, each with its kind and its own cases |
| `GraphJson.AppendEdges` | include/pb/core/export_json.hpp:147-163 | The edge loop with its first-edge flag writes the comma-separated edge records piece by piece; `GraphDocument.ExportedGraphReadsBack` says what each record holds |
| `GraphJson.GraphToJson` | include/pb/core/export_json.hpp:167-207 | The exporter's literals and escaped fields, appended in its order, are the text of the graph's document tree under the format's own member names |
| `GraphJson.ExportGraph` | include/pb/core/export_json.hpp:167-207 | The same for any literals that cut the text of the tree at its values |
| `GraphJson.LayoutCuts` | include/pb/core/export_json.hpp:64-207 | The format's literals cut the text of the tree at its values: names, brackets, commas, the schema version and the constant edges are as the tree has them |
| `GraphJson.PredicateEdgeText` | include/pb/core/export_json.hpp:86-86 | The constant predicate edge is the text of an object of four members |
| `GraphJson.GraphRoundTrip` | include/pb/core/export_json.hpp:167-207 | An exported graph is read back whole, and the cases listed under a stage are that stage's cases in order; what the tree says, name by name, is `GraphDocument.ExportedGraphReadsBack` |
| `GraphDocument.ExportedGraphReadsBack` | include/pb/core/export_json.hpp:57-207 | Main result on the exported graph. A reader of the text finds under the format's names: the version, topology and counts; for each stage its index, key, name, kind and own cases; for each case its number, identifiers, label or number, metadata and two edges; for each edge its index, from stage i to stage i + 1, with their keys and names |

## Left out

- Void outputs and void fan-in slots: a stage always has a value to hand on.
- Copying, moving and move-only inputs: values are mathematical, so a failed or throwing copy is not modelled.
- Error types other than the runtime error and one foreign type without a diagnostic member; in particular a foreign type that can be made from a runtime error.
- Stages whose hidden state makes reruns differ: a body is a function of its input, or of its input and the active state.
- Timed waits, hardware concurrency, allocation failure, throwing observers and memory order below the granularity of a lock.
- Futures of enqueued tasks and tasks that throw inside the pool: a task is a token that starts and finishes.
- A fan-in run started from a worker of its own pool, which may wait for the worker it occupies.
- Values of a type-list type used as an ordinary input: the model has no such value, so claims about it are vacuous.
- The storage variants of the fan-in recursion differ from the others only in which stage object they call and are not repeated.
- Policies (`with`).
- Interleavings in `FanInBackend`: the object form runs the one schedule that posts everything before a worker starts; all schedules are the subject of the step system in `FanInRefinement` and `FanInShutdown`.
- Dot.EmitDot: writes node names and edges; labels of nodes, cluster headings and edge styles are not part of its lines, and the exporter for pipelines without branches, a plain chain, is not modelled.
- StatefulEngine.OwnedEngine.TryRun: the wrapped run returns; frames left by an exception are the subject of `StateStack.NestedFramesRestoreStack`.
- Insignificant white space in JSON documents, numbers other than natural numbers, and escapes of surrogates: the exporters write none of them and the reader does not take them.
- The shared and borrowed storage policies: a pointer handed through.
- Console tools, registries, dormant backends, feature detection, adapters, trace text output, error-policy wrappers and diagnostics records.
