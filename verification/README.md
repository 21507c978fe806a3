# Orqestra: job delivery and workflow runs

Orqestra stores jobs in Postgres, relays them to Redis through an outbox, hands them to workers over
streams, and runs workflows by submitting the steps whose dependencies have completed. This project
models both layers and proves what they guarantee over every run.

## How it is laid out

The tables, the Redis keys and the server's maps are values; each statement, queue call or handler is
a function on them, and the objects of the source are classes whose methods are proved to do what
those functions say. What the source promises is then proved about the functions.

- `Steps`, `WorkflowDefinition`: workflow steps, the dependency graph, `Normalize`, `Validate` with its
  three-colour search, `UnblockedSteps`; the two graph algorithms agree.
- `Tables`, `Postgres`: the tables `jobs`, `job_outbox` and `workflow_runs` under the statements of
  `internal/db`. `QueueState`, `QueueOrder`, `Redis`: the five Redis keys under the calls of
  `internal/queue`.
- `Delivery` is the transition system of job delivery. A handler is one step, but its durable writes are
  kept in order, so that a crash can fall between any two of them: `Crash(e, cut)` stops handler `e`
  after `cut` writes and restarts the server. `DeliverySafety`, `DeliveryRuns`, `Positions`,
  `Accounting`, `Recovery`, `Cancellation`, `Ownership`, `Delays`, `Reaper`, `RelayConvergence`,
  `RelayOrder`, `RowNumbers` hold its invariants and theorems, with `Revival` (which jobs can come back)
  and `QueueRuns` (the hand-out order over whole runs); `Limits` the runs that show why they need their
  conditions. `Server`, `Relay`, `JobService` are the programs whose every call is a step of that system.
- `RunMachine` is one workflow run: `TriggerWorkflow`'s loop and any number of `Advance` calls, each cut
  at every database statement, interleaved with everything that changes a job's status, and with crashes.
  `RunProgress` and `RunTheorems` hold its results, `RunCalls` what the calls in flight will still do,
  `RunLimits` exact conditions for completing, `RunExamples` runs that show what breaks. `RunTables` and
  `WorkflowService` are the same programs on the tables.
- `RunRefinement`, `Orchestration`, `WholeSystem`, `CancelledRuns` join the layers: every schedule of
  delivery events, crashes included, and of the statements of one run is, on the tables, a run of
  `RunMachine`. So what is proved of the run machine holds of the tables of the whole system, under conditions on the schedule that
  can be checked before each event. `Handling` is a whole result message on both layers.
- `Messages` says, field by field and in every state, what each message of a worker and a cancellation change.

Conditions on runs, by name:

- A *stale drop* is a stream that breaks while it holds a job it no longer owns (`Positions.StaleDrop`).
- A run is *steady* when it has no crash, no rolled-back relay pass and no stale drop
  (`Accounting.Steady`).
- An event *rewrites* a job when it writes over its status without looking at it: Work hands the job to a
  worker, or a stream that holds it breaks (`DeliveryRuns.Rewrites`). For a settled job this is exactly
  when its row changes, in any state (`DeliveryRuns.SettledChangesIff`).
- `RunMachine.CompleteOnce` says that no completed step of a run is rewritten, and
  `WholeSystem.CompletionsStand` says it of a schedule. Crashes, rolled-back passes and drops of other
  steps are allowed. `RunTheorems.Orderly` adds that the server does not crash.
- `RunMachine.NeverSpoils` and `WholeSystem.DependenciesStand` only exclude the rewriting of a completed
  step that a submitted step, or one a call in flight is bound to submit, depends on.
- A job *returns* when a stream holds it, an unprocessed outbox row waits for it, the queue has it, or its
  row says running (`Revival.Returns`).
- `RunTheorems.Runnable` is a valid workflow whose retry limits the `jobs` table accepts.

## Where the code falls short of what is said of it

The repository's README says that jobs survive failures without being lost and that interrupted jobs are
recovered at restart. The model follows the code.

- One crash loses a job: between the two writes of a disconnect, when the job had been settled meanwhile.
  `Recovery.LosesExactly` shows that no other event does; `Limits.LosingCrashReachable` reaches it.
- A crash between `CompleteJob` and `Advance` leaves the run 'running' for ever
  (`RunExamples.CrashStallsRun`). `RunLimits.CanCompleteIff` says from which states, after any number of
  crashes, the run machine can still complete a run. In the system a job that does not return strands its
  run too (`CancelledRuns.StrandedRun`).
- A settled job can come back. It stays settled over all later runs exactly when no stream holds it, no
  outbox row waits for it and the queue does not know it (`Cancellation.SettledForGoodIff`). Runs from the
  first start show each way back: a stale drop (`Limits.StaleDropReopens`), the relay after a restart,
  because the outbox is not filtered by job status (`Limits.RestartReruns`), and the queue after a run was
  cancelled, because that leaves Redis alone (`Limits.CancelledRunDispatched`). The conditions for
  `CancelJob`, for cancelling a run and for a completion follow (`Cancellation.CancelFinalIff`,
  `Cancellation.CancelRunFinalIff`, `Cancellation.CompletionFinalIff`).
- When a completed step of a run comes back, dependency safety is gone exactly when a submitted step, or
  one a call in flight is bound to submit, depends on it (`RunMachine.SoundKeptIff`). Counting is
  another matter: the run can then be completed with a step never submitted
  (`RunExamples.SecondCompletionMiscounts`).
- A stale drop can give a job two queue positions (`Limits.StaleDropDuplicates`), exactly when the job
  already waits in ready (`Positions.SingleKeptIff`).
- `CompleteWorkflowRun` and `FailWorkflowRun` have no status guard. A cancelled run can become completed
  exactly when an `Advance` call had already seen the total (`RunLimits.CancelHoldsIff`), and it stays
  cancelled over all schedules exactly when no call has, no step is coming and no job of the run returns
  (`CancelledRuns.CancelledStaysIff`).
- `Validate` accepts a negative `retries`, which the insert then rejects: a validated workflow can
  complete exactly when every limit fits the column (`RunLimits.CompletableIff`). A workflow without
  steps never completes (`RunExamples.EmptyRunNeverCompletes`).
- Retry delays are the intended powers of two exactly up to the 33rd retry (`Backoff.DelayExact`). Beyond,
  they differ by a multiple of 2^64 nanoseconds, and from the 55th retry on there is no delay at all
  (`Backoff.DelayWraps`).

## Model

| member | source | states |
|---|---|---|
| WorkflowDefinition.Workflow.Validate | internal/workflow/workflow.go:51-71 | After Normalize, an error is returned if and only if ids repeat, a dependency is unknown or the graph has a cycle; the error names a real witness of that kind. When every step has an id and one declares depends_on, that is said of the steps as they were given |
| WorkflowDefinition.Workflow.DetectCycles | internal/workflow/workflow.go:73-111 | Given distinct ids and known dependencies, no error if and only if the dependency graph has no cycle; an error names a step on a real cycle |
| WorkflowDefinition.Workflow.Dfs | internal/workflow/workflow.go:92-104 | The recursive search terminates because white steps run out; success extends a topological order, failure returns a cycle through the gray steps |
| WorkflowDefinition.Workflow.CheckIDs | internal/workflow/workflow.go:54-60 | No error exactly when the ids are distinct, and then `seen` is exactly the set of ids |
| WorkflowDefinition.Workflow.CheckDeps | internal/workflow/workflow.go:62-68 | No error only if every dependency is a step; an error names a step and a dependency no step has |
| WorkflowDefinition.Workflow.Normalize | internal/workflow/workflow.go:27-49 | Rewrites the steps to their normal form: automatic ids, and a chain when no step declares depends_on |
| Steps.NormalizedKeeps | internal/workflow/workflow.go:27-49 | Normalize keeps the number of steps, and of each its command, retries and a given id; step i without an id becomes "step-" and the numeral of i |
| Steps.NormalizedDag | internal/workflow/workflow.go:34-40 | If some step declares depends_on, even an empty list, Normalize changes no dependency |
| Steps.NormalizedChain | internal/workflow/workflow.go:41-48 | If no step does, the first stays without dependencies and every other depends on exactly the step before it |
| Steps.NormalizedAsGiven | internal/workflow/workflow.go:27-49 | Steps that all have ids, one of them with depends_on, are left as they are |
| Prelude.DecimalReads | internal/workflow/workflow.go:28-32 | The numeral in an automatic id reads back as the index, without leading zeros |
| WorkflowDefinition.Workflow.AnyDependsOn | internal/workflow/workflow.go:34-40 | True exactly when some step has a non-nil depends_on, even an empty one |
| WorkflowDefinition.Workflow.UnblockedSteps | internal/workflow/workflow.go:113-131 | Returns the unsubmitted steps whose dependencies are all completed, in ascending order |
| WorkflowDefinition.TopologicalIsRanked | internal/workflow/workflow.go:73-111 | The order in which the search blackens steps is a topological rank of all steps |
| Steps.Unblocked | internal/workflow/workflow.go:113-131 | An index is in the frontier if and only if it is not submitted and each of its dependencies is completed |
| Steps.UnblockedAscending | internal/workflow/workflow.go:113-131 | The frontier is strictly ascending, so no step is returned twice |
| Steps.NormalizeIdempotent | internal/workflow/workflow.go:25-49 | Normalizing the shared slice again, as every call does, changes nothing; the number of steps stays and no id is empty |
| Steps.ChainValidity | internal/workflow/workflow.go:27-71 | Without any depends_on the normalized workflow is valid if and only if the ids are distinct |
| Steps.PlainListIsValid | internal/workflow/workflow.go:27-71 | A plain list of commands without ids is always valid |
| Steps.FrontierExists | internal/workflow/workflow.go:113-131 | In a valid workflow some unfinished step always has all its dependencies finished, found by walking back along dependencies |
| Steps.DrainIffAcyclic | internal/workflow/workflow.go:73-131 | The two graph algorithms agree: repeatedly completing what UnblockedSteps returns reaches all steps, within as many rounds as there are steps, if and only if there is no cycle, if and only if a topological rank exists |
| RunMachine.PreviousOutputStable | internal/service/workflow_service.go:124-145 | As long as the job table only extends, the output of a step's only dependency, read once it is completed, never changes again |
| RunMachine.OrderChange | internal/db/jobs.go:10-17 | Short of undoing a completion, only CompleteJob changes the set of completed steps, by one step that was not in it |
| RunMachine.SoundKeptIff | internal/server/server.go:37-61 | Dependency safety, of the submitted steps and of those a call in flight is bound to submit, survives any statement, status write or crash if and only if that does not undo a completion one of them depends on |
| RunMachine.NextSafe | internal/service/workflow_service.go:67-160 | Every statement and status write, crashes included, that does not undo a completion also keeps the completion order topological and free of repeats |
| RunProgress.NextLive | internal/service/workflow_service.go:67-120 | Every statement and status write but a crash and the undoing of a completion keeps the exact counter, the single finisher and the coverage of every enabled step |
| RunProgress.HonestKept | internal/db/workflows.go:38-47 | Every action that undoes no completion, crashes included, keeps: no completion is counted twice, one finisher at most, completed means every step is |
| RunProgress.BlamedKept | internal/db/workflows.go:125-132 | A failed run keeps a failed step behind its failure if and only if the action does not write over the last one |
| RunProgress.LastIncrement | internal/db/workflows.go:38-47 | The increment that reaches the total happens only after every step is completed |
| RunTheorems.NoStalledStep | internal/service/workflow_service.go:67-120 | Under any interleaving without a crash each enabled step is submitted, still in Trigger's loop, or covered by an Advance call in flight; at rest the submitted steps are exactly the enabled ones |
| RunTheorems.ExactCounting | internal/db/workflows.go:38-47 | Without a crash, while running, current_step plus outstanding increments equals the number of completed steps |
| RunTheorems.CompletedMeansDone | internal/db/workflows.go:38-47 | Crashes included, a run is marked completed only when every step is, and current_step plus outstanding increments never exceeds the number of completed steps |
| RunTheorems.OneAdvanceFinishes | internal/service/workflow_service.go:80-84 | Crashes included, at most one Advance call of a run sees the total, and exactly one once the counter has reached it |
| RunTheorems.DeadlockFreedom | internal/service/workflow_service.go:25-120 | A non-empty valid run at rest, not cancelled, whose jobs all completed, is itself completed with every step done; failed is possible only if a failed step was written over |
| RunTheorems.DependencySafety | internal/service/workflow_service.go:114-160 | As long as no completion is undone that a submitted or promised step depends on, crashes included: submitted steps have all dependencies completed, and a step with exactly one dependency carries that dependency's final output |
| RunTheorems.CompletionOrder | internal/service/workflow_service.go:114-160 | The completion order of any run that undoes no completion, crashes included, is a linear extension of the graph |
| RunTheorems.ClosedIsAll | internal/workflow/workflow.go:113-131 | In a valid workflow a set of steps containing every step it enables contains them all |
| RunLimits.CompletableIff | internal/workflow/workflow.go:51-71 | A validated, non-empty workflow has a run that completes if and only if the jobs table accepts every step's retry limit |
| RunLimits.RunToEnd | internal/service/workflow_service.go:25-120 | From any running state of the run machine without failed or cancelled jobs, whatever the calls in flight and the crashes before, that has counted every completion and is not over, the run can be brought to completion |
| RunLimits.CanCompleteIff | internal/service/workflow_service.go:67-120 | In the run machine, after any number of crashes, such a run can still complete if and only if every completion has been or will be counted and it is not over: a call has yet to count or complete it, a step is coming or some job is not completed |
| RunLimits.CancelHoldsIff | internal/db/workflows.go:116-123 | A cancelled run never becomes completed, in any run of the run machine, if and only if no Advance call has already seen the total |
| RunCalls.ComingKept | internal/service/workflow_service.go:114-119 | A statement of the run itself, other than the counting, adds nothing to the steps its calls will insert and drops nothing but what it inserts |
| RunCalls.ComingComes | internal/service/workflow_service.go:114-119 | A step that is coming is inserted by statements of the calls in flight alone, also when the run is no longer running |
| CancelledRuns.CancelledStaysIff | internal/db/workflows.go:116-132 | In the whole system, a cancelled run stays cancelled under every schedule of deliveries, crashes, drops and rolled-back passes if and only if no call has seen the total, no step is coming and no job of the run returns |
| CancelledRuns.CancelledFromStart | internal/db/workflows.go:116-132 | The same for any run found cancelled after any history from the first start |
| CancelledRuns.StrandedRun | internal/server/server.go:37-47 | A job of the run that is not completed and does not return strands it: while no completed step is rewritten, the run never becomes completed |
| RunLimits.CrashHarmlessIff | internal/server/server.go:130-140 | In the run machine, a crash, not only the first, leaves a run without failed or cancelled jobs able to complete if and only if no Advance call had yet to count and some job is not completed |
| RunExamples.CrashStallsRun | internal/server/server.go:130-140 | A crash between CompleteJob and Advance: all steps are done, nothing is active and no action but a cancellation or the undoing of a completion changes the run again |
| RunExamples.EmptyRunNeverCompletes | internal/service/workflow_service.go:25-45 | A run of a workflow without steps is never completed |
| RunExamples.BadRetriesNeverSubmitted | internal/service/workflow_service.go:38-42 | A root step with retries -1 passes Validate and is never submitted |
| RunExamples.CancelledRunCompletes | internal/db/workflows.go:116-123 | A concrete run in which a cancelled run ends up completed |
| RunExamples.SecondCompletionMiscounts | internal/db/workflows.go:38-47 | A concrete run in which one step completes twice and the run is completed with a step never submitted |
| RunTables.AdvanceIsRun | internal/service/workflow_service.go:67-120 | What Advance does to the tables is a run of the delivery protocol, one event for each of its statements |
| RunTables.TriggerIsRun | internal/service/workflow_service.go:25-45 | The same for TriggerWorkflow |
| RunTables.TriggerAnswer | internal/service/workflow_service.go:25-45 | The call succeeds if and only if every step without dependencies has a limit the column accepts; the new run then has rows for exactly those steps, and otherwise for exactly those before the first refused one |
| RunTables.UnknownWorkflowFails | internal/service/workflow_service.go:86-92 | The Advance call that finds its workflow missing counts, fails the run and submits nothing |
| WorkflowService.Service.TriggerWorkflow | internal/service/workflow_service.go:25-45 | Creates the run and inserts the roots in order up to the first rejected row. It answers with the new run's id if and only if the table accepts the retry limit of every step without dependencies, and otherwise with an error; an unknown name changes nothing |
| WorkflowService.Service.Advance | internal/service/workflow_service.go:67-120 | Counts; completes the run at the total, fails it when the workflow is unknown, else submits the frontier; the registered workflows stay as Normalize leaves them |
| WorkflowService.Service.SubmitNext | internal/service/workflow_service.go:94-119 | Inserts every enabled, unsubmitted step with the output it asks for, skipping rejected rows |
| WorkflowService.Service.CompletedIDs | internal/service/workflow_service.go:99-104 | The ids of the completed step indices, indices past the end ignored |
| WorkflowService.Service.PreviousOutputFor | internal/service/workflow_service.go:124-145 | The completed output of the only dependency, or nothing |
| WorkflowService.Service.SubmitStep | internal/service/workflow_service.go:147-160 | One InsertWorkflowStep with the step's retries and payload |
| RunRefinement.StatementShown | internal/service/workflow_service.go:67-120 | On tables that show a run, each statement of an Advance call, reads included, is the run machine's step |
| RunRefinement.InsertShown | internal/db/outbox.go:56-90 | InsertWorkflowStep is the run's insert under the unique key, and fails exactly on a limit the column refuses; the row has the step's retry limit and is a shell job |
| RunRefinement.PreviousOutputShown | internal/db/jobs.go:87-97 | Read through the (run, step) keys, the previous output is the run machine's |
| RunRefinement.CompletedShown | internal/db/workflows.go:134-154 | GetCompletedStepIndices returns exactly the run's completed steps |
| RunRefinement.SubmittedShown | internal/db/workflows.go:156-176 | GetSubmittedStepIndices returns exactly the run's submitted steps |
| RunRefinement.CancelShown | internal/db/workflows.go:49-83 | CancelWorkflowRunAtomic cancels exactly the run's pending and retrying steps, and nothing once the run is not running |
| Orchestration.PlayShown | internal/server/server.go:33-173 | Every schedule of delivery events, crashes included, and the run's own statements is a run of the run machine, shown by the tables throughout; it undoes a completion, or spoils a dependency, only if an event rewrites such a step |
| Orchestration.HandlerShown | internal/server/server.go:33-173 | The writes of each handler about a job of the run, cut anywhere, are the named actions of the run, on the tables |
| Orchestration.BootShown | internal/db/jobs.go:47-63 | A restart is, for the run, a crash of its calls followed by a put-back of each step that was running |
| WholeSystem.SubmittedAreEnabled | internal/service/workflow_service.go:67-120 | On the tables, after any history and in any schedule, with crashes, rolled-back passes and drops, that rewrites no completed step a submitted or promised step depends on: every submitted step has its dependencies completed |
| WholeSystem.FrontierIsSubmitted | internal/service/workflow_service.go:67-120 | If no completed step is rewritten and the server does not crash, a running run at rest has submitted exactly the steps whose dependencies are completed |
| WholeSystem.CompletedRunIsDone | internal/db/workflows.go:38-47 | On the tables, crashes included, as long as no completed step is rewritten: the run is marked completed only when every step is, and no completion is counted twice |
| WholeSystem.CurrentStepIsExact | internal/db/workflows.go:38-47 | Without a crash, current_step plus the Advance calls that have not counted equals the number of completed steps |
| WholeSystem.RunCompletes | internal/service/workflow_service.go:25-120 | Without a crash, a run at rest, not cancelled, whose jobs all completed, is completed with every step done, unless a failed step of it was rewritten |
| WholeSystem.RowsCarryOutputs | internal/service/workflow_service.go:114-160 | On the tables, crashes included, as long as no completed step a submitted or promised step depends on is rewritten: one row per step, a shell job with the step's own command and retry limit and its only dependency's final output |
| WholeSystem.RowsCarryLimits | internal/service/workflow_service.go:147-160 | Under every schedule whatsoever, each job of the run is a shell job of one of its steps, with that step's retry limit, and no two share a step |
| WholeSystem.SteadyIsEnough | internal/server/server.go:103-126 | In steady runs the delivery protocol itself sees to it that no completed or failed step is rewritten |
| WholeSystem.CallIsAdvance | internal/service/workflow_service.go:67-120 | Run without interruption, the statements of one call do what the Advance method does |
| Recovery.NoJobLost | internal/server/server.go:103-173 | In every reachable state, whatever crashed or was rolled back, at any point of a relay pass, an unsettled job not hit by the one losing crash is running, has exactly one unprocessed outbox row or is queued; queued means a payload that agrees with the row and a place in ready, processing or delayed |
| Recovery.LosesExactly | internal/server/server.go:37-47 | From a sound state an event leaves an unfindable job if and only if it is a crash between the two writes of a disconnect whose job is neither queued nor in the outbox |
| Recovery.HalfSuccess | internal/server/server.go:128-136 | Between the two writes of a success the job has left the queue and its row still says running |
| Recovery.HalfFailure | internal/server/server.go:144-172 | A failure writes the row before it touches the queue, and fails the run last |
| Recovery.HalfCancel | internal/service/job_service.go:34-56 | CancelJob writes the row, then the outbox, then the queue |
| Recovery.HalfReady | internal/server/server.go:52-61 | A job leaves ready before its row says running |
| Recovery.HalfReturn | internal/server/server.go:37-47 | A job put back is pending before it is queued |
| Recovery.CleanUpExact | internal/db/outbox.go:146-157 | The cleanup drops exactly the processed rows older than the age |
| Revival.CanCompleteIff | internal/server/server.go:52-83 | In any reachable state, a job has a run that completes it if and only if it is completed already or returns; every unsettled job no crash lost does |
| Revival.UnsettledCanComplete | internal/server/server.go:52-83 | After any history from the first start, an unsettled job can still be completed if and only if it returns, and it does unless a crash lost it |
| Revival.LostForGood | internal/server/server.go:37-47 | No later run completes the job of the losing crash |
| Revival.HeldExhausts | internal/server/server.go:144-172 | A worker that only fails uses up a job's retries: it gets the job again after each delay until none is left |
| Recovery.RestartComplete | cmd/server/main.go:62-70 | After reset and recover nothing runs or is in processing, every unsettled job is in ready, in delayed or has exactly one outbox row; one relay pass puts each in ready or delayed with a payload |
| Recovery.InterruptedRestart | internal/db/jobs.go:47-63 | A crash between ResetRunningJobs and Recover does no harm: the next start ends in the same tables and queue |
| Recovery.RetryBound | internal/server/server.go:144-172 | Row, Redis payload and in-flight copy keep retry_count within max_retries in all runs |
| DeliveryRuns.NextInv | internal/server/server.go:33-253 | Every event, and every crash between two writes of one, keeps the invariant: nothing lost outside the named crash, copies agree, owners hold their jobs |
| Positions.SingleKeptIff | internal/queue/redis.go:100-382 | One position per id, exactly while it is queued and has a payload, with owned running jobs in processing, survives an event, crashes and failed relays included, if and only if no stream breaks whose job waits in ready |
| Positions.ExecSingle | internal/queue/redis.go:100-382 | The same over whole runs without such a drop |
| Positions.StaleFreeSingle | internal/server/server.go:37-47 | A run without stale drops has no such drop |
| Accounting.SettledStays | internal/server/server.go:107-126 | In steady runs a completed or failed row never changes again |
| Accounting.NextQuiet | internal/server/server.go:103-173 | Every steady event keeps all copies of every job in agreement, and finished jobs out of queue, outbox and ownership |
| Accounting.ResultsAccountedFor | internal/server/server.go:128-172 | In steady runs from the start: one accepted success per completed job, at most max_retries+1 accepted failures, that many exactly when the job failed |
| Accounting.SuccessesBalance | internal/server/server.go:128-142 | Accepted successes along a steady run equal the jobs they completed, so Advance is called once per completed workflow job |
| Accounting.FailuresBalance | internal/server/server.go:144-172 | Accepted failures along a steady run equal the retries used plus the final failure |
| Accounting.RetryTimeBound | internal/server/backoff.go:8-10 | With at most 33 retries the granted delays sum to 2^(used+1)-2 seconds, at most 2^(m+1)-2, reached when the job fails |
| Backoff.DelayExact | internal/server/backoff.go:8-10 | In 64-bit arithmetic the delay is 2^n seconds if and only if n is at most 33 |
| Backoff.DelayWraps | internal/server/backoff.go:8-10 | Every delay fits 64 bits and differs from the intended one by a multiple of 2^64 nanoseconds; from the 55th retry on it is zero |
| Backoff.TotalDelayExact | internal/server/backoff.go:8-10 | The first m delays sum to 2^(m+1)-2 seconds for m up to 33 |
| Cancellation.CancelIsFinal | internal/service/job_service.go:34-56 | After CancelJob on a job no stream holds, no later run dispatches it or changes its status |
| Cancellation.CancelFinalIff | internal/service/job_service.go:34-56 | CancelJob holds over all later runs if and only if no stream holds the job |
| Cancellation.SettledForGoodIff | internal/server/server.go:37-61 | In any state of a run, a settled job keeps its status over all later runs, crashes and rolled-back passes included, if and only if no stream holds it, no outbox row waits for it and the queue does not know it |
| Cancellation.NeverDispatched | internal/server/server.go:52-61 | Such a job is never handed to a worker again and its row never changes |
| Cancellation.CancelRunFinalIff | internal/db/workflows.go:67-77 | A job cancelled with its run stays cancelled over all later runs if and only if it had not reached the queue and no stream holds it |
| Cancellation.CompletionFinalIff | internal/server/server.go:128-136 | An accepted success stays completed over all later runs if and only if no outbox row of the job waits and no other stream holds it |
| Ownership.EndsIff | internal/server/server.go:175-178 | An owned job loses its owner in an event if and only if that is a crash, a broken stream holding it, a result from its owner's stream, its reap or its failed send |
| Ownership.OwnerIsLatestAssignee | internal/server/server.go:175-183 | A worker owns a job if and only if the last event that assigned the job or ended an epoch on it was an assignment to that worker |
| Ownership.AcceptedFromLatest | internal/server/server.go:103-126 | Every accepted result comes from the latest assignee and ends its epoch |
| Ownership.EpochsBalance | internal/server/server.go:175-196 | Over any run, accepted results never exceed assignments |
| Ownership.ReaperIsPatient | internal/server/server.go:214-253 | The reaper takes a job away only 30 seconds or more after its last assignment or accepted heartbeat |
| Ownership.SeenChanges | internal/server/server.go:175-196 | A job's last-seen time is set, to now, exactly by an assignment of the job or a heartbeat of its owner; anything else leaves it or drops it |
| Delays.NeverEarly | internal/queue/redis.go:242-290 | In runs without a stale drop a job retried at t with delay d is not handed out before t+d, to the millisecond, even if the server crashed right after the retry |
| Delays.RetryIsDue | internal/server/server.go:144-160 | A granted retry leaves the row retrying with one more retry used and the job in the delayed set, due exactly its delay later, with the payload of its row |
| Delays.PromotionTakesDue | internal/queue/redis.go:342-382 | Promotion takes every job whose time has come, to the millisecond, into ready, and no other |
| RelayConvergence.RelayConverges | internal/outbox/relay.go:55-90 | Passes failing after any number of entries, the whole batch included, with hand-outs in between, followed by one success, leave the same line, queued set, payloads and delayed set as one success, and no unprocessed row |
| RelayConvergence.PrefixAbsorbed | internal/outbox/relay.go:64-87 | Enqueuing a prefix first changes nothing about enqueuing the whole batch |
| RelayOrder.EntriesInOrder | internal/db/outbox.go:94-124 | The entries are the unprocessed rows that join a job, one entry a row, oldest row first |
| RelayOrder.RelayHandsOut | internal/outbox/relay.go:55-90 | After a committed pass the hand-out order is the old one followed by the jobs the queue did not have, oldest row first |
| RelayOrder.FailedRelayHandsOut | internal/outbox/relay.go:64-87 | A pass that fails after k entries has put the new jobs among the first k there, in that order, and changed no table |
| RelayOrder.RelayInOrder | internal/outbox/relay.go:55-90 | The same of a committed pass at any point of a run without a double drop |
| RowNumbers.ExecNumbered | internal/db/outbox.go:25-157 | Over every run, crashes included, outbox rows have distinct ids that rise in the order of their creation |
| RowNumbers.PassMarksExactly | internal/outbox/relay.go:64-90 | A committed pass marks, with its time, exactly the unprocessed rows that join a job |
| QueueOrder.QueueRefinesFifo | internal/queue/redis.go:67-382 | Any calls within the usage rule refine one first-in first-out line, ready ++ processing, and keep one position per id |
| QueueOrder.CrashRestoresOrder | internal/queue/redis.go:67-98 | After any calls and a crash, the next server hands out that line, oldest first |
| QueueRuns.RunRefinesFifo | internal/queue/redis.go:67-382 | Every run without a double drop, crashes and failed relays included, makes queue calls within the usage rule and refines the line |
| QueueRuns.RestartKeepsOrder | internal/queue/redis.go:67-98 | After any such run from the first start, a restart hands out exactly that line, oldest first |
| QueueOrder.PromotedInDueOrder | internal/queue/redis.go:342-382 | A promoted batch is consumed in due-time order after everything already ready |
| QueueOrder.TakeIsOldest | internal/queue/redis.go:145-205 | With one position per id, Consume hands out exactly the oldest ready id with its payload |
| QueueOrder.HandOutConsumes | internal/queue/redis.go:145-205 | The hand-out order is what repeated Consume calls return |
| QueueState.ConsumeGives | internal/queue/redis.go:145-205 | What Consume returns is the payload of an id that left ready and now stands in processing; it blocks only when no ready id has a payload |
| QueueState.ConsumeExact | internal/queue/redis.go:145-205 | Consume pops ids from the tail of ready: those without a payload are dropped, the first that has one is returned and stands in processing, and nothing else changes |
| QueueState.CancelPlaces | internal/queue/redis.go:327-340 | Cancel removes the id's only position and leaves every other id's alone |
| QueueState.RetryPlaces | internal/queue/redis.go:242-290 | Retry leaves exactly one position for an id not in ready, and other ids alone |
| QueueState.PromotePlaces | internal/queue/redis.go:342-382 | Promotion moves ids without changing how often any id occurs |
| Limits.StaleDropDuplicates | internal/server/server.go:37-47 | A run in which a stale drop gives a job two queue positions |
| Limits.StaleDropReopens | internal/server/server.go:37-47 | A run in which a stale drop writes pending over a job another worker completed |
| Limits.RestartReruns | internal/db/outbox.go:94-106 | A run in which, after a restart, the relay dispatches a completed job though no stream broke |
| Limits.LosingCrashReachable | internal/server/server.go:37-47 | The one crash that loses a job is reachable |
| Limits.CancelledRunDispatched | internal/db/workflows.go:67-77 | From the first start, a job is cancelled with its run and then dispatched all the same |
| DeliveryRuns.SettledChangesIff | internal/server/server.go:37-61 | In any state, an event changes a settled row if and only if it hands that job to a worker or breaks a stream holding it, and the job is then no longer settled |
| Tables.EntriesExact | internal/db/outbox.go:94-124 | The relay sees one entry for each unprocessed row whose job exists, with retry count zero, and nothing else |
| Tables.InsertJobExact | internal/db/outbox.go:25-54 | For a limit the column accepts: a new id, one pending row with no retries used and the given limit, type and payload, and one new unprocessed outbox row; otherwise nothing |
| Tables.InsertStepExact | internal/db/outbox.go:56-90 | The same for a step of an existing run that has no row yet, as a shell job under its key; a taken key changes nothing, an unknown run or a refused limit is an error |
| Tables.CancelRunRows | internal/db/workflows.go:49-83 | A row changes if and only if the run is active, the row is of that run and it is pending or retrying |
| Tables.MarkIdsAt | internal/db/outbox.go:126-134 | Marking sets exactly the named rows, in place |
| Tables.MarkJobsAt | internal/db/outbox.go:136-144 | Cancelling marks exactly the job's unprocessed rows |
| Tables.CleanupExact | internal/db/outbox.go:146-157 | Cleanup removes all and only the processed rows older than the cutoff |
| Tables.CleanupCount | internal/db/outbox.go:146-157 | Cleanup never touches an unprocessed row |
| Tables.RelayedCount | internal/outbox/relay.go:55-90 | A committed pass leaves no unprocessed row that joins a job |
| Tables.WithOrphansCount | internal/db/jobs.go:47-63 | Reset adds one row for exactly the running jobs that have none |
| Tables.ListedExactly | internal/db/jobs.go:99-126 | The listing holds exactly the rows of the status, newest first |
| Server.Server.OnReady | internal/server/server.go:52-83 | A ready message is the Ready step of the protocol, also when Send fails |
| Server.Server.OnDisconnect | internal/server/server.go:37-47 | A broken stream is the Disconnect step: the job in flight is put back without an ownership check |
| Server.Server.OnResult | internal/server/server.go:95-97 | A result message is the Result step followed by Advance's own statements |
| Server.Server.HandleResult | internal/server/server.go:103-173 | Ignored from a non-owner; a settled or missing job only loses its owner; otherwise success, retry or failure |
| Server.Server.RecordHeartbeat | internal/server/server.go:185-196 | Accepted only from the owner, and then the only change is the time |
| Server.Server.ReaperTick | internal/server/server.go:214-253 | One sweep is one Reap step for each running job, newest first, in the order ListJobs returned them |
| Reaper.SweepExact | internal/server/server.go:214-253 | A sweep puts back every job that is running, owned and was last seen 30 seconds ago or longer: pending with its retry count, without owner, queued with its row's copy and due at once; every other job, owner and time stays as it was |
| Server.Startup | cmd/server/main.go:62-70 | Reset, recover and a server that remembers nothing: the Boot step |
| Handling.ResultIsRun | internal/server/server.go:128-142 | A whole result message, Advance included, is a run of the protocol |
| Handling.SuccessCallsAdvance | internal/server/server.go:128-142 | An accepted success of a workflow job leaves what the interleaved system has after the result and the statements of the one Advance call it starts, on that job's run, and that call is then over |
| Handling.OtherResults | internal/server/server.go:103-173 | Every other result message is the delivery step alone |
| Messages.ResultIgnored | internal/server/server.go:103-126 | A result ends the stream's hold; a non-owner's changes nothing more, the owner's ends the ownership, and a missing, completed, failed or cancelled job stays as it is |
| Messages.SuccessTaken | internal/server/server.go:128-136 | The owner's success of a pending, running or retrying job sets completed and the output and takes the job out of the queue; no other row, run or outbox row changes |
| Messages.FailureTaken | internal/server/server.go:144-172 | The owner's failure of such a job grants a retry, written to row, payload and delayed set, exactly while retry_count is below max_retries; otherwise job and run are failed and the job leaves the queue |
| Messages.ReadySent | internal/server/server.go:52-83 | The worker owns and holds the job from now on and its row says running, with the retry count of the payload |
| Messages.ReadyNotSent | internal/server/server.go:69-84 | When Send fails the job is pending, without owner, and waits again, due at once |
| Messages.DropPutsBack | internal/server/server.go:37-47 | What a broken stream holds is pending with the retry count it was handed out with, without owner, and waits again, due at once |
| Messages.CancelWithdraws | internal/service/job_service.go:34-56 | CancelJob withdraws a pending, running or retrying job from row, outbox and queue and touches no other row; about any other job it does nothing |
| Relay.RunPass | internal/outbox/relay.go:55-90 | A pass commits the whole batch, or, failing at any entry or after the last one, leaves that prefix in Redis and the tables as they were |
| Relay.MarkTwice | internal/db/outbox.go:126-134 | Marking row by row is marking the whole batch |
| JobService.Service.CancelJob | internal/service/job_service.go:34-56 | Refused for missing and settled jobs without any change; otherwise row, outbox and queue are all withdrawn |
| JobService.Service.SubmitJob | internal/service/job_service.go:22-24 | One InsertJob: a job and its outbox row together, or neither |
| Redis.RedisQueue.Enqueue | internal/queue/redis.go:100-143 | The payload is always written, the id is pushed only when it was not queued |
| Redis.RedisQueue.Consume | internal/queue/redis.go:145-205 | Pops the oldest id, dropping ids whose payload is gone, until one has a payload or ready is empty |
| Redis.RedisQueue.Ack | internal/queue/redis.go:207-240 | Withdraws the id from processing, queued set, payloads and delayed |
| Redis.RedisQueue.Fail | internal/queue/redis.go:292-325 | The same four commands |
| Redis.RedisQueue.Retry | internal/queue/redis.go:242-290 | Rewrites the payload, leaves processing, enters delayed with the due time in milliseconds |
| Redis.RedisQueue.Cancel | internal/queue/redis.go:327-340 | Also leaves ready, one occurrence |
| Redis.RedisQueue.DueMembers | internal/queue/redis.go:345-354 | Returns every member due by now once, by ascending score |
| Redis.RedisQueue.PromoteDueJobs | internal/queue/redis.go:342-382 | Moves exactly the due members, in due-time order, from delayed to the head of ready |
| Redis.RedisQueue.Recover | internal/queue/redis.go:67-98 | Appends processing to the tail of ready in its order and empties it |
| Postgres.Database.InsertJob | internal/db/outbox.go:25-54 | Job and outbox row together, or neither when the limit is refused |
| Postgres.Database.InsertWorkflowStep | internal/db/outbox.go:56-90 | The unique key makes a second insert a no-op; a refused limit or an unknown run is an error |
| Postgres.Database.KeyTaken | migrations/000003_dag_step_unique.up.sql:1-2 | True exactly when a job of that run and step exists |
| Postgres.Database.GetUnprocessedOutbox | internal/db/outbox.go:94-124 | The unprocessed rows that join a job, in creation order, whatever the job's status |
| Postgres.Database.MarkOutboxProcessed | internal/db/outbox.go:126-134 | Marks the one row |
| Postgres.Database.CancelOutboxEntry | internal/db/outbox.go:136-144 | Marks the job's unprocessed rows |
| Postgres.Database.CleanupProcessedOutbox | internal/db/outbox.go:146-157 | Deletes the old processed rows and reports how many |
| Postgres.Database.UpdateJobState | internal/db/jobs.go:19-45 | Sets status and retry count of one row, without looking at its status |
| Postgres.Database.CompleteJob | internal/db/jobs.go:10-17 | Sets completed and the output of one row |
| Postgres.Database.HasUnprocessed | internal/db/jobs.go:47-63 | True exactly when the job has an unprocessed outbox row |
| Postgres.Database.ResetRunningJobs | internal/db/jobs.go:47-63 | Running jobs become pending, and those without an unprocessed row get one |
| Postgres.Database.EnrolOrphans | internal/db/jobs.go:55-62 | Adds an outbox row for each running job that has no unprocessed one |
| Postgres.Database.ListJobs | internal/db/jobs.go:99-126 | The rows of one status, newest first |
| Postgres.Database.GetJobOutputByWorkflowStep | internal/db/jobs.go:87-97 | The output of the completed job of that run and step, if there is one |
| Postgres.Database.CreateWorkflowRun | internal/db/workflows.go:18-26 | A new running row with counter zero |
| Postgres.Database.AdvanceWorkflowRun | internal/db/workflows.go:38-47 | Increments and returns the row only while it is running |
| Postgres.Database.CancelWorkflowRunAtomic | internal/db/workflows.go:49-83 | Run, its pending and retrying jobs and their outbox rows together, or nothing |
| Postgres.Database.SetRunStatus | internal/db/workflows.go:116-132 | Writes the status without any guard |
| Postgres.Database.GetSubmittedStepIndices | internal/db/workflows.go:156-176 | The steps of the run that have a row |
| Postgres.Database.GetCompletedStepIndices | internal/db/workflows.go:134-154 | The steps of the run that have a completed row |

## Left out

- HTTP handlers, command line, API keys, configuration, logging and generated protobuf code.
- JSON and YAML encoding: a step payload is a datatype of command and previous output.
- Cron scheduling, HasActiveRun and LoadFromDir. The model registers each workflow under its own name, as Register does.
- Shell execution and the 64 KB output limit in the worker. Of the worker loop only the order ready, task, heartbeats, result is kept: a worker reports on the job it holds and asks for another only afterwards.
- Database and Redis errors, except a failing Enqueue inside a relay pass; a connection lost inside a handler is the crash of the whole server.
- Goroutine races inside one delivery handler; each queue call is atomic, also Enqueue's set insertion, which the source makes outside its pipeline.
- A stream's inFlight variable is an entry, under its worker's name, of a map in the server object. Two streams with the same worker id are not part of this model.
- Consume on an empty queue returns None where the source goes on waiting.
- The order of members with equal scores in the delayed set is left open: every order is covered.
- ResetRunningJobs inserts outbox rows by ascending job id; SQL leaves that order open. Row ids need only be unique, and gaps in sequences are not tracked.
- Outbox rows are read in the order they were added; rows with equal created_at have no other order here.
- Times are integers of nanoseconds from one clock that never runs backwards. The conversion from float64 to int64 out of range is the one amd64 makes.
- WholeSystem follows one run of a registered workflow at a time; other runs appear as delivery events. What it says of progress is for schedules without a crash, because a crash drops the calls in flight.
- RunLimits.CanCompleteIff: is about the run machine, where every uncompleted job can complete; in the system a job must also return, which CancelledRuns.StrandedRun says one way.
- Orchestration.Statement: the branch of Advance for a workflow missing from the registry is in WorkflowService.Service.Advance and not in the interleaved run, whose workflow is registered.
- Deletion of jobs and runs does not occur in the source and is not modelled.
