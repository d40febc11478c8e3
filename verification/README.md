# Job scheduler: a verified model

The service keeps jobs with six-field CRON schedules in memory. Once per poll interval a scheduler takes a snapshot
of the active jobs, hands the due ones to an executor and then writes each job's next run time. Workers take jobs from
a bounded queue, call an HTTP endpoint and store an execution record. An API creates, reschedules, deletes and lists
jobs while all this goes on.

This project models that behaviour in Dafny and proves what the parts promise each other. `dafny verify
dfyconfig.toml` checks everything.

## How it is built

The service as one step system:

- `Pipeline.dfy` — the scheduler's sweep, the workers and recorders of both executors, the API handlers and the
  shutdown sequence, as one state and the steps that can change it. A step is one repository call (each of them holds
  the mutex), one channel operation or one reading of the clock. A run is any possible sequence of steps, so every
  interleaving of goroutines is a run.
- `PipelineInvariant.dfy`, `Schedules.dfy`, `Deletion.dfy`, `Conservation.dfy`, `Records.dfy`, `Calls.dfy`,
  `TakingOrder.dfy`, `Timing.dfy`, `Counters.dfy`, `Shutdown.dfy` — what all runs keep.
- `Reschedules.dfy`, `LateSubmission.dfy`, `ShutdownOutcome.dfy` — what decides how a race ends: the two writes of an
  update against the sweep and other updates, a delete against the sweep, and a shutdown against a full queue.
- `Firings.dfy`, `Dispatch.dfy` — a reference that computes from the sweeps' clock readings alone when a job is
  dispatched, and the proof that the step system follows it under every interleaving.
- `Sweeps.dfy` — a sweep as one function, and that the uninterrupted steps of a sweep have its effect.

The same code as objects that change in place:

- `Repository.dfy` — the in-memory repository on the heap: job and execution records, time cells and metadata maps
  that records share, the two maps, the index and the counter. Every method is proved against a function on values in
  `StoreSpec.dfy`; loops over maps take the keys in arbitrary order.
- `Isolation.dfy` — what holders of copies may rely on while the repository works on.
- `Scheduler.dfy`, `Executor.dfy`, `Handler.dfy` — the sweep's three loops, the executors' queue and recording, and the
  three writing handlers, over that repository.
- `RateLimiter.dfy` — the fixed-window limiter as a class, and its bounds over request sequences.

Values and functions on them:

- `StoreEffects.dfy`, `StoreInvariant.dfy`, `Paging.dfy` — each repository operation field by field, the index
  invariant, and newest-first pages on 64-bit integers.
- `Statistics.dfy`, `Figures.dfy` — the figures reported about jobs, and what they count.
- `Validator.dfy`, `Text.dfy` — the CRON field recogniser, an independent grammar, and what a field denotes.
- `Cron.dfy` — schedules. The CRON library is outside the repository; it is a parameter that says which expressions
  parse, in which whole seconds one fires, and how far a search looks. `Next` is the least firing second strictly after
  a time, or the zero time.
- `Models.dfy`, `Common.dfy` — records, JSON values, and values of Go's `interface{}` told apart by dynamic type.

Times are nanoseconds since Go's zero time. The clock of a run never goes back. A clock reading that the code takes
before it waits for a lock is a parameter that may be any time up to the present one. The times at which ids are
generated and the order in which maps are traversed are arbitrary.

## Where the code and its descriptions differ

The model follows the code.

- `cron/validator.go:64` announces steps over ranges such as `0-30/5`. Any field with a hyphen is judged as a range
  before steps are looked at, so those are rejected and lines 74-77 are never reached (`Validator.RangeWithStepRejected`,
  `Validator.StepStartIsNoRange`).
- `executor/executor.go:81` says that Stop drains outstanding jobs. The context is cancelled first and workers may
  leave with jobs queued: once the scheduler has stopped, a return with jobs queued is possible if and only if jobs are
  queued (`ShutdownOutcome.StopLeavesQueuedIff`), and every service can run from its start to such a return
  (`ShutdownOutcome.QueueLeftFromStart`). What holds is that nothing is lost or duplicated before that
  (`Conservation.NothingLostNothingTwice`).
- `README.md:9` and `models/job.go:11` promise retries for one of the two job types. No executor reads the type, so each
  submission runs at most once (`Conservation.RunsAtMostOnce`).
- Shutdown of the standard executor can hang. `Shutdown.StuckIffBlocked` says in which states; `ShutdownOutcome.BlockIff`
  says from which states among a sweep's submissions the shutdown can get there, `ShutdownOutcome.RoomMeansReturn` that
  with room enough it always returns, and `ShutdownOutcome.BlockFromStart` runs every standard service from its start
  into the hang.
- An update writes NextRun and schedule in two calls (`api/handler.go:190-194`), and neither a sweep nor another update is
  kept out in between. `Reschedules.RescheduleKeptIff` says after which interleavings NextRun belongs to the asked
  schedule, `Reschedules.RescheduleSafe` gives a condition on the state at the first write, and
  `Reschedules.RescheduleRace` and `Reschedules.OverlappingReschedules` are the two ways in which it goes wrong.
- `GetAllJobs` panics for a limit near the largest integer (`Paging.SlicePanicsIffOverflow`).
- A job whose schedule has no further instant gets the zero time as next run, and the zero time is always due
  (`Firings.NeverFiringAlwaysDispatched`).

## Model

| member | source | states |
|---|---|---|
| `Dispatch.ScheduleHonoured` | scheduler/scheduler.go:102-151 | In every run in which nobody reschedules or deletes an active job: after each sweep its NextRun is the next instant after that sweep's clock; the triggers of its submissions are instants, a different one each time, if and only if no search for a next run came back empty; submissions are at least as many as intervals between sweeps with an instant, with equality if and only if no empty search was followed by an interval without one; and while no search comes back empty, every instant is dispatched exactly once if and only if no interval holds two |
| `Dispatch.SupersededAtMostOnce` | api/handler.go:180-194 | Once reschedules and the sweep in progress are over, at most the first later submission is triggered by the NextRun they left behind; from that sweep on NextRun and all submissions follow the present schedule |
| `Dispatch.DispatchFollowsReference` | scheduler/scheduler.go:102-151 | Under every interleaving with workers, recorders and handlers of other jobs, a job's submissions and NextRun are those of a reference computed from the sweeps' clock readings alone |
| `Dispatch.SweepStepFollows` | scheduler/scheduler.go:109-149 | Each step of a sweep keeps that correspondence, in the middle of a sweep as well |
| `Dispatch.ApiFollows` | api/handler.go:48-228 | So does each handler step that does not reschedule or delete the job, an update of its other fields included |
| `Reschedules.RescheduleKeptIff` | api/handler.go:180-194 | After both writes of an update with a valid schedule, and whatever sweeps and other requests did meanwhile, as long as nobody else deletes or reschedules the job: the job has the asked schedule, and its NextRun is computed from it if and only if a sweep with a snapshot taken after the second write has written it since, or the last write since the first one by an earlier sweep came from a copy with that schedule, or there was none |
| `Reschedules.NewScheduleKeptIff` | api/handler.go:180-194 | If that schedule is new to the job and to the copies that the sweep holds: if and only if no sweep with a snapshot older than the second write has written NextRun since the first write, or a sweep with a later snapshot has written it again |
| `Reschedules.RescheduleSafe` | api/handler.go:180-194 | If at the first write the sweep holds no copy of the job that it may still write, and no snapshot is taken before the second write, NextRun belongs to the asked schedule for good, and until the next snapshot it is the one that the handler wrote |
| `Reschedules.RescheduleRace` | api/handler.go:189-194 | From every state in which a sweep is about to write a job's NextRun, a reschedule can end with the new schedule stored and a NextRun computed from the old one |
| `Reschedules.OverlappingReschedules` | api/handler.go:189-194 | From every state two overlapping reschedules of a job can end with the schedule of the one and the NextRun of the other, with no sweep involved |
| `Reschedules.NewJobWaits` | api/handler.go:69-89 | A job that is created at any time, also while a sweep is in progress, keeps the NextRun computed from the handler's clock reading until the next snapshot, and between sweeps meets the conditions of the first theorem from that reading on |
| `Firings.NextAfterIsNext` | scheduler/scheduler.go:124-149 | Sweeping at nondecreasing times keeps NextRun equal to the next instant after the last sweep, also when a sweep finds the job not due |
| `Firings.FiresIffInstant` | scheduler/scheduler.go:124-128 | A sweep dispatches exactly when an instant lies after the sweep before it and not after its own clock, or the search for the next run had come back empty |
| `Firings.FiredCount` | scheduler/scheduler.go:102-151 | There are no fewer dispatches than intervals between sweeps that contain an instant, and as many if and only if no empty search was followed by an interval without an instant |
| `Firings.IntervalsAndInstants` | scheduler/scheduler.go:102-151 | That number is at most the number of instants, with equality if and only if no interval holds two |
| `Firings.FiredInOrder` | scheduler/scheduler.go:102-151 | Triggers are instants of the schedule, each later than the sweep of every earlier dispatch, if and only if no search came back empty |
| `Firings.AllFireIffOneEach` | scheduler/scheduler.go:102-151 | As long as the schedule does not run out, there are as many dispatches as instants and each instant triggers one, if and only if no interval between sweeps holds two |
| `Firings.OldTriggersOnlyFirst` | scheduler/scheduler.go:102-151 | Whatever NextRun was, it triggers at most the first dispatch; the others belong to the present schedule |
| `Firings.DueWithoutInstantIffZero` | scheduler/scheduler.go:124-126 | A job becomes due with no instant having passed exactly when the search for its next run had come back empty |
| `Firings.NeverFiringAlwaysDispatched` | scheduler/scheduler.go:124-149 | A schedule that never fires is dispatched by every sweep |
| `Schedules.NextRunHasSource` | api/handler.go:69-94 | In every run each job's NextRun is the next instant of some schedule that the job was created with or validly asked to take, computed at a time that has passed |
| `Schedules.StoredSchedulesValid` | api/handler.go:60-67 | In every run each stored schedule has exactly six words and is parsed by the library |
| `Schedules.HeldAsked` | scheduler/scheduler.go:140-144 | A job whose next run the sweep is about to compute is stored and its copy's schedule was validated, so the parse-error branch is not taken |
| `Schedules.DispatchMovesPast` | scheduler/scheduler.go:140-149 | The write after a dispatch stores the next instant after the sweep's clock; it lies strictly past it exactly when the search finds one |
| `Schedules.ApiKeepsLawful` | api/handler.go:48-228 | Handler steps, half-finished updates included, keep the provenance of schedules and next runs |
| `Deletion.NeverInactive` | models/job.go:15-22 | In every run each stored job is active or deleted; the inactive status is never used |
| `Deletion.DeleteTakesEffect` | api/handler.go:209-228 | After a delete the job is deleted for good, and its later submissions are at most what the sweep in progress still holds, which is at most one |
| `Deletion.DeleteIsPermanent` | repository/memory.go:171-185 | From any state in which a job is deleted no run revives it, and at most one more submission of it happens |
| `Deletion.DeletedStillSubmitted` | scheduler/scheduler.go:133-137 | From every state in which a sweep is about to submit a job, deleting it first does not prevent that submission |
| `LateSubmission.LateSubmissionIff` | scheduler/scheduler.go:116-139 | A deleted job is submitted once more in some run if and only if the sweep in progress holds it, will find it due at some time, and the queue does not block, or some worker has not left, or there is room for it and for what comes before it |
| `LateSubmission.DeleteLetsOneThrough` | api/handler.go:209-228 | So after a delete in any reachable state, what holds of the sweep, the queue and the workers at the delete decides whether one more submission can follow |
| `Deletion.CallKeepsDeleted` | repository/memory.go:131-185 | No repository call that the service makes takes a job out of the deleted status |
| `Conservation.NothingLostNothingTwice` | executor/executor.go:94-115 | In every run each submission is in exactly one place: queued, running in one worker, pending at one recorder, dropped, or recorded; nothing else is in any place; the queue never exceeds its capacity; the standard executor drops nothing |
| `Conservation.RunsAtMostOnce` | executor/executor_optimized.go:142-205 | No run puts a submission back into the queue, or into a worker after a worker has finished with it; recorded ones stay recorded |
| `TakingOrder.TakenInOrder` | executor/executor.go:93-115 | In every run the queue is in the order of submission, and all that is still queued was submitted after everything that a worker has in hand or has called for |
| `Conservation.PoolMoves` | executor/executor_optimized.go:156-214 | Every step of a worker or recorder moves a submission from one place to another or leaves it where it is |
| `Conservation.SubmitPlaces` | executor/executor_optimized.go:142-154 | A submission puts itself in one place and moves nothing else |
| `Conservation.RecordSucceeds` | executor/executor.go:169-178 | Storing the execution of a submitted job never fails, because jobs are never removed |
| `Records.FinishedAreRecorded` | executor/executor.go:163-185 | In every run the stored executions are exactly one for each recorded submission, of that submission's job; and LastExecuted of a job is the CompletedAt of a stored execution of that job |
| `Records.ExecutionsTruthful` | executor/executor.go:147-173 | In every run each stored execution is a success exactly if its status is from 200 to 299, and its completion time is not later than its storage time |
| `Calls.ExecutionsReportCalls` | executor/executor.go:117-209 | In every run the execution stored for a submission reports the HTTP call that was made for it: its duration; for an answer the status, the body, success exactly from 200 to 299 and otherwise the status text; for a failed call no status, no success, no body and the error that the kind of executor keeps. Outcome and duration are those of the step in which the call ended, and no submission has more than one call |
| `Executor.RecordingRecordsCall` | executor/executor_optimized.go:216-243 | Recording a call adds one execution that reports it, lists it last for its job and sets LastExecuted to the end of the call; for an unknown job only the counter moves |
| `Timing.TimesInOrder` | executor/executor.go:163-178 | In every run the execution of each recorded submission was completed at or after the clock reading of the sweep that submitted it, stored at or after its completion, and work in the queue, in workers and at recorders was submitted and taken in that order |
| `Counters.CountersAgree` | executor/executor_optimized.go:204-213 | In every run the optimized executor's processed counter and the workers about to count are together as many as the answered calls, the failed counter and the workers about to count a failure as many as the answers outside 200-299, failed is at most processed, each recorder holds the submission, the outcome and the duration of its own call, and once no worker is about to count, as when main returns, both counters are exact |
| `Counters.PoolKeepsCounted` | executor/executor_optimized.go:156-214 | Each step of a worker or recorder keeps these laws |
| `Records.RecordAdded` | executor/executor_optimized.go:216-243 | One more record keeps records and recorded submissions in one-to-one correspondence and changes no earlier execution |
| `Records.TouchBacks` | repository/memory.go:428-442 | Setting LastExecuted keeps it backed by an execution of the same job |
| `Shutdown.ReturnsLast` | main.go:88-114 | In every run the scheduler returns only once it is cancelled, the executor is stopped only after that, the reporter leaves only when the executor is cancelled, and main returns only after all workers and the reporter have left |
| `Shutdown.NeverPanics` | main.go:88-114 | With the deferred stops of main no Submit ever meets a closed queue |
| `Shutdown.StuckIffBlocked` | executor/executor.go:82-115 | Once shutdown has begun, a system that has not finished is stuck if and only if the executor is the standard one, its queue is full, all workers have left and the sweep still has a job to submit |
| `Shutdown.ShutdownMoves` | main.go:88-170 | Otherwise some awaited goroutine has a step to take |
| `Shutdown.BlockedForever` | scheduler/scheduler.go:75-82 | Nothing the outside world does gets a blocked system going again |
| `Shutdown.ShutdownEnds` | executor/executor_optimized.go:127-139 | A shutdown takes no more steps of its own than a bound that its present state determines, and a fixed number more for each sweep that the ticker still starts before the select sees the cancellation |
| `Shutdown.OwnRunHasNoTicker` | scheduler/scheduler.go:84-100 | A shutdown left to itself is one in which the ticker starts no more sweeps |
| `Shutdown.ShutdownCompletes` | executor/executor_optimized.go:127-170 | From every state of a shutdown the rest can be run to the return of main; with the standard executor to there or into the block |
| `ShutdownOutcome.StopLeavesQueuedIff` | executor/executor.go:81-90 | When the executor's Stop begins, a run to the return of main with jobs left in the queue exists if and only if jobs are queued then |
| `ShutdownOutcome.QueueLeftFromStart` | executor/executor.go:81-115 | Every service, with any valid schedule, can run from its start to the return of main with a job still queued |
| `ShutdownOutcome.BlockIff` | executor/executor.go:92-115 | Among a sweep's submissions, the shutdown by itself can run into the block if and only if the executor is the standard one, the signal has come, and more jobs are left to submit than the queue has room for |
| `ShutdownOutcome.RoomMeansReturn` | scheduler/scheduler.go:75-139 | With room enough every run that the shutdown takes by itself, and that cannot go on, has reached the return of main |
| `ShutdownOutcome.ReachableMidSweep` | main.go:88-114 | Every reachable state among a sweep's submissions, before the executor is stopped, meets the condition of these statements |
| `ShutdownOutcome.BlockHappens` | executor/executor.go:101-115 | From every state in which a sweep holds more jobs than the standard queue has room for, the service can run into the block |
| `ShutdownOutcome.BlockFromStart` | executor/executor.go:101-115 | Every standard service, with any valid schedule, can run from its start into the block |
| `PipelineInvariant.RunKeepsBase` | repository/memory.go:12-36 | In every run of the service the repository's invariant holds, no job disappears, lists of executions only grow at their ends, snapshots hold each job once, and everything submitted is a stored job |
| `PipelineInvariant.PlainKeepsStatus` | repository/memory.go:152-159 | An update that came as JSON changes neither status nor type |
| `PipelineInvariant.DecodedIsPlain` | api/handler.go:171-177 | No decoded JSON value has the dynamic type that a status or type change would need |
| `PipelineInvariant.DueFromSnapshot` | scheduler/scheduler.go:116-131 | The due jobs are exactly the jobs of the snapshot that are due, each once |
| `Sweeps.SweepWrites` | scheduler/scheduler.go:139-150 | The third loop gives each due job the next instant after the sweep's one clock reading of its copy's schedule, and the stamp of its own write, however long the writes take; it changes nothing else |
| `Sweeps.UninterruptedSweep` | scheduler/scheduler.go:102-151 | The uninterrupted steps of a sweep end with the due jobs queued as far as there is room and every next run written |
| `Scheduler.JobScheduler.DispatchDueJobs` | scheduler/scheduler.go:102-151 | The three loops over the heap: the due jobs of a snapshot of the active ones are queued in order as far as there is room; unless the standard executor's queue blocks them, all get the next run of the copy's schedule, each write with a stamp of its own, whatever order the snapshot has |
| `Scheduler.JobScheduler.CollectDue` | scheduler/scheduler.go:116-131 | The first loop returns the due copies, in order |
| `Scheduler.JobScheduler.SubmitDue` | scheduler/scheduler.go:133-139 | The second loop queues the longest prefix that fits, and blocks exactly in the standard executor when some do not fit |
| `Scheduler.JobScheduler.AdvanceDue` | scheduler/scheduler.go:141-150 | The third loop writes each next run while the copies, which share cells with the stored jobs, keep their values |
| `Scheduler.QueueTakesPrefix` | executor/executor_optimized.go:142-154 | Dropping what does not fit leaves the queue with the longest prefix that fits |
| `Executor.JobExecutor.Submit` | executor/executor.go:92-99 | Submitting no job does nothing; a full queue blocks the standard executor and makes the optimized one drop the job; otherwise the job is appended |
| `Executor.JobExecutor.RecordExecution` | executor/executor_optimized.go:216-243 | One execution record that reports the call field by field, and LastExecuted, each write with a stamp of its own, as the executor's kind prescribes when storing fails |
| `Executor.JobExecutor.CountCall` | executor/executor_optimized.go:204-213 | Only answered calls are counted, and only answers outside 200-299 count as failed |
| `Executor.ExecutorsAgree` | executor/executor.go:163-185 | For a stored job both executors leave the same store: one more execution, and LastExecuted equal to its completion |
| `Handler.ApiHandler.CreateJob` | api/handler.go:48-104 | The handler stores what its specification says and gives the matching answer, for every request and store |
| `Handler.CreationStores` | api/handler.go:60-104 | A creation succeeds exactly when the schedule has six words and is parsed by the library; it adds one active job under an unused id, due at the next instant after the handler's clock reading, with no executions |
| `Handler.ApiHandler.UpdateJob` | api/handler.go:168-206 | Both writes, each with a stamp of its own, or none for an invalid schedule, with the matching answer |
| `Handler.UpdateReschedules` | api/handler.go:180-194 | An uninterrupted update with a valid schedule leaves the job with that schedule and the next run computed from it, other jobs untouched, and status, type, creation time and LastExecuted as they were |
| `Handler.UpdateFields` | api/handler.go:168-206 | Read off the body: a string `api`, an object `metadata` and a string `schedule` replace the job's, with the next run computed from the schedule; anything else leaves these fields alone, and nothing changes type or status |
| `Handler.UpdateAnswers` | api/handler.go:168-206 | An update is refused exactly for a schedule that is not admissible, and finds nothing exactly if the job is not stored; then it changes nothing, and it never touches executions |
| `Handler.UpdateIsTwoSteps` | api/handler.go:190-194 | The handler's two writes, with any time between them, are two steps of the step system |
| `Handler.ApiHandler.DeleteJob` | api/handler.go:209-228 | The job, if there is one, is deleted; the answer tells which |
| `StoreInvariant.RunKeepsInv` | repository/memory.go:12-36 | Over every sequence of repository operations that leave ids to it: jobs and index have the same keys, every execution id stands exactly once in the lists and in its own job's list, lists are nondecreasing in execution time and only ever appended to, and the counter has passed every id |
| `StoreInvariant.EmptyStoreInv` | repository/memory.go:21-29 | A new repository satisfies that invariant |
| `StoreInvariant.OperationKeepsInv` | repository/memory.go:38-206 | Each operation keeps that invariant |
| `StoreInvariant.DistinctCountersDistinctIds` | repository/memory.go:31-36 | Ids generated from different counter values differ as strings, whatever the prefixes and time stamps |
| `StoreInvariant.IdTells` | repository/memory.go:31-36 | An id tells the time stamp and the counter value that it was generated from |
| `StoreInvariant.SuppliedIdBreaksIndexIffUsed` | repository/memory.go:188-206 | Storing an execution keeps the index right if and only if its id is not in use yet |
| `Repository.MemoryRepository.CreateJob` | repository/memory.go:38-60 | The heap operation changes the stored values as specified and returns the id or the conflict; a stored record that is handed in again is refused |
| `Repository.MemoryRepository.GetJob` | repository/memory.go:62-73 | The value of the stored job in objects that share nothing with it |
| `Repository.MemoryRepository.GetAllJobs` | repository/memory.go:75-101 | A page of unshared clones of the jobs with the asked status, in some order of all of these, with their total; no result where slicing panics |
| `Repository.MemoryRepository.CloneJob` | repository/memory.go:103-129 | Equal value, no shared object |
| `Repository.MemoryRepository.UpdateJob` | repository/memory.go:131-169 | Whatever order the updates are visited in, the job gets the named fields that have the right dynamic type, a new UpdatedAt, and nothing else; no other job changes |
| `Repository.MemoryRepository.DeleteJob` | repository/memory.go:171-185 | The job's status and UpdatedAt change and nothing else does |
| `Repository.MemoryRepository.CreateExecution` | repository/memory.go:187-206 | The execution is stored and listed last for its job, also when its record is stored already; for an unknown job only the counter may move |
| `Repository.MemoryRepository.GetJobExecutions` | repository/memory.go:208-241 | Fresh copies of the executions that the downward loop visits, for all arguments; none where the loop starts at or above the history's length and does not run; no result where indexing panics |
| `Repository.MemoryRepository.UpdateExecution` | repository/memory.go:243-284 | Whatever order the updates are visited in, the execution gets the named fields of the right dynamic type and keeps the others |
| `Repository.MemoryRepository.GetJobStats` | repository/memory.go:286-326 | The figures of the job's history |
| `Repository.MemoryRepository.GetSchedulerStats` | repository/memory.go:328-394 | Status counts and figures of the executions strictly between the two times, whatever order the maps are traversed in |
| `Repository.MemoryRepository.GetActiveJobs` | repository/memory.go:396-410 | One copy of each active job, with the stored job's own pointers |
| `Repository.MemoryRepository.UpdateJobNextRun` | repository/memory.go:412-426 | The job's NextRun is a new cell with the given time; nothing else but UpdatedAt changes |
| `Repository.MemoryRepository.UpdateJobLastExecuted` | repository/memory.go:428-442 | The job's LastExecuted is a new cell with the given time; nothing else but UpdatedAt changes |
| `StoreEffects.JobUpdated` | repository/memory.go:131-169 | Field by field: each of the five names sets its field if its value has the right dynamic type; without the name, or with another type, the field stays; all other fields, jobs and executions stay |
| `StoreEffects.ExecutionUpdated` | repository/memory.go:243-284 | The same for the six fields of an execution |
| `StoreEffects.JobCreated` | repository/memory.go:38-60 | A new job has its record's fields but for id, status and time stamps, and an empty list; a taken id changes nothing but the counter |
| `StoreEffects.JobDeleted` | repository/memory.go:171-185 | Status and UpdatedAt change; every other field, job and execution stays |
| `StoreEffects.NextRunSet` | repository/memory.go:412-426 | NextRun and UpdatedAt change; everything else stays |
| `StoreEffects.LastExecutedSet` | repository/memory.go:428-442 | LastExecuted and UpdatedAt change; everything else stays |
| `StoreEffects.ExecutionCreated` | repository/memory.go:187-206 | A new execution has its record's fields but for id and time stamp, and stands last in its job's list |
| `StoreEffects.UnknownIds` | repository/memory.go:131-284 | Calls about ids that are not stored change nothing |
| `StoreSpec.SetFieldExtends` | repository/memory.go:142-165 | Applying one more update to a job commutes with having applied the others, so their order does not matter |
| `StoreSpec.SetExecutionFieldExtends` | repository/memory.go:254-281 | The same for executions |
| `Isolation.PerformAll` | repository/memory.go:38-442 | Any sequence of mutations follows the specification and writes to the repository and its records only |
| `Isolation.HeldRecordsKeepValues` | repository/memory.go:396-442 | Records that the repository does not store keep all their values under any sequence of operations, even where cells are shared |
| `Isolation.CloneSurvives` | repository/memory.go:62-73 | So does a job returned by GetJob |
| `Isolation.PageSurvives` | repository/memory.go:75-101 | So do the jobs on a page of GetAllJobs |
| `Isolation.ActiveCopiesSurvive` | repository/memory.go:396-410 | So do the copies that a sweep works on |
| `Isolation.ScribbleOnClone` | repository/memory.go:103-129 | Writing through the time pointers or the metadata of a clone never changes the store |
| `Isolation.ScribbleApart` | repository/memory.go:75-129 | The same for every record that shares nothing with the repository, as those on a page |
| `Isolation.ScribbleOnActive` | repository/memory.go:396-410 | Writing through the pointer of an active copy does change the store: these copies are shallow |
| `Paging.LoopYieldsPage` | repository/memory.go:220-238 | For all nonnegative 64-bit limits and offsets the loop yields exactly that page of the reversed history, even where the sum overflows |
| `Paging.PagesTile` | repository/memory.go:220-238 | Consecutive pages of any size tile the reversed history |
| `Paging.PageShifts` | repository/memory.go:201-238 | After one new execution the page at offset + 1 is the old page at offset |
| `Paging.SlicePanicsIffOverflow` | repository/memory.go:89-100 | GetAllJobs panics if and only if start plus limit leaves the 64-bit range; otherwise its bounds are those of the page |
| `Figures.JobFigures` | repository/memory.go:286-326 | A job's statistics count the successes and the failures in its history, and give the sum of its response times divided and truncated towards zero |
| `Figures.RangeFigures` | repository/memory.go:371-385 | The figures of an open range: how many executions lie strictly inside, how many of them are successes and failures, and the sum of their response times in any order |
| `Figures.SchedulerFigures` | repository/memory.go:328-394 | The scheduler's statistics count the jobs with each status, which add up to all jobs but those of other statuses, and the executions inside the range with their average |
| `Statistics.JobStatsAgree` | repository/memory.go:286-326 | Successes plus failures are the total, the average lies between the least and the greatest response time, and the last execution time is that of the newest listed execution |
| `Statistics.LatestIsLast` | repository/memory.go:313-316 | The running maximum over a history in time order is its last time stamp |
| `Statistics.SchedulerAgreesWithJobs` | repository/memory.go:328-394 | Over a range with all executions the scheduler's figures are the sums of the per-job figures |
| `Statistics.AnyOrderSums` | repository/memory.go:372-382 | Every traversal order of the executions gives the same sums |
| `Statistics.SplitRangeLosesStamp` | repository/memory.go:373-373 | Splitting an open range at a time loses exactly the executions stamped with it |
| `Validator.RecognisesTheGrammar` | cron/validator.go:9-115 | A string is accepted if and only if the grammar derives it: lists of stars, question marks, numbers, names, ordered ranges and positive steps |
| `Validator.AcceptedFieldDenotesValues` | cron/validator.go:9-115 | Every accepted field denotes a nonempty set of values within its bounds |
| `Validator.ExpressionAcceptedByFields` | cron/validator.go:128-160 | An expression is accepted if and only if it has six words and each is derived by the grammar for its place, with the bounds and names of seconds, minutes, hours, days, months and weekdays |
| `Validator.NamesRead` | cron/validator.go:117-125 | The names of months and weekdays are read in any mixture of upper and lower case |
| `Text.FieldsAreWords` | cron/validator.go:128-132 | The fields of an expression are its longest stretches without white space, in order |
| `Text.FieldCount` | cron/parser.go:35-38 | There are as many fields as places where such a stretch starts |
| `Text.AtoiReads` | cron/validator.go:50-55 | A string of digits with or without a sign is read as the number it writes, if that fits 64 bits |
| `Text.AtoiRefuses` | cron/validator.go:50-55 | Nothing else is read |
| `Text.SpacesAre` | cron/parser.go:35-35 | White space is what Unicode calls so: these 25 characters |
| `Text.TrimTakesSpace` | cron/validator.go:18-36 | Trimming takes white space off both ends, all of it and nothing else |
| `Validator.RangeWithStepRejected` | cron/validator.go:27-77 | No item with both a hyphen and a slash is accepted, whatever the comment at line 64 says |
| `Validator.StepStartIsNoRange` | cron/validator.go:71-78 | The step branch never meets a hyphen in its start |
| `Cron.NextIsLeast` | cron/parser.go:54-62 | A next run is an instant after the given time with no instant between |
| `Cron.NextStable` | cron/parser.go:54-62 | Asking again at any time before the next run gives the same next run |
| `Cron.DueIffInstant` | scheduler/scheduler.go:124-126 | A job is due exactly when an instant has passed since its next run was computed |
| `Cron.GetNextNRuns` | cron/parser.go:64-87 | All instants after the given time up to the last one returned, in order and without a gap; fewer than asked for only if the search came back empty; an error exactly for a count that is not positive or an expression that does not parse |
| `Cron.ValidatedParses` | cron/parser.go:29-62 | What validates is never refused when the next run is computed |
| `Cron.NextRunFails` | cron/parser.go:54-62 | Computing the next run fails exactly for what the library does not parse |
| `Cron.ValidateIff` | cron/parser.go:28-49 | A schedule is admitted if and only if it has exactly six words and the library parses it; otherwise the error is that it is empty, or its number of words, or that it does not parse |
| `RateLimiter.Limiter.Allow` | api/middleware.go:88-105 | The class decides and changes as the decision function says |
| `RateLimiter.EffectiveLimits` | api/router.go:28-33 | Installed limits are positive, and those asked for if they are |
| `RateLimiter.AdmittedIff` | api/middleware.go:88-105 | Whatever the time stamps, a request is admitted if and only if it comes when the window is over, or its client has used less than the limit in the present window; windows and use are also told from the requests alone |
| `RateLimiter.OthersDoNotMatter` | api/middleware.go:88-105 | Leaving out the requests of other clients that open no window changes no decision about a client |
| `RateLimiter.CounterCountsAdmissions` | api/middleware.go:88-105 | Whatever the time stamps, the counter equals the admissions since the window was opened and never passes the limit |
| `RateLimiter.TwiceTheLimitAtMost` | api/middleware.go:88-105 | With nondecreasing time stamps no interval as long as the window admits more than twice the limit from one client |
| `RateLimiter.TwiceTheLimitReached` | api/middleware.go:88-105 | That bound is reached for every limit |

## Left out

- Repository.MemoryRepository.CreateJob: a stored record may be handed in again under its own id; one whose id a caller has since changed in place is excluded, because the repository would then hold it under two keys.
- Repository.MemoryRepository.CreateExecution: likewise for execution records.
- Executor.JobExecutor.CountCall: the 64-bit wrap-around of the counters is not modelled.
- Validator.ValidateField: which of its messages a rejected field gets is modelled, but only acceptance has laws; no part of the service calls it.
- Handler.ApiHandler.UpdateJob: nothing happens between its two writes but the passing of time; interleavings are in the step system.
- Scheduler.JobScheduler.DispatchDueJobs: likewise for a sweep; the clock reading that decides what is due is one parameter, and each write's stamp is another.
- Goroutines, select statements and tickers are steps that may happen at any time; fairness and the length of a poll interval are not modelled, so nothing says that a sweep comes in time.
- Start and Stop called twice do nothing the second time; each is modelled as called once, as main does.
- HTTP is a nondeterministic outcome of a call: an error, or a status with a body. Timeouts, TLS, transport settings, the limit on the body's size and request building are not modelled.
- Request binding, routing, CORS, response bodies and query parameters are left out; a body is an already decoded JSON object.
- The CRON library is a parameter. Its descriptors and time zones, daylight saving, and which expressions it parses are not modelled; nor is whether it accepts what the field recogniser accepts.
- Text: upper-casing covers ASCII and the two letters whose upper case is ASCII; other letters keep their case.
- RetryCount and RequestBody of an execution are never set by the service and are left out.
- Statistics report pointers into stored records; the model reports the times they point to. Percentages in floating point are left out.
- The id counter, execution counts and sums of response times are unbounded integers.
- Metrics, logging and the gauge of active jobs have no effect on control. Repeated deletes decrement the gauge again, so no claim is made about it.
- Flags, environment variables, ExplainExpression, IsWithinTimeWindow, scripts, containers and dashboards are left out.
