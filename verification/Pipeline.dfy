/** The service as one step system: the scheduler's sweep, the executor's workers and recorders, API handlers and
    the shutdown sequence, interleaved at the repository calls, channel operations and clock readings. */
module Pipeline {
  import opened Common
  import opened Models
  import opened StoreSpec
  import opened Cron

  datatype Kind = Standard | Optimized

  datatype Config = Config(
    lib: Library,
    statusText: int -> string,    // http.StatusText
    kind: Kind,
    workers: nat,
    capacity: nat)
  {
    /** The constructors of both executors replace sizes that are not positive. */
    ghost predicate Valid() {
      lib.Valid() && workers > 0 && capacity > 0
    }
  }

  /** One call of Submit: the job and the clock reading of its sweep; `serial` only labels it. */
  datatype Submission = Submission(serial: nat, job: Job, at: Time)

  /** Where `run` and `dispatchDueJobs` stand. */
  datatype Sweep =
    | Starting
    | Waiting
    | Loaded(jobs: seq<Job>)
    | Submitting(now: Time, due: seq<Job>, next: nat)
    | Advancing(now: Time, due: seq<Job>, next: nat)
    | Returned

  /** How the HTTP call of an execution ended. */
  datatype Outcome = Failed(error: string) | Response(status: int, body: string)

  /** An HTTP call that has ended. */
  datatype Call = Call(work: Submission, outcome: Outcome, duration: Duration)

  datatype Worker =
    | Idle
    | Running(work: Submission, since: Time)                       // since the clock showed this time
    | Touching(job: string, completed: Time, execution: string)    // about to call UpdateJobLastExecuted
    | Counting(success: bool)                                      // about to update the counters
    | Left

  datatype Recorder =
    | Recording(work: Submission, outcome: Outcome, duration: Duration, since: Time)
    | RecorderTouching(job: string, completed: Time, execution: string)
    | Closed

  datatype Pool = Pool(
    queue: seq<Submission>,
    workers: seq<Worker>,
    recorders: seq<Recorder>,
    reporter: bool,    // the metrics goroutine is running
    processed: nat,
    failed: nat)

  /** Where main's `run` stands in its deferred calls. */
  datatype Main = Serving | StoppingScheduler | ClosingQueue | AwaitingWorkers | Done

  /** An update request between its two writes, or after the second one. */
  datatype PendingUpdate = PendingUpdate(id: string, changes: map<string, Dynamic<Metadata>>, finished: bool)

  datatype Poll = Poll(at: Time, due: seq<Job>)

  /** What has happened so far. No step depends on it. */
  datatype Trace = Trace(
    log: seq<Submission>,
    polls: seq<Poll>,
    dropped: seq<Submission>,
    recorded: seq<Submission>,
    records: seq<string>,                    // the ids of their execution records
    calls: seq<Call>,                        // the HTTP calls that have ended
    asked: set<(string, string)>,            // the schedules that each job was created with or validly asked to take
    origin: map<string, (string, Time)>,     // the schedule and the instant that each NextRun was computed from
    touched: map<string, string>)            // the execution behind each LastExecuted

  datatype State = State(
    store: Store,
    clock: Time,
    sweep: Sweep,
    pool: Pool,
    updates: seq<PendingUpdate>,
    main: Main,
    signalled: bool,
    panicked: bool,
    trace: Trace)
  {
    predicate SchedulerCancelled() {
      signalled || main != Serving
    }

    predicate ExecutorCancelled() {
      signalled || QueueCloses() || main == ClosingQueue
    }

    predicate QueueCloses() {
      main == AwaitingWorkers || main == Done
    }
  }

  datatype JobRequest = JobRequest(schedule: string, api: string, jobType: JobType, metadata: Option<Metadata>)

  /** Handlers. `from` is the handler's own clock reading. */
  datatype ApiAction =
    | Create(request: JobRequest, from: Time, stamp: nat)
    | Update(id: string, body: map<string, Json>, from: Time)    // up to the first write
    | FinishUpdate(k: nat)                                       // the second write
    | Delete(id: string)

  datatype SweepAction = Load(order: seq<string>) | Filter | Submit | Advance | Return

  datatype PoolAction =
    | Take(w: nat)
    | Record(w: nat, outcome: Outcome, duration: Duration, completed: Time, stamp: nat)
    | Touch(w: nat)
    | Spawn(w: nat, outcome: Outcome, duration: Duration)
    | Count(w: nat)
    | Leave(w: nat)
    | RecorderCreate(r: nat, completed: Time, stamp: nat)
    | RecorderTouch(r: nat)
    | LeaveReporter

  datatype MainAction = Signal | StopScheduler | CancelExecutor | CloseQueue | Finish

  datatype Action =
    | Tick(t: Time)
    | Api(api: ApiAction)
    | Scheduler(sweep: SweepAction)
    | Executor(pool: PoolAction)
    | Shutdown(main: MainAction)

  const NO_TRACE := Trace([], [], [], [], [], [], {}, map[], map[])

  function Initial(cfg: Config, clock: Time): State {
    State(EMPTY, clock, Starting,
          Pool([], seq(cfg.workers, _ => Idle), [], cfg.kind == Optimized, 0, 0),
          [], Serving, false, false, NO_TRACE)
  }

  // ---------- which steps are possible ----------

  predicate ApiEnabled(st: State, a: ApiAction) {
    match a
    case Create(_, from, _) => from <= st.clock
    case Update(_, _, from) => from <= st.clock
    case FinishUpdate(k) => k < |st.updates| && !st.updates[k].finished
    case Delete(_) => true
  }

  /** Submit blocks only in the standard executor. A send on a closed channel does not block: it panics. */
  ghost predicate SweepEnabled(cfg: Config, st: State, a: SweepAction) {
    match a
    case Load(order) => (st.sweep.Starting? || st.sweep.Waiting?) && Enumerates(order, JobsWith(st.store, Active))
    case Filter => st.sweep.Loaded?
    case Submit =>
      && st.sweep.Submitting? && st.sweep.next <= |st.sweep.due|
      && (st.sweep.next == |st.sweep.due| || st.QueueCloses() || cfg.kind == Optimized
          || |st.pool.queue| < cfg.capacity)
    case Advance => st.sweep.Advancing? && st.sweep.next <= |st.sweep.due|
    case Return => st.sweep.Waiting? && st.SchedulerCancelled()
  }

  predicate PoolEnabled(cfg: Config, st: State, a: PoolAction) {
    match a
    case Take(w) => w < |st.pool.workers| && st.pool.workers[w].Idle? && st.pool.queue != []
    case Record(w, _, _, completed, _) =>
      cfg.kind == Standard && w < |st.pool.workers| && st.pool.workers[w].Running?
      && st.pool.workers[w].since <= completed <= st.clock
    case Touch(w) => w < |st.pool.workers| && st.pool.workers[w].Touching?
    case Spawn(w, _, _) => cfg.kind == Optimized && w < |st.pool.workers| && st.pool.workers[w].Running?
    case Count(w) => w < |st.pool.workers| && st.pool.workers[w].Counting?
    case Leave(w) =>
      w < |st.pool.workers| && st.pool.workers[w].Idle?
      && (st.ExecutorCancelled() || (st.QueueCloses() && st.pool.queue == []))
    case RecorderCreate(r, completed, _) =>
      r < |st.pool.recorders| && st.pool.recorders[r].Recording?
      && st.pool.recorders[r].since <= completed <= st.clock
    case RecorderTouch(r) => r < |st.pool.recorders| && st.pool.recorders[r].RecorderTouching?
    case LeaveReporter => st.pool.reporter && st.ExecutorCancelled()
  }

  predicate MainEnabled(st: State, a: MainAction) {
    match a
    case Signal => true
    case StopScheduler => st.main == Serving    // after the signal, or because the server failed
    case CancelExecutor => st.main == StoppingScheduler && st.sweep.Returned?
    case CloseQueue => st.main == ClosingQueue
    case Finish => st.main == AwaitingWorkers && AllLeft(st.pool)
  }

  /** Every goroutine that the executor's WaitGroup counts has returned. */
  predicate AllLeft(pool: Pool) {
    !pool.reporter && forall w :: 0 <= w < |pool.workers| ==> pool.workers[w].Left?
  }

  ghost predicate Enabled(cfg: Config, st: State, a: Action) {
    && !st.panicked && st.main != Done
    && match a {
         case Tick(t) => st.clock <= t
         case Api(api) => ApiEnabled(st, api)
         case Scheduler(sweep) => SweepEnabled(cfg, st, sweep)
         case Executor(pool) => PoolEnabled(cfg, st, pool)
         case Shutdown(main) => MainEnabled(st, main)
       }
  }

  // ---------- the repository call of each step ----------

  function NewJob(lib: Library, request: JobRequest, from: Time): Job {
    Job("", request.schedule, request.api, request.jobType, Inactive, 0, 0, None,
        Some(Next(lib, request.schedule, from)), request.metadata)
  }

  /** The schedule that an update asks for, if its body has a string under that key. */
  function AskedSchedule(body: map<string, Json>): Option<string> {
    if "schedule" in body && body["schedule"].Str? then Some(body["schedule"].s) else None
  }

  /** What an executor stores about a call. The optimized one has no use for the error of a failed call. */
  function ExecutionOf(cfg: Config, job: string, outcome: Outcome, duration: Duration, completed: Time): Execution {
    match outcome
    case Failed(error) =>
      Execution("", job, 0, Some(completed), 0, duration, false,
                if cfg.kind == Standard then error else cfg.statusText(0), "")
    case Response(status, body) =>
      var success := 200 <= status < 300;
      Execution("", job, 0, Some(completed), status, duration, success,
                if success then "" else cfg.statusText(status), body)
  }

  function ApiCall(cfg: Config, st: State, a: ApiAction): Option<Operation>
    requires ApiEnabled(st, a)
  {
    match a
    case Create(request, from, stamp) =>
      if Validate(cfg.lib, request.schedule).None? then Some(CreateJobOp(NewJob(cfg.lib, request, from), stamp, st.clock))
      else None
    case Update(id, body, from) =>
      var asked := AskedSchedule(body);
      if asked.Some? && Validate(cfg.lib, asked.value).None?
      then Some(UpdateJobNextRunOp(id, Next(cfg.lib, asked.value, from), st.clock))
      else None
    case FinishUpdate(k) => Some(UpdateJobOp(st.updates[k].id, st.updates[k].changes, st.clock))
    case Delete(id) => Some(DeleteJobOp(id, st.clock))
  }

  function SweepCall(cfg: Config, st: State, a: SweepAction): Option<Operation>
    requires SweepEnabled(cfg, st, a)
  {
    if a.Advance? && st.sweep.next < |st.sweep.due| then
      var job := st.sweep.due[st.sweep.next];
      var nextRun := GetNextRun(cfg.lib, job.schedule, st.sweep.now);
      if nextRun.Ok? then Some(UpdateJobNextRunOp(job.id, nextRun.value, st.clock)) else None
    else None
  }

  function PoolCall(cfg: Config, st: State, a: PoolAction): Option<Operation>
    requires PoolEnabled(cfg, st, a)
  {
    match a
    case Record(w, outcome, duration, completed, stamp) =>
      var job := st.pool.workers[w].work.job.id;
      Some(CreateExecutionOp(ExecutionOf(cfg, job, outcome, duration, completed), stamp, st.clock))
    case Touch(w) =>
      Some(UpdateJobLastExecutedOp(st.pool.workers[w].job, st.pool.workers[w].completed, st.clock))
    case RecorderCreate(r, completed, stamp) =>
      var e := st.pool.recorders[r];
      Some(CreateExecutionOp(ExecutionOf(cfg, e.work.job.id, e.outcome, e.duration, completed), stamp, st.clock))
    case RecorderTouch(r) =>
      Some(UpdateJobLastExecutedOp(st.pool.recorders[r].job, st.pool.recorders[r].completed, st.clock))
    case _ => None
  }

  function Perform(s: Store, call: Option<Operation>): Store {
    if call.Some? then Apply(s, call.value) else s
  }

  /** The outcome of a CreateExecution call. */
  function Stored(s: Store, call: Operation): Result<string, RepoError>
    requires call.CreateExecutionOp?
  {
    CreateExecution(s, call.execution, call.stamp, call.now).1
  }

  // ---------- the effect of each step ----------

  /** One of the handlers' repository calls, or an update refused. */
  function ApiStep(cfg: Config, st: State, a: ApiAction): State
    requires ApiEnabled(st, a)
  {
    ApiEffect(cfg, st, a).(store := Perform(st.store, ApiCall(cfg, st, a)))
  }

  /** What a handler's step does besides its repository call. */
  function ApiEffect(cfg: Config, st: State, a: ApiAction): State
    requires ApiEnabled(st, a)
  {
    match a
    case Create(request, from, stamp) =>
      if Validate(cfg.lib, request.schedule).None?
      then st.(trace := Asked(st.trace, NewId("job", stamp, st.store.counter), request.schedule, from))
      else st
    case Update(id, body, from) =>
      var asked := AskedSchedule(body);
      if asked.None? then st.(updates := st.updates + [PendingUpdate(id, DecodedObject(body), false)])
      else if Validate(cfg.lib, asked.value).Some? then st
      else st.(updates := st.updates + [PendingUpdate(id, DecodedObject(body), false)],
               trace := Asked(st.trace, id, asked.value, from))
    case FinishUpdate(k) => st.(updates := st.updates[k := st.updates[k].(finished := true)])
    case Delete(_) => st
  }

  function Asked(trace: Trace, id: string, schedule: string, from: Time): Trace {
    trace.(asked := trace.asked + {(id, schedule)}, origin := trace.origin[id := (schedule, from)])
  }

  /** The stored values of the listed jobs. */
  function Snapshot(s: Store, order: seq<string>): seq<Job>
    requires forall i :: 0 <= i < |order| ==> order[i] in s.jobs
  {
    seq(|order|, i requires 0 <= i < |order| => s.jobs[order[i]])
  }

  predicate IsDue(job: Job, now: Time) {
    job.nextRun.Some? && now >= job.nextRun.value
  }

  function DueJobs(jobs: seq<Job>, now: Time): seq<Job> {
    if jobs == [] then []
    else
      var rest := DueJobs(jobs[..|jobs| - 1], now);
      if IsDue(jobs[|jobs| - 1], now) then rest + [jobs[|jobs| - 1]] else rest
  }

  function SubmitJob(cfg: Config, st: State, job: Job, now: Time): State {
    var work := Submission(|st.trace.log|, job, now);
    var logged := st.(trace := st.trace.(log := st.trace.log + [work]));
    if st.QueueCloses() then logged.(panicked := true)
    else if |st.pool.queue| < cfg.capacity then logged.(pool := st.pool.(queue := st.pool.queue + [work]))
    else logged.(trace := logged.trace.(dropped := st.trace.dropped + [work]))
  }

  function SweepStep(cfg: Config, st: State, a: SweepAction): State
    requires SweepEnabled(cfg, st, a)
  {
    SweepEffect(cfg, st, a).(store := Perform(st.store, SweepCall(cfg, st, a)))
  }

  function SweepEffect(cfg: Config, st: State, a: SweepAction): State
    requires SweepEnabled(cfg, st, a)
  {
    match a
    case Load(order) => st.(sweep := Loaded(Snapshot(st.store, order)))
    case Filter =>
      var due := DueJobs(st.sweep.jobs, st.clock);
      st.(sweep := Submitting(st.clock, due, 0), trace := st.trace.(polls := st.trace.polls + [Poll(st.clock, due)]))
    case Submit =>
      if st.sweep.next == |st.sweep.due| then st.(sweep := Advancing(st.sweep.now, st.sweep.due, 0))
      else SubmitJob(cfg, st, st.sweep.due[st.sweep.next], st.sweep.now)
             .(sweep := Submitting(st.sweep.now, st.sweep.due, st.sweep.next + 1))
    case Advance =>
      if st.sweep.next == |st.sweep.due| then st.(sweep := Waiting)
      else
        var job := st.sweep.due[st.sweep.next];
        var st' := st.(sweep := Advancing(st.sweep.now, st.sweep.due, st.sweep.next + 1));
        if GetNextRun(cfg.lib, job.schedule, st.sweep.now).Ok?
        then st'.(trace := st.trace.(origin := st.trace.origin[job.id := (job.schedule, st.sweep.now)]))
        else st'
    case Return => st.(sweep := Returned)
  }

  function WithWorker(st: State, w: nat, worker: Worker): State
    requires w < |st.pool.workers|
  {
    st.(pool := st.pool.(workers := st.pool.workers[w := worker]))
  }

  function WithRecorder(st: State, r: nat, recorder: Recorder): State
    requires r < |st.pool.recorders|
  {
    st.(pool := st.pool.(recorders := st.pool.recorders[r := recorder]))
  }

  function WithCall(trace: Trace, call: Call): Trace {
    trace.(calls := trace.calls + [call])
  }

  function WithRecord(trace: Trace, work: Submission, id: string): Trace {
    trace.(recorded := trace.recorded + [work], records := trace.records + [id])
  }

  function PoolStep(cfg: Config, st: State, a: PoolAction): State
    requires PoolEnabled(cfg, st, a)
  {
    PoolEffect(cfg, st, a).(store := Perform(st.store, PoolCall(cfg, st, a)))
  }

  function PoolEffect(cfg: Config, st: State, a: PoolAction): State
    requires PoolEnabled(cfg, st, a)
  {
    match a
    case Take(w) =>
      st.(pool := st.pool.(queue := st.pool.queue[1..],
                              workers := st.pool.workers[w := Running(st.pool.queue[0], st.clock)]))
    case Record(w, outcome, duration, completed, _) =>
      var work := st.pool.workers[w].work;
      var called := WithCall(st.trace, Call(work, outcome, duration));
      var stored := Stored(st.store, PoolCall(cfg, st, a).value);
      if stored.Ok? then
        WithWorker(st, w, Touching(work.job.id, completed, stored.value))
          .(trace := WithRecord(called, work, stored.value))
      else WithWorker(st, w, Idle).(trace := called)
    case Touch(w) =>
      var worker := st.pool.workers[w];
      WithWorker(st, w, Idle).(trace := st.trace.(touched := st.trace.touched[worker.job := worker.execution]))
    case Spawn(w, outcome, duration) =>
      var work := st.pool.workers[w].work;
      var recorder := Recording(work, outcome, duration, st.clock);
      WithWorker(st.(pool := st.pool.(recorders := st.pool.recorders + [recorder])), w,
                 if outcome.Response? then Counting(200 <= outcome.status < 300) else Idle)
        .(trace := WithCall(st.trace, Call(work, outcome, duration)))
    case Count(w) =>
      var pool := st.pool.(processed := st.pool.processed + 1,
                           failed := st.pool.failed + (if st.pool.workers[w].success then 0 else 1));
      WithWorker(st.(pool := pool), w, Idle)
    case Leave(w) => WithWorker(st, w, Left)
    case RecorderCreate(r, completed, _) =>
      var work := st.pool.recorders[r].work;
      var stored := Stored(st.store, PoolCall(cfg, st, a).value);
      if stored.Ok? then
        WithRecorder(st, r, RecorderTouching(work.job.id, completed, stored.value))
          .(trace := WithRecord(st.trace, work, stored.value))
      else WithRecorder(st, r, RecorderTouching(work.job.id, completed, ""))
    case RecorderTouch(r) =>
      var recorder := st.pool.recorders[r];
      WithRecorder(st, r, Closed)
        .(trace := st.trace.(touched := st.trace.touched[recorder.job := recorder.execution]))
    case LeaveReporter => st.(pool := st.pool.(reporter := false))
  }

  predicate OfWorker(a: PoolAction) {
    !a.RecorderCreate? && !a.RecorderTouch? && !a.LeaveReporter?
  }

  /** A step of a worker changes that worker and no other one. */
  lemma WorkerShape(cfg: Config, st: State, a: PoolAction)
    requires PoolEnabled(cfg, st, a)
    ensures var workers := PoolEffect(cfg, st, a).pool.workers;
            if OfWorker(a) then
              && a.w < |st.pool.workers| && workers == st.pool.workers[a.w := workers[a.w]]
              && (workers[a.w].Running? ==> workers[a.w].since == st.clock)
              && (workers[a.w].Left? ==> a.Leave?)
            else workers == st.pool.workers
  {
  }

  /** Only Take touches the queue and makes a worker run, and records are only added. */
  lemma PoolShape(cfg: Config, st: State, a: PoolAction)
    requires PoolEnabled(cfg, st, a)
    ensures var st' := PoolEffect(cfg, st, a);
            && st'.sweep == st.sweep && st'.main == st.main && st'.clock == st.clock
            && st.trace.recorded <= st'.trace.recorded && st'.trace.log == st.trace.log
            && if a.Take? then
                 && st'.pool.queue == st.pool.queue[1..]
                 && st'.pool.workers == st.pool.workers[a.w := Running(st.pool.queue[0], st.clock)]
               else
                 && st'.pool.queue == st.pool.queue
                 && (OfWorker(a) ==> a.w < |st'.pool.workers| && !st'.pool.workers[a.w].Running?)
  {
    hide PoolCall, Stored, ExecutionOf;
  }

  /** Only Spawn starts a recorder, and none goes back to recording. */
  lemma RecorderShape(cfg: Config, st: State, a: PoolAction)
    requires PoolEnabled(cfg, st, a)
    ensures var before, after := st.pool.recorders, PoolEffect(cfg, st, a).pool.recorders;
            if a.Spawn? then
              after == before + [Recording(st.pool.workers[a.w].work, a.outcome, a.duration, st.clock)]
            else
              && |after| == |before|
              && forall r :: 0 <= r < |after| && after[r].Recording? ==> after[r] == before[r]
  {
    hide PoolCall, Stored, ExecutionOf;
  }

  /** The call that ends with a step. */
  function CallEnded(st: State, a: PoolAction): seq<Call>
    requires a.Record? || a.Spawn? ==> a.w < |st.pool.workers| && st.pool.workers[a.w].Running?
  {
    if a.Record? || a.Spawn? then [Call(st.pool.workers[a.w].work, a.outcome, a.duration)] else []
  }

  lemma CallsShape(cfg: Config, st: State, a: PoolAction)
    requires PoolEnabled(cfg, st, a)
    ensures PoolEffect(cfg, st, a).trace.calls == st.trace.calls + CallEnded(st, a)
    ensures !a.Record? && !a.Spawn? ==> PoolEffect(cfg, st, a).trace.calls == st.trace.calls
  {
    hide PoolCall, Stored, ExecutionOf;
  }

  function MainStep(st: State, a: MainAction): State
    requires MainEnabled(st, a)
  {
    match a
    case Signal => st.(signalled := true)
    case StopScheduler => st.(main := StoppingScheduler)
    case CancelExecutor => st.(main := ClosingQueue)
    case CloseQueue => st.(main := AwaitingWorkers)
    case Finish => st.(main := Done)
  }

  ghost function Step(cfg: Config, st: State, a: Action): State
    requires Enabled(cfg, st, a)
  {
    match a
    case Tick(t) => st.(clock := t)
    case Api(api) => ApiStep(cfg, st, api)
    case Scheduler(sweep) => SweepStep(cfg, st, sweep)
    case Executor(pool) => PoolStep(cfg, st, pool)
    case Shutdown(main) => MainStep(st, main)
  }

  /** The state after a sequence of steps, if each of them is possible when its turn comes. */
  ghost function Run(cfg: Config, st: State, steps: seq<Action>): Option<State> {
    if steps == [] then Some(st)
    else
      var before := Run(cfg, st, steps[..|steps| - 1]);
      if before.Some? && Enabled(cfg, before.value, steps[|steps| - 1])
      then Some(Step(cfg, before.value, steps[|steps| - 1]))
      else None
  }

  /** Runs compose. */
  lemma {:induction false} RunSplits(cfg: Config, st: State, first: seq<Action>, second: seq<Action>)
    requires Run(cfg, st, first).Some?
    ensures Run(cfg, st, first + second) == Run(cfg, Run(cfg, st, first).value, second)
  {
    if second == [] {
      assert first + second == first;
    } else {
      var n := |second| - 1;
      RunSplits(cfg, st, first, second[..n]);
      assert (first + second)[..|first + second| - 1] == first + second[..n];
    }
  }

  /** The state one step before the end of a run, which every state but the first has. */
  ghost function Before(cfg: Config, st: State, steps: seq<Action>): State
    requires steps != [] && Run(cfg, st, steps).Some?
  {
    Run(cfg, st, steps[..|steps| - 1]).value
  }

  lemma {:induction false} PrependStep(cfg: Config, st: State, a: Action, rest: seq<Action>)
    requires Enabled(cfg, st, a)
    ensures Run(cfg, st, [a] + rest) == Run(cfg, Step(cfg, st, a), rest)
  {
    var none: seq<Action> := [];
    assert [a][..0] == none;
    assert Run(cfg, st, none) == Some(st);
    assert Run(cfg, st, [a]) == Some(Step(cfg, st, a));
    RunSplits(cfg, st, [a], rest);
  }

  lemma {:induction false} LastStep(cfg: Config, st: State, steps: seq<Action>)
    requires steps != [] && Run(cfg, st, steps).Some?
    ensures Run(cfg, st, steps[..|steps| - 1]) == Some(Before(cfg, st, steps))
    ensures Enabled(cfg, Before(cfg, st, steps), steps[|steps| - 1])
    ensures Run(cfg, st, steps) == Some(Step(cfg, Before(cfg, st, steps), steps[|steps| - 1]))
  {
    hide Enabled, Step;
  }

  lemma {:induction false} AppendStep(cfg: Config, st: State, steps: seq<Action>, a: Action)
    requires Run(cfg, st, steps).Some? && Enabled(cfg, Run(cfg, st, steps).value, a)
    ensures Run(cfg, st, steps + [a]) == Some(Step(cfg, Run(cfg, st, steps).value, a))
  {
    hide Enabled, Step;
    assert (steps + [a])[..|steps|] == steps;
  }
}
