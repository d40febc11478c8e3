/** How shutdowns end: with jobs left in the queue, or blocked, and what decides it when the shutdown begins. */
module ShutdownOutcome {
  import opened Common
  import opened Models
  import opened StoreSpec
  import opened StoreInvariant
  import opened Cron
  import opened Pipeline
  import opened PipelineInvariant
  import opened Shutdown
  import Conservation
  import Sweeps

  // ---------- workers that leave without taking more work ----------

  /** Everything but the workers and what they write is the same. */
  predicate SameFront(st: State, st': State) {
    && st'.sweep == st.sweep && st'.main == st.main && st'.signalled == st.signalled && st'.panicked == st.panicked
    && st'.pool.queue == st.pool.queue && st'.pool.reporter == st.pool.reporter
  }

  /** A worker's next step on its way out. */
  function WayOut(cfg: Config, st: State, w: nat): PoolAction
    requires w < |st.pool.workers|
  {
    match st.pool.workers[w]
    case Running(_, _) =>
      if cfg.kind == Standard then Record(w, Failed(""), 0, st.clock, 0) else Spawn(w, Failed(""), 0)
    case Touching(_, _, _) => Touch(w)
    case Counting(_) => Count(w)
    case _ => Leave(w)
  }

  lemma GoesOut(cfg: Config, st: State, w: nat)
    requires Orderly(cfg, st) && st.ExecutorCancelled() && w < |st.pool.workers| && !st.pool.workers[w].Left?
    ensures PoolEnabled(cfg, st, WayOut(cfg, st, w))
    ensures var st' := PoolStep(cfg, st, WayOut(cfg, st, w));
            && SameFront(st, st') && |st'.pool.workers| == |st.pool.workers|
            && AllWorkerSteps(st'.pool.workers) < AllWorkerSteps(st.pool.workers)
  {
    OneWorkerSteps(st.pool.workers, w, PoolStep(cfg, st, WayOut(cfg, st, w)).pool.workers[w]);
  }

  lemma {:induction false} PrependOwn(cfg: Config, st: State, a: Action, rest: seq<Action>)
    requires Enabled(cfg, st, a) && OwnStep(st, a)
    requires Run(cfg, Step(cfg, st, a), rest).Some? && OwnRun(cfg, Step(cfg, st, a), rest)
    ensures Run(cfg, st, [a] + rest) == Run(cfg, Step(cfg, st, a), rest) && OwnRun(cfg, st, [a] + rest)
  {
    hide Enabled, Step, OwnStep;
    PrependStep(cfg, st, a, rest);
    var all := [a] + rest;
    if rest == [] {
      assert all[..0] == [];
    } else {
      LastStep(cfg, Step(cfg, st, a), rest);
      PrependOwn(cfg, st, a, rest[..|rest| - 1]);
      assert all[..|all| - 1] == [a] + rest[..|rest| - 1];
    }
  }

  /** Once they are cancelled, all workers can finish what they have in hand and leave. */
  lemma {:induction false} WorkersDepart(cfg: Config, st: State) returns (steps: seq<Action>)
    requires Orderly(cfg, st) && st.ExecutorCancelled() && st.main != Done
    ensures Run(cfg, st, steps).Some? && OwnRun(cfg, st, steps)
    ensures var end := Run(cfg, st, steps).value;
            && Orderly(cfg, end) && SameFront(st, end)
            && forall w :: 0 <= w < |end.pool.workers| ==> end.pool.workers[w].Left?
    decreases AllWorkerSteps(st.pool.workers)
  {
    steps := [];
    if w: nat :| w < |st.pool.workers| && !st.pool.workers[w].Left? {
      var a := Executor(WayOut(cfg, st, w));
      GoesOut(cfg, st, w);
      StepKeepsOrder(cfg, st, a);
      var rest := WorkersDepart(cfg, Step(cfg, st, a));
      PrependOwn(cfg, st, a, rest);
      steps := [a] + rest;
    }
  }

  // ---------- Stop may return with jobs queued ----------

  /** A run to the return of main's `run` with jobs left in the queue. */
  ghost predicate ReturnsWithQueue(cfg: Config, st: State, steps: seq<Action>) {
    var end := Run(cfg, st, steps);
    end.Some? && end.value.main == Done && end.value.pool.queue != []
  }

  /** From the cancellation of the executor on nothing fills an empty queue. */
  lemma {:induction false} StaysEmpty(cfg: Config, st: State, steps: seq<Action>)
    requires Orderly(cfg, st) && st.sweep.Returned? && st.pool.queue == [] && Run(cfg, st, steps).Some?
    ensures var end := Run(cfg, st, steps).value; Orderly(cfg, end) && end.sweep.Returned? && end.pool.queue == []
  {
    hide Step, Enabled, Orderly;
    if steps != [] {
      LastStep(cfg, st, steps);
      StaysEmpty(cfg, st, steps[..|steps| - 1]);
      StepKeepsOrder(cfg, Before(cfg, st, steps), steps[|steps| - 1]);
      StepKeepsEmpty(cfg, Before(cfg, st, steps), steps[|steps| - 1]);
    }
  }

  lemma StepKeepsEmpty(cfg: Config, st: State, a: Action)
    requires st.sweep.Returned? && st.pool.queue == [] && Enabled(cfg, st, a)
    ensures Step(cfg, st, a).sweep.Returned? && Step(cfg, st, a).pool.queue == []
  {
  }

  /** After the workers have left: close the queue and return. */
  lemma CloseAndReturn(cfg: Config, st: State) returns (steps: seq<Action>)
    requires Orderly(cfg, st) && st.main == ClosingQueue
    requires forall w :: 0 <= w < |st.pool.workers| ==> st.pool.workers[w].Left?
    ensures Run(cfg, st, steps).Some?
    ensures Run(cfg, st, steps).value.main == Done && Run(cfg, st, steps).value.pool.queue == st.pool.queue
  {
    var first := if st.pool.reporter then [Executor(LeaveReporter)] else [];
    var none: seq<Action> := [];
    assert Run(cfg, st, none) == Some(st);
    if st.pool.reporter {
      AppendStep(cfg, st, none, Executor(LeaveReporter));
      assert none + [Executor(LeaveReporter)] == first;
    }
    AppendStep(cfg, st, first, Action.Shutdown(CloseQueue));
    AppendStep(cfg, st, first + [Action.Shutdown(CloseQueue)], Action.Shutdown(Finish));
    steps := first + [Action.Shutdown(CloseQueue)] + [Action.Shutdown(Finish)];
  }

  lemma QueueMayStay(cfg: Config, st: State) returns (steps: seq<Action>)
    requires Orderly(cfg, st) && st.main == ClosingQueue
    ensures Run(cfg, st, steps).Some?
    ensures Run(cfg, st, steps).value.main == Done && Run(cfg, st, steps).value.pool.queue == st.pool.queue
  {
    var leave := WorkersDepart(cfg, st);
    hide Orderly;
    var close := CloseAndReturn(cfg, Run(cfg, st, leave).value);
    RunSplits(cfg, st, leave, close);
    steps := leave + close;
  }

  /** When the executor's Stop begins, a return with jobs still queued is possible if and only if jobs are queued. */
  lemma StopLeavesQueuedIff(cfg: Config, st: State)
    requires Orderly(cfg, st) && st.main == ClosingQueue
    ensures (exists steps :: ReturnsWithQueue(cfg, st, steps)) <==> st.pool.queue != []
  {
    if st.pool.queue != [] {
      var steps := QueueMayStay(cfg, st);
      assert ReturnsWithQueue(cfg, st, steps);
    } else {
      forall steps
        ensures !ReturnsWithQueue(cfg, st, steps)
      {
        if Run(cfg, st, steps).Some? {
          StaysEmpty(cfg, st, steps);
        }
      }
    }
  }

  // ---------- whether a shutdown can block ----------

  /** The sweep has more jobs left to submit than the queue has room for. */
  predicate Overfull(cfg: Config, st: State) {
    st.sweep.Submitting? && |st.sweep.due| - st.sweep.next > cfg.capacity - |st.pool.queue|
  }

  /** Before the executor is stopped, with a sweep among its submissions. */
  predicate MidSweep(cfg: Config, st: State) {
    && Orderly(cfg, st) && (st.main == Serving || st.main == StoppingScheduler)
    && st.sweep.Submitting? && |st.pool.queue| <= cfg.capacity && |st.pool.workers| > 0
  }

  /** A block shows that the signal has come: without it the workers are still there. */
  lemma BlockedNeedsSignal(cfg: Config, st: State)
    requires Orderly(cfg, st) && |st.pool.workers| > 0 && Blocked(cfg, st)
    ensures st.signalled
  {
    assert st.pool.workers[0].Left?;
  }

  /** No submission of the sweep can find the queue full. */
  predicate HasRoom(cfg: Config, st: State) {
    cfg.kind == Optimized || (!st.sweep.Starting? && !st.sweep.Loaded? && !Overfull(cfg, st))
  }

  lemma SweepKeepsRoom(cfg: Config, st: State, a: SweepAction)
    requires HasRoom(cfg, st) && SweepEnabled(cfg, st, a) && (a.Load? ==> st.sweep.Starting?)
    ensures HasRoom(cfg, SweepStep(cfg, st, a))
  {
  }

  lemma PoolKeepsRoom(cfg: Config, st: State, a: PoolAction)
    requires HasRoom(cfg, st) && PoolEnabled(cfg, st, a)
    ensures HasRoom(cfg, PoolStep(cfg, st, a)) && |PoolStep(cfg, st, a).pool.workers| == |st.pool.workers|
  {
  }

  lemma OwnStepKeepsRoom(cfg: Config, st: State, a: Action)
    requires HasRoom(cfg, st) && OwnStep(st, a) && Enabled(cfg, st, a)
    ensures HasRoom(cfg, Step(cfg, st, a))
  {
    hide HasRoom;
    match a
    case Scheduler(sweep) => SweepKeepsRoom(cfg, st, sweep);
    case Executor(pool) => PoolKeepsRoom(cfg, st, pool);
    case Shutdown(main) => MainKeepsRoom(cfg, st, main);
  }

  lemma MainKeepsRoom(cfg: Config, st: State, a: MainAction)
    requires HasRoom(cfg, st) && MainEnabled(st, a)
    ensures HasRoom(cfg, MainStep(st, a))
  {
  }

  lemma {:induction false} OwnRunKeepsRoom(cfg: Config, st: State, steps: seq<Action>)
    requires Orderly(cfg, st) && HasRoom(cfg, st) && Run(cfg, st, steps).Some? && OwnRun(cfg, st, steps)
    ensures Orderly(cfg, Run(cfg, st, steps).value) && HasRoom(cfg, Run(cfg, st, steps).value)
  {
    hide Step, Enabled, Orderly, HasRoom, OwnStep;
    if steps != [] {
      LastStep(cfg, st, steps);
      OwnRunKeepsRoom(cfg, st, steps[..|steps| - 1]);
      StepKeepsOrder(cfg, Before(cfg, st, steps), steps[|steps| - 1]);
      OwnStepKeepsRoom(cfg, Before(cfg, st, steps), steps[|steps| - 1]);
    }
  }

  /** With enough room every run that the shutdown takes by itself, and that cannot go on, has returned. */
  lemma {:induction false} RoomMeansReturn(cfg: Config, st: State, steps: seq<Action>)
    requires cfg.Valid() && Orderly(cfg, st) && st.SchedulerCancelled() && HasRoom(cfg, st)
    requires Run(cfg, st, steps).Some? && OwnRun(cfg, st, steps) && Stuck(cfg, Run(cfg, st, steps).value)
    ensures Run(cfg, st, steps).value.main == Done
  {
    hide Stuck, OwnRun, Orderly;
    OwnRunKeepsRoom(cfg, st, steps);
    OwnRunStaysCancelled(cfg, st, steps);
    if Run(cfg, st, steps).value.main != Done {
      StuckIffBlocked(cfg, Run(cfg, st, steps).value);
    }
  }

  lemma {:induction false} OwnRunStaysCancelled(cfg: Config, st: State, steps: seq<Action>)
    requires Run(cfg, st, steps).Some? && st.SchedulerCancelled()
    ensures Run(cfg, st, steps).value.SchedulerCancelled()
  {
    hide Step, Enabled;
    if steps != [] {
      LastStep(cfg, st, steps);
      OwnRunStaysCancelled(cfg, st, steps[..|steps| - 1]);
      StaysCancelled(cfg, Before(cfg, st, steps), steps[|steps| - 1]);
    }
  }

  /** A run that the shutdown takes by itself, into the block. */
  ghost predicate EndsBlocked(cfg: Config, st: State, steps: seq<Action>) {
    Run(cfg, st, steps).Some? && OwnRun(cfg, st, steps) && Blocked(cfg, Run(cfg, st, steps).value)
  }

  lemma OwnStepKeepsSignal(cfg: Config, st: State, a: Action)
    requires OwnStep(st, a) && Enabled(cfg, st, a)
    ensures Step(cfg, st, a).signalled == st.signalled
    ensures |Step(cfg, st, a).pool.workers| == |st.pool.workers|
  {
  }

  lemma {:induction false} OwnRunKeepsSignal(cfg: Config, st: State, steps: seq<Action>)
    requires Run(cfg, st, steps).Some? && OwnRun(cfg, st, steps)
    ensures Run(cfg, st, steps).value.signalled == st.signalled
    ensures |Run(cfg, st, steps).value.pool.workers| == |st.pool.workers|
  {
    hide Step, Enabled, OwnStep;
    if steps != [] {
      LastStep(cfg, st, steps);
      OwnRunKeepsSignal(cfg, st, steps[..|steps| - 1]);
      OwnStepKeepsSignal(cfg, Before(cfg, st, steps), steps[|steps| - 1]);
    }
  }

  /** What brings the standard system into the block: the signal has come, and the sweep has too much to submit. */
  predicate CanBlock(cfg: Config, st: State) {
    cfg.kind == Standard && st.signalled && Overfull(cfg, st)
  }

  lemma SubmitKeepsCanBlock(cfg: Config, st: State)
    requires MidSweep(cfg, st) && CanBlock(cfg, st) && |st.pool.queue| < cfg.capacity
    ensures Enabled(cfg, st, Scheduler(Submit)) && OwnStep(st, Scheduler(Submit))
    ensures var st' := Step(cfg, st, Scheduler(Submit));
            MidSweep(cfg, st') && CanBlock(cfg, st') && |st'.pool.queue| == |st.pool.queue| + 1
  {
    SweepKeepsOrder(cfg, st, Submit);
  }

  lemma StopKeepsCanBlock(cfg: Config, st: State)
    requires MidSweep(cfg, st) && CanBlock(cfg, st) && st.main == Serving
    ensures Enabled(cfg, st, Action.Shutdown(StopScheduler)) && OwnStep(st, Action.Shutdown(StopScheduler))
    ensures var st' := Step(cfg, st, Action.Shutdown(StopScheduler));
            && MidSweep(cfg, st') && CanBlock(cfg, st') && st'.main == StoppingScheduler
            && st'.pool.queue == st.pool.queue
  {
    MainKeepsOrder(cfg, st, StopScheduler);
  }

  /** The queue fills up, main stops the scheduler, and the workers choose to leave. */
  lemma {:induction false} IntoTheBlock(cfg: Config, st: State) returns (steps: seq<Action>)
    requires MidSweep(cfg, st) && CanBlock(cfg, st)
    ensures EndsBlocked(cfg, st, steps)
    decreases cfg.capacity - |st.pool.queue|, st.main == Serving
  {
    if |st.pool.queue| < cfg.capacity {
      SubmitKeepsCanBlock(cfg, st);
      var rest := IntoTheBlock(cfg, Step(cfg, st, Scheduler(Submit)));
      PrependOwn(cfg, st, Scheduler(Submit), rest);
      steps := [Scheduler(Submit)] + rest;
    } else if st.main == Serving {
      StopKeepsCanBlock(cfg, st);
      var rest := IntoTheBlock(cfg, Step(cfg, st, Action.Shutdown(StopScheduler)));
      PrependOwn(cfg, st, Action.Shutdown(StopScheduler), rest);
      steps := [Action.Shutdown(StopScheduler)] + rest;
    } else {
      steps := WorkersDepart(cfg, st);
    }
  }

  /** With a sweep among its submissions, the shutdown by itself can end in the block if and only if the executor is
      the standard one, the signal has come, and more jobs are due than fit into the queue. */
  lemma BlockIff(cfg: Config, st: State)
    requires MidSweep(cfg, st)
    ensures (exists steps :: EndsBlocked(cfg, st, steps)) <==> CanBlock(cfg, st)
  {
    if CanBlock(cfg, st) {
      var steps := IntoTheBlock(cfg, st);
    } else {
      forall steps
        ensures !EndsBlocked(cfg, st, steps)
      {
        CannotBlock(cfg, st, steps);
      }
    }
  }

  lemma CannotBlock(cfg: Config, st: State, steps: seq<Action>)
    requires MidSweep(cfg, st) && !CanBlock(cfg, st)
    ensures !EndsBlocked(cfg, st, steps)
  {
    hide Run, OwnRun;
    if EndsBlocked(cfg, st, steps) {
      var end := Run(cfg, st, steps).value;
      OwnRunKeepsSignal(cfg, st, steps);
      RunKeepsOrder(cfg, st, steps);
      BlockedNeedsSignal(cfg, end);
      OwnRunKeepsRoom(cfg, st, steps);
    }
  }

  lemma {:induction false} RunKeepsOrder(cfg: Config, st: State, steps: seq<Action>)
    requires Orderly(cfg, st) && Run(cfg, st, steps).Some?
    ensures Orderly(cfg, Run(cfg, st, steps).value)
  {
    hide Step, Enabled, Orderly;
    if steps != [] {
      LastStep(cfg, st, steps);
      RunKeepsOrder(cfg, st, steps[..|steps| - 1]);
      StepKeepsOrder(cfg, Before(cfg, st, steps), steps[|steps| - 1]);
    }
  }

  lemma {:induction false} WorkersStayWhole(cfg: Config, clock: Time, steps: seq<Action>)
    requires Run(cfg, Initial(cfg, clock), steps).Some?
    ensures |Run(cfg, Initial(cfg, clock), steps).value.pool.workers| == cfg.workers
  {
    hide Enabled, Step;
    if steps != [] {
      LastStep(cfg, Initial(cfg, clock), steps);
      WorkersStayWhole(cfg, clock, steps[..|steps| - 1]);
      StepKeepsWorkers(cfg, Before(cfg, Initial(cfg, clock), steps), steps[|steps| - 1]);
    }
  }

  lemma StepKeepsWorkers(cfg: Config, st: State, a: Action)
    requires Enabled(cfg, st, a)
    ensures |Step(cfg, st, a).pool.workers| == |st.pool.workers|
  {
    hide PoolEffect;
    if a.Executor? {
      WorkerShape(cfg, st, a.pool);
    }
  }

  /** Every reachable state among a sweep's submissions, before the executor is stopped, is such a state. */
  lemma {:induction false} ReachableMidSweep(cfg: Config, clock: Time, steps: seq<Action>)
    requires cfg.Valid() && Run(cfg, Initial(cfg, clock), steps).Some?
    requires var st := Run(cfg, Initial(cfg, clock), steps).value;
             st.sweep.Submitting? && (st.main == Serving || st.main == StoppingScheduler)
    ensures MidSweep(cfg, Run(cfg, Initial(cfg, clock), steps).value)
  {
    hide Run;
    Conservation.RunConserves(cfg, clock, steps);
    WorkersStayWhole(cfg, clock, steps);
  }

  // ---------- from the start into the block ----------

  /** There are `n` jobs, all active and with this next run. */
  predicate AllAwait(jobs: map<string, Job>, nextRun: Time, n: nat) {
    |jobs.Keys| == n && forall id :: id in jobs ==> jobs[id].status == Active && jobs[id].nextRun == Some(nextRun)
  }

  ghost predicate PreparedStore(s: Store, clock: Time, nextRun: Time, n: nat) {
    StoreInvariant.Inv(s, clock) && AllAwait(s.jobs, nextRun, n)
  }

  /** Nothing but these creations has happened. */
  ghost predicate Prepared(cfg: Config, st: State, clock: Time, nextRun: Time, n: nat) {
    && PreparedStore(st.store, clock, nextRun, n)
    && st == Initial(cfg, clock).(store := st.store, trace := st.trace)
  }

  lemma OneMoreAwaits(jobs: map<string, Job>, id: string, job: Job, nextRun: Time, n: nat)
    requires AllAwait(jobs, nextRun, n) && id !in jobs && job.status == Active && job.nextRun == Some(nextRun)
    ensures AllAwait(jobs[id := job], nextRun, n + 1)
  {
  }

  lemma CreateInStore(lib: Library, s: Store, clock: Time, request: JobRequest, n: nat)
    requires PreparedStore(s, clock, Next(lib, request.schedule, clock), n)
    ensures PreparedStore(CreateJob(s, NewJob(lib, request, clock), 0, clock).0, clock,
                          Next(lib, request.schedule, clock), n + 1)
  {
    hide Next, StoreInvariant.Inv, NewId, CreateJob, AllAwait;
    var job, id := NewJob(lib, request, clock), NewId("job", 0, s.counter);
    CreateJobKeepsInv(s, job, 0, clock, clock);
    NewJobStored(s, job, 0, clock, clock);
    OneMoreAwaits(s.jobs, id, job.(id := id, createdAt := clock, updatedAt := clock, status := Active),
                  Next(lib, request.schedule, clock), n);
  }

  lemma CreateOne(cfg: Config, st: State, clock: Time, request: JobRequest, n: nat)
    requires Validate(cfg.lib, request.schedule).None?
    requires Prepared(cfg, st, clock, Next(cfg.lib, request.schedule, clock), n)
    ensures Enabled(cfg, st, Api(Create(request, clock, 0)))
    ensures Prepared(cfg, Step(cfg, st, Api(Create(request, clock, 0))), clock, Next(cfg.lib, request.schedule, clock), n + 1)
  {
    hide Next, PreparedStore, CreateJob;
    CreateInStore(cfg.lib, st.store, clock, request, n);
  }

  lemma {:induction false} CreateMany(cfg: Config, clock: Time, request: JobRequest, n: nat)
    returns (steps: seq<Action>)
    requires Validate(cfg.lib, request.schedule).None?
    ensures Run(cfg, Initial(cfg, clock), steps).Some?
    ensures Prepared(cfg, Run(cfg, Initial(cfg, clock), steps).value, clock, Next(cfg.lib, request.schedule, clock), n)
  {
    hide Next, Enabled, Step;
    if n == 0 {
      steps := [];
      EmptyStoreInv(clock);
    } else {
      var earlier := CreateMany(cfg, clock, request, n - 1);
      var st := Run(cfg, Initial(cfg, clock), earlier).value;
      CreateOne(cfg, st, clock, request, n - 1);
      AppendStep(cfg, Initial(cfg, clock), earlier, Api(Create(request, clock, 0)));
      steps := earlier + [Api(Create(request, clock, 0))];
    }
  }

  lemma {:induction false} AllDue(jobs: seq<Job>, now: Time)
    requires forall k :: 0 <= k < |jobs| ==> IsDue(jobs[k], now)
    ensures |DueJobs(jobs, now)| == |jobs|
  {
    if jobs != [] {
      AllDue(jobs[..|jobs| - 1], now);
    }
  }

  lemma {:induction false} EnumerationCovers(order: seq<string>, keys: set<string>)
    requires forall k :: k in keys ==> k in order
    ensures |keys| <= |order|
  {
    if order != [] {
      var n := |order| - 1;
      EnumerationCovers(order[..n], keys - {order[n]});
      assert keys <= (keys - {order[n]}) + {order[n]};
    }
  }

  /** At a time when all of them are due, a sweep finds every one of the prepared jobs due. */
  lemma {:induction false} PreparedAreDue(s: Store, order: seq<string>, clock: Time, nextRun: Time, n: nat, now: Time)
    requires PreparedStore(s, clock, nextRun, n) && nextRun <= now && Enumerates(order, JobsWith(s, Active))
    ensures |DueJobs(Snapshot(s, order), now)| == n
  {
    assert JobsWith(s, Active) == s.jobs.Keys;
    EnumerationCovers(order, s.jobs.Keys);
    EnumerationLength(order, s.jobs.Keys, s.jobs.Keys);
    AllDue(Snapshot(s, order), now);
  }

  /** A service that has just filtered `n` due jobs, with nothing queued yet. */
  predicate Filtered(cfg: Config, st: State, n: nat) {
    && Orderly(cfg, st) && st.main == Serving && st.pool.queue == [] && |st.pool.workers| == cfg.workers
    && st.sweep.Submitting? && st.sweep.next == 0 && |st.sweep.due| == n && st.sweep.now == st.clock
  }

  /** Wait until the jobs are due, and filter them. */
  lemma FilterPrepared(cfg: Config, st: State, clock: Time, nextRun: Time, n: nat, t: Time)
    returns (steps: seq<Action>)
    requires Prepared(cfg, st, clock, nextRun, n) && clock <= t && nextRun <= t
    ensures Run(cfg, st, steps).Some? && Filtered(cfg, Run(cfg, st, steps).value, n)
  {
    hide PreparedStore, DueJobs, Snapshot, JobsWith, Enumerates;
    var order := Enumeration(JobsWith(st.store, Active));
    PreparedAreDue(st.store, order, clock, nextRun, n, t);
    var none: seq<Action> := [];
    assert Run(cfg, st, none) == Some(st);
    AppendStep(cfg, st, none, Tick(t));
    AppendStep(cfg, st, none + [Tick(t)], Scheduler(Load(order)));
    AppendStep(cfg, st, none + [Tick(t)] + [Scheduler(Load(order))], Scheduler(Filter));
    steps := none + [Tick(t)] + [Scheduler(Load(order))] + [Scheduler(Filter)];
  }

  /** Any number of jobs with any valid schedule can come to be due in one sweep. */
  lemma FilterFromStart(cfg: Config, clock: Time, request: JobRequest, n: nat) returns (steps: seq<Action>)
    requires Validate(cfg.lib, request.schedule).None?
    ensures Run(cfg, Initial(cfg, clock), steps).Some? && Filtered(cfg, Run(cfg, Initial(cfg, clock), steps).value, n)
  {
    hide Run, Prepared, Filtered, Next;
    var nextRun := Next(cfg.lib, request.schedule, clock);
    var create := CreateMany(cfg, clock, request, n);
    var filter := FilterPrepared(cfg, Run(cfg, Initial(cfg, clock), create).value, clock, nextRun, n,
                                 if nextRun <= clock then clock else nextRun);
    RunSplits(cfg, Initial(cfg, clock), create, filter);
    steps := create + filter;
  }

  /** From every state in which the standard executor's queue has too little room for the sweep in progress, the
      service can run into the block: the signal comes, and the workers choose to leave. */
  lemma BlockHappens(cfg: Config, st: State) returns (steps: seq<Action>)
    requires MidSweep(cfg, st) && cfg.kind == Standard && Overfull(cfg, st)
    ensures Run(cfg, st, steps).Some? && Blocked(cfg, Run(cfg, st, steps).value)
  {
    MainKeepsOrder(cfg, st, Signal);
    var signal := Action.Shutdown(Signal);
    var rest := IntoTheBlock(cfg, Step(cfg, st, signal));
    PrependStep(cfg, st, signal, rest);
    steps := [signal] + rest;
  }

  /** Every standard service can run from its start into the block, with jobs of any valid schedule. */
  lemma BlockFromStart(cfg: Config, clock: Time, request: JobRequest) returns (steps: seq<Action>)
    requires cfg.Valid() && cfg.kind == Standard && Validate(cfg.lib, request.schedule).None?
    ensures Run(cfg, Initial(cfg, clock), steps).Some?
    ensures Blocked(cfg, Run(cfg, Initial(cfg, clock), steps).value)
  {
    hide Run;
    var filter := FilterFromStart(cfg, clock, request, cfg.capacity + 1);
    var block := BlockHappens(cfg, Run(cfg, Initial(cfg, clock), filter).value);
    RunSplits(cfg, Initial(cfg, clock), filter, block);
    steps := filter + block;
  }

  // ---------- from the start to a return with jobs queued ----------

  /** Between sweeps main can go straight to stopping the executor. */
  lemma StopFromWaiting(cfg: Config, st: State) returns (steps: seq<Action>)
    requires Orderly(cfg, st) && st.main == Serving && st.sweep.Waiting?
    ensures Run(cfg, st, steps).Some?
    ensures var end := Run(cfg, st, steps).value;
            Orderly(cfg, end) && end.main == ClosingQueue && end.pool.queue == st.pool.queue
  {
    var stop, ret, cancel := Action.Shutdown(StopScheduler), Scheduler(Return), Action.Shutdown(CancelExecutor);
    MainKeepsOrder(cfg, st, StopScheduler);
    SweepKeepsOrder(cfg, Step(cfg, st, stop), Return);
    MainKeepsOrder(cfg, Step(cfg, Step(cfg, st, stop), ret), CancelExecutor);
    var none: seq<Action> := [];
    assert Run(cfg, st, none) == Some(st);
    AppendStep(cfg, st, none, stop);
    AppendStep(cfg, st, none + [stop], ret);
    AppendStep(cfg, st, none + [stop] + [ret], cancel);
    steps := none + [stop] + [ret] + [cancel];
  }

  /** The loops of a sweep over one job leave it queued. */
  lemma {:induction false} SweepOne(cfg: Config, st: State)
    requires cfg.Valid() && Filtered(cfg, st, 1)
    ensures var end := Run(cfg, st, Sweeps.Repeat(Submit, 2) + Sweeps.Repeat(Advance, 2));
            && end.Some? && Orderly(cfg, end.value) && end.value.main == Serving
            && end.value.sweep.Waiting? && end.value.pool.queue != []
  {
    Sweeps.LoopsSweep(cfg, st);
    var end := Run(cfg, st, Sweeps.Repeat(Submit, 2) + Sweeps.Repeat(Advance, 2)).value;
    assert Sweeps.QueueAfter(Sweeps.JobsOf(st.pool.queue), cfg.capacity, st.sweep.due, 1) != [] by {
      assert Sweeps.QueueAfter(Sweeps.JobsOf(st.pool.queue), cfg.capacity, st.sweep.due, 0) == [];
    }
    RunKeepsOrder(cfg, st, Sweeps.Repeat(Submit, 2) + Sweeps.Repeat(Advance, 2));
  }

  /** Every service can run from its start to its return with a job still queued. */
  lemma QueueLeftFromStart(cfg: Config, clock: Time, request: JobRequest) returns (steps: seq<Action>)
    requires cfg.Valid() && Validate(cfg.lib, request.schedule).None?
    ensures ReturnsWithQueue(cfg, Initial(cfg, clock), steps)
  {
    hide Run, Filtered, Orderly;
    var st := Initial(cfg, clock);
    var filter := FilterFromStart(cfg, clock, request, 1);
    var st1 := Run(cfg, st, filter).value;
    var sweep := Sweeps.Repeat(Submit, 2) + Sweeps.Repeat(Advance, 2);
    SweepOne(cfg, st1);
    RunSplits(cfg, st, filter, sweep);
    var st2 := Run(cfg, st1, sweep).value;
    var stop := StopFromWaiting(cfg, st2);
    RunSplits(cfg, st, filter + sweep, stop);
    var leave := QueueMayStay(cfg, Run(cfg, st2, stop).value);
    RunSplits(cfg, st, filter + sweep + stop, leave);
    steps := filter + sweep + stop + leave;
  }
}
