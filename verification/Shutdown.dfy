/** The shutdown sequence: no send on the closed queue, where it can get stuck, and that it ends. */
module Shutdown {
  import opened Common
  import opened Models
  import opened StoreSpec
  import opened Pipeline

  /** Nothing has panicked, and the executor is stopped only after the scheduler has returned. */
  predicate Orderly(cfg: Config, st: State) {
    && !st.panicked
    && (st.main == ClosingQueue || st.QueueCloses() ==> st.sweep.Returned?)
    && (st.pool.reporter ==> cfg.kind == Optimized)
    && InBounds(st.sweep)
    && WorkersOrderly(st.pool.workers, st.clock, st.ExecutorCancelled())
  }

  /** Work was taken at a time that has passed, and workers leave only on cancellation. */
  predicate WorkersOrderly(workers: seq<Worker>, clock: Time, cancelled: bool) {
    && (forall w :: 0 <= w < |workers| && workers[w].Running? ==> workers[w].since <= clock)
    && (forall w :: 0 <= w < |workers| && workers[w].Left? ==> cancelled)
  }

  predicate InBounds(sweep: Sweep) {
    sweep.Submitting? || sweep.Advancing? ==> sweep.next <= |sweep.due|
  }

  lemma SweepKeepsOrder(cfg: Config, st: State, a: SweepAction)
    requires Orderly(cfg, st) && SweepEnabled(cfg, st, a)
    ensures Orderly(cfg, SweepStep(cfg, st, a))
  {
  }

  lemma PoolKeepsOrder(cfg: Config, st: State, a: PoolAction)
    requires Orderly(cfg, st) && PoolEnabled(cfg, st, a)
    ensures Orderly(cfg, PoolStep(cfg, st, a))
  {
    hide WorkersOrderly;
    PoolKeepsWorkers(cfg, st, a);
  }

  lemma PoolKeepsWorkers(cfg: Config, st: State, a: PoolAction)
    requires WorkersOrderly(st.pool.workers, st.clock, st.ExecutorCancelled()) && PoolEnabled(cfg, st, a)
    ensures WorkersOrderly(PoolEffect(cfg, st, a).pool.workers, st.clock, st.ExecutorCancelled())
  {
    hide PoolEffect;
    WorkerShape(cfg, st, a);
  }

  lemma ApiKeepsOrder(cfg: Config, st: State, a: ApiAction)
    requires Orderly(cfg, st) && ApiEnabled(st, a)
    ensures Orderly(cfg, ApiStep(cfg, st, a))
  {
    hide WorkersOrderly;
  }

  lemma ClockKeepsOrder(cfg: Config, st: State, t: Time)
    requires Orderly(cfg, st) && st.clock <= t
    ensures Orderly(cfg, st.(clock := t))
  {
  }

  lemma MainKeepsOrder(cfg: Config, st: State, a: MainAction)
    requires Orderly(cfg, st) && MainEnabled(st, a)
    ensures Orderly(cfg, MainStep(st, a))
  {
  }

  lemma StepKeepsOrder(cfg: Config, st: State, a: Action)
    requires Orderly(cfg, st) && Enabled(cfg, st, a)
    ensures Orderly(cfg, Step(cfg, st, a))
  {
    hide Orderly;
    match a
    case Tick(t) => ClockKeepsOrder(cfg, st, t);
    case Api(api) => ApiKeepsOrder(cfg, st, api);
    case Scheduler(sweep) => SweepKeepsOrder(cfg, st, sweep);
    case Executor(pool) => PoolKeepsOrder(cfg, st, pool);
    case Shutdown(main) => MainKeepsOrder(cfg, st, main);
  }

  /** In no run does a Submit meet a closed queue. */
  lemma {:induction false} NeverPanics(cfg: Config, clock: Time, steps: seq<Action>)
    requires Run(cfg, Initial(cfg, clock), steps).Some?
    ensures Orderly(cfg, Run(cfg, Initial(cfg, clock), steps).value)
  {
    if steps != [] {
      NeverPanics(cfg, clock, steps[..|steps| - 1]);
      StepKeepsOrder(cfg, Run(cfg, Initial(cfg, clock), steps[..|steps| - 1]).value, steps[|steps| - 1]);
    }
  }

  /** Nobody stops unasked, and main returns last. */
  predicate StopsInOrder(cfg: Config, st: State) {
    && (st.sweep.Returned? ==> st.SchedulerCancelled())
    && (cfg.kind == Optimized && !st.pool.reporter ==> st.ExecutorCancelled())
    && (st.main != Serving && st.main != StoppingScheduler ==> st.sweep.Returned?)
    && (st.main == Done ==> AllLeft(st.pool))
  }

  lemma PoolKeepsStops(cfg: Config, st: State, a: PoolAction)
    requires StopsInOrder(cfg, st) && st.main != Done && PoolEnabled(cfg, st, a)
    ensures StopsInOrder(cfg, PoolStep(cfg, st, a))
  {
    hide PoolEffect;
    PoolShape(cfg, st, a);
    SignalAndReporter(cfg, st, a);
  }

  lemma SignalAndReporter(cfg: Config, st: State, a: PoolAction)
    requires PoolEnabled(cfg, st, a)
    ensures PoolEffect(cfg, st, a).signalled == st.signalled
    ensures PoolEffect(cfg, st, a).pool.reporter == (st.pool.reporter && !a.LeaveReporter?)
  {
    hide PoolCall, Stored, ExecutionOf;
  }

  lemma SweepKeepsStops(cfg: Config, st: State, a: SweepAction)
    requires StopsInOrder(cfg, st) && st.main != Done && SweepEnabled(cfg, st, a)
    ensures StopsInOrder(cfg, SweepStep(cfg, st, a))
  {
  }

  lemma StepKeepsStops(cfg: Config, st: State, a: Action)
    requires StopsInOrder(cfg, st) && Enabled(cfg, st, a)
    ensures StopsInOrder(cfg, Step(cfg, st, a))
  {
    match a
    case Tick(_) =>
    case Api(_) =>
    case Scheduler(sweep) => SweepKeepsStops(cfg, st, sweep);
    case Executor(pool) => PoolKeepsStops(cfg, st, pool);
    case Shutdown(_) =>
  }

  /** In every run the scheduler returns only once it is cancelled, the executor is stopped only after that, the
      reporter leaves only when the executor is cancelled, and main returns only after all workers and the reporter
      have left. */
  lemma {:induction false} ReturnsLast(cfg: Config, clock: Time, steps: seq<Action>)
    requires Run(cfg, Initial(cfg, clock), steps).Some?
    ensures StopsInOrder(cfg, Run(cfg, Initial(cfg, clock), steps).value)
  {
    hide Enabled, Step;
    if steps != [] {
      ReturnsLast(cfg, clock, steps[..|steps| - 1]);
      LastStep(cfg, Initial(cfg, clock), steps);
      StepKeepsStops(cfg, Before(cfg, Initial(cfg, clock), steps), steps[|steps| - 1]);
    }
  }

  // ---------- where shutdown gets stuck ----------

  /** A step that a goroutine awaited by the shutdown takes without waiting for the outside world: no handler,
      no tick of the clock or of the scheduler's ticker, no detached recorder. */
  predicate OwnStep(st: State, a: Action) {
    match a
    case Tick(_) => false
    case Api(_) => false
    case Scheduler(sweep) => sweep.Load? ==> st.sweep.Starting?
    case Executor(pool) => !pool.RecorderCreate? && !pool.RecorderTouch?
    case Shutdown(main) => !main.Signal? && (main.StopScheduler? ==> st.signalled)
  }

  ghost predicate Stuck(cfg: Config, st: State) {
    forall a :: OwnStep(st, a) ==> !Enabled(cfg, st, a)
  }

  /** The sweep waits for room in a queue that nobody empties any more. */
  predicate Blocked(cfg: Config, st: State) {
    && cfg.kind == Standard && st.main == StoppingScheduler
    && st.sweep.Submitting? && st.sweep.next < |st.sweep.due|
    && |st.pool.queue| >= cfg.capacity && AllLeft(st.pool)
  }

  lemma {:induction false} Enumeration(keys: set<string>) returns (order: seq<string>)
    ensures Enumerates(order, keys)
    decreases keys
  {
    order := [];
    if keys != {} {
      var k :| k in keys;
      var rest := Enumeration(keys - {k});
      order := rest + [k];
      assert keys == (keys - {k}) + {k};
    }
  }

  /** A worker that has not left and finds work or a cancelled context can go on. */
  lemma WorkerMoves(cfg: Config, st: State, w: nat) returns (a: PoolAction)
    requires WorkersOrderly(st.pool.workers, st.clock, st.ExecutorCancelled())
    requires w < |st.pool.workers| && !st.pool.workers[w].Left?
    requires st.pool.queue != [] || st.ExecutorCancelled()
    ensures PoolEnabled(cfg, st, a) && !a.RecorderCreate? && !a.RecorderTouch?
  {
    a := match st.pool.workers[w]
      case Idle => if st.pool.queue != [] then Take(w) else Leave(w)
      case Running(_, _) =>
        if cfg.kind == Standard then Record(w, Failed(""), 0, st.clock, 0) else Spawn(w, Failed(""), 0)
      case Touching(_, _, _) => Touch(w)
      case Counting(_) => Count(w)
      case Left => LeaveReporter;
  }

  lemma SomeoneMoves(cfg: Config, st: State) returns (a: PoolAction)
    requires WorkersOrderly(st.pool.workers, st.clock, st.ExecutorCancelled())
    requires !AllLeft(st.pool) && (st.ExecutorCancelled() || (st.pool.queue != [] && !st.pool.reporter))
    ensures PoolEnabled(cfg, st, a) && !a.RecorderCreate? && !a.RecorderTouch?
  {
    if st.pool.reporter {
      a := LeaveReporter;
    } else {
      var w: nat :| w < |st.pool.workers| && !st.pool.workers[w].Left?;
      a := WorkerMoves(cfg, st, w);
    }
  }

  lemma SweepMoves(cfg: Config, st: State) returns (a: SweepAction)
    requires InBounds(st.sweep) && !st.sweep.Returned? && st.SchedulerCancelled()
    requires st.sweep.Submitting? && st.sweep.next < |st.sweep.due| ==>
               cfg.kind == Optimized || |st.pool.queue| < cfg.capacity
    ensures SweepEnabled(cfg, st, a) && (a.Load? ==> st.sweep.Starting?)
  {
    match st.sweep
    case Starting =>
      var order := Enumeration(JobsWith(st.store, Active));
      a := Load(order);
    case Waiting => a := Return;
    case Loaded(_) => a := Filter;
    case Submitting(_, _, _) => a := Submit;
    case Advancing(_, _, _) => a := Advance;
  }

  /** Unless it is blocked, a shutdown that has not finished has a step to take. */
  lemma ShutdownMoves(cfg: Config, st: State) returns (a: Action)
    requires cfg.Valid() && Orderly(cfg, st) && st.SchedulerCancelled() && st.main != Done && !Blocked(cfg, st)
    ensures OwnStep(st, a) && Enabled(cfg, st, a)
  {
    match st.main
    case Serving => a := Action.Shutdown(StopScheduler);
    case StoppingScheduler =>
      if st.sweep.Returned? {
        a := Action.Shutdown(CancelExecutor);
      } else if st.sweep.Submitting? && st.sweep.next < |st.sweep.due|
                && cfg.kind == Standard && |st.pool.queue| >= cfg.capacity {
        var moved := SomeoneMoves(cfg, st);
        a := Executor(moved);
      } else {
        var moved := SweepMoves(cfg, st);
        a := Scheduler(moved);
      }
    case ClosingQueue => a := Action.Shutdown(CloseQueue);
    case AwaitingWorkers =>
      if AllLeft(st.pool) {
        a := Action.Shutdown(Finish);
      } else {
        var moved := SomeoneMoves(cfg, st);
        a := Executor(moved);
      }
  }

  lemma BlockedIsStuck(cfg: Config, st: State, a: Action)
    requires Orderly(cfg, st) && Blocked(cfg, st) && OwnStep(st, a)
    ensures !Enabled(cfg, st, a)
  {
  }

  /** Once shutdown has begun, a system that has not finished is stuck exactly when the standard executor's queue
      is full, all its workers have left and the sweep still has a job to submit. */
  lemma StuckIffBlocked(cfg: Config, st: State)
    requires cfg.Valid() && Orderly(cfg, st) && st.SchedulerCancelled() && st.main != Done
    ensures Stuck(cfg, st) <==> Blocked(cfg, st)
  {
    if Blocked(cfg, st) {
      forall a | OwnStep(st, a)
        ensures !Enabled(cfg, st, a)
      {
        BlockedIsStuck(cfg, st, a);
      }
    } else {
      var a := ShutdownMoves(cfg, st);
    }
  }

  lemma StepKeepsBlocked(cfg: Config, st: State, a: Action)
    requires Orderly(cfg, st) && Blocked(cfg, st) && Enabled(cfg, st, a)
    ensures Blocked(cfg, Step(cfg, st, a))
  {
  }

  /** Nothing that the outside world does gets a blocked system going again. */
  lemma {:induction false} BlockedForever(cfg: Config, st: State, steps: seq<Action>)
    requires Orderly(cfg, st) && Blocked(cfg, st) && Run(cfg, st, steps).Some?
    ensures Orderly(cfg, Run(cfg, st, steps).value) && Blocked(cfg, Run(cfg, st, steps).value)
  {
    if steps != [] {
      BlockedForever(cfg, st, steps[..|steps| - 1]);
      StepKeepsOrder(cfg, Run(cfg, st, steps[..|steps| - 1]).value, steps[|steps| - 1]);
      StepKeepsBlocked(cfg, Run(cfg, st, steps[..|steps| - 1]).value, steps[|steps| - 1]);
    }
  }

  // ---------- that it ends ----------

  /** The most steps that a worker takes before it leaves, without taking more work. */
  function WorkerSteps(w: Worker): nat {
    match w
    case Left => 0
    case Idle => 1
    case Touching(_, _, _) => 2
    case Counting(_) => 2
    case Running(_, _) => 3
  }

  function AllWorkerSteps(workers: seq<Worker>): nat {
    if workers == [] then 0 else AllWorkerSteps(workers[..|workers| - 1]) + WorkerSteps(workers[|workers| - 1])
  }

  lemma {:induction false} OneWorkerSteps(workers: seq<Worker>, w: nat, worker: Worker)
    requires w < |workers|
    ensures AllWorkerSteps(workers[w := worker]) + WorkerSteps(workers[w])
            == AllWorkerSteps(workers) + WorkerSteps(worker)
  {
    var n := |workers| - 1;
    if w < n {
      OneWorkerSteps(workers[..n], w, worker);
      assert workers[w := worker][..n] == workers[..n][w := worker];
    } else {
      assert workers[w := worker][..n] == workers[..n];
    }
  }

  /** The most steps that the sweep takes before it returns, with three more for each job it may queue. */
  function SweepStepsLeft(sweep: Sweep, jobs: nat): nat
    requires InBounds(sweep)
  {
    match sweep
    case Starting => 5 * jobs + 5
    case Loaded(loaded) => 5 * |loaded| + 4
    case Submitting(_, due, next) => 4 * (|due| - next) + |due| + 3
    case Advancing(_, due, next) => |due| - next + 2
    case Waiting => 1
    case Returned => 0
  }

  function MainSteps(main: Main): nat {
    match main
    case Serving => 4
    case StoppingScheduler => 3
    case ClosingQueue => 2
    case AwaitingWorkers => 1
    case Done => 0
  }

  /** A bound on the steps to come. */
  function StepsLeft(st: State): nat
    requires InBounds(st.sweep)
  {
    MainSteps(st.main) + SweepStepsLeft(st.sweep, |st.store.jobs|) + 3 * |st.pool.queue|
    + AllWorkerSteps(st.pool.workers) + (if st.pool.reporter then 1 else 0)
  }

  lemma {:induction false} FewerDue(jobs: seq<Job>, now: Time)
    ensures |DueJobs(jobs, now)| <= |jobs|
  {
    if jobs != [] {
      FewerDue(jobs[..|jobs| - 1], now);
    }
  }

  lemma {:induction false} EnumerationLength(order: seq<string>, keys: set<string>, all: set<string>)
    requires Enumerates(order, keys) && keys <= all
    ensures |order| <= |all|
    decreases |order|
  {
    if order != [] {
      var n := |order| - 1;
      assert Enumerates(order[..n], keys - {order[n]}) by {
        forall k | k in keys - {order[n]}
          ensures k in order[..n]
        {
          assert k in order;
        }
      }
      EnumerationLength(order[..n], keys - {order[n]}, all - {order[n]});
    }
  }

  lemma SweepStepCounts(cfg: Config, st: State, a: SweepAction)
    requires InBounds(st.sweep) && SweepEnabled(cfg, st, a)
    ensures var st' := SweepStep(cfg, st, a);
            && InBounds(st'.sweep)
            && StepsLeft(st') + 1 <= StepsLeft(st) + (if a.Load? && st.sweep.Waiting? then SweepCost(st) else 0)
            && SweepCost(st') == SweepCost(st)
  {
    SweepLeavesKeys(cfg, st, a);
    assert |SweepStep(cfg, st, a).store.jobs| == |st.store.jobs|;
    match a
    case Load(order) => EnumerationLength(order, JobsWith(st.store, Active), st.store.jobs.Keys);
    case Filter => FewerDue(st.sweep.jobs, st.clock);
    case Submit =>
    case Advance =>
    case Return =>
  }

  lemma SweepLeavesKeys(cfg: Config, st: State, a: SweepAction)
    requires SweepEnabled(cfg, st, a)
    ensures SweepStep(cfg, st, a).store.jobs.Keys == st.store.jobs.Keys
  {
  }

  /** What one more sweep adds to the steps to come, itself included. */
  function SweepCost(st: State): nat {
    5 * |st.store.jobs| + 4
  }

  /** A worker's step is one of those that are still to come. */
  lemma WorkerCounts(cfg: Config, st: State, a: PoolAction)
    requires PoolEnabled(cfg, st, a) && OfWorker(a)
    ensures var pool' := PoolEffect(cfg, st, a).pool;
            3 * |pool'.queue| + AllWorkerSteps(pool'.workers) < 3 * |st.pool.queue| + AllWorkerSteps(st.pool.workers)
            && pool'.reporter == st.pool.reporter
  {
    hide PoolEffect, AllWorkerSteps;
    WorkerShape(cfg, st, a);
    OwnWorkerCounts(cfg, st, a);
    OneWorkerSteps(st.pool.workers, a.w, PoolEffect(cfg, st, a).pool.workers[a.w]);
  }

  lemma OwnWorkerCounts(cfg: Config, st: State, a: PoolAction)
    requires PoolEnabled(cfg, st, a) && OfWorker(a)
    ensures var pool' := PoolEffect(cfg, st, a).pool;
            && a.w < |pool'.workers| && pool'.reporter == st.pool.reporter
            && 3 * |pool'.queue| + WorkerSteps(pool'.workers[a.w]) < 3 * |st.pool.queue| + WorkerSteps(st.pool.workers[a.w])
  {
    hide PoolCall, Stored, ExecutionOf;
  }

  lemma PoolLeavesKeys(cfg: Config, st: State, a: PoolAction)
    requires PoolEnabled(cfg, st, a)
    ensures PoolStep(cfg, st, a).store.jobs.Keys == st.store.jobs.Keys
  {
    hide PoolEffect;
  }

  lemma PoolStepCounts(cfg: Config, st: State, a: PoolAction)
    requires InBounds(st.sweep) && PoolEnabled(cfg, st, a) && !a.RecorderCreate? && !a.RecorderTouch?
    ensures StepsLeft(PoolStep(cfg, st, a)) < StepsLeft(st)
  {
    PoolLeavesKeys(cfg, st, a);
    assert |PoolStep(cfg, st, a).store.jobs| == |st.store.jobs|;
    if !a.LeaveReporter? {
      WorkerCounts(cfg, st, a);
    }
  }

  lemma OwnStepCounts(cfg: Config, st: State, a: Action)
    requires InBounds(st.sweep) && OwnStep(st, a) && Enabled(cfg, st, a)
    ensures InBounds(Step(cfg, st, a).sweep) && StepsLeft(Step(cfg, st, a)) < StepsLeft(st)
  {
    match a
    case Scheduler(sweep) => SweepStepCounts(cfg, st, sweep);
    case Executor(pool) => PoolStepCounts(cfg, st, pool);
    case Shutdown(main) =>
  }

  /** A step that the shutdown takes by itself, or a sweep that the ticker starts: after cancellation `run` may still
      choose the ticker. */
  predicate OwnOrTicker(st: State, a: Action) {
    OwnStep(st, a) || (a.Scheduler? && a.sweep.Load?)
  }

  lemma OwnOrTickerCounts(cfg: Config, st: State, a: Action)
    requires InBounds(st.sweep) && OwnOrTicker(st, a) && Enabled(cfg, st, a)
    ensures var st' := Step(cfg, st, a);
            && InBounds(st'.sweep) && SweepCost(st') == SweepCost(st)
            && StepsLeft(st') + 1 <= StepsLeft(st) + (if OwnStep(st, a) then 0 else SweepCost(st))
  {
    match a
    case Scheduler(sweep) => SweepStepCounts(cfg, st, sweep);
    case Executor(pool) =>
      PoolStepCounts(cfg, st, pool);
      PoolLeavesKeys(cfg, st, pool);
      assert |PoolStep(cfg, st, pool).store.jobs| == |st.store.jobs|;
    case Shutdown(main) =>
  }

  /** Each step of the run is one that the shutdown takes by itself. */
  ghost predicate OwnRun(cfg: Config, st: State, steps: seq<Action>)
    requires Run(cfg, st, steps).Some?
  {
    steps != [] ==>
      OwnStep(Before(cfg, st, steps), steps[|steps| - 1]) && OwnRun(cfg, st, steps[..|steps| - 1])
  }

  /** The number of sweeps that the ticker starts in the run; None if the run has steps of other kinds. */
  ghost function TickerSweeps(cfg: Config, st: State, steps: seq<Action>): Option<nat>
    requires Run(cfg, st, steps).Some?
  {
    if steps == [] then Some(0)
    else
      var earlier := TickerSweeps(cfg, st, steps[..|steps| - 1]);
      if earlier.None? || !OwnOrTicker(Before(cfg, st, steps), steps[|steps| - 1]) then None
      else if OwnStep(Before(cfg, st, steps), steps[|steps| - 1]) then earlier
      else Some(earlier.value + 1)
  }

  /** Left to itself, the shutdown takes no more steps than counted, plus a fixed number for each sweep that the
      ticker still starts. */
  lemma {:induction false} ShutdownEnds(cfg: Config, st: State, steps: seq<Action>)
    requires InBounds(st.sweep) && Run(cfg, st, steps).Some? && TickerSweeps(cfg, st, steps).Some?
    ensures var end := Run(cfg, st, steps).value;
            && InBounds(end.sweep) && SweepCost(end) == SweepCost(st)
            && |steps| + StepsLeft(end) <= StepsLeft(st) + TickerSweeps(cfg, st, steps).value * SweepCost(st)
  {
    hide Enabled, Step, InBounds, StepsLeft, SweepCost, OwnStep, OwnOrTicker;
    if steps != [] {
      LastStep(cfg, st, steps);
      var earlier := steps[..|steps| - 1];
      ShutdownEnds(cfg, st, earlier);
      OwnOrTickerCounts(cfg, Before(cfg, st, steps), steps[|steps| - 1]);
      var n := TickerSweeps(cfg, st, earlier).value;
      assert (n + 1) * SweepCost(st) == n * SweepCost(st) + SweepCost(st);
    }
  }

  lemma {:induction false} OwnRunHasNoTicker(cfg: Config, st: State, steps: seq<Action>)
    requires Run(cfg, st, steps).Some?
    ensures OwnRun(cfg, st, steps) <==> TickerSweeps(cfg, st, steps) == Some(0)
  {
    if steps != [] {
      OwnRunHasNoTicker(cfg, st, steps[..|steps| - 1]);
    }
  }

  lemma StaysCancelled(cfg: Config, st: State, a: Action)
    requires Enabled(cfg, st, a) && st.SchedulerCancelled()
    ensures Step(cfg, st, a).SchedulerCancelled()
  {
  }

  /** From every state of a shutdown the rest can be run to its end: with the optimized executor to the return of
      `run`, with the standard one to there or into the block. */
  lemma {:induction false} ShutdownCompletes(cfg: Config, st: State) returns (steps: seq<Action>)
    requires cfg.Valid() && Orderly(cfg, st) && st.SchedulerCancelled()
    ensures Run(cfg, st, steps).Some?
    ensures var end := Run(cfg, st, steps).value; end.main == Done || Blocked(cfg, end)
    ensures cfg.kind == Optimized ==> Run(cfg, st, steps).value.main == Done
    decreases StepsLeft(st)
  {
    steps := [];
    if st.main != Done && !Blocked(cfg, st) {
      var a := ShutdownMoves(cfg, st);
      StepKeepsOrder(cfg, st, a);
      OwnStepCounts(cfg, st, a);
      StaysCancelled(cfg, st, a);
      var rest := ShutdownCompletes(cfg, Step(cfg, st, a));
      PrependStep(cfg, st, a, rest);
      steps := [a] + rest;
    }
  }
}
