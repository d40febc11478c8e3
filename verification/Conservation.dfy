/** Where every submission is: in exactly one place, in every run. */
module Conservation {
  import opened Common
  import opened Models
  import opened StoreSpec
  import opened StoreInvariant
  import opened Pipeline
  import opened PipelineInvariant
  import Shutdown

  // ---------- counting the places of a submission ----------

  function Occurrences(s: seq<Submission>, x: Submission): nat {
    if s == [] then 0 else Occurrences(s[..|s| - 1], x) + (if s[|s| - 1] == x then 1 else 0)
  }

  function Runs(w: Worker, x: Submission): nat {
    if w.Running? && w.work == x then 1 else 0
  }

  function InWorkers(workers: seq<Worker>, x: Submission): nat {
    if workers == [] then 0 else InWorkers(workers[..|workers| - 1], x) + Runs(workers[|workers| - 1], x)
  }

  function Holds(r: Recorder, x: Submission): nat {
    if r.Recording? && r.work == x then 1 else 0
  }

  function InRecorders(recorders: seq<Recorder>, x: Submission): nat {
    if recorders == [] then 0
    else InRecorders(recorders[..|recorders| - 1], x) + Holds(recorders[|recorders| - 1], x)
  }

  /** How often `x` is queued, running in a worker, pending at a recorder, dropped, or recorded. */
  function Places(pool: Pool, trace: Trace, x: Submission): nat {
    Occurrences(pool.queue, x) + InWorkers(pool.workers, x) + InRecorders(pool.recorders, x)
    + Occurrences(trace.dropped, x) + Occurrences(trace.recorded, x)
  }

  lemma {:induction false} Appending(s: seq<Submission>, y: Submission, x: Submission)
    ensures Occurrences(s + [y], x) == Occurrences(s, x) + (if y == x then 1 else 0)
  {
  }

  lemma {:induction false} WithoutFirst(s: seq<Submission>, x: Submission)
    requires s != []
    ensures Occurrences(s, x) == Occurrences(s[1..], x) + (if s[0] == x then 1 else 0)
  {
    var n := |s| - 1;
    if n > 0 {
      WithoutFirst(s[..n], x);
      assert s[1..][..n - 1] == s[..n][1..];
    }
  }

  lemma {:induction false} OneWorker(workers: seq<Worker>, w: nat, worker: Worker, x: Submission)
    requires w < |workers|
    ensures InWorkers(workers[w := worker], x) + Runs(workers[w], x) == InWorkers(workers, x) + Runs(worker, x)
  {
    var n := |workers| - 1;
    if w < n {
      OneWorker(workers[..n], w, worker, x);
      assert workers[w := worker][..n] == workers[..n][w := worker];
    } else {
      assert workers[w := worker][..n] == workers[..n];
    }
  }

  lemma {:induction false} OneRecorder(recorders: seq<Recorder>, r: nat, recorder: Recorder, x: Submission)
    requires r < |recorders|
    ensures InRecorders(recorders[r := recorder], x) + Holds(recorders[r], x)
            == InRecorders(recorders, x) + Holds(recorder, x)
  {
    var n := |recorders| - 1;
    if r < n {
      OneRecorder(recorders[..n], r, recorder, x);
      assert recorders[r := recorder][..n] == recorders[..n][r := recorder];
    } else {
      assert recorders[r := recorder][..n] == recorders[..n];
    }
  }

  lemma {:induction false} MoreRecorders(recorders: seq<Recorder>, recorder: Recorder, x: Submission)
    ensures InRecorders(recorders + [recorder], x) == InRecorders(recorders, x) + Holds(recorder, x)
  {
  }

  // ---------- the conservation law ----------

  /** 1 for the submissions that were made, 0 for all other values. */
  function Made(log: seq<Submission>, x: Submission): nat {
    if x.serial < |log| && log[x.serial] == x then 1 else 0
  }

  predicate Numbered(log: seq<Submission>) {
    forall i :: 0 <= i < |log| ==> log[i].serial == i
  }

  ghost predicate Conserved(st: State) {
    forall x :: Places(st.pool, st.trace, x) == Made(st.trace.log, x)
  }

  predicate Bounded(cfg: Config, st: State) {
    && Numbered(st.trace.log)
    && |st.pool.queue| <= cfg.capacity
    && (cfg.kind == Standard ==> st.trace.dropped == [] && st.pool.recorders == [])
  }

  /** The work that a recording step is about. */
  function RecordedWork(st: State, a: PoolAction): Submission
    requires a.Record? ==> a.w < |st.pool.workers| && st.pool.workers[a.w].Running?
    requires !a.Record? ==> a.RecorderCreate? && a.r < |st.pool.recorders| && st.pool.recorders[a.r].Recording?
  {
    if a.Record? then st.pool.workers[a.w].work else st.pool.recorders[a.r].work
  }

  /** Work in someone's hands was submitted, so its job is stored and its execution can be stored, too. */
  lemma RecordSucceeds(cfg: Config, st: State, a: PoolAction)
    requires Base(st) && PoolEnabled(cfg, st, a) && (a.Record? || a.RecorderCreate?)
    requires Places(st.pool, st.trace, RecordedWork(st, a)) == Made(st.trace.log, RecordedWork(st, a))
    ensures Stored(st.store, PoolCall(cfg, st, a).value).Ok?
  {
    var x := RecordedWork(st, a);
    assert Made(st.trace.log, x) == 1 by {
      if a.Record? {
        OneWorker(st.pool.workers, a.w, Idle, x);
      } else {
        OneRecorder(st.pool.recorders, a.r, Closed, x);
      }
    }
    assert st.trace.log[x.serial].job.id in st.store.jobs;
  }

  /** What such a step writes. */
  lemma RecordingEffect(cfg: Config, st: State, a: PoolAction)
    requires PoolEnabled(cfg, st, a) && (a.Record? || a.RecorderCreate?)
    requires Stored(st.store, PoolCall(cfg, st, a).value).Ok?
    ensures var st', op := PoolStep(cfg, st, a), PoolCall(cfg, st, a).value;
            && st'.store == Apply(st.store, op) && st'.trace.touched == st.trace.touched
            && st'.trace.recorded == st.trace.recorded + [RecordedWork(st, a)]
            && st'.trace.records == st.trace.records + [Stored(st.store, op).value]
  {
    hide Stored, Apply, ExecutionOf;
  }

  /** The recording steps move a submission from a worker or a recorder to the recorded ones. */
  lemma RecordMoves(cfg: Config, st: State, a: PoolAction, x: Submission)
    requires PoolEnabled(cfg, st, a) && (a.Record? || a.RecorderCreate?)
    requires Stored(st.store, PoolCall(cfg, st, a).value).Ok?
    ensures Places(PoolEffect(cfg, st, a).pool, PoolEffect(cfg, st, a).trace, x) == Places(st.pool, st.trace, x)
  {
    var pool, pool' := st.pool, PoolEffect(cfg, st, a).pool;
    Appending(st.trace.recorded, RecordedWork(st, a), x);
    if a.Record? {
      OneWorker(pool.workers, a.w, pool'.workers[a.w], x);
    } else {
      OneRecorder(pool.recorders, a.r, pool'.recorders[a.r], x);
    }
  }

  lemma SpawnMoves(cfg: Config, st: State, a: PoolAction, x: Submission)
    requires PoolEnabled(cfg, st, a) && a.Spawn?
    ensures Places(PoolEffect(cfg, st, a).pool, st.trace, x) == Places(st.pool, st.trace, x)
  {
    OneWorker(st.pool.workers, a.w, PoolEffect(cfg, st, a).pool.workers[a.w], x);
    MoreRecorders(st.pool.recorders, Recording(st.pool.workers[a.w].work, a.outcome, a.duration, st.clock), x);
  }

  lemma TakeMoves(cfg: Config, st: State, a: PoolAction, x: Submission)
    requires PoolEnabled(cfg, st, a) && a.Take?
    ensures Places(PoolEffect(cfg, st, a).pool, st.trace, x) == Places(st.pool, st.trace, x)
  {
    OneWorker(st.pool.workers, a.w, Running(st.pool.queue[0], st.clock), x);
    WithoutFirst(st.pool.queue, x);
  }

  lemma OthersStay(cfg: Config, st: State, a: PoolAction, x: Submission)
    requires PoolEnabled(cfg, st, a) && (a.Touch? || a.Count? || a.Leave? || a.RecorderTouch? || a.LeaveReporter?)
    ensures Places(PoolEffect(cfg, st, a).pool, PoolEffect(cfg, st, a).trace, x) == Places(st.pool, st.trace, x)
  {
    if a.RecorderTouch? {
      OneRecorder(st.pool.recorders, a.r, Closed, x);
    } else if !a.LeaveReporter? {
      OneWorker(st.pool.workers, a.w, if a.Leave? then Left else Idle, x);
    }
  }

  /** A step of the executor moves a submission from one place to another, or leaves it where it is. */
  lemma PoolMoves(cfg: Config, st: State, a: PoolAction, x: Submission)
    requires PoolEnabled(cfg, st, a)
    requires a.Record? || a.RecorderCreate? ==> Stored(st.store, PoolCall(cfg, st, a).value).Ok?
    ensures Places(PoolEffect(cfg, st, a).pool, PoolEffect(cfg, st, a).trace, x) == Places(st.pool, st.trace, x)
  {
    if a.Record? || a.RecorderCreate? {
      RecordMoves(cfg, st, a, x);
    } else if a.Spawn? {
      SpawnMoves(cfg, st, a, x);
    } else if a.Take? {
      TakeMoves(cfg, st, a, x);
    } else {
      OthersStay(cfg, st, a, x);
    }
  }

  lemma PoolConserves(cfg: Config, st: State, a: PoolAction)
    requires Base(st) && Conserved(st) && PoolEnabled(cfg, st, a)
    ensures Conserved(PoolStep(cfg, st, a))
  {
    if a.Record? || a.RecorderCreate? {
      RecordSucceeds(cfg, st, a);
    }
    forall x
      ensures Places(PoolStep(cfg, st, a).pool, PoolStep(cfg, st, a).trace, x) == Made(st.trace.log, x)
    {
      PoolMoves(cfg, st, a, x);
    }
  }

  /** A submission that does not meet a closed queue adds itself in one place, and nothing else. */
  lemma SubmitPlaces(cfg: Config, st: State, job: Job, now: Time, x: Submission)
    requires !st.QueueCloses()
    ensures var st' := SubmitJob(cfg, st, job, now);
            Places(st'.pool, st'.trace, x)
            == Places(st.pool, st.trace, x) + (if Submission(|st.trace.log|, job, now) == x then 1 else 0)
  {
    var work := Submission(|st.trace.log|, job, now);
    if |st.pool.queue| < cfg.capacity {
      Appending(st.pool.queue, work, x);
    } else {
      Appending(st.trace.dropped, work, x);
    }
  }

  lemma SweepConserves(cfg: Config, st: State, a: SweepAction)
    requires Conserved(st) && SweepEnabled(cfg, st, a) && !(a.Submit? && st.QueueCloses())
    ensures Conserved(SweepStep(cfg, st, a))
  {
    var st' := SweepStep(cfg, st, a);
    forall x
      ensures Places(st'.pool, st'.trace, x) == Made(st'.trace.log, x)
    {
      assert Places(st.pool, st.trace, x) == Made(st.trace.log, x);
      if a.Submit? && st.sweep.next < |st.sweep.due| {
        SubmitPlaces(cfg, st, st.sweep.due[st.sweep.next], st.sweep.now, x);
      }
    }
  }

  lemma StepConserves(cfg: Config, st: State, a: Action)
    requires Base(st) && Shutdown.Orderly(cfg, st) && Conserved(st) && Enabled(cfg, st, a)
    ensures Conserved(Step(cfg, st, a))
  {
    assert st.QueueCloses() ==> st.sweep.Returned?;
    hide Conserved, Base, Shutdown.Orderly;
    match a
    case Tick(t) => PlacesKept(st, st.(clock := t));
    case Api(api) => PlacesKept(st, ApiStep(cfg, st, api));
    case Scheduler(sweep) => SweepConserves(cfg, st, sweep);
    case Executor(pool) => PoolConserves(cfg, st, pool);
    case Shutdown(main) => PlacesKept(st, MainStep(st, main));
  }

  lemma PlacesKept(st: State, st': State)
    requires Conserved(st) && st'.pool == st.pool && st'.trace.log == st.trace.log
    requires st'.trace.dropped == st.trace.dropped && st'.trace.recorded == st.trace.recorded
    ensures Conserved(st')
  {
  }

  lemma StepKeepsBounds(cfg: Config, st: State, a: Action)
    requires Bounded(cfg, st) && Enabled(cfg, st, a)
    ensures Bounded(cfg, Step(cfg, st, a))
  {
    match a
    case Tick(_) =>
    case Api(api) =>
    case Scheduler(sweep) => SweepKeepsBounds(cfg, st, sweep);
    case Executor(pool) => PoolKeepsBounds(cfg, st, pool);
    case Shutdown(main) =>
  }

  lemma SweepKeepsBounds(cfg: Config, st: State, a: SweepAction)
    requires Bounded(cfg, st) && SweepEnabled(cfg, st, a)
    ensures Bounded(cfg, SweepStep(cfg, st, a))
  {
  }

  lemma PoolKeepsBounds(cfg: Config, st: State, a: PoolAction)
    requires Bounded(cfg, st) && PoolEnabled(cfg, st, a)
    ensures Bounded(cfg, PoolStep(cfg, st, a))
  {
  }

  lemma {:induction false} AllIdle(n: nat, x: Submission)
    ensures InWorkers(seq(n, _ => Idle), x) == 0
  {
    if n > 0 {
      AllIdle(n - 1, x);
      assert seq(n, _ => Worker.Idle)[..n - 1] == seq(n - 1, _ => Worker.Idle);
    }
  }

  lemma InitialConserved(cfg: Config, clock: Time)
    ensures Conserved(Initial(cfg, clock)) && Bounded(cfg, Initial(cfg, clock))
  {
    forall x
      ensures Places(Initial(cfg, clock).pool, NO_TRACE, x) == 0
    {
      AllIdle(cfg.workers, x);
    }
  }

  lemma {:induction false} RunConserves(cfg: Config, clock: Time, steps: seq<Action>)
    requires Run(cfg, Initial(cfg, clock), steps).Some?
    ensures var st := Run(cfg, Initial(cfg, clock), steps).value;
            Base(st) && Shutdown.Orderly(cfg, st) && Conserved(st) && Bounded(cfg, st)
  {
    if steps == [] {
      InitialBase(cfg, clock);
      InitialConserved(cfg, clock);
    } else {
      RunConserves(cfg, clock, steps[..|steps| - 1]);
      var st, a := Run(cfg, Initial(cfg, clock), steps[..|steps| - 1]).value, steps[|steps| - 1];
      StepKeepsBase(cfg, st, a);
      Shutdown.StepKeepsOrder(cfg, st, a);
      StepConserves(cfg, st, a);
      StepKeepsBounds(cfg, st, a);
    }
  }

  /** In every run each submission is in exactly one place, and nothing else is in any place; the queue never
      exceeds its capacity; the standard executor drops nothing. */
  lemma {:induction false} NothingLostNothingTwice(cfg: Config, clock: Time, steps: seq<Action>, x: Submission)
    requires Run(cfg, Initial(cfg, clock), steps).Some?
    ensures var st := Run(cfg, Initial(cfg, clock), steps).value;
            && Places(st.pool, st.trace, x) == Made(st.trace.log, x)
            && |st.pool.queue| <= cfg.capacity
            && (cfg.kind == Standard ==> st.trace.dropped == [] && st.pool.recorders == [])
  {
    RunConserves(cfg, clock, steps);
  }

  // ---------- no submission runs twice ----------

  /** No step puts an earlier submission back into the queue, or from elsewhere into a worker. */
  ghost predicate OnlyForward(st: State, st': State, x: Submission) {
    && Occurrences(st'.pool.queue, x) <= Occurrences(st.pool.queue, x)
    && Occurrences(st'.pool.queue, x) + InWorkers(st'.pool.workers, x)
       <= Occurrences(st.pool.queue, x) + InWorkers(st.pool.workers, x)
    && st.trace.recorded <= st'.trace.recorded && |st.trace.log| <= |st'.trace.log|
  }

  /** A worker that does not take work keeps what it runs, or has finished with it. */
  lemma WorkerForward(workers: seq<Worker>, w: nat, worker: Worker, x: Submission)
    requires w < |workers| && !worker.Running?
    ensures InWorkers(workers[w := worker], x) <= InWorkers(workers, x)
  {
    OneWorker(workers, w, worker, x);
  }

  lemma PoolOnlyForward(cfg: Config, st: State, a: PoolAction, x: Submission)
    requires PoolEnabled(cfg, st, a)
    ensures OnlyForward(st, PoolStep(cfg, st, a), x)
  {
    hide PoolEffect, Occurrences, InWorkers;
    var workers := PoolEffect(cfg, st, a).pool.workers;
    WorkerShape(cfg, st, a);
    PoolShape(cfg, st, a);
    if a.Take? {
      TakeForward(st.pool, a.w, st.clock, x);
    } else if OfWorker(a) {
      WorkerForward(st.pool.workers, a.w, workers[a.w], x);
    }
  }

  lemma {:induction false} TakeForward(pool: Pool, w: nat, since: Time, x: Submission)
    requires w < |pool.workers| && pool.workers[w].Idle? && pool.queue != []
    ensures Occurrences(pool.queue[1..], x) <= Occurrences(pool.queue, x)
    ensures Occurrences(pool.queue[1..], x) + InWorkers(pool.workers[w := Running(pool.queue[0], since)], x)
            == Occurrences(pool.queue, x) + InWorkers(pool.workers, x)
  {
    OneWorker(pool.workers, w, Running(pool.queue[0], since), x);
    WithoutFirst(pool.queue, x);
  }

  lemma SweepOnlyForward(cfg: Config, st: State, a: SweepAction, x: Submission)
    requires SweepEnabled(cfg, st, a) && x.serial < |st.trace.log|
    ensures OnlyForward(st, SweepStep(cfg, st, a), x)
  {
    if a.Submit? && st.sweep.next < |st.sweep.due| {
      Appending(st.pool.queue, Submission(|st.trace.log|, st.sweep.due[st.sweep.next], st.sweep.now), x);
    }
  }

  lemma StepOnlyForward(cfg: Config, st: State, a: Action, x: Submission)
    requires Enabled(cfg, st, a) && x.serial < |st.trace.log|
    ensures OnlyForward(st, Step(cfg, st, a), x)
  {
    hide SubmitJob, PoolEffect, ApiCall;
    match a
    case Tick(_) =>
    case Api(api) =>
    case Scheduler(sweep) => SweepOnlyForward(cfg, st, sweep, x);
    case Executor(pool) => PoolOnlyForward(cfg, st, pool, x);
    case Shutdown(main) =>
  }

  /** Over any run: a submission that has left the queue never returns to it, one that a worker has finished with
      is never run again, and a recorded one stays recorded. */
  lemma {:induction false} RunsAtMostOnce(cfg: Config, st: State, steps: seq<Action>, x: Submission)
    requires Run(cfg, st, steps).Some? && x.serial < |st.trace.log|
    ensures OnlyForward(st, Run(cfg, st, steps).value, x)
  {
    if steps != [] {
      RunsAtMostOnce(cfg, st, steps[..|steps| - 1], x);
      StepOnlyForward(cfg, Run(cfg, st, steps[..|steps| - 1]).value, steps[|steps| - 1], x);
    }
  }
}
