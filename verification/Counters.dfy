/** What the optimized executor's counters say: the calls that were answered, and those of them that failed. */
module Counters {
  import opened Common
  import opened Pipeline

  predicate Answered(outcome: Outcome) {
    outcome.Response?
  }

  predicate BadAnswer(outcome: Outcome) {
    outcome.Response? && !(200 <= outcome.status < 300)
  }

  /** How many of the calls came to such an end. */
  function Ended(calls: seq<Call>, such: Outcome -> bool): (n: nat)
    ensures n <= |calls|
  {
    if calls == [] then 0
    else Ended(calls[..|calls| - 1], such) + (if such(calls[|calls| - 1].outcome) then 1 else 0)
  }

  /** How many workers are about to count such a call. */
  function AboutToCount(workers: seq<Worker>, such: bool -> bool): (n: nat)
    ensures n <= |workers|
  {
    if workers == [] then 0
    else
      var last := workers[|workers| - 1];
      AboutToCount(workers[..|workers| - 1], such) + (if last.Counting? && such(last.success) then 1 else 0)
  }

  function Any(success: bool): bool { true }

  function Not(success: bool): bool { !success }

  /** Each answered call has been counted or has a worker about to count it, a failed one in both counters, and each
      recorder in progress has the work, the outcome and the duration of its own call. The standard executor has
      neither counters nor recorders. */
  predicate Counted(kind: Kind, pool: Pool, calls: seq<Call>) {
    match kind
    case Standard =>
      && pool.processed == pool.failed == 0 && pool.recorders == []
      && forall w :: 0 <= w < |pool.workers| ==> !pool.workers[w].Counting?
    case Optimized =>
      && pool.processed + AboutToCount(pool.workers, Any) == Ended(calls, Answered)
      && pool.failed + AboutToCount(pool.workers, Not) == Ended(calls, BadAnswer)
      && pool.failed <= pool.processed
      && RecordersOwn(pool.recorders, calls)
  }

  predicate RecordersOwn(recorders: seq<Recorder>, calls: seq<Call>) {
    && |recorders| == |calls|
    && forall r :: 0 <= r < |recorders| && recorders[r].Recording? ==>
         Call(recorders[r].work, recorders[r].outcome, recorders[r].duration) == calls[r]
  }

  lemma {:induction false} AboutToCountAfter(workers: seq<Worker>, w: nat, worker: Worker, such: bool -> bool)
    requires w < |workers|
    ensures AboutToCount(workers[w := worker], such)
            + (if workers[w].Counting? && such(workers[w].success) then 1 else 0)
            == AboutToCount(workers, such) + (if worker.Counting? && such(worker.success) then 1 else 0)
  {
    var n := |workers| - 1;
    if w == n {
      assert workers[w := worker][..n] == workers[..n];
    } else {
      AboutToCountAfter(workers[..n], w, worker, such);
      assert workers[w := worker][..n] == workers[..n][w := worker];
    }
  }

  lemma {:induction false} EndedMore(calls: seq<Call>, call: Call, such: Outcome -> bool)
    ensures Ended(calls + [call], such) == Ended(calls, such) + (if such(call.outcome) then 1 else 0)
  {
    assert (calls + [call])[..|calls|] == calls;
  }

  /** What a step of the pool does to the figures. */
  predicate Tallied(pool: Pool, pool': Pool, a: PoolAction) {
    if a.Count? then
      && pool'.processed == pool.processed + 1
      && a.w < |pool.workers| && pool.workers[a.w].Counting?
      && pool'.failed == pool.failed + (if pool.workers[a.w].success then 0 else 1)
    else pool'.processed == pool.processed && pool'.failed == pool.failed
  }

  lemma PoolTallies(cfg: Config, st: State, a: PoolAction)
    requires PoolEnabled(cfg, st, a)
    ensures Tallied(st.pool, PoolEffect(cfg, st, a).pool, a)
  {
    hide PoolCall, Stored, ExecutionOf;
  }

  /** The worker of the step is about to count exactly what it has just learnt. */
  lemma WorkerTallies(cfg: Config, st: State, a: PoolAction)
    requires PoolEnabled(cfg, st, a) && OfWorker(a)
    ensures var worker := PoolEffect(cfg, st, a).pool.workers[a.w];
            && (if a.Spawn? && a.outcome.Response? then worker == Counting(200 <= a.outcome.status < 300)
                else !worker.Counting?)
            && (st.pool.workers[a.w].Counting? ==> a.Count?)
  {
    hide PoolCall, Stored, ExecutionOf;
  }

  lemma PoolKeepsCounted(cfg: Config, st: State, a: PoolAction)
    requires Counted(cfg.kind, st.pool, st.trace.calls) && PoolEnabled(cfg, st, a)
    ensures var st' := PoolEffect(cfg, st, a); Counted(cfg.kind, st'.pool, st'.trace.calls)
  {
    hide PoolEffect, AboutToCount, Ended;
    var workers := PoolEffect(cfg, st, a).pool.workers;
    WorkerShape(cfg, st, a);
    CallsShape(cfg, st, a);
    PoolTallies(cfg, st, a);
    RecorderShape(cfg, st, a);
    if OfWorker(a) {
      WorkerTallies(cfg, st, a);
      AboutToCountAfter(st.pool.workers, a.w, workers[a.w], Any);
      AboutToCountAfter(st.pool.workers, a.w, workers[a.w], Not);
    }
    if a.Spawn? {
      EndedMore(st.trace.calls, Call(st.pool.workers[a.w].work, a.outcome, a.duration), Answered);
      EndedMore(st.trace.calls, Call(st.pool.workers[a.w].work, a.outcome, a.duration), BadAnswer);
    }
  }

  lemma SweepKeepsTally(cfg: Config, st: State, a: SweepAction)
    requires SweepEnabled(cfg, st, a)
    ensures var st' := SweepStep(cfg, st, a);
            st'.pool == st.pool.(queue := st'.pool.queue) && st'.trace.calls == st.trace.calls
  {
  }

  lemma StepKeepsCounted(cfg: Config, st: State, a: Action)
    requires Counted(cfg.kind, st.pool, st.trace.calls) && Enabled(cfg, st, a)
    ensures var st' := Step(cfg, st, a); Counted(cfg.kind, st'.pool, st'.trace.calls)
  {
    hide PoolEffect, AboutToCount, Ended;
    match a
    case Executor(pool) => PoolKeepsCounted(cfg, st, pool);
    case Scheduler(sweep) => SweepKeepsTally(cfg, st, sweep);
    case Tick(_) =>
    case Api(_) =>
    case Shutdown(_) =>
  }

  lemma {:induction false} NobodyCounting(workers: seq<Worker>, such: bool -> bool)
    requires forall w :: 0 <= w < |workers| ==> !workers[w].Counting?
    ensures AboutToCount(workers, such) == 0
  {
    if workers != [] {
      NobodyCounting(workers[..|workers| - 1], such);
    }
  }

  /** In every run the counters lag behind the answered calls by exactly the workers about to count, and once no worker
      is, they equal them. */
  lemma {:induction false} CountersAgree(cfg: Config, clock: Time, steps: seq<Action>)
    requires Run(cfg, Initial(cfg, clock), steps).Some?
    ensures var end := Run(cfg, Initial(cfg, clock), steps).value;
            && Counted(cfg.kind, end.pool, end.trace.calls)
            && (cfg.kind == Optimized
                && (forall w :: 0 <= w < |end.pool.workers| ==> !end.pool.workers[w].Counting?) ==>
                  && end.pool.processed == Ended(end.trace.calls, Answered)
                  && end.pool.failed == Ended(end.trace.calls, BadAnswer))
  {
    hide Enabled, Step;
    var end := Run(cfg, Initial(cfg, clock), steps).value;
    if steps == [] {
      NobodyCounting(end.pool.workers, Any);
      NobodyCounting(end.pool.workers, Not);
    } else {
      CountersAgree(cfg, clock, steps[..|steps| - 1]);
      LastStep(cfg, Initial(cfg, clock), steps);
      StepKeepsCounted(cfg, Before(cfg, Initial(cfg, clock), steps), steps[|steps| - 1]);
      if forall w :: 0 <= w < |end.pool.workers| ==> !end.pool.workers[w].Counting? {
        NobodyCounting(end.pool.workers, Any);
        NobodyCounting(end.pool.workers, Not);
      }
    }
  }
}
