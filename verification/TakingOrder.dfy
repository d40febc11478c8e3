/** Workers take submissions in the order in which they were made. */
module TakingOrder {
  import opened Common
  import opened Pipeline

  /** The queue is in the order of submission, and everything in it was submitted after all that workers have in hand
      or have called for. */
  ghost predicate FirstComeFirstServed(pool: Pool, trace: Trace) {
    && (forall i :: 0 <= i < |pool.queue| ==> pool.queue[i].serial < |trace.log|)
    && (forall i, j :: 0 <= i < j < |pool.queue| ==> pool.queue[i].serial < pool.queue[j].serial)
    && (forall w, i :: 0 <= w < |pool.workers| && pool.workers[w].Running? && 0 <= i < |pool.queue| ==>
          pool.workers[w].work.serial < pool.queue[i].serial)
    && (forall w :: 0 <= w < |pool.workers| && pool.workers[w].Running? ==>
          pool.workers[w].work.serial < |trace.log|)
    && (forall c, i :: 0 <= c < |trace.calls| && 0 <= i < |pool.queue| ==>
          trace.calls[c].work.serial < pool.queue[i].serial)
    && forall c :: 0 <= c < |trace.calls| ==> trace.calls[c].work.serial < |trace.log|
  }

  lemma PoolKeepsTurns(cfg: Config, st: State, a: PoolAction)
    requires FirstComeFirstServed(st.pool, st.trace) && PoolEnabled(cfg, st, a)
    ensures var st' := PoolEffect(cfg, st, a); FirstComeFirstServed(st'.pool, st'.trace)
  {
    hide PoolEffect;
    WorkerShape(cfg, st, a);
    PoolShape(cfg, st, a);
    CallsShape(cfg, st, a);
  }

  lemma SameOrder(pool: Pool, trace: Trace, trace': Trace)
    requires FirstComeFirstServed(pool, trace) && trace'.calls == trace.calls && trace.log <= trace'.log
    ensures FirstComeFirstServed(pool, trace')
  {
  }

  lemma OneMoreQueued(pool: Pool, pool': Pool, trace: Trace, trace': Trace, work: Submission)
    requires FirstComeFirstServed(pool, trace) && work.serial == |trace.log|
    requires pool' == pool.(queue := pool.queue + [work])
    requires trace'.calls == trace.calls && trace'.log == trace.log + [work]
    ensures FirstComeFirstServed(pool', trace')
  {
  }

  lemma SubmitKeepsTurns(cfg: Config, st: State)
    requires FirstComeFirstServed(st.pool, st.trace) && SweepEnabled(cfg, st, Submit) && st.sweep.next < |st.sweep.due|
    ensures var st' := SweepStep(cfg, st, Submit); FirstComeFirstServed(st'.pool, st'.trace)
  {
    hide FirstComeFirstServed;
    var work := Submission(|st.trace.log|, st.sweep.due[st.sweep.next], st.sweep.now);
    var st' := SweepStep(cfg, st, Submit);
    assert st'.trace.log == st.trace.log + [work] && st'.trace.calls == st.trace.calls;
    if !st.QueueCloses() && |st.pool.queue| < cfg.capacity {
      OneMoreQueued(st.pool, st'.pool, st.trace, st'.trace, work);
    } else {
      SameOrder(st.pool, st.trace, st'.trace);
    }
  }

  /** The other steps of a sweep and those of handlers touch neither queue nor workers. */
  lemma OthersKeepQueue(cfg: Config, st: State, a: Action)
    requires Enabled(cfg, st, a) && !a.Executor?
    requires a.Scheduler? && a.sweep.Submit? ==> st.sweep.next == |st.sweep.due|
    ensures var st' := Step(cfg, st, a);
            st'.pool == st.pool && st'.trace.calls == st.trace.calls && st'.trace.log == st.trace.log
  {
  }

  lemma StepKeepsTurns(cfg: Config, st: State, a: Action)
    requires FirstComeFirstServed(st.pool, st.trace) && Enabled(cfg, st, a)
    ensures var st' := Step(cfg, st, a); FirstComeFirstServed(st'.pool, st'.trace)
  {
    hide FirstComeFirstServed, PoolEffect, SweepEffect, ApiEffect;
    if a.Executor? {
      PoolKeepsTurns(cfg, st, a.pool);
    } else if a.Scheduler? && a.sweep.Submit? && st.sweep.next < |st.sweep.due| {
      SubmitKeepsTurns(cfg, st);
    } else {
      OthersKeepQueue(cfg, st, a);
      SameOrder(st.pool, st.trace, Step(cfg, st, a).trace);
    }
  }

  /** In every run what is still queued was submitted after everything that was ever taken. */
  lemma {:induction false} TakenInOrder(cfg: Config, clock: Time, steps: seq<Action>)
    requires Run(cfg, Initial(cfg, clock), steps).Some?
    ensures var end := Run(cfg, Initial(cfg, clock), steps).value; FirstComeFirstServed(end.pool, end.trace)
  {
    hide Enabled, Step;
    if steps != [] {
      TakenInOrder(cfg, clock, steps[..|steps| - 1]);
      LastStep(cfg, Initial(cfg, clock), steps);
      StepKeepsTurns(cfg, Before(cfg, Initial(cfg, clock), steps), steps[|steps| - 1]);
    }
  }
}
