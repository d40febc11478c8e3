/** A deleted job stays deleted, and at most one more submission of it happens. */
module Deletion {
  import opened Common
  import opened Models
  import opened StoreSpec
  import opened StoreInvariant
  import opened Pipeline
  import opened PipelineInvariant

  function CountId(jobs: seq<Job>, id: string): nat {
    if jobs == [] then 0 else CountId(jobs[..|jobs| - 1], id) + (if jobs[|jobs| - 1].id == id then 1 else 0)
  }

  function SubmissionsOf(log: seq<Submission>, id: string): nat {
    if log == [] then 0 else SubmissionsOf(log[..|log| - 1], id) + (if log[|log| - 1].job.id == id then 1 else 0)
  }

  lemma {:induction false} CountAppended(log: seq<Submission>, work: Submission, id: string)
    ensures SubmissionsOf(log + [work], id) == SubmissionsOf(log, id) + (if work.job.id == id then 1 else 0)
  {
    assert (log + [work])[..|log|] == log;
  }

  /** How often the sweep in progress may still submit the job. */
  function InFlight(sweep: Sweep, id: string): nat {
    match sweep
    case Loaded(jobs) => CountId(jobs, id)
    case Submitting(_, due, next) => if next <= |due| then CountId(due[next..], id) else 0
    case _ => 0
  }

  lemma {:induction false} CountFirst(jobs: seq<Job>, id: string)
    requires jobs != []
    ensures CountId(jobs, id) == (if jobs[0].id == id then 1 else 0) + CountId(jobs[1..], id)
  {
    var n := |jobs| - 1;
    if n > 0 {
      CountFirst(jobs[..n], id);
      assert jobs[1..][..n - 1] == jobs[..n][1..];
    }
  }

  lemma {:induction false} CountNone(jobs: seq<Job>, id: string)
    requires forall k :: 0 <= k < |jobs| ==> jobs[k].id != id
    ensures CountId(jobs, id) == 0
  {
    if jobs != [] {
      CountNone(jobs[..|jobs| - 1], id);
    }
  }

  lemma {:induction false} CountDistinct(jobs: seq<Job>, id: string)
    requires DistinctIds(jobs)
    ensures CountId(jobs, id) <= 1
  {
    if jobs != [] {
      var n := |jobs| - 1;
      CountDistinct(jobs[..n], id);
      if jobs[n].id == id {
        CountNone(jobs[..n], id);
      }
    }
  }

  lemma {:induction false} CountDue(jobs: seq<Job>, now: Time, id: string)
    ensures CountId(DueJobs(jobs, now), id) <= CountId(jobs, id)
  {
    if jobs != [] {
      var n := |jobs| - 1;
      CountDue(jobs[..n], now, id);
      if IsDue(jobs[n], now) {
        assert DueJobs(jobs, now)[..|DueJobs(jobs, now)| - 1] == DueJobs(jobs[..n], now);
      }
    }
  }

  /** A snapshot holds a job at most once. */
  lemma AtMostOneInFlight(st: State, id: string)
    requires Base(st)
    ensures InFlight(st.sweep, id) <= 1
  {
    match st.sweep
    case Loaded(jobs) => CountDistinct(jobs, id);
    case Submitting(_, due, next) => CountDistinct(due[next..], id);
    case _ =>
  }

  predicate IsDeleted(s: Store, id: string) {
    id in s.jobs && s.jobs[id].status == Deleted
  }

  lemma CallKeepsDeleted(s: Store, op: Operation, id: string)
    requires ServiceCall(op) && IsDeleted(s, id)
    ensures IsDeleted(Apply(s, op), id)
  {
  }

  lemma {:induction false} SweepAfterDelete(cfg: Config, st: State, a: SweepAction, id: string)
    requires Base(st) && IsDeleted(st.store, id) && SweepEnabled(cfg, st, a)
    ensures var st' := SweepEffect(cfg, st, a);
            SubmissionsOf(st'.trace.log, id) + InFlight(st'.sweep, id)
            <= SubmissionsOf(st.trace.log, id) + InFlight(st.sweep, id)
  {
    match a
    case Load(order) =>
      SnapshotDistinct(st.store, order, Active);
      CountNone(Snapshot(st.store, order), id);
    case Filter =>
      CountDue(st.sweep.jobs, st.clock, id);
      var due := DueJobs(st.sweep.jobs, st.clock);
      assert due[0..] == due;
    case Submit =>
      if st.sweep.next < |st.sweep.due| {
        SubmitCounts(cfg, st, id);
      }
    case Advance =>
    case Return =>
  }

  lemma {:induction false} SubmitCounts(cfg: Config, st: State, id: string)
    requires SweepEnabled(cfg, st, Submit) && st.sweep.next < |st.sweep.due|
    ensures var st' := SweepEffect(cfg, st, Submit);
            SubmissionsOf(st'.trace.log, id) + InFlight(st'.sweep, id)
            == SubmissionsOf(st.trace.log, id) + InFlight(st.sweep, id)
  {
    var due, next := st.sweep.due, st.sweep.next;
    CountFirst(due[next..], id);
    assert due[next..][1..] == due[next + 1..];
    CountAppended(st.trace.log, Submission(|st.trace.log|, due[next], st.sweep.now), id);
  }

  lemma {:induction false} StepAfterDelete(cfg: Config, st: State, a: Action, id: string)
    requires Base(st) && IsDeleted(st.store, id) && Enabled(cfg, st, a)
    ensures var st' := Step(cfg, st, a);
            && IsDeleted(st'.store, id)
            && SubmissionsOf(st'.trace.log, id) + InFlight(st'.sweep, id)
               <= SubmissionsOf(st.trace.log, id) + InFlight(st.sweep, id)
  {
    hide Base;
    match a
    case Tick(_) =>
    case Api(api) => ApiAfterDelete(cfg, st, api, id);
    case Scheduler(sweep) =>
      SweepAfterDelete(cfg, st, sweep, id);
      SweepKeepsDeleted(cfg, st, sweep, id);
    case Executor(pool) => PoolLeavesSchedules(cfg, st, pool);
    case Shutdown(main) =>
  }

  lemma SweepKeepsDeleted(cfg: Config, st: State, a: SweepAction, id: string)
    requires IsDeleted(st.store, id) && SweepEnabled(cfg, st, a)
    ensures IsDeleted(SweepStep(cfg, st, a).store, id)
  {
  }

  lemma ApiAfterDelete(cfg: Config, st: State, a: ApiAction, id: string)
    requires Base(st) && IsDeleted(st.store, id) && ApiEnabled(st, a)
    ensures var st' := ApiStep(cfg, st, a);
            IsDeleted(st'.store, id) && st'.trace.log == st.trace.log && st'.sweep == st.sweep
  {
    ApiKeepsPlain(cfg, st, a);
    if ApiCall(cfg, st, a).Some? {
      CallKeepsDeleted(st.store, ApiCall(cfg, st, a).value, id);
    }
  }

  /** From any state in which a job is deleted: it stays deleted, whatever handlers, sweeps and workers do, and the
      only submission that may follow is the one that the sweep in progress still holds. */
  lemma {:induction false} DeleteIsPermanent(cfg: Config, st: State, steps: seq<Action>, id: string)
    requires Base(st) && IsDeleted(st.store, id) && Run(cfg, st, steps).Some?
    ensures var st' := Run(cfg, st, steps).value;
            && IsDeleted(st'.store, id)
            && SubmissionsOf(st'.trace.log, id) + InFlight(st'.sweep, id)
               <= SubmissionsOf(st.trace.log, id) + InFlight(st.sweep, id)
            && SubmissionsOf(st'.trace.log, id) <= SubmissionsOf(st.trace.log, id) + 1
  {
    AtMostOneInFlight(st, id);
    if steps != [] {
      DeleteIsPermanent(cfg, st, steps[..|steps| - 1], id);
      var before := Run(cfg, st, steps[..|steps| - 1]).value;
      RunKeepsBase(cfg, st, steps[..|steps| - 1]);
      StepAfterDelete(cfg, before, steps[|steps| - 1], id);
    }
  }

  /** Every job is active or deleted. */
  predicate ActiveOrDeleted(s: Store) {
    forall id :: id in s.jobs ==> s.jobs[id].status == Active || s.jobs[id].status == Deleted
  }

  lemma CallKeepsStatuses(s: Store, op: Operation)
    requires ServiceCall(op) && ActiveOrDeleted(s)
    ensures ActiveOrDeleted(Apply(s, op))
  {
  }

  lemma StepKeepsStatuses(cfg: Config, st: State, a: Action)
    requires Base(st) && ActiveOrDeleted(st.store) && Enabled(cfg, st, a)
    ensures ActiveOrDeleted(Step(cfg, st, a).store)
  {
    hide Base, ActiveOrDeleted, Apply, ServiceCall, PoolEffect, SweepEffect, ApiEffect;
    var call := CallOf(cfg, st, a);
    CallsAreServiceCalls(cfg, st, a);
    if call.Some? {
      CallKeepsStatuses(st.store, call.value);
    }
  }

  /** The repository call of a step. */
  ghost function CallOf(cfg: Config, st: State, a: Action): Option<Operation>
    requires Enabled(cfg, st, a)
  {
    match a
    case Api(api) => ApiCall(cfg, st, api)
    case Scheduler(sweep) => SweepCall(cfg, st, sweep)
    case Executor(pool) => PoolCall(cfg, st, pool)
    case _ => None
  }

  lemma CallsAreServiceCalls(cfg: Config, st: State, a: Action)
    requires Base(st) && Enabled(cfg, st, a)
    ensures CallOf(cfg, st, a).Some? ==> ServiceCall(CallOf(cfg, st, a).value)
  {
    hide StoreInvariant.Inv, Transit;
    if a.Api? {
      ApiKeepsPlain(cfg, st, a.api);
    }
  }

  /** In every run each stored job is active or deleted: no job ever becomes inactive. */
  lemma {:induction false} NeverInactive(cfg: Config, clock: Time, steps: seq<Action>)
    requires Run(cfg, Initial(cfg, clock), steps).Some?
    ensures ActiveOrDeleted(Run(cfg, Initial(cfg, clock), steps).value.store)
  {
    hide Enabled, Step, Base;
    if steps != [] {
      NeverInactive(cfg, clock, steps[..|steps| - 1]);
      InitialBase(cfg, clock);
      RunKeepsBase(cfg, Initial(cfg, clock), steps[..|steps| - 1]);
      LastStep(cfg, Initial(cfg, clock), steps);
      StepKeepsStatuses(cfg, Before(cfg, Initial(cfg, clock), steps), steps[|steps| - 1]);
    }
  }

  /** A successful delete has exactly this effect: the job is deleted from then on. */
  lemma {:induction false} DeleteTakesEffect(
    cfg: Config, clock: Time, steps: seq<Action>, later: seq<Action>, id: string)
    requires Run(cfg, Initial(cfg, clock), steps).Some?
    requires var st := Run(cfg, Initial(cfg, clock), steps).value;
             id in st.store.jobs && Enabled(cfg, st, Api(Delete(id)))
             && Run(cfg, Step(cfg, st, Api(Delete(id))), later).Some?
    ensures var st := Run(cfg, Initial(cfg, clock), steps).value;
            var end := Run(cfg, Step(cfg, st, Api(Delete(id))), later).value;
            && IsDeleted(end.store, id)
            && SubmissionsOf(end.trace.log, id) <= SubmissionsOf(st.trace.log, id) + InFlight(st.sweep, id)
            && InFlight(st.sweep, id) <= 1
  {
    InitialBase(cfg, clock);
    RunKeepsBase(cfg, Initial(cfg, clock), steps);
    var st := Run(cfg, Initial(cfg, clock), steps).value;
    AtMostOneInFlight(st, id);
    StepKeepsBase(cfg, st, Api(Delete(id)));
    DeleteIsPermanent(cfg, Step(cfg, st, Api(Delete(id))), later, id);
  }

  lemma LogsNext(cfg: Config, st: State)
    requires SweepEnabled(cfg, st, Submit) && st.sweep.next < |st.sweep.due|
    ensures SweepEffect(cfg, st, Submit).trace.log
            == st.trace.log + [Submission(|st.trace.log|, st.sweep.due[st.sweep.next], st.sweep.now)]
  {
  }

  /** That one submission does happen: to a job deleted after the snapshot was taken. */
  lemma DeletedStillSubmitted(cfg: Config, st: State)
    requires Base(st) && st.sweep.Submitting? && st.sweep.next < |st.sweep.due|
    requires Enabled(cfg, st, Scheduler(Submit))
    ensures var id := st.sweep.due[st.sweep.next].id;
            var st' := Step(cfg, st, Api(Delete(id)));
            && Enabled(cfg, st', Scheduler(Submit))
            && var end := Step(cfg, st', Scheduler(Submit));
               IsDeleted(end.store, id) && SubmissionsOf(end.trace.log, id) == SubmissionsOf(st.trace.log, id) + 1
  {
    var id := st.sweep.due[st.sweep.next].id;
    assert Held(st.sweep)[st.sweep.next].id in st.store.jobs;
    hide Base, SweepEffect;
    LogsNext(cfg, ApiStep(cfg, st, Delete(id)));
    CountAppended(st.trace.log, Submission(|st.trace.log|, st.sweep.due[st.sweep.next], st.sweep.now), id);
  }
}
