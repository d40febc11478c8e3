/** Where stored schedules and next runs come from, under every interleaving of sweeps and reschedules. */
module Schedules {
  import opened Common
  import opened Models
  import opened StoreSpec
  import opened StoreInvariant
  import opened Cron
  import opened Pipeline
  import opened PipelineInvariant

  /** The job's schedule was asked for, and its NextRun is an instant computed from some schedule asked for. */
  predicate Sourced(lib: Library, id: string, job: Job, trace: Trace, clock: Time) {
    && (id, job.schedule) in trace.asked
    && id in trace.origin
    && var (schedule, from) := trace.origin[id];
       (id, schedule) in trace.asked && from <= clock && job.nextRun == Some(Next(lib, schedule, from))
  }

  predicate AllSourced(lib: Library, s: Store, trace: Trace, clock: Time) {
    forall id :: id in s.jobs ==> Sourced(lib, id, s.jobs[id], trace, clock)
  }

  predicate AskedValid(lib: Library, trace: Trace) {
    forall p :: p in trace.asked ==> Validate(lib, p.1).None?
  }

  /** An update in flight writes a schedule only if that one was validated. */
  predicate UpdateAsked(update: PendingUpdate, trace: Trace) {
    "schedule" in update.changes && update.changes["schedule"].StringValue? ==>
      (update.id, update.changes["schedule"].s) in trace.asked
  }

  predicate UpdatesAsked(updates: seq<PendingUpdate>, trace: Trace) {
    forall k :: 0 <= k < |updates| ==> UpdateAsked(updates[k], trace)
  }

  predicate SweepAsked(jobs: seq<Job>, trace: Trace, clock: Time) {
    forall k :: 0 <= k < |jobs| ==> (jobs[k].id, jobs[k].schedule) in trace.asked
  }

  /** The clock readings held by the sweep. */
  predicate SweepClock(sweep: Sweep, clock: Time) {
    sweep.Submitting? || sweep.Advancing? ==> sweep.now <= clock
  }

  ghost predicate Lawful(cfg: Config, st: State) {
    && AskedValid(cfg.lib, st.trace)
    && AllSourced(cfg.lib, st.store, st.trace, st.clock)
    && UpdatesAsked(st.updates, st.trace)
    && SweepAsked(Held(st.sweep), st.trace, st.clock)
    && SweepClock(st.sweep, st.clock)
  }

  // ---------- handlers ----------

  /** What is asked for stays asked for. */
  lemma AskedStays(
    updates: seq<PendingUpdate>, jobs: seq<Job>, trace: Trace, trace': Trace, clock: Time)
    requires UpdatesAsked(updates, trace) && SweepAsked(jobs, trace, clock) && trace.asked <= trace'.asked
    ensures UpdatesAsked(updates, trace') && SweepAsked(jobs, trace', clock)
  {
  }

  /** A call that rewrites one job, to a value that is sourced, while the sources of all others are left alone. */
  lemma OneJobSourced(
    lib: Library, s: Store, s': Store, trace: Trace, trace': Trace, clock: Time, id: string)
    requires AllSourced(lib, s, trace, clock) && trace.asked <= trace'.asked
    requires forall x :: x in s'.jobs && x != id ==> x in s.jobs && s'.jobs[x] == s.jobs[x]
    requires forall x :: x in trace.origin && x != id ==> x in trace'.origin && trace'.origin[x] == trace.origin[x]
    requires id in s'.jobs ==> Sourced(lib, id, s'.jobs[id], trace', clock)
    ensures AllSourced(lib, s', trace', clock)
  {
  }

  lemma CreateSourced(cfg: Config, st: State, a: ApiAction)
    requires Base(st) && AllSourced(cfg.lib, st.store, st.trace, st.clock) && ApiEnabled(st, a) && a.Create?
    ensures AllSourced(cfg.lib, ApiStep(cfg, st, a).store, ApiStep(cfg, st, a).trace, st.clock)
  {
    if Validate(cfg.lib, a.request.schedule).None? {
      var st' := ApiStep(cfg, st, a);
      CreateJobKeepsInv(st.store, NewJob(cfg.lib, a.request, a.from), a.stamp, st.clock, st.clock);
      var id := NewId("job", a.stamp, st.store.counter);
      OneJobSourced(cfg.lib, st.store, st'.store, st.trace, st'.trace, st.clock, id);
    }
  }

  lemma UpdateSourced(cfg: Config, st: State, a: ApiAction)
    requires AllSourced(cfg.lib, st.store, st.trace, st.clock) && ApiEnabled(st, a) && a.Update?
    ensures AllSourced(cfg.lib, ApiStep(cfg, st, a).store, ApiStep(cfg, st, a).trace, st.clock)
  {
    hide Next, Validate, DecodedObject;
    var st' := ApiStep(cfg, st, a);
    if a.id in st.store.jobs {
      assert Sourced(cfg.lib, a.id, st.store.jobs[a.id], st.trace, st.clock);
    }
    OneJobSourced(cfg.lib, st.store, st'.store, st.trace, st'.trace, st.clock, a.id);
  }

  lemma FinishSourced(lib: Library, s: Store, update: PendingUpdate, trace: Trace, clock: Time)
    requires AllSourced(lib, s, trace, clock) && UpdateAsked(update, trace)
    ensures AllSourced(lib, UpdateJob(s, update.id, update.changes, clock), trace, clock)
  {
  }

  lemma DeleteSourced(lib: Library, s: Store, id: string, trace: Trace, clock: Time)
    requires AllSourced(lib, s, trace, clock)
    ensures AllSourced(lib, DeleteJob(s, id, clock), trace, clock)
  {
  }

  lemma ApiAsks(cfg: Config, st: State, a: ApiAction)
    requires Lawful(cfg, st) && ApiEnabled(st, a)
    ensures var st' := ApiEffect(cfg, st, a);
            && AskedValid(cfg.lib, st'.trace) && UpdatesAsked(st'.updates, st'.trace)
            && SweepAsked(Held(st.sweep), st'.trace, st.clock)
  {
    AskedStays(st.updates, Held(st.sweep), st.trace, ApiEffect(cfg, st, a).trace, st.clock);
    if a.Update? {
      DecodedSchedule(a.body);
    }
  }

  /** A schedule that an update will write is the one its handler has looked at. */
  lemma DecodedSchedule(body: map<string, Json>)
    ensures var changes := DecodedObject(body);
            "schedule" in changes && changes["schedule"].StringValue? ==>
              AskedSchedule(body) == Some(changes["schedule"].s)
  {
  }

  lemma ApiKeepsLawful(cfg: Config, st: State, a: ApiAction)
    requires Base(st) && Lawful(cfg, st) && ApiEnabled(st, a)
    ensures Lawful(cfg, ApiStep(cfg, st, a))
  {
    ApiAsks(cfg, st, a);
    match a
    case Create(_, _, _) => CreateSourced(cfg, st, a);
    case Update(_, _, _) => UpdateSourced(cfg, st, a);
    case FinishUpdate(k) => FinishSourced(cfg.lib, st.store, st.updates[k], st.trace, st.clock);
    case Delete(id) => DeleteSourced(cfg.lib, st.store, id, st.trace, st.clock);
  }

  // ---------- the sweep ----------

  lemma LoadAsked(lib: Library, s: Store, order: seq<string>, trace: Trace, clock: Time)
    requires Keyed(s) && AllSourced(lib, s, trace, clock) && forall i :: 0 <= i < |order| ==> order[i] in s.jobs
    ensures SweepAsked(Snapshot(s, order), trace, clock)
  {
  }

  lemma {:induction false} FilterAsked(jobs: seq<Job>, clock: Time, trace: Trace)
    requires SweepAsked(jobs, trace, clock)
    ensures SweepAsked(DueJobs(jobs, clock), trace, clock)
  {
    DueFromSnapshot(jobs, clock);
    var due := DueJobs(jobs, clock);
    forall k | 0 <= k < |due|
      ensures (due[k].id, due[k].schedule) in trace.asked
    {
      assert due[k] in jobs;
    }
  }

  /** A job whose next run is about to be computed: it is stored, and its copy's schedule was validly asked for. */
  lemma HeldAsked(cfg: Config, st: State)
    requires Base(st) && Lawful(cfg, st) && st.sweep.Advancing? && st.sweep.next < |st.sweep.due|
    ensures var job := st.sweep.due[st.sweep.next];
            && job.id in st.store.jobs && (job.id, job.schedule) in st.trace.asked
            && Validate(cfg.lib, job.schedule).None? && st.sweep.now <= st.clock
  {
    assert st.sweep.due[st.sweep.next] == Held(st.sweep)[st.sweep.next];
  }

  /** The write sets NextRun from the copy's schedule and the sweep's clock. */
  lemma AdvanceSourced(lib: Library, s: Store, trace: Trace, clock: Time, job: Job, now: Time)
    requires AllSourced(lib, s, trace, clock) && job.id in s.jobs
    requires (job.id, job.schedule) in trace.asked && now <= clock
    ensures AllSourced(lib, UpdateJobNextRun(s, job.id, Next(lib, job.schedule, now), clock),
                       trace.(origin := trace.origin[job.id := (job.schedule, now)]), clock)
  {
  }

  /** In the loops a sweep holds on to its jobs and its clock reading. */
  lemma SameHeld(cfg: Config, st: State, a: SweepAction)
    requires SweepEnabled(cfg, st, a) && !a.Load? && !a.Filter?
    ensures var st' := SweepEffect(cfg, st, a);
            && (Held(st'.sweep) == Held(st.sweep) || Held(st'.sweep) == [])
            && (SweepClock(st.sweep, st.clock) ==> SweepClock(st'.sweep, st.clock))
  {
  }

  lemma SweepAsks(cfg: Config, st: State, a: SweepAction)
    requires Base(st) && Lawful(cfg, st) && SweepEnabled(cfg, st, a)
    ensures var st' := SweepEffect(cfg, st, a);
            SweepAsked(Held(st'.sweep), st.trace, st.clock) && SweepClock(st'.sweep, st.clock)
  {
    assert Keyed(st.store);
    assert SweepAsked([], st.trace, st.clock);
    hide Base, Keyed, AskedValid, UpdatesAsked, AllSourced, SweepAsked, DueJobs, SubmitJob;
    match a
    case Load(order) => LoadAsked(cfg.lib, st.store, order, st.trace, st.clock);
    case Filter => FilterAsked(st.sweep.jobs, st.clock, st.trace);
    case Submit => SameHeld(cfg, st, a);
    case Advance => SameHeld(cfg, st, a);
    case Return => SameHeld(cfg, st, a);
  }

  /** All other steps of a sweep leave the store alone. */
  lemma QuietSweepStep(cfg: Config, st: State, a: SweepAction)
    requires SweepEnabled(cfg, st, a) && !(a.Advance? && st.sweep.next < |st.sweep.due|)
    ensures var st' := SweepStep(cfg, st, a);
            st'.store == st.store && st'.trace.asked == st.trace.asked && st'.trace.origin == st.trace.origin
  {
    hide DueJobs, Snapshot;
  }

  lemma AdvanceStep(cfg: Config, st: State)
    requires SweepEnabled(cfg, st, Advance) && st.sweep.next < |st.sweep.due|
    requires Validate(cfg.lib, st.sweep.due[st.sweep.next].schedule).None?
    ensures var st', job := SweepStep(cfg, st, Advance), st.sweep.due[st.sweep.next];
            && st'.store == UpdateJobNextRun(st.store, job.id, Next(cfg.lib, job.schedule, st.sweep.now), st.clock)
            && st'.trace == st.trace.(origin := st.trace.origin[job.id := (job.schedule, st.sweep.now)])
  {
  }

  lemma SweepSources(cfg: Config, st: State, a: SweepAction)
    requires Base(st) && Lawful(cfg, st) && SweepEnabled(cfg, st, a)
    ensures AllSourced(cfg.lib, SweepStep(cfg, st, a).store, SweepStep(cfg, st, a).trace, st.clock)
    ensures SweepStep(cfg, st, a).trace.asked == st.trace.asked
  {
    assert AllSourced(cfg.lib, st.store, st.trace, st.clock) && SameSchedules(st.store, st.store);
    if a.Advance? && st.sweep.next < |st.sweep.due| {
      HeldAsked(cfg, st);
      hide Base, Lawful, AllSourced, Next, SweepStep;
      AdvanceStep(cfg, st);
      AdvanceSourced(cfg.lib, st.store, st.trace, st.clock, st.sweep.due[st.sweep.next], st.sweep.now);
    } else {
      hide Base, Lawful, AllSourced, SameSchedules, SweepStep;
      QuietSweepStep(cfg, st, a);
      var st' := SweepStep(cfg, st, a);
      SourcesStay(cfg.lib, st.store, st'.store, st.trace, st'.trace, st.clock);
    }
  }

  lemma SweepKeepsLawful(cfg: Config, st: State, a: SweepAction)
    requires Base(st) && Lawful(cfg, st) && SweepEnabled(cfg, st, a)
    ensures Lawful(cfg, SweepStep(cfg, st, a))
  {
    hide Base, AllSourced, SweepAsked, UpdatesAsked;
    SweepAsks(cfg, st, a);
    SweepSources(cfg, st, a);
    var st' := SweepStep(cfg, st, a);
    AskedStays(st.updates, Held(st'.sweep), st.trace, st'.trace, st.clock);
  }

  /** Sources do not depend on the rest of a job. */
  lemma SourcesStay(
    lib: Library, s: Store, s': Store, trace: Trace, trace': Trace, clock: Time)
    requires AllSourced(lib, s, trace, clock) && SameSchedules(s, s')
    requires trace'.asked == trace.asked && trace'.origin == trace.origin
    ensures AllSourced(lib, s', trace', clock)
  {
  }

  // ---------- everything else ----------

  lemma PoolKeepsLawful(cfg: Config, st: State, a: PoolAction)
    requires Lawful(cfg, st) && PoolEnabled(cfg, st, a)
    ensures Lawful(cfg, PoolStep(cfg, st, a))
  {
    PoolLeavesSchedules(cfg, st, a);
    var st' := PoolStep(cfg, st, a);
    SourcesStay(cfg.lib, st.store, st'.store, st.trace, st'.trace, st.clock);
    AskedStays(st.updates, Held(st.sweep), st.trace, st'.trace, st.clock);
  }

  lemma StepKeepsLawful(cfg: Config, st: State, a: Action)
    requires Base(st) && Lawful(cfg, st) && Enabled(cfg, st, a)
    ensures Lawful(cfg, Step(cfg, st, a))
  {
    hide Lawful, Base;
    match a
    case Tick(t) => TickKeepsLawful(cfg, st, t);
    case Api(api) => ApiKeepsLawful(cfg, st, api);
    case Scheduler(sweep) => SweepKeepsLawful(cfg, st, sweep);
    case Executor(pool) => PoolKeepsLawful(cfg, st, pool);
    case Shutdown(main) => MainKeepsLawful(cfg, st, main);
  }

  lemma MainKeepsLawful(cfg: Config, st: State, a: MainAction)
    requires Lawful(cfg, st) && MainEnabled(st, a)
    ensures Lawful(cfg, MainStep(st, a))
  {
  }

  lemma TickKeepsLawful(cfg: Config, st: State, t: Time)
    requires Lawful(cfg, st) && st.clock <= t
    ensures Lawful(cfg, st.(clock := t))
  {
  }

  lemma {:induction false} RunKeepsLawful(cfg: Config, clock: Time, steps: seq<Action>)
    requires Run(cfg, Initial(cfg, clock), steps).Some?
    ensures Base(Run(cfg, Initial(cfg, clock), steps).value) && Lawful(cfg, Run(cfg, Initial(cfg, clock), steps).value)
  {
    if steps == [] {
      InitialBase(cfg, clock);
    } else {
      RunKeepsLawful(cfg, clock, steps[..|steps| - 1]);
      var st := Run(cfg, Initial(cfg, clock), steps[..|steps| - 1]).value;
      StepKeepsBase(cfg, st, steps[|steps| - 1]);
      StepKeepsLawful(cfg, st, steps[|steps| - 1]);
    }
  }

  /** In every run each job has a NextRun, computed by `Next` from a schedule it was created with or validly asked
      to take, at a time that has passed. */
  lemma NextRunHasSource(cfg: Config, clock: Time, steps: seq<Action>, id: string)
    returns (schedule: string, from: Time)
    requires Run(cfg, Initial(cfg, clock), steps).Some?
    requires id in Run(cfg, Initial(cfg, clock), steps).value.store.jobs
    ensures var st := Run(cfg, Initial(cfg, clock), steps).value;
            && (id, schedule) in st.trace.asked && from <= st.clock
            && st.store.jobs[id].nextRun == Some(Next(cfg.lib, schedule, from))
  {
    RunKeepsLawful(cfg, clock, steps);
    var st := Run(cfg, Initial(cfg, clock), steps).value;
    assert Sourced(cfg.lib, id, st.store.jobs[id], st.trace, st.clock);
    schedule, from := st.trace.origin[id].0, st.trace.origin[id].1;
  }

  /** In every run each stored schedule has six words and is parsed by the library. */
  lemma {:induction false} StoredSchedulesValid(cfg: Config, clock: Time, steps: seq<Action>, id: string)
    requires Run(cfg, Initial(cfg, clock), steps).Some?
    requires id in Run(cfg, Initial(cfg, clock), steps).value.store.jobs
    ensures Admissible(cfg.lib, Run(cfg, Initial(cfg, clock), steps).value.store.jobs[id].schedule)
  {
    RunKeepsLawful(cfg, clock, steps);
    var st := Run(cfg, Initial(cfg, clock), steps).value;
    assert Sourced(cfg.lib, id, st.store.jobs[id], st.trace, st.clock);
    assert (id, st.store.jobs[id].schedule) in st.trace.asked;
    ValidateIff(cfg.lib, st.store.jobs[id].schedule);
  }

  /** The write after a dispatch moves NextRun strictly past the sweep's clock, exactly when the snapshot's schedule
      still has an instant within the search range; otherwise it stores the zero time, which is always due. */
  lemma {:induction false} DispatchMovesPast(cfg: Config, clock: Time, steps: seq<Action>)
    requires Run(cfg, Initial(cfg, clock), steps).Some?
    requires var st := Run(cfg, Initial(cfg, clock), steps).value;
             st.sweep.Advancing? && st.sweep.next < |st.sweep.due|
    ensures var st := Run(cfg, Initial(cfg, clock), steps).value;
            var job := st.sweep.due[st.sweep.next];
            var after := SweepStep(cfg, st, Advance).store;
            && job.id in after.jobs
            && after.jobs[job.id].nextRun == Some(Next(cfg.lib, job.schedule, st.sweep.now))
            && (Next(cfg.lib, job.schedule, st.sweep.now) > st.sweep.now
                <==> Next(cfg.lib, job.schedule, st.sweep.now) != ZERO_TIME)
  {
    hide Base, Lawful, Run, Next;
    RunKeepsLawful(cfg, clock, steps);
    var st := Run(cfg, Initial(cfg, clock), steps).value;
    var job := st.sweep.due[st.sweep.next];
    HeldAsked(cfg, st);
    NextIsLeast(cfg.lib, job.schedule, st.sweep.now);
  }
}
