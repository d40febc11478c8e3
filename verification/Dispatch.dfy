/** The dispatches of one job in the step system follow the reference of module Firings: under every interleaving
    with workers, recorders and handlers, as long as no handler reschedules or deletes that job. */
module Dispatch {
  import opened Common
  import opened Models
  import opened StoreSpec
  import opened Cron
  import opened Pipeline
  import opened PipelineInvariant
  import opened Deletion
  import opened Firings
  import Schedules
  import StoreInvariant

  /** The job under watch, its schedule, and the NextRun, the trace and the clock from which it is watched. */
  datatype Watch = Watch(id: string, schedule: string, x: Time, polls: nat, log: nat, clock: Time)

  predicate Look(s: Store, id: string, schedule: string, nextRun: Time) {
    && id in s.jobs && s.jobs[id].status == Active
    && s.jobs[id].schedule == schedule && s.jobs[id].nextRun == Some(nextRun)
  }

  predicate WritesSchedule(changes: map<string, Dynamic<Metadata>>) {
    "schedule" in changes && changes["schedule"].StringValue?
  }

  /** No update in flight will write the job's schedule. */
  predicate Quiet(updates: seq<PendingUpdate>, id: string) {
    forall k :: 0 <= k < |updates| ==>
      updates[k].finished || updates[k].id != id || !WritesSchedule(updates[k].changes)
  }

  /** The step is not a delete of the job, and not an update that asks for a valid schedule for it. */
  predicate LeavesJob(lib: Library, a: Action, id: string) {
    match a
    case Api(Delete(other)) => other != id
    case Api(Update(other, body, _)) =>
      other != id || AskedSchedule(body).None? || Validate(lib, AskedSchedule(body).value).Some?
    case _ => true
  }

  /** The clock readings of the sweeps since the watch began. */
  function PollTimes(polls: seq<Poll>, since: nat): seq<Time> {
    if |polls| <= since then [] else PollTimes(polls[..|polls| - 1], since) + [polls[|polls| - 1].at]
  }

  /** The submissions of the job since the watch began. */
  function FiringsOf(log: seq<Submission>, since: nat, id: string): seq<Firing> {
    if |log| <= since then []
    else
      var before, last := FiringsOf(log[..|log| - 1], since, id), log[|log| - 1];
      if last.job.id == id then before + [Firing(last.job.nextRun, last.at)] else before
  }

  /** Every copy of the job among these has this schedule and this NextRun. */
  predicate Copies(jobs: seq<Job>, id: string, schedule: string, nextRun: Time) {
    forall k :: 0 <= k < |jobs| && jobs[k].id == id ==>
      jobs[k].schedule == schedule && jobs[k].nextRun == Some(nextRun)
  }

  predicate SweepFollows(lib: Library, sweep: Sweep, s: Store, times: seq<Time>, fired: seq<Firing>, w: Watch) {
    match sweep
    case Loaded(jobs) =>
      var y := NextAfter(lib, w.schedule, w.x, times);
      && Look(s, w.id, w.schedule, y) && fired == Fired(lib, w.schedule, w.x, times)
      && Copies(jobs, w.id, w.schedule, y) && CountId(jobs, w.id) == 1
    case Submitting(now, due, next) =>
      && times != [] && now == times[|times| - 1] && next <= |due|
      && var y := NextAfter(lib, w.schedule, w.x, times[..|times| - 1]);
         var before := Fired(lib, w.schedule, w.x, times[..|times| - 1]);
         && Look(s, w.id, w.schedule, y)
         && Copies(due, w.id, w.schedule, y) && CountId(due, w.id) == (if y <= now then 1 else 0)
         && fired == if CountId(due[..next], w.id) > 0 then before + [Firing(Some(y), now)] else before
    case Advancing(now, due, next) =>
      && times != [] && now == times[|times| - 1] && next <= |due|
      && var y := NextAfter(lib, w.schedule, w.x, times[..|times| - 1]);
         && fired == Fired(lib, w.schedule, w.x, times)
         && Look(s, w.id, w.schedule, if CountId(due[..next], w.id) > 0 then Next(lib, w.schedule, now) else y)
         && Copies(due, w.id, w.schedule, y) && CountId(due, w.id) == (if y <= now then 1 else 0)
    case _ =>
      && Look(s, w.id, w.schedule, NextAfter(lib, w.schedule, w.x, times))
      && fired == Fired(lib, w.schedule, w.x, times)
  }

  predicate Follows(lib: Library, st: State, w: Watch) {
    && w.polls <= |st.trace.polls| && w.log <= |st.trace.log|
    && Quiet(st.updates, w.id)
    && var times := PollTimes(st.trace.polls, w.polls);
       && Firings.Ordered(w.clock, times) && Last(w.clock, times) <= st.clock
       && SweepFollows(lib, st.sweep, st.store, times, FiringsOf(st.trace.log, w.log, w.id), w)
  }

  // ---------- steps that leave the job alone ----------

  /** Only the job's entry in the store matters. */
  lemma SameLook(lib: Library, sweep: Sweep, s: Store, s': Store, times: seq<Time>,
                                    fired: seq<Firing>, w: Watch)
    requires SweepFollows(lib, sweep, s, times, fired, w)
    requires forall nextRun :: Look(s, w.id, w.schedule, nextRun) ==> Look(s', w.id, w.schedule, nextRun)
    ensures SweepFollows(lib, sweep, s', times, fired, w)
  {
  }

  lemma CallKeepsLook(s: Store, op: Operation, id: string, schedule: string, nextRun: Time)
    requires Look(s, id, schedule, nextRun) && ServiceCall(op)
    requires op.DeleteJobOp? || op.UpdateJobNextRunOp? ==> op.id != id
    requires op.UpdateJobOp? && op.id == id ==> !WritesSchedule(op.updates)
    ensures Look(Apply(s, op), id, schedule, nextRun)
  {
  }

  lemma ApiKeepsLook(cfg: Config, st: State, a: ApiAction, id: string, schedule: string, nextRun: Time)
    requires PlainUpdates(st.updates) && ApiEnabled(st, a) && LeavesJob(cfg.lib, Api(a), id) && Quiet(st.updates, id)
    requires Look(st.store, id, schedule, nextRun)
    ensures Look(ApiStep(cfg, st, a).store, id, schedule, nextRun)
  {
    ApiKeepsPlain(cfg, st, a);
    if ApiCall(cfg, st, a).Some? {
      CallKeepsLook(st.store, ApiCall(cfg, st, a).value, id, schedule, nextRun);
    }
  }

  lemma ApiKeepsQuiet(cfg: Config, st: State, a: ApiAction, id: string)
    requires ApiEnabled(st, a) && LeavesJob(cfg.lib, Api(a), id) && Quiet(st.updates, id)
    ensures Quiet(ApiEffect(cfg, st, a).updates, id)
  {
  }

  lemma ApiFollows(cfg: Config, st: State, a: ApiAction, w: Watch)
    requires PlainUpdates(st.updates) && ApiEnabled(st, a) && LeavesJob(cfg.lib, Api(a), w.id)
    requires Follows(cfg.lib, st, w)
    ensures Follows(cfg.lib, ApiStep(cfg, st, a), w)
  {
    hide SweepFollows;
    ApiKeepsQuiet(cfg, st, a, w.id);
    var st' := ApiStep(cfg, st, a);
    forall nextRun | Look(st.store, w.id, w.schedule, nextRun)
      ensures Look(st'.store, w.id, w.schedule, nextRun)
    {
      ApiKeepsLook(cfg, st, a, w.id, w.schedule, nextRun);
    }
    SameLook(cfg.lib, st.sweep, st.store, st'.store, PollTimes(st.trace.polls, w.polls),
             FiringsOf(st.trace.log, w.log, w.id), w);
  }

  lemma PoolFollows(cfg: Config, st: State, a: PoolAction, w: Watch)
    requires PoolEnabled(cfg, st, a) && Follows(cfg.lib, st, w)
    ensures Follows(cfg.lib, PoolStep(cfg, st, a), w)
  {
    hide SweepFollows;
    PoolLeavesSchedules(cfg, st, a);
    SameLook(cfg.lib, st.sweep, st.store, PoolStep(cfg, st, a).store, PollTimes(st.trace.polls, w.polls),
             FiringsOf(st.trace.log, w.log, w.id), w);
  }

  // ---------- the sweep ----------

  lemma {:induction false} CountOne(jobs: seq<Job>, id: string, k: nat)
    requires DistinctIds(jobs) && k < |jobs| && jobs[k].id == id
    ensures CountId(jobs, id) == 1
  {
    var n := |jobs| - 1;
    if k < n {
      CountOne(jobs[..n], id, k);
    } else {
      CountNone(jobs[..n], id);
    }
  }

  lemma LoadSweep(
    lib: Library, sweep: Sweep, s: Store, order: seq<string>, times: seq<Time>, fired: seq<Firing>, w: Watch)
    requires StoreInvariant.Keyed(s) && Enumerates(order, JobsWith(s, Active))
    requires SweepFollows(lib, sweep, s, times, fired, w) && (sweep.Starting? || sweep.Waiting?)
    ensures SweepFollows(lib, Loaded(Snapshot(s, order)), s, times, fired, w)
  {
    SnapshotDistinct(s, order, Active);
    assert w.id in order;
    var k :| 0 <= k < |order| && order[k] == w.id;
    CountOne(Snapshot(s, order), w.id, k);
  }

  lemma LoadFollows(cfg: Config, st: State, order: seq<string>, w: Watch)
    requires Base(st) && Follows(cfg.lib, st, w) && SweepEnabled(cfg, st, Load(order))
    ensures Follows(cfg.lib, SweepStep(cfg, st, Load(order)), w)
  {
    assert StoreInvariant.Keyed(st.store);
    hide SweepFollows, Base, StoreInvariant.Keyed, Enumerates;
    LoadSweep(cfg.lib, st.sweep, st.store, order, PollTimes(st.trace.polls, w.polls),
              FiringsOf(st.trace.log, w.log, w.id), w);
  }

  lemma {:induction false} DueCopies(jobs: seq<Job>, now: Time, id: string, schedule: string, y: Time)
    requires Copies(jobs, id, schedule, y)
    ensures Copies(DueJobs(jobs, now), id, schedule, y)
    ensures CountId(DueJobs(jobs, now), id) == if y <= now then CountId(jobs, id) else 0
  {
    if jobs != [] {
      var n := |jobs| - 1;
      DueCopies(jobs[..n], now, id, schedule, y);
      var due := DueJobs(jobs, now);
      if IsDue(jobs[n], now) {
        assert due[..|due| - 1] == DueJobs(jobs[..n], now);
      }
    }
  }

  /** The polls after one more. */
  lemma {:induction false} OneMorePoll(polls: seq<Poll>, poll: Poll, since: nat)
    requires since <= |polls|
    ensures PollTimes(polls + [poll], since) == PollTimes(polls, since) + [poll.at]
    ensures PollTimes(polls + [poll], since)[..|PollTimes(polls, since)|] == PollTimes(polls, since)
  {
  }

  lemma {:induction false} FilterSweep(
    lib: Library, jobs: seq<Job>, now: Time, s: Store, times: seq<Time>, fired: seq<Firing>, w: Watch)
    requires SweepFollows(lib, Loaded(jobs), s, times, fired, w)
    ensures SweepFollows(lib, Submitting(now, DueJobs(jobs, now), 0), s, times + [now], fired, w)
  {
    assert (times + [now])[..|times|] == times;
    DueCopies(jobs, now, w.id, w.schedule, NextAfter(lib, w.schedule, w.x, times));
    assert DueJobs(jobs, now)[..0] == [];
  }

  lemma FilterFollows(cfg: Config, st: State, w: Watch)
    requires Follows(cfg.lib, st, w) && st.sweep.Loaded?
    ensures Follows(cfg.lib, SweepStep(cfg, st, Filter), w)
  {
    hide SweepFollows;
    var times, fired := PollTimes(st.trace.polls, w.polls), FiringsOf(st.trace.log, w.log, w.id);
    OneMorePoll(st.trace.polls, Poll(st.clock, DueJobs(st.sweep.jobs, st.clock)), w.polls);
    FilterSweep(cfg.lib, st.sweep.jobs, st.clock, st.store, times, fired, w);
  }

  /** Going one job further in a list. */
  lemma {:induction false} CountNext(due: seq<Job>, next: nat, id: string)
    requires next < |due|
    ensures CountId(due[..next + 1], id) == CountId(due[..next], id) + (if due[next].id == id then 1 else 0)
    ensures CountId(due[..next + 1], id) <= CountId(due, id)
  {
    assert due[..next + 1][..next] == due[..next];
    CountPrefix(due, next + 1, id);
  }

  lemma {:induction false} CountPrefix(due: seq<Job>, n: nat, id: string)
    requires n <= |due|
    ensures CountId(due[..n], id) <= CountId(due, id)
  {
    if n < |due| {
      var m := |due| - 1;
      CountPrefix(due[..m], n, id);
      assert due[..m][..n] == due[..n];
    } else {
      assert due[..n] == due;
    }
  }

  lemma SubmitSweep(
    lib: Library, sweep: Sweep, s: Store, times: seq<Time>, fired: seq<Firing>, w: Watch)
    requires SweepFollows(lib, sweep, s, times, fired, w) && sweep.Submitting? && sweep.next < |sweep.due|
    ensures var job := sweep.due[sweep.next];
            SweepFollows(lib, Submitting(sweep.now, sweep.due, sweep.next + 1), s, times,
                         if job.id == w.id then fired + [Firing(job.nextRun, sweep.now)] else fired, w)
  {
    CountNext(sweep.due, sweep.next, w.id);
  }

  lemma SubmittedAll(
    lib: Library, sweep: Sweep, s: Store, times: seq<Time>, fired: seq<Firing>, w: Watch)
    requires SweepFollows(lib, sweep, s, times, fired, w) && sweep.Submitting? && sweep.next == |sweep.due|
    ensures SweepFollows(lib, Advancing(sweep.now, sweep.due, 0), s, times, fired, w)
  {
    assert sweep.due[..sweep.next] == sweep.due;
    assert sweep.due[..0] == [];
  }

  lemma SubmitLogs(cfg: Config, st: State, job: Job, now: Time)
    ensures var st' := SubmitJob(cfg, st, job, now);
            && st'.trace.log == st.trace.log + [Submission(|st.trace.log|, job, now)]
            && st'.trace.log[..|st'.trace.log| - 1] == st.trace.log
            && st'.trace.polls == st.trace.polls && st'.store == st.store
            && st'.updates == st.updates && st'.clock == st.clock
  {
  }

  lemma SubmitFollows(cfg: Config, st: State, w: Watch)
    requires Follows(cfg.lib, st, w) && SweepEnabled(cfg, st, Submit)
    ensures Follows(cfg.lib, SweepStep(cfg, st, Submit), w)
  {
    hide SweepFollows, SubmitJob;
    var times, fired := PollTimes(st.trace.polls, w.polls), FiringsOf(st.trace.log, w.log, w.id);
    if st.sweep.next < |st.sweep.due| {
      SubmitLogs(cfg, st, st.sweep.due[st.sweep.next], st.sweep.now);
      SubmitSweep(cfg.lib, st.sweep, st.store, times, fired, w);
    } else {
      SubmittedAll(cfg.lib, st.sweep, st.store, times, fired, w);
    }
  }

  /** The write of one job's NextRun. */
  lemma AdvanceSweep(
    lib: Library, sweep: Sweep, s: Store, clock: Time, times: seq<Time>, fired: seq<Firing>, w: Watch)
    requires SweepFollows(lib, sweep, s, times, fired, w) && sweep.Advancing? && sweep.next < |sweep.due|
    ensures var job := sweep.due[sweep.next];
            SweepFollows(lib, Advancing(sweep.now, sweep.due, sweep.next + 1),
                         UpdateJobNextRun(s, job.id, Next(lib, job.schedule, sweep.now), clock), times, fired, w)
  {
    CountNext(sweep.due, sweep.next, w.id);
  }

  /** The sweep goes on to the next job without a write. */
  lemma SkipSweep(
    lib: Library, sweep: Sweep, s: Store, times: seq<Time>, fired: seq<Firing>, w: Watch)
    requires SweepFollows(lib, sweep, s, times, fired, w) && sweep.Advancing? && sweep.next < |sweep.due|
    requires sweep.due[sweep.next].schedule != w.schedule
    ensures SweepFollows(lib, Advancing(sweep.now, sweep.due, sweep.next + 1), s, times, fired, w)
  {
    CountNext(sweep.due, sweep.next, w.id);
  }

  lemma AdvancedAll(
    lib: Library, sweep: Sweep, s: Store, times: seq<Time>, fired: seq<Firing>, w: Watch)
    requires SweepFollows(lib, sweep, s, times, fired, w) && sweep.Advancing? && sweep.next == |sweep.due|
    ensures SweepFollows(lib, Waiting, s, times, fired, w)
  {
    assert sweep.due[..sweep.next] == sweep.due;
  }

  lemma AdvanceFollows(cfg: Config, st: State, w: Watch)
    requires Follows(cfg.lib, st, w) && SweepEnabled(cfg, st, Advance) && cfg.lib.accepts(w.schedule)
    ensures Follows(cfg.lib, SweepStep(cfg, st, Advance), w)
  {
    hide SweepFollows;
    var times, fired := PollTimes(st.trace.polls, w.polls), FiringsOf(st.trace.log, w.log, w.id);
    if st.sweep.next == |st.sweep.due| {
      AdvancedAll(cfg.lib, st.sweep, st.store, times, fired, w);
    } else if cfg.lib.accepts(st.sweep.due[st.sweep.next].schedule) {
      AdvanceSweep(cfg.lib, st.sweep, st.store, st.clock, times, fired, w);
    } else {
      SkipSweep(cfg.lib, st.sweep, st.store, times, fired, w);
    }
  }

  lemma SweepStepFollows(cfg: Config, st: State, a: SweepAction, w: Watch)
    requires Base(st) && Follows(cfg.lib, st, w) && SweepEnabled(cfg, st, a) && cfg.lib.accepts(w.schedule)
    ensures Follows(cfg.lib, SweepStep(cfg, st, a), w)
  {
    match a
    case Load(order) => LoadFollows(cfg, st, order, w);
    case Filter => FilterFollows(cfg, st, w);
    case Submit => SubmitFollows(cfg, st, w);
    case Advance => AdvanceFollows(cfg, st, w);
    case Return =>
  }

  // ---------- runs ----------

  lemma TickFollows(lib: Library, st: State, t: Time, w: Watch)
    requires Follows(lib, st, w) && st.clock <= t
    ensures Follows(lib, st.(clock := t), w)
  {
  }

  lemma MainFollows(lib: Library, st: State, a: MainAction, w: Watch)
    requires Follows(lib, st, w) && MainEnabled(st, a)
    ensures Follows(lib, MainStep(st, a), w)
  {
  }

  lemma StepFollows(cfg: Config, st: State, a: Action, w: Watch)
    requires Base(st) && Follows(cfg.lib, st, w) && Enabled(cfg, st, a) && LeavesJob(cfg.lib, a, w.id)
    requires cfg.lib.accepts(w.schedule)
    ensures Follows(cfg.lib, Step(cfg, st, a), w)
  {
    hide Follows;
    match a
    case Tick(t) => TickFollows(cfg.lib, st, t, w);
    case Api(api) => ApiFollows(cfg, st, api, w);
    case Scheduler(sweep) => SweepStepFollows(cfg, st, sweep, w);
    case Executor(pool) => PoolFollows(cfg, st, pool, w);
    case Shutdown(main) => MainFollows(cfg.lib, st, main, w);
  }

  lemma {:induction false} RunFollows(cfg: Config, st: State, steps: seq<Action>, w: Watch)
    requires Base(st) && Follows(cfg.lib, st, w) && cfg.lib.accepts(w.schedule)
    requires Run(cfg, st, steps).Some? && forall a :: a in steps ==> LeavesJob(cfg.lib, a, w.id)
    ensures Follows(cfg.lib, Run(cfg, st, steps).value, w)
  {
    if steps != [] {
      var n := |steps| - 1;
      RunFollows(cfg, st, steps[..n], w);
      RunKeepsBase(cfg, st, steps[..n]);
      StepFollows(cfg, Run(cfg, st, steps[..n]).value, steps[n], w);
    }
  }

  /** No sweep is in progress. */
  predicate BetweenSweeps(sweep: Sweep) {
    sweep.Starting? || sweep.Waiting? || sweep.Returned?
  }

  /** An active job between sweeps, with no reschedule in flight. */
  predicate Watchable(st: State, id: string) {
    && BetweenSweeps(st.sweep) && Quiet(st.updates, id)
    && id in st.store.jobs && st.store.jobs[id].status == Active && st.store.jobs[id].nextRun.Some?
  }

  function WatchFrom(st: State, id: string): Watch
    requires Watchable(st, id)
  {
    Watch(id, st.store.jobs[id].schedule, st.store.jobs[id].nextRun.value, |st.trace.polls|, |st.trace.log|, st.clock)
  }

  /** In every run in which nobody reschedules or deletes an active job, its submissions and its NextRun are those
      of the reference, given the NextRun it starts with and the clock readings of the sweeps. */
  lemma {:induction false} DispatchFollowsReference(cfg: Config, st: State, steps: seq<Action>, id: string)
    requires Base(st) && Watchable(st, id) && cfg.lib.accepts(st.store.jobs[id].schedule)
    requires Run(cfg, st, steps).Some? && forall a :: a in steps ==> LeavesJob(cfg.lib, a, id)
    ensures var end := Run(cfg, st, steps).value;
            var w := WatchFrom(st, id);
            var times := PollTimes(end.trace.polls, w.polls);
            && Firings.Ordered(st.clock, times)
            && (BetweenSweeps(end.sweep) ==>
                  && Look(end.store, id, w.schedule, NextAfter(cfg.lib, w.schedule, w.x, times))
                  && FiringsOf(end.trace.log, w.log, id) == Fired(cfg.lib, w.schedule, w.x, times))
  {
    var w := WatchFrom(st, id);
    RunFollows(cfg, st, steps, w);
  }

  // ---------- what follows for reachable states ----------

  /** A state that the service can reach, from which an active job is watched through further steps in which
      nobody reschedules or deletes it, until no sweep is in progress. */
  ghost predicate Watched(cfg: Config, clock: Time, before: seq<Action>, steps: seq<Action>, id: string) {
    && cfg.lib.Valid()
    && Run(cfg, Initial(cfg, clock), before).Some?
    && var st := Run(cfg, Initial(cfg, clock), before).value;
       && Watchable(st, id)
       && Run(cfg, st, steps).Some? && BetweenSweeps(Run(cfg, st, steps).value.sweep)
       && forall a :: a in steps ==> LeavesJob(cfg.lib, a, id)
  }

  lemma {:induction false} WatchedFollows(
    cfg: Config, clock: Time, before: seq<Action>, steps: seq<Action>, id: string)
    requires Watched(cfg, clock, before, steps, id)
    ensures var st := Run(cfg, Initial(cfg, clock), before).value;
            var w, end := WatchFrom(st, id), Run(cfg, st, steps).value;
            var times := PollTimes(end.trace.polls, w.polls);
            && Firings.Ordered(st.clock, times)
            && Look(end.store, id, w.schedule, NextAfter(cfg.lib, w.schedule, w.x, times))
            && FiringsOf(end.trace.log, w.log, id) == Fired(cfg.lib, w.schedule, w.x, times)
  {
    Schedules.RunKeepsLawful(cfg, clock, before);
    Schedules.StoredSchedulesValid(cfg, clock, before, id);
    DispatchFollowsReference(cfg, Run(cfg, Initial(cfg, clock), before).value, steps, id);
  }

  /** An active job whose NextRun is the next instant after some past time, as it is after its creation and after
      every sweep. From then on, as long as the schedule does not run out, it is submitted once for each interval
      between sweeps that contains an instant, for a different instant each time, and every instant is dispatched
      exactly once if and only if no interval holds two. What happens when the schedule runs out is stated, too. */
  lemma {:induction false} ScheduleHonoured(
    cfg: Config, clock: Time, before: seq<Action>, steps: seq<Action>, id: string, from: Time)
    requires Watched(cfg, clock, before, steps, id)
    requires var st := Run(cfg, Initial(cfg, clock), before).value;
             from <= st.clock && st.store.jobs[id].nextRun == Some(Next(cfg.lib, st.store.jobs[id].schedule, from))
    ensures var st := Run(cfg, Initial(cfg, clock), before).value;
            var w, end := WatchFrom(st, id), Run(cfg, st, steps).value;
            var times := PollTimes(end.trace.polls, w.polls);
            var fired := FiringsOf(end.trace.log, w.log, id);
            var nextRun := Next(cfg.lib, w.schedule, Last(from, times));
            && Look(end.store, id, w.schedule, nextRun)
            && FollowsSchedule(cfg.lib, w.schedule, from, times, fired, nextRun)
            && (NeverRunsOut(cfg.lib, w.schedule, from, times) ==>
                  (AllInstantsFire(cfg.lib, w.schedule, from, times, fired)
                   <==> AtMostOneEach(cfg.lib, w.schedule, from, times)))
  {
    WatchedFollows(cfg, clock, before, steps, id);
    var st := Run(cfg, Initial(cfg, clock), before).value;
    var w, end := WatchFrom(st, id), Run(cfg, st, steps).value;
    var times := PollTimes(end.trace.polls, w.polls);
    hide Run, Watched, Look, PollTimes, FiringsOf, Fired, FollowsSchedule, AllInstantsFire, NeverRunsOut, AtMostOneEach;
    FiredFollowsSchedule(cfg.lib, w.schedule, from, times);
    NextAfterIsNext(cfg.lib, w.schedule, from, times);
    if NeverRunsOut(cfg.lib, w.schedule, from, times) {
      AllFireIffOneEach(cfg.lib, w.schedule, from, times);
    }
  }

  /** After reschedules have finished, whatever NextRun they and the sweeps left behind: either no submission has
      followed and NextRun is still that one; or the first submission is triggered by it, and from that sweep on
      NextRun and all later submissions follow the present schedule. */
  lemma SupersededAtMostOnce(
    cfg: Config, clock: Time, before: seq<Action>, steps: seq<Action>, id: string) returns (k: Option<nat>)
    requires Watched(cfg, clock, before, steps, id)
    ensures var st := Run(cfg, Initial(cfg, clock), before).value;
            var w, end := WatchFrom(st, id), Run(cfg, st, steps).value;
            var times := PollTimes(end.trace.polls, w.polls);
            var fired := FiringsOf(end.trace.log, w.log, id);
            exists nextRun ::
              && Look(end.store, id, w.schedule, nextRun)
              && OldOnlyFirst(cfg.lib, w.schedule, w.x, times, fired, nextRun, k)
  {
    WatchedFollows(cfg, clock, before, steps, id);
    var st := Run(cfg, Initial(cfg, clock), before).value;
    var w, end := WatchFrom(st, id), Run(cfg, st, steps).value;
    var times := PollTimes(end.trace.polls, w.polls);
    hide Run, Watched, Look, PollTimes, FiringsOf, Fired, OldOnlyFirst;
    k := OldTriggersOnlyFirst(cfg.lib, w.schedule, w.x, st.clock, times);
  }
}
