/** What every step of the service keeps of the store, of the updates in flight and of the jobs in transit. */
module PipelineInvariant {
  import opened Common
  import opened Models
  import opened StoreSpec
  import opened StoreInvariant
  import opened Pipeline

  // ---------- updates that come as JSON ----------

  /** No value has the dynamic type that `status` or `type` would need. */
  predicate Plain(changes: map<string, Dynamic<Metadata>>) {
    forall key :: key in changes ==> !changes[key].StatusValue? && !changes[key].TypeValue?
  }

  predicate PlainUpdates(updates: seq<PendingUpdate>) {
    forall k :: 0 <= k < |updates| ==> Plain(updates[k].changes)
  }

  /** So an update through the API never changes a job's status or type. */
  lemma PlainKeepsStatus(job: Job, changes: map<string, Dynamic<Metadata>>)
    requires Plain(changes)
    ensures UpdatedJob(job, changes).status == job.status && UpdatedJob(job, changes).jobType == job.jobType
  {
  }

  /** The repository calls that the service makes. */
  predicate ServiceCall(op: Operation) {
    match op
    case UpdateExecutionOp(_, _, _) => false
    case UpdateJobOp(_, updates, _) => Plain(updates)
    case CreateJobOp(job, _, _) => job.id == "" && job.lastExecuted.None?
    case CreateExecutionOp(e, _, _) => e.id == ""
    case _ => true
  }

  lemma ServiceCallKeepsInv(s: Store, call: Option<Operation>, clock: Time)
    requires StoreInvariant.Inv(s, clock)
    requires call.Some? ==> ServiceCall(call.value) && call.value.now == clock
    ensures StoreInvariant.Inv(Perform(s, call), clock) && Appended(s, Perform(s, call))
    ensures s.jobs.Keys <= Perform(s, call).jobs.Keys
  {
    if call.Some? {
      OperationKeepsInv(s, call.value, clock);
      JobsStay(s, call.value);
    }
  }

  /** The repository never removes a job. */
  lemma JobsStay(s: Store, op: Operation)
    ensures s.jobs.Keys <= Apply(s, op).jobs.Keys
  {
  }

  // ---------- jobs in transit ----------

  /** The jobs that the sweep holds. */
  function Held(sweep: Sweep): seq<Job> {
    match sweep
    case Loaded(jobs) => jobs
    case Submitting(_, due, _) => due
    case Advancing(_, due, _) => due
    case _ => []
  }

  predicate DistinctIds(jobs: seq<Job>) {
    forall i, j :: 0 <= i < j < |jobs| ==> jobs[i].id != jobs[j].id
  }

  predicate AllStored(jobs: seq<Job>, s: Store) {
    forall i :: 0 <= i < |jobs| ==> jobs[i].id in s.jobs
  }

  predicate SweepInBounds(sweep: Sweep) {
    match sweep
    case Submitting(_, due, next) => next <= |due|
    case Advancing(_, due, next) => next <= |due|
    case _ => true
  }

  /** All that the sweep holds and all that was ever submitted are stored jobs. */
  predicate Transit(sweep: Sweep, trace: Trace, s: Store) {
    && SweepInBounds(sweep) && DistinctIds(Held(sweep)) && AllStored(Held(sweep), s)
    && forall i :: 0 <= i < |trace.log| ==> trace.log[i].job.id in s.jobs
  }

  ghost predicate Base(st: State) {
    && StoreInvariant.Inv(st.store, st.clock)
    && PlainUpdates(st.updates)
    && Transit(st.sweep, st.trace, st.store)
  }

  /** Due jobs are jobs of the snapshot, in its order. */
  lemma {:induction false} DueFromSnapshot(jobs: seq<Job>, now: Time)
    ensures forall k :: 0 <= k < |DueJobs(jobs, now)| ==> IsDue(DueJobs(jobs, now)[k], now)
    ensures forall job :: job in DueJobs(jobs, now) ==> job in jobs
    ensures forall job :: job in jobs && IsDue(job, now) ==> job in DueJobs(jobs, now)
    ensures DistinctIds(jobs) ==> DistinctIds(DueJobs(jobs, now))
  {
    if jobs != [] {
      DueFromSnapshot(jobs[..|jobs| - 1], now);
      var last := jobs[|jobs| - 1];
      assert jobs == jobs[..|jobs| - 1] + [last];
      if DistinctIds(jobs) {
        assert forall job :: job in jobs[..|jobs| - 1] ==> job.id != last.id;
      }
    }
  }

  lemma SnapshotDistinct(s: Store, order: seq<string>, status: JobStatus)
    requires Keyed(s) && Enumerates(order, JobsWith(s, status))
    ensures DistinctIds(Snapshot(s, order)) && AllStored(Snapshot(s, order), s)
    ensures forall k :: 0 <= k < |order| ==>
              Snapshot(s, order)[k].id == order[k] && Snapshot(s, order)[k].status == status
  {
  }

  lemma TransitGrows(sweep: Sweep, trace: Trace, trace': Trace, s: Store, s': Store)
    requires Transit(sweep, trace, s) && trace'.log == trace.log && s.jobs.Keys <= s'.jobs.Keys
    ensures Transit(sweep, trace', s')
  {
  }

  lemma SweepKeepsTransit(cfg: Config, st: State, a: SweepAction)
    requires Keyed(st.store) && Transit(st.sweep, st.trace, st.store) && SweepEnabled(cfg, st, a)
    ensures var st' := SweepEffect(cfg, st, a); Transit(st'.sweep, st'.trace, st.store)
  {
    match a
    case Load(order) => SnapshotDistinct(st.store, order, Active);
    case Filter =>
      DueFromSnapshot(st.sweep.jobs, st.clock);
      StoredSubset(st.sweep.jobs, DueJobs(st.sweep.jobs, st.clock), st.store);
    case Submit =>
    case Advance =>
    case Return =>
  }

  lemma StoredSubset(jobs: seq<Job>, due: seq<Job>, s: Store)
    requires AllStored(jobs, s) && forall job :: job in due ==> job in jobs
    ensures AllStored(due, s)
  {
    forall k | 0 <= k < |due|
      ensures due[k].id in s.jobs
    {
      assert due[k] in jobs;
    }
  }

  lemma DecodedIsPlain(body: map<string, Json>)
    ensures Plain(DecodedObject(body))
  {
  }

  lemma ApiKeepsPlain(cfg: Config, st: State, a: ApiAction)
    requires PlainUpdates(st.updates) && ApiEnabled(st, a)
    ensures PlainUpdates(ApiEffect(cfg, st, a).updates)
    ensures var call := ApiCall(cfg, st, a); call.Some? ==> ServiceCall(call.value) && call.value.now == st.clock
  {
    if a.Update? {
      DecodedIsPlain(a.body);
    }
  }

  lemma ApiKeepsBase(cfg: Config, st: State, a: ApiAction)
    requires Base(st) && ApiEnabled(st, a)
    ensures Base(ApiStep(cfg, st, a)) && Grows(st.store, ApiStep(cfg, st, a).store)
  {
    hide StoreInvariant.Inv, Transit, PlainUpdates, Appended;
    ApiKeepsPlain(cfg, st, a);
    ServiceCallKeepsInv(st.store, ApiCall(cfg, st, a), st.clock);
    var st' := ApiStep(cfg, st, a);
    TransitGrows(st.sweep, st.trace, st'.trace, st.store, st'.store);
  }

  lemma SweepKeepsBase(cfg: Config, st: State, a: SweepAction)
    requires Base(st) && SweepEnabled(cfg, st, a)
    ensures Base(SweepStep(cfg, st, a)) && Grows(st.store, SweepStep(cfg, st, a).store)
  {
    assert Keyed(st.store);
    hide StoreInvariant.Inv, Keyed, Transit, PlainUpdates, Appended;
    SweepKeepsTransit(cfg, st, a);
    ServiceCallKeepsInv(st.store, SweepCall(cfg, st, a), st.clock);
    var st' := SweepStep(cfg, st, a);
    TransitGrows(st'.sweep, st'.trace, st'.trace, st.store, st'.store);
  }

  lemma PoolKeepsBase(cfg: Config, st: State, a: PoolAction)
    requires Base(st) && PoolEnabled(cfg, st, a)
    ensures Base(PoolStep(cfg, st, a)) && Grows(st.store, PoolStep(cfg, st, a).store)
  {
    hide StoreInvariant.Inv, Transit, PlainUpdates, Appended;
    ServiceCallKeepsInv(st.store, PoolCall(cfg, st, a), st.clock);
    var st' := PoolStep(cfg, st, a);
    TransitGrows(st.sweep, st.trace, st'.trace, st.store, st'.store);
  }

  /** Jobs stay, and lists of executions only grow at their ends. */
  ghost predicate Grows(s: Store, s': Store) {
    Appended(s, s') && s.jobs.Keys <= s'.jobs.Keys
  }

  lemma ClockKeepsBase(st: State, t: Time)
    requires Base(st) && st.clock <= t
    ensures Base(st.(clock := t)) && Grows(st.store, st.store)
  {
  }

  lemma MainKeepsBase(st: State, a: MainAction)
    requires Base(st) && MainEnabled(st, a)
    ensures Base(MainStep(st, a)) && Grows(st.store, MainStep(st, a).store)
  {
  }

  lemma StepKeepsBase(cfg: Config, st: State, a: Action)
    requires Base(st) && Enabled(cfg, st, a)
    ensures Base(Step(cfg, st, a)) && Grows(st.store, Step(cfg, st, a).store)
  {
    hide Base, Grows;
    match a
    case Tick(t) => ClockKeepsBase(st, t);
    case Api(api) => ApiKeepsBase(cfg, st, api);
    case Scheduler(sweep) => SweepKeepsBase(cfg, st, sweep);
    case Executor(pool) => PoolKeepsBase(cfg, st, pool);
    case Shutdown(main) => MainKeepsBase(st, main);
  }

  /** In every run of the service the repository's invariant holds and its lists are only ever appended to. */
  lemma {:induction false} RunKeepsBase(cfg: Config, st: State, steps: seq<Action>)
    requires Base(st) && Run(cfg, st, steps).Some?
    ensures Base(Run(cfg, st, steps).value)
    ensures Grows(st.store, Run(cfg, st, steps).value.store)
  {
    if steps != [] {
      var n := |steps| - 1;
      RunKeepsBase(cfg, st, steps[..n]);
      StepKeepsBase(cfg, Run(cfg, st, steps[..n]).value, steps[n]);
    }
  }

  lemma InitialBase(cfg: Config, clock: Time)
    ensures Base(Initial(cfg, clock))
  {
  }

  // ---------- what the executor leaves alone ----------

  /** The same jobs, with the same status, schedule and NextRun. */
  predicate SameSchedules(s: Store, s': Store) {
    && s'.jobs.Keys == s.jobs.Keys
    && forall id :: id in s.jobs ==>
         && s'.jobs[id].id == s.jobs[id].id && s'.jobs[id].status == s.jobs[id].status
         && s'.jobs[id].schedule == s.jobs[id].schedule && s'.jobs[id].nextRun == s.jobs[id].nextRun
  }

  lemma ExecutorCallsLeaveSchedules(s: Store, op: Operation)
    requires op.CreateExecutionOp? || op.UpdateJobLastExecutedOp?
    ensures SameSchedules(s, Apply(s, op))
  {
  }

  lemma PoolLeavesSchedules(cfg: Config, st: State, a: PoolAction)
    requires PoolEnabled(cfg, st, a)
    ensures var st' := PoolStep(cfg, st, a);
            && SameSchedules(st.store, st'.store)
            && st'.sweep == st.sweep && st'.updates == st.updates && st'.clock == st.clock
            && st'.trace.asked == st.trace.asked && st'.trace.origin == st.trace.origin
            && st'.trace.log == st.trace.log && st'.trace.polls == st.trace.polls
  {
    assert SameSchedules(st.store, st.store);
    hide SameSchedules, Apply;
    var call := PoolCall(cfg, st, a);
    if call.Some? {
      ExecutorCallsLeaveSchedules(st.store, call.value);
    }
  }
}
