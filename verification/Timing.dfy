/** The times of a submission are in order: submitted, taken, completed, stored. */
module Timing {
  import opened Common
  import opened Models
  import opened StoreSpec
  import opened StoreInvariant
  import opened Pipeline
  import opened PipelineInvariant
  import opened Conservation
  import opened Records
  import Schedules

  predicate QueueInTime(queue: seq<Submission>, clock: Time) {
    forall i :: 0 <= i < |queue| ==> queue[i].at <= clock
  }

  predicate WorkersInTime(workers: seq<Worker>, clock: Time) {
    forall w :: 0 <= w < |workers| && workers[w].Running? ==> workers[w].work.at <= workers[w].since <= clock
  }

  predicate RecordersInTime(recorders: seq<Recorder>, clock: Time) {
    forall r :: 0 <= r < |recorders| && recorders[r].Recording? ==>
      recorders[r].work.at <= recorders[r].since <= clock
  }

  /** Work was submitted in the past, and taken after it was submitted. */
  predicate WorkInTime(pool: Pool, clock: Time) {
    QueueInTime(pool.queue, clock) && WorkersInTime(pool.workers, clock) && RecordersInTime(pool.recorders, clock)
  }

  /** What is recorded was completed after it was submitted and before it was stored. */
  ghost predicate RecordsInTime(trace: Trace, s: Store, clock: Time) {
    && |trace.records| == |trace.recorded|
    && forall i :: 0 <= i < |trace.records| ==>
         && trace.records[i] in s.executions && s.executions[trace.records[i]].completedAt.Some?
         && var e := s.executions[trace.records[i]];
            trace.recorded[i].at <= e.completedAt.value <= e.executedAt <= clock
  }

  ghost predicate InTime(st: State) {
    && Schedules.SweepClock(st.sweep, st.clock)
    && WorkInTime(st.pool, st.clock)
    && RecordsInTime(st.trace, st.store, st.clock)
  }

  lemma QuietKeepsRecords(trace: Trace, trace': Trace, s: Store, call: Option<Operation>, clock: Time)
    requires RecordsInTime(trace, s, clock) && trace'.recorded == trace.recorded && trace'.records == trace.records
    requires call.Some? ==> ServiceCall(call.value) && !call.value.CreateExecutionOp?
    ensures RecordsInTime(trace', Perform(s, call), clock)
  {
  }

  lemma NewRecordInTime(
    trace: Trace, trace': Trace, s: Store, s': Store, work: Submission, id: string, e: Execution, clock: Time)
    requires RecordsInTime(trace, s, clock) && id !in s.executions && s'.executions == s.executions[id := e]
    requires e.completedAt.Some? && work.at <= e.completedAt.value <= e.executedAt <= clock
    requires trace'.recorded == trace.recorded + [work] && trace'.records == trace.records + [id]
    ensures RecordsInTime(trace', s', clock)
  {
  }

  /** What a recording step takes its time from. */
  lemma RecordingInTime(cfg: Config, st: State, a: PoolAction)
    requires WorkInTime(st.pool, st.clock) && PoolEnabled(cfg, st, a) && (a.Record? || a.RecorderCreate?)
    ensures RecordedWork(st, a).at <= a.completed <= st.clock
  {
  }

  lemma RecordingKeepsRecords(cfg: Config, st: State, a: PoolAction)
    requires Base(st) && Conserved(st) && WorkInTime(st.pool, st.clock) && RecordsInTime(st.trace, st.store, st.clock)
    requires PoolEnabled(cfg, st, a) && (a.Record? || a.RecorderCreate?)
    ensures RecordsInTime(PoolStep(cfg, st, a).trace, PoolStep(cfg, st, a).store, st.clock)
  {
    RecordSucceeds(cfg, st, a);
    RecordingInTime(cfg, st, a);
    RecordingJob(cfg, st, a);
    hide Conserved, WorkInTime, RecordsInTime, Apply, PoolCall, Stored, PoolEffect, StoreInvariant.Inv;
    RecordingEffect(cfg, st, a);
    var op := PoolCall(cfg, st, a).value;
    CreateAdds(st.store, op, st.clock);
    var id, s', trace' := Stored(st.store, op).value, Apply(st.store, op), PoolStep(cfg, st, a).trace;
    NewRecordInTime(st.trace, trace', st.store, s', RecordedWork(st, a), id, s'.executions[id], st.clock);
  }

  lemma WorkersStayInTime(cfg: Config, st: State, a: PoolAction)
    requires QueueInTime(st.pool.queue, st.clock) && WorkersInTime(st.pool.workers, st.clock) && PoolEnabled(cfg, st, a)
    ensures WorkersInTime(PoolEffect(cfg, st, a).pool.workers, st.clock)
  {
    hide PoolEffect;
    WorkerShape(cfg, st, a);
    PoolShape(cfg, st, a);
  }

  lemma RecordersStayInTime(cfg: Config, st: State, a: PoolAction)
    requires WorkersInTime(st.pool.workers, st.clock) && RecordersInTime(st.pool.recorders, st.clock)
    requires PoolEnabled(cfg, st, a)
    ensures RecordersInTime(PoolEffect(cfg, st, a).pool.recorders, st.clock)
  {
    hide PoolEffect;
    RecorderShape(cfg, st, a);
  }

  lemma PoolKeepsWork(cfg: Config, st: State, a: PoolAction)
    requires WorkInTime(st.pool, st.clock) && PoolEnabled(cfg, st, a)
    ensures WorkInTime(PoolEffect(cfg, st, a).pool, st.clock)
  {
    hide PoolEffect, WorkersInTime, RecordersInTime;
    PoolShape(cfg, st, a);
    WorkersStayInTime(cfg, st, a);
    RecordersStayInTime(cfg, st, a);
  }

  lemma PoolKeepsTime(cfg: Config, st: State, a: PoolAction)
    requires Base(st) && Conserved(st) && InTime(st) && PoolEnabled(cfg, st, a)
    ensures InTime(PoolStep(cfg, st, a))
  {
    hide Base, Conserved, WorkInTime, RecordsInTime, PoolEffect;
    PoolKeepsWork(cfg, st, a);
    PoolLeavesSchedules(cfg, st, a);
    if a.Record? || a.RecorderCreate? {
      RecordingKeepsRecords(cfg, st, a);
    } else {
      QuietRecords(cfg, st, a);
      QuietKeepsRecords(st.trace, PoolStep(cfg, st, a).trace, st.store, PoolCall(cfg, st, a), st.clock);
    }
  }

  lemma QuietRecords(cfg: Config, st: State, a: PoolAction)
    requires PoolEnabled(cfg, st, a) && !a.Record? && !a.RecorderCreate?
    ensures var trace' := PoolEffect(cfg, st, a).trace;
            trace'.recorded == st.trace.recorded && trace'.records == st.trace.records
    ensures var call := PoolCall(cfg, st, a); call.Some? ==> ServiceCall(call.value) && !call.value.CreateExecutionOp?
  {
  }

  lemma SweepKeepsTime(cfg: Config, st: State, a: SweepAction)
    requires InTime(st) && SweepEnabled(cfg, st, a)
    ensures InTime(SweepStep(cfg, st, a))
  {
    hide RecordsInTime, Perform;
    QuietKeepsRecords(st.trace, SweepStep(cfg, st, a).trace, st.store, SweepCall(cfg, st, a), st.clock);
  }

  lemma ApiKeepsTime(cfg: Config, st: State, a: ApiAction)
    requires Base(st) && InTime(st) && ApiEnabled(st, a)
    ensures InTime(ApiStep(cfg, st, a))
  {
    hide RecordsInTime, Perform, WorkInTime;
    ApiKeepsPlain(cfg, st, a);
    QuietKeepsRecords(st.trace, ApiStep(cfg, st, a).trace, st.store, ApiCall(cfg, st, a), st.clock);
  }

  lemma StepKeepsTime(cfg: Config, st: State, a: Action)
    requires Base(st) && Conserved(st) && InTime(st) && Enabled(cfg, st, a)
    ensures InTime(Step(cfg, st, a))
  {
    hide Base, Conserved;
    match a
    case Tick(_) =>
    case Api(api) => ApiKeepsTime(cfg, st, api);
    case Scheduler(sweep) => SweepKeepsTime(cfg, st, sweep);
    case Executor(pool) => PoolKeepsTime(cfg, st, pool);
    case Shutdown(main) =>
  }

  /** In every run, the execution record of each recorded submission says that the call was completed at or after the
      clock reading of the sweep that submitted it, and stored at or after that. */
  lemma {:induction false} TimesInOrder(cfg: Config, clock: Time, steps: seq<Action>)
    requires Run(cfg, Initial(cfg, clock), steps).Some?
    ensures InTime(Run(cfg, Initial(cfg, clock), steps).value)
  {
    hide Enabled, Step, Base, Conserved;
    if steps != [] {
      TimesInOrder(cfg, clock, steps[..|steps| - 1]);
      RunConserves(cfg, clock, steps[..|steps| - 1]);
      LastStep(cfg, Initial(cfg, clock), steps);
      StepKeepsTime(cfg, Before(cfg, Initial(cfg, clock), steps), steps[|steps| - 1]);
    }
  }
}
