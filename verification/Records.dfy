/** The execution records of a run: one for each finished submission; and what LastExecuted tells. */
module Records {
  import opened Common
  import opened Models
  import opened StoreSpec
  import opened StoreInvariant
  import opened Pipeline
  import opened PipelineInvariant
  import opened Conservation

  /** The records are distinct, they are all the stored executions, and each is of the job that was submitted. */
  ghost predicate OneRecordEach(trace: Trace, s: Store) {
    && |trace.records| == |trace.recorded|
    && (forall i :: 0 <= i < |trace.records| ==>
          trace.records[i] in s.executions && s.executions[trace.records[i]].jobId == trace.recorded[i].job.id)
    && (forall i, j :: 0 <= i < j < |trace.records| ==> trace.records[i] != trace.records[j])
    && (forall id :: id in s.executions ==> id in trace.records)
  }

  /** The execution with this id is one of the job and was completed at this time. */
  predicate CompletedAt(s: Store, execution: string, job: string, completed: Time) {
    && execution in s.executions
    && s.executions[execution].jobId == job && s.executions[execution].completedAt == Some(completed)
  }

  /** Whoever is about to set LastExecuted has just stored an execution completed at that time. */
  predicate TouchesBacked(pool: Pool, s: Store) {
    && (forall w :: 0 <= w < |pool.workers| && pool.workers[w].Touching? ==>
          CompletedAt(s, pool.workers[w].execution, pool.workers[w].job, pool.workers[w].completed))
    && (forall r :: 0 <= r < |pool.recorders| && pool.recorders[r].RecorderTouching? ==>
          CompletedAt(s, pool.recorders[r].execution, pool.recorders[r].job, pool.recorders[r].completed))
  }

  predicate LastExecutedBacked(trace: Trace, s: Store) {
    forall id :: id in s.jobs && s.jobs[id].lastExecuted.Some? ==>
      id in trace.touched && CompletedAt(s, trace.touched[id], id, s.jobs[id].lastExecuted.value)
  }

  ghost predicate Recorded(st: State) {
    OneRecordEach(st.trace, st.store) && TouchesBacked(st.pool, st.store) && LastExecutedBacked(st.trace, st.store)
  }

  // ---------- executions are never changed or removed ----------

  ghost predicate ExecutionsKept(s: Store, s': Store) {
    forall id :: id in s.executions ==> id in s'.executions && s'.executions[id] == s.executions[id]
  }

  lemma TouchesStayBacked(pool: Pool, s: Store, s': Store)
    requires TouchesBacked(pool, s) && ExecutionsKept(s, s')
    ensures TouchesBacked(pool, s')
  {
  }

  /** A call other than CreateExecution leaves the executions alone. */
  lemma OtherCallsLeaveExecutions(s: Store, op: Operation)
    requires ServiceCall(op) && !op.CreateExecutionOp?
    ensures Apply(s, op).executions == s.executions
  {
  }

  /** A call other than UpdateJobLastExecuted sets no LastExecuted. */
  lemma OtherCallsLeaveLastExecuted(s: Store, op: Operation, id: string)
    requires ServiceCall(op) && !op.UpdateJobLastExecutedOp? && id in Apply(s, op).jobs
    ensures Apply(s, op).jobs[id].lastExecuted == if id in s.jobs then s.jobs[id].lastExecuted else None
  {
  }

  lemma QuietCallKeeps(pool: Pool, trace: Trace, trace': Trace, s: Store, call: Option<Operation>)
    requires OneRecordEach(trace, s) && TouchesBacked(pool, s) && LastExecutedBacked(trace, s)
    requires call.Some? ==>
               ServiceCall(call.value) && !call.value.CreateExecutionOp? && !call.value.UpdateJobLastExecutedOp?
    requires trace'.recorded == trace.recorded && trace'.records == trace.records && trace'.touched == trace.touched
    ensures var s' := Perform(s, call);
            OneRecordEach(trace', s') && TouchesBacked(pool, s') && LastExecutedBacked(trace', s')
  {
    if call.Some? {
      OtherCallsLeaveExecutions(s, call.value);
      var s' := Apply(s, call.value);
      forall id | id in s'.jobs && s'.jobs[id].lastExecuted.Some?
        ensures id in trace.touched && CompletedAt(s', trace.touched[id], id, s'.jobs[id].lastExecuted.value)
      {
        OtherCallsLeaveLastExecuted(s, call.value, id);
      }
    }
  }

  // ---------- the two calls of an executor ----------

  /** A successful CreateExecution adds one execution, under an unused id. */
  lemma CreateAdds(s: Store, op: Operation, clock: Time)
    requires StoreInvariant.Inv(s, clock) && op.CreateExecutionOp? && op.now == clock && op.execution.id == ""
    requires Stored(s, op).Ok?
    ensures var id := Stored(s, op).value;
            && id !in s.executions
            && Apply(s, op).jobs == s.jobs
            && Apply(s, op).executions == s.executions[id := op.execution.(id := id, executedAt := op.now)]
  {
    CreateExecutionKeepsInv(s, op.execution, op.stamp, op.now, clock);
  }

  /** So the records of the run are still all the executions. */
  lemma RecordAdded(trace: Trace, trace': Trace, s: Store, s': Store, work: Submission, id: string, e: Execution)
    requires OneRecordEach(trace, s) && id !in s.executions && s'.executions == s.executions[id := e]
    requires e.jobId == work.job.id
    requires trace'.recorded == trace.recorded + [work] && trace'.records == trace.records + [id]
    ensures OneRecordEach(trace', s') && ExecutionsKept(s, s')
  {
  }

  lemma LastExecutedStaysBacked(trace: Trace, trace': Trace, s: Store, s': Store)
    requires LastExecutedBacked(trace, s) && trace'.touched == trace.touched
    requires s'.jobs == s.jobs && ExecutionsKept(s, s')
    ensures LastExecutedBacked(trace', s')
  {
  }

  /** Setting LastExecuted to a time backed by an execution. */
  lemma TouchBacks(trace: Trace, s: Store, job: string, completed: Time, execution: string, now: Time)
    requires LastExecutedBacked(trace, s) && CompletedAt(s, execution, job, completed)
    ensures LastExecutedBacked(trace.(touched := trace.touched[job := execution]),
                               UpdateJobLastExecuted(s, job, completed, now))
  {
  }

  /** The step after which a worker or a recorder is about to set LastExecuted. */
  lemma TouchComesBacked(cfg: Config, st: State, a: PoolAction, s': Store)
    requires TouchesBacked(st.pool, s') && PoolEnabled(cfg, st, a) && (a.Record? || a.RecorderCreate?)
    requires Stored(st.store, PoolCall(cfg, st, a).value).Ok?
    requires CompletedAt(s', Stored(st.store, PoolCall(cfg, st, a).value).value, RecordedWork(st, a).job.id, a.completed)
    ensures TouchesBacked(PoolEffect(cfg, st, a).pool, s')
  {
  }

  lemma RecordingKeepsRecorded(cfg: Config, st: State, a: PoolAction)
    requires Base(st) && Conserved(st) && Recorded(st) && PoolEnabled(cfg, st, a) && (a.Record? || a.RecorderCreate?)
    ensures Recorded(PoolStep(cfg, st, a))
  {
    RecordSucceeds(cfg, st, a);
    RecordingJob(cfg, st, a);
    hide Conserved, OneRecordEach, TouchesBacked, LastExecutedBacked, StoreInvariant.Inv;
    hide PoolCall, Stored, Apply, PoolEffect;
    RecordingEffect(cfg, st, a);
    var work, op := RecordedWork(st, a), PoolCall(cfg, st, a).value;
    CreateAdds(st.store, op, st.clock);
    var id, s', st' := Stored(st.store, op).value, Apply(st.store, op), PoolStep(cfg, st, a);
    RecordAdded(st.trace, st'.trace, st.store, s', work, id, s'.executions[id]);
    LastExecutedStaysBacked(st.trace, st'.trace, st.store, s');
    TouchesStayBacked(st.pool, st.store, s');
    TouchComesBacked(cfg, st, a, s');
  }

  lemma RecordingJob(cfg: Config, st: State, a: PoolAction)
    requires PoolEnabled(cfg, st, a) && (a.Record? || a.RecorderCreate?)
    ensures var op := PoolCall(cfg, st, a).value;
            && op.CreateExecutionOp? && op.now == st.clock && op.execution.id == ""
            && op.execution.jobId == RecordedWork(st, a).job.id && op.execution.completedAt == Some(a.completed)
  {
  }

  lemma TouchKeepsRecorded(cfg: Config, st: State, a: PoolAction)
    requires Recorded(st) && PoolEnabled(cfg, st, a) && a.Touch?
    ensures Recorded(PoolStep(cfg, st, a))
  {
    var w := st.pool.workers[a.w];
    TouchBacks(st.trace, st.store, w.job, w.completed, w.execution, st.clock);
  }

  lemma RecorderTouchKeepsRecorded(cfg: Config, st: State, a: PoolAction)
    requires Recorded(st) && PoolEnabled(cfg, st, a) && a.RecorderTouch?
    ensures Recorded(PoolStep(cfg, st, a))
  {
    var r := st.pool.recorders[a.r];
    TouchBacks(st.trace, st.store, r.job, r.completed, r.execution, st.clock);
  }

  lemma OthersKeepRecorded(cfg: Config, st: State, a: PoolAction)
    requires Recorded(st) && PoolEnabled(cfg, st, a)
    requires !a.Record? && !a.RecorderCreate? && !a.Touch? && !a.RecorderTouch?
    ensures Recorded(PoolStep(cfg, st, a))
  {
  }

  lemma PoolKeepsRecorded(cfg: Config, st: State, a: PoolAction)
    requires Base(st) && Conserved(st) && Recorded(st) && PoolEnabled(cfg, st, a)
    ensures Recorded(PoolStep(cfg, st, a))
  {
    hide Base, Conserved, Recorded;
    if a.Record? || a.RecorderCreate? {
      RecordingKeepsRecorded(cfg, st, a);
    } else if a.Touch? {
      TouchKeepsRecorded(cfg, st, a);
    } else if a.RecorderTouch? {
      RecorderTouchKeepsRecorded(cfg, st, a);
    } else {
      OthersKeepRecorded(cfg, st, a);
    }
  }

  lemma SweepKeepsRecorded(cfg: Config, st: State, a: SweepAction)
    requires Recorded(st) && SweepEnabled(cfg, st, a)
    ensures Recorded(SweepStep(cfg, st, a))
  {
    QuietCallKeeps(st.pool, st.trace, SweepStep(cfg, st, a).trace, st.store, SweepCall(cfg, st, a));
  }

  lemma ApiKeepsRecorded(cfg: Config, st: State, a: ApiAction)
    requires Base(st) && Recorded(st) && ApiEnabled(st, a)
    ensures Recorded(ApiStep(cfg, st, a))
  {
    ApiKeepsPlain(cfg, st, a);
    QuietCallKeeps(st.pool, st.trace, ApiStep(cfg, st, a).trace, st.store, ApiCall(cfg, st, a));
  }

  lemma StepKeepsRecorded(cfg: Config, st: State, a: Action)
    requires Base(st) && Conserved(st) && Recorded(st) && Enabled(cfg, st, a)
    ensures Recorded(Step(cfg, st, a))
  {
    hide Base, Conserved, OneRecordEach, TouchesBacked, LastExecutedBacked;
    match a
    case Tick(_) =>
    case Api(api) => ApiKeepsRecorded(cfg, st, api);
    case Scheduler(sweep) => SweepKeepsRecorded(cfg, st, sweep);
    case Executor(pool) => PoolKeepsRecorded(cfg, st, pool);
    case Shutdown(main) =>
  }

  /** In every run: the stored executions are exactly one for each recorded submission, and LastExecuted of a job
      is the CompletedAt of a stored execution of that job. */
  lemma {:induction false} FinishedAreRecorded(cfg: Config, clock: Time, steps: seq<Action>)
    requires Run(cfg, Initial(cfg, clock), steps).Some?
    ensures Recorded(Run(cfg, Initial(cfg, clock), steps).value)
  {
    if steps != [] {
      FinishedAreRecorded(cfg, clock, steps[..|steps| - 1]);
      RunConserves(cfg, clock, steps[..|steps| - 1]);
      StepKeepsRecorded(cfg, Run(cfg, Initial(cfg, clock), steps[..|steps| - 1]).value, steps[|steps| - 1]);
    }
  }

  // ---------- what a stored execution says ----------

  /** Success is a status from 200 to 299, and the call had ended when the record was stored. */
  predicate Truthful(e: Execution) {
    && (e.success <==> 200 <= e.httpStatus < 300)
    && e.completedAt.Some? && e.completedAt.value <= e.executedAt
  }

  predicate AllTruthful(s: Store) {
    forall id :: id in s.executions ==> Truthful(s.executions[id])
  }

  lemma QuietCallTruthful(s: Store, call: Option<Operation>)
    requires AllTruthful(s) && (call.Some? ==> ServiceCall(call.value) && !call.value.CreateExecutionOp?)
    ensures AllTruthful(Perform(s, call))
  {
  }

  lemma PoolTruthful(cfg: Config, st: State, a: PoolAction)
    requires AllTruthful(st.store) && PoolEnabled(cfg, st, a)
    ensures AllTruthful(PoolStep(cfg, st, a).store)
  {
    var call := PoolCall(cfg, st, a);
    if !a.Record? && !a.RecorderCreate? {
      QuietCallTruthful(st.store, call);
    }
  }

  lemma StepTruthful(cfg: Config, st: State, a: Action)
    requires Base(st) && AllTruthful(st.store) && Enabled(cfg, st, a)
    ensures AllTruthful(Step(cfg, st, a).store)
  {
    hide AllTruthful, StoreInvariant.Inv, Transit;
    match a
    case Tick(_) =>
    case Api(api) =>
      ApiKeepsPlain(cfg, st, api);
      QuietCallTruthful(st.store, ApiCall(cfg, st, api));
    case Scheduler(sweep) => QuietCallTruthful(st.store, SweepCall(cfg, st, sweep));
    case Executor(pool) => PoolTruthful(cfg, st, pool);
    case Shutdown(main) =>
  }

  /** In every run each stored execution is a success exactly if its status is from 200 to 299, and carries a
      completion time not later than its storage time. */
  lemma {:induction false} ExecutionsTruthful(cfg: Config, clock: Time, steps: seq<Action>)
    requires Run(cfg, Initial(cfg, clock), steps).Some?
    ensures AllTruthful(Run(cfg, Initial(cfg, clock), steps).value.store)
  {
    if steps != [] {
      ExecutionsTruthful(cfg, clock, steps[..|steps| - 1]);
      RunConserves(cfg, clock, steps[..|steps| - 1]);
      StepTruthful(cfg, Run(cfg, Initial(cfg, clock), steps[..|steps| - 1]).value, steps[|steps| - 1]);
    }
  }
}
