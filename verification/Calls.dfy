/** What the stored executions say about the HTTP calls that the workers made. */
module Calls {
  import opened Common
  import opened Models
  import opened StoreSpec
  import opened StoreInvariant
  import opened Pipeline
  import opened PipelineInvariant
  import opened Conservation
  import opened Records

  /** The execution says how the call ended: its status, its answer and how long it took, whether that was a success,
      and why not. A call without an answer has no status, and only the standard executor keeps its error. */
  predicate Reports(cfg: Config, e: Execution, outcome: Outcome, duration: Duration) {
    && e.responseTime == duration
    && match outcome
       case Failed(error) =>
         && e.httpStatus == 0 && !e.success && e.responseBody == ""
         && e.error == (if cfg.kind == Standard then error else cfg.statusText(0))
       case Response(status, body) =>
         && e.httpStatus == status && e.responseBody == body
         && (e.success <==> 200 <= status < 300)
         && e.error == (if 200 <= status < 300 then "" else cfg.statusText(status))
  }

  ghost predicate ReportedBy(cfg: Config, e: Execution, work: Submission, calls: seq<Call>) {
    exists call :: call in calls && call.work == work && Reports(cfg, e, call.outcome, call.duration)
  }

  /** Each record reports a call of its submission. */
  ghost predicate AllReport(cfg: Config, trace: Trace, s: Store) {
    && |trace.records| == |trace.recorded|
    && forall i :: 0 <= i < |trace.records| ==>
         && trace.records[i] in s.executions
         && ReportedBy(cfg, s.executions[trace.records[i]], trace.recorded[i], trace.calls)
  }

  /** Recorders hold calls that have ended. */
  predicate RecordersCalled(recorders: seq<Recorder>, calls: seq<Call>) {
    forall r :: 0 <= r < |recorders| && recorders[r].Recording? ==>
      Call(recorders[r].work, recorders[r].outcome, recorders[r].duration) in calls
  }

  /** Each call of a submission is with a recorder or recorded, and with nobody else. */
  ghost predicate CallsConserved(st: State) {
    forall x :: CallsOf(st.trace.calls, x) == InRecorders(st.pool.recorders, x) + Occurrences(st.trace.recorded, x)
  }

  function CallsOf(calls: seq<Call>, x: Submission): nat {
    if calls == [] then 0 else CallsOf(calls[..|calls| - 1], x) + (if calls[|calls| - 1].work == x then 1 else 0)
  }

  ghost predicate Called(cfg: Config, st: State) {
    AllReport(cfg, st.trace, st.store) && RecordersCalled(st.pool.recorders, st.trace.calls) && CallsConserved(st)
  }

  // ---------- the calls of a run ----------

  /** The HTTP calls that end in a run, read off its steps. */
  ghost function CallsMade(cfg: Config, st: State, steps: seq<Action>): seq<Call>
    requires Run(cfg, st, steps).Some?
  {
    if steps == [] then []
    else
      LastStep(cfg, st, steps);
      var earlier, last := CallsMade(cfg, st, steps[..|steps| - 1]), steps[|steps| - 1];
      if last.Executor? then earlier + CallEnded(Before(cfg, st, steps), last.pool) else earlier
  }

  lemma StepCalls(cfg: Config, st: State, a: Action)
    requires Enabled(cfg, st, a)
    ensures Step(cfg, st, a).trace.calls == st.trace.calls + (if a.Executor? then CallEnded(st, a.pool) else [])
  {
    hide PoolEffect;
    match a
    case Executor(pool) => CallsShape(cfg, st, pool);
    case Scheduler(sweep) => SweepSameCalls(cfg, st, sweep);
    case Api(api) => ApiSameCalls(cfg, st, api);
    case Tick(_) =>
    case Shutdown(_) =>
  }

  lemma {:induction false} RunCalls(cfg: Config, st: State, steps: seq<Action>)
    requires Run(cfg, st, steps).Some?
    ensures Run(cfg, st, steps).value.trace.calls == st.trace.calls + CallsMade(cfg, st, steps)
  {
    hide Enabled, Step;
    if steps != [] {
      LastStep(cfg, st, steps);
      RunCalls(cfg, st, steps[..|steps| - 1]);
      StepCalls(cfg, Before(cfg, st, steps), steps[|steps| - 1]);
    }
  }

  // ---------- every step keeps the reports ----------

  lemma MoreCalls(cfg: Config, trace: Trace, trace': Trace, s: Store, s': Store)
    requires AllReport(cfg, trace, s) && ExecutionsKept(s, s') && trace.calls <= trace'.calls
    requires trace'.recorded == trace.recorded && trace'.records == trace.records
    ensures AllReport(cfg, trace', s')
  {
    forall i | 0 <= i < |trace.records|
      ensures ReportedBy(cfg, s'.executions[trace'.records[i]], trace'.recorded[i], trace'.calls)
    {
      MoreCallsReport(cfg, s.executions[trace.records[i]], trace.recorded[i], trace.calls, trace'.calls);
    }
  }

  lemma MoreCallsReport(cfg: Config, e: Execution, work: Submission, calls: seq<Call>, calls': seq<Call>)
    requires ReportedBy(cfg, e, work, calls) && calls <= calls'
    ensures ReportedBy(cfg, e, work, calls')
  {
    var call :| call in calls && call.work == work && Reports(cfg, e, call.outcome, call.duration);
    assert call in calls';
  }

  lemma NewReport(
    cfg: Config, trace: Trace, trace': Trace, s: Store, s': Store, work: Submission, id: string, e: Execution)
    requires AllReport(cfg, trace, s) && id !in s.executions && s'.executions == s.executions[id := e]
    requires trace'.recorded == trace.recorded + [work] && trace'.records == trace.records + [id]
    requires trace.calls <= trace'.calls && ReportedBy(cfg, e, work, trace'.calls)
    ensures AllReport(cfg, trace', s')
  {
    forall i | 0 <= i < |trace.records|
      ensures ReportedBy(cfg, s'.executions[trace'.records[i]], trace'.recorded[i], trace'.calls)
    {
      MoreCallsReport(cfg, s.executions[trace.records[i]], trace.recorded[i], trace.calls, trace'.calls);
    }
  }

  /** What a recording step stores reports a call: the one that it ends, or the one that its recorder holds. */
  lemma RecordingReports(cfg: Config, st: State, a: PoolAction)
    requires RecordersCalled(st.pool.recorders, st.trace.calls)
    requires PoolEnabled(cfg, st, a) && (a.Record? || a.RecorderCreate?)
    ensures var op := PoolCall(cfg, st, a).value;
            && op.CreateExecutionOp? && op.execution.id == ""
            && forall id, now :: ReportedBy(cfg, op.execution.(id := id, executedAt := now), RecordedWork(st, a),
                                            st.trace.calls + CallEnded(st, a))
  {
    var calls := st.trace.calls + CallEnded(st, a);
    var call :=
      if a.Record? then Call(RecordedWork(st, a), a.outcome, a.duration)
      else var r := st.pool.recorders[a.r]; Call(r.work, r.outcome, r.duration);
    assert call in calls;
    var e := PoolCall(cfg, st, a).value.execution;
    assert Reports(cfg, e, call.outcome, call.duration);
    forall id, now
      ensures ReportedBy(cfg, e.(id := id, executedAt := now), RecordedWork(st, a), calls)
    {
      assert Reports(cfg, e.(id := id, executedAt := now), call.outcome, call.duration);
    }
  }

  lemma RecordingKeepsReports(cfg: Config, st: State, a: PoolAction)
    requires Base(st) && Conserved(st) && Called(cfg, st) && PoolEnabled(cfg, st, a) && (a.Record? || a.RecorderCreate?)
    ensures AllReport(cfg, PoolStep(cfg, st, a).trace, PoolStep(cfg, st, a).store)
  {
    RecordSucceeds(cfg, st, a);
    RecordingJob(cfg, st, a);
    RecordingReports(cfg, st, a);
    hide Conserved, CallsConserved, AllReport, ReportedBy, PoolCall, Stored, Apply, PoolEffect, StoreInvariant.Inv;
    RecordingEffect(cfg, st, a);
    CallsShape(cfg, st, a);
    var op, st' := PoolCall(cfg, st, a).value, PoolStep(cfg, st, a);
    CreateAdds(st.store, op, st.clock);
    var id, s' := Stored(st.store, op).value, Apply(st.store, op);
    NewReport(cfg, st.trace, st'.trace, st.store, s', RecordedWork(st, a), id, s'.executions[id]);
  }

  lemma PoolKeepsReports(cfg: Config, st: State, a: PoolAction)
    requires Base(st) && Conserved(st) && Called(cfg, st) && PoolEnabled(cfg, st, a)
    ensures AllReport(cfg, PoolStep(cfg, st, a).trace, PoolStep(cfg, st, a).store)
  {
    hide Base, Conserved, AllReport, CallsConserved, PoolEffect;
    if a.Record? || a.RecorderCreate? {
      RecordingKeepsReports(cfg, st, a);
    } else {
      CallsShape(cfg, st, a);
      QuietPool(cfg, st, a);
      MoreCalls(cfg, st.trace, PoolStep(cfg, st, a).trace, st.store, PoolStep(cfg, st, a).store);
    }
  }

  lemma QuietPool(cfg: Config, st: State, a: PoolAction)
    requires PoolEnabled(cfg, st, a) && !a.Record? && !a.RecorderCreate?
    ensures var st' := PoolStep(cfg, st, a);
            && st'.trace.recorded == st.trace.recorded && st'.trace.records == st.trace.records
            && st'.store.executions == st.store.executions
  {
  }

  lemma PoolKeepsRecorders(cfg: Config, st: State, a: PoolAction)
    requires RecordersCalled(st.pool.recorders, st.trace.calls) && PoolEnabled(cfg, st, a)
    ensures var st' := PoolEffect(cfg, st, a); RecordersCalled(st'.pool.recorders, st'.trace.calls)
  {
    hide PoolEffect;
    RecorderShape(cfg, st, a);
    CallsShape(cfg, st, a);
  }

  // ---------- one call for each submission ----------

  lemma {:induction false} CallsOfMore(calls: seq<Call>, call: Call, x: Submission)
    ensures CallsOf(calls + [call], x) == CallsOf(calls, x) + (if call.work == x then 1 else 0)
  {
    assert (calls + [call])[..|calls|] == calls;
  }

  lemma {:induction false} PoolConservesCalls(cfg: Config, st: State, a: PoolAction, x: Submission)
    requires PoolEnabled(cfg, st, a)
    requires a.Record? || a.RecorderCreate? ==> Stored(st.store, PoolCall(cfg, st, a).value).Ok?
    requires CallsOf(st.trace.calls, x) == InRecorders(st.pool.recorders, x) + Occurrences(st.trace.recorded, x)
    ensures var st' := PoolStep(cfg, st, a);
            CallsOf(st'.trace.calls, x) == InRecorders(st'.pool.recorders, x) + Occurrences(st'.trace.recorded, x)
  {
    hide PoolCall, Stored, ExecutionOf, PoolEffect, CallsOf, InRecorders, Occurrences;
    CallsShape(cfg, st, a);
    if a.Record? || a.RecorderCreate? {
      RecordingEffect(cfg, st, a);
      Appending(st.trace.recorded, RecordedWork(st, a), x);
    } else {
      QuietPool(cfg, st, a);
    }
    if a.Record? {
      CallsOfMore(st.trace.calls, Call(RecordedWork(st, a), a.outcome, a.duration), x);
    }
    if a.Spawn? {
      CallsOfMore(st.trace.calls, Call(st.pool.workers[a.w].work, a.outcome, a.duration), x);
    }
    RecordersAfter(cfg, st, a, x);
  }

  /** Only the end of its recording takes a submission from its recorder. */
  lemma {:induction false} RecordersAfter(cfg: Config, st: State, a: PoolAction, x: Submission)
    requires PoolEnabled(cfg, st, a)
    ensures InRecorders(PoolEffect(cfg, st, a).pool.recorders, x)
            + (if a.RecorderCreate? && st.pool.recorders[a.r].work == x then 1 else 0)
            == InRecorders(st.pool.recorders, x) + (if a.Spawn? && st.pool.workers[a.w].work == x then 1 else 0)
  {
    hide PoolCall, Stored, ExecutionOf, InRecorders;
    var after := PoolEffect(cfg, st, a).pool.recorders;
    if a.Spawn? {
      MoreRecorders(st.pool.recorders, Recording(st.pool.workers[a.w].work, a.outcome, a.duration, st.clock), x);
    } else if a.RecorderCreate? || a.RecorderTouch? {
      OneRecorder(st.pool.recorders, a.r, after[a.r], x);
    }
  }

  lemma PoolKeepsCalled(cfg: Config, st: State, a: PoolAction)
    requires Base(st) && Conserved(st) && Called(cfg, st) && PoolEnabled(cfg, st, a)
    ensures Called(cfg, PoolStep(cfg, st, a))
  {
    if a.Record? || a.RecorderCreate? {
      RecordSucceeds(cfg, st, a);
    }
    hide Base, Conserved, AllReport, RecordersCalled, PoolEffect, PoolCall, Stored;
    PoolKeepsReports(cfg, st, a);
    PoolKeepsRecorders(cfg, st, a);
    forall x
      ensures var st' := PoolStep(cfg, st, a);
              CallsOf(st'.trace.calls, x) == InRecorders(st'.pool.recorders, x) + Occurrences(st'.trace.recorded, x)
    {
      PoolConservesCalls(cfg, st, a, x);
    }
  }

  /** All other steps leave calls, recorders and executions alone. */
  predicate SameCalls(st: State, st': State) {
    && st'.trace.calls == st.trace.calls && st'.trace.recorded == st.trace.recorded
    && st'.trace.records == st.trace.records && st'.pool.recorders == st.pool.recorders
    && st'.store.executions == st.store.executions
  }

  lemma SameCallsKeep(cfg: Config, st: State, st': State)
    requires Called(cfg, st) && SameCalls(st, st')
    ensures Called(cfg, st')
  {
  }

  lemma SweepSameCalls(cfg: Config, st: State, a: SweepAction)
    requires SweepEnabled(cfg, st, a)
    ensures SameCalls(st, SweepStep(cfg, st, a))
  {
  }

  lemma ApiSameCalls(cfg: Config, st: State, a: ApiAction)
    requires ApiEnabled(st, a)
    ensures SameCalls(st, ApiStep(cfg, st, a))
  {
  }

  lemma StepKeepsCalled(cfg: Config, st: State, a: Action)
    requires Base(st) && Conserved(st) && Called(cfg, st) && Enabled(cfg, st, a)
    ensures Called(cfg, Step(cfg, st, a))
  {
    hide Base, Conserved, Called;
    match a
    case Tick(_) => SameCallsKeep(cfg, st, Step(cfg, st, a));
    case Api(api) =>
      ApiSameCalls(cfg, st, api);
      SameCallsKeep(cfg, st, Step(cfg, st, a));
    case Scheduler(sweep) =>
      SweepSameCalls(cfg, st, sweep);
      SameCallsKeep(cfg, st, Step(cfg, st, a));
    case Executor(pool) => PoolKeepsCalled(cfg, st, pool);
    case Shutdown(main) => SameCallsKeep(cfg, st, Step(cfg, st, a));
  }

  lemma {:induction false} RunKeepsCalled(cfg: Config, clock: Time, steps: seq<Action>)
    requires Run(cfg, Initial(cfg, clock), steps).Some?
    ensures Called(cfg, Run(cfg, Initial(cfg, clock), steps).value)
  {
    hide Enabled, Step, Base, Conserved;
    if steps != [] {
      RunKeepsCalled(cfg, clock, steps[..|steps| - 1]);
      RunConserves(cfg, clock, steps[..|steps| - 1]);
      LastStep(cfg, Initial(cfg, clock), steps);
      StepKeepsCalled(cfg, Before(cfg, Initial(cfg, clock), steps), steps[|steps| - 1]);
    }
  }

  /** In every run the execution stored for a submission reports the HTTP call that was made for it: the outcome and
      the duration are those of the step in which that call ended, and for no submission does more than one call end. */
  lemma {:induction false} ExecutionsReportCalls(cfg: Config, clock: Time, steps: seq<Action>)
    requires Run(cfg, Initial(cfg, clock), steps).Some?
    ensures var end, calls := Run(cfg, Initial(cfg, clock), steps).value, CallsMade(cfg, Initial(cfg, clock), steps);
            && |end.trace.records| == |end.trace.recorded|
            && (forall i :: 0 <= i < |end.trace.records| ==>
                  && end.trace.records[i] in end.store.executions
                  && ReportedBy(cfg, end.store.executions[end.trace.records[i]], end.trace.recorded[i], calls))
            && forall x :: CallsOf(calls, x) <= 1
  {
    hide Run, CallsMade, Base, Bounded, ReportedBy, RecordersCalled, Places;
    var end := Run(cfg, Initial(cfg, clock), steps).value;
    RunKeepsCalled(cfg, clock, steps);
    RunConserves(cfg, clock, steps);
    RunCalls(cfg, Initial(cfg, clock), steps);
    assert end.trace.calls == CallsMade(cfg, Initial(cfg, clock), steps);
    forall x
      ensures CallsOf(end.trace.calls, x) <= 1
    {
      PlacesCover(end.pool, end.trace, x);
    }
  }

  lemma {:induction false} PlacesCover(pool: Pool, trace: Trace, x: Submission)
    ensures InRecorders(pool.recorders, x) + Occurrences(trace.recorded, x) <= Places(pool, trace, x)
  {
  }
}
