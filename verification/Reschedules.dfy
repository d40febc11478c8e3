/** Reschedules: what the two writes of an update and the sweep's write leave behind, under every interleaving. */
module Reschedules {
  import opened Common
  import opened Models
  import opened StoreSpec
  import opened StoreInvariant
  import opened Cron
  import opened Pipeline
  import opened PipelineInvariant
  import opened Schedules
  import opened Dispatch

  // ---------- who writes a job's NextRun ----------

  /** The step is the sweep's write of this job's NextRun. */
  predicate AdvancesJob(st: State, a: Action, id: string) {
    && a == Scheduler(Advance)
    && st.sweep.Advancing? && st.sweep.next < |st.sweep.due| && st.sweep.due[st.sweep.next].id == id
  }

  /** The step takes a snapshot. */
  predicate IsLoad(a: Action) {
    a.Scheduler? && a.sweep.Load?
  }

  /** Some step of the run is a sweep's write of this job's NextRun. */
  ghost predicate WasAdvanced(cfg: Config, st: State, steps: seq<Action>, id: string)
    requires Run(cfg, st, steps).Some?
  {
    steps != [] &&
    (AdvancesJob(Before(cfg, st, steps), steps[|steps| - 1], id) || WasAdvanced(cfg, st, steps[..|steps| - 1], id))
  }

  /** The schedule of the copy that the last such write used; `source` if there was none. */
  ghost function LastCopy(cfg: Config, st: State, steps: seq<Action>, id: string, source: string): string
    requires Run(cfg, st, steps).Some?
  {
    if steps == [] then source
    else
      var before := Before(cfg, st, steps);
      if AdvancesJob(before, steps[|steps| - 1], id) then before.sweep.due[before.sweep.next].schedule
      else LastCopy(cfg, st, steps[..|steps| - 1], id, source)
  }

  /** Apart from the k-th one, no update in flight will write the job's schedule. */
  predicate QuietBut(updates: seq<PendingUpdate>, id: string, k: Option<nat>) {
    && (k.Some? ==> k.value < |updates|)
    && forall j: nat :: j < |updates| ==>
         k == Some(j) || updates[j].finished || updates[j].id != id || !WritesSchedule(updates[j].changes)
  }

  /** The step is neither a delete of the job nor the start of a reschedule of it, nor the k-th update's second
      write. */
  predicate Leaves(lib: Library, a: Action, id: string, k: Option<nat>) {
    LeavesJob(lib, a, id) && (k.Some? ==> a != Api(FinishUpdate(k.value)))
  }

  // ---------- one step ----------

  lemma ApiSource(cfg: Config, st: State, a: ApiAction, id: string)
    requires Base(st) && ApiEnabled(st, a) && LeavesJob(cfg.lib, Api(a), id) && id in st.store.jobs
    requires id in st.trace.origin
    ensures var st' := ApiStep(cfg, st, a);
            id in st'.trace.origin && st'.trace.origin[id] == st.trace.origin[id]
  {
    hide Next, NewId, StoreInvariant.Inv, Transit, PlainUpdates, Perform, ApiCall;
    if a.Create? {
      NewJobStored(st.store, NewJob(cfg.lib, a.request, a.from), a.stamp, st.clock, st.clock);
    }
  }

  lemma SweepSource(cfg: Config, st: State, a: SweepAction, id: string)
    requires Base(st) && Lawful(cfg, st) && SweepEnabled(cfg, st, a) && id in st.trace.origin
    ensures var origin := SweepStep(cfg, st, a).trace.origin;
            && id in origin
            && origin[id] == if AdvancesJob(st, Scheduler(a), id)
                             then (st.sweep.due[st.sweep.next].schedule, st.sweep.now) else st.trace.origin[id]
  {
    hide Base, Lawful, SweepStep, Next;
    if a.Advance? && st.sweep.next < |st.sweep.due| {
      HeldAsked(cfg, st);
      AdvanceStep(cfg, st);
    } else {
      QuietSweepStep(cfg, st, a);
    }
  }

  /** The source of a job's NextRun changes with the sweep's writes, and with nothing else. */
  lemma StepSource(cfg: Config, st: State, a: Action, id: string)
    requires Base(st) && Lawful(cfg, st) && Enabled(cfg, st, a) && LeavesJob(cfg.lib, a, id)
    requires id in st.store.jobs && id in st.trace.origin
    ensures var origin := Step(cfg, st, a).trace.origin;
            && id in origin
            && origin[id] == if AdvancesJob(st, a, id) then (st.sweep.due[st.sweep.next].schedule, st.sweep.now)
                             else st.trace.origin[id]
  {
    hide Base, Lawful, ApiStep, SweepStep, PoolStep;
    match a
    case Tick(_) =>
    case Api(api) => ApiSource(cfg, st, api, id);
    case Scheduler(sweep) => SweepSource(cfg, st, sweep, id);
    case Executor(pool) => PoolLeavesSchedules(cfg, st, pool);
    case Shutdown(main) =>
  }

  lemma ApiQuiet(cfg: Config, st: State, a: ApiAction, id: string, k: Option<nat>)
    requires ApiEnabled(st, a) && Leaves(cfg.lib, Api(a), id, k) && QuietBut(st.updates, id, k)
    ensures var updates := ApiEffect(cfg, st, a).updates;
            QuietBut(updates, id, k) && (k.Some? ==> updates[k.value] == st.updates[k.value])
  {
    if a.Update? {
      assert AskedSchedule(a.body).None? ==> !WritesSchedule(DecodedObject(a.body));
    }
  }

  /** A repository call that writes neither this job's schedule nor its status. */
  predicate Spares(op: Operation, id: string) {
    match op
    case UpdateJobOp(other, updates, _) => other == id ==> !WritesSchedule(updates) && Plain(updates)
    case DeleteJobOp(other, _) => other != id
    case _ => true
  }

  /** The job has the same schedule and status in both stores. */
  predicate SameTerms(s: Store, s': Store, id: string)
    requires id in s.jobs
  {
    id in s'.jobs && s'.jobs[id].schedule == s.jobs[id].schedule && s'.jobs[id].status == s.jobs[id].status
  }

  lemma CallKeepsSchedule(s: Store, call: Option<Operation>, id: string)
    requires id in s.jobs && (call.Some? ==> Spares(call.value, id))
    ensures SameTerms(s, Perform(s, call), id)
  {
    hide NewId, UpdatedExecution;
  }

  lemma ApiSpares(cfg: Config, st: State, a: ApiAction, id: string, k: Option<nat>)
    requires ApiEnabled(st, a) && Leaves(cfg.lib, Api(a), id, k) && QuietBut(st.updates, id, k)
    requires PlainUpdates(st.updates)
    ensures var call := ApiCall(cfg, st, a); call.Some? ==> Spares(call.value, id)
  {
  }

  lemma ApiSchedule(cfg: Config, st: State, a: ApiAction, id: string, k: Option<nat>)
    requires ApiEnabled(st, a) && Leaves(cfg.lib, Api(a), id, k) && QuietBut(st.updates, id, k)
    requires PlainUpdates(st.updates) && id in st.store.jobs
    ensures var st' := ApiStep(cfg, st, a);
            && SameTerms(st.store, st'.store, id)
            && QuietBut(st'.updates, id, k) && (k.Some? ==> st'.updates[k.value] == st.updates[k.value])
  {
    hide ApiCall, ApiEffect, Perform, Spares, QuietBut, Leaves;
    ApiQuiet(cfg, st, a, id, k);
    ApiSpares(cfg, st, a, id, k);
    CallKeepsSchedule(st.store, ApiCall(cfg, st, a), id);
  }

  lemma SweepLeavesUpdates(cfg: Config, st: State, a: SweepAction)
    requires SweepEnabled(cfg, st, a)
    ensures SweepEffect(cfg, st, a).updates == st.updates
  {
  }

  /** Other steps leave the job's schedule and the other updates alone. */
  lemma StepSchedule(cfg: Config, st: State, a: Action, id: string, k: Option<nat>)
    requires Enabled(cfg, st, a) && Leaves(cfg.lib, a, id, k) && QuietBut(st.updates, id, k)
    requires PlainUpdates(st.updates) && id in st.store.jobs
    ensures var st' := Step(cfg, st, a);
            && SameTerms(st.store, st'.store, id)
            && QuietBut(st'.updates, id, k) && (k.Some? ==> st'.updates[k.value] == st.updates[k.value])
  {
    hide QuietBut, ApiStep, PoolStep, SweepEffect;
    match a
    case Tick(_) =>
    case Api(api) => ApiSchedule(cfg, st, api, id, k);
    case Scheduler(sweep) =>
      SweepLeavesUpdates(cfg, st, sweep);
      CallKeepsSchedule(st.store, SweepCall(cfg, st, sweep), id);
    case Executor(pool) => PoolLeavesSchedules(cfg, st, pool);
    case Shutdown(main) =>
  }

  // ---------- runs ----------

  /** The step is a run's, and neither the start of a reschedule of the job, nor a delete, nor the k-th second write. */
  predicate AllLeave(lib: Library, steps: seq<Action>, id: string, k: Option<nat>) {
    forall i :: 0 <= i < |steps| ==> Leaves(lib, steps[i], id, k)
  }

  /** A state in which the job is stored, and but for the k-th update nothing in flight will change its schedule. */
  ghost predicate Settled(cfg: Config, st: State, id: string, k: Option<nat>) {
    && Base(st) && Lawful(cfg, st) && QuietBut(st.updates, id, k)
    && id in st.store.jobs && id in st.trace.origin
  }

  lemma SettledKnows(cfg: Config, st: State, id: string, k: Option<nat>)
    requires Settled(cfg, st, id, k)
    ensures id in st.store.jobs && id in st.trace.origin && (k.Some? ==> k.value < |st.updates|)
  {
  }

  lemma StepSettled(cfg: Config, st: State, a: Action, id: string, k: Option<nat>)
    requires Settled(cfg, st, id, k) && Enabled(cfg, st, a) && Leaves(cfg.lib, a, id, k)
    ensures var st' := Step(cfg, st, a);
            && Settled(cfg, st', id, k)
            && SameTerms(st.store, st'.store, id) && id in st'.trace.origin
            && (k.Some? ==> st'.updates[k.value] == st.updates[k.value])
            && st'.trace.origin[id] == if AdvancesJob(st, a, id) then (st.sweep.due[st.sweep.next].schedule, st.sweep.now)
                                       else st.trace.origin[id]
  {
    assert PlainUpdates(st.updates);
    hide Base, Lawful, QuietBut, Enabled, Step;
    StepKeepsBase(cfg, st, a);
    StepKeepsLawful(cfg, st, a);
    StepSource(cfg, st, a, id);
    StepSchedule(cfg, st, a, id, k);
  }

  /** In a run in which nobody else reschedules or deletes the job, the schedule stays, and the source of NextRun is
      the copy that the sweep last wrote it from. */
  lemma {:induction false} RunSettled(cfg: Config, st: State, steps: seq<Action>, id: string, k: Option<nat>)
    requires Settled(cfg, st, id, k) && Run(cfg, st, steps).Some? && AllLeave(cfg.lib, steps, id, k)
    ensures var end := Run(cfg, st, steps).value;
            && Settled(cfg, end, id, k)
            && SameTerms(st.store, end.store, id) && id in end.trace.origin
            && (k.Some? ==> end.updates[k.value] == st.updates[k.value])
            && end.trace.origin[id].0 == LastCopy(cfg, st, steps, id, st.trace.origin[id].0)
            && (!WasAdvanced(cfg, st, steps, id) ==> end.trace.origin[id] == st.trace.origin[id])
  {
    hide Settled, Enabled, Step, Leaves;
    SettledKnows(cfg, st, id, k);
    if steps != [] {
      LastStep(cfg, st, steps);
      RunSettled(cfg, st, steps[..|steps| - 1], id, k);
      StepSettled(cfg, Before(cfg, st, steps), steps[|steps| - 1], id, k);
    }
  }

  // ---------- copies ----------

  /** The copies that the sweep may still write a NextRun from. */
  function CopiesLeft(sweep: Sweep): seq<Job> {
    match sweep
    case Loaded(jobs) => jobs
    case Submitting(_, due, _) => due
    case Advancing(_, due, next) => if next <= |due| then due[next..] else []
    case _ => []
  }

  lemma SweepCopies(cfg: Config, st: State, a: SweepAction)
    requires SweepEnabled(cfg, st, a) && !a.Load?
    ensures forall job :: job in CopiesLeft(SweepEffect(cfg, st, a).sweep) ==> job in CopiesLeft(st.sweep)
  {
    if a.Filter? {
      DueFromSnapshot(st.sweep.jobs, st.clock);
    }
  }

  /** Only a new snapshot brings copies. */
  lemma StepCopies(cfg: Config, st: State, a: Action)
    requires Enabled(cfg, st, a) && !IsLoad(a)
    ensures forall job :: job in CopiesLeft(Step(cfg, st, a).sweep) ==> job in CopiesLeft(st.sweep)
  {
    hide CopiesLeft, SweepEffect, ApiEffect, PoolEffect;
    match a
    case Tick(_) =>
    case Api(api) => ApiLeavesSweep(cfg, st, api);
    case Scheduler(sweep) => SweepCopies(cfg, st, sweep);
    case Executor(pool) => PoolLeavesSchedules(cfg, st, pool);
    case Shutdown(main) =>
  }

  lemma ApiLeavesSweep(cfg: Config, st: State, a: ApiAction)
    requires ApiEnabled(st, a)
    ensures ApiEffect(cfg, st, a).sweep == st.sweep
  {
  }

  /** A sweep that is about to write the job's NextRun has a copy left of it. */
  lemma AdvancesCopy(st: State, a: Action, id: string)
    requires AdvancesJob(st, a, id)
    ensures st.sweep.due[st.sweep.next] in CopiesLeft(st.sweep)
  {
  }

  /** All copies left of the job have the asked schedule, or none of them has. */
  predicate CopiesAre(sweep: Sweep, id: string, asked: string, same: bool) {
    forall job :: job in CopiesLeft(sweep) && job.id == id ==> (job.schedule == asked) == same
  }

  predicate NoCopy(sweep: Sweep, id: string) {
    forall job :: job in CopiesLeft(sweep) ==> job.id != id
  }

  predicate NoLoads(steps: seq<Action>) {
    forall i :: 0 <= i < |steps| ==> !IsLoad(steps[i])
  }

  lemma LoadCopies(cfg: Config, st: State, a: Action, id: string, asked: string)
    requires Keyed(st.store) && Enabled(cfg, st, a) && IsLoad(a) && id in st.store.jobs
    ensures CopiesAre(Step(cfg, st, a).sweep, id, asked, st.store.jobs[id].schedule == asked)
  {
  }

  /** Without a copy and without a new snapshot no sweep writes the job's NextRun. */
  lemma {:induction false} RunNoCopy(cfg: Config, st: State, steps: seq<Action>, id: string)
    requires Run(cfg, st, steps).Some? && NoLoads(steps) && NoCopy(st.sweep, id)
    ensures !WasAdvanced(cfg, st, steps, id) && NoCopy(Run(cfg, st, steps).value.sweep, id)
  {
    hide Enabled, Step, CopiesLeft, AdvancesJob;
    if steps != [] {
      LastStep(cfg, st, steps);
      RunNoCopy(cfg, st, steps[..|steps| - 1], id);
      var before := Before(cfg, st, steps);
      StepCopies(cfg, before, steps[|steps| - 1]);
      if AdvancesJob(before, steps[|steps| - 1], id) {
        AdvancesCopyOf(before, steps[|steps| - 1], id);
      }
    }
  }

  lemma AdvancesCopyOf(st: State, a: Action, id: string)
    requires AdvancesJob(st, a, id)
    ensures !NoCopy(st.sweep, id)
  {
  }

  /** Writes from copies that all agree decide the source. */
  lemma {:induction false} RunCopies(
    cfg: Config, st: State, steps: seq<Action>, id: string, k: Option<nat>, asked: string, same: bool, source: string)
    requires Settled(cfg, st, id, k) && Run(cfg, st, steps).Some? && AllLeave(cfg.lib, steps, id, k)
    requires CopiesAre(st.sweep, id, asked, same)
    requires NoLoads(steps) || (st.store.jobs[id].schedule == asked) == same
    ensures CopiesAre(Run(cfg, st, steps).value.sweep, id, asked, same)
    ensures LastCopy(cfg, st, steps, id, source) == asked
       <==> if WasAdvanced(cfg, st, steps, id) then same else source == asked
  {
    hide Settled, Enabled, Step, Leaves, CopiesLeft, AdvancesJob, CopiesAre;
    if steps != [] {
      var earlier, a := steps[..|steps| - 1], steps[|steps| - 1];
      LastStep(cfg, st, steps);
      RunCopies(cfg, st, earlier, id, k, asked, same, source);
      RunSettled(cfg, st, earlier, id, k);
      CopiesStep(cfg, Before(cfg, st, steps), a, id, k, asked, same);
    }
  }

  lemma CopiesStep(
    cfg: Config, st: State, a: Action, id: string, k: Option<nat>, asked: string, same: bool)
    requires Settled(cfg, st, id, k) && Enabled(cfg, st, a)
    requires CopiesAre(st.sweep, id, asked, same) || IsLoad(a)
    requires IsLoad(a) ==> (st.store.jobs[id].schedule == asked) == same
    ensures CopiesAre(Step(cfg, st, a).sweep, id, asked, same)
    ensures AdvancesJob(st, a, id) ==> (st.sweep.due[st.sweep.next].schedule == asked) == same
  {
    assert Keyed(st.store);
    hide Settled, Enabled, Step, CopiesLeft;
    if IsLoad(a) {
      LoadCopies(cfg, st, a, id, asked);
    } else {
      StepCopies(cfg, st, a);
      if AdvancesJob(st, a, id) {
        AdvancesCopy(st, a, id);
      }
    }
  }

  /** After the first snapshot that shows the asked schedule, every write takes it. */
  lemma {:induction false} RunFresh(
    cfg: Config, st: State, steps: seq<Action>, id: string, asked: string, source: string)
    requires Settled(cfg, st, id, None) && Run(cfg, st, steps).Some? && AllLeave(cfg.lib, steps, id, None)
    requires st.store.jobs[id].schedule == asked && (steps == [] || IsLoad(steps[0]))
    ensures steps != [] ==> CopiesAre(Run(cfg, st, steps).value.sweep, id, asked, true)
    ensures LastCopy(cfg, st, steps, id, source) == asked
       <==> WasAdvanced(cfg, st, steps, id) || source == asked
  {
    hide Settled, Enabled, Step, Leaves, CopiesLeft, CopiesAre;
    if steps != [] {
      var earlier, a := steps[..|steps| - 1], steps[|steps| - 1];
      LastStep(cfg, st, steps);
      RunFresh(cfg, st, earlier, id, asked, source);
      RunSettled(cfg, st, earlier, id, None);
      CopiesStep(cfg, Before(cfg, st, steps), a, id, None, asked, true);
      assert earlier == [] ==> a == steps[0];
    }
  }

  // ---------- a whole reschedule ----------

  /** A reschedule and what happens around it. */
  datatype Course = Course(
    start: State,                                           // before the first write
    id: string, body: map<string, Json>, from: Time,        // the request, and the handler's clock reading
    first: seq<Action>,                                     // the steps between the two writes
    tail: seq<Action>,                                      // after the second write, up to the next snapshot
    rest: seq<Action>)                                      // from that snapshot on
  {
    function NewSchedule(): string
      requires AskedSchedule(body).Some?
    {
      AskedSchedule(body).value
    }

    function FirstWrite(): Action {
      Api(Update(id, body, from))
    }

    function SecondWrite(): Action {
      Api(FinishUpdate(|start.updates|))
    }

    /** The request is valid, and no other update in flight writes the job's schedule. */
    ghost predicate Starts(cfg: Config) {
      && Base(start) && Lawful(cfg, start) && id in start.store.jobs && QuietBut(start.updates, id, None)
      && AskedSchedule(body).Some? && Validate(cfg.lib, NewSchedule()).None?
      && Enabled(cfg, start, FirstWrite())
    }

    ghost function Opened(cfg: Config): State
      requires Starts(cfg)
    {
      Step(cfg, start, FirstWrite())
    }

    /** Nobody else reschedules or deletes the job between the two writes. */
    ghost predicate ReachesSecond(cfg: Config) {
      && Starts(cfg) && AllLeave(cfg.lib, first, id, Some(|start.updates|))
      && var st := Run(cfg, Opened(cfg), first); st.Some? && Enabled(cfg, st.value, SecondWrite())
    }

    ghost function Written(cfg: Config): State
      requires ReachesSecond(cfg)
    {
      Step(cfg, Run(cfg, Opened(cfg), first).value, SecondWrite())
    }

    /** Nor afterwards. */
    ghost predicate Happens(cfg: Config) {
      && ReachesSecond(cfg)
      && AllLeave(cfg.lib, tail, id, None) && NoLoads(tail) && Run(cfg, Written(cfg), tail).Some?
      && AllLeave(cfg.lib, rest, id, None) && (rest == [] || IsLoad(rest[0]))
      && Run(cfg, Run(cfg, Written(cfg), tail).value, rest).Some?
    }

    ghost function AtLoad(cfg: Config): State
      requires Happens(cfg)
    {
      Run(cfg, Written(cfg), tail).value
    }

    ghost function End(cfg: Config): State
      requires Happens(cfg)
    {
      Run(cfg, AtLoad(cfg), rest).value
    }
  }

  lemma OpenedSettled(cfg: Config, c: Course)
    requires c.Starts(cfg)
    ensures var st := c.Opened(cfg);
            && Settled(cfg, st, c.id, Some(|c.start.updates|))
            && st.updates[|c.start.updates|] == PendingUpdate(c.id, DecodedObject(c.body), false)
            && st.trace.origin[c.id] == (c.NewSchedule(), c.from) && st.sweep == c.start.sweep
            && st.store.jobs[c.id].schedule == c.start.store.jobs[c.id].schedule
  {
    hide Base, Lawful, Next;
    StepKeepsBase(cfg, c.start, c.FirstWrite());
    StepKeepsLawful(cfg, c.start, c.FirstWrite());
  }

  lemma SecondWriteSettles(cfg: Config, st: State, id: string, k: nat, asked: string)
    requires Settled(cfg, st, id, Some(k)) && Enabled(cfg, st, Api(FinishUpdate(k)))
    requires st.updates[k].id == id && WritesSchedule(st.updates[k].changes)
    requires st.updates[k].changes["schedule"].s == asked
    ensures var st' := Step(cfg, st, Api(FinishUpdate(k)));
            && Settled(cfg, st', id, None)
            && st'.store.jobs[id].schedule == asked && st'.trace.origin[id] == st.trace.origin[id]
            && st'.sweep == st.sweep
  {
    hide Base, Lawful;
    StepKeepsBase(cfg, st, Api(FinishUpdate(k)));
    StepKeepsLawful(cfg, st, Api(FinishUpdate(k)));
  }

  /** The state after the second write. */
  lemma {:induction false} WrittenSettled(cfg: Config, c: Course)
    requires c.ReachesSecond(cfg)
    ensures var st := c.Written(cfg);
            && Settled(cfg, st, c.id, None) && st.store.jobs[c.id].schedule == c.NewSchedule()
            && st.trace.origin[c.id].0 == LastCopy(cfg, c.Opened(cfg), c.first, c.id, c.NewSchedule())
            && (!WasAdvanced(cfg, c.Opened(cfg), c.first, c.id) ==> st.trace.origin[c.id] == (c.NewSchedule(), c.from))
            && st.sweep == Run(cfg, c.Opened(cfg), c.first).value.sweep
  {
    hide Settled, Step, Run, Enabled, LastCopy, WasAdvanced, AllLeave, Base, Lawful, QuietBut, Validate;
    var k := |c.start.updates|;
    OpenedSettled(cfg, c);
    DecodedSchedule(c.body);
    assert WritesSchedule(DecodedObject(c.body));
    RunSettled(cfg, c.Opened(cfg), c.first, c.id, Some(k));
    SecondWriteSettles(cfg, Run(cfg, c.Opened(cfg), c.first).value, c.id, k, c.NewSchedule());
  }

  /** The job has the asked schedule, and a NextRun computed by `Next` from its source. */
  ghost predicate Carries(cfg: Config, st: State, id: string, asked: string) {
    && id in st.store.jobs && id in st.trace.origin && st.store.jobs[id].schedule == asked
    && st.store.jobs[id].nextRun == Some(Next(cfg.lib, st.trace.origin[id].0, st.trace.origin[id].1))
    && st.trace.origin[id].1 <= st.clock
  }

  lemma SettledCarries(cfg: Config, st: State, id: string, k: Option<nat>)
    requires Settled(cfg, st, id, k)
    ensures Carries(cfg, st, id, st.store.jobs[id].schedule)
  {
  }

  /** After a reschedule, in every interleaving: NextRun comes from the asked schedule if and only if a sweep whose
      snapshot followed the second write has written it, or the last write since the first one by a sweep whose
      snapshot came earlier used a copy with that same schedule, if there was such a write at all. */
  lemma {:induction false} RescheduleKeptIff(cfg: Config, c: Course)
    requires c.Happens(cfg)
    ensures var end := c.End(cfg);
            && Carries(cfg, end, c.id, c.NewSchedule())
            && (end.trace.origin[c.id].0 == c.NewSchedule()
                <==> WasAdvanced(cfg, c.AtLoad(cfg), c.rest, c.id)
                     || LastCopy(cfg, c.Written(cfg), c.tail, c.id,
                                 LastCopy(cfg, c.Opened(cfg), c.first, c.id, c.NewSchedule())) == c.NewSchedule())
  {
    hide Settled, Step, Run, Enabled, LastCopy, WasAdvanced, AllLeave, Base, Lawful, QuietBut, Validate, Carries;
    WrittenSettled(cfg, c);
    RunSettled(cfg, c.Written(cfg), c.tail, c.id, None);
    RunSettled(cfg, c.AtLoad(cfg), c.rest, c.id, None);
    RunFresh(cfg, c.AtLoad(cfg), c.rest, c.id, c.NewSchedule(), c.AtLoad(cfg).trace.origin[c.id].0);
    SettledCarries(cfg, c.End(cfg), c.id, None);
  }

  /** Some sweep whose snapshot preceded the second write has written the job's NextRun since the first write. */
  ghost predicate StaleAdvance(cfg: Config, c: Course)
    requires c.Happens(cfg)
  {
    WasAdvanced(cfg, c.Opened(cfg), c.first, c.id) || WasAdvanced(cfg, c.Written(cfg), c.tail, c.id)
  }

  /** When the asked schedule is new to the job and to the copies of it that the sweep holds, NextRun comes from it
      if and only if no such write has happened, or a sweep with a later snapshot has written NextRun again. */
  lemma {:induction false} NewScheduleKeptIff(cfg: Config, c: Course)
    requires c.Happens(cfg)
    requires c.start.store.jobs[c.id].schedule != c.NewSchedule()
    requires CopiesAre(c.start.sweep, c.id, c.NewSchedule(), false)
    ensures c.id in c.End(cfg).trace.origin
    ensures c.End(cfg).trace.origin[c.id].0 == c.NewSchedule()
       <==> !StaleAdvance(cfg, c) || WasAdvanced(cfg, c.AtLoad(cfg), c.rest, c.id)
  {
    hide Settled, Step, Run, Enabled, LastCopy, WasAdvanced, AllLeave, Base, Lawful, QuietBut, Validate, CopiesAre;
    var k := |c.start.updates|;
    RescheduleKeptIff(cfg, c);
    OpenedSettled(cfg, c);
    RunCopies(cfg, c.Opened(cfg), c.first, c.id, Some(k), c.NewSchedule(), false, c.NewSchedule());
    WrittenSettled(cfg, c);
    RunCopies(cfg, c.Written(cfg), c.tail, c.id, None, c.NewSchedule(), false,
              LastCopy(cfg, c.Opened(cfg), c.first, c.id, c.NewSchedule()));
  }

  /** What a caller can check at the first write, and the absence of a snapshot before the second one: then NextRun
      comes from the asked schedule for good, and until the next snapshot it is the one that the handler wrote. */
  lemma RescheduleSafe(cfg: Config, c: Course)
    requires c.Happens(cfg) && NoCopy(c.start.sweep, c.id) && NoLoads(c.first)
    ensures Carries(cfg, c.End(cfg), c.id, c.NewSchedule()) && c.End(cfg).trace.origin[c.id].0 == c.NewSchedule()
    ensures c.id in c.AtLoad(cfg).store.jobs
    ensures c.AtLoad(cfg).store.jobs[c.id].nextRun == Some(Next(cfg.lib, c.NewSchedule(), c.from))
  {
    hide Settled, Step, Run, Enabled, LastCopy, AllLeave, Base, Lawful, QuietBut, Validate, NoCopy, Next;
    RescheduleKeptIff(cfg, c);
    OpenedSettled(cfg, c);
    RunNoCopy(cfg, c.Opened(cfg), c.first, c.id);
    WrittenSettled(cfg, c);
    RunNoCopy(cfg, c.Written(cfg), c.tail, c.id);
    RunSettled(cfg, c.Written(cfg), c.tail, c.id, None);
    SettledCarries(cfg, c.AtLoad(cfg), c.id, None);
    UnadvancedKeeps(cfg, c.Opened(cfg), c.first, c.id, c.NewSchedule());
    UnadvancedKeeps(cfg, c.Written(cfg), c.tail, c.id, c.NewSchedule());
  }

  lemma {:induction false} UnadvancedKeeps(cfg: Config, st: State, steps: seq<Action>, id: string, source: string)
    requires Run(cfg, st, steps).Some? && !WasAdvanced(cfg, st, steps, id)
    ensures LastCopy(cfg, st, steps, id, source) == source
  {
    hide Enabled, Step, AdvancesJob;
    if steps != [] {
      LastStep(cfg, st, steps);
      UnadvancedKeeps(cfg, st, steps[..|steps| - 1], id, source);
    }
  }

  // ---------- jobs created during a sweep ----------

  /** The job's NextRun and status at the end of a run without a write by the sweep. */
  lemma {:induction false} UnadvancedLook(cfg: Config, st: State, steps: seq<Action>, id: string)
    requires Settled(cfg, st, id, None) && Run(cfg, st, steps).Some? && AllLeave(cfg.lib, steps, id, None)
    requires !WasAdvanced(cfg, st, steps, id)
    ensures var s, s' := st.store, Run(cfg, st, steps).value.store;
            SameTerms(s, s', id) && s'.jobs[id].nextRun == s.jobs[id].nextRun
    ensures var end := Run(cfg, st, steps).value;
            Settled(cfg, end, id, None) && st.trace.origin[id].1 <= end.clock
  {
    hide Settled, Step, Run, Enabled, WasAdvanced, AllLeave, Next;
    RunSettled(cfg, st, steps, id, None);
    SettledCarries(cfg, st, id, None);
    SettledCarries(cfg, Run(cfg, st, steps).value, id, None);
  }

  /** A job that is created at any time, even while a sweep is in progress, keeps the NextRun of its creation until
      that sweep ends: from there on it can be watched, counted from the handler's clock reading. */
  lemma {:induction false} NewJobWaits(
    cfg: Config, st: State, request: JobRequest, from: Time, stamp: nat, steps: seq<Action>)
    requires Base(st) && Lawful(cfg, st) && Enabled(cfg, st, Api(Create(request, from, stamp)))
    requires Validate(cfg.lib, request.schedule).None?
    requires var st', id := Step(cfg, st, Api(Create(request, from, stamp))), NewId("job", stamp, st.store.counter);
             && QuietBut(st.updates, id, None)
             && Run(cfg, st', steps).Some? && AllLeave(cfg.lib, steps, id, None) && NoLoads(steps)
    ensures var st', id := Step(cfg, st, Api(Create(request, from, stamp))), NewId("job", stamp, st.store.counter);
            var end := Run(cfg, st', steps).value;
            && id !in st.store.jobs && from <= end.clock
            && Look(end.store, id, request.schedule, Next(cfg.lib, request.schedule, from))
            && (BetweenSweeps(end.sweep) ==> Watchable(end, id))
  {
    hide Run, Base, Lawful, Next, NewId, Validate, AllLeave, Enabled, Step, WasAdvanced, NoCopy;
    var create, id := Api(Create(request, from, stamp)), NewId("job", stamp, st.store.counter);
    CreatedSettled(cfg, st, request, from, stamp);
    var st' := Step(cfg, st, create);
    RunNoCopy(cfg, st', steps, id);
    UnadvancedLook(cfg, st', steps, id);
  }

  lemma CreatedSettled(cfg: Config, st: State, request: JobRequest, from: Time, stamp: nat)
    requires Base(st) && Lawful(cfg, st) && Enabled(cfg, st, Api(Create(request, from, stamp)))
    requires Validate(cfg.lib, request.schedule).None?
    requires QuietBut(st.updates, NewId("job", stamp, st.store.counter), None)
    ensures var st', id := Step(cfg, st, Api(Create(request, from, stamp))), NewId("job", stamp, st.store.counter);
            && id !in st.store.jobs && Settled(cfg, st', id, None) && NoCopy(st'.sweep, id)
            && st'.trace.origin[id].1 == from
            && Look(st'.store, id, request.schedule, Next(cfg.lib, request.schedule, from))
  {
    hide Base, Lawful, Next, NewId, Validate, NoCopy, CreateJob;
    var create, id := Api(Create(request, from, stamp)), NewId("job", stamp, st.store.counter);
    StepKeepsBase(cfg, st, create);
    StepKeepsLawful(cfg, st, create);
    BaseStored(st, NewJob(cfg.lib, request, from), stamp);
    UnknownHasNoCopy(st, id);
  }

  lemma BaseStored(st: State, job: Job, stamp: nat)
    requires Base(st) && job.id == ""
    ensures var id := NewId("job", stamp, st.store.counter);
            && id !in st.store.jobs
            && CreateJob(st.store, job, stamp, st.clock).0.jobs
               == st.store.jobs[id := job.(id := id, createdAt := st.clock, updatedAt := st.clock, status := Active)]
  {
    hide NewId;
    NewJobStored(st.store, job, stamp, st.clock, st.clock);
  }

  /** A sweep has no copy of a job that is not stored. */
  lemma UnknownHasNoCopy(st: State, id: string)
    requires Base(st) && id !in st.store.jobs
    ensures NoCopy(st.sweep, id)
  {
  }

  // ---------- the race of the two writes ----------

  predicate Live(st: State) {
    !st.panicked && st.main != Done
  }

  lemma FirstWriteEffect(cfg: Config, st: State, id: string, body: map<string, Json>, from: Time)
    requires Live(st) && from <= st.clock
    requires AskedSchedule(body).Some? && Validate(cfg.lib, AskedSchedule(body).value).None?
    ensures Enabled(cfg, st, Api(Update(id, body, from)))
    ensures var st' := Step(cfg, st, Api(Update(id, body, from)));
            && Live(st') && st'.sweep == st.sweep && st'.clock == st.clock
            && st'.store == UpdateJobNextRun(st.store, id, Next(cfg.lib, AskedSchedule(body).value, from), st.clock)
            && st'.updates == st.updates + [PendingUpdate(id, DecodedObject(body), false)]
  {
    hide Next;
  }

  lemma SweepWriteEffect(cfg: Config, st: State)
    requires Live(st) && st.sweep.Advancing? && st.sweep.next < |st.sweep.due|
    requires Validate(cfg.lib, st.sweep.due[st.sweep.next].schedule).None?
    ensures Enabled(cfg, st, Scheduler(Advance))
    ensures var st', job := Step(cfg, st, Scheduler(Advance)), st.sweep.due[st.sweep.next];
            && Live(st') && st'.updates == st.updates && st'.clock == st.clock
            && st'.store == UpdateJobNextRun(st.store, job.id, Next(cfg.lib, job.schedule, st.sweep.now), st.clock)
  {
    AdvanceStep(cfg, st);
  }

  lemma SecondWriteEffect(cfg: Config, st: State, k: nat)
    requires Live(st) && k < |st.updates| && !st.updates[k].finished
    ensures Enabled(cfg, st, Api(FinishUpdate(k)))
    ensures var st' := Step(cfg, st, Api(FinishUpdate(k)));
            && Live(st') && st'.updates == st.updates[k := st.updates[k].(finished := true)] && st'.clock == st.clock
            && st'.store == UpdateJob(st.store, st.updates[k].id, st.updates[k].changes, st.clock)
  {
  }

  /** The steps of a reschedule with the sweep's write between its two writes. */
  function RaceSteps(id: string, body: map<string, Json>, from: Time, k: nat): seq<Action> {
    [Api(Update(id, body, from)), Scheduler(Advance), Api(FinishUpdate(k))]
  }

  lemma {:induction false} RunThree(cfg: Config, st: State, a: Action, b: Action, c: Action)
    requires Enabled(cfg, st, a) && Enabled(cfg, Step(cfg, st, a), b)
    requires Enabled(cfg, Step(cfg, Step(cfg, st, a), b), c)
    ensures Run(cfg, st, [a, b, c]) == Some(Step(cfg, Step(cfg, Step(cfg, st, a), b), c))
  {
    hide Enabled, Step;
    var none: seq<Action> := [];
    assert [a][..0] == none && [a, b][..1] == [a] && [a, b, c][..2] == [a, b];
    assert Run(cfg, st, none) == Some(st);
    assert Run(cfg, st, [a]) == Some(Step(cfg, st, a));
    assert Run(cfg, st, [a, b]) == Some(Step(cfg, Step(cfg, st, a), b));
  }

  /** From every state in which the sweep is about to write a job's NextRun, a reschedule of that job can end with
      the new schedule and a NextRun computed from the old one. */
  lemma {:induction false} RescheduleRace(cfg: Config, st: State, body: map<string, Json>, from: Time)
    requires Base(st) && Lawful(cfg, st) && Live(st)
    requires st.sweep.Advancing? && st.sweep.next < |st.sweep.due|
    requires AskedSchedule(body).Some? && Validate(cfg.lib, AskedSchedule(body).value).None? && from <= st.clock
    ensures var job := st.sweep.due[st.sweep.next];
            var end := Run(cfg, st, RaceSteps(job.id, body, from, |st.updates|));
            && end.Some? && job.id in end.value.store.jobs
            && end.value.store.jobs[job.id].schedule == AskedSchedule(body).value
            && end.value.store.jobs[job.id].nextRun == Some(Next(cfg.lib, job.schedule, st.sweep.now))
  {
    hide Base, Lawful, Next, Enabled, Step, Run;
    HeldAsked(cfg, st);
    DecodedSchedule(body);
    var job, k := st.sweep.due[st.sweep.next], |st.updates|;
    var a, b, c := Api(Update(job.id, body, from)), Scheduler(Advance), Api(FinishUpdate(k));
    FirstWriteEffect(cfg, st, job.id, body, from);
    SweepWriteEffect(cfg, Step(cfg, st, a));
    SecondWriteEffect(cfg, Step(cfg, Step(cfg, st, a), b), k);
    RunThree(cfg, st, a, b, c);
  }

  /** Without any sweep, two overlapping reschedules can end with the schedule of the one and the NextRun of the
      other. */
  lemma OverlappingReschedules(
    cfg: Config, st: State, id: string, a: map<string, Json>, b: map<string, Json>, fromA: Time, fromB: Time)
    returns (steps: seq<Action>)
    requires Live(st) && id in st.store.jobs && fromA <= st.clock && fromB <= st.clock
    requires AskedSchedule(a).Some? && Validate(cfg.lib, AskedSchedule(a).value).None?
    requires AskedSchedule(b).Some? && Validate(cfg.lib, AskedSchedule(b).value).None?
    ensures Run(cfg, st, steps).Some?
    ensures var end := Run(cfg, st, steps).value;
            && id in end.store.jobs
            && end.store.jobs[id].schedule == AskedSchedule(a).value
            && end.store.jobs[id].nextRun == Some(Next(cfg.lib, AskedSchedule(b).value, fromB))
  {
    hide Next, Enabled, Step, Validate;
    var k := |st.updates|;
    DecodedSchedule(a);
    var none: seq<Action> := [];
    assert Run(cfg, st, none) == Some(st);
    FirstWriteEffect(cfg, st, id, a, fromA);
    AppendStep(cfg, st, none, Api(Update(id, a, fromA)));
    steps := none + [Api(Update(id, a, fromA))];
    FirstWriteEffect(cfg, Run(cfg, st, steps).value, id, b, fromB);
    AppendStep(cfg, st, steps, Api(Update(id, b, fromB)));
    steps := steps + [Api(Update(id, b, fromB))];
    SecondWriteEffect(cfg, Run(cfg, st, steps).value, k + 1);
    AppendStep(cfg, st, steps, Api(FinishUpdate(k + 1)));
    steps := steps + [Api(FinishUpdate(k + 1))];
    SecondWriteEffect(cfg, Run(cfg, st, steps).value, k);
    AppendStep(cfg, st, steps, Api(FinishUpdate(k)));
    steps := steps + [Api(FinishUpdate(k))];
  }
}
