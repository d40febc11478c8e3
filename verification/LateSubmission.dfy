/** When the one submission that may follow a delete does happen. */
module LateSubmission {
  import opened Common
  import opened Models
  import opened StoreSpec
  import opened Pipeline
  import opened PipelineInvariant
  import opened Deletion
  import opened Shutdown

  /** The place of the first job with this id. */
  function IndexOf(jobs: seq<Job>, id: string): (i: nat)
    ensures i <= |jobs| && (i < |jobs| ==> jobs[i].id == id)
    ensures forall k :: 0 <= k < i ==> jobs[k].id != id
    ensures CountId(jobs, id) > 0 ==> i < |jobs|
  {
    if jobs == [] then 0
    else
      var i := IndexOf(jobs[..|jobs| - 1], id);
      if i < |jobs| - 1 then i
      else if jobs[|jobs| - 1].id == id then |jobs| - 1
      else |jobs|
  }

  /** The earliest time at which a filter may find the copy due. */
  function DueTime(st: State, job: Job): Time
    requires job.nextRun.Some?
  {
    if st.clock <= job.nextRun.value then job.nextRun.value else st.clock
  }

  /** How many jobs the sweep submits before this one, at the earliest; None if it will not find it due. */
  function Ahead(st: State, id: string): Option<nat> {
    match st.sweep
    case Submitting(_, due, next) => if next <= |due| then Some(IndexOf(due[next..], id)) else None
    case Loaded(jobs) =>
      var i := IndexOf(jobs, id);
      if i < |jobs| && jobs[i].nextRun.Some? then Some(|DueJobs(jobs[..i], DueTime(st, jobs[i]))|) else None
    case _ => None
  }

  predicate AllGone(workers: seq<Worker>) {
    forall w :: 0 <= w < |workers| ==> workers[w].Left?
  }

  /** The job's turn can come: the queue never blocks, or a worker can still make room, or there is room enough. */
  predicate TurnCanCome(cfg: Config, st: State, id: string) {
    && Ahead(st, id).Some?
    && (cfg.kind == Optimized || !AllGone(st.pool.workers)
        || |st.pool.queue| + Ahead(st, id).value < cfg.capacity)
  }

  /** A run with one more submission of the job. */
  ghost predicate SubmitsLate(cfg: Config, st: State, steps: seq<Action>, id: string) {
    && Run(cfg, st, steps).Some?
    && SubmissionsOf(Run(cfg, st, steps).value.trace.log, id) == SubmissionsOf(st.trace.log, id) + 1
  }

  // ---------- making room ----------

  /** The sweep and what was submitted are the same, and the service is in order. */
  predicate SameSubmissions(cfg: Config, st: State, st': State) {
    Orderly(cfg, st') && st'.sweep == st.sweep && st'.trace.log == st.trace.log
  }

  /** The next step of a worker that goes on working. */
  function Onward(cfg: Config, st: State, w: nat): PoolAction
    requires w < |st.pool.workers|
  {
    match st.pool.workers[w]
    case Running(_, _) =>
      if cfg.kind == Standard then Record(w, Failed(""), 0, st.clock, 0) else Spawn(w, Failed(""), 0)
    case Touching(_, _, _) => Touch(w)
    case Counting(_) => Count(w)
    case _ => Take(w)
  }

  predicate GoneOn(st: State, st': State, w: nat)
    requires w < |st.pool.workers| && (st.pool.workers[w].Idle? ==> st.pool.queue != [])
  {
    && st'.sweep == st.sweep && st'.trace.log == st.trace.log && st'.main == st.main
    && |st'.pool.workers| == |st.pool.workers| && !st'.pool.workers[w].Left?
    && if st.pool.workers[w].Idle? then st'.pool.queue == st.pool.queue[1..]
       else st'.pool.queue == st.pool.queue && WorkerSteps(st'.pool.workers[w]) < WorkerSteps(st.pool.workers[w])
  }

  lemma OnwardEffect(cfg: Config, st: State, w: nat)
    requires w < |st.pool.workers| && !st.pool.workers[w].Left? && PoolEnabled(cfg, st, Onward(cfg, st, w))
    ensures GoneOn(st, PoolEffect(cfg, st, Onward(cfg, st, w)), w)
  {
    hide PoolEffect;
    var a := Onward(cfg, st, w);
    WorkerShape(cfg, st, a);
    PoolShape(cfg, st, a);
    OwnWorkerCounts(cfg, st, a);
  }

  lemma GoesOn(cfg: Config, st: State, w: nat)
    requires Orderly(cfg, st) && w < |st.pool.workers| && !st.pool.workers[w].Left? && st.pool.queue != []
    ensures PoolEnabled(cfg, st, Onward(cfg, st, w))
    ensures var st' := PoolStep(cfg, st, Onward(cfg, st, w)); GoneOn(st, st', w) && Orderly(cfg, st')
  {
    hide Orderly, PoolEffect, PoolCall, Perform, Onward;
    OnwardEnabled(cfg, st, w);
    OnwardEffect(cfg, st, w);
    PoolKeepsOrder(cfg, st, Onward(cfg, st, w));
  }

  lemma OnwardEnabled(cfg: Config, st: State, w: nat)
    requires Orderly(cfg, st) && w < |st.pool.workers| && !st.pool.workers[w].Left? && st.pool.queue != []
    ensures PoolEnabled(cfg, st, Onward(cfg, st, w))
  {
  }

  /** A worker that has not left can finish its work and take the next job. */
  lemma {:induction false} MakeRoom(cfg: Config, st: State, w: nat) returns (steps: seq<Action>)
    requires Orderly(cfg, st) && st.main != Done
    requires w < |st.pool.workers| && !st.pool.workers[w].Left? && st.pool.queue != []
    ensures Run(cfg, st, steps).Some?
    ensures var end := Run(cfg, st, steps).value;
            && SameSubmissions(cfg, st, end) && end.pool.queue == st.pool.queue[1..]
            && w < |end.pool.workers| && !end.pool.workers[w].Left? && end.main == st.main
    decreases WorkerSteps(st.pool.workers[w]) + (if st.pool.workers[w].Idle? then 0 else 1)
  {
    hide Orderly;
    var a := Executor(Onward(cfg, st, w));
    GoesOn(cfg, st, w);
    OrderlyLive(cfg, st);
    var st' := Step(cfg, st, a);
    var rest: seq<Action> := [];
    if !st.pool.workers[w].Idle? {
      rest := MakeRoom(cfg, st', w);
    } else {
      assert Run(cfg, st', rest) == Some(st');
    }
    PrependStep(cfg, st, a, rest);
    steps := [a] + rest;
  }

  lemma OrderlyLive(cfg: Config, st: State)
    requires Orderly(cfg, st)
    ensures !st.panicked && (!st.sweep.Returned? ==> !st.QueueCloses() && st.main != ClosingQueue)
  {
  }

  // ---------- submitting up to the job ----------

  predicate CanReach(cfg: Config, st: State, n: nat) {
    && st.sweep.Submitting? && st.sweep.next <= n <= |st.sweep.due|
    && (cfg.kind == Optimized || !AllGone(st.pool.workers) || |st.pool.queue| + (n - st.sweep.next) <= cfg.capacity)
  }

  lemma SubmitAhead(cfg: Config, st: State, n: nat)
    requires Orderly(cfg, st) && CanReach(cfg, st, n) && st.sweep.next < n
    requires cfg.kind == Optimized || |st.pool.queue| < cfg.capacity
    ensures Enabled(cfg, st, Scheduler(Submit))
    ensures var st', next := Step(cfg, st, Scheduler(Submit)), st.sweep.next;
            && Orderly(cfg, st') && CanReach(cfg, st', n)
            && st'.sweep == Submitting(st.sweep.now, st.sweep.due, next + 1)
            && st'.trace.log == st.trace.log + [Submission(|st.trace.log|, st.sweep.due[next], st.sweep.now)]
  {
    SweepKeepsOrder(cfg, st, Submit);
  }

  /** The sweep can go on to its n-th submission. */
  lemma {:induction false} SubmitUpTo(cfg: Config, st: State, n: nat, id: string) returns (steps: seq<Action>)
    requires cfg.Valid() && Orderly(cfg, st) && CanReach(cfg, st, n)
    ensures Run(cfg, st, steps).Some?
    ensures SubmissionsOf(Run(cfg, st, steps).value.trace.log, id)
            == SubmissionsOf(st.trace.log, id) + CountId(st.sweep.due[st.sweep.next..n], id)
    decreases n - st.sweep.next, |st.pool.queue|
  {
    hide Orderly, Enabled, Step;
    var due, next := st.sweep.due, st.sweep.next;
    OrderlyLive(cfg, st);
    if next == n {
      steps := [];
    } else if cfg.kind == Standard && |st.pool.queue| >= cfg.capacity {
      var w: nat :| w < |st.pool.workers| && !st.pool.workers[w].Left?;
      var room := MakeRoom(cfg, st, w);
      var st' := Run(cfg, st, room).value;
      assert !AllGone(st'.pool.workers);
      var rest := SubmitUpTo(cfg, st', n, id);
      RunSplits(cfg, st, room, rest);
      steps := room + rest;
    } else {
      SubmitAhead(cfg, st, n);
      var st' := Step(cfg, st, Scheduler(Submit));
      CountAppended(st.trace.log, Submission(|st.trace.log|, due[next], st.sweep.now), id);
      CountFirst(due[next..n], id);
      assert due[next..n][1..] == due[next + 1..n];
      var rest := SubmitUpTo(cfg, st', n, id);
      PrependStep(cfg, st, Scheduler(Submit), rest);
      steps := [Scheduler(Submit)] + rest;
    }
  }

  /** Up to and including the job itself. */
  lemma SubmitIt(cfg: Config, st: State, id: string) returns (steps: seq<Action>)
    requires cfg.Valid() && Orderly(cfg, st) && st.sweep.Submitting? && InFlight(st.sweep, id) == 1
    requires TurnCanCome(cfg, st, id)
    ensures SubmitsLate(cfg, st, steps, id)
  {
    hide Orderly;
    var left := st.sweep.due[st.sweep.next..];
    var i := IndexOf(left, id);
    CountUpTo(left, id, i);
    assert st.sweep.due[st.sweep.next..st.sweep.next + i + 1] == left[..i + 1];
    steps := SubmitUpTo(cfg, st, st.sweep.next + i + 1, id);
  }

  lemma {:induction false} CountUpTo(jobs: seq<Job>, id: string, i: nat)
    requires CountId(jobs, id) == 1 && i == IndexOf(jobs, id)
    ensures i < |jobs| && CountId(jobs[..i + 1], id) == 1
  {
    CountNone(jobs[..i], id);
    assert jobs[..i + 1][..i] == jobs[..i];
  }

  // ---------- from the snapshot on ----------

  lemma {:induction false} DueSplits(jobs: seq<Job>, i: nat, now: Time)
    requires i <= |jobs|
    ensures DueJobs(jobs, now) == DueJobs(jobs[..i], now) + DueJobs(jobs[i..], now)
  {
    if i < |jobs| {
      var n := |jobs| - 1;
      DueSplits(jobs[..n], i, now);
      assert jobs[..n][..i] == jobs[..i] && jobs[..n][i..] == jobs[i..][..n - i];
    } else {
      assert jobs[..i] == jobs;
    }
  }

  lemma {:induction false} DueFirst(job: Job, rest: seq<Job>, now: Time)
    requires IsDue(job, now)
    ensures DueJobs([job] + rest, now) == [job] + DueJobs(rest, now)
  {
    DueSplits([job] + rest, 1, now);
    assert ([job] + rest)[..1] == [job] && ([job] + rest)[1..] == rest;
    assert [job][..0] == [];
  }

  lemma {:induction false} IndexIs(jobs: seq<Job>, id: string, i: nat)
    requires i < |jobs| && jobs[i].id == id && forall k :: 0 <= k < i ==> jobs[k].id != id
    ensures IndexOf(jobs, id) == i
  {
  }

  /** A copy that is due keeps its place among the due ones. */
  lemma {:induction false} FilteredPlace(jobs: seq<Job>, id: string, now: Time)
    requires CountId(jobs, id) == 1 && IsDue(jobs[IndexOf(jobs, id)], now)
    ensures IndexOf(DueJobs(jobs, now), id) == |DueJobs(jobs[..IndexOf(jobs, id)], now)|
    ensures CountId(DueJobs(jobs, now), id) == 1
  {
    var i := IndexOf(jobs, id);
    var before, rest := DueJobs(jobs[..i], now), DueJobs(jobs[i + 1..], now);
    DueSplits(jobs, i, now);
    assert jobs[i..] == [jobs[i]] + jobs[i + 1..];
    DueFirst(jobs[i], jobs[i + 1..], now);
    var due := DueJobs(jobs, now);
    assert due == before + [jobs[i]] + rest;
    DueFromSnapshot(jobs[..i], now);
    forall k | 0 <= k < |before|
      ensures due[k].id != id
    {
      assert before[k] in jobs[..i];
    }
    IndexIs(due, id, |before|);
    CountDue(jobs, now, id);
    CountSome(due, id, |before|);
  }

  lemma {:induction false} CountSome(jobs: seq<Job>, id: string, i: nat)
    requires i < |jobs| && jobs[i].id == id
    ensures CountId(jobs, id) >= 1
  {
    if i < |jobs| - 1 {
      CountSome(jobs[..|jobs| - 1], id, i);
    }
  }

  lemma {:induction false} FilterKeepsIt(cfg: Config, st: State, id: string)
    requires st.sweep.Loaded? && InFlight(st.sweep, id) == 1
    requires IsDue(st.sweep.jobs[IndexOf(st.sweep.jobs, id)], st.clock)
    ensures var st' := SweepStep(cfg, st, Filter);
            && st'.sweep.Submitting? && InFlight(st'.sweep, id) == 1 && Ahead(st', id) == Ahead(st, id)
            && st'.pool == st.pool && st'.trace.log == st.trace.log
  {
    hide DueJobs, IndexOf, CountId;
    FilteredPlace(st.sweep.jobs, id, st.clock);
    var due := DueJobs(st.sweep.jobs, st.clock);
    assert due[0..] == due;
  }

  /** Wait until the copy is due. */
  lemma WaitForIt(cfg: Config, st: State, id: string) returns (t: Time)
    requires Orderly(cfg, st) && st.sweep.Loaded? && InFlight(st.sweep, id) == 1 && Ahead(st, id).Some?
    ensures st.clock <= t && Orderly(cfg, st.(clock := t)) && Ahead(st.(clock := t), id) == Ahead(st, id)
    ensures IsDue(st.sweep.jobs[IndexOf(st.sweep.jobs, id)], t)
  {
    hide Orderly, DueJobs, CountId;
    t := DueTime(st, st.sweep.jobs[IndexOf(st.sweep.jobs, id)]);
    ClockKeepsOrder(cfg, st, t);
  }

  /** Wait until the copy is due, and filter. */
  lemma FilterIt(cfg: Config, st: State, id: string) returns (steps: seq<Action>)
    requires Orderly(cfg, st) && st.sweep.Loaded? && InFlight(st.sweep, id) == 1 && Ahead(st, id).Some?
    ensures Run(cfg, st, steps).Some?
    ensures var end := Run(cfg, st, steps).value;
            && Orderly(cfg, end) && end.sweep.Submitting? && InFlight(end.sweep, id) == 1
            && Ahead(end, id) == Ahead(st, id) && end.pool == st.pool && end.trace.log == st.trace.log
  {
    hide Orderly, DueJobs, Ahead, InFlight, IsDue, IndexOf, SweepStep, Run;
    var t := WaitForIt(cfg, st, id);
    OrderlyLive(cfg, st);
    var st' := st.(clock := t);
    SweepKeepsOrder(cfg, st', Filter);
    FilterKeepsIt(cfg, st', id);
    StayPut(cfg, SweepStep(cfg, st', Filter));
    PrependStep(cfg, st', Scheduler(Filter), []);
    PrependStep(cfg, st, Tick(t), [Scheduler(Filter)] + []);
    steps := [Tick(t)] + ([Scheduler(Filter)] + []);
  }

  lemma {:induction false} StayPut(cfg: Config, st: State)
    ensures Run(cfg, st, []) == Some(st)
  {
  }

  lemma TurnComes(cfg: Config, st: State, id: string) returns (steps: seq<Action>)
    requires cfg.Valid() && Orderly(cfg, st) && InFlight(st.sweep, id) == 1 && TurnCanCome(cfg, st, id)
    ensures SubmitsLate(cfg, st, steps, id)
  {
    hide Orderly, Run;
    if st.sweep.Submitting? {
      steps := SubmitIt(cfg, st, id);
    } else {
      var filter := FilterIt(cfg, st, id);
      var rest := SubmitIt(cfg, Run(cfg, st, filter).value, id);
      RunSplits(cfg, st, filter, rest);
      steps := filter + rest;
    }
  }

  // ---------- when the turn never comes ----------

  /** The job will not be submitted any more. */
  predicate Hopeless(cfg: Config, st: State, id: string) {
    InFlight(st.sweep, id) == 0 || (InFlight(st.sweep, id) == 1 && !TurnCanCome(cfg, st, id))
  }

  /** The submissions of the job stay as many as they are. */
  predicate StaysHopeless(cfg: Config, st: State, st': State, id: string) {
    Hopeless(cfg, st', id) && SubmissionsOf(st'.trace.log, id) == SubmissionsOf(st.trace.log, id)
  }

  lemma {:induction false} DueGrows(jobs: seq<Job>, now: Time, later: Time)
    requires now <= later
    ensures |DueJobs(jobs, now)| <= |DueJobs(jobs, later)|
  {
    if jobs != [] {
      DueGrows(jobs[..|jobs| - 1], now, later);
    }
  }

  lemma {:induction false} NotDueNotCounted(jobs: seq<Job>, id: string, now: Time)
    requires CountId(jobs, id) == 1 && !IsDue(jobs[IndexOf(jobs, id)], now)
    ensures CountId(DueJobs(jobs, now), id) == 0
  {
    var i := IndexOf(jobs, id);
    CountOther(jobs, id, i);
    DueFromSnapshot(jobs, now);
    forall k | 0 <= k < |DueJobs(jobs, now)|
      ensures DueJobs(jobs, now)[k].id != id
    {
      var job := DueJobs(jobs, now)[k];
      assert job in jobs && IsDue(job, now);
    }
    CountNone(DueJobs(jobs, now), id);
  }

  /** Only one place holds the job. */
  lemma {:induction false} CountOther(jobs: seq<Job>, id: string, i: nat)
    requires CountId(jobs, id) == 1 && i < |jobs| && jobs[i].id == id
    ensures forall k :: 0 <= k < |jobs| && k != i ==> jobs[k].id != id
  {
    var n := |jobs| - 1;
    if jobs[n].id != id {
      CountOther(jobs[..n], id, i);
    } else if i < n {
      CountSome(jobs[..n], id, i);
    } else {
      forall k | 0 <= k < n
        ensures jobs[k].id != id
      {
        if jobs[k].id == id {
          CountSome(jobs[..n], id, k);
        }
      }
    }
  }

  /** A step that leaves sweep, queue and gone workers alone does not help. */
  lemma NoHelp(cfg: Config, st: State, st': State, id: string)
    requires Hopeless(cfg, st, id)
    requires st'.sweep == st.sweep && st'.trace.log == st.trace.log && st.clock <= st'.clock
    requires cfg.kind == Standard && AllGone(st.pool.workers) ==>
               AllGone(st'.pool.workers) && st'.pool.queue == st.pool.queue
    ensures StaysHopeless(cfg, st, st', id)
  {
    hide DueJobs, IndexOf, CountId, SubmissionsOf;
    if st.sweep.Loaded? {
      var jobs := st.sweep.jobs;
      var i := IndexOf(jobs, id);
      if i < |jobs| && jobs[i].nextRun.Some? {
        DueGrows(jobs[..i], DueTime(st, jobs[i]), DueTime(st', jobs[i]));
      }
    }
  }

  lemma FilterNoHelp(cfg: Config, st: State, id: string)
    requires Hopeless(cfg, st, id) && SweepEnabled(cfg, st, Filter)
    ensures StaysHopeless(cfg, st, SweepStep(cfg, st, Filter), id)
  {
    hide DueJobs, IndexOf, CountId, SubmissionsOf, AllGone;
    var jobs, due := st.sweep.jobs, DueJobs(st.sweep.jobs, st.clock);
    assert due[0..] == due;
    if InFlight(st.sweep, id) == 0 {
      CountDue(jobs, st.clock, id);
    } else {
      IndexInBounds(jobs, id);
      if IsDue(jobs[IndexOf(jobs, id)], st.clock) {
        FilterKeepsIt(cfg, st, id);
      } else {
        NotDueNotCounted(jobs, id, st.clock);
      }
    }
  }

  lemma {:induction false} IndexInBounds(jobs: seq<Job>, id: string)
    requires CountId(jobs, id) > 0
    ensures IndexOf(jobs, id) < |jobs|
  {
  }

  lemma SubmitEffect(cfg: Config, st: State)
    requires SweepEnabled(cfg, st, Submit) && !st.QueueCloses() && st.sweep.next < |st.sweep.due|
    ensures var st' := SweepStep(cfg, st, Submit);
            && st'.sweep == Submitting(st.sweep.now, st.sweep.due, st.sweep.next + 1)
            && st'.trace.log == st.trace.log + [Submission(|st.trace.log|, st.sweep.due[st.sweep.next], st.sweep.now)]
            && st'.pool.workers == st.pool.workers
            && (|st.pool.queue| < cfg.capacity ==> |st'.pool.queue| == |st.pool.queue| + 1)
  {
  }

  /** What is submitted before the job takes the room that it would need. */
  lemma SubmitNoHelp(cfg: Config, st: State, id: string)
    requires Hopeless(cfg, st, id) && SweepEnabled(cfg, st, Submit) && !st.QueueCloses()
    ensures StaysHopeless(cfg, st, SweepStep(cfg, st, Submit), id)
  {
    hide CountId, SubmissionsOf, AllGone, SweepStep, IndexOf;
    var due, next := st.sweep.due, st.sweep.next;
    if next == |due| {
      AllSubmitted(cfg, st, id);
    } else {
      SubmitEffect(cfg, st);
      SubmitCounts(cfg, st, id);
      CountAppended(st.trace.log, Submission(|st.trace.log|, due[next], st.sweep.now), id);
      if InFlight(st.sweep, id) == 1 {
        IndexTail(due[next..], id);
        assert due[next..][1..] == due[next + 1..];
      }
    }
  }

  lemma AllSubmitted(cfg: Config, st: State, id: string)
    requires SweepEnabled(cfg, st, Submit) && st.sweep.next == |st.sweep.due|
    ensures StaysHopeless(cfg, st, SweepStep(cfg, st, Submit), id)
  {
  }

  lemma {:induction false} IndexTail(jobs: seq<Job>, id: string)
    requires CountId(jobs, id) > 0
    ensures IndexOf(jobs, id) < |jobs|
    ensures IndexOf(jobs, id) > 0 ==> jobs[0].id != id && IndexOf(jobs[1..], id) == IndexOf(jobs, id) - 1
  {
    var i := IndexOf(jobs, id);
    if i > 0 {
      IndexIs(jobs[1..], id, i - 1);
    }
  }

  lemma SweepNoHelp(cfg: Config, st: State, a: SweepAction, id: string)
    requires Base(st) && Orderly(cfg, st) && IsDeleted(st.store, id) && Hopeless(cfg, st, id)
    requires SweepEnabled(cfg, st, a)
    ensures StaysHopeless(cfg, st, SweepStep(cfg, st, a), id)
  {
    match a
    case Filter => FilterNoHelp(cfg, st, id);
    case Submit => SubmitNoHelp(cfg, st, id);
    case Load(order) => SweepAfterDelete(cfg, st, a, id);
    case Advance =>
    case Return =>
  }

  lemma PoolNoHelp(cfg: Config, st: State, a: PoolAction, id: string)
    requires Hopeless(cfg, st, id) && PoolEnabled(cfg, st, a)
    ensures StaysHopeless(cfg, st, PoolStep(cfg, st, a), id)
  {
    hide Hopeless, StaysHopeless;
    PoolLeavesSchedules(cfg, st, a);
    NoHelp(cfg, st, PoolStep(cfg, st, a), id);
  }

  lemma StepNoHelp(cfg: Config, st: State, a: Action, id: string)
    requires Base(st) && Orderly(cfg, st) && IsDeleted(st.store, id) && Hopeless(cfg, st, id) && Enabled(cfg, st, a)
    ensures StaysHopeless(cfg, st, Step(cfg, st, a), id)
  {
    hide Base, Orderly, Hopeless, StaysHopeless;
    match a
    case Tick(_) => NoHelp(cfg, st, Step(cfg, st, a), id);
    case Api(api) =>
      ApiAfterDelete(cfg, st, api, id);
      NoHelp(cfg, st, Step(cfg, st, a), id);
    case Scheduler(sweep) => SweepNoHelp(cfg, st, sweep, id);
    case Executor(pool) => PoolNoHelp(cfg, st, pool, id);
    case Shutdown(main) => NoHelp(cfg, st, Step(cfg, st, a), id);
  }

  lemma {:induction false} RunNoHelp(cfg: Config, st: State, steps: seq<Action>, id: string)
    requires Base(st) && Orderly(cfg, st) && IsDeleted(st.store, id) && Hopeless(cfg, st, id)
    requires Run(cfg, st, steps).Some?
    ensures var end := Run(cfg, st, steps).value;
            Base(end) && Orderly(cfg, end) && IsDeleted(end.store, id) && StaysHopeless(cfg, st, end, id)
  {
    hide Base, Orderly, IsDeleted, Hopeless, Enabled, Step;
    if steps != [] {
      var n := |steps| - 1;
      RunNoHelp(cfg, st, steps[..n], id);
      LastStep(cfg, st, steps);
      var before := Before(cfg, st, steps);
      StepKeepsBase(cfg, before, steps[n]);
      StepKeepsOrder(cfg, before, steps[n]);
      StepAfterDelete(cfg, before, steps[n], id);
      StepNoHelp(cfg, before, steps[n], id);
    }
  }

  /** A deleted job is submitted once more in some run if and only if the sweep in progress holds it and its turn
      can come. */
  lemma LateSubmissionIff(cfg: Config, st: State, id: string)
    requires cfg.Valid() && Base(st) && Orderly(cfg, st) && IsDeleted(st.store, id)
    ensures (exists steps :: SubmitsLate(cfg, st, steps, id))
            <==> InFlight(st.sweep, id) == 1 && TurnCanCome(cfg, st, id)
  {
    hide Base, Orderly, IsDeleted, TurnCanCome, Run, InFlight, SubmissionsOf;
    AtMostOneInFlight(st, id);
    if InFlight(st.sweep, id) == 1 && TurnCanCome(cfg, st, id) {
      var steps := TurnComes(cfg, st, id);
      assert SubmitsLate(cfg, st, steps, id);
    } else {
      forall steps | Run(cfg, st, steps).Some?
        ensures !SubmitsLate(cfg, st, steps, id)
      {
        RunNoHelp(cfg, st, steps, id);
      }
    }
  }

  /** So after a delete in any reachable state, what was known before the delete decides about that one submission. */
  lemma {:induction false} DeleteLetsOneThrough(cfg: Config, clock: Time, steps: seq<Action>, id: string)
    requires cfg.Valid() && Run(cfg, Initial(cfg, clock), steps).Some?
    requires var st := Run(cfg, Initial(cfg, clock), steps).value;
             id in st.store.jobs && Enabled(cfg, st, Api(Delete(id)))
    ensures var st := Run(cfg, Initial(cfg, clock), steps).value;
            var st' := Step(cfg, st, Api(Delete(id)));
            (exists later :: SubmitsLate(cfg, st', later, id))
            <==> InFlight(st.sweep, id) == 1 && TurnCanCome(cfg, st, id)
  {
    hide Base, Orderly, Run, InFlight, SubmitsLate;
    InitialBase(cfg, clock);
    RunKeepsBase(cfg, Initial(cfg, clock), steps);
    NeverPanics(cfg, clock, steps);
    var st := Run(cfg, Initial(cfg, clock), steps).value;
    var st' := Step(cfg, st, Api(Delete(id)));
    StepKeepsBase(cfg, st, Api(Delete(id)));
    StepKeepsOrder(cfg, st, Api(Delete(id)));
    LateSubmissionIff(cfg, st', id);
  }
}
