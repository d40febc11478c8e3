/** A whole sweep as one function, and that it is what the step system does when nothing interrupts the sweep. */
module Sweeps {
  import opened Common
  import opened Models
  import opened StoreSpec
  import opened Cron
  import opened Pipeline

  /** The queue after handing in the first `n` of these jobs, to an executor that drops what does not fit. */
  function QueueAfter(queue: seq<Job>, capacity: nat, due: seq<Job>, n: nat): seq<Job>
    requires n <= |due|
  {
    if n == 0 then queue
    else
      var before := QueueAfter(queue, capacity, due, n - 1);
      if |before| < capacity then before + [due[n - 1]] else before
  }

  /** The store after the first `n` of these jobs have got their new NextRun, each write with a stamp of its own. */
  function StoreAfter(lib: Library, s: Store, due: seq<Job>, now: Time, stamps: nat -> Time, n: nat): Store
    requires n <= |due|
  {
    if n == 0 then s else Advanced(lib, StoreAfter(lib, s, due, now, stamps, n - 1), due[n - 1], now, stamps(n - 1))
  }

  lemma {:induction false} StoreBefore(lib: Library, s: Store, due: seq<Job>, now: Time, stamps: nat -> Time)
    ensures StoreAfter(lib, s, due, now, stamps, 0) == s
  {
  }

  lemma StoreNext(lib: Library, s: Store, due: seq<Job>, now: Time, stamps: nat -> Time, n: nat)
    requires n < |due|
    ensures StoreAfter(lib, s, due, now, stamps, n + 1)
            == Advanced(lib, StoreAfter(lib, s, due, now, stamps, n), due[n], now, stamps(n))
  {
  }

  /** Each of the first `n` jobs has the next instant after `now` of its copy's schedule, if that parses, and the stamp
      of its own write; nothing else has changed. */
  ghost predicate NextRunsWritten(
    lib: Library, s: Store, s': Store, due: seq<Job>, now: Time, stamps: nat -> Time, n: nat)
  {
    && n <= |due| && s' == s.(jobs := s'.jobs) && s'.jobs.Keys == s.jobs.Keys
    && forall id :: id in s.jobs ==> WrittenJob(lib, s.jobs[id], s'.jobs[id], id, due, now, stamps, n)
  }

  ghost predicate WrittenJob(
    lib: Library, job: Job, job': Job, id: string, due: seq<Job>, now: Time, stamps: nat -> Time, n: nat)
    requires n <= |due|
  {
    && ((forall k :: 0 <= k < n ==> due[k].id != id) ==> job' == job)
    && forall k :: 0 <= k < n && due[k].id == id ==>
         if lib.accepts(due[k].schedule) then
           && job'.nextRun == Some(Next(lib, due[k].schedule, now)) && job'.updatedAt == stamps(k)
           && job' == job.(nextRun := job'.nextRun, updatedAt := job'.updatedAt)
         else job' == job
  }

  lemma NothingWritten(lib: Library, s: Store, due: seq<Job>, now: Time, stamps: nat -> Time)
    ensures NextRunsWritten(lib, s, s, due, now, stamps, 0)
  {
  }

  lemma OtherJob(
    lib: Library, job: Job, job': Job, id: string, due: seq<Job>, now: Time, stamps: nat -> Time, n: nat)
    requires n < |due| && due[n].id != id && WrittenJob(lib, job, job', id, due, now, stamps, n)
    ensures WrittenJob(lib, job, job', id, due, now, stamps, n + 1)
  {
  }

  lemma ThisJob(lib: Library, job: Job, due: seq<Job>, now: Time, stamps: nat -> Time, n: nat)
    requires n < |due| && forall k :: 0 <= k < n ==> due[k].id != due[n].id
    ensures var job' := if !lib.accepts(due[n].schedule) then job
                        else job.(nextRun := Some(Next(lib, due[n].schedule, now)), updatedAt := stamps(n));
            WrittenJob(lib, job, job', due[n].id, due, now, stamps, n + 1)
  {
    hide Next;
  }

  lemma NotYetWritten(
    lib: Library, job: Job, job': Job, due: seq<Job>, now: Time, stamps: nat -> Time, n: nat)
    requires n < |due| && forall k :: 0 <= k < n ==> due[k].id != due[n].id
    requires WrittenJob(lib, job, job', due[n].id, due, now, stamps, n)
    ensures job' == job
  {
  }

  lemma OneWrite(lib: Library, s: Store, s': Store, due: seq<Job>, now: Time, stamps: nat -> Time, n: nat)
    requires NextRunsWritten(lib, s, s', due, now, stamps, n) && n < |due| && due[n].id in s.jobs
    requires forall k :: 0 <= k < n ==> due[k].id != due[n].id
    ensures NextRunsWritten(lib, s, Advanced(lib, s', due[n], now, stamps(n)), due, now, stamps, n + 1)
  {
    hide Next, WrittenJob;
    var s'' := Advanced(lib, s', due[n], now, stamps(n));
    forall id | id in s.jobs
      ensures WrittenJob(lib, s.jobs[id], s''.jobs[id], id, due, now, stamps, n + 1)
    {
      if id == due[n].id {
        NotYetWritten(lib, s.jobs[id], s'.jobs[id], due, now, stamps, n);
        ThisJob(lib, s.jobs[id], due, now, stamps, n);
      } else {
        OtherJob(lib, s.jobs[id], s'.jobs[id], id, due, now, stamps, n);
      }
    }
  }

  /** The third loop writes that, whatever time its writes take. */
  lemma {:induction false} SweepWrites(lib: Library, s: Store, due: seq<Job>, now: Time, stamps: nat -> Time, n: nat)
    requires n <= |due| && forall i, j :: 0 <= i < j < |due| ==> due[i].id != due[j].id
    requires forall k :: 0 <= k < |due| ==> due[k].id in s.jobs
    ensures NextRunsWritten(lib, s, StoreAfter(lib, s, due, now, stamps, n), due, now, stamps, n)
  {
    hide Advanced, NextRunsWritten;
    if n > 0 {
      SweepWrites(lib, s, due, now, stamps, n - 1);
      OneWrite(lib, s, StoreAfter(lib, s, due, now, stamps, n - 1), due, now, stamps, n - 1);
    } else {
      NothingWritten(lib, s, due, now, stamps);
    }
  }

  /** The clock of a run without ticks. */
  function Always(t: Time): nat -> Time {
    _ => t
  }

  /** The store after one job has got the next run of the copy's schedule, if that parses. */
  function Advanced(lib: Library, s: Store, job: Job, now: Time, stamp: Time): Store {
    var nextRun := GetNextRun(lib, job.schedule, now);
    if nextRun.Ok? then UpdateJobNextRun(s, job.id, nextRun.value, stamp) else s
  }

  function JobsOf(queue: seq<Submission>): seq<Job> {
    seq(|queue|, i requires 0 <= i < |queue| => queue[i].job)
  }

  /** The same step `n` times. */
  function Repeat(a: SweepAction, n: nat): seq<Action> {
    seq(n, _ => Scheduler(a))
  }

  lemma {:induction false} RunRepeat(cfg: Config, st: State, a: SweepAction, n: nat)
    requires n > 0 && Run(cfg, st, Repeat(a, n - 1)).Some?
    requires Enabled(cfg, Run(cfg, st, Repeat(a, n - 1)).value, Scheduler(a))
    ensures Run(cfg, st, Repeat(a, n)) == Some(Step(cfg, Run(cfg, st, Repeat(a, n - 1)).value, Scheduler(a)))
  {
    assert Repeat(a, n)[..n - 1] == Repeat(a, n - 1);
  }

  /** Nothing keeps the scheduler from submitting. */
  predicate Open(cfg: Config, st: State) {
    && !st.panicked && !st.QueueCloses()
    && (st.sweep.Submitting? && cfg.kind == Standard ==>
          |st.pool.queue| + |st.sweep.due| <= cfg.capacity + st.sweep.next)
  }

  lemma SubmitNext(cfg: Config, st: State)
    requires Open(cfg, st) && st.sweep.Submitting? && st.sweep.next < |st.sweep.due|
    ensures Enabled(cfg, st, Scheduler(Submit))
    ensures var st' := Step(cfg, st, Scheduler(Submit));
            && Open(cfg, st') && st'.store == st.store && st'.clock == st.clock && st'.main == st.main
            && st'.sweep == Submitting(st.sweep.now, st.sweep.due, st.sweep.next + 1)
            && JobsOf(st'.pool.queue)
               == if |st.pool.queue| < cfg.capacity then JobsOf(st.pool.queue) + [st.sweep.due[st.sweep.next]]
                  else JobsOf(st.pool.queue)
  {
  }

  lemma {:induction false} SubmitMany(cfg: Config, st: State, n: nat)
    requires Open(cfg, st) && st.sweep.Submitting? && st.sweep.next == 0 && n <= |st.sweep.due|
    ensures Run(cfg, st, Repeat(Submit, n)).Some?
    ensures var st' := Run(cfg, st, Repeat(Submit, n)).value;
            && Open(cfg, st') && st'.store == st.store && st'.clock == st.clock && st'.main == st.main
            && st'.sweep == Submitting(st.sweep.now, st.sweep.due, n)
            && JobsOf(st'.pool.queue) == QueueAfter(JobsOf(st.pool.queue), cfg.capacity, st.sweep.due, n)
  {
    hide Enabled, Step, Open;
    if n > 0 {
      SubmitMany(cfg, st, n - 1);
      SubmitNext(cfg, Run(cfg, st, Repeat(Submit, n - 1)).value);
      RunRepeat(cfg, st, Submit, n);
    } else {
      assert Repeat(Submit, 0) == [];
    }
  }

  lemma AdvanceNext(cfg: Config, st: State)
    requires Open(cfg, st) && st.sweep.Advancing? && st.sweep.next < |st.sweep.due| && st.clock == st.sweep.now
    ensures Enabled(cfg, st, Scheduler(Advance))
    ensures var st' := Step(cfg, st, Scheduler(Advance));
            && Open(cfg, st') && st'.pool == st.pool && st'.clock == st.clock && st'.main == st.main
            && st'.sweep == Advancing(st.sweep.now, st.sweep.due, st.sweep.next + 1)
            && var job := st.sweep.due[st.sweep.next];
               var nextRun := GetNextRun(cfg.lib, job.schedule, st.sweep.now);
               st'.store == if nextRun.Ok? then UpdateJobNextRun(st.store, job.id, nextRun.value, st.clock) else st.store
  {
  }

  lemma {:induction false} AdvanceMany(cfg: Config, st: State, n: nat)
    requires Open(cfg, st) && st.sweep.Advancing? && st.sweep.next == 0 && n <= |st.sweep.due|
    requires st.clock == st.sweep.now
    ensures Run(cfg, st, Repeat(Advance, n)).Some?
    ensures var st' := Run(cfg, st, Repeat(Advance, n)).value;
            && Open(cfg, st') && st'.pool == st.pool && st'.clock == st.clock && st'.main == st.main
            && st'.sweep == Advancing(st.sweep.now, st.sweep.due, n)
            && st'.store == StoreAfter(cfg.lib, st.store, st.sweep.due, st.sweep.now, Always(st.clock), n)
  {
    hide Enabled, Step, Open;
    if n > 0 {
      AdvanceMany(cfg, st, n - 1);
      AdvanceNext(cfg, Run(cfg, st, Repeat(Advance, n - 1)).value);
      RunRepeat(cfg, st, Advance, n);
    } else {
      assert Repeat(Advance, 0) == [];
    }
  }

  /** The submitting half of a sweep. */
  lemma SubmitAll(cfg: Config, st: State)
    requires Open(cfg, st) && st.sweep.Submitting? && st.sweep.next == 0
    ensures var n := |st.sweep.due| + 1;
            Run(cfg, st, Repeat(Submit, n)).Some?
            && var st' := Run(cfg, st, Repeat(Submit, n)).value;
               && Open(cfg, st') && st'.store == st.store && st'.clock == st.clock && st'.main == st.main
               && st'.sweep == Advancing(st.sweep.now, st.sweep.due, 0)
               && JobsOf(st'.pool.queue)
                  == QueueAfter(JobsOf(st.pool.queue), cfg.capacity, st.sweep.due, |st.sweep.due|)
  {
    SubmitMany(cfg, st, |st.sweep.due|);
    RunRepeat(cfg, st, Submit, |st.sweep.due| + 1);
  }

  /** The writing half of a sweep. */
  lemma AdvanceAll(cfg: Config, st: State)
    requires Open(cfg, st) && st.sweep.Advancing? && st.sweep.next == 0 && st.clock == st.sweep.now
    ensures var n := |st.sweep.due| + 1;
            Run(cfg, st, Repeat(Advance, n)).Some?
            && var st' := Run(cfg, st, Repeat(Advance, n)).value;
               && st'.pool == st.pool && st'.sweep == Waiting && st'.main == st.main
               && st'.store == StoreAfter(cfg.lib, st.store, st.sweep.due, st.sweep.now, Always(st.clock), |st.sweep.due|)
  {
    AdvanceMany(cfg, st, |st.sweep.due|);
    RunRepeat(cfg, st, Advance, |st.sweep.due| + 1);
  }

  /** The steps of a sweep over `n` due jobs: load, filter, submit each, leave the loop, advance each, leave the
      loop. */
  function SweepSteps(order: seq<string>, n: nat): seq<Action> {
    [Scheduler(Load(order)), Scheduler(Filter)] + Repeat(Submit, n + 1) + Repeat(Advance, n + 1)
  }

  /** The sweep is over, the due jobs are queued as far as there is room, and each has its new NextRun. */
  predicate IsSwept(cfg: Config, st: State, due: seq<Job>, end: Option<State>) {
    && end.Some? && end.value.sweep == Waiting && end.value.main == st.main
    && end.value.store == StoreAfter(cfg.lib, st.store, due, st.clock, Always(st.clock), |due|)
    && JobsOf(end.value.pool.queue) == QueueAfter(JobsOf(st.pool.queue), cfg.capacity, due, |due|)
  }

  /** The state between the two loops' starts. */
  predicate IsFiltered(cfg: Config, st: State, due: seq<Job>, st': Option<State>) {
    && st'.Some? && Open(cfg, st'.value) && st'.value.store == st.store && st'.value.clock == st.clock
    && st'.value.pool == st.pool && st'.value.main == st.main && st'.value.sweep == Submitting(st.clock, due, 0)
  }

  /** Run without interruption, the steps of a sweep have the effect of the sweep as one function. */
  lemma {:induction false} UninterruptedSweep(cfg: Config, st: State, order: seq<string>, due: seq<Job>)
    requires Enabled(cfg, st, Scheduler(Load(order))) && !st.QueueCloses()
    requires due == DueJobs(Snapshot(st.store, order), st.clock)
    requires cfg.kind == Standard ==> |st.pool.queue| + |due| <= cfg.capacity
    ensures IsSwept(cfg, st, due, Run(cfg, st, SweepSteps(order, |due|)))
  {
    hide IsSwept, Run, Open, StoreAfter, QueueAfter, DueJobs;
    var first := [Scheduler(Load(order)), Scheduler(Filter)];
    LoadAndFilter(cfg, st, order, due);
    LoopsSweep(cfg, Run(cfg, st, first).value);
    RunSplits(cfg, st, first, Repeat(Submit, |due| + 1) + Repeat(Advance, |due| + 1));
    assert SweepSteps(order, |due|) == first + (Repeat(Submit, |due| + 1) + Repeat(Advance, |due| + 1));
    SweptFrom(cfg, st, Run(cfg, st, first).value, due, Run(cfg, st, SweepSteps(order, |due|)));
  }

  lemma SweptFrom(cfg: Config, st: State, st2: State, due: seq<Job>, end: Option<State>)
    requires IsSwept(cfg, st2, due, end) && st2.store == st.store && st2.clock == st.clock
    requires st2.pool == st.pool && st2.main == st.main
    ensures IsSwept(cfg, st, due, end)
  {
  }

  /** The two loops, one after the other. */
  lemma {:induction false} LoopsSweep(cfg: Config, st: State)
    requires Open(cfg, st) && st.sweep.Submitting? && st.sweep.next == 0 && st.clock == st.sweep.now
    ensures var n := |st.sweep.due| + 1;
            IsSwept(cfg, st, st.sweep.due, Run(cfg, st, Repeat(Submit, n) + Repeat(Advance, n)))
  {
    hide Run, Open, QueueAfter, StoreAfter;
    var n := |st.sweep.due| + 1;
    SubmitAll(cfg, st);
    AdvanceAll(cfg, Run(cfg, st, Repeat(Submit, n)).value);
    RunSplits(cfg, st, Repeat(Submit, n), Repeat(Advance, n));
  }

  lemma {:induction false} LoadAndFilter(cfg: Config, st: State, order: seq<string>, due: seq<Job>)
    requires Enabled(cfg, st, Scheduler(Load(order))) && !st.QueueCloses()
    requires due == DueJobs(Snapshot(st.store, order), st.clock)
    requires cfg.kind == Standard ==> |st.pool.queue| + |due| <= cfg.capacity
    ensures IsFiltered(cfg, st, due, Run(cfg, st, [Scheduler(Load(order)), Scheduler(Filter)]))
  {
    var load, filter := Scheduler(Load(order)), Scheduler(Filter);
    var none: seq<Action> := [];
    assert [load][..0] == none && [load, filter][..1] == [load];
    assert Run(cfg, st, none) == Some(st);
    assert Run(cfg, st, [load]) == Some(Step(cfg, st, load));
    assert Run(cfg, st, [load, filter]) == Some(Step(cfg, Step(cfg, st, load), filter));
  }
}
