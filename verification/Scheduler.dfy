/** The scheduler's sweep on the heap, proved against the sweep as one function. */
module Scheduler {
  import opened Common
  import opened Models
  import opened StoreSpec
  import opened Cron
  import opened Paging
  import opened Pipeline
  import opened Sweeps
  import opened Repository
  import opened Executor

  /** What the queue takes of a list of jobs is as long a prefix as fits. */
  lemma {:induction false} QueueTakesPrefix(queue: seq<Job>, capacity: nat, due: seq<Job>, n: nat)
    requires n <= |due| && |queue| <= capacity
    ensures QueueAfter(queue, capacity, due, n) == queue + due[..Min(n, capacity - |queue|)]
  {
    if n > 0 {
      QueueTakesPrefix(queue, capacity, due, n - 1);
    }
  }

  class JobScheduler {
    const lib: Library
    const repo: MemoryRepository
    const executor: JobExecutor

    constructor (lib: Library, repo: MemoryRepository, executor: JobExecutor)
      ensures this.lib == lib && this.repo == repo && this.executor == executor
    {
      this.lib, this.repo, this.executor := lib, repo, executor;
    }

    /** The first loop: collect the due jobs. */
    static method CollectDue(jobs: seq<JobRecord>, now: Time, ghost values: seq<Job>) returns (due: seq<JobRecord>)
      requires |values| == |jobs| && forall i :: 0 <= i < |jobs| ==> jobs[i].Value() == values[i]
      ensures |due| == |DueJobs(values, now)| && forall job :: job in due ==> job in jobs
      ensures forall k :: 0 <= k < |due| ==> due[k].Value() == DueJobs(values, now)[k]
    {
      due := [];
      for i := 0 to |jobs|
        invariant |due| == |DueJobs(values[..i], now)| && forall job :: job in due ==> job in jobs
        invariant forall k :: 0 <= k < |due| ==> due[k].Value() == DueJobs(values[..i], now)[k]
      {
        assert values[..i + 1][..i] == values[..i];
        var job := jobs[i];
        if job.nextRun == null || now < job.nextRun.value {
          continue;
        }
        due := due + [job];
      }
      assert values[..|jobs|] == values;
    }

    /** The second loop: submit them all, as far as the executor lets it. */
    method SubmitDue(due: seq<JobRecord>) returns (blocks: bool)
      requires |executor.queue| <= executor.cfg.capacity
      modifies executor`queue
      ensures var room := executor.cfg.capacity - |old(executor.queue)|;
              && executor.queue == old(executor.queue) + due[..Min(|due|, room)]
              && (blocks <==> executor.cfg.kind == Standard && |due| > room)
    {
      blocks := false;
      ghost var room := executor.cfg.capacity - |executor.queue|;
      for i := 0 to |due|
        invariant executor.queue == old(executor.queue) + due[..Min(i, room)]
        invariant !blocks && (executor.cfg.kind == Standard ==> i <= room)
      {
        blocks := executor.Submit(due[i]);
        if blocks {
          return;
        }
      }
    }

    /** The third loop: write each job's next run, computed from the copy's schedule. */
    method AdvanceDue(due: seq<JobRecord>, now: Time, stamps: nat -> Time, ghost values: seq<Job>)
      requires repo.Valid() && |values| == |due|
      requires forall k :: 0 <= k < |due| ==> due[k] !in repo.JobRecords && due[k].Value() == values[k]
      modifies repo`Repr, repo.JobRecords
      ensures repo.Valid() && repo.View() == StoreAfter(lib, old(repo.View()), values, now, stamps, |values|)
      ensures forall k :: 0 <= k < |due| ==> due[k].Value() == values[k]
    {
      hide MemoryRepository.Valid, MemoryRepository.View, Advanced, StoreAfter;
      ghost var s := repo.View();
      StoreBefore(lib, s, values, now, stamps);
      for i := 0 to |due|
        invariant repo.Valid() && repo.View() == StoreAfter(lib, s, values, now, stamps, i)
      {
        assert due[i].Value() == values[i];
        StoreNext(lib, s, values, now, stamps, i);
        AdvanceOne(due[i], now, stamps(i));
      }
    }

    /** The body of the third loop. */
    method AdvanceOne(job: JobRecord, now: Time, stamp: Time)
      requires repo.Valid()
      modifies repo`Repr, repo.JobRecords
      ensures repo.Valid() && repo.View() == Advanced(lib, old(repo.View()), old(job.Value()), now, stamp)
    {
      var nextRun := GetNextRun(lib, job.schedule, now);
      if nextRun.Err? {
        return;
      }
      var updated := repo.UpdateJobNextRun(job.id, nextRun.value, stamp);
    }

    /** The snapshot and its due jobs: copies that the repository does not store. */
    method LoadDue(now: Time) returns (due: seq<JobRecord>, ghost order: seq<string>, ghost values: seq<Job>)
      requires repo.Valid()
      ensures Enumerates(order, JobsWith(old(repo.View()), Active))
      ensures values == DueJobs(Snapshot(old(repo.View()), order), now) && |due| == |values|
      ensures forall k :: 0 <= k < |due| ==> due[k] !in repo.JobRecords && due[k].Value() == values[k]
      ensures repo.Valid() && repo.View() == old(repo.View())
    {
      var jobs;
      jobs, order := repo.GetActiveJobs();
      repo.Steady();
      hide MemoryRepository.Valid, MemoryRepository.View;
      due := CollectDue(jobs, now, Snapshot(old(repo.View()), order));
      values := DueJobs(Snapshot(old(repo.View()), order), now);
      forall k | 0 <= k < |due|
        ensures due[k] !in repo.JobRecords
      {
        assert due[k] in jobs;
      }
    }

    /** `queue` is `before` and copies of these jobs. */
    static ghost predicate Extends(queue: seq<JobRecord>, before: seq<JobRecord>, due: seq<Job>)
      reads *
    {
      && |queue| == |before| + |due| && queue[..|before|] == before
      && forall k :: 0 <= k < |due| ==> queue[|before| + k].Value() == due[k]
    }

    static lemma ExtendsBy(queue: seq<JobRecord>, before: seq<JobRecord>, due: seq<JobRecord>, values: seq<Job>, n: nat)
      requires |values| == |due| && n <= |due| && queue == before + due[..n]
      requires forall k :: 0 <= k < |due| ==> due[k].Value() == values[k]
      ensures Extends(queue, before, values[..n])
    {
    }

    /** A whole sweep; `stamps` are the clock readings of its writes. If the standard executor's queue has too
        little room, the sweep stands at the submission that blocks, before any write. */
    method DispatchDueJobs(now: Time, stamps: nat -> Time) returns (ghost order: seq<string>, blocks: bool)
      requires repo.Valid() && |executor.queue| <= executor.cfg.capacity
      modifies repo`Repr, repo.JobRecords, executor`queue
      ensures Enumerates(order, JobsWith(old(repo.View()), Active))
      ensures var due := DueJobs(Snapshot(old(repo.View()), order), now);
              var room := executor.cfg.capacity - |old(executor.queue)|;
              && (blocks <==> executor.cfg.kind == Standard && |due| > room)
              && repo.Valid()
              && repo.View() == (if blocks then old(repo.View())
                                 else StoreAfter(lib, old(repo.View()), due, now, stamps, |due|))
              && Extends(executor.queue, old(executor.queue), due[..Min(|due|, room)])
    {
      hide MemoryRepository.Valid, MemoryRepository.View, Enumerates, Extends, StoreAfter, DueJobs, Snapshot, JobsWith;
      var due;
      ghost var values;
      due, order, values := LoadDue(now);
      label loaded:
      blocks := SubmitDue(due);
      repo.SteadyRecords@loaded();
      if !blocks {
        AdvanceDue(due, now, stamps, values);
      }
      ghost var room := executor.cfg.capacity - |old(executor.queue)|;
      ExtendsBy(executor.queue, old(executor.queue), due, values, Min(|due|, room));
    }
  }
}
