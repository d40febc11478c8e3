/** The two executors on the heap: the bounded queue, and what each execution does to the repository. */
module Executor {
  import opened Common
  import opened Models
  import opened StoreSpec
  import opened Pipeline
  import opened Repository
  import Calls

  /** The store after one execution is recorded at `now` and its job is touched at `later`. Only the standard executor
      stops when storing it fails. */
  function AfterExecution(kind: Kind, s: Store, e: Execution, stamp: nat, now: Time, later: Time): Store
    requires e.completedAt.Some?
  {
    var (s', r) := CreateExecution(s, e, stamp, now);
    if r.Err? && kind == Standard then s' else UpdateJobLastExecuted(s', e.jobId, e.completedAt.value, later)
  }

  /** Where the job is stored, both executors do the same: one more execution, and LastExecuted set to its end. */
  lemma ExecutorsAgree(s: Store, e: Execution, stamp: nat, now: Time, later: Time)
    requires e.completedAt.Some?
    ensures AfterExecution(Standard, s, e, stamp, now, later) == AfterExecution(Optimized, s, e, stamp, now, later)
    ensures e.jobId in s.jobs ==>
              && AfterExecution(Standard, s, e, stamp, now, later).jobs[e.jobId].lastExecuted == e.completedAt
              && AfterExecution(Standard, s, e, stamp, now, later).executions.Keys
                 == s.executions.Keys + {ResolvedId(s, e.id, "exec", stamp)}
  {
  }

  /** The store has one more execution, which reports the call, and its job was last executed at the end of the call.
      If the job is not stored, only the id counter has moved. */
  ghost predicate CallRecorded(
    cfg: Config, s: Store, s': Store, jobId: string, outcome: Outcome, duration: Duration, completed: Time,
    stamp: nat, now: Time, later: Time)
    requires s.jobs.Keys == s.index.Keys
  {
    if jobId in s.jobs then
      var id := NewId("exec", stamp, s.counter);
      && id in s'.executions && s'.executions == s.executions[id := s'.executions[id]]
      && (var e := s'.executions[id];
          && Calls.Reports(cfg, e, outcome, duration) && e.id == id && e.jobId == jobId
          && e.executedAt == now && e.completedAt == Some(completed))
      && s'.index == s.index[jobId := s.index[jobId] + [id]] && s'.counter == s.counter + 1
      && s'.jobs == s.jobs[jobId := s.jobs[jobId].(lastExecuted := Some(completed), updatedAt := later)]
    else s' == s.(counter := s.counter + 1)
  }

  lemma RecordingRecordsCall(
    cfg: Config, s: Store, jobId: string, outcome: Outcome, duration: Duration, completed: Time,
    stamp: nat, now: Time, later: Time)
    requires s.jobs.Keys == s.index.Keys
    ensures var e := ExecutionOf(cfg, jobId, outcome, duration, completed);
            CallRecorded(cfg, s, AfterExecution(cfg.kind, s, e, stamp, now, later), jobId, outcome, duration, completed,
                         stamp, now, later)
  {
    hide NewId;
  }

  /** JobExecutor and OptimizedJobExecutor, which differ in Submit, in what they do after a call, and in counting. */
  class JobExecutor {
    const cfg: Config
    const repo: MemoryRepository
    var queue: seq<JobRecord>
    var processed: nat
    var failed: nat

    constructor (cfg: Config, repo: MemoryRepository)
      ensures this.cfg == cfg && this.repo == repo && queue == [] && processed == 0 && failed == 0
    {
      this.cfg, this.repo := cfg, repo;
      queue, processed, failed := [], 0, 0;
    }

    /** A full queue makes the standard executor's call block, and the optimized one's drop the job. */
    method Submit(job: JobRecord?) returns (blocks: bool)
      modifies this`queue
      ensures blocks <==> job != null && cfg.kind == Standard && |old(queue)| >= cfg.capacity
      ensures queue == if job != null && |old(queue)| < cfg.capacity then old(queue) + [job] else old(queue)
    {
      blocks := false;
      if job == null {
        return;
      }
      if |queue| < cfg.capacity {
        queue := queue + [job];
      } else {
        blocks := cfg.kind == Standard;
      }
    }

    /** The execution record of a call that has ended, and LastExecuted. */
    method RecordExecution(
      job: JobRecord, outcome: Outcome, duration: Duration, completed: Time, stamp: nat, now: Time, later: Time)
      requires repo.Valid()
      modifies repo, repo.JobRecords
      ensures repo.Valid()
      ensures repo.View() == AfterExecution(
        cfg.kind, old(repo.View()), ExecutionOf(cfg, old(job.id), outcome, duration, completed), stamp, now, later)
      ensures CallRecorded(
        cfg, old(repo.View()), repo.View(), old(job.id), outcome, duration, completed, stamp, now, later)
      ensures repo.JobRecords == old(repo.JobRecords)
    {
      hide MemoryRepository.Valid, MemoryRepository.View, CallRecorded, CreateExecution, UpdateJobLastExecuted;
      var jobId := job.id;
      ghost var s := repo.View();
      repo.IndexHasJobs();
      RecordingRecordsCall(cfg, s, jobId, outcome, duration, completed, stamp, now, later);
      var stored := StoreExecution(ExecutionOf(cfg, jobId, outcome, duration, completed), stamp, now);
      if stored.Err? && cfg.kind == Standard {
        return;
      }
      var touched := TouchJob(jobId, completed, later);
    }

    method StoreExecution(e: Execution, stamp: nat, now: Time) returns (r: Result<string, RepoError>)
      requires repo.Valid()
      modifies repo
      ensures repo.Valid() && (repo.View(), r) == CreateExecution(old(repo.View()), e, stamp, now)
      ensures repo.JobRecords == old(repo.JobRecords)
    {
      var execution := new ExecutionRecord(e);
      repo.Steady();
      r := repo.CreateExecution(execution, stamp, now);
    }

    method TouchJob(jobId: string, completed: Time, now: Time) returns (r: Option<RepoError>)
      requires repo.Valid()
      modifies repo`Repr, repo.JobRecords
      ensures repo.Valid() && repo.View() == UpdateJobLastExecuted(old(repo.View()), jobId, completed, now)
    {
      r := repo.UpdateJobLastExecuted(jobId, completed, now);
    }

    /** executeJob of the optimized executor counts the calls that were answered; calls that failed are not counted. */
    method CountCall(outcome: Outcome)
      modifies this`processed, this`failed
      ensures processed == old(processed) + (if outcome.Response? then 1 else 0)
      ensures failed == old(failed) + (if outcome.Response? && !(200 <= outcome.status < 300) then 1 else 0)
    {
      if outcome.Failed? {
        return;
      }
      var success := outcome.status >= 200 && outcome.status < 300;
      processed := processed + 1;
      if !success {
        failed := failed + 1;
      }
    }
  }
}
