/** What holders of a job returned by the repository may rely on while the repository goes on working. */
module Isolation {
  import opened Common
  import opened Models
  import opened StoreSpec
  import opened Paging
  import opened Repository

  /** Metadata maps of their own for the values of an update. */
  method Box(updates: map<string, Dynamic<Metadata>>) returns (boxed: Updates)
    ensures Lifted(boxed) == updates
    ensures forall k :: k in boxed && boxed[k].MapValue? ==> fresh(boxed[k].m)
  {
    boxed := map[];
    var keys := updates.Keys;
    while keys != {}
      invariant keys <= updates.Keys && boxed.Keys == updates.Keys - keys
      invariant forall k :: k in boxed && boxed[k].MapValue? ==> fresh(boxed[k].m)
      invariant forall k :: k in boxed ==> Lift(boxed[k]) == updates[k]
      decreases keys
    {
      var key :| key in keys;
      var value := BoxValue(updates[key]);
      boxed := boxed[key := value];
      keys := keys - {key};
    }
  }

  method BoxValue(d: Dynamic<Metadata>) returns (r: Dynamic<MetadataMap>)
    ensures Lift(r) == d
    ensures r.MapValue? ==> fresh(r.m)
  {
    match d {
      case MapValue(m) =>
        var box := new MetadataMap(m);
        return MapValue(box);
      case StringValue(s) => return StringValue(s);
      case StatusValue(status) => return StatusValue(status);
      case TypeValue(jobType) => return TypeValue(jobType);
      case TimeValue(t) => return TimeValue(t);
      case DurationValue(duration) => return DurationValue(duration);
      case IntValue(n) => return IntValue(n);
      case BoolValue(b) => return BoolValue(b);
      case OtherValue => return OtherValue;
    }
  }

  method PerformCreateJob(repo: MemoryRepository, job: Job, stamp: nat, now: Time)
    requires repo.Valid()
    modifies repo
    ensures repo.Valid() && repo.View() == CreateJob(old(repo.View()), job, stamp, now).0
    ensures fresh(repo.JobRecords - old(repo.JobRecords)) && fresh(repo.ExecutionRecords - old(repo.ExecutionRecords))
  {
    var record := new JobRecord(job);
    repo.Steady();
    var r := repo.CreateJob(record, stamp, now);
  }

  method PerformCreateExecution(repo: MemoryRepository, e: Execution, stamp: nat, now: Time)
    requires repo.Valid()
    modifies repo
    ensures repo.Valid() && repo.View() == CreateExecution(old(repo.View()), e, stamp, now).0
    ensures fresh(repo.JobRecords - old(repo.JobRecords)) && fresh(repo.ExecutionRecords - old(repo.ExecutionRecords))
  {
    var record := new ExecutionRecord(e);
    repo.Steady();
    var r := repo.CreateExecution(record, stamp, now);
  }

  method BoxBeside(repo: MemoryRepository, updates: map<string, Dynamic<Metadata>>) returns (boxed: Updates)
    requires repo.Valid()
    ensures Lifted(boxed) == updates
    ensures repo.Valid() && repo.View() == old(repo.View())
  {
    boxed := Box(updates);
    repo.Steady();
  }

  method PerformUpdateJob(repo: MemoryRepository, id: string, updates: map<string, Dynamic<Metadata>>, now: Time)
    requires repo.Valid()
    modifies repo, repo.JobRecords, repo.ExecutionRecords
    ensures repo.Valid() && repo.View() == UpdateJob(old(repo.View()), id, updates, now)
    ensures repo.JobRecords == old(repo.JobRecords) && repo.ExecutionRecords == old(repo.ExecutionRecords)
  {
    var boxed := BoxBeside(repo, updates);
    var r := repo.UpdateJob(id, boxed, now);
  }

  method PerformUpdateExecution(repo: MemoryRepository, id: string, changes: map<string, Dynamic<Metadata>>)
    requires repo.Valid()
    modifies repo, repo.JobRecords, repo.ExecutionRecords
    ensures repo.Valid() && repo.View() == UpdateExecution(old(repo.View()), id, changes)
    ensures repo.JobRecords == old(repo.JobRecords) && repo.ExecutionRecords == old(repo.ExecutionRecords)
  {
    var boxed := BoxBeside(repo, changes);
    MapsDoNotMatter(repo.View(), id, boxed, Lifted(boxed));
    var r := repo.UpdateExecution(id, boxed);
  }

  /** No field of an execution takes a metadata map. */
  lemma MapsDoNotMatter(
    s: Store, id: string, updates: Updates, lifted: map<string, Dynamic<Metadata>>)
    requires lifted == Lifted(updates)
    ensures UpdateExecution(s, id, updates) == UpdateExecution(s, id, lifted)
  {
    if id in s.executions {
      assert UpdatedExecution(s.executions[id], updates) == UpdatedExecution(s.executions[id], lifted);
    }
  }

  /** One mutation by a caller that hands in records of its own. */
  method Perform(repo: MemoryRepository, op: Operation)
    requires repo.Valid()
    modifies repo, repo.JobRecords, repo.ExecutionRecords
    ensures repo.Valid() && repo.View() == Apply(old(repo.View()), op)
    ensures fresh(repo.JobRecords - old(repo.JobRecords)) && fresh(repo.ExecutionRecords - old(repo.ExecutionRecords))
  {
    match op {
      case CreateJobOp(job, stamp, now) => PerformCreateJob(repo, job, stamp, now);
      case UpdateJobOp(id, updates, now) => PerformUpdateJob(repo, id, updates, now);
      case DeleteJobOp(id, now) =>
        var r := repo.DeleteJob(id, now);
      case UpdateJobNextRunOp(id, t, now) =>
        var r := repo.UpdateJobNextRun(id, t, now);
      case UpdateJobLastExecutedOp(id, t, now) =>
        var r := repo.UpdateJobLastExecuted(id, t, now);
      case CreateExecutionOp(execution, stamp, now) => PerformCreateExecution(repo, execution, stamp, now);
      case UpdateExecutionOp(id, changes, _) => PerformUpdateExecution(repo, id, changes);
    }
  }

  /** Any sequence of mutations: it follows the specification, and it writes to the repository and its records only. */
  method PerformAll(repo: MemoryRepository, ops: seq<Operation>)
    requires repo.Valid()
    modifies repo, repo.JobRecords, repo.ExecutionRecords
    ensures repo.Valid() && repo.View() == ApplyAll(old(repo.View()), ops)
    ensures fresh(repo.JobRecords - old(repo.JobRecords)) && fresh(repo.ExecutionRecords - old(repo.ExecutionRecords))
  {
    ghost var s := repo.View();
    for i := 0 to |ops|
      invariant repo.Valid() && repo.View() == ApplyAll(s, ops[..i])
      invariant fresh(repo.JobRecords - old(repo.JobRecords))
      invariant fresh(repo.ExecutionRecords - old(repo.ExecutionRecords))
    {
      Perform(repo, ops[i]);
      assert ops[..i + 1][..i] == ops[..i];
    }
    assert ops[..|ops|] == ops;
  }

  /** Records that the repository does not store keep their values, even where it shares their cells: an
      operation never writes to a cell or a metadata map, it installs a new one. */
  method HeldRecordsKeepValues(repo: MemoryRepository, ops: seq<Operation>, held: seq<JobRecord>)
    requires repo.Valid() && forall i :: 0 <= i < |held| ==> held[i] !in repo.JobRecords
    modifies repo, repo.JobRecords, repo.ExecutionRecords
    ensures forall i :: 0 <= i < |held| ==> held[i].Value() == old(held[i].Value())
    ensures repo.Valid() && repo.View() == ApplyAll(old(repo.View()), ops)
  {
    PerformAll(repo, ops);
  }

  /** A clone keeps all its values whatever the repository does afterwards. */
  method CloneSurvives(repo: MemoryRepository, id: string, ops: seq<Operation>) returns (clone: JobRecord)
    requires repo.Valid() && id in repo.jobs
    modifies repo, repo.JobRecords, repo.ExecutionRecords
    ensures clone.Value() == old(repo.View()).jobs[id]
    ensures repo.Valid() && repo.View() == ApplyAll(old(repo.View()), ops)
  {
    var r := repo.GetJob(id);
    clone := r.value;
    HeldRecordsKeepValues(repo, ops, [clone]);
    assert clone == [clone][0];
  }

  /** So do the copies that the sweep works on, though they share their cells with the stored jobs. */
  method ActiveCopiesSurvive(repo: MemoryRepository, ops: seq<Operation>)
    returns (active: seq<JobRecord>, ghost order: seq<string>)
    requires repo.Valid()
    modifies repo, repo.JobRecords, repo.ExecutionRecords
    ensures Enumerates(order, JobsWith(old(repo.View()), Active)) && |active| == |order|
    ensures forall i :: 0 <= i < |active| ==> active[i].Value() == old(repo.View()).jobs[order[i]]
    ensures repo.Valid() && repo.View() == ApplyAll(old(repo.View()), ops)
  {
    hide MemoryRepository.Valid, MemoryRepository.View, Enumerates, JobsWith;
    active, order := repo.GetActiveJobs();
    HeldRecordsKeepValues(repo, ops, active);
  }

  /** So do the clones on a page of GetAllJobs. */
  method PageSurvives(repo: MemoryRepository, limit: int, offset: int, status: Option<JobStatus>, ops: seq<Operation>)
    returns (page: Option<(seq<JobRecord>, nat)>, ghost order: seq<string>)
    requires repo.Valid()
    modifies repo, repo.JobRecords, repo.ExecutionRecords
    ensures Enumerates(order, Matching(old(repo.View()).jobs, status))
    ensures page.Some? <==> SliceBounds(|order|, limit, offset).Some?
    ensures page.Some? ==>
              var (start, end) := SliceBounds(|order|, limit, offset).value;
              && |page.value.0| == end - start
              && forall i :: 0 <= i < end - start ==>
                   page.value.0[i].Value() == old(repo.View()).jobs[order[start + i]]
    ensures repo.Valid() && repo.View() == ApplyAll(old(repo.View()), ops)
  {
    page, order := repo.GetAllJobs(limit, offset, status);
    hide MemoryRepository.Valid, MemoryRepository.View, Matching, Enumerates;
    HeldRecordsKeepValues(repo, ops, if page.Some? then page.value.0 else []);
  }

  /** Overwrite what a record points to: its time cells and one key of its metadata. */
  method Scribble(job: JobRecord, t: Time, key: string, value: Json)
    modifies job.nextRun, job.lastExecuted, job.metadata
    ensures job.nextRun != null ==> job.nextRun.value == t
    ensures job.metadata != null ==> key in job.metadata.entries && job.metadata.entries[key] == value
  {
    if job.nextRun != null {
      job.nextRun.value := t;
    }
    if job.lastExecuted != null {
      job.lastExecuted.value := t;
    }
    if job.metadata != null {
      job.metadata.entries := job.metadata.entries[key := value];
    }
  }

  /** Writing through the pointers of a record that shares nothing with the repository, as the clones on a page do,
      never changes the store. */
  method ScribbleApart(repo: MemoryRepository, job: JobRecord, t: Time, key: string, value: Json)
    requires repo.Valid() && job.Apart(repo.Repr)
    modifies job.nextRun, job.lastExecuted, job.metadata
    ensures repo.Valid() && repo.View() == old(repo.View())
    ensures job.nextRun != null ==> job.nextRun.value == t
    ensures job.metadata != null ==> key in job.metadata.entries && job.metadata.entries[key] == value
  {
    Scribble(job, t, key, value);
    repo.Steady();
  }

  /** Writing through the pointers of a clone never changes the store. */
  method ScribbleOnClone(repo: MemoryRepository, id: string, t: Time, key: string, value: Json)
    returns (clone: JobRecord)
    requires repo.Valid() && id in repo.jobs
    ensures repo.Valid() && repo.View() == old(repo.View())
    ensures clone.nextRun != null ==> clone.nextRun.value == t
    ensures clone.metadata != null ==> key in clone.metadata.entries && clone.metadata.entries[key] == value
  {
    var r := repo.GetJob(id);
    clone := r.value;
    Scribble(clone, t, key, value);
    repo.Steady();
  }

  /** Writing through the pointers of an active copy does change it: the copies of GetActiveJobs are shallow. */
  method ScribbleOnActive(repo: MemoryRepository, t: Time)
    returns (active: seq<JobRecord>, ghost order: seq<string>)
    requires repo.Valid()
    modifies repo.Repr
    ensures repo.Valid() && |active| == |order|
    ensures forall i :: 0 <= i < |order| ==> order[i] in repo.jobs
    ensures active != [] && active[0].nextRun != null ==> repo.View().jobs[order[0]].nextRun == Some(t)
  {
    active, order := repo.GetActiveJobs();
    if active != [] && active[0].nextRun != null {
      active[0].nextRun.value := t;
    }
  }
}
