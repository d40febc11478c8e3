/** The in-memory repository of repository/memory.go on the heap: records, shared cells and copies.
    Every method is one critical section under the repository's mutex. */
module Repository {
  import opened Common
  import opened Models
  import opened Paging
  import opened Statistics
  import opened StoreSpec
  import opened StoreInvariant

  /** The target of a `*time.Time`. */
  class TimeCell {
    var value: Time

    constructor (value: Time)
      ensures this.value == value
    {
      this.value := value;
    }
  }

  /** A Go map is a reference, so jobs may share one. */
  class MetadataMap {
    var entries: Metadata

    constructor (entries: Metadata)
      ensures this.entries == entries
    {
      this.entries := entries;
    }
  }

  function CellValue(cell: TimeCell?): Option<Time>
    reads cell
  {
    if cell == null then None else Some(cell.value)
  }

  class JobRecord {
    var id: string
    var schedule: string
    var api: string
    var jobType: JobType
    var status: JobStatus
    var createdAt: Time
    var updatedAt: Time
    var lastExecuted: TimeCell?
    var nextRun: TimeCell?
    var metadata: MetadataMap?

    function Value(): Job
      reads this, lastExecuted, nextRun, metadata
    {
      Job(id, schedule, api, jobType, status, createdAt, updatedAt, CellValue(lastExecuted), CellValue(nextRun),
          if metadata == null then None else Some(metadata.entries))
    }

    /** The objects a job points to. */
    ghost function Cells(): set<object>
      reads this
    {
      (if lastExecuted == null then {} else {lastExecuted})
      + (if nextRun == null then {} else {nextRun})
      + (if metadata == null then {} else {metadata})
    }

    /** The record and all it points to are in `repr`. */
    ghost predicate Inside(repr: set<object>)
      reads this
    {
      && this in repr
      && (lastExecuted != null ==> lastExecuted in repr)
      && (nextRun != null ==> nextRun in repr)
      && (metadata != null ==> metadata in repr)
    }


    /** Neither the record nor anything it points to is in `repr`. */
    ghost predicate Apart(repr: set<object>)
      reads this
    {
      this !in repr && nextRun !in repr && lastExecuted !in repr && metadata !in repr
    }

    /** A record with cells of its own. */
    constructor (v: Job)
      ensures Value() == v
      ensures fresh(Cells())
    {
      id, schedule, api, jobType, status := v.id, v.schedule, v.api, v.jobType, v.status;
      createdAt, updatedAt := v.createdAt, v.updatedAt;
      lastExecuted, nextRun, metadata := null, null, null;
      new;
      if v.lastExecuted.Some? {
        lastExecuted := new TimeCell(v.lastExecuted.value);
      }
      if v.nextRun.Some? {
        nextRun := new TimeCell(v.nextRun.value);
      }
      if v.metadata.Some? {
        metadata := new MetadataMap(v.metadata.value);
      }
    }

    /** All fields are equal, pointers included. */
    predicate SameFields(job: JobRecord)
      reads this, job
    {
      && id == job.id && schedule == job.schedule && api == job.api && jobType == job.jobType
      && status == job.status && createdAt == job.createdAt && updatedAt == job.updatedAt
      && lastExecuted == job.lastExecuted && nextRun == job.nextRun && metadata == job.metadata
    }

    /** `*job`: all fields copied, all pointers shared. */
    constructor Shallow(job: JobRecord)
      ensures SameFields(job)
    {
      id, schedule, api, jobType, status := job.id, job.schedule, job.api, job.jobType, job.status;
      createdAt, updatedAt := job.createdAt, job.updatedAt;
      lastExecuted, nextRun, metadata := job.lastExecuted, job.nextRun, job.metadata;
    }
  }

  class ExecutionRecord {
    var id: string
    var jobId: string
    var executedAt: Time
    var completedAt: TimeCell?
    var httpStatus: int
    var responseTime: Duration
    var success: bool
    var error: string
    var responseBody: string

    function Value(): Execution
      reads this, completedAt
    {
      Execution(id, jobId, executedAt, CellValue(completedAt), httpStatus, responseTime, success, error, responseBody)
    }

    ghost function Cells(): set<object>
      reads this
    {
      if completedAt == null then {} else {completedAt}
    }

    ghost predicate Inside(repr: set<object>)
      reads this
    {
      this in repr && (completedAt != null ==> completedAt in repr)
    }


    constructor (v: Execution)
      ensures Value() == v
      ensures completedAt != null ==> fresh(completedAt)
    {
      id, jobId, executedAt, httpStatus, responseTime := v.id, v.jobId, v.executedAt, v.httpStatus, v.responseTime;
      success, error, responseBody := v.success, v.error, v.responseBody;
      completedAt := null;
      new;
      if v.completedAt.Some? {
        completedAt := new TimeCell(v.completedAt.value);
      }
    }

    constructor Shallow(e: ExecutionRecord)
      ensures Value() == e.Value()
      ensures completedAt == e.completedAt
    {
      id, jobId, executedAt, httpStatus, responseTime := e.id, e.jobId, e.executedAt, e.httpStatus, e.responseTime;
      success, error, responseBody := e.success, e.error, e.responseBody;
      completedAt := e.completedAt;
    }
  }

  predicate Matches(job: Job, status: Option<JobStatus>) {
    status.None? || job.status == status.value
  }

  ghost function Matching(jobs: map<string, Job>, status: Option<JobStatus>): set<string> {
    set id | id in jobs && Matches(jobs[id], status)
  }

  type Updates = map<string, Dynamic<MetadataMap>>

  function Lift(d: Dynamic<MetadataMap>): Dynamic<Metadata>
    reads if d.MapValue? then {d.m} else {}
  {
    match d
    case MapValue(m) => MapValue(m.entries)
    case StringValue(s) => StringValue(s)
    case StatusValue(status) => StatusValue(status)
    case TypeValue(jobType) => TypeValue(jobType)
    case TimeValue(t) => TimeValue(t)
    case DurationValue(duration) => DurationValue(duration)
    case IntValue(n) => IntValue(n)
    case BoolValue(b) => BoolValue(b)
    case OtherValue => OtherValue
  }

  /** The metadata maps that occur among the values of `updates`. */
  ghost function MapsOf(updates: Updates): set<object> {
    set key | key in updates && updates[key].MapValue? :: updates[key].m
  }

  /** `updates` with every metadata map replaced by its present entries. */
  ghost function Lifted(updates: Updates): map<string, Dynamic<Metadata>>
    reads MapsOf(updates)
  {
    map key | key in updates :: Lift(updates[key])
  }

  class MemoryRepository {
    var jobs: map<string, JobRecord>
    var executions: map<string, ExecutionRecord>
    var jobExecMap: map<string, seq<string>>
    var idCounter: nat
    ghost var JobRecords: set<JobRecord>                // the records that are or have been stored: with the
    ghost var ExecutionRecords: set<ExecutionRecord>    // repository itself, all that its operations ever write to
    ghost var Repr: set<object>                         // the records and everything they point to

    /** No record is stored twice, and everything reachable is in Repr. */
    ghost predicate Valid()
      reads this, Repr
    {
      && this !in Repr
      && (forall id :: id in jobs ==> jobs[id] in JobRecords && jobs[id] in Repr && jobs[id].Inside(Repr))
      && (forall id :: id in executions ==>
            executions[id] in ExecutionRecords && executions[id] in Repr && executions[id].Inside(Repr))
      && (forall a, b :: a in jobs && b in jobs && a != b ==> jobs[a] != jobs[b])
      && (forall a, b :: a in executions && b in executions && a != b ==> executions[a] != executions[b])
      && (forall j, i :: j in jobExecMap && 0 <= i < |jobExecMap[j]| ==> jobExecMap[j][i] in executions)
      && jobs.Keys == jobExecMap.Keys
    }

    ghost function JobValues(): map<string, Job>
      reads this, Repr
      requires Valid()
    {
      map id | id in jobs :: jobs[id].Value()
    }

    ghost function ExecutionValues(): map<string, Execution>
      reads this, Repr
      requires Valid()
    {
      map id | id in executions :: executions[id].Value()
    }

    /** The stored values. */
    ghost function View(): (s: Store)
      reads this, Repr
      requires Valid()
      ensures s.jobs.Keys == jobs.Keys && s.executions.Keys == executions.Keys
      ensures s.index == jobExecMap && s.counter == idCounter
      ensures Listed(s)
    {
      Store(JobValues(), ExecutionValues(), jobExecMap, idCounter)
    }

    lemma IndexHasJobs()
      requires Valid()
      ensures View().jobs.Keys == View().index.Keys
    {
    }

    constructor ()
      ensures Valid() && fresh(Repr)
      ensures View() == EMPTY && JobRecords == {} && ExecutionRecords == {}
    {
      jobs, executions, jobExecMap, idCounter := map[], map[], map[], 1;
      JobRecords, ExecutionRecords, Repr := {}, {}, {};
    }

    method GenerateId(prefix: string, stamp: nat) returns (id: string)
      requires Valid()
      modifies this`idCounter
      ensures id == NewId(prefix, stamp, old(idCounter))
      ensures Valid() && View() == old(View()).(counter := old(idCounter) + 1)
    {
      id := NewId(prefix, stamp, idCounter);
      idCounter := idCounter + 1;
      JobValuesSame();
      ExecutionValuesSame();
    }

    /** Nothing that the repository reaches has changed, so its value has not. */
    twostate lemma Steady()
      requires old(Valid()) && unchanged(this) && forall o :: o in old(Repr) ==> unchanged(o)
      ensures Valid() && View() == old(View())
    {
    }

    /** The records that the repository reaches, and what they point to, have not changed. */
    twostate predicate RecordsUnchanged()
      requires old(Valid())
      reads *
    {
      && unchanged(this)
      && (forall r: JobRecord :: r in old(Repr) ==> unchanged(r))
      && (forall r: ExecutionRecord :: r in old(Repr) ==> unchanged(r))
      && (forall c: TimeCell :: c in old(Repr) ==> unchanged(c))
      && (forall m: MetadataMap :: m in old(Repr) ==> unchanged(m))
    }

    twostate lemma SteadyJob(id: string)
      requires old(Valid()) && RecordsUnchanged() && id in jobs
      ensures jobs[id].Value() == old(jobs[id].Value()) && jobs[id].Inside(Repr)
    {
      assert old(jobs[id].Inside(Repr));
    }

    twostate lemma SteadyExecution(id: string)
      requires old(Valid()) && RecordsUnchanged() && id in executions
      ensures executions[id].Value() == old(executions[id].Value()) && executions[id].Inside(Repr)
    {
      assert old(executions[id].Inside(Repr));
    }

    /** Then the stored values have not changed, whatever happened to objects of other classes. */
    twostate lemma SteadyRecords()
      requires old(Valid()) && RecordsUnchanged()
      ensures Valid() && View() == old(View())
    {
      forall id | id in jobs
        ensures jobs[id].Value() == old(jobs[id].Value()) && jobs[id].Inside(Repr)
      {
        SteadyJob(id);
      }
      forall id | id in executions
        ensures executions[id].Value() == old(executions[id].Value()) && executions[id].Inside(Repr)
      {
        SteadyExecution(id);
      }
      assert Valid();
      JobValuesSame();
      ExecutionValuesSame();
    }

    /** When only one job record was written, all other records have their old values. */
    twostate lemma OthersSame(job: JobRecord)
      requires old(Valid()) && old(Repr) <= Repr
      requires forall o :: o in old(Repr) && o != job ==> unchanged(o)
      ensures forall id :: id in old(jobs) && old(jobs[id]) != job ==>
                old(jobs[id]).Value() == old(jobs[id].Value()) && old(jobs[id]).Inside(Repr)
      ensures forall id :: id in old(executions) ==>
                old(executions[id]).Value() == old(executions[id].Value()) && old(executions[id]).Inside(Repr)
    {
      forall id | id in old(jobs) && old(jobs[id]) != job
        ensures old(jobs[id]).Value() == old(jobs[id].Value()) && old(jobs[id]).Inside(Repr)
      {
        assert old(jobs[id].Inside(Repr));
      }
      forall id | id in old(executions)
        ensures old(executions[id]).Value() == old(executions[id].Value()) && old(executions[id]).Inside(Repr)
      {
        assert old(executions[id].Inside(Repr));
      }
    }

    /** When only one execution record was written, all other records have their old values. */
    twostate lemma OthersSameAs(e: ExecutionRecord)
      requires old(Valid()) && old(Repr) <= Repr
      requires forall o :: o in old(Repr) && o != e ==> unchanged(o)
      ensures forall id :: id in old(jobs) ==>
                old(jobs[id]).Value() == old(jobs[id].Value()) && old(jobs[id]).Inside(Repr)
      ensures forall id :: id in old(executions) && old(executions[id]) != e ==>
                old(executions[id]).Value() == old(executions[id].Value()) && old(executions[id]).Inside(Repr)
    {
      forall id | id in old(jobs)
        ensures old(jobs[id]).Value() == old(jobs[id].Value()) && old(jobs[id]).Inside(Repr)
      {
        assert old(jobs[id].Inside(Repr));
      }
      forall id | id in old(executions) && old(executions[id]) != e
        ensures old(executions[id]).Value() == old(executions[id].Value()) && old(executions[id]).Inside(Repr)
      {
        assert old(executions[id].Inside(Repr));
      }
    }

    /** A write to the record of one job shows as that job's new value, and as nothing else. */
    twostate lemma OneJobChanged(jobID: string)
      requires old(Valid()) && jobID in old(jobs)
      requires jobs == old(jobs) && executions == old(executions)
      requires jobExecMap == old(jobExecMap) && idCounter == old(idCounter)
      requires forall o :: o in old(Repr) && o != jobs[jobID] ==> unchanged(o)
      requires old(Repr) <= Repr && this !in Repr && jobs[jobID].Inside(Repr)
      requires JobRecords == old(JobRecords) && ExecutionRecords == old(ExecutionRecords)
      ensures Valid()
      ensures View() == WithJob(old(View()), jobID, jobs[jobID].Value())
    {
      OthersSame(jobs[jobID]);
      assert Valid();
      JobValuesAfter(jobID);
      ExecutionValuesSame();
    }

    /** A write to one execution record shows as that execution's new value, and as nothing else. */
    twostate lemma OneExecutionChanged(executionID: string)
      requires old(Valid()) && executionID in old(executions)
      requires jobs == old(jobs) && executions == old(executions)
      requires jobExecMap == old(jobExecMap) && idCounter == old(idCounter)
      requires forall o :: o in old(Repr) && o != executions[executionID] ==> unchanged(o)
      requires old(Repr) <= Repr && this !in Repr && executions[executionID].Inside(Repr)
      requires JobRecords == old(JobRecords) && ExecutionRecords == old(ExecutionRecords)
      ensures Valid()
      ensures View() == old(View()).(executions := old(View()).executions[executionID := executions[executionID].Value()])
    {
      OthersSameAs(executions[executionID]);
      assert Valid();
      JobValuesSame();
      ExecutionValuesAfter(executionID);
    }

    /** A new job shows as one more entry of both maps. */
    twostate lemma JobAdded(job: JobRecord)
      requires old(Valid()) && job.id !in old(jobs) && (forall id :: id in old(jobs) ==> old(jobs[id]) != job)
      requires jobs == old(jobs)[job.id := job] && executions == old(executions)
      requires jobExecMap == old(jobExecMap)[job.id := []]
      requires forall o :: o in old(Repr) && o != job ==> unchanged(o)
      requires old(Repr) <= Repr && this !in Repr && job.Inside(Repr)
      requires JobRecords == old(JobRecords) + {job} && ExecutionRecords == old(ExecutionRecords)
      ensures Valid()
      ensures View() == Store(old(View()).jobs[job.id := job.Value()], old(View()).executions,
                              old(jobExecMap)[job.id := []], idCounter)
    {
      OthersSame(job);
      assert Valid();
      JobValuesExtended(job.id);
      ExecutionValuesSame();
    }

    /** A new execution shows as one more entry and one more listed id. */
    twostate lemma ExecutionAdded(e: ExecutionRecord)
      requires old(Valid()) && e.jobId in old(jobs)
      requires forall id :: id in old(executions) && id != e.id ==> old(executions[id]) != e
      requires executions == old(executions)[e.id := e] && jobs == old(jobs)
      requires jobExecMap == old(jobExecMap)[e.jobId := old(jobExecMap)[e.jobId] + [e.id]]
      requires forall o :: o in old(Repr) && o != e ==> unchanged(o)
      requires old(Repr) <= Repr && this !in Repr && e.Inside(Repr)
      requires JobRecords == old(JobRecords) && ExecutionRecords == old(ExecutionRecords) + {e}
      ensures Valid()
      ensures View() == Store(old(View()).jobs, old(View()).executions[e.id := e.Value()], jobExecMap, idCounter)
    {
      OthersSameAs(e);
      assert Valid();
      JobValuesSame();
      ExecutionValuesAfter(e.id);
    }

    /** Only the counter moved, and a record that is not stored. */
    twostate lemma OnlyCounterMoved(job: JobRecord)
      requires old(Valid()) && (forall id :: id in old(jobs) ==> old(jobs[id]) != job)
      requires jobs == old(jobs) && executions == old(executions) && jobExecMap == old(jobExecMap) && Repr == old(Repr)
      requires JobRecords == old(JobRecords) && ExecutionRecords == old(ExecutionRecords)
      requires forall o :: o in old(Repr) && o != job ==> unchanged(o)
      ensures Valid()
      ensures View() == old(View()).(counter := idCounter)
    {
      OthersSame(job);
      assert Valid();
      JobValuesSame();
      ExecutionValuesSame();
    }

    twostate lemma OnlyCounterMovedAs(e: ExecutionRecord)
      requires old(Valid()) && (forall id :: id in old(executions) ==> old(executions[id]) != e)
      requires jobs == old(jobs) && executions == old(executions) && jobExecMap == old(jobExecMap) && Repr == old(Repr)
      requires JobRecords == old(JobRecords) && ExecutionRecords == old(ExecutionRecords)
      requires forall o :: o in old(Repr) && o != e ==> unchanged(o)
      ensures Valid()
      ensures View() == old(View()).(counter := idCounter)
    {
      OthersSameAs(e);
      assert Valid();
      JobValuesSame();
      ExecutionValuesSame();
    }

    twostate lemma JobValuesExtended(jobID: string)
      requires old(Valid()) && Valid() && jobID in jobs && jobs == old(jobs)[jobID := jobs[jobID]]
      requires forall id :: id in old(jobs) && id != jobID ==> jobs[id].Value() == old(jobs[id].Value())
      ensures JobValues() == old(JobValues())[jobID := jobs[jobID].Value()]
    {
    }

    twostate lemma JobValuesSame()
      requires old(Valid()) && Valid() && jobs == old(jobs)
      requires forall id :: id in jobs ==> jobs[id].Value() == old(jobs[id].Value())
      ensures JobValues() == old(JobValues())
    {
    }

    twostate lemma ExecutionValuesAfter(executionID: string)
      requires old(Valid()) && Valid() && executionID in executions
      requires executions == old(executions)[executionID := executions[executionID]]
      requires forall id :: id in old(executions) && id != executionID ==>
                 executions[id].Value() == old(executions[id].Value())
      ensures ExecutionValues() == old(ExecutionValues())[executionID := executions[executionID].Value()]
    {
    }

    twostate lemma JobValuesAfter(jobID: string)
      requires old(Valid()) && Valid() && jobID in old(jobs) && jobs == old(jobs)
      requires forall id :: id in jobs && id != jobID ==> jobs[id].Value() == old(jobs[id].Value())
      ensures JobValues() == old(JobValues())[jobID := jobs[jobID].Value()]
    {
    }

    twostate lemma ExecutionValuesSame()
      requires old(Valid()) && Valid() && executions == old(executions)
      requires forall id :: id in executions ==> executions[id].Value() == old(executions[id].Value())
      ensures ExecutionValues() == old(ExecutionValues())
    {
    }

    /** The record's own id, or a generated one if that is empty. */
    method ResolveId(given: string, prefix: string, stamp: nat) returns (id: string)
      requires Valid()
      modifies this`idCounter
      ensures id == ResolvedId(old(View()), given, prefix, stamp)
      ensures Valid() && View() == AfterId(old(View()), given)
    {
      id := given;
      if id == "" {
        id := GenerateId(prefix, stamp);
      }
    }

    // ---------- jobs ----------

    /** The caller's record itself is stored. A record that is stored already may be handed in again: its id is
        taken, so it is refused. */
    method CreateJob(job: JobRecord, stamp: nat, now: Time) returns (r: Result<string, RepoError>)
      requires Valid() && (job in JobRecords ==> job.id != "" && job.id in jobs)
      modifies this`jobs, this`jobExecMap, this`idCounter, this`JobRecords, this`Repr, job
      ensures Valid() && Repr <= old(Repr) + {job} + job.Cells()
      ensures (View(), r) == StoreSpec.CreateJob(old(View()), old(job.Value()), stamp, now)
      ensures jobs == if r.Ok? then old(jobs)[r.value := job] else old(jobs)
      ensures JobRecords <= old(JobRecords) + {job}
    {
      hide JobValues, ExecutionValues, NewId;
      var id := ResolveId(job.id, "job", stamp);
      r := StoreJob(job, id, now);
    }

    /** The second half of CreateJob, once the id is known. */
    method StoreJob(job: JobRecord, id: string, now: Time) returns (r: Result<string, RepoError>)
      requires Valid() && (job in JobRecords ==> id == job.id && id in jobs)
      modifies this`jobs, this`jobExecMap, this`JobRecords, this`Repr, job
      ensures Valid() && Repr <= old(Repr) + {job} + job.Cells()
      ensures r == if id in old(jobs) then Err(JobExists(id)) else Ok(id)
      ensures View() == if id in old(jobs) then old(View()) else old(View()).(
        jobs := old(View()).jobs[id := old(job.Value()).(id := id, createdAt := now, updatedAt := now, status := Active)],
        index := old(View()).index[id := []])
      ensures jobs == if id in old(jobs) then old(jobs) else old(jobs)[id := job]
      ensures JobRecords <= old(JobRecords) + {job}
    {
      if id in jobs {
        if id != job.id {
          Rename(job, id);
        }
        return Err(JobExists(id));
      }
      InsertJob(job, id, now);
      return Ok(id);
    }

    method Rename(job: JobRecord, id: string)
      requires Valid() && job !in JobRecords
      modifies job
      ensures Valid() && View() == old(View())
    {
      job.id := id;
      OnlyCounterMoved(job);
    }

    method InsertJob(job: JobRecord, id: string, now: Time)
      requires Valid() && job !in JobRecords && id !in jobs
      modifies this`jobs, this`jobExecMap, this`JobRecords, this`Repr, job
      ensures Valid() && Repr <= old(Repr) + {job} + job.Cells()
      ensures View() == old(View()).(
        jobs := old(View()).jobs[id := old(job.Value()).(id := id, createdAt := now, updatedAt := now, status := Active)],
        index := old(View()).index[id := []])
      ensures jobs == old(jobs)[id := job] && job.id == id && JobRecords == old(JobRecords) + {job}
    {
      hide JobValues, ExecutionValues;
      Activate(job, id, now);
      jobs := jobs[id := job];
      jobExecMap := jobExecMap[id := []];
      JobRecords, Repr := JobRecords + {job}, Repr + {job} + job.Cells();
      JobAdded(job);
    }

    static method Activate(job: JobRecord, id: string, now: Time)
      modifies job
      ensures job.Value() == old(job.Value()).(id := id, createdAt := now, updatedAt := now, status := Active)
      ensures job.Cells() == old(job.Cells()) && job.id == id
    {
      job.id := id;
      job.createdAt := now;
      job.updatedAt := now;
      job.status := Active;
    }

    /** cloneJob: a copy that shares nothing with the original. */
    static method CloneJob(job: JobRecord) returns (copy: JobRecord)
      ensures copy.Value() == job.Value() && fresh(copy)
      ensures copy.nextRun != null ==> fresh(copy.nextRun)
      ensures copy.lastExecuted != null ==> fresh(copy.lastExecuted)
      ensures copy.metadata != null ==> fresh(copy.metadata)
    {
      copy := new JobRecord.Shallow(job);
      if job.metadata != null {
        copy.metadata := new MetadataMap(job.metadata.entries);
      }
      if job.nextRun != null {
        copy.nextRun := new TimeCell(job.nextRun.value);
      }
      if job.lastExecuted != null {
        copy.lastExecuted := new TimeCell(job.lastExecuted.value);
      }
    }

    method GetJob(jobID: string) returns (r: Result<JobRecord, RepoError>)
      requires Valid()
      ensures r.Ok? <==> jobID in jobs
      ensures r.Err? ==> r.error == JobNotFound(jobID)
      ensures r.Ok? ==> r.value.Value() == old(View()).jobs[jobID] && fresh(r.value)
      ensures r.Ok? && r.value.nextRun != null ==> fresh(r.value.nextRun)
      ensures r.Ok? && r.value.lastExecuted != null ==> fresh(r.value.lastExecuted)
      ensures r.Ok? && r.value.metadata != null ==> fresh(r.value.metadata)
      ensures Valid() && View() == old(View())
    {
      if jobID !in jobs {
        return Err(JobNotFound(jobID));
      }
      var copy := CloneJob(jobs[jobID]);
      Steady();
      return Ok(copy);
    }

    method UpdateJob(jobID: string, updates: Updates, now: Time) returns (r: Option<RepoError>)
      requires Valid()
      modifies this`Repr, if jobID in jobs then {jobs[jobID]} else {}
      ensures Valid()
      ensures View() == StoreSpec.UpdateJob(old(View()), jobID, old(Lifted(updates)), now)
      ensures r == if jobID in jobs then None else Some(JobNotFound(jobID))
    {
      if jobID !in jobs {
        return Some(JobNotFound(jobID));
      }
      InstallUpdate(jobID, updates, now);
      OverwrittenJob(old(View()), jobID, old(Lifted(updates)), now);
      return None;
    }

    method InstallUpdate(jobID: string, updates: Updates, now: Time)
      requires Valid() && jobID in jobs
      modifies this`Repr, jobs[jobID]
      ensures Valid()
      ensures View() == WithJob(old(View()), jobID,
                                UpdatedJob(old(jobs[jobID].Value()), old(Lifted(updates))).(updatedAt := now))
    {
      hide JobValues, ExecutionValues, UpdatedJob, Lifted;
      Overwrite(jobs[jobID], updates, now);
      Repr := Repr + MapsOf(updates);
      OneJobChanged(jobID);
    }

    static lemma OverwrittenJob(s: Store, id: string, updates: map<string, Dynamic<Metadata>>, now: Time)
      requires id in s.jobs
      ensures WithJob(s, id, UpdatedJob(s.jobs[id], updates).(updatedAt := now))
              == StoreSpec.UpdateJob(s, id, updates, now)
    {
    }

    /** The new value of a job under update, stamped. */
    static method Overwrite(job: JobRecord, updates: Updates, now: Time)
      modifies job
      ensures job.Value() == UpdatedJob(old(job.Value()), old(Lifted(updates))).(updatedAt := now)
      ensures job.nextRun == old(job.nextRun) && job.lastExecuted == old(job.lastExecuted)
      ensures job.metadata == old(job.metadata) || (job.metadata != null && job.metadata in MapsOf(updates))
    {
      ApplyUpdates(job, updates);
      Touch(job, now);
    }

    /** New cells are installed; the old ones are left as they are for those who share them. */
    static method SetNextRun(job: JobRecord, nextRun: Time, now: Time)
      modifies job
      ensures job.Value() == old(job.Value()).(nextRun := Some(nextRun), updatedAt := now)
      ensures job.lastExecuted == old(job.lastExecuted) && job.metadata == old(job.metadata)
      ensures job.nextRun != null && fresh(job.nextRun)
    {
      job.nextRun := new TimeCell(nextRun);
      Touch(job, now);
    }

    static method SetLastExecuted(job: JobRecord, lastExecuted: Time, now: Time)
      modifies job
      ensures job.Value() == old(job.Value()).(lastExecuted := Some(lastExecuted), updatedAt := now)
      ensures job.nextRun == old(job.nextRun) && job.metadata == old(job.metadata)
      ensures job.lastExecuted != null && fresh(job.lastExecuted)
    {
      job.lastExecuted := new TimeCell(lastExecuted);
      Touch(job, now);
    }

    static method Touch(job: JobRecord, now: Time)
      modifies job`updatedAt
      ensures job.Value() == old(job.Value()).(updatedAt := now)
    {
      job.updatedAt := now;
    }

    /** The loop over the updates, in whatever order the map yields its keys. */
    static method ApplyUpdates(job: JobRecord, updates: Updates)
      modifies job
      ensures job.Value() == UpdatedJob(old(job.Value()), old(Lifted(updates)))
      ensures job.nextRun == old(job.nextRun) && job.lastExecuted == old(job.lastExecuted)
      ensures job.metadata == old(job.metadata) || (job.metadata != null && job.metadata in MapsOf(updates))
    {
      var keys := updates.Keys;
      ghost var before, lifted := job.Value(), Lifted(updates);
      assert lifted - keys == map[];
      while keys != {}
        invariant keys <= updates.Keys && Lifted(updates) == lifted
        invariant job.Value() == UpdatedJob(before, lifted - keys)
        invariant job.nextRun == old(job.nextRun) && job.lastExecuted == old(job.lastExecuted)
        invariant job.metadata == old(job.metadata) || (job.metadata != null && job.metadata in MapsOf(updates))
        decreases keys
      {
        var key :| key in keys;
        SetFieldOf(job, key, updates[key]);
        SetFieldExtends(before, lifted - keys, key, lifted[key]);
        assert lifted - (keys - {key}) == (lifted - keys)[key := lifted[key]];
        keys := keys - {key};
      }
      assert lifted - keys == lifted;
    }

    static method SetFieldOf(job: JobRecord, key: string, value: Dynamic<MetadataMap>)
      modifies job
      ensures job.Value() == SetField(old(job.Value()), key, Lift(value))
      ensures job.nextRun == old(job.nextRun) && job.lastExecuted == old(job.lastExecuted)
      ensures job.metadata == old(job.metadata) || (value.MapValue? && job.metadata == value.m)
    {
      if key == "schedule" {
        if value.StringValue? { job.schedule := value.s; }
      } else if key == "api" {
        if value.StringValue? { job.api := value.s; }
      } else if key == "type" {
        if value.TypeValue? { job.jobType := value.jobType; }
      } else if key == "status" {
        if value.StatusValue? { job.status := value.status; }
      } else if key == "metadata" {
        if value.MapValue? { job.metadata := value.m; }
      }
    }

    method DeleteJob(jobID: string, now: Time) returns (r: Option<RepoError>)
      requires Valid()
      modifies if jobID in jobs then {jobs[jobID]} else {}
      ensures Valid()
      ensures View() == StoreSpec.DeleteJob(old(View()), jobID, now)
      ensures r == if jobID in jobs then None else Some(JobNotFound(jobID))
    {
      if jobID !in jobs {
        return Some(JobNotFound(jobID));
      }
      var job := jobs[jobID];
      job.status := Deleted;
      Touch(job, now);
      OneJobChanged(jobID);
      return None;
    }

    method UpdateJobNextRun(jobID: string, nextRun: Time, now: Time) returns (r: Option<RepoError>)
      requires Valid()
      modifies this`Repr, if jobID in jobs then {jobs[jobID]} else {}
      ensures Valid() && fresh(Repr - old(Repr))
      ensures View() == StoreSpec.UpdateJobNextRun(old(View()), jobID, nextRun, now)
      ensures r == if jobID in jobs then None else Some(JobNotFound(jobID))
    {
      if jobID !in jobs {
        return Some(JobNotFound(jobID));
      }
      var job := jobs[jobID];
      SetNextRun(job, nextRun, now);
      Repr := Repr + {job.nextRun};
      OneJobChanged(jobID);
      return None;
    }

    method UpdateJobLastExecuted(jobID: string, lastExecuted: Time, now: Time) returns (r: Option<RepoError>)
      requires Valid()
      modifies this`Repr, if jobID in jobs then {jobs[jobID]} else {}
      ensures Valid() && fresh(Repr - old(Repr))
      ensures View() == StoreSpec.UpdateJobLastExecuted(old(View()), jobID, lastExecuted, now)
      ensures r == if jobID in jobs then None else Some(JobNotFound(jobID))
    {
      if jobID !in jobs {
        return Some(JobNotFound(jobID));
      }
      var job := jobs[jobID];
      SetLastExecuted(job, lastExecuted, now);
      Repr := Repr + {job.lastExecuted};
      OneJobChanged(jobID);
      return None;
    }

    // ---------- executions ----------

    /** The caller's record itself is stored, under its own id if it has one. */
    method CreateExecution(execution: ExecutionRecord, stamp: nat, now: Time) returns (r: Result<string, RepoError>)
      requires Valid() && (execution in ExecutionRecords ==> execution.id != "" && StoredAs(execution, execution.id))
      modifies this`executions, this`jobExecMap, this`idCounter, this`ExecutionRecords, this`Repr, execution
      ensures Valid() && Repr <= old(Repr) + {execution} + execution.Cells()
      ensures (View(), r) == StoreSpec.CreateExecution(old(View()), old(execution.Value()), stamp, now)
      ensures executions == if r.Ok? then old(executions)[r.value := execution] else old(executions)
      ensures ExecutionRecords <= old(ExecutionRecords) + {execution}
    {
      ghost var s, v := View(), execution.Value();
      var id := ResolveId(execution.id, "exec", stamp);
      assert execution.Value() == v;
      if execution.jobId !in jobs {
        if id != execution.id {
          RenameExecution(execution, id);
        }
        return Err(JobNotFound(execution.jobId));
      }
      InsertExecution(execution, id, now);
      assert View() == StoreSpec.CreateExecution(s, v, stamp, now).0;
      return Ok(id);
    }

    predicate StoredAs(execution: ExecutionRecord, id: string)
      reads this
    {
      id in executions && executions[id] == execution
    }

    method RenameExecution(execution: ExecutionRecord, id: string)
      requires Valid() && execution !in ExecutionRecords
      modifies execution
      ensures Valid() && View() == old(View()) && execution.jobId == old(execution.jobId)
    {
      execution.id := id;
      OnlyCounterMovedAs(execution);
    }

    method InsertExecution(execution: ExecutionRecord, id: string, now: Time)
      requires Valid() && execution.jobId in jobs && (execution in ExecutionRecords ==> StoredAs(execution, id))
      modifies this`executions, this`jobExecMap, this`ExecutionRecords, this`Repr, execution
      ensures Valid() && Repr <= old(Repr) + {execution} + execution.Cells()
      ensures View() == old(View()).(
        executions := old(View()).executions[id := old(execution.Value()).(id := id, executedAt := now)],
        index := old(jobExecMap)[old(execution.jobId) := old(jobExecMap)[old(execution.jobId)] + [id]])
      ensures executions == old(executions)[id := execution]
      ensures ExecutionRecords == old(ExecutionRecords) + {execution}
    {
      hide JobValues, ExecutionValues;
      execution.id := id;
      execution.executedAt := now;
      assert execution.Value() == old(execution.Value()).(id := id, executedAt := now);
      executions := executions[id := execution];
      jobExecMap := jobExecMap[execution.jobId := jobExecMap[execution.jobId] + [id]];
      ExecutionRecords, Repr := ExecutionRecords + {execution}, Repr + {execution} + execution.Cells();
      ExecutionAdded(execution);
    }

    method UpdateExecution(executionID: string, updates: Updates) returns (r: Option<RepoError>)
      requires Valid()
      modifies this`Repr, if executionID in executions then {executions[executionID]} else {}
      ensures Valid() && fresh(Repr - old(Repr))
      ensures View() == StoreSpec.UpdateExecution(old(View()), executionID, updates)
      ensures r == if executionID in executions then None else Some(ExecutionNotFound(executionID))
    {
      if executionID !in executions {
        return Some(ExecutionNotFound(executionID));
      }
      var exec := executions[executionID];
      OverwriteExecution(exec, updates);
      Repr := Repr + exec.Cells();
      OneExecutionChanged(executionID);
      return None;
    }

    /** The loop over the updates, in whatever order the map yields its keys. */
    static method OverwriteExecution(exec: ExecutionRecord, updates: Updates)
      modifies exec
      ensures exec.Value() == UpdatedExecution(old(exec.Value()), updates)
      ensures exec.completedAt == old(exec.completedAt) || (exec.completedAt != null && fresh(exec.completedAt))
    {
      var keys := updates.Keys;
      ghost var before := exec.Value();
      assert updates - keys == map[];
      while keys != {}
        invariant keys <= updates.Keys
        invariant exec.Value() == UpdatedExecution(before, updates - keys)
        invariant exec.completedAt == old(exec.completedAt) || (exec.completedAt != null && fresh(exec.completedAt))
        decreases keys
      {
        var key :| key in keys;
        SetExecutionFieldOf(exec, key, updates[key]);
        SetExecutionFieldExtends(before, updates - keys, key, updates[key]);
        assert updates - (keys - {key}) == (updates - keys)[key := updates[key]];
        keys := keys - {key};
      }
      assert updates - keys == updates;
    }

    static method SetExecutionFieldOf(exec: ExecutionRecord, key: string, value: Dynamic<MetadataMap>)
      modifies exec
      ensures exec.Value() == SetExecutionField(old(exec.Value()), key, value)
      ensures exec.completedAt == old(exec.completedAt) || (exec.completedAt != null && fresh(exec.completedAt))
    {
      if key == "completed_at" {
        if value.TimeValue? { exec.completedAt := new TimeCell(value.t); }
      } else if key == "http_status" {
        if value.IntValue? { exec.httpStatus := value.n; }
      } else if key == "response_time" {
        if value.DurationValue? { exec.responseTime := value.d; }
      } else if key == "success" {
        if value.BoolValue? { exec.success := value.b; }
      } else if key == "error" {
        if value.StringValue? { exec.error := value.s; }
      } else if key == "response_body" {
        if value.StringValue? { exec.responseBody := value.s; }
      }
    }

    // ---------- reading ----------

    /** `s` holds the values of the stored jobs. */
    ghost predicate Shows(s: map<string, Job>)
      reads this, Repr
    {
      && s.Keys == jobs.Keys
      && forall id :: id in jobs ==> jobs[id] in Repr && jobs[id].Inside(Repr) && jobs[id].Value() == s[id]
    }

    /** Copies of the active jobs, in whatever order the map yields them. The copies share the time cells and
        the metadata of the stored jobs. */
    method GetActiveJobs() returns (active: seq<JobRecord>, ghost order: seq<string>)
      requires Valid()
      ensures Enumerates(order, JobsWith(old(View()), Active)) && |active| == |order|
      ensures forall i :: 0 <= i < |active| ==> order[i] in jobs && active[i].SameFields(jobs[order[i]])
      ensures forall i :: 0 <= i < |active| ==> fresh(active[i]) && active[i].Value() == old(View()).jobs[order[i]]
    {
      ghost var s := View();
      assert forall id :: id in jobs ==> jobs[id].Value() == s.jobs[id];
      hide View, Valid, Enumerates;
      active, order := CopyActive(JobsWith(s, Active));
    }

    method CopyActive(ghost wanted: set<string>) returns (active: seq<JobRecord>, ghost order: seq<string>)
      requires wanted <= jobs.Keys && forall id :: id in jobs ==> (id in wanted <==> jobs[id].status == Active)
      ensures Enumerates(order, wanted) && |active| == |order|
      ensures forall i :: 0 <= i < |active| ==>
                order[i] in jobs && fresh(active[i]) && active[i].SameFields(jobs[order[i]])
    {
      active, order := [], [];
      var keys := jobs.Keys;
      while keys != {}
        invariant keys <= jobs.Keys && |active| == |order|
        invariant Enumerates(order, wanted - keys)
        invariant forall i :: 0 <= i < |active| ==>
                    order[i] in jobs && fresh(active[i]) && active[i].SameFields(jobs[order[i]])
        decreases keys
      {
        var id :| id in keys;
        EnumeratesNext(order, wanted, keys, id);
        if jobs[id].status == Active {
          var copy := new JobRecord.Shallow(jobs[id]);
          active, order := active + [copy], order + [id];
        }
        keys := keys - {id};
      }
    }

    /** A page of clones of the jobs with the given status, in whatever order the map yields them; None where
        slicing panics. */
    method GetAllJobs(limit: int, offset: int, status: Option<JobStatus>)
      returns (page: Option<(seq<JobRecord>, nat)>, ghost order: seq<string>)
      requires Valid()
      ensures Valid() && View() == old(View())
      ensures Enumerates(order, Matching(old(View()).jobs, status))
      ensures forall id :: id in order <==>
                id in old(View()).jobs && (status.Some? ==> old(View()).jobs[id].status == status.value)
      ensures page.Some? <==> SliceBounds(|order|, limit, offset).Some?
      ensures page.Some? ==>
                var (start, end) := SliceBounds(|order|, limit, offset).value;
                && page.value.1 == |order| && |page.value.0| == end - start
                && forall i :: 0 <= i < end - start ==>
                     && page.value.0[i].Value() == old(View()).jobs[order[start + i]]
                     && page.value.0[i].Apart(Repr) && page.value.0[i] !in JobRecords
                     && (status.Some? ==> page.value.0[i].status == status.value)
    {
      hide Valid, View, JobValues, Shows, Matching, Enumerates, SliceBounds;
      var filtered;
      ghost var stored := View().jobs;
      ShowsView();
      filtered, order := CloneMatching(status, stored);
      MatchingMeans(order, stored, status);
      StatusOfClones(filtered, order, stored, status);
      page := SlicePage(filtered, limit, offset);
      Steady();
    }

    lemma ShowsView()
      requires Valid()
      ensures Shows(View().jobs)
    {
    }

    static lemma StatusOfClones(
      clones: seq<JobRecord>, order: seq<string>, jobs: map<string, Job>, status: Option<JobStatus>)
      requires |clones| == |order| && forall id :: id in order ==> id in jobs
      requires forall i :: 0 <= i < |clones| ==> clones[i].Value() == jobs[order[i]]
      requires status.Some? ==> forall id :: id in order ==> jobs[id].status == status.value
      ensures status.Some? ==> forall i :: 0 <= i < |clones| ==> clones[i].status == status.value
    {
      forall i | 0 <= i < |clones| && status.Some?
        ensures clones[i].status == status.value
      {
        assert clones[i].Value() == jobs[order[i]] && order[i] in order;
      }
    }

    static lemma MatchingMeans(order: seq<string>, jobs: map<string, Job>, status: Option<JobStatus>)
      requires Enumerates(order, Matching(jobs, status))
      ensures forall id :: id in order <==> id in jobs && (status.Some? ==> jobs[id].status == status.value)
    {
    }

    /** `filtered[start:end]`, with the length of `filtered`. */
    static method SlicePage(filtered: seq<JobRecord>, limit: int, offset: int)
      returns (page: Option<(seq<JobRecord>, nat)>)
      ensures var bounds := SliceBounds(|filtered|, limit, offset);
              page == if bounds.None? then None
                      else Some((filtered[bounds.value.0..bounds.value.1], |filtered|))
    {
      var start := Min(offset, |filtered|);
      var end := Min(Wrap64(start + limit), |filtered|);
      if !(0 <= start <= end) {
        return None;
      }
      return Some((filtered[start..end], |filtered|));
    }

    method CloneMatching(status: Option<JobStatus>, ghost s: map<string, Job>)
      returns (filtered: seq<JobRecord>, ghost order: seq<string>)
      requires Shows(s)
      ensures Enumerates(order, Matching(s, status)) && |filtered| == |order|
      ensures forall i :: 0 <= i < |filtered| ==>
                filtered[i].Value() == s[order[i]] && filtered[i].Apart(Repr) && filtered[i] !in JobRecords
    {
      filtered, order := [], [];
      var keys := jobs.Keys;
      ghost var values: seq<Job> := [];
      ghost var wanted := Matching(s, status);
      while keys != {}
        invariant keys <= jobs.Keys && Shows(s) && |order| == |values|
        invariant Enumerates(order, wanted - keys)
        invariant forall i :: 0 <= i < |order| ==> values[i] == s[order[i]]
        invariant ClonesOf(filtered, values)
        decreases keys
      {
        var id :| id in keys;
        EnumeratesNext(order, wanted, keys, id);
        filtered := CloneIfMatching(jobs[id], status, filtered, s[id], values);
        if Matches(s[id], status) {
          order, values := order + [id], values + [s[id]];
        }
        keys := keys - {id};
      }
    }

    /** The clones hold the given values and share nothing with the repository. */
    ghost predicate ClonesOf(clones: seq<JobRecord>, values: seq<Job>)
      reads *
    {
      |clones| == |values|
      && forall i :: 0 <= i < |clones| ==>
           clones[i].Value() == values[i] && clones[i].Apart(Repr) && clones[i] !in JobRecords
    }

    /** The body of the loop over the jobs. */
    method CloneIfMatching(
      job: JobRecord, status: Option<JobStatus>, clones: seq<JobRecord>, ghost v: Job, ghost values: seq<Job>)
      returns (r: seq<JobRecord>)
      requires ClonesOf(clones, values) && job.Value() == v
      ensures ClonesOf(r, if Matches(v, status) then values + [v] else values)
    {
      r := clones;
      if status.None? || job.status == status.value {
        var copy := CloneJob(job);
        r := clones + [copy];
      }
    }

    /** Copies of a job's executions, newest first; None where indexing panics. */
    method GetJobExecutions(jobID: string, limit: int, offset: int)
      returns (r: Result<Option<(seq<ExecutionRecord>, nat)>, RepoError>)
      requires Valid()
      ensures r.Ok? <==> jobID in jobs
      ensures r.Err? ==> r.error == JobNotFound(jobID)
      ensures r.Ok? ==>
                var h := History(old(View()), jobID);
                var top, floor := LoopTop(|h|, offset), LoopFloor(|h|, limit, offset);
                && (r.value.None? <==> top >= |h| && top >= floor)
                && (r.value.Some? ==> r.value.value.1 == |h| && forall e :: e in r.value.value.0 ==> fresh(e))
                && (r.value.Some? && top >= |h| ==> r.value.value.0 == [])
                && (r.value.Some? && top < |h| ==>
                      && |r.value.value.0| == |Downward(h, top, floor)|
                      && forall i :: 0 <= i < |r.value.value.0| ==>
                           r.value.value.0[i].Value() == Downward(h, top, floor)[i])
    {
      if jobID !in jobExecMap {
        return Err(JobNotFound(jobID));
      }
      var execIDs := jobExecMap[jobID];
      var total := |execIDs|;
      var start := Min(offset, total);
      var end := Min(Wrap64(start + limit), total);
      var top, floor := Wrap64(total - 1 - start), Wrap64(total - end);
      ghost var h := History(View(), jobID);
      assert top == LoopTop(|h|, offset) && floor == LoopFloor(|h|, limit, offset);
      var result := CopyDownward(execIDs, h, top, floor);
      return Ok(if result.None? then None else Some((result.value, total)));
    }

    method CopyDownward(execIDs: seq<string>, ghost h: seq<Execution>, top: int, floor: int)
      returns (r: Option<seq<ExecutionRecord>>)
      requires |h| == |execIDs|
      requires forall i :: 0 <= i < |h| ==> execIDs[i] in executions && executions[execIDs[i]].Value() == h[i]
      ensures r.None? <==> top >= |h| && top >= floor
      ensures r.Some? ==> forall e :: e in r.value ==> fresh(e)
      ensures r.Some? && top >= |h| ==> r.value == []
      ensures r.Some? && top < |h| ==>
                && |r.value| == |Downward(h, top, floor)|
                && forall i :: 0 <= i < |r.value| ==> r.value[i].Value() == Downward(h, top, floor)[i]
    {
      hide Downward;
      var result: seq<ExecutionRecord> := [];
      ghost var values: seq<Execution> := [];
      var i := top;
      while i >= floor && i >= 0
        invariant i <= top && (i < top ==> top < |h|) && (i == top ==> result == [])
        invariant |values| == |result|
        invariant forall k :: 0 <= k < |result| ==> fresh(result[k]) && result[k].Value() == values[k]
        invariant top < |h| ==> Downward(h, top, floor) == values + Downward(h, i, floor)
        decreases i
      {
        if i >= |execIDs| {
          return None;
        }
        var copy := new ExecutionRecord.Shallow(executions[execIDs[i]]);
        DownwardStep(h, i, floor);
        result, values := result + [copy], values + [h[i]];
        i := i - 1;
      }
      if i < |h| {
        DownwardStep(h, i, floor);
      }
      return Some(result);
    }

    method GetJobStats(jobID: string) returns (r: Result<JobStats, RepoError>)
      requires Valid()
      ensures r == if jobID in jobs then Ok(StatsOf(old(View()).jobs[jobID], jobID, History(old(View()), jobID)))
                   else Err(JobNotFound(jobID))
    {
      if jobID !in jobs {
        return Err(JobNotFound(jobID));
      }
      var execIDs := jobExecMap[jobID];
      var successful, failed, totalResponseTime, last := SumHistory(execIDs, History(View(), jobID));
      var average := Average(totalResponseTime, |execIDs|);
      return Ok(JobStats(jobID, |execIDs|, successful, failed, average, last, CellValue(jobs[jobID].nextRun)));
    }

    /** The loop over a job's executions. */
    method SumHistory(execIDs: seq<string>, ghost h: seq<Execution>)
      returns (successful: int, failed: int, totalResponseTime: int, last: Option<Time>)
      requires |h| == |execIDs|
      requires forall i :: 0 <= i < |h| ==> execIDs[i] in executions && executions[execIDs[i]].Value() == h[i]
      ensures Tally(|h|, successful, failed, totalResponseTime) == HistoryTally(h)
      ensures last == LatestOf(h)
    {
      successful, failed, totalResponseTime, last := 0, 0, 0, None;
      for i := 0 to |execIDs|
        invariant HistoryTally(h[..i]) == Tally(i, successful, failed, totalResponseTime)
        invariant LatestOf(h[..i]) == last
      {
        HistoryStep(h, i);
        successful, failed, totalResponseTime, last :=
          TakeExecution(executions[execIDs[i]], i, successful, failed, totalResponseTime, last);
      }
      assert h[..|execIDs|] == h;
    }

    /** The body of the loop over a job's executions. */
    static method TakeExecution(
      exec: ExecutionRecord, ghost total: int, successful: int, failed: int, responseTime: int, last: Option<Time>)
      returns (successful': int, failed': int, responseTime': int, last': Option<Time>)
      ensures Tally(total + 1, successful', failed', responseTime')
              == Plus(Tally(total, successful, failed, responseTime), TallyOf(exec.Value()))
      ensures last' == Later(last, exec.Value())
    {
      successful', failed', last' := successful, failed, last;
      if exec.success {
        successful' := successful' + 1;
      } else {
        failed' := failed' + 1;
      }
      responseTime' := responseTime + exec.responseTime;
      if last.None? || exec.executedAt > last.value {
        last' := Some(exec.executedAt);
      }
    }

    method GetSchedulerStats(from: Time, to: Time) returns (stats: SchedulerStats)
      requires Valid()
      ensures stats == SchedulerStatsOf(old(View()), from, to)
    {
      ghost var s := View();
      var active, inactive, deleted := CountStatuses(s);
      var t := SumExecutions(from, to, s);
      assert |s.jobs| == |jobs|;
      stats := SchedulerStats(|jobs|, active, inactive, deleted, t,
                              Average(t.responseTime, if t.total > 0 then t.total else 0), from, to);
    }

    /** The switch on a job's status. */
    static method CountJob(job: JobRecord, active: int, inactive: int, deleted: int)
      returns (active': int, inactive': int, deleted': int)
      ensures active' == active + (if job.Value().status == Active then 1 else 0)
      ensures inactive' == inactive + (if job.Value().status == Inactive then 1 else 0)
      ensures deleted' == deleted + (if job.Value().status == Deleted then 1 else 0)
    {
      active', inactive', deleted' := active, inactive, deleted;
      match job.status {
        case Active => active' := active' + 1;
        case Inactive => inactive' := inactive' + 1;
        case Deleted => deleted' := deleted' + 1;
        case OtherStatus(_) =>
      }
    }

    /** The loop over the jobs, in whatever order the map yields them. */
    method CountStatuses(ghost s: Store) returns (active: int, inactive: int, deleted: int)
      requires jobs.Keys == s.jobs.Keys && forall id :: id in jobs ==> jobs[id].Value() == s.jobs[id]
      ensures active == |JobsWith(s, Active)|
      ensures inactive == |JobsWith(s, Inactive)|
      ensures deleted == |JobsWith(s, Deleted)|
    {
      active, inactive, deleted := 0, 0, 0;
      var keys := jobs.Keys;
      CountEnds(s, Active);
      CountEnds(s, Inactive);
      CountEnds(s, Deleted);
      while keys != {}
        invariant keys <= jobs.Keys
        invariant active == CountedOutside(s, keys, Active)
        invariant inactive == CountedOutside(s, keys, Inactive)
        invariant deleted == CountedOutside(s, keys, Deleted)
        decreases keys
      {
        var id :| id in keys;
        CountStep(s, keys, id);
        active, inactive, deleted := CountJob(jobs[id], active, inactive, deleted);
        keys := keys - {id};
      }
      assert keys == {};
    }

    /** The body of the loop over the executions: the four counters after one more record. */
    static method CountExecution(exec: ExecutionRecord, from: Time, to: Time, counters: Tally) returns (r: Tally)
      ensures r == Plus(counters, Share(TallyOf(exec.Value()), Within(exec.Value(), from, to)))
    {
      r := counters;
      if from < exec.executedAt < to {
        r := r.(total := r.total + 1);
        if exec.success {
          r := r.(successful := r.successful + 1);
        } else {
          r := r.(failed := r.failed + 1);
        }
        r := r.(responseTime := r.responseTime + exec.responseTime);
      }
    }

    /** The loop over the executions, in whatever order the map yields them. */
    method SumExecutions(from: Time, to: Time, ghost s: Store) returns (t: Tally)
      requires executions.Keys == s.executions.Keys
      requires forall id :: id in executions ==> executions[id].Value() == s.executions[id]
      ensures t == RangeTally(s, from, to)
    {
      t := NOTHING;
      var keys := executions.Keys;
      ghost var visited: seq<string> := [];
      while keys != {}
        invariant keys <= executions.Keys && Enumerates(visited, s.executions.Keys - keys)
        invariant t == SumVisited(s, visited, from, to)
        decreases keys
      {
        var id :| id in keys;
        EnumeratesNext(visited, s.executions.Keys, keys, id);
        SumVisitedStep(s, visited, id, from, to);
        t := CountExecution(executions[id], from, to, t);
        keys, visited := keys - {id}, visited + [id];
      }
      assert s.executions.Keys - {} == s.executions.Keys;
      AnyOrderSums(s, visited, s.executions.Keys, from, to);
    }
  }
}
