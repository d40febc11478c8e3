/** What each operation of repository/memory.go does to the stored values. */
module StoreSpec {
  import opened Common
  import opened Models
  import opened Text

  datatype Store = Store(
    jobs: map<string, Job>,
    executions: map<string, Execution>,
    index: map<string, seq<string>>,    // job id -> ids of its executions, oldest first
    counter: nat)

  datatype RepoError = JobNotFound(id: string) | JobExists(id: string) | ExecutionNotFound(id: string)

  const EMPTY := Store(map[], map[], map[], 1)

  function NewId(prefix: string, stamp: nat, counter: nat): string {
    prefix + "_" + Decimal(stamp) + "_" + Decimal(counter)
  }

  /** The id under which a record is stored: its own, or a generated one if that is empty. */
  function ResolvedId(s: Store, id: string, prefix: string, stamp: nat): string {
    if id == "" then NewId(prefix, stamp, s.counter) else id
  }

  function AfterId(s: Store, id: string): Store {
    if id == "" then s.(counter := s.counter + 1) else s
  }

  function CreateJob(s: Store, job: Job, stamp: nat, now: Time): (Store, Result<string, RepoError>) {
    var id := ResolvedId(s, job.id, "job", stamp);
    var s' := AfterId(s, job.id);
    if id in s.jobs then (s', Err(JobExists(id)))
    else
      var stored := job.(id := id, createdAt := now, updatedAt := now, status := Active);
      (s'.(jobs := s.jobs[id := stored], index := s.index[id := []]), Ok(id))
  }

  /** Fields named by a known key with a value of the right dynamic type are replaced; all others stay. */
  function UpdatedJob(job: Job, updates: map<string, Dynamic<Metadata>>): Job {
    job.(
      schedule := if "schedule" in updates && updates["schedule"].StringValue? then updates["schedule"].s
                  else job.schedule,
      api := if "api" in updates && updates["api"].StringValue? then updates["api"].s else job.api,
      jobType := if "type" in updates && updates["type"].TypeValue? then updates["type"].jobType else job.jobType,
      status := if "status" in updates && updates["status"].StatusValue? then updates["status"].status
                else job.status,
      metadata := if "metadata" in updates && updates["metadata"].MapValue? then Some(updates["metadata"].m)
                  else job.metadata)
  }

  /** One turn of the loop over the updates. */
  function SetField(job: Job, key: string, value: Dynamic<Metadata>): Job {
    if key == "schedule" && value.StringValue? then job.(schedule := value.s)
    else if key == "api" && value.StringValue? then job.(api := value.s)
    else if key == "type" && value.TypeValue? then job.(jobType := value.jobType)
    else if key == "status" && value.StatusValue? then job.(status := value.status)
    else if key == "metadata" && value.MapValue? then job.(metadata := Some(value.m))
    else job
  }

  /** The turns may come in any order: each one adds its own key to what has been applied. */
  lemma SetFieldExtends(
    job: Job, updates: map<string, Dynamic<Metadata>>, key: string, value: Dynamic<Metadata>)
    requires key !in updates
    ensures UpdatedJob(job, updates[key := value]) == SetField(UpdatedJob(job, updates), key, value)
  {
  }

  function WithJob(s: Store, id: string, job: Job): Store {
    s.(jobs := s.jobs[id := job])
  }

  function UpdateJob(s: Store, id: string, updates: map<string, Dynamic<Metadata>>, now: Time): Store {
    if id in s.jobs then WithJob(s, id, UpdatedJob(s.jobs[id], updates).(updatedAt := now)) else s
  }

  function DeleteJob(s: Store, id: string, now: Time): Store {
    if id in s.jobs then WithJob(s, id, s.jobs[id].(status := Deleted, updatedAt := now)) else s
  }

  function UpdateJobNextRun(s: Store, id: string, nextRun: Time, now: Time): Store {
    if id in s.jobs then WithJob(s, id, s.jobs[id].(nextRun := Some(nextRun), updatedAt := now)) else s
  }

  function UpdateJobLastExecuted(s: Store, id: string, lastExecuted: Time, now: Time): Store {
    if id in s.jobs then WithJob(s, id, s.jobs[id].(lastExecuted := Some(lastExecuted), updatedAt := now)) else s
  }

  /** Generating the id comes before the check that the job exists, so a failing call still uses up a number. */
  function CreateExecution(s: Store, e: Execution, stamp: nat, now: Time): (Store, Result<string, RepoError>) {
    var id := ResolvedId(s, e.id, "exec", stamp);
    var s' := AfterId(s, e.id);
    if e.jobId !in s.jobs then (s', Err(JobNotFound(e.jobId)))
    else
      var listed := if e.jobId in s.index then s.index[e.jobId] else [];
      (s'.(executions := s.executions[id := e.(id := id, executedAt := now)],
           index := s.index[e.jobId := listed + [id]]),
       Ok(id))
  }

  function UpdatedExecution<M>(e: Execution, updates: map<string, Dynamic<M>>): Execution {
    e.(
      completedAt := if "completed_at" in updates && updates["completed_at"].TimeValue?
                     then Some(updates["completed_at"].t) else e.completedAt,
      httpStatus := if "http_status" in updates && updates["http_status"].IntValue? then updates["http_status"].n
                    else e.httpStatus,
      responseTime := if "response_time" in updates && updates["response_time"].DurationValue?
                      then updates["response_time"].d else e.responseTime,
      success := if "success" in updates && updates["success"].BoolValue? then updates["success"].b else e.success,
      error := if "error" in updates && updates["error"].StringValue? then updates["error"].s else e.error,
      responseBody := if "response_body" in updates && updates["response_body"].StringValue?
                      then updates["response_body"].s else e.responseBody)
  }

  function SetExecutionField<M>(e: Execution, key: string, value: Dynamic<M>): Execution {
    if key == "completed_at" && value.TimeValue? then e.(completedAt := Some(value.t))
    else if key == "http_status" && value.IntValue? then e.(httpStatus := value.n)
    else if key == "response_time" && value.DurationValue? then e.(responseTime := value.d)
    else if key == "success" && value.BoolValue? then e.(success := value.b)
    else if key == "error" && value.StringValue? then e.(error := value.s)
    else if key == "response_body" && value.StringValue? then e.(responseBody := value.s)
    else e
  }

  lemma SetExecutionFieldExtends<M>(
    e: Execution, updates: map<string, Dynamic<M>>, key: string, value: Dynamic<M>)
    requires key !in updates
    ensures UpdatedExecution(e, updates[key := value]) == SetExecutionField(UpdatedExecution(e, updates), key, value)
  {
  }

  function UpdateExecution<M>(s: Store, id: string, updates: map<string, Dynamic<M>>): Store {
    if id in s.executions then s.(executions := s.executions[id := UpdatedExecution(s.executions[id], updates)]) else s
  }

  // ---------- reading ----------

  /** Every listed execution is stored. */
  ghost predicate Listed(s: Store) {
    forall j, i :: j in s.index && 0 <= i < |s.index[j]| ==> s.index[j][i] in s.executions
  }

  /** The executions of a job, oldest first. */
  ghost function History(s: Store, id: string): (h: seq<Execution>)
    requires Listed(s) && id in s.index
    ensures |h| == |s.index[id]|
    ensures forall i :: 0 <= i < |h| ==> h[i] == s.executions[s.index[id][i]]
  {
    seq(|s.index[id]|, i requires 0 <= i < |s.index[id]| => s.executions[s.index[id][i]])
  }

  /** The statuses counted by the statistics. */
  ghost function JobsWith(s: Store, status: JobStatus): set<string> {
    set id | id in s.jobs && s.jobs[id].status == status
  }

  /** `order` lists the keys, each of them once. */
  ghost predicate Enumerates(order: seq<string>, keys: set<string>) {
    && (forall k :: k in keys ==> k in order)
    && (forall i :: 0 <= i < |order| ==> order[i] in keys)
    && (forall i, j :: 0 <= i < j < |order| ==> order[i] != order[j])
  }

  /** Visiting one more key of those that are wanted, or of the others. */
  lemma EnumeratesNext(order: seq<string>, wanted: set<string>, keys: set<string>, k: string)
    requires Enumerates(order, wanted - keys) && k in keys
    ensures Enumerates(if k in wanted then order + [k] else order, wanted - (keys - {k}))
  {
  }

  // ---------- runs of mutations ----------

  datatype Operation =
    | CreateJobOp(job: Job, stamp: nat, now: Time)
    | UpdateJobOp(id: string, updates: map<string, Dynamic<Metadata>>, now: Time)
    | DeleteJobOp(id: string, now: Time)
    | UpdateJobNextRunOp(id: string, t: Time, now: Time)
    | UpdateJobLastExecutedOp(id: string, t: Time, now: Time)
    | CreateExecutionOp(execution: Execution, stamp: nat, now: Time)
    | UpdateExecutionOp(id: string, changes: map<string, Dynamic<Metadata>>, now: Time)

  function Apply(s: Store, op: Operation): Store {
    match op
    case CreateJobOp(job, stamp, now) => CreateJob(s, job, stamp, now).0
    case UpdateJobOp(id, updates, now) => UpdateJob(s, id, updates, now)
    case DeleteJobOp(id, now) => DeleteJob(s, id, now)
    case UpdateJobNextRunOp(id, t, now) => UpdateJobNextRun(s, id, t, now)
    case UpdateJobLastExecutedOp(id, t, now) => UpdateJobLastExecuted(s, id, t, now)
    case CreateExecutionOp(e, stamp, now) => CreateExecution(s, e, stamp, now).0
    case UpdateExecutionOp(id, changes, _) => UpdateExecution(s, id, changes)
  }

  function ApplyAll(s: Store, ops: seq<Operation>): Store {
    if ops == [] then s else Apply(ApplyAll(s, ops[..|ops| - 1]), ops[|ops| - 1])
  }
}
