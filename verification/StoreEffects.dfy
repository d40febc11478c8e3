/** What each repository operation changes, field by field, and what it leaves alone. */
module StoreEffects {
  import opened Common
  import opened Models
  import opened StoreSpec

  /** Nothing but this job has changed. */
  ghost predicate OnlyJob(s: Store, s': Store, id: string) {
    && s'.jobs.Keys == s.jobs.Keys && (forall x :: x in s.jobs && x != id ==> s'.jobs[x] == s.jobs[x])
    && s'.executions == s.executions && s'.index == s.index && s'.counter == s.counter
  }

  /** Nothing but this execution has changed. */
  ghost predicate OnlyExecution(s: Store, s': Store, id: string) {
    && s'.executions.Keys == s.executions.Keys
    && (forall x :: x in s.executions && x != id ==> s'.executions[x] == s.executions[x])
    && s'.jobs == s.jobs && s'.index == s.index && s'.counter == s.counter
  }

  predicate SameIdentity(job: Job, job': Job) {
    job'.id == job.id && job'.createdAt == job.createdAt
  }

  predicate SameTimes(job: Job, job': Job) {
    job'.lastExecuted == job.lastExecuted && job'.nextRun == job.nextRun
  }

  predicate SameRequest(job: Job, job': Job) {
    && job'.schedule == job.schedule && job'.api == job.api && job'.jobType == job.jobType
    && job'.metadata == job.metadata
  }

  function Named(updates: map<string, Dynamic<Metadata>>, key: string): Option<Dynamic<Metadata>> {
    if key in updates then Some(updates[key]) else None
  }

  /** An update sets each of five fields that is named with a value of its dynamic type; a missing name, or a value of
      another dynamic type, leaves the field as it was, and no other field changes. */
  lemma JobUpdated(s: Store, id: string, updates: map<string, Dynamic<Metadata>>, now: Time)
    requires id in s.jobs
    ensures var s' := UpdateJob(s, id, updates, now);
            OnlyJob(s, s', id)
            && var job, job' := s.jobs[id], s'.jobs[id];
               && SameIdentity(job, job') && SameTimes(job, job') && job'.updatedAt == now
               && (match Named(updates, "schedule")
                   case Some(StringValue(x)) => job'.schedule == x
                   case _ => job'.schedule == job.schedule)
               && (match Named(updates, "api")
                   case Some(StringValue(x)) => job'.api == x
                   case _ => job'.api == job.api)
               && (match Named(updates, "type")
                   case Some(TypeValue(x)) => job'.jobType == x
                   case _ => job'.jobType == job.jobType)
               && (match Named(updates, "status")
                   case Some(StatusValue(x)) => job'.status == x
                   case _ => job'.status == job.status)
               && (match Named(updates, "metadata")
                   case Some(MapValue(x)) => job'.metadata == Some(x)
                   case _ => job'.metadata == job.metadata)
  {
  }

  /** The same for executions, with six fields. */
  lemma ExecutionUpdated(s: Store, id: string, updates: map<string, Dynamic<Metadata>>)
    requires id in s.executions
    ensures var s' := UpdateExecution(s, id, updates);
            OnlyExecution(s, s', id)
            && var e, e' := s.executions[id], s'.executions[id];
               && e'.id == e.id && e'.jobId == e.jobId && e'.executedAt == e.executedAt
               && (match Named(updates, "completed_at")
                   case Some(TimeValue(x)) => e'.completedAt == Some(x)
                   case _ => e'.completedAt == e.completedAt)
               && (match Named(updates, "http_status")
                   case Some(IntValue(x)) => e'.httpStatus == x
                   case _ => e'.httpStatus == e.httpStatus)
               && (match Named(updates, "response_time")
                   case Some(DurationValue(x)) => e'.responseTime == x
                   case _ => e'.responseTime == e.responseTime)
               && (match Named(updates, "success")
                   case Some(BoolValue(x)) => e'.success == x
                   case _ => e'.success == e.success)
               && (match Named(updates, "error")
                   case Some(StringValue(x)) => e'.error == x
                   case _ => e'.error == e.error)
               && (match Named(updates, "response_body")
                   case Some(StringValue(x)) => e'.responseBody == x
                   case _ => e'.responseBody == e.responseBody)
  {
  }

  lemma JobDeleted(s: Store, id: string, now: Time)
    requires id in s.jobs
    ensures var s' := DeleteJob(s, id, now);
            OnlyJob(s, s', id)
            && var job, job' := s.jobs[id], s'.jobs[id];
               && job'.status == Deleted && job'.updatedAt == now
               && SameIdentity(job, job') && SameTimes(job, job') && SameRequest(job, job')
  {
  }

  lemma NextRunSet(s: Store, id: string, nextRun: Time, now: Time)
    requires id in s.jobs
    ensures var s' := UpdateJobNextRun(s, id, nextRun, now);
            OnlyJob(s, s', id)
            && var job, job' := s.jobs[id], s'.jobs[id];
               && job'.nextRun == Some(nextRun) && job'.updatedAt == now && job'.status == job.status
               && job'.lastExecuted == job.lastExecuted && SameIdentity(job, job') && SameRequest(job, job')
  {
  }

  lemma LastExecutedSet(s: Store, id: string, lastExecuted: Time, now: Time)
    requires id in s.jobs
    ensures var s' := UpdateJobLastExecuted(s, id, lastExecuted, now);
            OnlyJob(s, s', id)
            && var job, job' := s.jobs[id], s'.jobs[id];
               && job'.lastExecuted == Some(lastExecuted) && job'.updatedAt == now && job'.status == job.status
               && job'.nextRun == job.nextRun && SameIdentity(job, job') && SameRequest(job, job')
  {
  }

  /** Calls about a job or an execution that is not stored change nothing. */
  lemma UnknownIds(s: Store, id: string, updates: map<string, Dynamic<Metadata>>, t: Time, now: Time)
    ensures id !in s.jobs ==>
              UpdateJob(s, id, updates, now) == DeleteJob(s, id, now)
              == UpdateJobNextRun(s, id, t, now) == UpdateJobLastExecuted(s, id, t, now) == s
    ensures id !in s.executions ==> UpdateExecution(s, id, updates) == s
  {
  }

  /** A new job has the fields that its record had, but for its id, status and time stamps. */
  lemma JobCreated(s: Store, job: Job, stamp: nat, now: Time)
    ensures var id := if job.id == "" then NewId("job", stamp, s.counter) else job.id;
            var (s', r) := CreateJob(s, job, stamp, now);
            && s'.counter == (if job.id == "" then s.counter + 1 else s.counter) && s'.executions == s.executions
            && (id in s.jobs ==> r == Err(JobExists(id)) && s'.jobs == s.jobs && s'.index == s.index)
            && (id !in s.jobs ==>
                  && r == Ok(id) && id in s'.jobs
                  && s'.jobs == s.jobs[id := s'.jobs[id]] && s'.index == s.index[id := []]
                  && var job' := s'.jobs[id];
                     && job'.id == id && job'.status == Active && job'.createdAt == job'.updatedAt == now
                     && SameTimes(job, job') && SameRequest(job, job'))
  {
  }

  /** A new execution has the fields that its record had, but for its id and its time stamp, and stands last in its
      job's list. Without that job only the counter may move. */
  lemma ExecutionCreated(s: Store, e: Execution, stamp: nat, now: Time)
    requires s.jobs.Keys == s.index.Keys
    ensures var id := if e.id == "" then NewId("exec", stamp, s.counter) else e.id;
            var (s', r) := CreateExecution(s, e, stamp, now);
            && s'.counter == (if e.id == "" then s.counter + 1 else s.counter) && s'.jobs == s.jobs
            && (e.jobId !in s.jobs ==>
                  r == Err(JobNotFound(e.jobId)) && s'.executions == s.executions && s'.index == s.index)
            && (e.jobId in s.jobs ==>
                  && r == Ok(id) && id in s'.executions && s'.executions == s.executions[id := s'.executions[id]]
                  && s'.index == s.index[e.jobId := s.index[e.jobId] + [id]]
                  && var e' := s'.executions[id];
                     && e'.id == id && e'.executedAt == now && e'.jobId == e.jobId && e'.completedAt == e.completedAt
                     && e'.httpStatus == e.httpStatus && e'.responseTime == e.responseTime && e'.success == e.success
                     && e'.error == e.error && e'.responseBody == e.responseBody)
  {
  }
}
