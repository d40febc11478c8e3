/** The API handlers that write, as methods over the repository (api/handler.go). */
module Handler {
  import opened Common
  import opened Models
  import opened StoreSpec
  import opened StoreEffects
  import opened StoreInvariant
  import opened Cron
  import opened Pipeline
  import opened Repository
  import Isolation

  datatype Answer = Ok200 | Created(id: string) | BadRequest | NotFound | InternalError

  /** The store after a creation request, and the answer. */
  function Creation(lib: Library, s: Store, request: JobRequest, from: Time, stamp: nat, now: Time): (Store, Answer) {
    if Validate(lib, request.schedule).Some? then (s, BadRequest)
    else
      var (s', r) := CreateJob(s, NewJob(lib, request, from), stamp, now);
      (s', if r.Ok? then Created(r.value) else InternalError)
  }

  /** The store after both writes of an update request, stamped `first` and `second`, and the answer. */
  function Updating(lib: Library, s: Store, id: string, body: map<string, Json>, from: Time, first: Time, second: Time)
    : (Store, Answer)
  {
    var asked := AskedSchedule(body);
    if asked.Some? && Validate(lib, asked.value).Some? then (s, BadRequest)
    else
      var s' := if asked.Some? then UpdateJobNextRun(s, id, Next(lib, asked.value, from), first) else s;
      (UpdateJob(s', id, DecodedObject(body), second), if id in s.jobs then Ok200 else NotFound)
  }

  /** An uninterrupted update that names a valid schedule leaves the job with that schedule and the next run
      computed from it; its status and type are never changed. */
  lemma UpdateReschedules(
    lib: Library, s: Store, id: string, body: map<string, Json>, from: Time, first: Time, second: Time)
    requires id in s.jobs && Updating(lib, s, id, body, from, first, second).1 == Ok200
    ensures var job, job' := s.jobs[id], Updating(lib, s, id, body, from, first, second).0.jobs[id];
            && (AskedSchedule(body).Some? ==>
                  && job'.schedule == AskedSchedule(body).value
                  && job'.nextRun == Some(Next(lib, job'.schedule, from)))
            && (AskedSchedule(body).None? ==> job'.schedule == job.schedule && job'.nextRun == job.nextRun)
            && job'.status == job.status && job'.jobType == job.jobType && job'.id == job.id
            && job'.createdAt == job.createdAt && job'.lastExecuted == job.lastExecuted && job'.updatedAt == second
    ensures forall other :: other in s.jobs && other != id ==>
              Updating(lib, s, id, body, from, first, second).0.jobs[other] == s.jobs[other]
  {
  }

  /** What an update request does to the other fields, read off its body: an `api` that is a string and a `metadata`
      that is an object replace the job's, anything else leaves them as they are, and nothing changes the type or the
      status. */
  lemma UpdateFields(
    lib: Library, s: Store, id: string, body: map<string, Json>, from: Time, first: Time, second: Time)
    requires id in s.jobs && Updating(lib, s, id, body, from, first, second).1 == Ok200
    ensures var job, job' := s.jobs[id], Updating(lib, s, id, body, from, first, second).0.jobs[id];
            && (match Member(body, "api")
                case Some(Str(x)) => job'.api == x
                case _ => job'.api == job.api)
            && (match Member(body, "metadata")
                case Some(Obj(m)) => job'.metadata == Some(m)
                case _ => job'.metadata == job.metadata)
            && (match Member(body, "schedule")
                case Some(Str(x)) => job'.schedule == x && job'.nextRun == Some(Next(lib, x, from))
                case _ => job'.schedule == job.schedule && job'.nextRun == job.nextRun)
            && job'.jobType == job.jobType && job'.status == job.status
  {
    hide Next, UpdateJob, UpdateJobNextRun, Validate;
    var asked := AskedSchedule(body);
    var s' := if asked.Some? then UpdateJobNextRun(s, id, Next(lib, asked.value, from), first) else s;
    if asked.Some? {
      NextRunSet(s, id, Next(lib, asked.value, from), first);
    }
    JobUpdated(s', id, DecodedObject(body), second);
  }

  function Member(body: map<string, Json>, key: string): Option<Json> {
    if key in body then Some(body[key]) else None
  }

  /** An update is refused exactly if it asks for a schedule that is not admissible, and finds nothing exactly if the
      job is not stored; in both cases it changes nothing. It never touches executions. */
  lemma UpdateAnswers(
    lib: Library, s: Store, id: string, body: map<string, Json>, from: Time, first: Time, second: Time)
    ensures var (s', r) := Updating(lib, s, id, body, from, first, second);
            var asked := Member(body, "schedule");
            && (r == BadRequest <==> asked.Some? && asked.value.Str? && !Admissible(lib, asked.value.s))
            && (r == NotFound <==> r != BadRequest && id !in s.jobs)
            && (r == Ok200 <==> r != BadRequest && id in s.jobs)
            && (r != Ok200 ==> s' == s)
            && s'.executions == s.executions && s'.index == s.index && s'.counter == s.counter
  {
    if "schedule" in body && body["schedule"].Str? {
      ValidateIff(lib, body["schedule"].s);
    }
  }

  /** A creation request is answered with an id exactly when its schedule is valid; the job is then active, and due
      at the first instant of its schedule after the handler's clock reading. */
  lemma CreationStores(
    lib: Library, s: Store, request: JobRequest, from: Time, stamp: nat, now: Time, clock: Time)
    requires StoreInvariant.Inv(s, clock) && clock <= now
    ensures var (s', r) := Creation(lib, s, request, from, stamp, now);
            && (r.Created? <==> Admissible(lib, request.schedule))
            && (r.Created? ==>
                  && r.id !in s.jobs && s'.jobs.Keys == s.jobs.Keys + {r.id}
                  && s'.jobs[r.id] == Job(r.id, request.schedule, request.api, request.jobType, Active, now, now, None,
                                          Some(Next(lib, request.schedule, from)), request.metadata)
                  && s'.index[r.id] == [])
            && (!r.Created? ==> r == BadRequest && s' == s)
  {
    ValidateIff(lib, request.schedule);
    CreateJobKeepsInv(s, NewJob(lib, request, from), stamp, now, clock);
  }

  /** Without interruption the handler's two steps in the step system have the same effect. */
  lemma UpdateIsTwoSteps(
    cfg: Config, st: State, id: string, body: map<string, Json>, from: Time, later: Time)
    requires from <= st.clock <= later && Updating(cfg.lib, st.store, id, body, from, st.clock, later).1 != BadRequest
    ensures var middle := ApiStep(cfg, st, Update(id, body, from)).(clock := later);
            && ApiEnabled(middle, FinishUpdate(|st.updates|))
            && ApiStep(cfg, middle, FinishUpdate(|st.updates|)).store
               == Updating(cfg.lib, st.store, id, body, from, st.clock, later).0
  {
  }

  class ApiHandler {
    const lib: Library
    const repo: MemoryRepository

    constructor (lib: Library, repo: MemoryRepository)
      ensures this.lib == lib && this.repo == repo
    {
      this.lib, this.repo := lib, repo;
    }

    method CreateJob(request: JobRequest, from: Time, stamp: nat, now: Time) returns (r: Answer)
      requires repo.Valid()
      modifies repo
      ensures repo.Valid() && (repo.View(), r) == Creation(lib, old(repo.View()), request, from, stamp, now)
    {
      if Validate(lib, request.schedule).Some? {
        return BadRequest;
      }
      var nextRun := GetNextRun(lib, request.schedule, from);
      if nextRun.Err? {
        return InternalError;
      }
      var stored := StoreJob(NewJob(lib, request, from), stamp, now);
      return if stored.Ok? then Created(stored.value) else InternalError;
    }

    /** The record that the handler allocates, handed to the repository. */
    method StoreJob(v: Job, stamp: nat, now: Time) returns (r: Result<string, RepoError>)
      requires repo.Valid()
      modifies repo
      ensures repo.Valid() && (repo.View(), r) == StoreSpec.CreateJob(old(repo.View()), v, stamp, now)
    {
      var job := new JobRecord(v);
      repo.Steady();
      r := repo.CreateJob(job, stamp, now);
    }

    /** Two separate writes; the result of the first one is ignored. */
    method UpdateJob(id: string, body: map<string, Json>, from: Time, first: Time, second: Time) returns (r: Answer)
      requires repo.Valid()
      modifies repo, repo.JobRecords, repo.ExecutionRecords
      ensures repo.Valid() && (repo.View(), r) == Updating(lib, old(repo.View()), id, body, from, first, second)
    {
      hide MemoryRepository.Valid, MemoryRepository.JobValues, MemoryRepository.ExecutionValues;
      var known := id in repo.jobs;
      var asked := AskedSchedule(body);
      if asked.Some? {
        if Validate(lib, asked.value).Some? {
          return BadRequest;
        }
        WriteNextRun(id, asked.value, from, first);
      }
      Isolation.PerformUpdateJob(repo, id, DecodedObject(body), second);
      return if known then Ok200 else NotFound;
    }

    /** The first write. */
    method WriteNextRun(id: string, schedule: string, from: Time, now: Time)
      requires repo.Valid() && Validate(lib, schedule).None?
      modifies repo`Repr, repo.JobRecords
      ensures repo.Valid()
      ensures repo.View() == UpdateJobNextRun(old(repo.View()), id, Next(lib, schedule, from), now)
    {
      var nextRun := GetNextRun(lib, schedule, from);
      var ignored := repo.UpdateJobNextRun(id, if nextRun.Ok? then nextRun.value else ZERO_TIME, now);
    }

    method DeleteJob(id: string, now: Time) returns (r: Answer)
      requires repo.Valid()
      modifies repo.JobRecords
      ensures repo.Valid() && repo.View() == StoreSpec.DeleteJob(old(repo.View()), id, now)
      ensures r == if id in repo.jobs then Ok200 else NotFound
    {
      var deleted := repo.DeleteJob(id, now);
      return if deleted.None? then Ok200 else NotFound;
    }
  }
}
