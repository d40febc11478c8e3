/** What every run of repository operations keeps. */
module StoreInvariant {
  import opened Common
  import opened Models
  import opened StoreSpec
  import opened Text

  // ---------- generated ids ----------

  /** The text after the last underscore. */
  function Suffix(id: string): string {
    if '_' in id then
      assert id != "";
      assert id == [id[0]] + id[1..];
      if id[0] == '_' && '_' !in id[1..] then id[1..] else Suffix(id[1..])
    else id
  }

  /** The number that an id ends in. */
  function CounterOf(id: string): nat {
    if IsDigits(Suffix(id)) then DigitsValue(Suffix(id)) else 0
  }

  lemma {:induction false} SuffixOfPair(a: string, d: string)
    requires '_' !in d
    ensures Suffix(a + "_" + d) == d
  {
    var s := a + "_" + d;
    assert s[|a|] == '_';
    if a == "" {
      assert s[1..] == d;
    } else {
      SuffixOfPair(a[1..], d);
      assert s[1..] == a[1..] + "_" + d;
      assert s[1..][|a| - 1] == '_';
    }
  }

  /** A generated id ends in the counter it was generated from. */
  lemma CounterOfNewId(prefix: string, stamp: nat, counter: nat)
    ensures CounterOf(NewId(prefix, stamp, counter)) == counter
  {
    var d := Decimal(counter);
    assert forall i :: 0 <= i < |d| ==> IsDigit(d[i]);
    SuffixOfPair(prefix + "_" + Decimal(stamp), d);
  }

  /** So different counters give different ids, whatever the prefixes and time stamps are. */
  lemma DistinctCountersDistinctIds(
    prefix: string, stamp: nat, counter: nat, prefix': string, stamp': nat, counter': nat)
    requires counter != counter'
    ensures NewId(prefix, stamp, counter) != NewId(prefix', stamp', counter')
  {
    CounterOfNewId(prefix, stamp, counter);
    CounterOfNewId(prefix', stamp', counter');
  }

  /** An id tells the time stamp and the counter that it was generated from. */
  lemma IdTells(prefix: string, stamp: nat, counter: nat, stamp': nat, counter': nat)
    requires NewId(prefix, stamp, counter) == NewId(prefix, stamp', counter')
    ensures stamp == stamp' && counter == counter'
  {
    CounterOfNewId(prefix, stamp, counter);
    CounterOfNewId(prefix, stamp', counter');
    var id, n := NewId(prefix, stamp, counter), |prefix| + 1;
    var end := |id| - |Decimal(counter)| - 1;
    assert id[n..end] == Decimal(stamp);
    assert id[n..end] == Decimal(stamp');
  }

  // ---------- the invariant ----------

  /** Both maps have the same jobs, and records carry the id they are stored under. */
  ghost predicate Keyed(s: Store) {
    && s.jobs.Keys == s.index.Keys
    && (forall id :: id in s.jobs ==> s.jobs[id].id == id)
    && (forall id :: id in s.executions ==> s.executions[id].id == id)
  }

  /** Every stored execution stands exactly once in the lists, in the list of its own job. */
  ghost predicate Indexed(s: Store) {
    && (forall j, i :: j in s.index && 0 <= i < |s.index[j]| ==>
          s.index[j][i] in s.executions && s.executions[s.index[j][i]].jobId == j)
    && (forall j, i, k :: j in s.index && 0 <= i < k < |s.index[j]| ==> s.index[j][i] != s.index[j][k])
    && (forall id :: id in s.executions ==>
          s.executions[id].jobId in s.index && id in s.index[s.executions[id].jobId])
  }

  /** Each list is nondecreasing in execution time, and nothing is stamped after `clock`. */
  ghost predicate Chronological(s: Store, clock: Time)
    requires Indexed(s)
  {
    && (forall j, i, k :: j in s.index && 0 <= i < k < |s.index[j]| ==>
          s.executions[s.index[j][i]].executedAt <= s.executions[s.index[j][k]].executedAt)
    && (forall id :: id in s.executions ==> s.executions[id].executedAt <= clock)
  }

  /** Every stored id ends in a number that the counter has passed. */
  ghost predicate Minted(s: Store) {
    && (forall id :: id in s.jobs ==> CounterOf(id) < s.counter)
    && (forall id :: id in s.executions ==> CounterOf(id) < s.counter)
  }

  ghost predicate Inv(s: Store, clock: Time) {
    Keyed(s) && Indexed(s) && Chronological(s, clock) && Minted(s)
  }

  /** The lists of `s` are prefixes of those of `s'`, and no job is gone. */
  ghost predicate Appended(s: Store, s': Store) {
    forall j :: j in s.index ==> j in s'.index && s.index[j] <= s'.index[j]
  }

  /** Callers that leave the ids to the repository, as the API and both executors do. */
  predicate LeavesIds(op: Operation) {
    match op
    case CreateJobOp(job, _, _) => job.id == ""
    case CreateExecutionOp(e, _, _) => e.id == ""
    case _ => true
  }

  lemma CreateJobKeepsInv(s: Store, job: Job, stamp: nat, now: Time, clock: Time)
    requires Inv(s, clock) && job.id == "" && clock <= now
    ensures Inv(CreateJob(s, job, stamp, now).0, now)
    ensures CreateJob(s, job, stamp, now).1.Ok?
    ensures Appended(s, CreateJob(s, job, stamp, now).0)
  {
    CounterOfNewId("job", stamp, s.counter);
    var id := NewId("job", stamp, s.counter);
    var s' := CreateJob(s, job, stamp, now).0;
    assert s'.index == s.index[id := []] && s'.executions == s.executions;
    assert forall j :: j in s.index ==> s'.index[j] == s.index[j];
    assert Indexed(s');
  }

  /** What is stored under the unused id. */
  lemma NewJobStored(s: Store, job: Job, stamp: nat, now: Time, clock: Time)
    requires Inv(s, clock) && job.id == "" && clock <= now
    ensures var id := NewId("job", stamp, s.counter);
            && id !in s.jobs
            && CreateJob(s, job, stamp, now).0.jobs
               == s.jobs[id := job.(id := id, createdAt := now, updatedAt := now, status := Active)]
  {
    hide NewId;
    CreateJobKeepsInv(s, job, stamp, now, clock);
  }

  lemma CreateExecutionKeepsInv(s: Store, e: Execution, stamp: nat, now: Time, clock: Time)
    requires Inv(s, clock) && e.id == "" && clock <= now
    ensures Inv(CreateExecution(s, e, stamp, now).0, now)
    ensures Appended(s, CreateExecution(s, e, stamp, now).0)
    ensures ResolvedId(s, e.id, "exec", stamp) !in s.executions
  {
    CounterOfNewId("exec", stamp, s.counter);
    if e.jobId in s.jobs {
      AppendKeepsIndexed(s, e, stamp, now);
      AppendKeepsOrder(s, e, stamp, now, clock);
    }
  }

  lemma AppendKeepsOrder(s: Store, e: Execution, stamp: nat, now: Time, clock: Time)
    requires Keyed(s) && Indexed(s) && Chronological(s, clock) && e.jobId in s.jobs && clock <= now
    requires ResolvedId(s, e.id, "exec", stamp) !in s.executions
    requires Indexed(CreateExecution(s, e, stamp, now).0)
    ensures Chronological(CreateExecution(s, e, stamp, now).0, now)
  {
    var id := ResolvedId(s, e.id, "exec", stamp);
    var s' := CreateExecution(s, e, stamp, now).0;
    forall j, i, k | j in s'.index && 0 <= i < k < |s'.index[j]|
      ensures s'.executions[s'.index[j][i]].executedAt <= s'.executions[s'.index[j][k]].executedAt
    {
      assert i < |s.index[j]| && s'.index[j][i] == s.index[j][i];
      assert s.index[j][i] != id;
      if k < |s.index[j]| {
        assert s'.index[j][k] == s.index[j][k] != id;
      } else {
        assert s'.index[j][k] == id;
      }
    }
  }

  /** Storing under an unused id keeps the index. */
  lemma AppendKeepsIndexed(s: Store, e: Execution, stamp: nat, now: Time)
    requires Keyed(s) && Indexed(s) && e.jobId in s.jobs
    requires ResolvedId(s, e.id, "exec", stamp) !in s.executions
    ensures Indexed(CreateExecution(s, e, stamp, now).0)
  {
    var id := ResolvedId(s, e.id, "exec", stamp);
    var s' := CreateExecution(s, e, stamp, now).0;
    assert s'.index[e.jobId] == s.index[e.jobId] + [id];
    assert id == s'.index[e.jobId][|s.index[e.jobId]|];
    forall x | x in s'.executions
      ensures s'.executions[x].jobId in s'.index && x in s'.index[s'.executions[x].jobId]
    {
      if x != id {
        assert x in s.index[s.executions[x].jobId];
      }
    }
  }

  /** Exactly when a caller supplies an execution id that is already in use does a successful call break the index. */
  lemma SuppliedIdBreaksIndexIffUsed(s: Store, e: Execution, stamp: nat, now: Time)
    requires Keyed(s) && Indexed(s) && e.jobId in s.jobs
    ensures Indexed(CreateExecution(s, e, stamp, now).0) <==> ResolvedId(s, e.id, "exec", stamp) !in s.executions
  {
    var id := ResolvedId(s, e.id, "exec", stamp);
    var s' := CreateExecution(s, e, stamp, now).0;
    if id in s.executions {
      // the id stands in a list twice, or in the lists of two jobs
      var owner := s.executions[id].jobId;
      var i :| 0 <= i < |s.index[owner]| && s.index[owner][i] == id;
      var n := |s.index[e.jobId]|;
      assert s'.index[e.jobId][n] == id;
      assert s'.index[owner][i] == id;
    } else {
      AppendKeepsIndexed(s, e, stamp, now);
    }
  }

  /** Replacing a job's value under its own id changes nothing of the invariant. */
  lemma WithJobKeepsInv(s: Store, id: string, job: Job, clock: Time, now: Time)
    requires Inv(s, clock) && clock <= now && id in s.jobs && job.id == id
    ensures Inv(WithJob(s, id, job), now)
    ensures Appended(s, WithJob(s, id, job))
  {
  }

  lemma UpdateExecutionKeepsInv<M>(s: Store, id: string, updates: map<string, Dynamic<M>>, clock: Time, now: Time)
    requires Inv(s, clock) && clock <= now
    ensures Inv(UpdateExecution(s, id, updates), now)
    ensures Appended(s, UpdateExecution(s, id, updates))
  {
    if id in s.executions {
      var e := UpdatedExecution(s.executions[id], updates);
      SameIdentityKeepsInv(s, id, e, clock, now);
    }
  }

  /** Replacing an execution by one with the same id, job and time stamp keeps the invariant. */
  lemma SameIdentityKeepsInv(s: Store, id: string, e: Execution, clock: Time, now: Time)
    requires Inv(s, clock) && clock <= now && id in s.executions
    requires e.id == id && e.jobId == s.executions[id].jobId && e.executedAt == s.executions[id].executedAt
    ensures Inv(s.(executions := s.executions[id := e]), now)
  {
    var s' := s.(executions := s.executions[id := e]);
    assert forall x :: x in s.executions ==>
      s'.executions[x].jobId == s.executions[x].jobId && s'.executions[x].executedAt == s.executions[x].executedAt;
  }

  /** Every operation whose caller leaves ids to the repository keeps the invariant and only appends to lists. */
  lemma OperationKeepsInv(s: Store, op: Operation, clock: Time)
    requires Inv(s, clock) && LeavesIds(op) && clock <= op.now
    ensures Inv(Apply(s, op), op.now)
    ensures Appended(s, Apply(s, op))
  {
    match op
    case CreateJobOp(job, stamp, now) => CreateJobKeepsInv(s, job, stamp, now, clock);
    case UpdateJobOp(id, updates, now) =>
      if id in s.jobs {
        WithJobKeepsInv(s, id, UpdatedJob(s.jobs[id], updates).(updatedAt := now), clock, now);
      }
    case DeleteJobOp(id, now) =>
      if id in s.jobs {
        WithJobKeepsInv(s, id, s.jobs[id].(status := Deleted, updatedAt := now), clock, now);
      }
    case UpdateJobNextRunOp(id, t, now) =>
      if id in s.jobs {
        WithJobKeepsInv(s, id, s.jobs[id].(nextRun := Some(t), updatedAt := now), clock, now);
      }
    case UpdateJobLastExecutedOp(id, t, now) =>
      if id in s.jobs {
        WithJobKeepsInv(s, id, s.jobs[id].(lastExecuted := Some(t), updatedAt := now), clock, now);
      }
    case CreateExecutionOp(e, stamp, now) => CreateExecutionKeepsInv(s, e, stamp, now, clock);
    case UpdateExecutionOp(id, changes, now) => UpdateExecutionKeepsInv(s, id, changes, clock, now);
  }

  ghost predicate Nondecreasing(clock: Time, ops: seq<Operation>) {
    && (forall i :: 0 <= i < |ops| ==> clock <= ops[i].now)
    && (forall i, j :: 0 <= i < j < |ops| ==> ops[i].now <= ops[j].now)
  }

  function EndClock(clock: Time, ops: seq<Operation>): Time {
    if ops == [] then clock else ops[|ops| - 1].now
  }

  /** Over whole runs: the invariant holds at the end and no list has lost or reordered an entry. */
  lemma {:induction false} RunKeepsInv(s: Store, ops: seq<Operation>, clock: Time)
    requires Inv(s, clock) && Nondecreasing(clock, ops)
    requires forall op :: op in ops ==> LeavesIds(op)
    ensures Inv(ApplyAll(s, ops), EndClock(clock, ops))
    ensures Appended(s, ApplyAll(s, ops))
  {
    if ops != [] {
      var before, last := ops[..|ops| - 1], ops[|ops| - 1];
      RunKeepsInv(s, before, clock);
      OperationKeepsInv(ApplyAll(s, before), last, EndClock(clock, before));
    }
  }

  lemma EmptyStoreInv(clock: Time)
    ensures Inv(EMPTY, clock)
  {
  }
}
