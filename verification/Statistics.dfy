/** The figures that GetJobStats and GetSchedulerStats report, and how they agree. */
module Statistics {
  import opened Common
  import opened Models
  import opened StoreSpec
  import opened StoreInvariant
  import opened Paging

  datatype Tally = Tally(total: int, successful: int, failed: int, responseTime: int)

  const NOTHING := Tally(0, 0, 0, 0)

  function Plus(a: Tally, b: Tally): Tally {
    Tally(a.total + b.total, a.successful + b.successful, a.failed + b.failed, a.responseTime + b.responseTime)
  }

  function TallyOf(e: Execution): Tally {
    if e.success then Tally(1, 1, 0, e.responseTime) else Tally(1, 0, 1, e.responseTime)
  }

  /** The figures of a history. */
  function HistoryTally(h: seq<Execution>): Tally {
    if h == [] then NOTHING else Plus(HistoryTally(h[..|h| - 1]), TallyOf(h[|h| - 1]))
  }

  /** The later of two time stamps, the first one if they are equal. */
  function Later(last: Option<Time>, e: Execution): Option<Time> {
    if last.None? || e.executedAt > last.value then Some(e.executedAt) else last
  }

  /** The running maximum of the time stamps. */
  function LatestOf(h: seq<Execution>): Option<Time> {
    if h == [] then None else Later(LatestOf(h[..|h| - 1]), h[|h| - 1])
  }

  lemma HistoryStep(h: seq<Execution>, i: nat)
    requires i < |h|
    ensures HistoryTally(h[..i + 1]) == Plus(HistoryTally(h[..i]), TallyOf(h[i]))
    ensures LatestOf(h[..i + 1]) == Later(LatestOf(h[..i]), h[i])
  {
    assert h[..i + 1][..i] == h[..i];
  }

  /** Go's integer division, which truncates towards zero. */
  function Quotient(a: int, n: nat): int
    requires n > 0
  {
    if a >= 0 then a / n else -(-a / n)
  }

  function Average(responseTime: int, total: nat): Duration {
    if total > 0 then Quotient(responseTime, total) else 0
  }

  datatype JobStats = JobStats(
    jobId: string,
    totalExecutions: int,
    successfulExecutions: int,
    failedExecutions: int,
    averageResponseTime: Duration,
    lastExecutionTime: Option<Time>,
    nextScheduledTime: Option<Time>)

  function StatsOf(job: Job, id: string, h: seq<Execution>): JobStats {
    var t := HistoryTally(h);
    JobStats(id, |h|, t.successful, t.failed, Average(t.responseTime, |h|),
             LatestOf(h), job.nextRun)
  }

  // ---------- one job's figures agree with its history ----------

  lemma {:induction false} TallyCounts(h: seq<Execution>)
    ensures HistoryTally(h).total == |h|
    ensures HistoryTally(h).successful + HistoryTally(h).failed == |h|
  {
    if h != [] {
      TallyCounts(h[..|h| - 1]);
    }
  }

  lemma {:induction false} ResponseTimeBounds(h: seq<Execution>, lo: int, hi: int)
    requires forall i :: 0 <= i < |h| ==> lo <= h[i].responseTime <= hi
    ensures lo * |h| <= HistoryTally(h).responseTime <= hi * |h|
  {
    if h != [] {
      ResponseTimeBounds(h[..|h| - 1], lo, hi);
      assert lo * |h| == lo * (|h| - 1) + lo;
      assert hi * |h| == hi * (|h| - 1) + hi;
    }
  }

  lemma QuotientBounds(a: int, n: nat, lo: int, hi: int)
    requires n > 0 && lo * n <= a <= hi * n
    ensures lo <= Quotient(a, n) <= hi
  {
    if a >= 0 {
      DivBounds(a, n, lo, hi);
    } else {
      assert (-hi) * n == -(hi * n) && (-lo) * n == -(lo * n);
      DivBounds(-a, n, -hi, -lo);
    }
  }

  lemma DivBounds(a: nat, n: nat, lo: int, hi: int)
    requires n > 0 && lo * n <= a <= hi * n
    ensures lo <= a / n <= hi
  {
    var q := a / n;
    assert q * n <= a < q * n + n;
    MulMonotone(q + 1, lo, n);
    MulMonotone(hi + 1, q, n);
    assert (q + 1) * n == q * n + n;
    assert (hi + 1) * n == hi * n + n;
  }

  lemma MulMonotone(x: int, y: int, n: nat)
    ensures x <= y ==> x * n <= y * n
  {
  }

  /** Successes and failures add up to the total, the average lies between the extremes, and the last execution
      time is that of the first item on the first page. */
  lemma JobStatsAgree(s: Store, id: string, clock: Time, lo: int, hi: int)
    requires Inv(s, clock) && id in s.jobs
    requires forall i :: 0 <= i < |History(s, id)| ==> lo <= History(s, id)[i].responseTime <= hi
    ensures
      var h := History(s, id);
      var stats := StatsOf(s.jobs[id], id, h);
      && stats.totalExecutions == stats.successfulExecutions + stats.failedExecutions == |s.index[id]|
      && (h != [] ==> lo <= stats.averageResponseTime <= hi)
      && (h != [] ==> |Page(h, 1, 0)| == 1 && stats.lastExecutionTime == Some(Page(h, 1, 0)[0].executedAt))
      && (h == [] ==> stats.lastExecutionTime == None)
  {
    var h := History(s, id);
    TallyCounts(h);
    if h != [] {
      ResponseTimeBounds(h, lo, hi);
      QuotientBounds(HistoryTally(h).responseTime, |h|, lo, hi);
      LatestIsLast(h);
    }
  }

  lemma {:induction false} LatestIsLast(h: seq<Execution>)
    requires h != []
    requires forall i, k :: 0 <= i < k < |h| ==> h[i].executedAt <= h[k].executedAt
    ensures LatestOf(h) == Some(h[|h| - 1].executedAt)
  {
    if |h| > 1 {
      LatestIsLast(h[..|h| - 1]);
    }
  }

  // ---------- sums over a set of keys ----------

  ghost function Pick(keys: set<string>): (k: string)
    requires keys != {}
    ensures k in keys
  {
    var k :| k in keys;
    k
  }

  /** The sum of the figures of the keys, in some order. */
  ghost function SumOver(keys: set<string>, f: map<string, Tally>): Tally
    requires keys <= f.Keys
  {
    if keys == {} then NOTHING else Plus(f[Pick(keys)], SumOver(keys - {Pick(keys)}, f))
  }

  /** The order does not matter: any key may be taken out first. */
  lemma {:induction false} SumOverTakes(keys: set<string>, f: map<string, Tally>, k: string)
    requires keys <= f.Keys && k in keys
    ensures SumOver(keys, f) == Plus(f[k], SumOver(keys - {k}, f))
    decreases |keys|
  {
    var x := Pick(keys);
    if x != k {
      SumOverTakes(keys - {x}, f, k);
      SumOverTakes(keys - {k}, f, x);
      assert keys - {x} - {k} == keys - {k} - {x};
    }
  }

  lemma {:induction false} SumOverDisjoint(a: set<string>, b: set<string>, f: map<string, Tally>)
    requires a <= f.Keys && b <= f.Keys && a !! b
    ensures SumOver(a + b, f) == Plus(SumOver(a, f), SumOver(b, f))
    decreases |a|
  {
    if a == {} {
      assert a + b == b;
    } else {
      var k := Pick(a);
      SumOverTakes(a + b, f, k);
      assert a + b - {k} == (a - {k}) + b;
      SumOverDisjoint(a - {k}, b, f);
    }
  }

  /** A sum of three addends is the sum of three sums. */
  lemma {:induction false} SumOverAdds(
    keys: set<string>, f: map<string, Tally>, g: map<string, Tally>, h: map<string, Tally>, e: map<string, Tally>)
    requires keys <= f.Keys && keys <= g.Keys && keys <= h.Keys && keys <= e.Keys
    requires forall k :: k in keys ==> f[k] == Plus(Plus(g[k], h[k]), e[k])
    ensures SumOver(keys, f) == Plus(Plus(SumOver(keys, g), SumOver(keys, h)), SumOver(keys, e))
    decreases |keys|
  {
    if keys != {} {
      SumOverAdds(keys - {Pick(keys)}, f, g, h, e);
    }
  }

  // ---------- the scheduler's figures ----------

  /** `After(from) && Before(to)`: both ends are open. */
  predicate Within(e: Execution, from: Time, to: Time) {
    from < e.executedAt < to
  }

  /** The figures of an execution if it is counted. */
  function Share(figures: Tally, counted: bool): Tally {
    if counted then figures else NOTHING
  }

  function RangeTallies(s: Store, from: Time, to: Time): map<string, Tally> {
    map id | id in s.executions :: Share(TallyOf(s.executions[id]), Within(s.executions[id], from, to))
  }

  ghost function RangeTally(s: Store, from: Time, to: Time): Tally {
    SumOver(s.executions.Keys, RangeTallies(s, from, to))
  }

  /** The loop of GetSchedulerStats over one order of the stored executions. */
  function SumVisited(s: Store, visited: seq<string>, from: Time, to: Time): Tally
    requires forall i :: 0 <= i < |visited| ==> visited[i] in s.executions
  {
    if visited == [] then NOTHING
    else
      var e := s.executions[visited[|visited| - 1]];
      Plus(SumVisited(s, visited[..|visited| - 1], from, to), Share(TallyOf(e), Within(e, from, to)))
  }

  lemma {:induction false} SumVisitedStep(s: Store, visited: seq<string>, id: string, from: Time, to: Time)
    requires id in s.executions && forall i :: 0 <= i < |visited| ==> visited[i] in s.executions
    ensures SumVisited(s, visited + [id], from, to)
            == Plus(SumVisited(s, visited, from, to),
                    Share(TallyOf(s.executions[id]), Within(s.executions[id], from, to)))
  {
  }

  /** Whatever the order is, the loop ends with the same sum. */
  lemma {:induction false} AnyOrderSums(s: Store, order: seq<string>, keys: set<string>, from: Time, to: Time)
    requires Enumerates(order, keys) && keys <= s.executions.Keys
    ensures SumVisited(s, order, from, to) == SumOver(keys, RangeTallies(s, from, to))
    decreases |order|
  {
    if order == [] {
      assert keys == {};
    } else {
      var before, last := order[..|order| - 1], order[|order| - 1];
      EnumeratesInit(order, keys);
      AnyOrderSums(s, before, keys - {last}, from, to);
      SumOverTakes(keys, RangeTallies(s, from, to), last);
      PlusCommutes(SumVisited(s, before, from, to), RangeTallies(s, from, to)[last]);
    }
  }

  lemma EnumeratesInit(order: seq<string>, keys: set<string>)
    requires Enumerates(order, keys) && order != []
    ensures Enumerates(order[..|order| - 1], keys - {order[|order| - 1]}) && order[|order| - 1] in keys
  {
  }

  lemma PlusCommutes(a: Tally, b: Tally)
    ensures Plus(a, b) == Plus(b, a)
  {
  }

  function StampTallies(s: Store, t: Time): map<string, Tally> {
    map id | id in s.executions :: Share(TallyOf(s.executions[id]), s.executions[id].executedAt == t)
  }

  /** Splitting an open range at `t` loses exactly the executions stamped `t`. */
  lemma SplitRangeLosesStamp(s: Store, from: Time, t: Time, to: Time)
    requires from < t < to
    ensures RangeTally(s, from, to)
            == Plus(Plus(RangeTally(s, from, t), RangeTally(s, t, to)),
                    SumOver(s.executions.Keys, StampTallies(s, t)))
  {
    forall id | id in s.executions.Keys
      ensures RangeTallies(s, from, to)[id]
              == Plus(Plus(RangeTallies(s, from, t)[id], RangeTallies(s, t, to)[id]), StampTallies(s, t)[id])
    {
      var e := s.executions[id];
      ShareSplits(TallyOf(e), Within(e, from, t), Within(e, t, to), e.executedAt == t);
    }
    SumOverAdds(s.executions.Keys, RangeTallies(s, from, to),
                RangeTallies(s, from, t), RangeTallies(s, t, to), StampTallies(s, t));
  }

  /** Counting an execution once is counting it in one of three exclusive cases. */
  lemma ShareSplits(k: Tally, a: bool, b: bool, c: bool)
    requires !(a && b) && !(b && c) && !(a && c)
    ensures Share(k, a || b || c) == Plus(Plus(Share(k, a), Share(k, b)), Share(k, c))
  {
  }

  /** How many of the jobs outside `keys` have the status. */
  ghost function CountedOutside(s: Store, keys: set<string>, status: JobStatus): nat {
    |JobsWith(s, status) - keys|
  }

  /** Taking in one more job. */
  lemma CountStep(s: Store, keys: set<string>, id: string)
    requires id in keys && id in s.jobs
    ensures forall status :: CountedOutside(s, keys - {id}, status)
              == CountedOutside(s, keys, status) + (if s.jobs[id].status == status then 1 else 0)
  {
    forall status
      ensures CountedOutside(s, keys - {id}, status)
              == CountedOutside(s, keys, status) + (if s.jobs[id].status == status then 1 else 0)
    {
      if s.jobs[id].status == status {
        assert JobsWith(s, status) - (keys - {id}) == (JobsWith(s, status) - keys) + {id};
      } else {
        assert JobsWith(s, status) - (keys - {id}) == JobsWith(s, status) - keys;
      }
    }
  }

  lemma CountEnds(s: Store, status: JobStatus)
    ensures CountedOutside(s, s.jobs.Keys, status) == 0
    ensures CountedOutside(s, {}, status) == |JobsWith(s, status)|
  {
  }

  datatype SchedulerStats = SchedulerStats(
    totalJobs: int, activeJobs: int, inactiveJobs: int, deletedJobs: int, executions: Tally,
    averageResponseTime: Duration, periodStart: Time, periodEnd: Time)

  /** What GetSchedulerStats reports, without reference to an order of the stored records. */
  ghost function SchedulerStatsOf(s: Store, from: Time, to: Time): SchedulerStats {
    var t := RangeTally(s, from, to);
    SchedulerStats(|s.jobs|, |JobsWith(s, Active)|, |JobsWith(s, Inactive)|, |JobsWith(s, Deleted)|, t,
                   Average(t.responseTime, if t.total > 0 then t.total else 0), from, to)
  }

  /** Each job's own figures. */
  ghost function JobTallies(s: Store): map<string, Tally>
    requires Listed(s) && s.jobs.Keys == s.index.Keys
  {
    map id | id in s.jobs :: HistoryTally(History(s, id))
  }

  ghost function OwnedBy(s: Store, owners: set<string>): set<string> {
    set id | id in s.executions && s.executions[id].jobId in owners
  }

  ghost function Elements(list: seq<string>): set<string> {
    set id | id in list
  }

  /** A list of distinct ids sums to its history. */
  lemma {:induction false} ListSum(list: seq<string>, h: seq<Execution>, f: map<string, Tally>)
    requires |list| == |h|
    requires forall i :: 0 <= i < |list| ==> list[i] in f && f[list[i]] == TallyOf(h[i])
    requires forall i, k :: 0 <= i < k < |list| ==> list[i] != list[k]
    ensures Elements(list) <= f.Keys
    ensures SumOver(Elements(list), f) == HistoryTally(h)
  {
    if list != [] {
      var last := list[|list| - 1];
      var before := list[..|list| - 1];
      ListSum(before, h[..|h| - 1], f);
      assert list == before + [last];
      assert Elements(list) - {last} == Elements(before);
      SumOverTakes(Elements(list), f, last);
    }
  }

  lemma {:induction false} OwnersSum(s: Store, owners: set<string>, f: map<string, Tally>)
    requires Keyed(s) && Indexed(s) && owners <= s.jobs.Keys
    requires f.Keys == s.executions.Keys && forall id :: id in f ==> f[id] == TallyOf(s.executions[id])
    ensures SumOver(OwnedBy(s, owners), f) == SumOver(owners, JobTallies(s))
    decreases |owners|
  {
    if owners == {} {
      assert OwnedBy(s, owners) == {};
    } else {
      var j := Pick(owners);
      OwnersSum(s, owners - {j}, f);
      OwnerSum(s, j, f);
      assert OwnedBy(s, owners) == Elements(s.index[j]) + OwnedBy(s, owners - {j}) by {
        OwnerSplit(s, owners, j);
      }
      SumOverDisjoint(Elements(s.index[j]), OwnedBy(s, owners - {j}), f);
    }
  }

  /** One job's list sums to the job's figures. */
  lemma {:induction false} OwnerSum(s: Store, j: string, f: map<string, Tally>)
    requires Keyed(s) && Indexed(s) && j in s.jobs
    requires f.Keys == s.executions.Keys && forall id :: id in f ==> f[id] == TallyOf(s.executions[id])
    ensures Elements(s.index[j]) <= f.Keys
    ensures SumOver(Elements(s.index[j]), f) == JobTallies(s)[j]
  {
    ListSum(s.index[j], History(s, j), f);
  }

  /** The executions of some jobs are those in one job's list and those of the others. */
  lemma OwnerSplit(s: Store, owners: set<string>, j: string)
    requires Keyed(s) && Indexed(s) && owners <= s.jobs.Keys && j in owners
    ensures OwnedBy(s, owners) == Elements(s.index[j]) + OwnedBy(s, owners - {j})
    ensures Elements(s.index[j]) !! OwnedBy(s, owners - {j})
  {
  }

  /** Over a range that holds every execution, the scheduler's totals, successes, failures and summed response
      time are the sums of the jobs' own figures. */
  lemma SchedulerAgreesWithJobs(s: Store, clock: Time, from: Time, to: Time)
    requires Inv(s, clock)
    requires forall id :: id in s.executions ==> Within(s.executions[id], from, to)
    ensures RangeTally(s, from, to) == SumOver(s.jobs.Keys, JobTallies(s))
  {
    OwnersSum(s, s.jobs.Keys, RangeTallies(s, from, to));
    assert OwnedBy(s, s.jobs.Keys) == s.executions.Keys;
  }
}
