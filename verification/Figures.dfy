/** What the reported figures count, said of the stored executions and jobs alone. */
module Figures {
  import opened Common
  import opened Models
  import opened StoreSpec
  import opened Statistics

  /** The items of a history with this success flag. */
  function Positions(h: seq<Execution>, success: bool): set<int> {
    set i | 0 <= i < |h| && h[i].success == success
  }

  function TotalTime(h: seq<Execution>): int {
    if h == [] then 0 else TotalTime(h[..|h| - 1]) + h[|h| - 1].responseTime
  }

  /** `q` is `a / n` truncated towards zero, and zero if there is nothing to divide by. */
  predicate Truncated(q: int, a: int, n: nat) {
    if n == 0 then q == 0
    else if a >= 0 then q * n <= a < (q + 1) * n
    else (q - 1) * n < a <= q * n
  }

  lemma QuotientTruncates(a: int, n: nat)
    ensures Truncated(Average(a, n), a, n)
  {
    if n > 0 && a >= 0 {
      DivisionBounds(a, n);
    } else if n > 0 {
      DivisionBounds(-a, n);
      assert (-(-a / n)) * n == -(-a / n * n);
      assert (-(-a / n) - 1) * n == -(-a / n * n) - n;
    }
  }

  lemma DivisionBounds(a: nat, n: nat)
    requires n > 0
    ensures a / n * n <= a < (a / n + 1) * n
  {
    assert (a / n + 1) * n == a / n * n + n;
  }

  // ---------- one job's history ----------

  lemma OneMorePosition(h: seq<Execution>, success: bool)
    requires h != []
    ensures |Positions(h, success)|
            == |Positions(h[..|h| - 1], success)| + (if h[|h| - 1].success == success then 1 else 0)
  {
    var n := |h| - 1;
    var before := Positions(h[..n], success);
    assert Positions(h, success) == if h[n].success == success then before + {n} else before;
    assert n !in before;
  }

  lemma {:induction false} HistoryFigures(h: seq<Execution>)
    ensures HistoryTally(h) == Tally(|h|, |Positions(h, true)|, |Positions(h, false)|, TotalTime(h))
  {
    hide Positions;
    if h != [] {
      HistoryFigures(h[..|h| - 1]);
      OneMorePosition(h, true);
      OneMorePosition(h, false);
    } else {
      NoPositions();
    }
  }

  lemma NoPositions()
    ensures Positions([], true) == {} && Positions([], false) == {}
  {
  }

  /** A job's statistics count the successes and the failures of its history, and average its response times. */
  lemma JobFigures(s: Store, id: string)
    requires Listed(s) && id in s.jobs && id in s.index
    ensures var h := History(s, id);
            var stats := StatsOf(s.jobs[id], id, h);
            && stats.jobId == id && stats.nextScheduledTime == s.jobs[id].nextRun
            && stats.totalExecutions == |s.index[id]|
            && stats.successfulExecutions == |set i | 0 <= i < |h| && h[i].success|
            && stats.failedExecutions == |set i | 0 <= i < |h| && !h[i].success|
            && Truncated(stats.averageResponseTime, TotalTime(h), |h|)
  {
    var h := History(s, id);
    HistoryFigures(h);
    QuotientTruncates(TotalTime(h), |h|);
    assert Positions(h, true) == set i | 0 <= i < |h| && h[i].success;
    assert Positions(h, false) == set i | 0 <= i < |h| && !h[i].success;
  }

  // ---------- a range of all executions ----------

  ghost function InRange(s: Store, from: Time, to: Time): set<string> {
    set id | id in s.executions && from < s.executions[id].executedAt < to
  }

  ghost function InRangeWith(s: Store, from: Time, to: Time, success: bool): set<string> {
    set id | id in s.executions && from < s.executions[id].executedAt < to && s.executions[id].success == success
  }

  /** The figures of one execution in a range. */
  lemma ShareCounts(s: Store, k: string, from: Time, to: Time)
    requires k in s.executions
    ensures var t := RangeTallies(s, from, to)[k];
            && t.total == (if k in InRange(s, from, to) then 1 else 0)
            && t.successful == (if k in InRangeWith(s, from, to, true) then 1 else 0)
            && t.failed == (if k in InRangeWith(s, from, to, false) then 1 else 0)
  {
  }

  lemma {:induction false} SumOverCounts(s: Store, keys: set<string>, from: Time, to: Time)
    requires keys <= s.executions.Keys
    ensures var t := SumOver(keys, RangeTallies(s, from, to));
            && t.total == |keys * InRange(s, from, to)|
            && t.successful == |keys * InRangeWith(s, from, to, true)|
            && t.failed == |keys * InRangeWith(s, from, to, false)|
    decreases |keys|
  {
    hide InRange, InRangeWith, Share, TallyOf, Within;
    if keys != {} {
      var k := Pick(keys);
      SumOverCounts(s, keys - {k}, from, to);
      ShareCounts(s, k, from, to);
      OneMoreIn(keys, InRange(s, from, to), k);
      OneMoreIn(keys, InRangeWith(s, from, to, true), k);
      OneMoreIn(keys, InRangeWith(s, from, to, false), k);
    }
  }

  lemma OneMoreIn(keys: set<string>, wanted: set<string>, k: string)
    requires k in keys
    ensures |keys * wanted| == |(keys - {k}) * wanted| + (if k in wanted then 1 else 0)
  {
    if k in wanted {
      assert keys * wanted == (keys - {k}) * wanted + {k};
    } else {
      assert keys * wanted == (keys - {k}) * wanted;
    }
  }

  lemma {:induction false} SumOverNothing(keys: set<string>, f: map<string, Tally>)
    requires keys <= f.Keys && forall k :: k in keys ==> f[k] == NOTHING
    ensures SumOver(keys, f) == NOTHING
    decreases |keys|
  {
    if keys != {} {
      SumOverNothing(keys - {Pick(keys)}, f);
    }
  }

  /** The executions under these ids. */
  function Executions(s: Store, order: seq<string>): seq<Execution>
    requires forall i :: 0 <= i < |order| ==> order[i] in s.executions
  {
    seq(|order|, i requires 0 <= i < |order| => s.executions[order[i]])
  }

  lemma {:induction false} VisitedTime(s: Store, order: seq<string>, from: Time, to: Time)
    requires forall i :: 0 <= i < |order| ==> order[i] in s.executions && Within(s.executions[order[i]], from, to)
    ensures SumVisited(s, order, from, to).responseTime == TotalTime(Executions(s, order))
  {
    if order != [] {
      var n := |order| - 1;
      VisitedTime(s, order[..n], from, to);
      assert Executions(s, order)[..n] == Executions(s, order[..n]);
    }
  }

  lemma RangeCounts(s: Store, from: Time, to: Time)
    ensures var t := RangeTally(s, from, to);
            && t.total == |InRange(s, from, to)|
            && t.successful == |InRangeWith(s, from, to, true)|
            && t.failed == |InRangeWith(s, from, to, false)|
  {
    var keys := s.executions.Keys;
    SumOverCounts(s, keys, from, to);
    assert keys * InRange(s, from, to) == InRange(s, from, to);
    assert keys * InRangeWith(s, from, to, true) == InRangeWith(s, from, to, true);
    assert keys * InRangeWith(s, from, to, false) == InRangeWith(s, from, to, false);
  }

  /** The figures of an open range: how many executions lie in it, how many of them are successes and failures, and
      the sum of their response times. */
  lemma RangeFigures(s: Store, from: Time, to: Time, order: seq<string>)
    requires Enumerates(order, InRange(s, from, to))
    ensures RangeTally(s, from, to)
            == Tally(|InRange(s, from, to)|, |InRangeWith(s, from, to, true)|, |InRangeWith(s, from, to, false)|,
                     TotalTime(Executions(s, order)))
  {
    hide InRange, InRangeWith, RangeTallies, SumOver, SumVisited, Executions, Enumerates;
    RangeStored(s, from, to, order);
    RangeCounts(s, from, to);
    OnlyRangeCounts(s, from, to);
    AnyOrderSums(s, order, InRange(s, from, to), from, to);
    VisitedTime(s, order, from, to);
  }

  lemma RangeStored(s: Store, from: Time, to: Time, order: seq<string>)
    requires Enumerates(order, InRange(s, from, to))
    ensures InRange(s, from, to) <= s.executions.Keys
    ensures forall i :: 0 <= i < |order| ==> order[i] in s.executions && Within(s.executions[order[i]], from, to)
  {
  }

  lemma {:induction false} SumOverPart(keys: set<string>, part: set<string>, f: map<string, Tally>)
    requires part <= keys <= f.Keys && forall k :: k in keys - part ==> f[k] == NOTHING
    ensures SumOver(keys, f) == SumOver(part, f)
  {
    hide SumOver;
    SumOverDisjoint(part, keys - part, f);
    assert part + (keys - part) == keys;
    SumOverNothing(keys - part, f);
  }

  lemma OnlyRangeCounts(s: Store, from: Time, to: Time)
    ensures InRange(s, from, to) <= s.executions.Keys
    ensures RangeTally(s, from, to) == SumOver(InRange(s, from, to), RangeTallies(s, from, to))
  {
    hide SumOver;
    SumOverPart(s.executions.Keys, InRange(s, from, to), RangeTallies(s, from, to));
  }

  // ---------- the scheduler's statistics ----------

  ghost function WithStatus(s: Store, status: JobStatus): set<string> {
    set id | id in s.jobs && s.jobs[id].status == status
  }

  /** The jobs with none of the three statuses that the service knows. */
  ghost function Unknown(s: Store): set<string> {
    set id | id in s.jobs
             && s.jobs[id].status != Active && s.jobs[id].status != Inactive && s.jobs[id].status != Deleted
  }

  lemma StatusesCover(s: Store)
    ensures var active, inactive := WithStatus(s, Active), WithStatus(s, Inactive);
            var deleted, unknown := WithStatus(s, Deleted), Unknown(s);
            && s.jobs.Keys == active + inactive + (deleted + unknown)
            && active !! inactive && deleted !! unknown && active + inactive !! deleted + unknown
  {
  }

  lemma StatusesPartition(s: Store)
    ensures |s.jobs| == |WithStatus(s, Active)| + |WithStatus(s, Inactive)| + |WithStatus(s, Deleted)| + |Unknown(s)|
  {
    hide WithStatus, Unknown;
    StatusesCover(s);
    Sizes(WithStatus(s, Active), WithStatus(s, Inactive));
    Sizes(WithStatus(s, Deleted), Unknown(s));
    Sizes(WithStatus(s, Active) + WithStatus(s, Inactive), WithStatus(s, Deleted) + Unknown(s));
    assert |s.jobs| == |s.jobs.Keys|;
  }

  lemma Sizes(a: set<string>, b: set<string>)
    requires a !! b
    ensures |a + b| == |a| + |b|
  {
  }

  /** The scheduler's statistics count the jobs by status, and the executions strictly inside the range. */
  lemma SchedulerFigures(s: Store, from: Time, to: Time, order: seq<string>)
    requires Enumerates(order, InRange(s, from, to))
    ensures var stats := SchedulerStatsOf(s, from, to);
            && stats.activeJobs == |WithStatus(s, Active)|
            && stats.inactiveJobs == |WithStatus(s, Inactive)|
            && stats.deletedJobs == |WithStatus(s, Deleted)|
            && stats.totalJobs == stats.activeJobs + stats.inactiveJobs + stats.deletedJobs + |Unknown(s)|
            && stats.periodStart == from && stats.periodEnd == to
            && stats.executions
               == Tally(|order|, |InRangeWith(s, from, to, true)|, |InRangeWith(s, from, to, false)|,
                        TotalTime(Executions(s, order)))
            && Truncated(stats.averageResponseTime, TotalTime(Executions(s, order)), |order|)
  {
    hide Truncated, Average, RangeTally, Executions, InRange, InRangeWith;
    assert JobsWith(s, Active) == WithStatus(s, Active);
    assert JobsWith(s, Inactive) == WithStatus(s, Inactive);
    assert JobsWith(s, Deleted) == WithStatus(s, Deleted);
    StatusesPartition(s);
    RangeStored(s, from, to, order);
    RangeFigures(s, from, to, order);
    EnumerationSize(order, InRange(s, from, to));
    QuotientTruncates(TotalTime(Executions(s, order)), |order|);
  }

  lemma {:induction false} EnumerationSize(order: seq<string>, keys: set<string>)
    requires Enumerates(order, keys)
    ensures |order| == |keys|
  {
    if order != [] {
      EnumeratesInit(order, keys);
      EnumerationSize(order[..|order| - 1], keys - {order[|order| - 1]});
    } else {
      assert keys == {};
    }
  }
}
