/** A reference for one job under polling: when it fires, and what its NextRun becomes, as a function of the clock
    readings of the sweeps alone. */
module Firings {
  import opened Common
  import opened Cron

  /** One dispatch: the NextRun that made the job due, and the clock reading of the sweep. */
  datatype Firing = Firing(trigger: Option<Time>, at: Time)

  /** NextRun after sweeps at the given times, if it was `x` before them. */
  function NextAfter(lib: Library, schedule: string, x: Time, polls: seq<Time>): Time {
    if polls == [] then x
    else
      var y, p := NextAfter(lib, schedule, x, polls[..|polls| - 1]), polls[|polls| - 1];
      if y <= p then Next(lib, schedule, p) else y
  }

  /** The dispatches of these sweeps. */
  function Fired(lib: Library, schedule: string, x: Time, polls: seq<Time>): seq<Firing> {
    if polls == [] then []
    else
      var y, p := NextAfter(lib, schedule, x, polls[..|polls| - 1]), polls[|polls| - 1];
      var before := Fired(lib, schedule, x, polls[..|polls| - 1]);
      if y <= p then before + [Firing(Some(y), p)] else before
  }

  /** The clock does not run backwards: polls come after `from`, in order. */
  predicate Ordered(from: Time, polls: seq<Time>) {
    && (forall i :: 0 <= i < |polls| ==> from <= polls[i])
    && (forall i, j :: 0 <= i <= j < |polls| ==> polls[i] <= polls[j])
  }

  /** The time up to which the schedule has been looked at. */
  function Last(from: Time, polls: seq<Time>): Time {
    if polls == [] then from else polls[|polls| - 1]
  }

  // ---------- NextRun ----------

  /** After every sweep NextRun is the next instant after that sweep's clock. */
  lemma {:induction false} NextAfterIsNext(lib: Library, schedule: string, from: Time, polls: seq<Time>)
    requires lib.Valid() && Ordered(from, polls)
    ensures NextAfter(lib, schedule, Next(lib, schedule, from), polls) == Next(lib, schedule, Last(from, polls))
  {
    if polls != [] {
      var n := |polls| - 1;
      NextAfterIsNext(lib, schedule, from, polls[..n]);
      if polls[n] < Next(lib, schedule, Last(from, polls[..n])) {
        NextStable(lib, schedule, Last(from, polls[..n]), polls[n]);
      }
    }
  }

  // ---------- how often ----------

  /** The number of instants between a sweep and the one before it. */
  function Between(lib: Library, schedule: string, from: Time, polls: seq<Time>, i: nat): nat
    requires i < |polls|
  {
    InstantsIn(lib, schedule, Last(from, polls[..i]), polls[i])
  }

  /** The number of intervals between sweeps, the first one starting at `from`, that contain an instant. */
  function FiringIntervals(lib: Library, schedule: string, from: Time, polls: seq<Time>): nat {
    if polls == [] then 0
    else
      var n := |polls| - 1;
      FiringIntervals(lib, schedule, from, polls[..n]) + (if Between(lib, schedule, from, polls, n) > 0 then 1 else 0)
  }

  /** The search for a next run found one, at the i-th sweep or before the first one. */
  predicate FoundNext(lib: Library, schedule: string, from: Time, polls: seq<Time>, i: nat)
    requires i < |polls|
  {
    Next(lib, schedule, Last(from, polls[..i])) != ZERO_TIME
  }

  predicate NeverRunsOut(lib: Library, schedule: string, from: Time, polls: seq<Time>) {
    forall i :: 0 <= i < |polls| ==> FoundNext(lib, schedule, from, polls, i)
  }

  /** Wherever the search came back empty, an instant came all the same. */
  predicate NoneSpurious(lib: Library, schedule: string, from: Time, polls: seq<Time>) {
    forall i :: 0 <= i < |polls| ==>
      FoundNext(lib, schedule, from, polls, i) || Between(lib, schedule, from, polls, i) > 0
  }

  predicate AtMostOneEach(lib: Library, schedule: string, from: Time, polls: seq<Time>) {
    forall i :: 0 <= i < |polls| ==> Between(lib, schedule, from, polls, i) <= 1
  }

  /** What holds of all sweeps holds of the last one and of those before it. */
  lemma OneMoreSweep(lib: Library, schedule: string, from: Time, polls: seq<Time>)
    requires polls != []
    ensures var n := |polls| - 1;
            var found, between := FoundNext(lib, schedule, from, polls, n), Between(lib, schedule, from, polls, n);
            && (AtMostOneEach(lib, schedule, from, polls)
                <==> AtMostOneEach(lib, schedule, from, polls[..n]) && between <= 1)
            && (NeverRunsOut(lib, schedule, from, polls) <==> NeverRunsOut(lib, schedule, from, polls[..n]) && found)
            && (NoneSpurious(lib, schedule, from, polls)
                <==> NoneSpurious(lib, schedule, from, polls[..n]) && (found || between > 0))
  {
    hide Between, FoundNext;
    var n := |polls| - 1;
    forall i | 0 <= i < n
      ensures Between(lib, schedule, from, polls[..n], i) == Between(lib, schedule, from, polls, i)
      ensures FoundNext(lib, schedule, from, polls[..n], i) == FoundNext(lib, schedule, from, polls, i)
    {
      SameSweep(lib, schedule, from, polls, n, i);
    }
  }

  lemma SameSweep(lib: Library, schedule: string, from: Time, polls: seq<Time>, n: nat, i: nat)
    requires i < n <= |polls|
    ensures Between(lib, schedule, from, polls[..n], i) == Between(lib, schedule, from, polls, i)
    ensures FoundNext(lib, schedule, from, polls[..n], i) == FoundNext(lib, schedule, from, polls, i)
  {
  }

  /** A sweep dispatches the job exactly when an instant lies between the sweep before it and itself, or the search
      for the next run had come back empty. */
  lemma {:induction false} FiresIffInstant(lib: Library, schedule: string, from: Time, polls: seq<Time>)
    requires lib.Valid() && Ordered(from, polls) && polls != []
    ensures var n := |polls| - 1;
            var x := Next(lib, schedule, from);
            |Fired(lib, schedule, x, polls)| == |Fired(lib, schedule, x, polls[..n])| + 1
            <==> !FoundNext(lib, schedule, from, polls, n)
                 || exists t: Time :: Last(from, polls[..n]) < t <= polls[n] && Instant(lib, schedule, t)
  {
    var n := |polls| - 1;
    NextAfterIsNext(lib, schedule, from, polls[..n]);
    if FoundNext(lib, schedule, from, polls, n) {
      DueIffInstant(lib, schedule, Last(from, polls[..n]), polls[n]);
    }
  }

  /** So there are no fewer dispatches than intervals between sweeps that contain an instant, and as many exactly
      when no empty search was followed by an interval without an instant. */
  lemma {:induction false} FiredCount(lib: Library, schedule: string, from: Time, polls: seq<Time>)
    requires lib.Valid() && Ordered(from, polls)
    ensures var fired := |Fired(lib, schedule, Next(lib, schedule, from), polls)|;
            && FiringIntervals(lib, schedule, from, polls) <= fired
            && (fired == FiringIntervals(lib, schedule, from, polls) <==> NoneSpurious(lib, schedule, from, polls))
  {
    if polls != [] {
      var n := |polls| - 1;
      FiredCount(lib, schedule, from, polls[..n]);
      FiresIffInstant(lib, schedule, from, polls);
      InstantsInPositive(lib, schedule, Last(from, polls[..n]), polls[n]);
      OneMoreSweep(lib, schedule, from, polls);
    }
  }

  /** No more such intervals than instants, and as many exactly when no interval between sweeps holds two. */
  lemma {:induction false} IntervalsAndInstants(lib: Library, schedule: string, from: Time, polls: seq<Time>)
    requires Ordered(from, polls)
    ensures FiringIntervals(lib, schedule, from, polls) <= InstantsIn(lib, schedule, from, Last(from, polls))
    ensures FiringIntervals(lib, schedule, from, polls) == InstantsIn(lib, schedule, from, Last(from, polls))
       <==> AtMostOneEach(lib, schedule, from, polls)
  {
    if polls != [] {
      var n := |polls| - 1;
      IntervalsAndInstants(lib, schedule, from, polls[..n]);
      var before := Last(from, polls[..n]);
      assert from <= before <= polls[n];
      InstantCountSplits(lib, schedule, from / SECOND, before / SECOND, polls[n] / SECOND);
      assert InstantsIn(lib, schedule, from, polls[n])
          == InstantsIn(lib, schedule, from, before) + InstantsIn(lib, schedule, before, polls[n]);
      OneMoreSweep(lib, schedule, from, polls);
    } else {
      assert InstantsIn(lib, schedule, from, from) == 0;
    }
  }

  // ---------- which instants ----------

  predicate AllSome(fired: seq<Firing>) {
    forall i :: 0 <= i < |fired| ==> fired[i].trigger.Some?
  }

  /** Each trigger is an instant after `from` and after the sweep of every earlier dispatch, and not after its own
      sweep. */
  predicate TriggersInOrder(lib: Library, schedule: string, from: Time, fired: seq<Firing>)
    requires AllSome(fired)
  {
    && (forall i :: 0 <= i < |fired| ==>
          from < fired[i].trigger.value <= fired[i].at && Instant(lib, schedule, fired[i].trigger.value))
    && (forall i, j :: 0 <= i < j < |fired| ==> fired[i].at < fired[j].trigger.value)
  }

  lemma {:induction false} FiredAt(lib: Library, schedule: string, x: Time, from: Time, polls: seq<Time>)
    requires Ordered(from, polls)
    ensures var fired := Fired(lib, schedule, x, polls);
            AllSome(fired) && forall i :: 0 <= i < |fired| ==> fired[i].at <= Last(from, polls)
  {
    if polls != [] {
      var n := |polls| - 1;
      FiredAt(lib, schedule, x, from, polls[..n]);
      assert Last(from, polls[..n]) <= polls[n];
    }
  }

  /** Triggers are instants, a different one for each dispatch, if and only if no search came back empty. */
  lemma {:induction false} FiredInOrder(lib: Library, schedule: string, from: Time, polls: seq<Time>)
    requires lib.Valid() && Ordered(from, polls)
    ensures var fired := Fired(lib, schedule, Next(lib, schedule, from), polls);
            && AllSome(fired)
            && (TriggersInOrder(lib, schedule, from, fired) <==> NeverRunsOut(lib, schedule, from, polls))
  {
    var x := Next(lib, schedule, from);
    FiredAt(lib, schedule, x, from, polls);
    if polls != [] {
      var n := |polls| - 1;
      FiredInOrder(lib, schedule, from, polls[..n]);
      FiredAt(lib, schedule, x, from, polls[..n]);
      NextAfterIsNext(lib, schedule, from, polls[..n]);
      OneMoreSweep(lib, schedule, from, polls);
      var y, p := Next(lib, schedule, Last(from, polls[..n])), polls[n];
      NextIsLeast(lib, schedule, Last(from, polls[..n]));
      if y <= p {
        OneMoreTrigger(lib, schedule, from, Fired(lib, schedule, x, polls[..n]), y, p, Last(from, polls[..n]));
      }
    }
  }

  lemma OneMoreTrigger(
    lib: Library, schedule: string, from: Time, fired: seq<Firing>, y: Time, p: Time, last: Time)
    requires AllSome(fired) && (forall i :: 0 <= i < |fired| ==> fired[i].at <= last)
    requires from <= last && y <= p && (y != ZERO_TIME ==> last < y && Instant(lib, schedule, y))
    ensures AllSome(fired + [Firing(Some(y), p)])
    ensures TriggersInOrder(lib, schedule, from, fired + [Firing(Some(y), p)])
       <==> TriggersInOrder(lib, schedule, from, fired) && y != ZERO_TIME
  {
    var fired' := fired + [Firing(Some(y), p)];
    assert fired'[|fired|].trigger == Some(y);
    assert forall i :: 0 <= i < |fired| ==> fired'[i] == fired[i];
  }

  /** The instant triggers a dispatch. */
  predicate Triggers(t: Time, fired: seq<Firing>) {
    exists i :: 0 <= i < |fired| && fired[i].trigger == Some(t)
  }

  /** When no interval between sweeps holds two instants, every instant triggers a dispatch. */
  lemma {:induction false} EveryInstantFires(lib: Library, schedule: string, from: Time, polls: seq<Time>, t: Time)
    requires lib.Valid() && Ordered(from, polls)
    requires NeverRunsOut(lib, schedule, from, polls) && AtMostOneEach(lib, schedule, from, polls)
    requires from < t <= Last(from, polls) && Instant(lib, schedule, t)
    ensures Triggers(t, Fired(lib, schedule, Next(lib, schedule, from), polls))
  {
    var n := |polls| - 1;
    var x := Next(lib, schedule, from);
    var before := Last(from, polls[..n]);
    OneMoreSweep(lib, schedule, from, polls);
    var fired := Fired(lib, schedule, x, polls);
    if t <= before {
      EveryInstantFires(lib, schedule, from, polls[..n], t);
      var i :| 0 <= i < |Fired(lib, schedule, x, polls[..n])|
                  && Fired(lib, schedule, x, polls[..n])[i].trigger == Some(t);
      assert fired[i].trigger == Some(t);
    } else {
      NextAfterIsNext(lib, schedule, from, polls[..n]);
      OnlyInstant(lib, schedule, before, polls[n], t);
      assert fired[|fired| - 1].trigger == Some(t);
    }
  }

  /** A sole instant of an interval is the next one after its start. */
  lemma OnlyInstant(lib: Library, schedule: string, a: Time, b: Time, t: Time)
    requires Next(lib, schedule, a) != ZERO_TIME && a < t <= b && Instant(lib, schedule, t)
    requires InstantsIn(lib, schedule, a, b) <= 1
    ensures Next(lib, schedule, a) == t
  {
    NextIsLeast(lib, schedule, a);
    var n := Next(lib, schedule, a);
    if n < t {
      InstantsInPositive(lib, schedule, a, n);
      InstantsInPositive(lib, schedule, n, t);
      InstantCountSplits(lib, schedule, a / SECOND, n / SECOND, t / SECOND);
      InstantCountSplits(lib, schedule, a / SECOND, t / SECOND, b / SECOND);
      assert false;
    }
  }

  // ---------- all of it together ----------

  /** The dispatches and the NextRun of a job with this schedule, swept at these times, the first interval starting
      at `from`. */
  predicate FollowsSchedule(
    lib: Library, schedule: string, from: Time, polls: seq<Time>, fired: seq<Firing>, nextRun: Time)
  {
    && nextRun == Next(lib, schedule, Last(from, polls))
    && AllSome(fired) && (TriggersInOrder(lib, schedule, from, fired) <==> NeverRunsOut(lib, schedule, from, polls))
    && FiringIntervals(lib, schedule, from, polls) <= |fired|
    && (|fired| == FiringIntervals(lib, schedule, from, polls) <==> NoneSpurious(lib, schedule, from, polls))
  }

  lemma {:induction false} FiredFollowsSchedule(lib: Library, schedule: string, from: Time, polls: seq<Time>)
    requires lib.Valid() && Ordered(from, polls)
    ensures var x := Next(lib, schedule, from);
            FollowsSchedule(lib, schedule, from, polls, Fired(lib, schedule, x, polls), NextAfter(lib, schedule, x, polls))
  {
    NextAfterIsNext(lib, schedule, from, polls);
    FiredInOrder(lib, schedule, from, polls);
    FiredCount(lib, schedule, from, polls);
  }

  /** As many dispatches as instants, and each instant triggering one. */
  predicate AllInstantsFire(lib: Library, schedule: string, from: Time, polls: seq<Time>, fired: seq<Firing>) {
    && |fired| == InstantsIn(lib, schedule, from, Last(from, polls))
    && forall t: Time :: from < t <= Last(from, polls) && Instant(lib, schedule, t) ==> Triggers(t, fired)
  }

  /** As long as the schedule does not run out, every instant is dispatched exactly once if and only if no interval
      between sweeps holds two. */
  lemma {:induction false} AllFireIffOneEach(lib: Library, schedule: string, from: Time, polls: seq<Time>)
    requires lib.Valid() && Ordered(from, polls) && NeverRunsOut(lib, schedule, from, polls)
    ensures AllInstantsFire(lib, schedule, from, polls, Fired(lib, schedule, Next(lib, schedule, from), polls))
       <==> AtMostOneEach(lib, schedule, from, polls)
  {
    FiredCount(lib, schedule, from, polls);
    IntervalsAndInstants(lib, schedule, from, polls);
    if AtMostOneEach(lib, schedule, from, polls) {
      forall t: Time | from < t <= Last(from, polls) && Instant(lib, schedule, t)
        ensures Triggers(t, Fired(lib, schedule, Next(lib, schedule, from), polls))
      {
        EveryInstantFires(lib, schedule, from, polls, t);
      }
    }
  }

  // ---------- after a reschedule ----------

  /** The job fires for the first time at the k-th of these sweeps. */
  predicate FirstFiring(lib: Library, schedule: string, x: Time, polls: seq<Time>, k: nat) {
    k < |polls| && x <= polls[k] && forall i :: 0 <= i < k ==> polls[i] < x
  }

  lemma {:induction false} NotYet(lib: Library, schedule: string, x: Time, polls: seq<Time>)
    requires forall i :: 0 <= i < |polls| ==> polls[i] < x
    ensures Fired(lib, schedule, x, polls) == [] && NextAfter(lib, schedule, x, polls) == x
  {
    if polls != [] {
      NotYet(lib, schedule, x, polls[..|polls| - 1]);
    }
  }

  /** Whatever NextRun was before, only the first dispatch is triggered by it: from then on NextRun and the
      dispatches follow the present schedule. */
  lemma {:induction false} OnlyFirstIsSuperseded(lib: Library, schedule: string, x: Time, polls: seq<Time>, k: nat)
    requires FirstFiring(lib, schedule, x, polls, k)
    ensures var x' := Next(lib, schedule, polls[k]);
            && Fired(lib, schedule, x, polls)
               == [Firing(Some(x), polls[k])] + Fired(lib, schedule, x', polls[k + 1..])
            && NextAfter(lib, schedule, x, polls) == NextAfter(lib, schedule, x', polls[k + 1..])
    decreases |polls|
  {
    var n := |polls| - 1;
    if k == n {
      NotYet(lib, schedule, x, polls[..n]);
    } else {
      OnlyFirstIsSuperseded(lib, schedule, x, polls[..n], k);
      assert polls[..n][k + 1..] == polls[k + 1..][..|polls[k + 1..]| - 1];
    }
  }

  /** Either no sweep has reached the old NextRun, or there is a first one that has. */
  lemma FirstOrNone(lib: Library, schedule: string, x: Time, polls: seq<Time>) returns (k: Option<nat>)
    ensures k.Some? ==> FirstFiring(lib, schedule, x, polls, k.value)
    ensures k.None? ==> forall i :: 0 <= i < |polls| ==> polls[i] < x
  {
    k := None;
    var i := 0;
    while i < |polls|
      invariant 0 <= i <= |polls| && forall j :: 0 <= j < i ==> polls[j] < x
    {
      if x <= polls[i] {
        return Some(i);
      }
      i := i + 1;
    }
  }

  /** What is left of an old NextRun `x`: it triggers at most the first of these dispatches; the others, and NextRun
      from there on, belong to the present schedule. */
  predicate OldOnlyFirst(
    lib: Library, schedule: string, x: Time, polls: seq<Time>, fired: seq<Firing>, nextRun: Time, k: Option<nat>)
  {
    if k.None? then fired == [] && nextRun == x
    else
      && k.value < |polls| && |fired| > 0 && fired[0] == Firing(Some(x), polls[k.value])
      && FollowsSchedule(lib, schedule, polls[k.value], polls[k.value + 1..], fired[1..], nextRun)
  }

  lemma OldTriggersOnlyFirst(lib: Library, schedule: string, x: Time, from: Time, polls: seq<Time>)
    returns (k: Option<nat>)
    requires lib.Valid() && Ordered(from, polls)
    ensures OldOnlyFirst(lib, schedule, x, polls, Fired(lib, schedule, x, polls), NextAfter(lib, schedule, x, polls), k)
  {
    hide FollowsSchedule, NextAfter;
    k := FirstOrNone(lib, schedule, x, polls);
    if k.None? {
      NotYet(lib, schedule, x, polls);
    } else {
      var p, rest := polls[k.value], polls[k.value + 1..];
      OnlyFirstIsSuperseded(lib, schedule, x, polls, k.value);
      FiredFollowsSchedule(lib, schedule, p, rest);
      var later := Fired(lib, schedule, Next(lib, schedule, p), rest);
      assert ([Firing(Some(x), p)] + later)[1..] == later;
    }
  }

  // ---------- schedules that run out ----------

  /** A job becomes due without an instant exactly when the search for its next run had come back empty. */
  lemma DueWithoutInstantIffZero(lib: Library, schedule: string, from: Time, p: Time)
    ensures var none := forall t: Time :: from < t <= p ==> !Instant(lib, schedule, t);
            Next(lib, schedule, from) <= p && none <==> Next(lib, schedule, from) == ZERO_TIME && none
  {
    NextIsLeast(lib, schedule, from);
  }

  /** A schedule that never fires is dispatched by every sweep: the zero time is always due. */
  lemma {:induction false} NeverFiringAlwaysDispatched(lib: Library, schedule: string, from: Time, polls: seq<Time>)
    requires forall k: nat :: !lib.fires(schedule, k)
    ensures |Fired(lib, schedule, Next(lib, schedule, from), polls)| == |polls|
    ensures NextAfter(lib, schedule, Next(lib, schedule, from), polls) == ZERO_TIME
  {
    NextZeroIffNone(lib, schedule, from);
    if polls != [] {
      NeverFiringAlwaysDispatched(lib, schedule, from, polls[..|polls| - 1]);
      NextZeroIffNone(lib, schedule, polls[|polls| - 1]);
    }
  }
}
