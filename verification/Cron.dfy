/** Schedules: the CRON library seen from outside, and the parser wrapper of cron/parser.go. */
module Cron {
  import opened Common
  import opened Text

  /** What the service uses of the CRON library: which expressions parse, at which whole seconds one fires,
      and the last second that a search starting after a given second still examines. */
  datatype Library = Library(accepts: string -> bool, fires: (string, nat) -> bool, lastSearched: nat -> int) {

    /** A later search never gives up earlier. */
    ghost predicate Valid() {
      forall a: nat, b: nat :: a <= b ==> lastSearched(a) <= lastSearched(b)
    }
  }

  /** `t` is an instant at which the schedule fires. */
  predicate Instant(lib: Library, expression: string, t: Time) {
    t % SECOND == 0 && lib.fires(expression, t / SECOND)
  }

  function Search(lib: Library, expression: string, k: nat, last: int): (r: Option<nat>)
    ensures r.Some? ==> k <= r.value <= last && lib.fires(expression, r.value)
    ensures forall j: nat :: k <= j && (if r.Some? then j < r.value else j <= last) ==> !lib.fires(expression, j)
    decreases last - k
  {
    if k > last then None
    else if lib.fires(expression, k) then Some(k)
    else Search(lib, expression, k + 1, last)
  }

  /** The least firing second strictly after `from`, or the zero time when the search finds none. */
  function Next(lib: Library, expression: string, from: Time): Time {
    var k := from / SECOND;
    var found := Search(lib, expression, k + 1, lib.lastSearched(k));
    if found.Some? then found.value * SECOND else ZERO_TIME
  }

  lemma WholeSeconds(k: nat, t: Time)
    ensures k * SECOND / SECOND == k && k * SECOND % SECOND == 0
    ensures k * SECOND > t <==> k > t / SECOND
  {
  }

  /** A nonzero result is an instant after `from`, and no instant lies between. */
  lemma NextIsLeast(lib: Library, expression: string, from: Time)
    ensures var n := Next(lib, expression, from);
            n != ZERO_TIME ==>
              && n > from && Instant(lib, expression, n)
              && forall t: Time :: from < t < n ==> !Instant(lib, expression, t)
  {
  }

  /** The zero time is returned exactly when no instant lies within the search range. */
  lemma NextZeroIffNone(lib: Library, expression: string, from: Time)
    ensures Next(lib, expression, from) == ZERO_TIME
       <==> forall k: nat :: from / SECOND < k <= lib.lastSearched(from / SECOND) ==> !lib.fires(expression, k)
  {
  }

  /** Asking again from a later time that the result has not reached gives the same result. */
  lemma NextStable(lib: Library, expression: string, from: Time, later: Time)
    requires lib.Valid() && from <= later < Next(lib, expression, from)
    ensures Next(lib, expression, later) == Next(lib, expression, from)
  {
  }

  /** A next run computed at `from`, if one was found, is due at `p` exactly when an instant lies in (from, p]. */
  lemma DueIffInstant(lib: Library, expression: string, from: Time, p: Time)
    requires Next(lib, expression, from) != ZERO_TIME
    ensures Next(lib, expression, from) <= p <==> exists t: Time :: from < t <= p && Instant(lib, expression, t)
  {
    NextIsLeast(lib, expression, from);
  }

  // ---------- the parser ----------

  datatype CronError = EmptyExpression | WrongFieldCount(count: nat) | Unparsable | NonpositiveCount

  function Validate(lib: Library, expression: string): Option<CronError> {
    if expression == "" then Some(EmptyExpression)
    else if |Fields(expression)| != 6 then Some(WrongFieldCount(|Fields(expression)|))
    else if !lib.accepts(expression) then Some(Unparsable)
    else None
  }

  /** The library parses it, and it has exactly six words. */
  predicate Admissible(lib: Library, expression: string) {
    lib.accepts(expression) && |set i | 0 <= i < |expression| && WordStart(expression, i)| == 6
  }

  /** A schedule is admitted if and only if it has exactly six words and the library parses it; otherwise the error
      says which of the three it is: empty, how many words it has, or not parsed. */
  lemma ValidateIff(lib: Library, expression: string)
    ensures var words := |set i | 0 <= i < |expression| && WordStart(expression, i)|;
            && (Validate(lib, expression).None? <==> Admissible(lib, expression))
            && (Validate(lib, expression) == Some(EmptyExpression) <==> expression == "")
            && (forall n :: Validate(lib, expression) == Some(WrongFieldCount(n))
                  <==> expression != "" && n == words && n != 6)
            && (Validate(lib, expression) == Some(Unparsable) <==> words == 6 && !lib.accepts(expression))
  {
    FieldCount(expression);
    assert WordStarts(expression) == set i | 0 <= i < |expression| && WordStart(expression, i);
    assert expression == "" ==> WordStarts(expression) == {};
  }

  function GetNextRun(lib: Library, expression: string, from: Time): Result<Time, CronError> {
    if lib.accepts(expression) then Ok(Next(lib, expression, from)) else Err(Unparsable)
  }

  /** A schedule that was validated is always found by the sweep's parser. */
  lemma ValidatedParses(lib: Library, expression: string, from: Time)
    requires Validate(lib, expression).None?
    ensures GetNextRun(lib, expression, from) == Ok(Next(lib, expression, from))
  {
  }

  /** Computing the next run fails exactly for what the library does not parse. */
  lemma NextRunFails(lib: Library, expression: string, from: Time)
    ensures GetNextRun(lib, expression, from).Err? <==> !lib.accepts(expression)
    ensures GetNextRun(lib, expression, from).Err? ==> GetNextRun(lib, expression, from).error == Unparsable
  {
  }

  /** `runs` lists the schedule's instants after `from`, in order and without a gap. */
  ghost predicate ConsecutiveInstants(lib: Library, expression: string, from: Time, runs: seq<Time>) {
    && (forall i :: 0 <= i < |runs| ==> from < runs[i] && Instant(lib, expression, runs[i]))
    && (forall i, j :: 0 <= i < j < |runs| ==> runs[i] < runs[j])
    && (forall t: Time :: |runs| > 0 && from < t <= runs[|runs| - 1] && Instant(lib, expression, t) ==> t in runs)
  }

  lemma AppendNext(lib: Library, expression: string, from: Time, runs: seq<Time>, current: Time)
    requires ConsecutiveInstants(lib, expression, from, runs)
    requires current == if runs == [] then from else runs[|runs| - 1]
    requires Next(lib, expression, current) != ZERO_TIME
    ensures ConsecutiveInstants(lib, expression, from, runs + [Next(lib, expression, current)])
  {
    NextIsLeast(lib, expression, current);
    var next := Next(lib, expression, current);
    forall t: Time | from < t <= next && Instant(lib, expression, t)
      ensures t in runs + [next]
    {
      if t <= current {
        assert t in runs;
      } else {
        assert t == next;
      }
    }
  }

  method GetNextNRuns(lib: Library, expression: string, n: int, from: Time)
    returns (r: Result<seq<Time>, CronError>)
    ensures r.Err? <==> n <= 0 || !lib.accepts(expression)
    ensures r.Err? ==> r.error == if n <= 0 then NonpositiveCount else Unparsable
    ensures r.Ok? ==> ConsecutiveInstants(lib, expression, from, r.value) && |r.value| <= n
    ensures r.Ok? && |r.value| < n ==>
              Next(lib, expression, if |r.value| == 0 then from else r.value[|r.value| - 1]) == ZERO_TIME
  {
    if n <= 0 {
      return Err(NonpositiveCount);
    }
    if !lib.accepts(expression) {
      return Err(Unparsable);
    }
    var runs: seq<Time> := [];
    var current := from;
    for i := 0 to n
      invariant |runs| == i
      invariant current == if i == 0 then from else runs[i - 1]
      invariant ConsecutiveInstants(lib, expression, from, runs)
    {
      var next := Next(lib, expression, current);
      if next == ZERO_TIME {
        break;
      }
      AppendNext(lib, expression, from, runs, current);
      runs := runs + [next];
      current := next;
    }
    return Ok(runs);
  }

  // ---------- counting instants ----------

  /** How many seconds of (a, b] the schedule fires in. */
  function InstantCount(lib: Library, expression: string, a: nat, b: nat): nat {
    if b <= a then 0
    else InstantCount(lib, expression, a, b - 1) + (if lib.fires(expression, b) then 1 else 0)
  }

  lemma {:induction false} InstantCountSplits(lib: Library, expression: string, a: nat, b: nat, c: nat)
    requires a <= b <= c
    ensures InstantCount(lib, expression, a, c)
            == InstantCount(lib, expression, a, b) + InstantCount(lib, expression, b, c)
  {
    if b < c {
      InstantCountSplits(lib, expression, a, b, c - 1);
    }
  }

  lemma {:induction false} InstantCountPositive(lib: Library, expression: string, a: nat, b: nat)
    ensures InstantCount(lib, expression, a, b) > 0 <==> exists k: nat :: a < k <= b && lib.fires(expression, k)
  {
    if a < b {
      InstantCountPositive(lib, expression, a, b - 1);
    }
  }

  /** The number of instants in the interval (a, b] of times. */
  function InstantsIn(lib: Library, expression: string, a: Time, b: Time): nat {
    InstantCount(lib, expression, a / SECOND, b / SECOND)
  }

  lemma InstantsInPositive(lib: Library, expression: string, a: Time, b: Time)
    ensures InstantsIn(lib, expression, a, b) > 0
       <==> exists t: Time :: a < t <= b && Instant(lib, expression, t)
  {
    InstantCountPositive(lib, expression, a / SECOND, b / SECOND);
    if t: Time :| a < t <= b && Instant(lib, expression, t) {
      assert t == t / SECOND * SECOND;
      WholeSeconds(t / SECOND, a);
      assert a / SECOND < t / SECOND <= b / SECOND;
    }
    if k: nat :| a / SECOND < k <= b / SECOND && lib.fires(expression, k) {
      WholeSeconds(k, a);
      assert a < k * SECOND <= b && Instant(lib, expression, k * SECOND);
    }
  }
}
