/** The fixed-window rate limiter of api/middleware.go. */
module RateLimiter {
  import opened Common

  const DEFAULT_REQUESTS := 60
  const DEFAULT_WINDOW: Duration := 60 * SECOND

  datatype Limits = Limits(limit: int, window: Duration)

  /** The limits that the router installs: nonpositive options fall back to the defaults. */
  function EffectiveLimits(requests: int, window: Duration): (l: Limits)
    ensures l.limit > 0 && l.window > 0
    ensures l.limit == if requests > 0 then requests else 60
    ensures l.window == if window > 0 then window else 60_000_000_000
  {
    Limits(if requests <= 0 then DEFAULT_REQUESTS else requests, if window <= 0 then DEFAULT_WINDOW else window)
  }

  /** The mutable part of a limiter. */
  datatype Window = Window(start: Time, requests: map<string, int>)

  function Count(requests: map<string, int>, client: string): int {
    if client in requests then requests[client] else 0
  }

  datatype Request = Request(now: Time, client: string)

  /** One decision: the admitted flag and the window it leaves behind. */
  function Decide(l: Limits, w: Window, r: Request): (bool, Window) {
    var w' := if r.now - w.start >= l.window then Window(r.now, map[]) else w;
    if Count(w'.requests, r.client) >= l.limit then (false, w')
    else (true, w'.(requests := w'.requests[r.client := Count(w'.requests, r.client) + 1]))
  }

  class Limiter {
    const limits: Limits
    var windowStart: Time
    var requests: map<string, int>

    constructor (limits: Limits, now: Time)
      ensures this.limits == limits && Value() == Window(now, map[])
    {
      this.limits := limits;
      windowStart := now;
      requests := map[];
    }

    function Value(): Window
      reads this
    {
      Window(windowStart, requests)
    }

    // `now` is read before the lock is taken, so successive calls may see it step back.
    method Allow(now: Time, clientIP: string) returns (admitted: bool)
      modifies this
      ensures (admitted, Value()) == Decide(limits, old(Value()), Request(now, clientIP))
    {
      if now - windowStart >= limits.window {
        windowStart := now;
        requests := map[];
      }
      if Count(requests, clientIP) >= limits.limit {
        return false;
      }
      requests := requests[clientIP := Count(requests, clientIP) + 1];
      return true;
    }
  }

  // ---------- runs ----------

  /** The window left after a sequence of requests, in the order in which they take the lock. */
  function After(l: Limits, w: Window, rs: seq<Request>): Window {
    if rs == [] then w else Decide(l, After(l, w, rs[..|rs| - 1]), rs[|rs| - 1]).1
  }

  /** Whether the last of a nonempty sequence of requests is admitted. */
  predicate LastAdmitted(l: Limits, w: Window, rs: seq<Request>)
    requires rs != []
  {
    Decide(l, After(l, w, rs[..|rs| - 1]), rs[|rs| - 1]).0
  }

  /** Whether the last of a nonempty sequence of requests opens a new window. */
  predicate LastOpensWindow(l: Limits, w: Window, rs: seq<Request>)
    requires rs != []
  {
    rs[|rs| - 1].now - After(l, w, rs[..|rs| - 1]).start >= l.window
  }

  /** How many requests of `client` were admitted since the current window was opened. */
  function AdmittedInWindow(l: Limits, w: Window, rs: seq<Request>, client: string): nat {
    if rs == [] then 0
    else
      (if LastOpensWindow(l, w, rs) then 0 else AdmittedInWindow(l, w, rs[..|rs| - 1], client))
      + (if LastAdmitted(l, w, rs) && rs[|rs| - 1].client == client then 1 else 0)
  }

  /** How many requests of `client` stamped in [from, to) were admitted. */
  function AdmittedBetween(l: Limits, w: Window, rs: seq<Request>, client: string, from: int, to: int): nat {
    if rs == [] then 0
    else
      var last := rs[|rs| - 1];
      AdmittedBetween(l, w, rs[..|rs| - 1], client, from, to)
      + (if LastAdmitted(l, w, rs) && last.client == client && from <= last.now < to then 1 else 0)
  }

  /** The counter map counts the admissions since the window was opened, and never passes the limit,
      whatever the time stamps are. */
  lemma {:induction false} CounterCountsAdmissions(l: Limits, start: Time, rs: seq<Request>, client: string)
    requires l.limit > 0
    ensures Count(After(l, Window(start, map[]), rs).requests, client)
            == AdmittedInWindow(l, Window(start, map[]), rs, client) <= l.limit
  {
    if rs != [] {
      CounterCountsAdmissions(l, start, rs[..|rs| - 1], client);
    }
  }

  // ---------- who is admitted ----------

  /** When the window was opened in which the last request is decided, told from the time stamps alone. */
  function OpenedAt(window: Duration, start: Time, rs: seq<Request>): Time {
    if rs == [] then start
    else
      var before := OpenedAt(window, start, rs[..|rs| - 1]);
      if rs[|rs| - 1].now - before >= window then rs[|rs| - 1].now else before
  }

  /** The last request comes when the window is over. */
  predicate ComesLate(window: Duration, start: Time, rs: seq<Request>)
    requires rs != []
  {
    rs[|rs| - 1].now - OpenedAt(window, start, rs[..|rs| - 1]) >= window
  }

  /** How much of its limit a client has used in the present window. */
  function Used(l: Limits, start: Time, rs: seq<Request>, client: string): nat {
    if rs == [] then 0
    else
      var before := if ComesLate(l.window, start, rs) then 0 else Used(l, start, rs[..|rs| - 1], client);
      if rs[|rs| - 1].client == client && before < l.limit then before + 1 else before
  }

  lemma {:induction false} WindowAndUse(l: Limits, start: Time, rs: seq<Request>, client: string)
    requires l.limit > 0
    ensures var w := After(l, Window(start, map[]), rs);
            && w.start == OpenedAt(l.window, start, rs) && Count(w.requests, client) == Used(l, start, rs, client)
            && AdmittedInWindow(l, Window(start, map[]), rs, client) == Used(l, start, rs, client)
  {
    if rs != [] {
      WindowAndUse(l, start, rs[..|rs| - 1], client);
      WindowAndUse(l, start, rs[..|rs| - 1], rs[|rs| - 1].client);
    }
  }

  /** A request is admitted if and only if it comes when the window is over, or its client has used less than the limit
      in the present one. */
  lemma {:induction false} AdmittedIff(l: Limits, start: Time, rs: seq<Request>)
    requires l.limit > 0 && rs != []
    ensures var w, before, client := Window(start, map[]), rs[..|rs| - 1], rs[|rs| - 1].client;
            && (LastOpensWindow(l, w, rs) <==> ComesLate(l.window, start, rs))
            && (LastAdmitted(l, w, rs)
                <==> LastOpensWindow(l, w, rs) || AdmittedInWindow(l, w, before, client) < l.limit)
            && (LastAdmitted(l, w, rs) <==> ComesLate(l.window, start, rs) || Used(l, start, before, client) < l.limit)
  {
    WindowAndUse(l, start, rs[..|rs| - 1], rs[|rs| - 1].client);
  }

  /** The requests of one client, and those that open windows. */
  function Relevant(window: Duration, start: Time, rs: seq<Request>, client: string): seq<Request> {
    if rs == [] then []
    else
      var before := Relevant(window, start, rs[..|rs| - 1], client);
      if rs[|rs| - 1].client == client || ComesLate(window, start, rs) then before + [rs[|rs| - 1]] else before
  }

  lemma {:induction false} OneMoreRelevant(window: Duration, start: Time, rs: seq<Request>, client: string)
    requires rs != []
    ensures var before := Relevant(window, start, rs[..|rs| - 1], client);
            Relevant(window, start, rs, client)
            == if rs[|rs| - 1].client == client || ComesLate(window, start, rs) then before + [rs[|rs| - 1]] else before
  {
  }

  lemma {:induction false} NothingRelevant(window: Duration, start: Time, client: string)
    ensures Relevant(window, start, [], client) == []
  {
  }

  /** One more request, at a window opened at `open` of which the client has used `used`. */
  predicate Late(window: Duration, open: Time, r: Request) {
    r.now - open >= window
  }

  function UsedAfter(l: Limits, open: Time, used: nat, r: Request, client: string): nat {
    var before := if Late(l.window, open, r) then 0 else used;
    if r.client == client && before < l.limit then before + 1 else before
  }

  lemma {:induction false} OneMoreRequest(l: Limits, start: Time, rs: seq<Request>, r: Request, client: string)
    ensures var open := OpenedAt(l.window, start, rs);
            && ComesLate(l.window, start, rs + [r]) == Late(l.window, open, r)
            && OpenedAt(l.window, start, rs + [r]) == (if Late(l.window, open, r) then r.now else open)
            && Used(l, start, rs + [r], client) == UsedAfter(l, open, Used(l, start, rs, client), r, client)
  {
    assert (rs + [r])[..|rs|] == rs;
  }

  lemma {:induction false} RelevantSuffices(l: Limits, start: Time, rs: seq<Request>, client: string)
    ensures var rel := Relevant(l.window, start, rs, client);
            && OpenedAt(l.window, start, rel) == OpenedAt(l.window, start, rs)
            && Used(l, start, rel, client) == Used(l, start, rs, client)
  {
    hide Relevant, OpenedAt, Used, ComesLate, Late;
    if rs != [] {
      var before, last := rs[..|rs| - 1], rs[|rs| - 1];
      var rel := Relevant(l.window, start, before, client);
      RelevantSuffices(l, start, before, client);
      OneMoreRelevant(l.window, start, rs, client);
      assert rs == before + [last];
      OneMoreRequest(l, start, before, last, client);
      OneMoreRequest(l, start, rel, last, client);
    } else {
      NothingRelevant(l.window, start, client);
    }
  }

  /** Clients do not use up each other's limits: without the requests of other clients that open no window, each
      request of this client is decided in the same way. */
  lemma OthersDoNotMatter(l: Limits, start: Time, rs: seq<Request>)
    requires l.limit > 0 && rs != []
    ensures var w, rel := Window(start, map[]), Relevant(l.window, start, rs, rs[|rs| - 1].client);
            rel != [] && (LastAdmitted(l, w, rel) <==> LastAdmitted(l, w, rs))
  {
    var before, last := rs[..|rs| - 1], rs[|rs| - 1];
    var rel := Relevant(l.window, start, before, last.client);
    RelevantSuffices(l, start, before, last.client);
    assert Relevant(l.window, start, rs, last.client) == rel + [last];
    assert (rel + [last])[..|rel|] == rel;
    AdmittedIff(l, start, rs);
    AdmittedIff(l, start, rel + [last]);
  }

  ghost predicate Nondecreasing(start: Time, rs: seq<Request>) {
    && (forall i :: 0 <= i < |rs| ==> start <= rs[i].now)
    && (forall i, j :: 0 <= i < j < |rs| ==> rs[i].now <= rs[j].now)
  }

  /** The time up to which a run has seen the clock. */
  function LastSeen(start: Time, rs: seq<Request>): Time {
    if rs == [] then start else rs[|rs| - 1].now
  }

  /** What one client can have got from [from, from + window) once the clock has reached `seen`: nothing before
      `from`, at most this window's count if the window reaches into the interval, at most one full window more
      if it was opened in the interval, and never more than two. */
  ghost predicate IntervalBound(l: Limits, w: Window, got: int, seen: Time, client: string, from: int) {
    && w.start <= seen
    && (seen < from ==> got == 0)
    && (w.start < from ==> got <= Count(w.requests, client))
    && (from <= w.start < from + l.window ==> got <= l.limit + Count(w.requests, client))
    && got <= 2 * l.limit
    && 0 <= Count(w.requests, client) <= l.limit
  }

  lemma IntervalBoundStep(l: Limits, w: Window, got: int, seen: Time, r: Request, client: string, from: int)
    requires l.limit > 0 && l.window > 0 && seen <= r.now
    requires IntervalBound(l, w, got, seen, client, from)
    ensures
      var (admitted, w') := Decide(l, w, r);
      var more := if admitted && r.client == client && from <= r.now < from + l.window then 1 else 0;
      IntervalBound(l, w', got + more, r.now, client, from)
  {
  }

  lemma {:induction false} IntervalBoundHolds(l: Limits, start: Time, rs: seq<Request>, client: string, from: int)
    requires l.limit > 0 && l.window > 0 && Nondecreasing(start, rs)
    ensures IntervalBound(l, After(l, Window(start, map[]), rs),
                          AdmittedBetween(l, Window(start, map[]), rs, client, from, from + l.window),
                          LastSeen(start, rs), client, from)
  {
    if rs != [] {
      var before, last := rs[..|rs| - 1], rs[|rs| - 1];
      IntervalBoundHolds(l, start, before, client, from);
      IntervalBoundStep(l, After(l, Window(start, map[]), before),
                        AdmittedBetween(l, Window(start, map[]), before, client, from, from + l.window),
                        LastSeen(start, before), last, client, from);
    }
  }

  /** With time stamps nondecreasing in lock order, no interval as long as the window admits more than
      twice the limit from one client. */
  lemma TwiceTheLimitAtMost(l: Limits, start: Time, rs: seq<Request>, client: string, from: int)
    requires l.limit > 0 && l.window > 0 && Nondecreasing(start, rs)
    ensures AdmittedBetween(l, Window(start, map[]), rs, client, from, from + l.window) <= 2 * l.limit
  {
    IntervalBoundHolds(l, start, rs, client, from);
  }

  // ---------- the bound is reached ----------

  /** `limit` requests at the end of the first window and `limit` more as the second one opens. */
  function Burst(l: Limits, start: Time, client: string, n: nat): seq<Request>
    requires l.window > 0
    ensures |Burst(l, start, client, n)| == n
  {
    if n == 0 then []
    else
      Burst(l, start, client, n - 1)
      + [Request(start + l.window - (if n <= l.limit then 1 else 0), client)]
  }

  ghost predicate BurstState(l: Limits, w: Window, got: int, start: Time, client: string, n: nat) {
    && got == n
    && (if n <= l.limit then w.start == start && Count(w.requests, client) == n
        else w.start == start + l.window && Count(w.requests, client) == n - l.limit)
  }

  lemma {:induction false} BurstAdmitted(l: Limits, start: Time, client: string, n: nat)
    requires l.limit > 0 && l.window >= 2 && n <= 2 * l.limit
    ensures
      var from := start + l.window - 1;
      var rs := Burst(l, start, client, n);
      BurstState(l, After(l, Window(start, map[]), rs),
                 AdmittedBetween(l, Window(start, map[]), rs, client, from, from + l.window), start, client, n)
  {
    if n > 0 {
      BurstAdmitted(l, start, client, n - 1);
      var rs := Burst(l, start, client, n);
      assert rs[..|rs| - 1] == Burst(l, start, client, n - 1);
    }
  }

  lemma {:induction false} BurstNondecreasing(l: Limits, start: Time, client: string, n: nat)
    requires l.window >= 1
    ensures Nondecreasing(start, Burst(l, start, client, n))
    ensures forall i :: 0 <= i < n ==>
              Burst(l, start, client, n)[i].now == start + l.window - (if i < l.limit then 1 else 0)
  {
    if n > 0 {
      BurstNondecreasing(l, start, client, n - 1);
    }
  }

  ghost predicate AdmitsTwice(l: Limits, start: Time, client: string, rs: seq<Request>, from: int) {
    && Nondecreasing(start, rs)
    && AdmittedBetween(l, Window(start, map[]), rs, client, from, from + l.window) == 2 * l.limit
  }

  /** Twice the limit is tight: for every limit, some run reaches it. */
  lemma TwiceTheLimitReached(l: Limits, start: Time, client: string)
    requires l.limit > 0 && l.window >= 2
    ensures exists rs, from :: AdmitsTwice(l, start, client, rs, from)
  {
    BurstAdmitted(l, start, client, 2 * l.limit);
    BurstNondecreasing(l, start, client, 2 * l.limit);
    assert AdmitsTwice(l, start, client, Burst(l, start, client, 2 * l.limit), start + l.window - 1);
  }
}
