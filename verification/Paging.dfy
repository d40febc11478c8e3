/** Newest-first pages of a history, as GetJobExecutions computes them on machine integers. */
module Paging {
  import opened Common

  function Min(a: int, b: int): int {
    if a <= b then a else b
  }

  function Reverse<T>(s: seq<T>): (r: seq<T>)
    ensures |r| == |s|
    ensures forall i :: 0 <= i < |s| ==> r[i] == s[|s| - 1 - i]
  {
    seq(|s|, i requires 0 <= i < |s| => s[|s| - 1 - i])
  }

  /** The items from `offset` on, at most `limit` of them, of a history read from its newest end. */
  function Page<T>(history: seq<T>, limit: nat, offset: nat): seq<T> {
    var n := |history|;
    Reverse(history)[Min(offset, n)..Min(offset + limit, n)]
  }

  /** The loop of GetJobExecutions: `at` runs down from n - 1 - start while it is at least n - end and 0. */
  function Downward<T>(history: seq<T>, at: int, floor: int): seq<T>
    requires at < |history|
    decreases at + 1
  {
    if at >= floor && at >= 0 then [history[at]] + Downward(history, at - 1, floor) else []
  }

  lemma DownwardStep<T>(history: seq<T>, at: int, floor: int)
    requires at < |history|
    ensures Downward(history, at, floor)
            == if at >= floor && at >= 0 then [history[at]] + Downward(history, at - 1, floor) else []
  {
  }

  /** The bounds between which the loop runs, each computed with 64-bit wrap-around. */
  function LoopStart(n: nat, offset: int): int {
    Min(offset, n)
  }

  function LoopTop(n: nat, offset: int): int {
    Wrap64(n - 1 - LoopStart(n, offset))
  }

  function LoopFloor(n: nat, limit: int, offset: int): int {
    var start := LoopStart(n, offset);
    Wrap64(n - Min(Wrap64(start + limit), n))
  }

  lemma {:induction false} DownwardIsSlice<T>(history: seq<T>, at: int, floor: int)
    requires -1 <= at < |history| && 0 <= floor <= at + 1
    ensures Downward(history, at, floor) == Reverse(history)[|history| - 1 - at..|history| - floor]
    decreases at
  {
    if at >= floor {
      DownwardIsSlice(history, at - 1, floor);
    }
  }

  lemma {:induction false} NegativeFloor<T>(history: seq<T>, at: int, floor: int)
    requires -1 <= at < |history| && floor <= 0
    ensures Downward(history, at, floor) == Downward(history, at, 0)
    decreases at
  {
    if at >= 0 {
      NegativeFloor(history, at - 1, floor);
    }
  }

  /** For every nonnegative limit and offset of the machine the loop yields exactly the page. Where
      start + limit overflows, so does the difference taken from it, and the loop runs to the oldest item. */
  lemma {:induction false} LoopYieldsPage<T>(history: seq<T>, limit: int, offset: int)
    requires |history| <= MAX_INT64 && 0 <= limit <= MAX_INT64 && 0 <= offset <= MAX_INT64
    ensures LoopTop(|history|, offset) < |history|
    ensures Downward(history, LoopTop(|history|, offset), LoopFloor(|history|, limit, offset))
            == Page(history, limit, offset)
  {
    var n := |history|;
    LoopBounds(n, limit, offset);
    var at := n - 1 - LoopStart(n, offset);
    var floor := n - Min(offset + limit, n);
    assert Downward(history, at, LoopFloor(n, limit, offset)) == Downward(history, at, floor) by {
      if LoopFloor(n, limit, offset) != floor {
        NegativeFloor(history, at, LoopFloor(n, limit, offset));
      }
    }
    DownwardIsSlice(history, at, floor);
  }

  /** The lower bound is the distance of the page's end from the oldest item, or not positive if the page reaches it. */
  lemma LoopBounds(n: nat, limit: int, offset: int)
    requires n <= MAX_INT64 && 0 <= limit <= MAX_INT64 && 0 <= offset <= MAX_INT64
    ensures var floor := n - Min(offset + limit, n);
            0 <= floor <= n - LoopStart(n, offset)
            && (LoopFloor(n, limit, offset) == floor || (floor == 0 && LoopFloor(n, limit, offset) <= 0))
  {
  }

  /** The bounds with which GetAllJobs slices `total` jobs; None where the slice expression panics. */
  function SliceBounds(total: nat, limit: int, offset: int): (r: Option<(nat, nat)>)
    ensures r.Some? ==> r.value.0 <= r.value.1 <= total
  {
    var start := Min(offset, total);
    var end := Min(Wrap64(start + limit), total);
    if 0 <= start <= end then Some((start, end)) else None
  }

  /** For a nonnegative offset and a positive limit, as the handler lets through, the slice expression panics
      exactly when the clipped start plus the limit leaves the range of an int; otherwise it is the page. */
  lemma SlicePanicsIffOverflow(total: nat, limit: int, offset: int)
    requires total <= MAX_INT64 && 0 < limit <= MAX_INT64 && 0 <= offset <= MAX_INT64
    ensures SliceBounds(total, limit, offset).None? <==> Min(offset, total) + limit > MAX_INT64
    ensures SliceBounds(total, limit, offset).Some? ==>
              SliceBounds(total, limit, offset).value == (Min(offset, total), Min(offset + limit, total))
  {
  }

  // ---------- how pages fit together ----------

  /** The first `count` pages of size `size`, one after the other. */
  function FirstPages<T>(history: seq<T>, size: nat, count: nat): seq<T> {
    if count == 0 then [] else FirstPages(history, size, count - 1) + Page(history, size, (count - 1) * size)
  }

  /** Consecutive pages tile the reversed history without gap or repeat. */
  lemma {:induction false} PagesTile<T>(history: seq<T>, size: nat, count: nat)
    ensures FirstPages(history, size, count) == Reverse(history)[..Min(count * size, |history|)]
  {
    if count > 0 {
      PagesTile(history, size, count - 1);
      assert count * size == (count - 1) * size + size;
    }
  }

  /** After one more execution every page has moved by one: the page at offset + 1 is the old page at offset. */
  lemma PageShifts<T>(history: seq<T>, newest: T, limit: nat, offset: nat)
    ensures Page(history + [newest], limit, offset + 1) == Page(history, limit, offset)
  {
  }
}
