/** Live and dead words of a pool, and the maximal runs they form. */
module Runs {
  /** How many words of [lo, hi) are live. */
  ghost function Live(lv: seq<bool>, lo: nat, hi: nat): (n: nat)
    requires lo <= hi <= |lv|
    ensures n <= hi - lo
    decreases hi - lo
  {
    if lo == hi then 0 else Live(lv, lo, hi - 1) + (if lv[hi - 1] then 1 else 0)
  }

  /** Where the word at `a` goes: down by the number of dead words below it in its pool. */
  ghost function Slide(lv: seq<bool>, start: nat, a: nat): (n: nat)
    requires start <= a <= |lv|
    ensures start <= n <= a
  {
    start + Live(lv, start, a)
  }

  /** A maximal run of equal liveness, cut off at `start`, begins at `a`. */
  ghost predicate RunStart(lv: seq<bool>, start: nat, a: nat)
    requires start <= a < |lv|
  {
    a == start || lv[a - 1] != lv[a]
  }

  /** Where the run through `a` ends, cut off at `hi`. */
  ghost function RunEnd(lv: seq<bool>, a: nat, hi: nat): (r: nat)
    requires a < hi <= |lv|
    ensures a < r <= hi
    ensures forall k :: a <= k < r ==> lv[k] == lv[a]
    ensures r < hi ==> lv[r] != lv[a]
    decreases hi - a
  {
    if a + 1 < hi && lv[a + 1] == lv[a] then RunEnd(lv, a + 1, hi) else a + 1
  }

  lemma {:induction false} LiveSplit(lv: seq<bool>, lo: nat, mid: nat, hi: nat)
    requires lo <= mid <= hi <= |lv|
    ensures Live(lv, lo, hi) == Live(lv, lo, mid) + Live(lv, mid, hi)
    decreases hi - mid
  {
    if mid < hi { LiveSplit(lv, lo, mid, hi - 1); }
  }

  lemma {:induction false} LiveUniform(lv: seq<bool>, lo: nat, hi: nat, v: bool)
    requires lo <= hi <= |lv|
    requires forall k :: lo <= k < hi ==> lv[k] == v
    ensures Live(lv, lo, hi) == if v then hi - lo else 0
    decreases hi - lo
  {
    if lo < hi { LiveUniform(lv, lo, hi - 1, v); }
  }

  lemma SlideRun(lv: seq<bool>, start: nat, a: nat, b: nat)
    requires start <= a <= b <= |lv|
    requires forall k :: a <= k < b ==> lv[k]
    ensures Slide(lv, start, b) == Slide(lv, start, a) + (b - a)
  {
    LiveSplit(lv, start, a, b);
    LiveUniform(lv, a, b, true);
  }

  lemma SlideGap(lv: seq<bool>, start: nat, a: nat, b: nat)
    requires start <= a <= b <= |lv|
    requires forall k :: a <= k < b ==> !lv[k]
    ensures Slide(lv, start, b) == Slide(lv, start, a)
  {
    LiveSplit(lv, start, a, b);
    LiveUniform(lv, a, b, false);
  }

  /** Sliding keeps the order of live words, so no two collide. */
  lemma SlideMonotone(lv: seq<bool>, start: nat, a: nat, b: nat)
    requires start <= a < b <= |lv| && lv[a]
    ensures Slide(lv, start, a) < Slide(lv, start, b)
  {
    LiveSplit(lv, start, a, a + 1);
    LiveSplit(lv, start, a + 1, b);
  }

  /** Sliding a live word by its run's distance: the shift is the same throughout a run. */
  lemma SlideInRun(lv: seq<bool>, start: nat, a: nat, b: nat)
    requires start <= a <= b < |lv|
    requires forall k :: a <= k <= b ==> lv[k]
    ensures b - Slide(lv, start, b) == a - Slide(lv, start, a)
  {
    SlideRun(lv, start, a, b);
  }
}
