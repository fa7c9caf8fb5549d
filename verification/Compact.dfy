/** Sliding one pool's live runs down while the break table rolls through the gap. */
module Compaction {
  import opened Words
  import opened Runs
  import opened BreakTables

  /** The first entry of a queue moved to the back. */
  ghost function Rotate(tbl: seq<Entry>): (r: seq<Entry>)
    ensures multiset(r) == multiset(tbl) && |r| == |tbl|
  {
    if tbl == [] then tbl
    else
      assert tbl == [tbl[0]] + tbl[1..];
      tbl[1..] + [tbl[0]]
  }

  /** One step of the copying loop: the first entry goes to the back, two words of the run come down. */
  method CopyPair(m: array<int>, dst: nat, src: nat, b: nat, e: nat, ghost tbl: seq<Entry>)
    returns (ghost q: seq<Entry>)
    requires dst <= b && e == b + 2 * |tbl| && e + 3 <= src && src + 1 < m.Length
    requires TableAt(m, b, tbl)
    modifies m
    ensures m[dst] == old(m[src]) && m[dst + 1] == old(m[src + 1])
    ensures TableAt(m, b + 2, q) && |q| == |tbl| && multiset(q) == multiset(tbl)
    ensures forall x :: 0 <= x < m.Length && (x < dst || x >= e + 2) ==> m[x] == old(m[x])
  {
    q := Rotate(tbl);
    m[e], m[e + 1] := m[b], m[b + 1];
    m[dst] := m[src];
    m[dst + 1] := m[src + 1];
    forall k | 0 <= k < |tbl|
      ensures m[b + 2 + 2 * k] == Ptr(Rotate(tbl)[k].orig) && m[b + 2 + 2 * k + 1] == Ptr(Rotate(tbl)[k].newL)
    {
      if k < |tbl| - 1 { assert old(m[b + 2 * (k + 1)]) == Ptr(tbl[k + 1].orig); }
    }
  }

  method CopyRun(m: array<int>, free: nat, cur: nat, chSize: nat, bt: nat, btEnd: nat, ghost tbl: seq<Entry>)
    returns (b: nat, e: nat, ghost q: seq<Entry>)
    requires free <= bt && btEnd == bt + 2 * |tbl| && btEnd + 3 <= cur && cur + chSize < m.Length
    requires TableAt(m, bt, tbl)
    modifies m
    ensures b == bt + chSize + chSize % 2 && e == b + 2 * |tbl|
    ensures TableAt(m, b, q) && |q| == |tbl| && multiset(q) == multiset(tbl)
    ensures forall x :: free <= x < free + chSize ==> m[x] == old(m[x - free + cur])
    ensures forall x :: 0 <= x < m.Length && (x < free || x >= cur + chSize) ==> m[x] == old(m[x])
  {
    hide TableAt;
    b, e, q := bt, btEnd, tbl;
    var i := 0;
    while i < chSize
      invariant 0 <= i <= chSize + 1 && i % 2 == 0
      invariant b == bt + i && e == b + 2 * |tbl| && |q| == |tbl|
      invariant TableAt(m, b, q) && multiset(q) == multiset(tbl)
      invariant forall x :: free <= x < free + i ==> m[x] == old(m[x - free + cur])
      invariant forall x :: 0 <= x < m.Length && (x < free || x >= e) ==> m[x] == old(m[x])
    {
      q := CopyPair(m, free + i, cur + i, b, e, q);
      b, e, i := b + 2, e + 2, i + 2;
    }
  }

  /** Boundary tags: every dead run carries its length in its first word, every live run but the
      first carries its length in the dead word just below it. */
  ghost predicate Tagged(m: seq<int>, lv: seq<bool>, start: nat, end: nat) {
    start <= end <= |lv| && end <= |m| &&
    (forall a :: start <= a < end && !lv[a] && RunStart(lv, start, a) ==> m[a] == RunEnd(lv, a, end) - a) &&
    (forall a :: start < a < end && lv[a] && !lv[a - 1] ==> m[a - 1] == RunEnd(lv, a, end) - a)
  }

  /** A dead run with a live run above it is long enough for its tags and one table entry. */
  ghost predicate RoomForEntries(lv: seq<bool>, start: nat, end: nat) {
    start <= end <= |lv| &&
    forall a :: start <= a < end && !lv[a] && RunStart(lv, start, a) && RunEnd(lv, a, end) < end
      ==> RunEnd(lv, a, end) - a >= 3
  }

  /** How many of the runs that the table lists have an odd length: each of them makes the table roll a word farther
      than the live words, as the copying step takes two words at a time. */
  ghost function OddRuns(lv: seq<bool>, end: nat, tbl: seq<Entry>): (n: nat)
    requires end <= |lv|
    ensures n <= |tbl|
  {
    if tbl == [] then 0
    else
      var a := tbl[|tbl| - 1].orig;
      OddRuns(lv, end, tbl[..|tbl| - 1]) + (if a < end && (RunEnd(lv, a, end) - a) % 2 == 1 then 1 else 0)
  }

  lemma OddRunsAdd(lv: seq<bool>, end: nat, tbl: seq<Entry>, e: Entry)
    requires e.orig < end <= |lv|
    ensures OddRuns(lv, end, tbl + [e]) == OddRuns(lv, end, tbl) + (RunEnd(lv, e.orig, end) - e.orig) % 2
  {
    assert (tbl + [e])[..|tbl|] == tbl;
  }

  /** The compaction loop between two runs: everything live below `cur` has come down, everything
      from `cur` on is untouched, and the table lies in the gap between. */
  ghost predicate Compacting(m: array<int>, m0: seq<int>, lv: seq<bool>, start: nat, end: nat,
                             cur: nat, free: nat, bt: nat, btEnd: nat, tbl: seq<Entry>)
    reads m
  {
    start <= cur <= end < m.Length == |m0| && end <= |lv| &&
    free == Slide(lv, start, cur) &&
    btEnd == bt + 2 * |tbl| && bt == free + OddRuns(lv, end, Heads(lv, start, cur)) && free <= bt <= free + |tbl| && free + 3 * |tbl| <= cur &&
    TableAt(m, bt, tbl) && multiset(tbl) == multiset(Heads(lv, start, cur)) &&
    (forall x :: start <= x < cur && lv[x] ==> m[Slide(lv, start, x)] == m0[x]) &&
    (forall x :: 0 <= x < |m0| && (x < start || x >= cur) ==> m[x] == m0[x])
  }

  /** Skipping a dead run keeps the loop state; the size of the run to come is still in the word below it. */
  lemma SkipDeadRun(m: array<int>, m0: seq<int>, lv: seq<bool>, start: nat, end: nat,
                    cur: nat, free: nat, bt: nat, btEnd: nat, tbl: seq<Entry>, next: nat)
    requires Compacting(m, m0, lv, start, end, cur, free, bt, btEnd, tbl)
    requires cur < next <= end && forall k :: cur <= k < next ==> !lv[k]
    ensures Compacting(m, m0, lv, start, end, next, free, bt, btEnd, tbl)
    ensures m[next - 1] == m0[next - 1]
    ensures next - cur >= 3 ==> free + 3 * |tbl| + 3 <= next
    ensures forall x :: next <= x < |m0| ==> m[x] == m0[x]
    ensures start <= cur && end < m.Length == |m0|
  {
    SlideGap(lv, start, cur, next);
    HeadsDead(lv, start, cur, next);
  }

  lemma SlideBelow(lv: seq<bool>, start: nat, cur: nat)
    requires start <= cur <= |lv|
    ensures forall x :: start <= x < cur && lv[x] ==> Slide(lv, start, x) < Slide(lv, start, cur)
  {
    forall x | start <= x < cur && lv[x] ensures Slide(lv, start, x) < Slide(lv, start, cur) {
      SlideMonotone(lv, start, x, cur);
    }
  }

  /** Appends one entry to the table. */
  method AddEntry(m: array<int>, b: nat, e: nat, orig: nat, newL: nat, ghost tbl: seq<Entry>)
    requires e == b + 2 * |tbl| && e + 2 <= m.Length && TableAt(m, b, tbl)
    modifies m
    ensures TableAt(m, b, tbl + [Entry(orig, newL)])
    ensures forall x :: 0 <= x < m.Length && x != e && x != e + 1 ==> m[x] == old(m[x])
  {
    m[e] := Ptr(orig);
    m[e + 1] := Ptr(newL);
  }

  /** What copying a run and entering it leaves, put together as the loop state above the run. */
  lemma RunMoved(m: array<int>, m0: seq<int>, lv: seq<bool>, start: nat, end: nat, cur: nat, free: nat,
                 chSize: nat, bt: nat, btEnd: nat, tbl: seq<Entry>, q: seq<Entry>)
    requires start < cur < cur + chSize <= end < m.Length == |m0| && end <= |lv|
    requires !lv[cur - 1] && forall k :: cur <= k < cur + chSize ==> lv[k]
    requires free == Slide(lv, start, cur) && free + 3 * |tbl| + 3 <= cur
    requires |q| == |tbl| + 1 && btEnd == bt + 2 * |q| && bt == free + OddRuns(lv, end, Heads(lv, start, cur)) + chSize + chSize % 2
    requires |Heads(lv, start, cur)| == |tbl| && RunEnd(lv, cur, end) == cur + chSize
    requires TableAt(m, bt, q)
    requires multiset(tbl) == multiset(Heads(lv, start, cur)) && multiset(q) == multiset(tbl) + multiset{Entry(cur, free)}
    requires forall x :: start <= x < cur && lv[x] ==> m[Slide(lv, start, x)] == m0[x]
    requires forall x :: free <= x < free + chSize ==> m[x] == m0[x - free + cur]
    requires forall x :: 0 <= x < |m0| && (x < start || x >= cur + chSize) ==> m[x] == m0[x]
    ensures Compacting(m, m0, lv, start, end, cur + chSize, free + chSize, bt, btEnd, q)
  {
    hide Slide, Heads, TableAt, OddRuns;
    var next := cur + chSize;
    MovedBelow(m, m0, lv, start, cur, free, chSize);
    SlideRun(lv, start, cur, next);
    HeadsLive(lv, start, cur, next);
    OddRunsAdd(lv, end, Heads(lv, start, cur), Entry(cur, Slide(lv, start, cur)));
  }

  lemma MovedBelow(m: array<int>, m0: seq<int>, lv: seq<bool>, start: nat, cur: nat, free: nat, chSize: nat)
    requires start <= cur <= cur + chSize < m.Length == |m0| && cur + chSize <= |lv| && free == Slide(lv, start, cur) && forall k :: cur <= k < cur + chSize ==> lv[k]
    requires forall x :: start <= x < cur && lv[x] ==> m[Slide(lv, start, x)] == m0[x]
    requires forall x :: free <= x < free + chSize ==> m[x] == m0[x - free + cur]
    ensures forall x :: start <= x < cur + chSize && lv[x] ==> m[Slide(lv, start, x)] == m0[x]
  {
    hide Slide;
    forall x | start <= x < cur + chSize && lv[x] ensures m[Slide(lv, start, x)] == m0[x] {
      if x >= cur { SlideRun(lv, start, cur, x); }
    }
  }

  /** Brings one live run down and enters it in the table. */
  method MoveRun(m: array<int>, cur: nat, free: nat, bt: nat, btEnd: nat, chSize: nat,
                 ghost m0: seq<int>, ghost lv: seq<bool>, ghost start: nat, ghost end: nat, ghost tbl: seq<Entry>)
    returns (b: nat, e: nat, ghost q: seq<Entry>)
    requires Compacting(m, m0, lv, start, end, cur, free, bt, btEnd, tbl)
    requires free + 3 * |tbl| + 3 <= cur && start < cur && !lv[cur - 1] && 0 < chSize && cur + chSize <= end
    requires (forall k :: cur <= k < cur + chSize ==> lv[k]) && RunEnd(lv, cur, end) == cur + chSize
    modifies m
    ensures Compacting(m, m0, lv, start, end, cur + chSize, free + chSize, b, e, q)
  {
    hide Slide, OddRuns;
    assert |tbl| == |multiset(tbl)| == |multiset(Heads(lv, start, cur))|;
    ghost var r;
    b, e, r := CopyRun(m, free, cur, chSize, bt, btEnd, tbl);
    AddEntry(m, b, e, cur, free, r);
    q := r + [Entry(cur, free)];
    e := e + 2;
    assert forall x :: start <= x < cur && lv[x] ==> m[Slide(lv, start, x)] == m0[x] by {
      SlideBelow(lv, start, cur);
    }
    RunMoved(m, m0, lv, start, end, cur, free, chSize, b, e, tbl, q);
  }

  /** What the tags say about the two runs above a dead run that begins at `cur`. */
  lemma TagsAbove(m0: seq<int>, lv: seq<bool>, start: nat, end: nat, cur: nat)
    requires Tagged(m0, lv, start, end) && RoomForEntries(lv, start, end)
    requires start <= cur < end && !lv[cur] && RunStart(lv, start, cur) && RunEnd(lv, cur, end) < end
    ensures var next := RunEnd(lv, cur, end);
      lv[next] && !lv[next - 1] && next - cur >= 3 && m0[next - 1] == RunEnd(lv, next, end) - next &&
      var stop := RunEnd(lv, next, end);
      stop < end ==> !lv[stop] && RunStart(lv, start, stop) && m0[stop] == RunEnd(lv, stop, end) - stop
  {
    var next := RunEnd(lv, cur, end);
    var stop := RunEnd(lv, next, end);
    assert lv[next] && !lv[next - 1];
    if stop < end { assert !lv[stop] && lv[stop - 1]; }
  }

  /** Skips the dead run at `cur` and brings down the live run above it, if there is one. */
  method CompactRun(m: array<int>, end: nat, cur: nat, free: nat, bt: nat, btEnd: nat, fchSize: nat,
                    ghost m0: seq<int>, ghost lv: seq<bool>, ghost start: nat, ghost tbl: seq<Entry>)
    returns (c: nat, f: nat, b: nat, e: nat, fch: int, ghost q: seq<Entry>)
    requires Compacting(m, m0, lv, start, end, cur, free, bt, btEnd, tbl)
    requires Tagged(m0, lv, start, end) && RoomForEntries(lv, start, end)
    requires cur < end && !lv[cur] && RunStart(lv, start, cur) && fchSize == RunEnd(lv, cur, end) - cur
    modifies m
    ensures cur < c <= end && Compacting(m, m0, lv, start, end, c, f, b, e, q)
    ensures c < end ==> !lv[c] && RunStart(lv, start, c) && fch == RunEnd(lv, c, end) - c
  {
    hide Compacting, Tagged, RoomForEntries, RunStart;
    c, f, b, e, fch, q := cur + fchSize, free, bt, btEnd, fchSize, tbl;
    SkipDeadRun(m, m0, lv, start, end, cur, free, bt, btEnd, tbl, c);
    if c >= end { return; }
    TagsAbove(m0, lv, start, end, cur);
    var chSize := m[c - 1];
    fch := if c + chSize < end then m[c + chSize] else 0;
    b, e, q := MoveRun(m, c, f, b, e, chSize, m0, lv, start, end, q);
    f, c := f + chSize, c + chSize;
  }

  lemma SlideRunFromStart(lv: seq<bool>, start: nat, cur: nat)
    requires start <= cur <= |lv| && forall k :: start <= k < cur ==> lv[k]
    ensures forall x :: start <= x <= cur ==> Slide(lv, start, x) == x
    ensures Heads(lv, start, cur) == []
  {
    forall x | start <= x <= cur ensures Slide(lv, start, x) == x { SlideRun(lv, start, start, x); }
    if start < cur { HeadsInRun(lv, start, start, cur); }
  }

  lemma SlideBegins(m: array<int>, lv: seq<bool>, start: nat, end: nat, first: nat)
    requires start <= first < end < m.Length && end <= |lv|
    requires Tagged(m[..], lv, start, end) && !lv[first] && forall k :: start <= k < first ==> lv[k]
    ensures RunStart(lv, start, first) && m[first] == RunEnd(lv, first, end) - first
    ensures Compacting(m, m[..], lv, start, end, first, first, first, first, [])
  {
    hide Slide, Heads;
    SlideRunFromStart(lv, start, first);
    assert m[first] == m[..][first];
  }

  /** What the loop leaves: the live words below `free`, and the table, somewhere above. */
  lemma SlideEnds(m: array<int>, m0: seq<int>, lv: seq<bool>, start: nat, end: nat, free: nat, bt: nat, btEnd: nat, tbl: seq<Entry>)
    requires Compacting(m, m0, lv, start, end, end, free, bt, btEnd, tbl)
    ensures free == Slide(lv, start, end) <= bt && bt + 2 * |tbl| == btEnd <= end < m.Length == |m0|
    ensures bt == free + OddRuns(lv, end, Heads(lv, start, end))
    ensures TableAt(m, bt, tbl) && multiset(tbl) == multiset(Heads(lv, start, end)) && |tbl| == |Heads(lv, start, end)|
    ensures forall x :: start <= x < end && lv[x] ==> Slide(lv, start, x) < free && m[Slide(lv, start, x)] == m0[x]
    ensures forall x :: 0 <= x < |m0| && (x < start || x >= end) ==> m[x] == m0[x]
  {
    hide TableAt, Slide, Heads, OddRuns;
    SlideBelow(lv, start, end);
    assert |tbl| == |multiset(tbl)| == |multiset(Heads(lv, start, end))|;
  }

  /** The copying loop, from the pool's first dead word `cur` to its end. */
  method SlideRuns(m: array<int>, end: nat, first: nat, ghost lv: seq<bool>, ghost start: nat)
    returns (free: nat, bt: nat, btEnd: nat, ghost tbl: seq<Entry>)
    requires start <= first < end < m.Length && end <= |lv|
    requires Tagged(m[..], lv, start, end) && RoomForEntries(lv, start, end)
    requires !lv[first] && forall k :: start <= k < first ==> lv[k]
    modifies m
    ensures Compacting(m, old(m[..]), lv, start, end, end, free, bt, btEnd, tbl)
  {
    hide *;
    SlideBegins(m, lv, start, end, first);
    ghost var m0 := m[..];
    var cur := first;
    free, bt, btEnd, tbl := cur, cur, cur, [];
    var fchSize := m[cur];
    while cur < end
      invariant start <= cur <= end && Compacting(m, m0, lv, start, end, cur, free, bt, btEnd, tbl)
      invariant cur < end ==> !lv[cur] && RunStart(lv, start, cur) && fchSize == RunEnd(lv, cur, end) - cur
    {
      cur, free, bt, btEnd, fchSize, tbl := CompactRun(m, end, cur, free, bt, btEnd, fchSize, m0, lv, start, tbl);
    }
  }

  lemma EmptyTable(m: array<int>, b: nat)
    requires b <= m.Length
    ensures TableAt(m, b, [])
  {
  }

  /** Slides the live words of one pool down over the dead ones, in place; `first` is the length of
      the live run that begins the pool, and the other run lengths are the boundary tags. */
  method Compact(m: array<int>, start: nat, end: nat, first: nat, ghost lv: seq<bool>)
    returns (free: nat, bt: nat, n: nat)
    requires start < end < m.Length && end <= |lv|
    requires Tagged(m[..], lv, start, end) && RoomForEntries(lv, start, end)
    requires first == if lv[start] then RunEnd(lv, start, end) - start else 0
    modifies m
    ensures free == Slide(lv, start, end)
    ensures bt == free + OddRuns(lv, end, Heads(lv, start, end)) && bt + 2 * n <= end && n == |Heads(lv, start, end)|
    ensures TableAt(m, bt, Heads(lv, start, end))
    ensures forall x :: start <= x < end && lv[x] ==> m[Slide(lv, start, x)] == old(m[x])
    ensures forall x :: 0 <= x < m.Length && (x < start || x >= end) ==> m[x] == old(m[x])
  {
    hide Compacting, Tagged, RoomForEntries, Slide, Heads, TableAt;
    free, bt, n := start + first, start + first, 0;
    if free >= end {
      EmptyTable(m, free);
      SlideRunFromStart(lv, start, end);
      return;
    }
    var btEnd;
    ghost var tbl;
    free, bt, btEnd, tbl := SlideRuns(m, end, free, lv, start);
    SlideEnds(m, old(m[..]), lv, start, end, free, bt, btEnd, tbl);
    n := (btEnd - bt) / 2;
    HeadsSorted(lv, start, end);
    Sort(m, bt, n, tbl, Heads(lv, start, end));
  }

  /** Where the run of equal liveness through the word below `hi` begins. */
  ghost function RunBegin(lv: seq<bool>, start: nat, hi: nat): (a: nat)
    requires start < hi <= |lv|
    ensures start <= a < hi && RunStart(lv, start, a) && forall k :: a <= k < hi ==> lv[k] == lv[hi - 1]
  {
    if hi - 1 == start || lv[hi - 2] != lv[hi - 1] then hi - 1 else RunBegin(lv, start, hi - 1)
  }

  /** A run reaches up to where another begins. */
  lemma {:induction false} RunEndIs(lv: seq<bool>, a: nat, b: nat, end: nat)
    requires a < b <= end <= |lv| && (forall k :: a <= k < b ==> lv[k] == lv[a]) && (b < end ==> lv[b] != lv[a])
    ensures RunEnd(lv, a, end) == b
    decreases b - a
  {
    if a + 1 < b { RunEndIs(lv, a + 1, b, end); }
  }

  /** A dead run that begins at `a` has just three words, a live one that begins there is odd. */
  ghost predicate TightAt(lv: seq<bool>, start: nat, end: nat, a: nat)
    requires start <= a < end <= |lv|
  {
    (!lv[a] && RunStart(lv, start, a) ==> RunEnd(lv, a, end) - a == 3) && (a > start && lv[a] && !lv[a - 1] ==> (RunEnd(lv, a, end) - a) % 2 == 1)
  }

  /** Up to `hi` every dead run has just three words, every live run but the one that begins the pool is odd, and the last
      of all is live. */
  ghost predicate Tight(lv: seq<bool>, start: nat, end: nat, hi: nat) {
    start <= hi <= end <= |lv| && (hi > start ==> lv[hi - 1]) &&
    forall a {:trigger TightAt(lv, start, end, a)} :: start <= a < hi ==> TightAt(lv, start, end, a)
  }

  /** Where the table ends when the runs up to `hi` have been moved. */
  ghost function TableEnd(lv: seq<bool>, start: nat, end: nat, hi: nat): nat
    requires start <= hi <= end <= |lv|
  {
    Slide(lv, start, hi) + OddRuns(lv, end, Heads(lv, start, hi)) + 2 * |Heads(lv, start, hi)|
  }

  /** The table never reaches beyond the runs it lists, and reaches right up to `hi` only if those are as tight as
      can be. Only at the pool's end does it matter: elsewhere a dead run follows. */
  lemma {:induction false} TableReaches(lv: seq<bool>, start: nat, end: nat, hi: nat)
    requires start <= hi <= end <= |lv| && RoomForEntries(lv, start, end) && (hi == end || hi == start || lv[hi] != lv[hi - 1])
    ensures TableEnd(lv, start, end, hi) <= hi && (TableEnd(lv, start, end, hi) == hi <==> Tight(lv, start, end, hi))
    decreases hi
  {
    hide Slide, OddRuns, RoomForEntries, Tight, TableEnd;
    if hi == start {
      NoTable(lv, start, end, hi);
    } else {
      var a := RunBegin(lv, start, hi);
      if !lv[hi - 1] {
        TableReaches(lv, start, end, a);
        DeadReach(lv, start, end, a, hi);
      } else if a == start {
        NoTable(lv, start, end, hi);
      } else {
        var d := RunBegin(lv, start, a);
        TableReaches(lv, start, end, d);
        LiveReach(lv, start, end, d, a, hi);
        LiveTight(lv, start, end, d, a, hi);
      }
    }
  }

  lemma NoTable(lv: seq<bool>, start: nat, end: nat, hi: nat)
    requires start <= hi <= end <= |lv| && forall k :: start <= k < hi ==> lv[k]
    ensures TableEnd(lv, start, end, hi) == hi && Tight(lv, start, end, hi)
  {
    SlideRunFromStart(lv, start, hi);
  }

  lemma DeadReach(lv: seq<bool>, start: nat, end: nat, a: nat, hi: nat)
    requires start <= a < hi <= end <= |lv| && forall k :: a <= k < hi ==> !lv[k]
    ensures TableEnd(lv, start, end, hi) == TableEnd(lv, start, end, a) && !Tight(lv, start, end, hi)
  {
    hide Slide, Heads, OddRuns;
    SlideGap(lv, start, a, hi);
    HeadsDead(lv, start, a, hi);
  }

  /** A dead run from `d` and a live run from `a` above it. */
  ghost predicate TwoRuns(lv: seq<bool>, start: nat, end: nat, d: nat, a: nat, hi: nat) {
    start <= d < a < hi <= end <= |lv| && RunStart(lv, start, d) && (forall k :: d <= k < a ==> !lv[k]) && (forall k :: a <= k < hi ==> lv[k]) && (hi == end || !lv[hi])
  }

  lemma GapRoom(lv: seq<bool>, start: nat, end: nat, d: nat, a: nat, hi: nat)
    requires TwoRuns(lv, start, end, d, a, hi) && RoomForEntries(lv, start, end)
    ensures a - d >= 3 && RunEnd(lv, a, end) == hi
  {
    hide RunEnd;
    RunEndIs(lv, d, a, end);
    RunEndIs(lv, a, hi, end);
  }

  lemma LiveReach(lv: seq<bool>, start: nat, end: nat, d: nat, a: nat, hi: nat)
    requires TwoRuns(lv, start, end, d, a, hi) && RoomForEntries(lv, start, end)
    ensures TableEnd(lv, start, end, hi) == TableEnd(lv, start, end, d) + (hi - a) + (hi - a) % 2 + 2 && a - d >= 3
  {
    hide Slide, Heads, OddRuns, RoomForEntries, RunEnd;
    GapRoom(lv, start, end, d, a, hi);
    SlideGap(lv, start, d, a);
    SlideRun(lv, start, a, hi);
    HeadsDead(lv, start, d, a);
    HeadsLive(lv, start, a, hi);
    OddRunsAdd(lv, end, Heads(lv, start, a), Entry(a, Slide(lv, start, a)));
  }

  lemma LiveTight(lv: seq<bool>, start: nat, end: nat, d: nat, a: nat, hi: nat)
    requires TwoRuns(lv, start, end, d, a, hi)
    ensures Tight(lv, start, end, hi) <==> Tight(lv, start, end, d) && a - d == 3 && (hi - a) % 2 == 1
  {
    hide RunEnd;
    RunEndIs(lv, d, a, end);
    RunEndIs(lv, a, hi, end);
    assert TightAt(lv, start, end, d) <==> a - d == 3;
    assert TightAt(lv, start, end, a) <==> (hi - a) % 2 == 1;
    forall x | d < x < a || a < x < hi ensures TightAt(lv, start, end, x) { assert lv[x - 1] == lv[x]; }
    hide TightAt;
  }

  /** Three dead words below three live ones that end the pool: the table comes to end where the pool does. */
  lemma ThreeBelowThree(lv: seq<bool>, start: nat)
    requires start + 6 <= |lv| && forall k :: start <= k < start + 6 ==> (lv[k] <==> k >= start + 3)
    ensures RoomForEntries(lv, start, start + 6) && TableEnd(lv, start, start + 6, start + 6) == start + 6
  {
    var end := start + 6;
    RunEndIs(lv, start, start + 3, end);
    RunEndIs(lv, start + 3, end, end);
    hide TableEnd;
    TableReaches(lv, start, end, end);
  }
}
