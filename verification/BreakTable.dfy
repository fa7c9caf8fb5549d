/** The break table of one pool: what it lists, how it is sorted, how it is searched. */
module BreakTables {
  import opened Words
  import opened Runs

  /** One break table entry: where a live run was, and where it went. */
  datatype Entry = Entry(orig: nat, newL: nat)

  /** One entry for each live run below `hi` but the one that begins the pool, in address order. */
  ghost function Heads(lv: seq<bool>, start: nat, hi: nat): seq<Entry>
    requires start <= hi <= |lv|
    decreases hi - start
  {
    if hi <= start + 1 then []
    else Heads(lv, start, hi - 1)
         + (if lv[hi - 1] && !lv[hi - 2] then [Entry(hi - 1, Slide(lv, start, hi - 1))] else [])
  }

  ghost predicate StrictlySorted(tbl: seq<Entry>) {
    forall i, j :: 0 <= i < j < |tbl| ==> tbl[i].orig < tbl[j].orig
  }

  ghost predicate Sorted(tbl: seq<Entry>) {
    forall i, j :: 0 <= i < j < |tbl| ==> tbl[i].orig <= tbl[j].orig
  }

  lemma {:induction false} HeadsSorted(lv: seq<bool>, start: nat, hi: nat)
    requires start <= hi <= |lv|
    ensures StrictlySorted(Heads(lv, start, hi))
    ensures forall k :: 0 <= k < |Heads(lv, start, hi)| ==> start < Heads(lv, start, hi)[k].orig < hi
    decreases hi - start
  {
    if hi > start + 1 { HeadsSorted(lv, start, hi - 1); }
  }

  /** Extending over the rest of a run that has begun adds no entry. */
  lemma {:induction false} HeadsInRun(lv: seq<bool>, start: nat, a: nat, b: nat)
    requires start <= a < b <= |lv|
    requires forall k :: a <= k < b ==> lv[k] == lv[a]
    ensures Heads(lv, start, b) == Heads(lv, start, a + 1)
    decreases b - a
  {
    if a + 1 < b { HeadsInRun(lv, start, a, b - 1); }
  }

  /** A dead run adds no entry. */
  lemma HeadsDead(lv: seq<bool>, start: nat, a: nat, b: nat)
    requires start <= a < b <= |lv|
    requires forall k :: a <= k < b ==> !lv[k]
    ensures Heads(lv, start, b) == Heads(lv, start, a)
  {
    HeadsInRun(lv, start, a, b);
  }

  /** A live run above a dead word adds its own entry. */
  lemma HeadsLive(lv: seq<bool>, start: nat, a: nat, b: nat)
    requires start < a < b <= |lv| && !lv[a - 1]
    requires forall k :: a <= k < b ==> lv[k]
    ensures Heads(lv, start, b) == Heads(lv, start, a) + [Entry(a, Slide(lv, start, a))]
  {
    HeadsInRun(lv, start, a, b);
  }

  /** The table `tbl` is laid out in memory from `b`, two words an entry. */
  ghost predicate TableAt(m: array<int>, b: nat, tbl: seq<Entry>)
    reads m
  {
    b + 2 * |tbl| <= m.Length &&
    forall k :: 0 <= k < |tbl| ==> m[b + 2 * k] == Ptr(tbl[k].orig) && m[b + 2 * k + 1] == Ptr(tbl[k].newL)
  }

  lemma SameFirst(q: seq<Entry>, h: seq<Entry>)
    requires multiset(q) == multiset(h) && Sorted(q) && StrictlySorted(h) && |q| > 0
    ensures |h| > 0 && q[0] == h[0]
  {
    assert q[0] in multiset(h);
    assert h[0] in multiset(q);
  }

  /** A sorted rearrangement of a strictly sorted table is that table. */
  lemma {:induction false} SortedUnique(q: seq<Entry>, h: seq<Entry>)
    requires multiset(q) == multiset(h) && Sorted(q) && StrictlySorted(h)
    ensures q == h
  {
    if |q| == 0 {
      assert |multiset(h)| == 0;
    } else {
      SameFirst(q, h);
      assert Sorted(q[1..]) && StrictlySorted(h[1..]);
      hide Sorted, StrictlySorted;
      Rest(q);
      Rest(h);
      SortedUnique(q[1..], h[1..]);
    }
  }

  lemma Rest(q: seq<Entry>)
    requires q != []
    ensures q == [q[0]] + q[1..] && multiset(q[1..]) == multiset(q) - multiset{q[0]}
  {
    assert q == [q[0]] + q[1..];
  }

  lemma SwapPermutes(q: seq<Entry>, j: nat)
    requires 0 < j < |q|
    ensures multiset(q[j - 1 := q[j]][j := q[j - 1]]) == multiset(q)
  {
  }

  /** Exchanges entries `j - 1` and `j`. */
  method SwapEntries(m: array<int>, b: nat, j: nat, ghost q: seq<Entry>)
    returns (ghost r: seq<Entry>)
    requires 0 < j < |q| && TableAt(m, b, q)
    modifies m
    ensures r == q[j - 1 := q[j]][j := q[j - 1]] && TableAt(m, b, r)
    ensures multiset(r) == multiset(q)
    ensures forall x :: 0 <= x < m.Length && (x < b || x >= b + 2 * |q|) ==> m[x] == old(m[x])
  {
    r := q[j - 1 := q[j]][j := q[j - 1]];
    SwapPermutes(q, j);
    var lo, hi := b + 2 * (j - 1), b + 2 * j;
    m[lo], m[lo + 1], m[hi], m[hi + 1] := m[hi], m[hi + 1], m[lo], m[lo + 1];
  }

  /** Entries below `i` are in order. */
  ghost predicate SortedTo(q: seq<Entry>, i: nat)
    requires i <= |q|
  {
    forall x, y :: 0 <= x < y < i ==> q[x].orig <= q[y].orig
  }

  /** Entries up to `i` are in order, except that entry `j` may belong further down. */
  ghost predicate SortedBut(q: seq<Entry>, i: nat, j: nat)
    requires i < |q|
  {
    forall x, y :: 0 <= x < y <= i && y != j ==> q[x].orig <= q[y].orig
  }

  lemma SwapKeepsOrder(q: seq<Entry>, i: nat, j: nat)
    requires 0 < j <= i < |q| && SortedBut(q, i, j) && q[j - 1].orig > q[j].orig
    ensures SortedBut(q[j - 1 := q[j]][j := q[j - 1]], i, j - 1)
  {
  }

  /** Moves entry `i` down to its place among the sorted entries below it. */
  method Insert(m: array<int>, b: nat, i: nat, ghost tbl: seq<Entry>)
    returns (ghost q: seq<Entry>)
    requires i < |tbl| && TableAt(m, b, tbl) && SortedTo(tbl, i)
    modifies m
    ensures |q| == |tbl| && multiset(q) == multiset(tbl) && TableAt(m, b, q) && SortedTo(q, i + 1)
    ensures forall x :: 0 <= x < m.Length && (x < b || x >= b + 2 * |tbl|) ==> m[x] == old(m[x])
  {
    q := tbl;
    var j := i;
    while j > 0 && m[b + 2 * (j - 1)] > m[b + 2 * j]
      invariant 0 <= j <= i && |q| == |tbl| && multiset(q) == multiset(tbl)
      invariant TableAt(m, b, q) && SortedBut(q, i, j)
      invariant forall x :: 0 <= x < m.Length && (x < b || x >= b + 2 * |tbl|) ==> m[x] == old(m[x])
    {
      SwapKeepsOrder(q, i, j);
      q := SwapEntries(m, b, j, q);
      j := j - 1;
    }
    if j > 0 { assert q[j - 1].orig <= q[j].orig; }
  }

  /** Sorts the `n` entries at `b` by original address, in place. */
  method Sort(m: array<int>, b: nat, n: nat, ghost tbl: seq<Entry>, ghost h: seq<Entry>)
    requires n == |tbl| && TableAt(m, b, tbl)
    requires multiset(tbl) == multiset(h) && StrictlySorted(h)
    modifies m
    ensures TableAt(m, b, h)
    ensures forall x :: 0 <= x < m.Length && (x < b || x >= b + 2 * n) ==> m[x] == old(m[x])
  {
    ghost var q := tbl;
    var i := 0;
    while i < n
      invariant 0 <= i <= n && |q| == n && multiset(q) == multiset(h)
      invariant TableAt(m, b, q) && SortedTo(q, i)
      invariant forall x :: 0 <= x < m.Length && (x < b || x >= b + 2 * n) ==> m[x] == old(m[x])
    {
      q := Insert(m, b, i, q);
      i := i + 1;
    }
    SortedUnique(q, h);
  }
}
