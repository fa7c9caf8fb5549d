/** Looking an old address up in a pool's sorted break table. */
module BreakTableSearch {
  import opened Words
  import opened Runs
  import opened BreakTables

  /** Entry `e` is the last one that is not above `loc`. */
  ghost predicate Covers(tbl: seq<Entry>, e: nat, loc: nat) {
    e < |tbl| && tbl[e].orig <= loc && (e + 1 < |tbl| ==> loc < tbl[e + 1].orig)
  }

  /** How many entries are not above `loc`. */
  ghost function Rank(tbl: seq<Entry>, loc: nat): (t: nat)
    requires StrictlySorted(tbl)
    ensures t <= |tbl|
    ensures forall k :: 0 <= k < |tbl| ==> (tbl[k].orig <= loc <==> k < t)
  {
    if tbl == [] || tbl[|tbl| - 1].orig > loc
    then if tbl == [] then 0 else Rank(tbl[..|tbl| - 1], loc)
    else |tbl|
  }

  /** The number of halvings that bring `n` to one. */
  ghost function Log2(n: nat): nat {
    if n <= 1 then 0 else 1 + Log2(n / 2)
  }

  lemma {:induction false} Log2Monotone(a: nat, b: nat)
    requires a <= b
    ensures Log2(a) <= Log2(b)
  {
    if a > 1 { Log2Monotone(a / 2, b / 2); }
  }

  ghost function Distance(a: int, b: int): nat {
    if a <= b then b - a else a - b
  }

  /** The search is on course after `k` probes: either still halving, or within reach step by step. */
  ghost predicate OnCourse(n: nat, cur: nat, step: nat, k: nat, target: nat) {
    cur < n && target < n && 1 <= step &&
    (if step == 1 then k + Distance(cur, target) <= 2 * Log2(n) + 3
     else k + Log2(step) <= Log2(n) && Distance(cur, target) <= 2 * step + 1 + k)
  }

  lemma StartOnCourse(n: nat, target: nat)
    requires target < n
    ensures OnCourse(n, n / 2, if n / 2 / 2 == 0 then 1 else n / 2 / 2, 0, target)
  {
    Log2Monotone(n / 2 / 2, n);
    if n / 2 / 2 == 1 { Log2Monotone(4, n); }
  }

  lemma StepOnCourse(n: nat, cur: nat, step: nat, k: nat, target: nat, next: nat)
    requires OnCourse(n, cur, step, k, target) && cur != target && next < n
    requires if cur < target then cur < next <= cur + step && (next == cur + step || next == n - 1)
             else next <= cur && cur <= next + step && (next + step == cur || next == 0)
    ensures OnCourse(n, next, if step / 2 == 0 then 1 else step / 2, k + 1, target)
    ensures step == 1 ==> Distance(next, target) < Distance(cur, target)
  {
    assert Distance(next, target) <= step || Distance(next, target) <= Distance(cur, target) - step;
  }

  /** On course, the probes made so far are few enough, and the place is in the table. */
  lemma CourseBound(n: nat, cur: nat, step: nat, k: nat, target: nat)
    requires OnCourse(n, cur, step, k, target)
    ensures cur < n && target < n && 1 <= step && k <= 2 * Log2(n) + 3
  {
  }

  lemma EntryReads(m: array<int>, bt: nat, tbl: seq<Entry>, e: nat, loc: nat)
    requires e < |tbl| && TableAt(m, bt, tbl) && StrictlySorted(tbl)
    ensures m[bt + 2 * e] <= Ptr(loc) <==> e < Rank(tbl, loc)
    ensures m[bt + 2 * e] <= Ptr(loc) <==> tbl[e].orig <= loc
    ensures e + 1 < |tbl| ==> (m[bt + 2 * (e + 1)] <= Ptr(loc) <==> e + 1 < Rank(tbl, loc))
    ensures e + 1 < |tbl| ==> (m[bt + 2 * (e + 1)] <= Ptr(loc) <==> tbl[e + 1].orig <= loc)
    ensures e == 0 && loc < tbl[0].orig ==> forall k :: 0 <= k < |tbl| ==> loc < tbl[k].orig
  {
    assert m[bt + 2 * e] == Ptr(tbl[e].orig);
  }

  lemma EntryInside(m: array<int>, bt: nat, tbl: seq<Entry>, e: nat)
    requires e < |tbl| && TableAt(m, bt, tbl)
    ensures bt + 2 * e < m.Length && (e + 1 < |tbl| ==> bt + 2 * (e + 1) < m.Length)
  {
  }

  /** The entry that covers `loc` in the sorted table of `n` entries at `bt`, if there is one. */
  method FindEntry(m: array<int>, bt: nat, n: nat, loc: nat, ghost tbl: seq<Entry>)
    returns (found: bool, e: nat, ghost probes: nat)
    requires n == |tbl| && TableAt(m, bt, tbl) && StrictlySorted(tbl)
    ensures found ==> Covers(tbl, e, loc)
    ensures !found ==> forall k :: 0 <= k < n ==> loc < tbl[k].orig
    ensures probes <= 2 * Log2(n) + 4
  {
    hide OnCourse, Log2, Distance, TableAt;
    found, e, probes := false, n / 2, 0;
    var step: nat := e / 2;
    if n == 0 { return; }
    if step == 0 { step := 1; }
    ghost var target := if Rank(tbl, loc) == 0 then 0 else Rank(tbl, loc) - 1;
    StartOnCourse(n, target);
    while true
      invariant OnCourse(n, e, step, probes, target) && !found
      decreases step, Distance(e, target)
    {
      ghost var was, k := e, probes;
      CourseBound(n, e, step, probes, target);
      EntryInside(m, bt, tbl, e);
      if m[bt + 2 * e] <= Ptr(loc) {
        EntryReads(m, bt, tbl, e, loc);
        if e == n - 1 || m[bt + 2 * (e + 1)] > Ptr(loc) {
          found, probes := true, probes + 1;
          return;
        }
        e := e + step;
        if e >= n { e := n - 1; }
      } else {
        EntryReads(m, bt, tbl, e, loc);
        if e == 0 {
          probes := probes + 1;
          return;
        }
        e := if step > e then 0 else e - step;
      }
      StepOnCourse(n, was, step, k, target, e);
      probes := probes + 1;
      step := step / 2;
      if step == 0 { step := 1; }
    }
  }

  /** What the entries of `Heads` say: each is the address and destination of a live run. */
  lemma {:induction false} HeadsEntries(lv: seq<bool>, start: nat, hi: nat)
    requires start <= hi <= |lv|
    ensures forall e :: e in Heads(lv, start, hi) ==>
      start < e.orig < hi && lv[e.orig] && !lv[e.orig - 1] && e.newL == Slide(lv, start, e.orig)
    ensures forall a :: start < a < hi && lv[a] && !lv[a - 1] ==> Entry(a, Slide(lv, start, a)) in Heads(lv, start, hi)
    decreases hi - start
  {
    if hi > start + 1 { HeadsEntries(lv, start, hi - 1); }
  }

  /** Where the live run through `x` begins. */
  ghost function RunBegin(lv: seq<bool>, start: nat, x: nat): (b: nat)
    requires start <= x < |lv| && lv[x]
    ensures start <= b <= x && forall k :: b <= k <= x ==> lv[k]
    ensures b == start || !lv[b - 1]
    decreases x - start
  {
    if x == start || !lv[x - 1] then x else RunBegin(lv, start, x - 1)
  }

  /** The entry that covers a live word belongs to the run of that word. */
  lemma CoverIsRun(lv: seq<bool>, start: nat, end: nat, x: nat, e: nat)
    requires start <= x < end <= |lv| && lv[x]
    requires Covers(Heads(lv, start, end), e, x)
    ensures Heads(lv, start, end)[e] == Entry(RunBegin(lv, start, x), Slide(lv, start, RunBegin(lv, start, x)))
  {
    var h, b := Heads(lv, start, end), RunBegin(lv, start, x);
    HeadsEntries(lv, start, end);
    HeadsSorted(lv, start, end);
    assert h[e] in h;
    if b > start {
      assert Entry(b, Slide(lv, start, b)) in h;
      var j :| 0 <= j < |h| && h[j] == Entry(b, Slide(lv, start, b));
    }
  }

  /** Table lookup is relocation: subtracting the covering entry's shift, or nothing when no entry
      covers it, takes every live word to where compaction put it. */
  lemma LookupRelocates(lv: seq<bool>, start: nat, end: nat, x: nat, found: bool, e: nat)
    requires start <= x < end <= |lv| && lv[x]
    requires found ==> Covers(Heads(lv, start, end), e, x)
    requires !found ==> forall k :: 0 <= k < |Heads(lv, start, end)| ==> x < Heads(lv, start, end)[k].orig
    ensures Slide(lv, start, x) ==
      if found then x - (Heads(lv, start, end)[e].orig - Heads(lv, start, end)[e].newL) else x
  {
    var b := RunBegin(lv, start, x);
    SlideInRun(lv, start, b, x);
    HeadsEntries(lv, start, end);
    assert b > start ==> Entry(b, Slide(lv, start, b)) in Heads(lv, start, end);
    if found { CoverIsRun(lv, start, end, x, e); }
  }

  /** Looking an address up that has been relocated already does no harm just when it lies below all the
      table's entries; so a root slot must not be listed twice. */
  lemma SecondLookup(lv: seq<bool>, start: nat, end: nat, y: nat, found: bool, e: nat)
    requires start <= end <= |lv|
    requires found ==> Covers(Heads(lv, start, end), e, y)
    requires !found ==> forall k :: 0 <= k < |Heads(lv, start, end)| ==> y < Heads(lv, start, end)[k].orig
    ensures (if found then y - (Heads(lv, start, end)[e].orig - Heads(lv, start, end)[e].newL) else y) == y <==>
      Heads(lv, start, end) == [] || y < Heads(lv, start, end)[0].orig
  {
    var h := Heads(lv, start, end);
    HeadsEntries(lv, start, end);
    HeadsSorted(lv, start, end);
    if found {
      assert h[e] in h;
      assert Live(lv, start, h[e].orig) == Live(lv, start, h[e].orig - 1);
    }
  }

  /** Where looking an address up in the table takes it. */
  ghost function Relocated(tbl: seq<Entry>, x: nat): nat
    requires StrictlySorted(tbl)
  {
    var k := Rank(tbl, x);
    if k == 0 then x else x - tbl[k - 1].orig + tbl[k - 1].newL
  }

  /** The one answer that searching can give. */
  lemma RelocatedIs(tbl: seq<Entry>, x: nat, found: bool, e: nat)
    requires StrictlySorted(tbl) && (found ==> Covers(tbl, e, x)) && (!found ==> forall k :: 0 <= k < |tbl| ==> x < tbl[k].orig)
    ensures found ==> e < |tbl|
    ensures Relocated(tbl, x) == if found then x - tbl[e].orig + tbl[e].newL else x
  {
    var k := Rank(tbl, x);
    assert k > 0 ==> tbl[k - 1].orig <= x;
    assert found ==> tbl[e].orig <= x && (e + 1 < |tbl| ==> x < tbl[e + 1].orig);
  }

  /** An address that is looked up never goes up, and stays where it is just when it is below the table. */
  lemma RelocatedDown(lv: seq<bool>, start: nat, end: nat, x: nat)
    requires start <= end <= |lv|
    ensures StrictlySorted(Heads(lv, start, end)) && Relocated(Heads(lv, start, end), x) <= x
    ensures Relocated(Heads(lv, start, end), x) == x <==> Heads(lv, start, end) == [] || x < Heads(lv, start, end)[0].orig
  {
    var h := Heads(lv, start, end);
    HeadsSorted(lv, start, end);
    var k := Rank(h, x);
    SecondLookup(lv, start, end, x, k > 0, if k > 0 then k - 1 else 0);
    if k > 0 {
      HeadsEntries(lv, start, end);
      assert h[k - 1] in h;
    }
  }
}
