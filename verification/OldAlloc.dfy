/** Allocation in the older generations, which keeps the cards' first-object table. */
module OldAllocation {
  import opened Heaps
  import opened Cards

  /** Where objects begin in pool `p`, and where the next one will if there is room. */
  ghost function PoolStarts(h: Heap, p: nat): set<nat> {
    (set o | o in h.objs && PoolOf(o) == p) + if p < |h.free| && h.free[p] < End(p) then {h.free[p]} else {}
  }

  /** The first-object table of every older pool is right. */
  ghost predicate TableOk(h: Heap, first: seq<nat>) {
    CardNo(|h.free|, 0) <= |first| &&
    forall p {:trigger FirstsOk(first, p, PoolStarts(h, p))} :: 0 <= p < |h.free| && PoolGen(h, p) > 0 ==> FirstsOk(first, p, PoolStarts(h, p))
  }

  /** The collector's lists: the pools of each generation, and where allocation stands in each list. */
  ghost predicate ListsOk(gen: seq<nat>, lists: seq<seq<nat>>, cursor: seq<nat>) {
    |cursor| == |lists| &&
    (forall g :: 0 <= g < |lists| ==> cursor[g] < |lists[g]|) &&
    (forall g, i :: 0 <= g < |lists| && 0 <= i < |lists[g]| ==> lists[g][i] < |gen| && gen[lists[g][i]] == g) &&
    (forall p :: 0 <= p < |gen| ==> gen[p] < |lists| && p in lists[gen[p]])
  }

  lemma ListSizes(gen: seq<nat>, lists: seq<seq<nat>>, cursor: seq<nat>)
    requires ListsOk(gen, lists, cursor)
    ensures |cursor| == |lists|
  {
  }

  /** None of the pools at places `from` up to `upto` of a list has room for `size` words. */
  ghost predicate Passed(free: seq<nat>, pools: seq<nat>, from: nat, upto: nat, size: nat) {
    upto <= |pools| && forall i {:trigger pools[i]} :: from <= i < upto ==> pools[i] < |free| && End(pools[i]) - free[pools[i]] < size
  }

  /** The last pool of the list has no room for `size` words. */
  ghost predicate NoRoom(free: seq<nat>, pools: seq<nat>, size: nat) {
    pools != [] && pools[|pools| - 1] < |free| && End(pools[|pools| - 1]) - free[pools[|pools| - 1]] < size
  }

  /** Allocation has moved on in generation `g` alone. */
  ghost predicate MovedOn(before: seq<nat>, now: seq<nat>, g: nat) {
    |now| == |before| && (forall k :: 0 <= k < |now| && k != g ==> now[k] == before[k]) && (g < |now| ==> before[g] <= now[g])
  }

  /** Takes `size` words from the pools of generation `g`, moving on to the next pool when one has no
      room; notes the free pointer when it has come into a new card, and clears the word there. */
  method MallocOld(m: array<int>, free: array<nat>, first: array<nat>, cursor: array<nat>, lists: seq<seq<nat>>, gen: seq<nat>,
                   g: nat, size: nat)
    returns (ok: bool, n: nat, p: nat)
    requires ListsOk(gen, lists, cursor[..]) && g < |lists| && free.Length == |gen| && CardNo(|gen|, 0) <= first.Length
    requires forall q :: 0 <= q < |gen| ==> Start(q) <= free[q] <= End(q) < m.Length
    requires first != free && first != cursor && free != cursor && size > 0
    modifies m, free, first, cursor
    ensures ListsOk(gen, lists, cursor[..]) && MovedOn(old(cursor[..]), cursor[..], g)
    ensures !ok ==> m[..] == old(m[..]) && free[..] == old(free[..]) && first[..] == old(first[..])
    ensures !ok ==> Passed(free[..], lists[g], old(cursor[g]), |lists[g]|, size) && NoRoom(free[..], lists[g], size)
    ensures ok ==> p == lists[g][cursor[g]] && Passed(old(free[..]), lists[g], old(cursor[g]), cursor[g], size)
    ensures ok ==> p < |gen| && gen[p] == g && n == old(free[p]) && n + size <= End(p) && free[..] == old(free[..])[p := n + size]
    ensures ok ==> m[..] == if n + size < End(p) then old(m[..])[n + size := 0] else old(m[..])
    ensures ok ==> first[..] == NotedFree(old(first[..]), p, n, n + size)
  {
    while true
      invariant ListsOk(gen, lists, cursor[..]) && MovedOn(old(cursor[..]), cursor[..], g)
      invariant Passed(free[..], lists[g], old(cursor[g]), cursor[g], size)
      invariant m[..] == old(m[..]) && free[..] == old(free[..]) && first[..] == old(first[..])
      decreases |lists[g]| - cursor[g]
    {
      p := lists[g][cursor[g]];
      if End(p) - free[p] >= size {
        n := free[p];
        free[p] := free[p] + size;
        var retCard, freeCard := CardIn(n), CardIn(free[p]);
        CardSmall(free[p]);
        if retCard != freeCard && free[p] < End(p) { first[CardNo(p, freeCard)] := InnerOf(free[p]); }
        if free[p] < End(p) { m[free[p]] := 0; }
        ok := true;
        return;
      } else if cursor[g] + 1 < |lists[g]| {
        cursor[g] := cursor[g] + 1;
      } else {
        ok, n := false, 0;
        return;
      }
    }
  }

  /** The first-object table after the free pointer of pool `p` has moved from `n` to `f`. */
  ghost function NotedFree(first: seq<nat>, p: nat, n: nat, f: nat): seq<nat> {
    if CardIn(n) != CardIn(f) && f < End(p) && CardNo(p, CardIn(f)) < |first| then first[CardNo(p, CardIn(f)) := InnerOf(f)] else first
  }
}
