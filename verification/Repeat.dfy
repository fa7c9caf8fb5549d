/** Root slots that are listed more than once, which the full collection relocates as often. */
module RepeatedRoots {
  import opened Words
  import opened Runs
  import opened BreakTables
  import opened BreakTableSearch
  import opened Heaps
  import opened Bitmaps
  import opened Graph
  import opened FullMarking
  import opened Relocation
  import opened FullCollection

  /** No table entry is at or below the address: nothing up to it has been moved. */
  ghost predicate AtRest(g: Plan, x: nat) {
    var start, end := Start(PoolOf(x)), End(PoolOf(x));
    end <= |g.lv| ==> Heads(g.lv, start, end) == [] || x < Heads(g.lv, start, end)[0].orig
  }

  /** Following never leads up, nor out of the pool, and leads nowhere else just from an address at rest. */
  lemma FollowDown(g: Plan, x: nat)
    requires Start(PoolOf(x)) <= x
    ensures Start(PoolOf(x)) <= Follow(g, x) <= x && PoolOf(Follow(g, x)) == PoolOf(x) && (Follow(g, x) == x <==> AtRest(g, x))
  {
    hide PoolOf, Heads, Slide, Rank;
    var start, end := Start(PoolOf(x)), End(PoolOf(x));
    InPoolSpan(x);
    if end <= |g.lv| {
      RelocatedDown(g.lv, start, end, x);
      HeadsEntries(g.lv, start, end);
      var tbl := Heads(g.lv, start, end);
      var k := Rank(tbl, x);
      assert k > 0 ==> tbl[k - 1] in tbl;
    }
    PoolOfBounds(PoolOf(x), Follow(g, x));
  }

  ghost function FollowTimes(g: Plan, x: nat, k: nat): nat {
    if k == 0 then x else Follow(g, FollowTimes(g, x, k - 1))
  }

  lemma {:induction false} FollowTimesDown(g: Plan, x: nat, k: nat)
    requires Start(PoolOf(x)) <= x
    ensures Start(PoolOf(x)) <= FollowTimes(g, x, k) && PoolOf(FollowTimes(g, x, k)) == PoolOf(x)
  {
    hide PoolOf, Follow;
    if k > 0 {
      FollowTimesDown(g, x, k - 1);
      FollowDown(g, FollowTimes(g, x, k - 1));
    }
  }

  /** Followed more than once, the address of a live object is right just when it comes to rest at once. */
  lemma {:induction false} FollowedAgain(g: Plan, x: nat, k: nat)
    requires Survives(g, x) && End(PoolOf(x)) <= |g.lv| && k > 0
    ensures FollowTimes(g, x, k) <= MoveTo(g, x) && (FollowTimes(g, x, k) == MoveTo(g, x) <==> k == 1 || AtRest(g, MoveTo(g, x)))
  {
    hide PoolOf, Follow, AtRest, MoveTo, Survives;
    FollowOnce(g, x);
    assert FollowTimes(g, x, 0) == x && FollowTimes(g, x, 1) == Follow(g, x);
    if k > 1 {
      SurvivorAbove(g, x);
      FollowTimesDown(g, x, k - 1);
      FollowedAgain(g, x, k - 1);
      FollowDown(g, FollowTimes(g, x, k - 1));
    }
  }

  lemma SurvivorAbove(g: Plan, x: nat)
    requires Survives(g, x)
    ensures Start(PoolOf(x)) <= x && PoolOf(x) < |g.h.free|
  {
  }

  /** The words once the slots of `rs` have been relocated, one after another. */
  ghost function Listed(g: Plan, m: seq<int>, rs: seq<nat>): (m': seq<int>)
    ensures |m'| == |m|
  {
    if rs == [] then m
    else
      var m1, r := Listed(g, m, rs[..|rs| - 1]), rs[|rs| - 1];
      if r < |m1| && m1[r] != 0 && Target(m1[r]) >= 0 then m1[r := Ptr(Follow(g, Target(m1[r])))] else m1
  }

  lemma {:induction false} ListedWord(g: Plan, m: seq<int>, rs: seq<nat>, r: nat)
    requires PlanOk(g) && |m| == |g.h.m| && r in RootSet(g.h) && W(m, r) == Copied(g, r)
    ensures W(Listed(g, m, rs), r) == if W(g.h.m, r) == 0 then 0 else Ptr(FollowTimes(g, EdgeTo(g.h, r), multiset(rs)[r]))
    ensures W(g.h.m, r) != 0 ==> FollowTimes(g, EdgeTo(g.h, r), multiset(rs)[r]) > 0
  {
    hide PoolOf, Follow, PlanOk, RootSet, EdgeTo, Copied, Target, Survives;
    RootLeads(g, r);
    if W(g.h.m, r) != 0 {
      SurvivorAbove(g, EdgeTo(g.h, r));
      FollowTimesDown(g, EdgeTo(g.h, r), multiset(rs)[r]);
    }
    if rs != [] {
      var n := |rs| - 1;
      ListedWord(g, m, rs[..n], r);
      assert rs == rs[..n] + [rs[n]];
      if W(g.h.m, r) != 0 { TagBits(FollowTimes(g, EdgeTo(g.h, r), multiset(rs[..n])[r])); }
    }
  }

  /** Where a root slot leads when it is to be relocated. */
  lemma RootLeads(g: Plan, r: nat)
    requires PlanOk(g) && r in RootSet(g.h)
    ensures r < |g.h.m| && (W(g.h.m, r) == 0 ==> Copied(g, r) == 0 && Final(g, r) == 0)
    ensures W(g.h.m, r) != 0 ==> Survives(g, EdgeTo(g.h, r)) && Copied(g, r) == Ptr(EdgeTo(g.h, r)) && Final(g, r) == Ptr(MoveTo(g, EdgeTo(g.h, r)))
    ensures W(g.h.m, r) != 0 ==> End(PoolOf(EdgeTo(g.h, r))) <= |g.lv|
  {
    hide PoolOf, HeadersOk, DescsOk, PointersOk, Target, Closed, Survives;
    PlanBasics(g);
    RootOutside(g, r);
    assert r in Slots(g.h, g.live);
    if W(g.h.m, r) != 0 {
      EdgeLive(g, r);
      SurvivorAbove(g, EdgeTo(g.h, r));
      PoolBounds(g.h, PoolOf(EdgeTo(g.h, r)));
    }
  }

  /** Whatever root slots are listed how often, all of them come to be right if and only if each one that is
      listed more than once is null, or has been moved to a place at rest. */
  lemma RepeatedSlots(g: Plan, m: seq<int>, rs: seq<nat>)
    requires PlanOk(g) && |m| == |g.h.m| && (forall r :: r in rs <==> r in RootSet(g.h)) && forall r :: r in rs ==> W(m, r) == Copied(g, r)
    ensures (forall r :: r in rs ==> W(Listed(g, m, rs), r) == Final(g, r)) <==>
      forall r :: r in rs && multiset(rs)[r] > 1 && W(g.h.m, r) != 0 ==> AtRest(g, MoveTo(g, EdgeTo(g.h, r)))
  {
    hide PoolOf, Follow, PlanOk, RootSet, EdgeTo, Copied, Final, Survives, AtRest, MoveTo, Listed;
    forall r | r in rs
      ensures W(Listed(g, m, rs), r) == Final(g, r) <==> !(multiset(rs)[r] > 1 && W(g.h.m, r) != 0) || AtRest(g, MoveTo(g, EdgeTo(g.h, r)))
    {
      RootLeads(g, r);
      ListedWord(g, m, rs, r);
      assert r in multiset(rs);
      if W(g.h.m, r) != 0 { FollowedAgain(g, EdgeTo(g.h, r), multiset(rs)[r]); }
    }
  }

  /** The loop over the root slots, whatever slots are listed how often. */
  method RelocateListed(m: array<int>, rs: seq<nat>, bt: array<nat>, btn: array<nat>, ghost g: Plan)
    requires PlanOk(g) && Tables(m[..], g, bt[..], btn[..]) && m.Length == |g.h.m|
    requires forall r :: r in rs ==> r in RootSet(g.h) && W(m[..], r) == Copied(g, r)
    modifies m
    ensures Tables(m[..], g, bt[..], btn[..]) && m[..] == Listed(g, old(m[..]), rs)
  {
    hide PoolOf, PlanOk, RootSet, EdgeTo, Copied, Final, Survives, Follow, Tables, Target;
    ghost var m0 := m[..];
    PlanBasics(g);
    assert rs[..0] == [];
    var i := 0;
    while i < |rs|
      invariant 0 <= i <= |rs| && Tables(m[..], g, bt[..], btn[..]) && m[..] == Listed(g, m0, rs[..i])
    {
      var r := rs[i];
      RootLeads(g, r);
      ListedWord(g, m0, rs[..i], r);
      ghost var x := if W(g.h.m, r) == 0 then 0 else FollowTimes(g, EdgeTo(g.h, r), multiset(rs[..i])[r]);
      assert rs[..i + 1][..i] == rs[..i] && rs[..i + 1][i] == r;
      ghost var was := m[..];
      if m[r] != 0 {
        TagBits(x);
        SurvivorAbove(g, EdgeTo(g.h, r));
        FollowTimesDown(g, EdgeTo(g.h, r), multiset(rs[..i])[r]);
        RootBelowTables(m[..], g, bt[..], btn[..], r, Ptr(Follow(g, x)));
        var y := FollowCompacted(m, Target(m[r]), bt, btn, g);
        m[r] := Ptr(y);
        assert m[..] == was[r := Ptr(Follow(g, x))];
      }
      i := i + 1;
    }
    assert rs[..i] == rs;
  }

  /** A pool with three objects of four words, all described by the second: the first one dead, and the
      third one in the variable just past the pool's end. */
  ghost function ThreeObjects(): Heap {
    var dead, desc, obj, slot := Start(0), Start(0) + 4, Start(0) + 8, Base(1) + 1;
    Heap(seq(slot + 1, x => if x == dead || x == desc || x == obj then Ptr(desc) else if x == desc + 1 then 4 else if x == desc + 3 then 5 else if x == slot then Ptr(obj) else 0),
      [Start(0) + 12], [0], map[dead := Obj(4, dead, false), desc := Obj(4, desc, true), obj := Obj(4, obj, false)], [slot])
  }

  ghost function ItsPlan(): Plan {
    var live := {Start(0) + 4, Start(0) + 8};
    Plan(ThreeObjects(), live, LiveWords(ThreeObjects(), live))
  }

  lemma ThreeObjectsShape()
    ensures var h, d := ThreeObjects(), Start(0) + 4; h.objs.Keys == {d - 4, d, d + 4} && h.roots == [Base(1) + 1] && ItsPlan().live == {d, d + 4}
    ensures var h := ThreeObjects(); h.free == [Start(0) + 12] && h.gen == [0] && |h.m| == Base(1) + 2 && ItsPlan().h == h && ItsPlan().lv == LiveWords(h, ItsPlan().live)
    ensures var h := ThreeObjects(); forall o :: o in h.objs ==> h.objs[o] == Obj(4, o, o == Start(0) + 4)
  {
  }

  lemma ThreeObjectsWords()
    ensures var h, d := ThreeObjects(), Start(0) + 4;
      (forall o :: o in h.objs ==> W(h.m, o) == Ptr(d)) && W(h.m, d + 1) == 4 && W(h.m, d + 3) == 5 && W(h.m, Base(1) + 1) == Ptr(d + 4)
    ensures var h, d := ThreeObjects(), Start(0) + 4;
      forall y {:trigger W(h.m, y)} :: y !in h.objs && y != d + 1 && y != d + 3 && y != Base(1) + 1 ==> W(h.m, y) == 0
    ensures Tiled(ThreeObjects())
  {
  }

  lemma ThreeObjectsOk()
    ensures HeapOk(ThreeObjects()) && forall o :: o in ThreeObjects().objs ==> SlotSet(ThreeObjects(), o) == {o} && EdgeTo(ThreeObjects(), o) == Start(0) + 4
    ensures EdgeTo(ThreeObjects(), Base(1) + 1) == Start(0) + 8
  {
    hide PoolOf, Tiled, W, HasBit, IsForwarded, Target;
    var h, d := ThreeObjects(), Start(0) + 4;
    ThreeObjectsWords();
    TagBits(d);
    TagBits(d + 4);
    BitsOfFive();
    forall o {:trigger HeaderOk(h, o)} | o in h.objs ensures HeaderOk(h, o) && IsNode(h, o) && Desc(h, o) == d && BitmapFits(h, o) { }
    assert DescOk(h, d);
    forall o, x | o in h.objs ensures x in SlotSet(h, o) <==> x == o { }
  }

  lemma ItsPlanOk()
    ensures PlanOk(ItsPlan()) && RootSet(ThreeObjects()) == {Base(1) + 1}
  {
    hide ThreeObjects, ItsPlan, PoolOf, W, Tiled, HeadersOk, DescsOk, PointersOk, SlotSet, EdgeTo, IsForwarded, LiveMap;
    var h, d, live := ThreeObjects(), Start(0) + 4, ItsPlan().live;
    ThreeObjectsShape();
    ThreeObjectsWords();
    ThreeObjectsOk();
    LiveWordsMap(h, live);
    assert h.roots[0] == Base(1) + 1;
    assert RootSet(h) == {Base(1) + 1};
    assert Slots(h, live) == {Base(1) + 1, d, d + 4};
    assert Closed(h, live);
    forall c {:trigger Closed(h, c)} | Closed(h, c) ensures live <= c { LeastOfThree(c); }
    forall o | o in live ensures IsNode(h, o) { NodeOfThree(o); }
  }

  lemma NodeOfThree(o: nat)
    requires o in ThreeObjects().objs
    ensures IsNode(ThreeObjects(), o)
  {
    ThreeObjectsWords();
    TagBits(Start(0) + 4);
  }

  lemma LeastOfThree(c: set<nat>)
    requires Closed(ThreeObjects(), c)
    ensures ItsPlan().live <= c
  {
    hide ThreeObjects, W, SlotSet, EdgeTo, HeapOk, Tiled;
    var h, d := ThreeObjects(), Start(0) + 4;
    ThreeObjectsShape();
    ThreeObjectsWords();
    ThreeObjectsOk();
    assert h.roots[0] == Base(1) + 1;
    TagBits(d);
    ReachesTwo(h, c, Base(1) + 1, d + 4, d);
  }

  lemma ReachesTwo(h: Heap, c: set<nat>, slot: nat, o: nat, d: nat)
    requires Closed(h, c) && slot in RootSet(h) && W(h.m, slot) != 0 && EdgeTo(h, slot) == o
    requires SlotSet(h, o) == {o} && W(h.m, o) != 0 && EdgeTo(h, o) == d
    ensures o in c && d in c
  {
    hide W, SlotSet, EdgeTo, RootSet;
    ClosedAt(h, c, slot);
    assert o in SlotSet(h, o);
    ClosedAt(h, c, o);
  }

  /** Four dead words, eight live ones, and nothing above. */
  ghost predicate FourDeadEightLive(lv: seq<bool>, s: nat, end: nat) {
    s + 12 <= end <= |lv| && forall x :: s <= x < end ==> (lv[x] <==> s + 4 <= x < s + 12)
  }

  lemma OneEntry(lv: seq<bool>, s: nat, end: nat)
    requires FourDeadEightLive(lv, s, end)
    ensures Heads(lv, s, end) == [Entry(s + 4, s)] && Slide(lv, s, s + 8) == s + 4 && Slide(lv, s, s + 4) == s
  {
    OneEntrySlides(lv, s, end);
    NothingAbove(lv, s, end);
    OneRun(lv, s, end);
    NothingBelow(lv, s, end);
    hide *;
  }

  lemma NothingAbove(lv: seq<bool>, s: nat, end: nat)
    requires FourDeadEightLive(lv, s, end)
    ensures Heads(lv, s, end) == Heads(lv, s, s + 12)
  {
    hide *;
    LiveAt(lv, s, end);
    if s + 12 < end { HeadsDead(lv, s, s + 12, end); }
  }

  lemma OneRun(lv: seq<bool>, s: nat, end: nat)
    requires FourDeadEightLive(lv, s, end)
    ensures Heads(lv, s, s + 12) == Heads(lv, s, s + 4) + [Entry(s + 4, Slide(lv, s, s + 4))]
  {
    hide *;
    LiveAt(lv, s, end);
    HeadsLive(lv, s, s + 4, s + 12);
  }

  lemma NothingBelow(lv: seq<bool>, s: nat, end: nat)
    requires FourDeadEightLive(lv, s, end)
    ensures Heads(lv, s, s + 4) == []
  {
    hide *;
    LiveAt(lv, s, end);
    HeadsInRun(lv, s, s, s + 4);
    HeadsNone(lv, s);
  }

  lemma LiveAt(lv: seq<bool>, s: nat, end: nat)
    requires FourDeadEightLive(lv, s, end)
    ensures s + 12 <= end <= |lv| && (forall k :: s <= k < s + 4 ==> !lv[k]) && (forall k :: s + 4 <= k < s + 12 ==> lv[k]) && forall k :: s + 12 <= k < end ==> !lv[k]
  {
  }

  lemma HeadsNone(lv: seq<bool>, s: nat)
    requires s < |lv|
    ensures Heads(lv, s, s + 1) == []
  {
  }

  lemma OneEntrySlides(lv: seq<bool>, s: nat, end: nat)
    requires FourDeadEightLive(lv, s, end)
    ensures Slide(lv, s, s + 8) == s + 4 && Slide(lv, s, s + 4) == s
  {
    LiveUniform(lv, s, s + 4, false);
    LiveUniform(lv, s + 4, s + 8, true);
    LiveSplit(lv, s, s + 4, s + 8);
    hide Live;
  }

  lemma ItsWords()
    ensures FourDeadEightLive(ItsPlan().lv, Start(0), End(0))
  {
    ItsLength();
    forall x: nat | Start(0) <= x < End(0) ensures ItsPlan().lv[x] <==> Start(0) + 4 <= x < Start(0) + 12 { ItsWord(x); }
  }

  lemma ItsLength()
    ensures Start(0) + 12 <= End(0) <= |ItsPlan().lv|
  {
    hide W;
  }

  lemma ItsWord(x: nat)
    requires Start(0) <= x < End(0) <= |ItsPlan().lv|
    ensures ItsPlan().lv[x] <==> Start(0) + 4 <= x < Start(0) + 12
  {
    hide W;
    var g, d := ItsPlan(), Start(0) + 4;
    assert g.live == {d, d + 4} && Next(g.h, d) == d + 4 && Next(g.h, d + 4) == d + 8;
    if d <= x < d + 4 { assert d in g.live && d in g.h.objs && d <= x < Next(g.h, d); }
    if d + 4 <= x < d + 8 { assert d + 4 in g.live && d + 4 in g.h.objs && d + 4 <= x < Next(g.h, d + 4); }
  }

  lemma TakenTwice(g: Plan, m: seq<int>, slot: nat, s: nat)
    requires PlanOk(g) && slot in RootSet(g.h) && s == Start(0) && W(g.h.m, slot) != 0 && EdgeTo(g.h, slot) == s + 8
    requires FourDeadEightLive(g.lv, s, End(0)) && |m| == |g.h.m| && W(m, slot) == Copied(g, slot)
    ensures W(Listed(g, m, [slot]), slot) == Final(g, slot) == Ptr(MoveTo(g, s + 8)) && MoveTo(g, s + 8) == s + 4
    ensures W(Listed(g, m, [slot, slot]), slot) == Ptr(MoveTo(g, s + 4)) && MoveTo(g, s + 4) == s
  {
    hide PlanOk, W, Slide, Heads, RootSet, Copied, EdgeTo, FourDeadEightLive;
    OneEntry(g.lv, s, End(0));
    RootLeads(g, slot);
    ListedWord(g, m, [slot], slot);
    ListedWord(g, m, [slot, slot], slot);
    assert multiset([slot])[slot] == 1 && multiset([slot, slot])[slot] == 2;
    FollowHere(g, s);
    assert FollowTimes(g, s + 8, 1) == Follow(g, FollowTimes(g, s + 8, 0));
    assert FollowTimes(g, s + 8, 2) == Follow(g, FollowTimes(g, s + 8, 1));
  }

  lemma ItsSlot()
    ensures var h, slot := ItsPlan().h, Base(1) + 1; h.roots == [slot] && slot in RootSet(h) && W(h.m, slot) == Ptr(Start(0) + 8) != 0 && EdgeTo(h, slot) == Start(0) + 8
  {
    ThreeObjectsOk();
    ThreeObjectsWords();
    hide W, EdgeTo, HeapOk, Tiled, SlotSet;
    assert ItsPlan().h.roots[0] == Base(1) + 1;
  }

  lemma ItsOnePool()
    ensures PoolOrder(ItsPlan().h, [0])
  {
  }

  lemma StartsApart()
    ensures Ptr(Start(0)) != Ptr(Start(0) + 4)
  {
  }

  lemma FollowHere(g: Plan, s: nat)
    requires s == Start(0) && FourDeadEightLive(g.lv, s, End(0))
    ensures Follow(g, s + 8) == s + 4 && Follow(g, s + 4) == s
  {
    hide Heads, Slide, PoolOf, Relocated;
    OneEntry(g.lv, s, End(0));
    PoolOfBounds(0, s + 8);
    PoolOfBounds(0, s + 4);
    RelocatedOne(Entry(s + 4, s), s + 8);
    RelocatedOne(Entry(s + 4, s), s + 4);
  }

  lemma RelocatedOne(e: Entry, x: nat)
    requires e.orig <= x
    ensures Relocated([e], x) == x - e.orig + e.newL
  {
  }

  /** When that variable is listed twice, the collection leaves it pointing at the descriptor and not at the
      object, whatever the words are when the roots come to be relocated, as long as the variable has been left
      alone: its second relocation takes the object's new address for an old one. */
  lemma SlotListedTwice(m: seq<int>)
    requires |m| == |ItsPlan().h.m| && W(m, Base(1) + 1) == Copied(ItsPlan(), Base(1) + 1)
    ensures var g, slot := ItsPlan(), Base(1) + 1; PlanOk(g) && PoolOrder(g.h, [0]) && g.h.roots == [slot] && W(g.h.m, slot) == Copied(g, slot) == Ptr(Start(0) + 8)
    ensures var g, slot := ItsPlan(), Base(1) + 1; W(Listed(g, m, [slot]), slot) == Final(g, slot) == Ptr(MoveTo(g, Start(0) + 8))
    ensures var g, slot := ItsPlan(), Base(1) + 1; W(Listed(g, m, [slot, slot]), slot) == Ptr(MoveTo(g, Start(0) + 4)) != Final(g, slot)
  {
    var g, slot := ItsPlan(), Base(1) + 1;
    ItsPlanOk();
    ItsOnePool();
    ItsSlot();
    ItsWords();
    hide *;
    RootLeads(g, slot);
    TakenTwice(g, m, slot, Start(0));
    StartsApart();
  }
}
