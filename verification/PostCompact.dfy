/** The walk over a compacted pool that relocates its pointers and rebuilds its card tables. */
module PostCompaction {
  import opened Runs
  import opened Heaps
  import opened Cards
  import opened Graph
  import opened Relocation

  /** The object that the word at `x` belongs to, found by walking from the object at `o`. */
  ghost function OwnerFrom(h: Heap, o: nat, x: nat): (r: nat)
    requires Tiled(h) && o in h.objs && InPool(h, o) && o <= x < h.free[PoolOf(o)]
    ensures r in h.objs && r <= x < Next(h, r) && PoolOf(r) == PoolOf(o)
    decreases x - o
  {
    ObjectBounds(h, o);
    PoolBounds(h, PoolOf(o));
    if x < Next(h, o) then o
    else
      assert InPool(h, Next(h, o));
      OwnerFrom(h, Next(h, o), x)
  }

  /** The first live word of pool `p` from `x` on, or the end of the pool. */
  ghost function NextLive(lv: seq<bool>, x: nat, end: nat): (r: nat)
    requires x <= end <= |lv|
    ensures x <= r <= end && (forall k :: x <= k < r ==> !lv[k]) && (r < end ==> lv[r])
    decreases end - x
  {
    if x == end || lv[x] then x else NextLive(lv, x + 1, end)
  }

  /** A place where an object may begin: the start of the pool, or just past an object. */
  ghost predicate Boundary(h: Heap, p: nat, x: nat) {
    x == Start(p) || exists o :: o in h.objs && PoolOf(o) == p && Next(h, o) == x
  }

  /** The next live word after an object boundary is the first word of a live object. */
  lemma NextLiveStarts(g: Plan, p: nat, x: nat)
    requires PlanOk(g) && p < |g.h.free| && Start(p) <= x <= End(p) && Boundary(g.h, p, x)
    ensures End(p) <= |g.lv|
    ensures var r := NextLive(g.lv, x, End(p));
      Slide(g.lv, Start(p), r) == Slide(g.lv, Start(p), x) &&
      (r < End(p) ==> r in g.live && r in g.h.objs && PoolOf(r) == p)
  {
    hide PoolOf, Slide, HeadersOk, DescsOk, PointersOk, RootsOk, IsReachable;
    PoolBounds(g.h, p);
    var r := NextLive(g.lv, x, End(p));
    SlideGap(g.lv, Start(p), x, r);
    if r < End(p) {
      assert r < g.h.free[p];
      assert InPool(g.h, Start(p));
      var q := OwnerFrom(g.h, Start(p), r);
      ObjectBounds(g.h, q);
      if q < x {
        var o :| o in g.h.objs && PoolOf(o) == p && Next(g.h, o) == x;
        NextAbove(g.h, o);
        assert q < o ==> Below(g.h, q, o);
        ObjectBounds(g.h, o);
      }
      assert g.lv[q];
    }
  }

  /** Where the live objects of pool `p` that lay below `upto` begin now. */
  ghost function StartsTo(g: Plan, p: nat, upto: nat): set<nat> {
    set o | o in g.live && PoolOf(o) == p && o < upto :: MoveTo(g, o)
  }

  /** One of those objects begins in card `c` and has a pointer to a younger generation. */
  ghost predicate YoungInCard(g: Plan, p: nat, c: nat, upto: nat) {
    exists o :: o in g.live && PoolOf(o) == p && o < upto && CardIn(MoveTo(g, o)) == c && o in g.h.objs && HasYounger(g, o, Next(g.h, o))
  }

  /** Exactly the cards in which such objects begin are remembered. */
  ghost predicate RememberedTo(remember: seq<bool>, g: Plan, p: nat, upto: nat) {
    CardNo(p, 4096) <= |remember| &&
    forall c {:trigger remember[CardNo(p, c)]} :: 0 <= c < 4096 ==> (remember[CardNo(p, c)] <==> YoungInCard(g, p, c, upto))
  }

  /** The words of pool `p` below `upto` are relocated, besides those of `before`. */
  ghost predicate WordsTo(g: Plan, before: set<nat>, done: set<nat>, p: nat, upto: nat) {
    forall x: nat :: x in done <==> x in before || (Survives(g, x) && PoolOf(x) == p && x < upto)
  }

  /** The card tables of pool `p`, when its generation has any, are right up to `upto`. */
  ghost predicate CardsTo(remember: seq<bool>, first: seq<nat>, g: Plan, p: nat, upto: nat, last: int) {
    RememberedTo(remember, g, p, upto) && CardNo(p, 4096) <= |first| && FirstsOk(first, p, StartsTo(g, p, upto)) &&
    UpToCard(p, StartsTo(g, p, upto), last) &&
    (last >= 0 ==> exists r :: r in StartsTo(g, p, upto) && CardIn(r) == last)
  }

  /** Walking stands at the old address `x`: at a live object, or at the end of the pool. */
  ghost predicate WalkAt(g: Plan, p: nat, x: nat) {
    p < |g.h.free| && x <= End(p) && (x < End(p) ==> x in g.live && IsNode(g.h, x) && PoolOf(x) == p)
  }

  /** The next old address that the walk stands at. */
  ghost function WalkNext(g: Plan, p: nat, o: nat): nat
    requires o in g.h.objs
  {
    if Next(g.h, o) <= End(p) <= |g.lv| then NextLive(g.lv, Next(g.h, o), End(p)) else End(p)
  }

  /** The walk's new address keeps step with its old one. */
  lemma WalkSteps(g: Plan, p: nat, o: nat)
    requires PlanOk(g) && WalkAt(g, p, o) && o < End(p)
    ensures Start(p) <= o && MoveTo(g, o) == SlideIn(g, p, o) < SlideIn(g, p, End(p))
    ensures Next(g.h, o) <= WalkNext(g, p, o) && WalkAt(g, p, WalkNext(g, p, o))
    ensures SlideIn(g, p, WalkNext(g, p, o)) == MoveTo(g, o) + g.h.objs[o].size
    ensures forall x :: Next(g.h, o) <= x < WalkNext(g, p, o) ==> !g.lv[x]
    ensures forall q :: q in g.live && PoolOf(q) == p && q < WalkNext(g, p, o) ==> q <= o
  {
    hide PoolOf, Slide, HeadersOk, DescsOk, PointersOk, RootsOk, IsReachable;
    ObjectBounds(g.h, o);
    PoolBounds(g.h, p);
    MoveTogether(g, o, g.h.objs[o].size - 1);
    MoveTogether(g, o, 0);
    assert forall x :: o <= x < Next(g.h, o) ==> g.lv[x];
    SlideRun(g.lv, Start(p), o, Next(g.h, o));
    SlideMonotone(g.lv, Start(p), o, End(p));
    assert Boundary(g.h, p, Next(g.h, o));
    NextLiveStarts(g, p, Next(g.h, o));
    NextAbove(g.h, o);
    LiveNodes(g);
    forall q | q in g.live && PoolOf(q) == p && q < WalkNext(g, p, o) ensures q <= o {
      ObjectBounds(g.h, q);
      assert g.lv[q];
    }
  }

  lemma LiveNodes(g: Plan)
    requires PlanOk(g)
    ensures forall o :: o in g.live ==> IsNode(g.h, o)
  {
  }

  /** Passing the object at `o` adds its words. */
  lemma WordsStep(g: Plan, before: set<nat>, done: set<nat>, p: nat, o: nat)
    requires PlanOk(g) && WalkAt(g, p, o) && o < End(p) && WordsTo(g, before, done, p, o)
    requires forall x :: x in before ==> PoolOf(x) != p
    ensures FirstWords(o, g.h.objs[o].size) !! done
    ensures WordsTo(g, before, done + FirstWords(o, g.h.objs[o].size), p, WalkNext(g, p, o))
  {
    hide PoolOf, Slide, HeadersOk, DescsOk, PointersOk, RootsOk, IsReachable, LiveMap, WalkNext, NextLive, Next;
    WalkSteps(g, p, o);
    NextIs(g.h, o);
    forall x: nat | o <= x < o + g.h.objs[o].size ensures Survives(g, x) && PoolOf(x) == p { MoveTogether(g, o, x - o); }
  }

  lemma NextIs(h: Heap, o: nat)
    requires o in h.objs
    ensures Next(h, o) == o + h.objs[o].size
  {
  }

  /** Passing the object at `o` may remember its card, and no other. */
  lemma RememberStep(g: Plan, p: nat, o: nat, card: nat, rem: seq<bool>, rem': seq<bool>)
    requires PlanOk(g) && WalkAt(g, p, o) && o < End(p) && RememberedTo(rem, g, p, o)
    requires card == CardIn(MoveTo(g, o)) && card < 4096 && Remembering(rem', rem, CardNo(p, card), g, o, Next(g.h, o))
    ensures RememberedTo(rem', g, p, WalkNext(g, p, o))
  {
    hide PoolOf, Slide, HeadersOk, DescsOk, PointersOk, RootsOk, IsReachable, LiveMap, WalkNext, NextLive, MoveTo, CardIn, HasYounger;
    WalkSteps(g, p, o);
    ObjectBounds(g.h, o);
    assert o < WalkNext(g, p, o);
    forall c {:trigger rem'[CardNo(p, c)]} | 0 <= c < 4096
      ensures rem'[CardNo(p, c)] <==> YoungInCard(g, p, c, WalkNext(g, p, o))
    {
      assert rem[CardNo(p, c)] <==> YoungInCard(g, p, c, o);
      if YoungInCard(g, p, c, o) {
        var q :| q in g.live && PoolOf(q) == p && q < o && CardIn(MoveTo(g, q)) == c && q in g.h.objs && HasYounger(g, q, Next(g.h, q));
        assert q < WalkNext(g, p, o);
      }
      if YoungInCard(g, p, c, WalkNext(g, p, o)) {
        var q :| q in g.live && PoolOf(q) == p && q < WalkNext(g, p, o) && CardIn(MoveTo(g, q)) == c && q in g.h.objs && HasYounger(g, q, Next(g.h, q));
        assert q < o || q == o;
      }
    }
  }

  /** Passing the object at `o` notes where it begins. */
  lemma StartsStep(g: Plan, p: nat, o: nat, last: int, first: seq<nat>)
    requires PlanOk(g) && WalkAt(g, p, o) && o < End(p) && CardNo(p, 4096) <= |first|
    requires FirstsOk(first, p, StartsTo(g, p, o)) && UpToCard(p, StartsTo(g, p, o), last)
    requires last >= 0 ==> exists r :: r in StartsTo(g, p, o) && CardIn(r) == last
    ensures var q := MoveTo(g, o); var c := CardIn(q);
      Base(p) <= q < End(p) && c < 4096 && StartsTo(g, p, WalkNext(g, p, o)) == StartsTo(g, p, o) + {q} &&
      FirstsOk(if c == last then first else first[CardNo(p, c) := InnerOf(q)], p, StartsTo(g, p, o) + {q}) &&
      UpToCard(p, StartsTo(g, p, o) + {q}, c)
  {
    hide PoolOf, Slide, HeadersOk, DescsOk, PointersOk, RootsOk, IsReachable, LiveMap, WalkNext, NextLive, MoveTo, CardIn, InnerOf;
    WalkSteps(g, p, o);
    PlanBasics(g);
    LiveNodes(g);
    ObjectBounds(g.h, o);
    MoveTogether(g, o, 0);
    MoveInPool(g, o);
    var q := MoveTo(g, o);
    CardBounds(p, q);
    forall r | r in StartsTo(g, p, o) ensures Base(p) <= r <= q && CardIn(r) <= CardIn(q) {
      var s :| s in g.live && PoolOf(s) == p && s < o && MoveTo(g, s) == r;
      ObjectBounds(g.h, s);
      MoveTogether(g, s, 0);
      MoveInPool(g, s);
      SlideMonotone(g.lv, Start(p), s, o);
      CardMonotone(p, r, q);
    }
    NoteStart(first, p, StartsTo(g, p, o), last, q);
  }

  /** Relocates the object that has come to `obj`, and keeps the card tables of its pool in step. */
  method WalkObject(m: array<int>, p: nat, obj: nat, last: int, bt: array<nat>, btn: array<nat>, gen: seq<nat>,
                    remember: array<bool>, first: array<nat>, ghost g: Plan, ghost before: set<nat>, ghost done: set<nat>, ghost o: nat)
    returns (next: nat, card: int, ghost done': set<nat>)
    requires PlanOk(g) && gen == g.h.gen && p < |gen| && Tables(m[..], g, bt[..], btn[..]) && Relocating(m[..], g, done)
    requires WalkAt(g, p, o) && o < End(p) && obj == MoveTo(g, o) && WordsTo(g, before, done, p, o)
    requires forall x :: x in before ==> PoolOf(x) != p
    requires CardNo(p, 4096) <= remember.Length && CardNo(p, 4096) <= first.Length && first != bt && first != btn
    requires gen[p] > 0 ==> CardsTo(remember[..], first[..], g, p, o, last)
    requires gen[p] == 0 ==> last == 0
    modifies m, remember, first
    ensures Tables(m[..], g, bt[..], btn[..]) && Relocating(m[..], g, done')
    ensures WordsTo(g, before, done', p, WalkNext(g, p, o)) && next == SlideIn(g, p, WalkNext(g, p, o))
    ensures gen[p] > 0 ==> CardsTo(remember[..], first[..], g, p, WalkNext(g, p, o), card)
    ensures gen[p] == 0 ==> card == 0 && remember[..] == old(remember[..]) && first[..] == old(first[..])
    ensures OtherCards(p, old(remember[..]), remember[..]) && OtherCards(p, old(first[..]), first[..])
  {
    hide PoolOf, Slide, Tables, Relocating, PlanOk, CardIn, InnerOf, RememberedTo, FirstsOk, UpToCard, WalkNext, WordsTo, MoveTo, StartsTo, FirstWords, SlideIn;
    card := last;
    WalkSteps(g, p, o);
    WordsStep(g, before, done, p, o);
    if gen[p] > 0 {
      StartsStep(g, p, o, last, first[..]);
      card := CardIn(obj);
      if card != last { first[CardNo(p, card)] := InnerOf(obj); }
    }
    var size := RelocateObject(m, obj, bt, btn, gen, gen[p], CardNo(p, card), remember, g, done, o);
    next := obj + size;
    done' := done + FirstWords(o, size);
    if gen[p] > 0 {
      RememberStep(g, p, o, card, old(remember[..]), remember[..]);
    } else {
      NothingYounger(g, o);
    }
  }

  lemma NothingYounger(g: Plan, o: nat)
    requires GenOf(g.h, o) == 0
    ensures forall upto :: !HasYounger(g, o, upto)
  {
  }

  /** Clears the remembered set of pool `p`. */
  method ForgetCards(remember: array<bool>, p: nat)
    requires CardNo(p, 4096) <= remember.Length
    modifies remember
    ensures forall c {:trigger remember[CardNo(p, c)]} :: 0 <= c < 4096 ==> !remember[CardNo(p, c)]
    ensures OtherCards(p, old(remember[..]), remember[..])
  {
    var c := 0;
    while c < 4096
      invariant 0 <= c <= 4096
      invariant forall i :: CardNo(p, 0) <= i < CardNo(p, c) ==> !remember[i]
      invariant forall i :: 0 <= i < remember.Length && !(CardNo(p, 0) <= i < CardNo(p, 4096)) ==> remember[i] == old(remember[i])
    {
      remember[CardNo(p, c)] := false;
      c := c + 1;
    }
  }

  lemma OtherCardsTrans<T(!new)>(p: nat, a: seq<T>, b: seq<T>, c: seq<T>)
    requires OtherCards(p, a, b) && OtherCards(p, b, c)
    ensures OtherCards(p, a, c)
  {
    forall i {:trigger c[i]} | 0 <= i < |a| && !(CardNo(p, 0) <= i < CardNo(p, 4096)) ensures c[i] == a[i] {
      assert b[i] == a[i];
    }
  }

  lemma NoCardsYet(remember: seq<bool>, first: seq<nat>, g: Plan, p: nat, o: nat)
    requires CardNo(p, 4096) <= |remember| && CardNo(p, 4096) <= |first|
    requires forall c {:trigger remember[CardNo(p, c)]} :: 0 <= c < 4096 ==> !remember[CardNo(p, c)]
    requires forall q :: q in g.live && PoolOf(q) == p ==> o <= q
    ensures CardsTo(remember, first, g, p, o, -1)
  {
    hide PoolOf, MoveTo, CardIn, HasYounger;
    assert StartsTo(g, p, o) == {};
  }

  /** The first object the walk stands at. */
  lemma WalkBegins(g: Plan, p: nat, before: set<nat>)
    requires PlanOk(g) && p < |g.h.free| && forall x :: x in before ==> PoolOf(x) != p
    ensures Start(p) <= End(p) <= |g.lv|
    ensures var o := NextLive(g.lv, Start(p), End(p));
      WalkAt(g, p, o) && SlideIn(g, p, o) == Start(p) && WordsTo(g, before, before, p, o) &&
      (forall q :: q in g.live && PoolOf(q) == p ==> o <= q)
  {
    hide PoolOf, Slide, HeadersOk, DescsOk, PointersOk, RootsOk, IsReachable;
    PoolBounds(g.h, p);
    NextLiveStarts(g, p, Start(p));
    LiveNodes(g);
    var o := NextLive(g.lv, Start(p), End(p));
    forall q | q in g.live && PoolOf(q) == p ensures o <= q {
      ObjectBounds(g.h, q);
      assert g.lv[q];
    }
  }

  /** The card after the last object is noted too, as long as there is room for one. */
  lemma NoteFree(g: Plan, p: nat, first: seq<nat>, last: int, free: nat)
    requires PlanOk(g) && p < |g.h.free| && free == SlideIn(g, p, End(p)) && CardNo(p, 4096) <= |first|
    requires FirstsOk(first, p, StartsTo(g, p, End(p))) && UpToCard(p, StartsTo(g, p, End(p)), last)
    requires last >= 0 ==> exists r :: r in StartsTo(g, p, End(p)) && CardIn(r) == last
    ensures CardIn(free) < 4096
    ensures FirstsOk(if CardIn(free) == last then first else first[CardNo(p, CardIn(free)) := InnerOf(free)],
                     p, StartsTo(g, p, End(p)) + if free < End(p) then {free} else {})
  {
    hide PoolOf, Slide, HeadersOk, DescsOk, PointersOk, RootsOk, IsReachable, MoveTo, CardIn, InnerOf;
    PlanBasics(g);
    LiveNodes(g);
    PoolBounds(g.h, p);
    forall r | r in StartsTo(g, p, End(p)) ensures Start(p) <= r < free && (free < End(p) ==> CardIn(r) <= CardIn(free)) {
      var s :| s in g.live && PoolOf(s) == p && s < End(p) && MoveTo(g, s) == r;
      ObjectBounds(g.h, s);
      MoveTogether(g, s, 0);
      MoveInPool(g, s);
      SlideMonotone(g.lv, Start(p), s, End(p));
      if free < End(p) { CardMonotone(p, r, free); }
    }
    if free < End(p) {
      CardBounds(p, free);
      NoteStart(first, p, StartsTo(g, p, End(p)), last, free);
    } else {
      assert free == End(p) && StartsTo(g, p, End(p)) + {} == StartsTo(g, p, End(p));
      EndCard(p);
      NoteNothing(first, p, StartsTo(g, p, End(p)), InnerOf(free));
    }
  }

  lemma EndCard(p: nat)
    ensures CardIn(End(p)) == 0 && InnerOf(End(p)) == 0 && CardIn(Start(p)) == 3
  {
    PoolRemainder(p + 1, 0);
    PoolRemainder(p, 1543);
    CardRemainder((p + 1) * 4096);
  }

  lemma PoolRemainder(p: nat, r: nat)
    requires r < 0x20_0000
    ensures (p * 0x20_0000 + r) % 0x20_0000 == r
  {
  }

  lemma CardRemainder(k: nat)
    ensures k * 512 % 512 == 0
  {
  }

  /** Card 0 lies in the pool's header, so that its entry does not matter. */
  lemma NoteNothing(first: seq<nat>, p: nat, starts: set<nat>, v: nat)
    requires FirstsOk(first, p, starts) && CardNo(p, 4096) <= |first|
    requires forall r :: r in starts ==> Start(p) <= r < End(p)
    ensures FirstsOk(first[CardNo(p, 0) := v], p, starts)
  {
    hide CardIn;
    var first' := first[CardNo(p, 0) := v];
    forall r {:trigger FirstAt(first', p, starts, r)} | r in starts ensures FirstAt(first', p, starts, r) {
      assert FirstAt(first, p, starts, r);
      CardMonotone(p, Start(p), r);
      EndCard(p);
    }
  }

  /** What relocation leaves in the card tables of an older pool: the remembered cards are exactly
      those in which an object with a pointer to a younger generation begins, and the first-object
      table is right for every card in which an object or the free space begins. */
  ghost predicate CardsRebuilt(remember: seq<bool>, first: seq<nat>, g: Plan, p: nat) {
    RememberedTo(remember, g, p, End(p)) &&
    FirstsOk(first, p, StartsTo(g, p, End(p)) + if SlideIn(g, p, End(p)) < End(p) then {SlideIn(g, p, End(p))} else {})
  }

  /** The walk itself, from the old address `o0` that the first object came from. */
  method WalkPool(m: array<int>, p: nat, start: nat, free: nat, bt: array<nat>, btn: array<nat>, gen: seq<nat>,
                  remember: array<bool>, first: array<nat>, ghost g: Plan, ghost before: set<nat>, ghost o0: nat)
    returns (last: int, ghost done: set<nat>)
    requires PlanOk(g) && gen == g.h.gen && p < |gen| && Tables(m[..], g, bt[..], btn[..]) && Relocating(m[..], g, before)
    requires WalkAt(g, p, o0) && start == SlideIn(g, p, o0) && free == SlideIn(g, p, End(p)) && WordsTo(g, before, before, p, o0)
    requires forall x :: x in before ==> PoolOf(x) != p
    requires CardNo(p, 4096) <= remember.Length && CardNo(p, 4096) <= first.Length && first != bt && first != btn
    requires gen[p] > 0 ==> CardsTo(remember[..], first[..], g, p, o0, -1)
    modifies m, remember, first
    ensures Tables(m[..], g, bt[..], btn[..]) && Relocating(m[..], g, done) && WordsTo(g, before, done, p, End(p))
    ensures gen[p] > 0 ==> CardsTo(remember[..], first[..], g, p, End(p), last)
    ensures OtherCards(p, old(remember[..]), remember[..]) && OtherCards(p, old(first[..]), first[..])
  {
    hide PoolOf, Slide, Tables, Relocating, PlanOk, CardIn, InnerOf, RememberedTo, FirstsOk, UpToCard, WalkNext, WordsTo, MoveTo, StartsTo,
      FirstWords, SlideIn, CardsTo, OtherCards, NextLive;
    ghost var o := o0;
    done, last := before, if gen[p] > 0 then -1 else 0;
    var obj := start;
    SameCards(p, remember[..]);
    SameCards(p, first[..]);
    while obj < free
      invariant Tables(m[..], g, bt[..], btn[..]) && Relocating(m[..], g, done)
      invariant WalkAt(g, p, o) && obj == SlideIn(g, p, o) && WordsTo(g, before, done, p, o)
      invariant gen[p] > 0 ==> CardsTo(remember[..], first[..], g, p, o, last)
      invariant gen[p] == 0 ==> last == 0
      invariant OtherCards(p, old(remember[..]), remember[..]) && OtherCards(p, old(first[..]), first[..])
      decreases End(p) - o
    {
      assert o < End(p);
      WalkSteps(g, p, o);
      ghost var r0, f0 := remember[..], first[..];
      obj, last, done := WalkObject(m, p, obj, last, bt, btn, gen, remember, first, g, before, done, o);
      OtherCardsTrans(p, old(remember[..]), r0, remember[..]);
      OtherCardsTrans(p, old(first[..]), f0, first[..]);
      WalkAhead(g, p, o);
      o := WalkNext(g, p, o);
    }
    if o < End(p) { WalkSteps(g, p, o); }
  }

  lemma OtherCardsWrite<T(!new)>(p: nat, a: seq<T>, b: seq<T>, c: nat, v: T)
    requires OtherCards(p, a, b) && c < 4096 && CardNo(p, 4096) <= |b|
    ensures OtherCards(p, a, b[CardNo(p, c) := v])
  {
  }

  lemma CardsDone(remember: seq<bool>, first: seq<nat>, g: Plan, p: nat, last: int)
    requires CardsTo(remember, first, g, p, End(p), last)
    ensures RememberedTo(remember, g, p, End(p)) && CardNo(p, 4096) <= |first| && FirstsOk(first, p, StartsTo(g, p, End(p)))
    ensures UpToCard(p, StartsTo(g, p, End(p)), last)
    ensures last >= 0 ==> exists r :: r in StartsTo(g, p, End(p)) && CardIn(r) == last
  {
  }

  lemma PlanPools(g: Plan)
    requires PlanOk(g)
    ensures |g.h.gen| == |g.h.free|
  {
  }

  lemma SameCards<T(!new)>(p: nat, a: seq<T>)
    ensures OtherCards(p, a, a)
  {
  }

  lemma WalkAhead(g: Plan, p: nat, o: nat)
    requires PlanOk(g) && WalkAt(g, p, o) && o < End(p)
    ensures o < WalkNext(g, p, o)
  {
    hide PoolOf, WalkNext;
    WalkSteps(g, p, o);
    ObjectBounds(g.h, o);
  }

  /** Relocates all pointers of one compacted pool and rebuilds its remembered set and card table. */
  method PostCompact(m: array<int>, p: nat, start: nat, free: nat, bt: array<nat>, btn: array<nat>, gen: seq<nat>,
                     remember: array<bool>, first: array<nat>, ghost g: Plan, ghost before: set<nat>)
    returns (ghost done: set<nat>)
    requires PlanOk(g) && gen == g.h.gen && p < |gen| && Tables(m[..], g, bt[..], btn[..]) && Relocating(m[..], g, before)
    requires start == Start(p) && free == SlideIn(g, p, End(p))
    requires forall x :: x in before ==> PoolOf(x) != p
    requires CardNo(p, 4096) <= remember.Length && CardNo(p, 4096) <= first.Length && first != bt && first != btn
    modifies m, remember, first
    ensures Tables(m[..], g, bt[..], btn[..]) && Relocating(m[..], g, done) && WordsTo(g, before, done, p, End(p))
    ensures gen[p] > 0 ==> CardsRebuilt(remember[..], first[..], g, p)
    ensures OtherCards(p, old(remember[..]), remember[..]) && OtherCards(p, old(first[..]), first[..])
  {
    hide PoolOf, Slide, Tables, Relocating, CardIn, InnerOf, RememberedTo, FirstsOk, UpToCard, WalkNext, WordsTo, MoveTo, StartsTo,
      FirstWords, SlideIn, CardsTo, OtherCards, NextLive, HeapOk, LiveMap, IsReachable;
    PlanPools(g);
    WalkBegins(g, p, before);
    ghost var o := NextLive(g.lv, Start(p), End(p));
    ghost var r0, f0 := remember[..], first[..];
    SameCards(p, r0);
    if gen[p] > 0 {
      ForgetCards(remember, p);
      NoCardsYet(remember[..], first[..], g, p, o);
    }
    ghost var r1 := remember[..];
    var last;
    last, done := WalkPool(m, p, start, free, bt, btn, gen, remember, first, g, before, o);
    OtherCardsTrans(p, r0, r1, remember[..]);
    if gen[p] > 0 {
      CardsDone(remember[..], first[..], g, p, last);
      NoteFree(g, p, first[..], last, free);
      var card := CardIn(free);
      OtherCardsWrite(p, f0, first[..], card, InnerOf(free));
      if card != last { first[CardNo(p, card)] := InnerOf(free); }
    }
  }
}
