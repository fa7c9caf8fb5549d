/** No more than it must: a minor collection copies only what the roots and the remembered older objects lead to, and passes
    over a pool only when something that it copies does not fit there. */
module MinorBounds {
  import opened Words
  import opened Heaps
  import opened Graph
  import opened FullMarking
  import opened Isomorphism
  import opened Promotion
  import opened Redirection
  import opened OldAllocation
  import opened CardWalking
  import opened MinorCollection

  /** Whatever of `h0` has been copied is in `c`. */
  ghost predicate MovedIn(h0: Heap, h: Heap, c: set<nat>) {
    forall o {:trigger IsNode(h0, o)} :: IsNode(h0, o) && o in h.objs && h.objs[o].rep != o ==> o in c
  }

  /** The object at `b` is where a node of `c` stands now. */
  ghost predicate StandsIn(h0: Heap, h: Heap, b: nat, c: set<nat>) {
    exists o: nat {:trigger IsNode(h0, o)} :: o in c && IsNode(h0, o) && o in h.objs && h.objs[o].rep == b
  }

  ghost predicate ImageIn(h0: Heap, h: Heap, black: set<nat>, c: set<nat>) {
    forall b {:trigger StandsIn(h0, h, b, c)} :: b in black ==> StandsIn(h0, h, b, c)
  }

  /** And so is every copy. */
  ghost predicate CopiesIn(h0: Heap, h: Heap, c: set<nat>) {
    forall n {:trigger StandsIn(h0, h, n, c)} :: n in h.objs && n !in h0.objs && h.objs[n].rep == n ==> StandsIn(h0, h, n, c)
  }

  /** The objects of `black`, and all that have been copied, are among those that the roots and the objects of `from` lead to. */
  ghost predicate OnlyReached(h0: Heap, h: Heap, black: set<nat>, from: set<nat>) {
    forall c {:trigger Closed(h0, c)} :: Closed(h0, c) && from <= c ==> MovedIn(h0, h, c) && CopiesIn(h0, h, c) && ImageIn(h0, h, black, c)
  }

  /** Some object of the generations up to `g` that has been copied, or is in `also`, is too large for what is left of pool `p`. */
  ghost predicate TooSmall(h: Heap, p: nat, g: nat, also: set<nat>) {
    p < |h.free| && exists o: nat :: o in h.objs && GenOf(h, o) <= g && (h.objs[o].rep != o || o in also) && End(p) - h.free[p] < h.objs[o].size
  }

  /** That is so of all pools of generation `g + 1` at places `from` up to `upto`. */
  ghost predicate FullBefore(h: Heap, lists: seq<seq<nat>>, g: nat, from: nat, upto: nat, also: set<nat>) {
    g + 1 < |lists| && forall k {:trigger lists[g + 1][k]} :: from <= k < upto && k < |lists[g + 1]| ==> TooSmall(h, lists[g + 1][k], g, also)
  }

  /** A node that the roots and the objects of `older` lead to fits in no pool of generation `g + 1` from place `from` on, and each of those
      is full but for that, or was too small for another. */
  ghost predicate Overfull(h0: Heap, h: Heap, lists: seq<seq<nat>>, g: nat, from: nat, older: set<nat>) {
    exists o: nat :: IsStuck(h0, h, lists, g, from, older, o)
  }

  ghost predicate IsStuck(h0: Heap, h: Heap, lists: seq<seq<nat>>, g: nat, from: nat, older: set<nat>, o: nat) {
    g + 1 < |lists| && IsNode(h, o) && GenOf(h, o) <= g && NoRoom(h.free, lists[g + 1], h.objs[o].size) &&
    FullBefore(h, lists, g, from, |lists[g + 1]|, {o}) && OnlyReached(h0, h, {o}, older)
  }

  /** So far, at `cursor`, an attempt has neither copied nor passed over more than it must. */
  ghost predicate Sparing(h0: Heap, h: Heap, black: set<nat>, older: set<nat>, lists: seq<seq<nat>>, g: nat, from: nat, cursor: nat) {
    OnlyReached(h0, h, black, older) && FullBefore(h, lists, g, from, cursor, {})
  }

  /** Nothing is passed over at first. */
  lemma SparingBegins(h0: Heap, h: Heap, black: set<nat>, older: set<nat>, lists: seq<seq<nat>>, g: nat, from: nat)
    requires OnlyReached(h0, h, black, older) && g + 1 < |lists|
    ensures Sparing(h0, h, black, older, lists, g, from, from)
  {
    hide OnlyReached, TooSmall;
  }

  /** In the heap that a collection begins with, every object stands where it is. */
  lemma OnlyAtFirst(h: Heap, older: set<nat>)
    requires HeapOk(h) && forall o :: o in older ==> IsNode(h, o)
    ensures OnlyReached(h, h, older, older)
  {
    hide HeapOk, IsForwarded, W;
    forall o | IsNode(h, o) ensures o in h.objs && h.objs[o].rep == o { NodeHeader(h, o); }
    hide IsNode;
    forall c {:trigger Closed(h, c)} | Closed(h, c) && older <= c ensures MovedIn(h, h, c) && CopiesIn(h, h, c) && ImageIn(h, h, older, c) {
      forall b {:trigger StandsIn(h, h, b, c)} | b in older ensures StandsIn(h, h, b, c) { assert IsNode(h, b); }
    }
  }

  /** Objects of `h0` that lead an attempt on may be begun with again, where they stand still. */
  lemma OnlyAgain(h0: Heap, h: Heap, black: set<nat>, older: set<nat>, again: set<nat>)
    requires OnlyReached(h0, h, black, older) && again <= older && forall o :: o in again ==> IsNode(h0, o) && o in h.objs && h.objs[o].rep == o
    ensures OnlyReached(h0, h, again, older)
  {
    hide IsNode, Closed;
    forall c {:trigger Closed(h0, c)} | Closed(h0, c) && older <= c ensures MovedIn(h0, h, c) && CopiesIn(h0, h, c) && ImageIn(h0, h, again, c) {
      forall b {:trigger StandsIn(h0, h, b, c)} | b in again ensures StandsIn(h0, h, b, c) { assert IsNode(h0, b); }
    }
  }

  lemma FewerBlack(h0: Heap, h: Heap, black: set<nat>, older: set<nat>, fewer: set<nat>)
    requires OnlyReached(h0, h, black, older) && fewer <= black
    ensures OnlyReached(h0, h, fewer, older)
  {
    hide MovedIn, CopiesIn, StandsIn, Closed;
  }

  /** Pointing a slot past forwarding copies nothing. */
  lemma RedirectSparing(h0: Heap, h: Heap, h': Heap, x: nat, black: set<nat>, older: set<nat>, lists: seq<seq<nat>>, g: nat, from: nat, cursor: nat)
    requires IsRedirected(h, h', x) && Sparing(h0, h, black, older, lists, g, from, cursor)
    ensures Sparing(h0, h', black, older, lists, g, from, cursor)
  {
    hide IsSlot, EdgeTo, Closed, IsNode, PoolOf;
    forall c {:trigger Closed(h0, c)} | Closed(h0, c) && older <= c ensures MovedIn(h0, h', c) && CopiesIn(h0, h', c) && ImageIn(h0, h', black, c) {
      forall b {:trigger StandsIn(h0, h', b, c)} | b in black ensures StandsIn(h0, h', b, c) { assert StandsIn(h0, h, b, c); }
      forall q {:trigger StandsIn(h0, h', q, c)} | q in h'.objs && q !in h0.objs && h'.objs[q].rep == q ensures StandsIn(h0, h', q, c) { assert StandsIn(h0, h, q, c); }
    }
    forall k {:trigger lists[g + 1][k]} | from <= k < cursor && k < |lists[g + 1]| ensures TooSmall(h', lists[g + 1][k], g, {}) {
      assert TooSmall(h, lists[g + 1][k], g, {});
    }
  }

  /** What a slot of the roots or of `black` leads to stands for a node of `c`. */
  lemma LeadsIn(h0: Heap, h: Heap, black: set<nat>, c: set<nat>, x: nat)
    requires StandsFor(h0, h) && Closed(h0, c) && ImageIn(h0, h, black, c) && x in Slots(h, black) && W(h.m, x) != 0
    ensures StandsIn(h0, h, EdgeTo(h, x), c)
  {
    hide HeapOk, SlotSet, IsNode, EdgeTo, W, SameObject, SameRoot;
    var f := Reps(h0, h);
    if x in RootSet(h) {
      assert RootSet(h0) == RootSet(h);
      assert SameRoot(h0, h, f, x);
      RootLeadsIn(h0, h, f, c, x);
    } else {
      var b :| b in black && x in SlotSet(h, b);
      assert StandsIn(h0, h, b, c);
      var o: nat :| o in c && IsNode(h0, o) && o in h.objs && h.objs[o].rep == b;
      NodeThere(h0, o);
      assert o in f && f[o] == b;
      SlotSpan(h, b, x);
      assert SameObject(h0, h, f, o);
      SlotLeadsIn(h0, h, f, c, o, x);
    }
  }

  lemma NodeThere(h: Heap, o: nat)
    requires IsNode(h, o)
    ensures o in h.objs
  {
  }

  lemma RootLeadsIn(h0: Heap, h: Heap, f: map<nat, nat>, c: set<nat>, x: nat)
    requires f == Reps(h0, h) && Closed(h0, c) && SameRoot(h0, h, f, x) && x in RootSet(h0) && W(h.m, x) != 0
    ensures StandsIn(h0, h, EdgeTo(h, x), c)
  {
    hide SlotSet, EdgeTo, IsForwarded, W;
    assert x in Slots(h0, c);
    assert IsNode(h0, EdgeTo(h0, x));
  }

  lemma SlotLeadsIn(h0: Heap, h: Heap, f: map<nat, nat>, c: set<nat>, o: nat, x: nat)
    requires f == Reps(h0, h) && Closed(h0, c) && o in f && o in c && SameObject(h0, h, f, o)
    requires f[o] <= x < f[o] + h.objs[f[o]].size && x in SlotSet(h, f[o])
    ensures StandsIn(h0, h, EdgeTo(h, x), c)
  {
    hide SlotSet, EdgeTo, IsForwarded, W;
    var k := x - f[o];
    assert SameWord(h0, h, f, o, k);
    assert o + k in SlotSet(h0, o) && o + k in Slots(h0, c);
    SlotSpan(h0, o, o + k);
    assert IsNode(h0, EdgeTo(h0, o + k));
  }

  lemma LeadsOnly(h0: Heap, h: Heap, black: set<nat>, older: set<nat>, x: nat)
    requires StandsFor(h0, h) && OnlyReached(h0, h, black, older) && x in Slots(h, black) && W(h.m, x) != 0
    ensures OnlyReached(h0, h, {EdgeTo(h, x)}, older)
  {
    hide StandsFor, Closed, MovedIn, CopiesIn, ImageIn, Slots, EdgeTo, W;
    forall c {:trigger Closed(h0, c)} | Closed(h0, c) && older <= c ensures MovedIn(h0, h, c) && CopiesIn(h0, h, c) && ImageIn(h0, h, {EdgeTo(h, x)}, c) {
      LeadsIn(h0, h, black, c, x);
      OneImage(h0, h, EdgeTo(h, x), c);
    }
  }

  /** Copying the node that a slot of the roots or of `black` leads to. */
  lemma PromoteOnly(h0: Heap, h: Heap, h': Heap, obj: nat, n: nat, g: nat, black: set<nat>, older: set<nat>, x: nat)
    requires StandsFor(h0, h) && OnlyReached(h0, h, black, older) && Evacuating(h, h', obj, n, g) && obj !in black
    requires x in Slots(h, black) && W(h.m, x) != 0 && obj == EdgeTo(h, x)
    ensures OnlyReached(h0, h', black + {n}, older)
  {
    hide StandsFor, Closed, MovedIn, CopiesIn, ImageIn, Evacuating, Slots, EdgeTo, W;
    forall c {:trigger Closed(h0, c)} | Closed(h0, c) && older <= c ensures MovedIn(h0, h', c) && CopiesIn(h0, h', c) && ImageIn(h0, h', black + {n}, c) {
      LeadsIn(h0, h, black, c, x);
      PromoteIn(h0, h, h', obj, n, g, black, c);
    }
  }

  lemma OneImage(h0: Heap, h: Heap, obj: nat, c: set<nat>)
    requires StandsIn(h0, h, obj, c)
    ensures ImageIn(h0, h, {obj}, c)
  {
    hide StandsIn;
  }

  lemma PromoteIn(h0: Heap, h: Heap, h': Heap, obj: nat, n: nat, g: nat, black: set<nat>, c: set<nat>)
    requires StandsFor(h0, h) && MovedIn(h0, h, c) && CopiesIn(h0, h, c) && ImageIn(h0, h, black, c) && StandsIn(h0, h, obj, c) && Evacuating(h, h', obj, n, g) && obj !in black
    ensures MovedIn(h0, h', c) && CopiesIn(h0, h', c) && ImageIn(h0, h', black + {n}, c)
  {
    hide HeapOk, IsNode, NodesAbove, IsPromoted, GenOf, SameObject, SameRoot;
    PromoteNew(h, h', obj, n, g);
    forall q | q in h.objs ensures q in h'.objs && h'.objs[q].rep == if h.objs[q].rep == obj then n else h.objs[q].rep { PromotedRep(h, h', obj, n, q); }
    var a: nat :| a in c && IsNode(h0, a) && a in h.objs && h.objs[a].rep == obj;
    NodeThere(h0, a);
    forall o {:trigger IsNode(h0, o)} | IsNode(h0, o) && o in h'.objs && h'.objs[o].rep != o ensures o in c {
      NodeThere(h0, o);
      assert o in h.objs;
      if h.objs[o].rep == obj { assert Reps(h0, h)[o] == Reps(h0, h)[a]; }
    }
    forall b {:trigger StandsIn(h0, h', b, c)} | b != obj && StandsIn(h0, h, b, c) ensures StandsIn(h0, h', b, c) {
      var o: nat :| o in c && IsNode(h0, o) && o in h.objs && h.objs[o].rep == b;
      assert h'.objs[o].rep == b;
    }
    assert StandsIn(h0, h', n, c) by { assert IsNode(h0, a) && h'.objs[a].rep == n; }
    PromotedKeys(h, h', obj, n);
    forall q {:trigger StandsIn(h0, h', q, c)} | q in h'.objs && q !in h0.objs && h'.objs[q].rep == q ensures StandsIn(h0, h', q, c) {
      if q != n { assert StandsIn(h0, h, q, c); }
    }
    forall b {:trigger StandsIn(h0, h', b, c)} | b in black + {n} ensures StandsIn(h0, h', b, c) {
      if b in black { assert StandsIn(h0, h, b, c); }
    }
  }

  /** Room is only ever used up. */
  lemma PromoteFull(h: Heap, h': Heap, obj: nat, n: nat, lists: seq<seq<nat>>, g: nat, from: nat, mid: nat, upto: nat)
    requires Evacuating(h, h', obj, n, g) && FullBefore(h, lists, g, from, mid, {}) && Passed(h.free, lists[g + 1], mid, upto, h.objs[obj].size)
    ensures FullBefore(h', lists, g, from, upto, {})
  {
    hide HeapOk, NodesAbove, GenOf, PoolOf, IsNode;
    PromoteNew(h, h', obj, n, g);
    NodeThere(h, obj);
    forall k {:trigger lists[g + 1][k]} | from <= k < upto && k < |lists[g + 1]| ensures TooSmall(h', lists[g + 1][k], g, {}) {
      var p := lists[g + 1][k];
      var o := obj;
      if k < mid {
        assert TooSmall(h, p, g, {});
        o :| o in h.objs && GenOf(h, o) <= g && (h.objs[o].rep != o || o in {}) && End(p) - h.free[p] < h.objs[o].size;
      }
      PromoteSmall(h, h', obj, n, g, p, o);
    }
  }

  lemma PromoteSmall(h: Heap, h': Heap, obj: nat, n: nat, g: nat, p: nat, o: nat)
    requires Evacuating(h, h', obj, n, g) && n !in h.objs && p < |h.free| && o in h.objs && GenOf(h, o) <= g && End(p) - h.free[p] < h.objs[o].size
    requires o == obj || h.objs[o].rep != o
    ensures TooSmall(h', p, g, {})
  {
    hide HeapOk, NodesAbove, GenOf, PoolOf, IsPromoted;
    PromotedRep(h, h', obj, n, o);
    PromotedGen(h, h', obj, n);
    GenAt(h, h', o);
    Promoting(h, h', obj, n);
    MovedRep(h, obj);
  }

  lemma PromotedKeys(h: Heap, h': Heap, obj: nat, n: nat)
    requires IsPromoted(h, h', obj, n)
    ensures forall q :: q in h'.objs ==> q == n || q in h.objs
  {
  }

  lemma PromotedGen(h: Heap, h': Heap, obj: nat, n: nat)
    requires IsPromoted(h, h', obj, n)
    ensures h'.gen == h.gen && |h'.free| == |h.free| && forall p :: 0 <= p < |h.free| ==> h.free[p] <= h'.free[p]
  {
  }

  lemma MovedRep(h: Heap, obj: nat)
    requires HeapOk(h) && IsNode(h, obj)
    ensures obj in h.objs && h.objs[obj].rep == obj
  {
    hide HeapOk, IsForwarded;
    NodeHeader(h, obj);
  }

  lemma PromoteSparing(h0: Heap, h: Heap, h': Heap, obj: nat, n: nat, g: nat, black: set<nat>, older: set<nat>, x: nat, lists: seq<seq<nat>>, from: nat, mid: nat, upto: nat)
    requires StandsFor(h0, h) && Sparing(h0, h, black, older, lists, g, from, mid) && Evacuating(h, h', obj, n, g) && obj !in black
    requires x in Slots(h, black) && W(h.m, x) != 0 && obj == EdgeTo(h, x) && g + 1 < |lists| && IsNode(h, obj) && Passed(h.free, lists[g + 1], mid, upto, h.objs[obj].size)
    ensures Sparing(h0, h', black + {n}, older, lists, g, from, upto)
  {
    hide StandsFor, OnlyReached, FullBefore, Evacuating, Slots, EdgeTo, W, Passed;
    PromoteOnly(h0, h, h', obj, n, g, black, older, x);
    PromoteFull(h, h', obj, n, lists, g, from, mid, upto);
  }

  /** An attempt that finds no room for what a slot leads to. */
  lemma StuckThere(h0: Heap, h: Heap, black: set<nat>, older: set<nat>, x: nat, lists: seq<seq<nat>>, g: nat, from: nat, cursor: nat, obj: nat)
    requires StandsFor(h0, h) && Sparing(h0, h, black, older, lists, g, from, cursor) && x in Slots(h, black) && W(h.m, x) != 0 && obj == EdgeTo(h, x)
    requires g + 1 < |lists| && IsNode(h, obj) && Passed(h.free, lists[g + 1], cursor, |lists[g + 1]|, h.objs[obj].size)
    requires GenOf(h, obj) <= g && NoRoom(h.free, lists[g + 1], h.objs[obj].size)
    ensures Overfull(h0, h, lists, g, from, older)
  {
    hide StandsFor, OnlyReached, FullBefore, Slots, EdgeTo, W, Passed, NoRoom, Overfull, IsNode, GenOf;
    LeadsOnly(h0, h, black, older, x);
    NoPlace(h0, h, lists, g, from, cursor, older, obj);
  }

  /** An attempt that finds no room. */
  lemma NoPlace(h0: Heap, h: Heap, lists: seq<seq<nat>>, g: nat, from: nat, cursor: nat, older: set<nat>, obj: nat)
    requires g + 1 < |lists| && IsNode(h, obj) && FullBefore(h, lists, g, from, cursor, {}) && Passed(h.free, lists[g + 1], cursor, |lists[g + 1]|, h.objs[obj].size)
    requires GenOf(h, obj) <= g && NoRoom(h.free, lists[g + 1], h.objs[obj].size) && OnlyReached(h0, h, {obj}, older)
    ensures Overfull(h0, h, lists, g, from, older)
  {
    hide OnlyReached, GenOf, NoRoom;
    forall k {:trigger lists[g + 1][k]} | from <= k < |lists[g + 1]| ensures TooSmall(h, lists[g + 1][k], g, {obj}) {
      if k < cursor { assert TooSmall(h, lists[g + 1][k], g, {}); }
    }
    assert IsStuck(h0, h, lists, g, from, older, obj);
  }
}
