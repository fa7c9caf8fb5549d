/** What it means for a collection to preserve the object graph. */
module Isomorphism {
  import opened Words
  import opened Heaps
  import opened Graph

  /** The node at `o` and the node at `f[o]` look alike: same size, same pointer words, same data, and
      every pointer leads to the image of what it led to; and one serves as a descriptor if the other does. */
  ghost predicate SameObject(h: Heap, h': Heap, f: map<nat, nat>, o: nat)
    requires o in f
  {
    IsNode(h, o) && IsNode(h', f[o]) && h'.objs[f[o]].size == h.objs[o].size && h'.objs[f[o]].desc == h.objs[o].desc &&
    forall k {:trigger SameWord(h, h', f, o, k)} :: 0 <= k < h.objs[o].size ==> SameWord(h, h', f, o, k)
  }

  ghost predicate SameWord(h: Heap, h': Heap, f: map<nat, nat>, o: nat, k: nat)
    requires o in f
  {
    (o + k in SlotSet(h, o) <==> f[o] + k in SlotSet(h', f[o])) &&
    if o + k in SlotSet(h, o) then EdgeTo(h, o + k) in f && EdgeTo(h', f[o] + k) == f[EdgeTo(h, o + k)]
    else W(h'.m, f[o] + k) == W(h.m, o + k)
  }

  /** The root slot `r` leads to the image of what it led to. */
  ghost predicate SameRoot(h: Heap, h': Heap, f: map<nat, nat>, r: nat) {
    (W(h.m, r) == 0 <==> W(h'.m, r) == 0) &&
    (W(h.m, r) != 0 ==> EdgeTo(h, r) in f && EdgeTo(h', r) == f[EdgeTo(h, r)])
  }

  /** The nodes that `f` maps, as seen through the roots and through each other, are unchanged but for
      their addresses, and no two of them are merged. */
  ghost predicate Isomorphic(h: Heap, h': Heap, f: map<nat, nat>) {
    h'.roots == h.roots &&
    (forall o, q :: o in f && q in f && o != q ==> f[o] != f[q]) &&
    (forall o {:trigger SameObject(h, h', f, o)} :: o in f ==> SameObject(h, h', f, o)) &&
    (forall r {:trigger SameRoot(h, h', f, r)} :: r in RootSet(h) ==> SameRoot(h, h', f, r))
  }

  /** The nodes that `f` maps into `c`. */
  ghost function Preimage(f: map<nat, nat>, c: set<nat>): set<nat> {
    set o | o in f && f[o] in c
  }

  /** The preimage of a closed set is closed. */
  lemma PreimageClosed(h: Heap, h': Heap, f: map<nat, nat>, c: set<nat>)
    requires Isomorphic(h, h', f) && Closed(h', c)
    ensures Closed(h, Preimage(f, c))
  {
    hide SlotSet, IsNode, EdgeTo;
    forall x {:trigger EdgeTo(h, x)} | x in Slots(h, Preimage(f, c)) && W(h.m, x) != 0
      ensures EdgeTo(h, x) in Preimage(f, c)
    {
      if x in RootSet(h) {
        assert SameRoot(h, h', f, x);
        assert RootSet(h') == RootSet(h);
        assert EdgeTo(h', x) in c;
      } else {
        var o :| o in Preimage(f, c) && x in SlotSet(h, o);
        SlotSpan(h, o, x);
        assert SameObject(h, h', f, o);
        assert SameWord(h, h', f, o, x - o);
        var y := f[o] + (x - o);
        assert f[o] in c && y in SlotSet(h', f[o]);
        assert EdgeTo(h', y) in c by { SlotSpan(h', f[o], y); }
      }
    }
  }

  lemma SlotSpan(h: Heap, o: nat, x: nat)
    requires x in SlotSet(h, o)
    ensures o in h.objs && o <= x < o + h.objs[o].size && W(h.m, x) != 0
  {
  }

  /** The image of a closed set that `f` maps whole is closed. */
  lemma ImageClosed(h: Heap, h': Heap, f: map<nat, nat>)
    requires Isomorphic(h, h', f) && Closed(h, f.Keys)
    ensures Closed(h', f.Values)
  {
    hide SlotSet, IsNode, EdgeTo;
    forall y {:trigger EdgeTo(h', y)} | y in Slots(h', f.Values) && W(h'.m, y) != 0 ensures EdgeTo(h', y) in f.Values {
      if y in RootSet(h') {
        assert RootSet(h') == RootSet(h);
        assert SameRoot(h, h', f, y);
      } else {
        var q :| q in f.Values && y in SlotSet(h', q);
        var o :| o in f && f[o] == q;
        SlotSpan(h', q, y);
        assert SameObject(h, h', f, o);
        assert SameWord(h, h', f, o, y - q);
      }
    }
  }

  /** What was reachable is reachable, at its new place, and nothing else is. */
  lemma ReachableMoves(h: Heap, h': Heap, f: map<nat, nat>)
    requires Isomorphic(h, h', f) && IsReachable(h, f.Keys)
    ensures IsReachable(h', f.Values)
  {
    hide SlotSet, IsNode, EdgeTo, Slots;
    forall q | q in f.Values ensures IsNode(h', q) {
      var o :| o in f && f[o] == q;
      assert SameObject(h, h', f, o);
    }
    ImageClosed(h, h', f);
    forall c {:trigger Closed(h', c)} | Closed(h', c) ensures f.Values <= c {
      PreimageClosed(h, h', f, c);
      assert f.Keys <= Preimage(f, c);
    }
  }

  /** One collection after another. */
  ghost function Compose(f: map<nat, nat>, e: map<nat, nat>): map<nat, nat> {
    map o | o in f && f[o] in e :: e[f[o]]
  }

  lemma IsomorphicTrans(h: Heap, h': Heap, h'': Heap, f: map<nat, nat>, e: map<nat, nat>)
    requires Isomorphic(h, h', f) && Isomorphic(h', h'', e) && f.Values <= e.Keys
    ensures Compose(f, e).Keys == f.Keys && Isomorphic(h, h'', Compose(f, e))
  {
    hide SlotSet, EdgeTo;
    var d := Compose(f, e);
    forall o ensures o in f <==> o in d { if o in f { assert f[o] in f.Values; } }
    forall o {:trigger SameObject(h, h'', d, o)} | o in d ensures SameObject(h, h'', d, o) {
      assert SameObject(h, h', f, o) && SameObject(h', h'', e, f[o]);
      forall k {:trigger SameWord(h, h'', d, o, k)} | 0 <= k < h.objs[o].size ensures SameWord(h, h'', d, o, k) {
        assert SameWord(h, h', f, o, k) && SameWord(h', h'', e, f[o], k);
      }
    }
    assert RootSet(h') == RootSet(h);
    forall r {:trigger SameRoot(h, h'', d, r)} | r in RootSet(h) ensures SameRoot(h, h'', d, r) {
      assert SameRoot(h, h', f, r) && SameRoot(h', h'', e, r);
    }
  }
}
