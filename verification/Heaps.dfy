/** Pools of words, the objects in them, and what makes a heap well formed. */
module Heaps {
  import opened Words

  // Layout of the default configuration, in words: pools of 2^24 bytes aligned to their size, cards
  // of 2^12 bytes, and a pool header that ends inside the fourth card.
  function PoolOf(a: nat): nat { a / 0x20_0000 }
  function Base(p: nat): nat { p * 0x20_0000 }
  function Start(p: nat): nat { p * 0x20_0000 + 1543 }
  function End(p: nat): nat { (p + 1) * 0x20_0000 }

  /** An object: its size in words, the object that stands for it now (itself, unless it has been
      forwarded), and whether some object has it as its descriptor. */
  datatype Obj = Obj(size: nat, rep: nat, desc: bool)

  /** A picture of the heap: the words, how far each pool is filled, the generation of each pool, the
      objects by address, and the addresses of the root slots (which lie outside every pool). */
  datatype Heap = Heap(m: seq<int>, free: seq<nat>, gen: seq<nat>, objs: map<nat, Obj>, roots: seq<nat>)

  ghost predicate PoolsTiled(h: Heap) {
    |h.free| == |h.gen| && Base(|h.free|) < |h.m| &&
    forall p :: 0 <= p < |h.free| ==>
      Start(p) <= h.free[p] <= End(p) && h.gen[p] < 256 && (Start(p) == h.free[p] || Start(p) in h.objs)
  }

  /** The word just past an object. */
  ghost function Next(h: Heap, o: nat): nat
    requires o in h.objs
  {
    o + h.objs[o].size
  }

  /** An object lies in the filled part of a pool, and is followed by another or by the free space. */
  ghost predicate InPool(h: Heap, o: nat)
    requires o in h.objs
  {
    PoolOf(o) < |h.free| && Start(PoolOf(o)) <= o && 3 <= h.objs[o].size && Next(h, o) <= h.free[PoolOf(o)] &&
    (Next(h, o) == h.free[PoolOf(o)] || Next(h, o) in h.objs)
  }

  ghost predicate Below(h: Heap, o: nat, q: nat)
    requires o in h.objs
  {
    Next(h, o) <= q
  }

  ghost predicate ObjectsTiled(h: Heap) {
    (forall o {:trigger InPool(h, o)} :: o in h.objs ==> InPool(h, o)) &&
    (forall o, q {:trigger Below(h, o, q)} :: o in h.objs && q in h.objs && o < q ==> Below(h, o, q))
  }

  /** Every pool is an unbroken row of objects of at least three words, from its start to its free pointer. */
  ghost predicate Tiled(h: Heap) {
    PoolsTiled(h) && ObjectsTiled(h)
  }

  ghost function PoolGen(h: Heap, p: nat): nat {
    if p < |h.gen| then h.gen[p] else 0
  }

  /** The generation of the pool around `a`. */
  ghost function GenOf(h: Heap, a: nat): nat {
    PoolGen(h, PoolOf(a))
  }

  /** A forwarding pointer leads to an object of the same size in an older generation; every other
      header points at a descriptor whose second word is the object's size. */
  ghost predicate HeaderOk(h: Heap, o: nat)
    requires o in h.objs
  {
    var w, ob := W(h.m, o), h.objs[o];
    ob.rep in h.objs && h.objs[ob.rep].rep == ob.rep && h.objs[ob.rep].size == ob.size &&
    (ob.desc ==> h.objs[ob.rep].desc && W(h.m, ob.rep + 1) == W(h.m, o + 1)) &&
    if IsForwarded(w) then
      0 <= w && w == Forward(Target(w)) && Target(w) in h.objs && GenOf(h, o) < GenOf(h, Target(w)) &&
      ob.rep == h.objs[Target(w)].rep != o
    else
      0 <= w && w == Ptr(Target(w)) && Target(w) in h.objs && h.objs[Target(w)].desc &&
      ob.rep == o && W(h.m, Target(w) + 1) == ob.size
  }

  ghost predicate HeadersOk(h: Heap) {
    forall o {:trigger HeaderOk(h, o)} :: o in h.objs ==> HeaderOk(h, o)
  }

  /** The descriptor of an object that is not forwarded, itself followed to where it is now. */
  ghost function NewDesc(h: Heap, o: nat): nat
    requires o in h.objs && HeaderOk(h, o) && !IsForwarded(W(h.m, o))
  {
    h.objs[Target(W(h.m, o))].rep
  }

  /** Which words belong to the objects of `live`. */
  ghost predicate LiveMap(h: Heap, live: set<nat>, lv: seq<bool>) {
    |lv| == |h.m| &&
    (forall o, x :: o in h.objs && o <= x < o + h.objs[o].size && x < |lv| ==> (lv[x] <==> o in live)) &&
    (forall p, x :: 0 <= p < |h.free| && h.free[p] <= x < End(p) && x < |lv| ==> !lv[x])
  }

  lemma PoolOfBounds(p: nat, x: nat)
    requires Base(p) <= x < End(p)
    ensures PoolOf(x) == p
  {
  }

  lemma PoolBounds(h: Heap, p: nat)
    requires PoolsTiled(h) && p < |h.free|
    ensures End(p) < |h.m| && Start(p) <= h.free[p] <= End(p) && PoolGen(h, p) < 256
    ensures forall x :: Start(p) <= x < End(p) ==> PoolOf(x) == p
  {
    forall x | Start(p) <= x < End(p) ensures PoolOf(x) == p { PoolOfBounds(p, x); }
  }

  lemma ObjectBounds(h: Heap, o: nat)
    requires Tiled(h) && o in h.objs
    ensures InPool(h, o) && o + 3 <= Next(h, o) <= h.free[PoolOf(o)] && Next(h, o) < |h.m| && GenOf(h, o) < 256
  {
    hide PoolOf;
    assert InPool(h, o);
    PoolBounds(h, PoolOf(o));
  }

  /** The second word of an object is never the first word of one. */
  lemma NoSizeWordAtObject(h: Heap, o: nat)
    requires Tiled(h) && o in h.objs
    ensures forall d :: d in h.objs ==> d + 1 != o
  {
    hide PoolOf;
    forall d | d in h.objs ensures d + 1 != o {
      assert InPool(h, d);
      if d < o { assert Below(h, d, o); }
    }
  }

  lemma NextAbove(h: Heap, o: nat)
    requires Tiled(h) && o in h.objs
    ensures forall q :: q in h.objs && q < Next(h, o) ==> q <= o
    ensures forall q :: q in h.objs && o < q ==> Next(h, o) <= q
  {
    hide PoolOf;
    forall q | q in h.objs && o < q ensures Next(h, o) <= q { assert Below(h, o, q); }
  }
}
