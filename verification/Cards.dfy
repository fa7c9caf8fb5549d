/** Cards: the 512-word pieces of a pool, numbered through all pools, 4096 to a pool. */
module Cards {
  import opened Heaps

  /** The card of `a` within its pool; an address just past a pool reads as card 0. */
  function CardIn(a: nat): nat {
    a % 0x20_0000 / 512
  }

  /** The offset of `a` in its card. */
  function InnerOf(a: nat): nat {
    a % 512
  }

  /** The global number of card `c` of pool `p`. */
  function CardNo(p: nat, c: nat): nat {
    p * 4096 + c
  }

  lemma CardBounds(p: nat, a: nat)
    requires Base(p) <= a < End(p)
    ensures CardIn(a) < 4096 && InnerOf(a) < 512
    ensures Base(p) + CardIn(a) * 512 + InnerOf(a) == a
  {
  }

  /** The card table leads from the card of `q` to a start in that card that is not above `q`. */
  ghost predicate FirstAt(first: seq<nat>, p: nat, starts: set<nat>, q: nat) {
    CardNo(p, CardIn(q)) < |first| &&
    FirstStart(first, p, CardIn(q)) in starts && FirstStart(first, p, CardIn(q)) <= q
  }

  /** Where the card table says the first object of card `c` of pool `p` starts. */
  ghost function FirstStart(first: seq<nat>, p: nat, c: nat): nat {
    if CardNo(p, c) < |first| then Base(p) + c * 512 + first[CardNo(p, c)] else 0
  }

  /** The card table is right for every card in which one of `starts` lies. */
  ghost predicate FirstsOk(first: seq<nat>, p: nat, starts: set<nat>) {
    forall q {:trigger FirstAt(first, p, starts, q)} :: q in starts ==> FirstAt(first, p, starts, q)
  }

  /** The starts noted so far reach up to the card `last`, or there are none yet. */
  ghost predicate UpToCard(p: nat, starts: set<nat>, last: int) {
    forall q :: q in starts ==> Base(p) <= q < End(p) && CardIn(q) <= last
  }

  /** Noting the next start upwards: its card's entry is set when the card is a new one. */
  lemma NoteStart(first: seq<nat>, p: nat, starts: set<nat>, last: int, q: nat)
    requires FirstsOk(first, p, starts) && UpToCard(p, starts, last) && Base(p) <= q < End(p) && last <= CardIn(q)
    requires last == CardIn(q) ==> exists r :: r in starts && CardIn(r) == last
    requires forall r :: r in starts ==> r <= q
    requires CardNo(p, 4096) <= |first| && CardIn(q) < 4096
    ensures var first' := if CardIn(q) == last then first else first[CardNo(p, CardIn(q)) := InnerOf(q)];
      FirstsOk(first', p, starts + {q})
  {
    hide CardIn, InnerOf;
    CardBounds(p, q);
    var first' := if CardIn(q) == last then first else first[CardNo(p, CardIn(q)) := InnerOf(q)];
    forall r {:trigger FirstAt(first', p, starts + {q}, r)} | r in starts + {q} ensures FirstAt(first', p, starts + {q}, r) {
      if CardIn(q) == last {
        var s :| s in starts && CardIn(s) == last;
        assert FirstAt(first, p, starts, s);
        assert r in starts ==> FirstAt(first, p, starts, r);
      } else {
        assert r in starts ==> FirstAt(first, p, starts, r);
      }
    }
  }

  lemma CardSmall(a: nat)
    ensures CardIn(a) < 4096
  {
  }

  /** A first-object table stays right while only other pools' cards change. */
  lemma FirstsFrame(p: nat, q: nat, a: seq<nat>, b: seq<nat>, starts: set<nat>)
    requires FirstsOk(a, q, starts) && OtherCards(p, a, b) && p != q
    ensures FirstsOk(b, q, starts)
  {
    hide CardIn;
    forall r {:trigger FirstAt(b, q, starts, r)} | r in starts ensures FirstAt(b, q, starts, r) {
      assert FirstAt(a, q, starts, r);
      CardSmall(r);
      assert b[CardNo(q, CardIn(r))] == a[CardNo(q, CardIn(r))];
    }
  }

  lemma CardMonotone(p: nat, a: nat, b: nat)
    requires Base(p) <= a <= b < End(p)
    ensures CardIn(a) <= CardIn(b)
  {
    CardBounds(p, a);
    CardBounds(p, b);
  }

  /** The card tables of all pools but `p` are unchanged. */
  ghost predicate OtherCards<T(!new)>(p: nat, a: seq<T>, b: seq<T>) {
    |a| == |b| && forall c {:trigger b[c]} :: 0 <= c < |a| && !(CardNo(p, 0) <= c < CardNo(p, 4096)) ==> b[c] == a[c]
  }
}
