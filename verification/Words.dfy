module Words {
  /** The word that points at memory word `a` (byte address; words are eight bytes). */
  function Ptr(a: nat): nat {
    8 * a
  }

  /** The word of memory at `x`. */
  function W(m: seq<int>, x: int): int {
    if 0 <= x < |m| then m[x] else 0
  }

  /** The address in a pointer word, whatever its two tag bits. */
  function Target(w: int): int {
    w / 8
  }

  predicate IsForwarded(w: int) {
    w % 2 == 1
  }

  function Forward(a: nat): nat {
    Ptr(a) + 1
  }

  predicate IsMarked(w: int) {
    w % 4 >= 2
  }

  /** Sets the mark bit of an unmarked word. */
  function Mark(w: int): int {
    if IsMarked(w) then w else w + 2
  }

  function Unmark(w: int): int {
    if IsMarked(w) then w - 2 else w
  }

  /** Tag bits and addresses do not disturb each other. */
  lemma TagBits(a: nat)
    ensures !IsMarked(Ptr(a)) && !IsForwarded(Ptr(a)) && Target(Ptr(a)) == a && Mark(Ptr(a)) == Ptr(a) + 2
    ensures IsMarked(Ptr(a) + 2) && !IsForwarded(Ptr(a) + 2) && Target(Ptr(a) + 2) == a && Unmark(Ptr(a) + 2) == Ptr(a)
    ensures IsForwarded(Forward(a)) && !IsMarked(Forward(a)) && Target(Forward(a)) == a && Unmark(Ptr(a)) == Ptr(a)
  {
    LowBits(a, 0);
    LowBits(a, 1);
    LowBits(a, 2);
  }

  lemma LowBits(a: nat, t: nat)
    requires t < 4
    ensures (Ptr(a) + t) % 2 == t % 2 && (Ptr(a) + t) % 4 == t && (Ptr(a) + t) / 8 == a
  {
    DivideBy8(a, t);
    ModuloOf4(2 * a, t);
    ModuloOf2(4 * a, t);
  }

  lemma DivideBy8(a: nat, t: nat)
    requires t < 8
    ensures (8 * a + t) / 8 == a
  {
  }

  lemma ModuloOf4(b: nat, t: nat)
    requires t < 4
    ensures (4 * b + t) % 4 == t
  {
  }

  lemma ModuloOf2(c: nat, t: nat)
    ensures (2 * c + t) % 2 == t % 2
  {
  }
}
