/** The list of words still to be searched: a stack kept in chunks that are never given back. */
module Worklists {
  const CHUNK: nat := 1024

  class Chunk {
    var prev: Chunk?
    var next: Chunk?
    var used: nat
    const buf: array<int>

    constructor (prev: Chunk?)
      ensures this.prev == prev && next == null && used == 0 && buf.Length == CHUNK && fresh(buf)
    {
      this.prev, next, used := prev, null, 0;
      buf := new int[CHUNK];
    }
  }

  /** A full chunk: the `i`th thousand-odd words of the contents. */
  ghost predicate Piece(c: Chunk, contents: seq<int>, i: nat)
    reads c`used, c.buf
  {
    c.used == c.buf.Length == CHUNK && i * CHUNK + CHUNK <= |contents| && c.buf[..] == contents[i * CHUNK..i * CHUNK + CHUNK]
  }

  /** The words that a chunk which is being filled holds. */
  ghost predicate Rest(c: Chunk, contents: seq<int>, i: nat)
    reads c`used, c.buf
  {
    c.used <= c.buf.Length == CHUNK && |contents| == i * CHUNK + c.used && c.buf[..c.used] == contents[i * CHUNK..]
  }

  lemma SamePiece(c: Chunk, contents: seq<int>, contents': seq<int>, i: nat)
    requires Piece(c, contents, i) && i * CHUNK + CHUNK <= |contents'| && contents'[..i * CHUNK + CHUNK] == contents[..i * CHUNK + CHUNK]
    ensures Piece(c, contents', i)
  {
    assert contents[i * CHUNK..i * CHUNK + CHUNK] == contents[..i * CHUNK + CHUNK][i * CHUNK..];
    assert contents'[i * CHUNK..i * CHUNK + CHUNK] == contents'[..i * CHUNK + CHUNK][i * CHUNK..];
  }

  /** A full chunk that was being filled. */
  lemma RestIsPiece(c: Chunk, contents: seq<int>, i: nat)
    ensures Piece(c, contents, i) && |contents| == i * CHUNK + CHUNK <==> Rest(c, contents, i) && c.used == CHUNK
  {
    assert c.used == CHUNK == c.buf.Length ==> c.buf[..] == c.buf[..c.used];
    assert |contents| == i * CHUNK + CHUNK ==> contents[i * CHUNK..] == contents[i * CHUNK..i * CHUNK + CHUNK];
  }

  lemma RestLength(c: Chunk, contents: seq<int>, i: nat)
    requires Rest(c, contents, i)
    ensures |contents| == i * CHUNK + c.used
  {
  }

  lemma RestBegins(c: Chunk, contents: seq<int>, i: nat)
    requires c.used == 0 && c.buf.Length == CHUNK && |contents| == i * CHUNK
    ensures Rest(c, contents, i)
  {
  }

  ghost function At(chunks: seq<Chunk>, i: int): Chunk? {
    if 0 <= i < |chunks| then chunks[i] else null
  }

  /** Chunk `i` is linked both ways. */
  ghost predicate LinkOk(chunks: seq<Chunk>, i: nat)
    reads (if i < |chunks| then {chunks[i]} else {})`next, (if i < |chunks| then {chunks[i]} else {})`prev
  {
    i < |chunks| && chunks[i].next == At(chunks, i + 1) && chunks[i].prev == At(chunks, i - 1) && chunks[i].buf.Length == CHUNK
  }

  ghost predicate Apart(chunks: seq<Chunk>, i: nat, j: nat) {
    i < |chunks| && j < |chunks| && chunks[i] != chunks[j] && chunks[i].buf != chunks[j].buf
  }

  /** The chunks are linked, and share nothing. */
  ghost predicate Chain(chunks: seq<Chunk>)
    reads chunks`next, chunks`prev
  {
    (forall i: nat {:trigger LinkOk(chunks, i)} :: i < |chunks| ==> LinkOk(chunks, i)) &&
    forall i: nat, j: nat {:trigger Apart(chunks, i, j)} :: i < j < |chunks| ==> Apart(chunks, i, j)
  }

  /** One chunk more at the end. */
  lemma ChainGrows(was: seq<Chunk>, n: Chunk)
    requires was != [] && was[|was| - 1].next == n && was[|was| - 1].prev == At(was, |was| - 2) && was[|was| - 1].buf.Length == CHUNK
    requires n.next == null && n.prev == was[|was| - 1] && n.buf.Length == CHUNK
    requires forall i: nat {:trigger LinkOk(was, i)} :: i < |was| - 1 ==> LinkOk(was, i)
    requires forall i: nat {:trigger was[i].buf} :: i < |was| ==> was[i] != n && was[i].buf != n.buf
    requires forall i: nat, j: nat {:trigger Apart(was, i, j)} :: i < j < |was| ==> Apart(was, i, j)
    ensures Chain(was + [n])
  {
    var all := was + [n];
    assert forall k: int :: k < |was| ==> At(all, k) == At(was, k);
    assert At(all, |was|) == n && At(all, |was| + 1) == null;
    forall i: nat {:trigger LinkOk(all, i)} | i < |all| ensures LinkOk(all, i) {
      assert i < |was| - 1 ==> LinkOk(was, i);
      assert i < |was| ==> all[i] == was[i];
    }
    forall i: nat, j: nat {:trigger Apart(all, i, j)} | i < j < |all| ensures Apart(all, i, j) {
      assert all[i] == was[i];
      if j < |was| { assert Apart(was, i, j); } else { assert was[i].buf != n.buf; }
    }
  }

  class Worklist {
    const first: Chunk
    var current: Chunk
    ghost var chunks: seq<Chunk>
    ghost var at: nat
    ghost var contents: seq<int>

    /** Everything that makes up the list. */
    ghost function Repr(): set<object>
      reads this, chunks
    {
      {this} + (set c: object | c in chunks) + set c: Chunk | c in chunks :: c.buf as object
    }

    ghost predicate Linked()
      reads this`chunks, chunks`next, chunks`prev
    {
      Chain(chunks)
    }

    /** The chunks before the current one are full. */
    ghost predicate Stored()
      reads this, current, current.buf, chunks`used, set c: Chunk | c in chunks :: c.buf
    {
      at < |chunks| && chunks[0] == first && current == chunks[at] && Rest(current, contents, at) &&
      forall i {:trigger Piece(chunks[i], contents, i)} :: 0 <= i < at ==> Piece(chunks[i], contents, i)
    }

    /** Only the first chunk may be current and empty. */
    ghost predicate Valid()
      reads this, current, current.buf, chunks, set c: Chunk | c in chunks :: c.buf
    {
      Linked() && Stored() && (at > 0 ==> current.used > 0)
    }

    constructor ()
      ensures Valid() && contents == [] && fresh(Repr())
    {
      var c := new Chunk(null);
      first, current, chunks, at, contents := c, c, [c], 0, [];
      new;
      assert LinkOk([c], 0);
    }

    /** `TOSEARCH_INIT`: empties the list, whatever is in it. */
    method Init()
      requires Valid()
      modifies this, first
      ensures Valid() && contents == [] && chunks == old(chunks)
    {
      assert LinkOk(chunks, 0);
      hide Chain;
      current := first;
      current.used := 0;
      at, contents := 0, [];
    }

    /** Makes another chunk if the current one has none after it. */
    method Extend()
      requires Linked() && Stored()
      modifies this`chunks, current`next
      ensures Linked() && Stored() && at + 1 < |chunks|
      ensures old(chunks) <= chunks && forall i :: |old(chunks)| <= i < |chunks| ==> fresh(chunks[i]) && fresh(chunks[i].buf)
    {
      assert LinkOk(chunks, at);
      hide Piece, Rest, Chain;
      if current.next == null {
        assert forall i {:trigger chunks[i].buf} :: 0 <= i < |chunks| ==> allocated(chunks[i].buf);
        var n := new Chunk(current);
        Attach(n);
      }
    }

    /** Adds a chunk after the last one. */
    method Attach(n: Chunk)
      requires Linked() && Stored() && current.next == null && n.prev == current && n.next == null && n.buf.Length == CHUNK
      requires forall i: nat {:trigger chunks[i].buf} :: i < |chunks| ==> chunks[i] != n && chunks[i].buf != n.buf
      modifies this`chunks, current`next
      ensures Linked() && Stored() && at + 1 < |chunks| && chunks == old(chunks) + [n]
    {
      ghost var was := chunks;
      LastLink(was);
      hide Piece, Rest, LinkOk, Chain, Apart;
      current.next := n;
      chunks := chunks + [n];
      ChainGrows(was, n);
      StoredIn(was, n);
    }

    /** The current chunk, when no other follows, is the last. */
    lemma LastLink(cs: seq<Chunk>)
      requires cs == chunks && Linked() && Stored() && current.next == null
      ensures at == |cs| - 1 && current == cs[at] && current.prev == At(cs, |cs| - 2) && current.buf.Length == CHUNK
      ensures forall i: nat {:trigger LinkOk(cs, i)} :: i < |cs| - 1 ==> LinkOk(cs, i) && cs[i] != current
      ensures forall i: nat, j: nat {:trigger Apart(cs, i, j)} :: i < j < |cs| ==> Apart(cs, i, j)
    {
      hide Piece, Rest;
      assert LinkOk(cs, at);
      forall i: nat {:trigger LinkOk(cs, i)} | i < |cs| - 1 ensures LinkOk(cs, i) && cs[i] != current { assert Apart(cs, i, at); }
    }

    /** What is stored stays so when a chunk is added. */
    lemma StoredIn(was: seq<Chunk>, n: Chunk)
      requires chunks == was + [n] && at < |was| && was[0] == first && current == was[at] && Rest(current, contents, at)
      requires forall i {:trigger Piece(was[i], contents, i)} :: 0 <= i < at ==> Piece(was[i], contents, i)
      ensures Stored() && chunks[..|was|] == was
    {
      hide Piece, Rest;
      forall i {:trigger Piece(chunks[i], contents, i)} | 0 <= i < at ensures Piece(chunks[i], contents, i) { assert Piece(was[i], contents, i); }
    }

    /** What the next chunk is, and what it is not. */
    lemma NextIs(cs: seq<Chunk>)
      requires cs == chunks && Linked() && Stored() && current.used == CHUNK && at + 1 < |cs|
      ensures current.next == cs[at + 1] && cs[at + 1].buf.Length == CHUNK && |contents| == (at + 1) * CHUNK
      ensures forall i {:trigger Piece(cs[i], contents, i)} :: 0 <= i <= at ==>
        Piece(cs[i], contents, i) && cs[i] != cs[at + 1] && cs[i].buf != cs[at + 1].buf
    {
      hide Piece, Rest;
      assert LinkOk(cs, at) && LinkOk(cs, at + 1);
      RestIsPiece(current, contents, at);
      RestLength(current, contents, at);
      forall i {:trigger Piece(cs[i], contents, i)} | 0 <= i <= at
        ensures Piece(cs[i], contents, i) && cs[i] != cs[at + 1] && cs[i].buf != cs[at + 1].buf
      {
        assert Apart(cs, i, at + 1);
      }
    }

    /** `TOSEARCH_NEXT`: goes on to the next chunk, which is made if it has never been needed. */
    method NextChunk()
      requires Linked() && Stored() && current.used == CHUNK
      modifies this, chunks
      ensures Linked() && Stored() && current.used == 0
      ensures contents == old(contents) && old(chunks) <= chunks && forall i :: |old(chunks)| <= i < |chunks| ==> fresh(chunks[i]) && fresh(chunks[i].buf)
    {
      hide Piece, Rest, Chain;
      Extend();
      ghost var cs := chunks;
      NextIs(cs);
      label before:
      current := current.next;
      current.used := 0;
      at := at + 1;
      RestBegins(current, contents, at);
      forall i {:trigger Piece(cs[i], contents, i)} | 0 <= i < at ensures Piece(cs[i], contents, i) {
        assert old@before(Piece(cs[i], contents, i)) && cs[i] != current && cs[i].buf != current.buf;
      }
    }

    /** The current chunk is none of those before it. */
    lemma Earlier(cs: seq<Chunk>)
      requires cs == chunks && Linked() && Stored()
      ensures current.prev == At(cs, at - 1)
      ensures forall i {:trigger cs[i]} :: 0 <= i < at ==> cs[i] != current && cs[i].buf != current.buf
    {
      hide Piece, Rest;
      assert LinkOk(cs, at);
      forall i {:trigger cs[i]} | 0 <= i < at ensures cs[i] != current && cs[i].buf != current.buf {
        assert Apart(cs, i, at);
      }
    }

    /** Adds a word to the current chunk. */
    method Append(x: int)
      requires Linked() && Stored() && current.used < CHUNK
      modifies this, current, current.buf
      ensures Valid() && contents == old(contents) + [x] && chunks == old(chunks)
    {
      ghost var cs := chunks;
      Earlier(cs);
      hide Piece, Chain;
      ghost var longer := contents + [x];
      forall i {:trigger Piece(cs[i], longer, i)} | 0 <= i < at
        ensures Piece(cs[i], longer, i) && cs[i] != current && cs[i].buf != current.buf
      {
        assert Piece(cs[i], contents, i);
        assert i * CHUNK + CHUNK <= at * CHUNK;
        SamePiece(cs[i], contents, longer, i);
      }
      ghost var rest := current.buf[..current.used];
      current.buf[current.used] := x;
      assert current.buf[..current.used + 1] == rest + [x];
      current.used := current.used + 1;
      contents := longer;
    }

    /** `TOSEARCH_ADD`: one more word. */
    method Add(x: int)
      requires Valid()
      modifies Repr()
      ensures Valid() && contents == old(contents) + [x] && fresh(Repr() - old(Repr()))
    {
      assert current in chunks && current.buf in Repr() && current.used <= CHUNK;
      hide Linked, Stored, Chain;
      if current.used >= CHUNK {
        NextChunk();
      }
      Append(x);
    }

    /** `TOSEARCH_POP`: takes the newest word. */
    method Pop() returns (x: int)
      requires Valid() && contents != []
      modifies this, current
      ensures Valid() && contents == old(contents)[..|old(contents)| - 1] && x == old(contents)[|old(contents)| - 1] && chunks == old(chunks)
    {
      ghost var cs := chunks;
      Earlier(cs);
      hide Piece, Chain;
      ghost var shorter := contents[..|contents| - 1];
      assert 0 < current.used by { if at == 0 { assert |contents| == current.used; } }
      forall i {:trigger Piece(cs[i], shorter, i)} | 0 <= i < at
        ensures Piece(cs[i], shorter, i) && cs[i] != current && cs[i].buf != current.buf
      {
        assert Piece(cs[i], contents, i);
        assert i * CHUNK + CHUNK <= at * CHUNK;
        SamePiece(cs[i], contents, shorter, i);
      }
      ghost var rest := current.buf[..current.used];
      current.used := current.used - 1;
      x := current.buf[current.used];
      assert x == rest[|rest| - 1] && current.buf[..current.used] == rest[..|rest| - 1];
      contents := shorter;
      if current.used == 0 && current.prev != null {
        current := current.prev;
        at := at - 1;
        RestIsPiece(current, contents, at);
      }
    }

    /** Nothing is left exactly when the current chunk is empty. */
    method Empty() returns (r: bool)
      requires Valid()
      ensures r <==> contents == []
    {
      r := current.used == 0;
    }
  }
}
