/** The block headers of one executor's normal memory: what it means that they tile the mapped chunks,
    and the few header updates that allocation and release are made of. */
module Blocks {

  const DESC_SIZE := 48
  const GROW_SIZE := 4 * 1024 * 1024
  const MAX_SIZE := GROW_SIZE - 2 * DESC_SIZE
  const MIN_SPLIT := DESC_SIZE + 16
  // Offset of the dummy header that closes a chunk.
  const DUMMY := GROW_SIZE - DESC_SIZE

  /** A block header. total is the block's size, negative while the block is in use; prevFree is 0 or the
      size of the free block to the left; bin is the free list the block belongs or belonged to. */
  datatype Desc = Desc(total: int, prevFree: int, bin: int, ref: nat) {
    function Size(): nat { if total < 0 then -total else total }
  }

  // Headers by address, and the base addresses of the chunks they live in.
  type Heap = map<int, Desc>

  ghost predicate InChunk(a: int, c: int) { c <= a <= c + DUMMY }

  ghost predicate Housed(chunks: set<int>, a: int) {
    exists c :: c in chunks && InChunk(a, c)
  }

  ghost predicate IsDummy(chunks: set<int>, a: int) { a - DUMMY in chunks }

  ghost predicate Block(h: Heap, chunks: set<int>, a: int) { a in h && !IsDummy(chunks, a) }

  function End(h: Heap, a: int): int
    requires a in h
  {
    a + h[a].Size()
  }

  ghost predicate ChunksOk(h: Heap, chunks: set<int>) {
    (forall c {:trigger c in chunks} :: c in chunks ==> c in h && h[c].prevFree == 0 && c + DUMMY in h && h[c + DUMMY].total == -1)
    && (forall c, d :: c in chunks && d in chunks && c != d ==> c + GROW_SIZE <= d || d + GROW_SIZE <= c)
    && (forall a {:trigger Housed(chunks, a)} :: a in h ==> Housed(chunks, a))
  }

  // Blocks end where the next header stands, and no header lies inside a block.
  ghost predicate Adjacent(h: Heap, chunks: set<int>) {
    (forall a {:trigger Block(h, chunks, a)} :: Block(h, chunks, a) ==> h[a].Size() >= DESC_SIZE && End(h, a) in h)
    && (forall a, b {:trigger Block(h, chunks, a), b in h} :: Block(h, chunks, a) && b in h && a < b ==> End(h, a) <= b)
  }

  // The tag behind block a is 0, or the exact size of a and then a is free.
  ghost predicate TagOk(h: Heap, a: int)
    requires a in h && End(h, a) in h
  {
    h[End(h, a)].prevFree == 0 || (h[a].total > 0 && h[End(h, a)].prevFree == h[a].total)
  }

  ghost predicate TagsOkBut(h: Heap, chunks: set<int>, x: int)
    requires Adjacent(h, chunks)
  {
    forall a {:trigger Block(h, chunks, a)} :: Block(h, chunks, a) && a != x ==> TagOk(h, a)
  }

  // Everything but the tag behind x, which is being updated.
  ghost predicate TiledBut(h: Heap, chunks: set<int>, x: int) {
    ChunksOk(h, chunks) && Adjacent(h, chunks) && TagsOkBut(h, chunks, x)
  }

  ghost predicate Tiled(h: Heap, chunks: set<int>) {
    ChunksOk(h, chunks) && Adjacent(h, chunks) && forall a {:trigger Block(h, chunks, a)} :: Block(h, chunks, a) ==> TagOk(h, a)
  }

  // The blocks in use.
  ghost predicate Live(h: Heap, chunks: set<int>, a: int) { Block(h, chunks, a) && h[a].total < 0 }

  // ----- what tiling means for the user

  lemma EndInChunk(h: Heap, chunks: set<int>, a: int, c: int)
    requires ChunksOk(h, chunks) && Adjacent(h, chunks) && Block(h, chunks, a) && c in chunks && InChunk(a, c)
    ensures a < c + DUMMY && InChunk(End(h, a), c)
  {
    assert a != c + DUMMY;
  }

  /** Two blocks never share an address. */
  lemma BlocksDisjoint(h: Heap, chunks: set<int>, a: int, b: int)
    requires Tiled(h, chunks) && Block(h, chunks, a) && Block(h, chunks, b) && a != b
    ensures End(h, a) <= b || End(h, b) <= a
  {}

  /** Every address of a chunk below its dummy header lies in a block. */
  lemma {:induction false} BlocksCover(h: Heap, chunks: set<int>, c: int, x: int, from: int) returns (a: int)
    requires Tiled(h, chunks) && c in chunks && c <= x < c + DUMMY
    requires from in h && InChunk(from, c) && from <= x
    ensures Block(h, chunks, a) && a <= x < End(h, a)
    decreases x - from
  {
    NotDummyBefore(h, chunks, c, from);
    assert Block(h, chunks, from);
    if x < End(h, from) {
      a := from;
    } else {
      EndInChunk(h, chunks, from, c);
      a := BlocksCover(h, chunks, c, x, End(h, from));
    }
  }

  lemma NotDummyBefore(h: Heap, chunks: set<int>, c: int, a: int)
    requires ChunksOk(h, chunks) && c in chunks && InChunk(a, c) && a < c + DUMMY
    ensures !IsDummy(chunks, a)
  {
    if IsDummy(chunks, a) { assert false; }
  }

  /** A nonzero tag always belongs to the block directly to the left, which is free and of exactly that size. */
  lemma TagTellsLeftBlock(h: Heap, chunks: set<int>, b: int) returns (a: int)
    requires Tiled(h, chunks) && b in h && h[b].prevFree != 0
    ensures a == b - h[b].prevFree && Block(h, chunks, a) && h[a].total == h[b].prevFree > 0 && End(h, a) == b
  {
    assert Housed(chunks, b);
    var c :| c in chunks && InChunk(b, c);
    assert b != c;
    a := BlocksCover(h, chunks, c, b - 1, c);
    assert Housed(chunks, a);
    var c' :| c' in chunks && InChunk(a, c');
    assert c' == c;
    EndInChunk(h, chunks, a, c);
    assert TagOk(h, a);
  }

  // ----- header updates

  // An update that keeps every block's extent keeps the tiling, tags aside.
  lemma SameExtents(h: Heap, h': Heap, chunks: set<int>)
    requires ChunksOk(h, chunks) && Adjacent(h, chunks)
    requires h'.Keys == h.Keys && forall b {:trigger h'[b]} :: b in h ==> h'[b].Size() == h[b].Size()
    requires forall c {:trigger c in chunks} :: c in chunks ==> h'[c].prevFree == 0 && h'[c + DUMMY].total == -1
    ensures ChunksOk(h', chunks) && Adjacent(h', chunks)
  {
    forall b | Block(h', chunks, b) ensures h'[b].Size() >= DESC_SIZE && End(h', b) in h' {
      assert Block(h, chunks, b);
    }
    forall b, d | Block(h', chunks, b) && d in h' && b < d ensures End(h', b) <= d {
      assert Block(h, chunks, b);
    }
  }

  function Split(h: Heap, a: int, actual: int): Heap
    requires a in h && a + h[a].total in h
  {
    var rest := h[a].total - actual;
    h[a := h[a].(total := rest)]
     [a + rest := Desc(-actual, rest, h[a].bin, 1)]
     [a + h[a].total := h[a + h[a].total].(prevFree := 0)]
  }

  ghost predicate Splittable(h: Heap, chunks: set<int>, a: int, actual: int) {
    ChunksOk(h, chunks) && Adjacent(h, chunks) && Block(h, chunks, a)
    && DESC_SIZE <= actual && h[a].total - actual >= MIN_SPLIT
  }

  // The new block starts where no header stood, inside the chunk of the block it is cut from.
  lemma SplitFresh(h: Heap, chunks: set<int>, a: int, actual: int)
    requires Splittable(h, chunks, a, actual)
    ensures End(h, a) in h && End(h, a) == a + h[a].total
    ensures var u := a + h[a].total - actual;
            u !in h && u !in chunks && !IsDummy(chunks, u) && Housed(chunks, u)
    ensures End(h, a) !in chunks && (IsDummy(chunks, End(h, a)) ==> h[End(h, a)].total == -1)
  {
    var u := a + h[a].total - actual;
    assert Housed(chunks, a);
    var c :| c in chunks && InChunk(a, c);
    EndInChunk(h, chunks, a, c);
    NotDummyBefore(h, chunks, c, u);
    assert InChunk(u, c);
    assert u !in h;
  }

  lemma SplitChunks(h: Heap, chunks: set<int>, a: int, actual: int)
    requires Splittable(h, chunks, a, actual)
    ensures End(h, a) in h && ChunksOk(Split(h, a, actual), chunks)
  {
    SplitFresh(h, chunks, a, actual);
    forall b {:trigger Housed(chunks, b)} | b in Split(h, a, actual) ensures Housed(chunks, b) {}
  }

  lemma SplitEnd(h: Heap, chunks: set<int>, a: int, actual: int, b: int)
    requires Splittable(h, chunks, a, actual) && End(h, a) in h && Block(Split(h, a, actual), chunks, b)
    ensures Split(h, a, actual)[b].Size() >= DESC_SIZE && End(Split(h, a, actual), b) in Split(h, a, actual)
  {
    SplitFresh(h, chunks, a, actual);
    if b != a + h[a].total - actual { assert Block(h, chunks, b); }
  }

  lemma SplitOrder(h: Heap, chunks: set<int>, a: int, actual: int, b: int, d: int)
    requires Splittable(h, chunks, a, actual) && End(h, a) in h && Block(Split(h, a, actual), chunks, b)
    requires d in Split(h, a, actual) && b < d
    ensures End(Split(h, a, actual), b) <= d
  {
    SplitFresh(h, chunks, a, actual);
    var u := a + h[a].total - actual;
    if b == u {
      assert d in h;
    } else {
      assert Block(h, chunks, b);
      assert d == u || d in h;
      assert a in h;
    }
  }

  lemma SplitAdjacent(h: Heap, chunks: set<int>, a: int, actual: int)
    requires Splittable(h, chunks, a, actual) && End(h, a) in h
    ensures Adjacent(Split(h, a, actual), chunks)
  {
    SplitFresh(h, chunks, a, actual);
    assert Block(h, chunks, a);
    hide Split, Splittable, ChunksOk;
    var h' := Split(h, a, actual);
    forall b | Block(h', chunks, b) ensures h'[b].Size() >= DESC_SIZE && End(h', b) in h' {
      SplitEnd(h, chunks, a, actual, b);
    }
    forall b, d | Block(h', chunks, b) && d in h' && b < d ensures End(h', b) <= d {
      SplitOrder(h, chunks, a, actual, b, d);
    }
  }

  lemma SplitTiled(h: Heap, chunks: set<int>, a: int, actual: int)
    requires Tiled(h, chunks) && Splittable(h, chunks, a, actual)
    ensures End(h, a) in h && Tiled(Split(h, a, actual), chunks)
    ensures a + h[a].total - actual !in h && Live(Split(h, a, actual), chunks, a + h[a].total - actual)
  {
    SplitFresh(h, chunks, a, actual);
    SplitChunks(h, chunks, a, actual);
    SplitAdjacent(h, chunks, a, actual);
    var h' := Split(h, a, actual);
    var u := a + h[a].total - actual;
    forall b | Block(h', chunks, b) ensures TagOk(h', b) {
      if b != u && b != a {
        assert Block(h, chunks, b) && TagOk(h, b);
      }
    }
  }

  function Take(h: Heap, a: int): Heap
    requires a in h && a + h[a].total in h
  {
    h[a + h[a].total := h[a + h[a].total].(prevFree := 0)][a := h[a].(total := -h[a].total, prevFree := 0, ref := 1)]
  }

  lemma TakeTiled(h: Heap, chunks: set<int>, a: int)
    requires Tiled(h, chunks) && Block(h, chunks, a) && h[a].total > 0
    ensures End(h, a) in h && Tiled(Take(h, a), chunks) && Live(Take(h, a), chunks, a)
  {
    var h' := Take(h, a);
    assert h'.Keys == h.Keys;
    assert !IsDummy(chunks, a) && (IsDummy(chunks, End(h, a)) ==> h[End(h, a)].total == -1);
    SameExtents(h, h', chunks);
    forall b | Block(h', chunks, b) ensures TagOk(h', b) {
      assert Block(h, chunks, b) && TagOk(h, b);
    }
  }

  // The block turns free; nothing else is touched.
  function Release(h: Heap, a: int): Heap
    requires a in h
  {
    h[a := h[a].(total := -h[a].total, ref := 0)]
  }

  lemma ReleaseTiled(h: Heap, chunks: set<int>, a: int)
    requires Tiled(h, chunks) && Live(h, chunks, a)
    ensures Tiled(Release(h, a), chunks)
  {
    var h' := Release(h, a);
    assert h'.Keys == h.Keys;
    SameExtents(h, h', chunks);
    forall b | Block(h', chunks, b) ensures TagOk(h', b) {
      assert Block(h, chunks, b) && TagOk(h, b);
    }
  }

  // Block n, directly behind the free block x and free itself, becomes part of x.
  function Absorb(h: Heap, x: int, n: int): Heap
    requires x in h && n in h
  {
    (h - {n})[x := h[x].(total := h[x].total + h[n].total)]
  }

  ghost predicate Absorbable(h: Heap, chunks: set<int>, x: int, n: int) {
    ChunksOk(h, chunks) && Adjacent(h, chunks) && Block(h, chunks, x) && Block(h, chunks, n)
    && h[x].total > 0 && h[n].total > 0 && n == End(h, x)
  }

  lemma AbsorbChunks(h: Heap, chunks: set<int>, x: int, n: int)
    requires Absorbable(h, chunks, x, n)
    ensures ChunksOk(Absorb(h, x, n), chunks) && Block(Absorb(h, x, n), chunks, x)
    ensures End(Absorb(h, x, n), x) == End(h, n) && End(h, n) != n
  {
    assert Housed(chunks, x);
    var c :| c in chunks && InChunk(x, c);
    EndInChunk(h, chunks, x, c);
    assert n !in chunks;
    forall b {:trigger Housed(chunks, b)} | b in Absorb(h, x, n) ensures Housed(chunks, b) {}
  }

  lemma AbsorbPoint(h: Heap, chunks: set<int>, x: int, n: int, b: int, d: int)
    requires Absorbable(h, chunks, x, n) && Block(Absorb(h, x, n), chunks, b)
    ensures Absorb(h, x, n)[b].Size() >= DESC_SIZE && End(Absorb(h, x, n), b) in Absorb(h, x, n)
    ensures d in Absorb(h, x, n) && b < d ==> End(Absorb(h, x, n), b) <= d
  {
    assert Block(h, chunks, b);
  }

  lemma AbsorbAdjacent(h: Heap, chunks: set<int>, x: int, n: int)
    requires Absorbable(h, chunks, x, n)
    ensures Adjacent(Absorb(h, x, n), chunks)
  {
    hide Absorb, Absorbable, ChunksOk;
    assert x in h && n in h by { AbsorbKeys(h, chunks, x, n); }
    var h' := Absorb(h, x, n);
    forall b | Block(h', chunks, b) ensures h'[b].Size() >= DESC_SIZE && End(h', b) in h' {
      AbsorbPoint(h, chunks, x, n, b, b);
    }
    forall b, d | Block(h', chunks, b) && d in h' && b < d ensures End(h', b) <= d {
      AbsorbPoint(h, chunks, x, n, b, d);
    }
  }

  lemma AbsorbKeys(h: Heap, chunks: set<int>, x: int, n: int)
    requires Absorbable(h, chunks, x, n)
    ensures x in h && n in h
  {}

  lemma AbsorbTiled(h: Heap, chunks: set<int>, x: int, n: int, skip: int)
    requires TiledBut(h, chunks, skip) && (skip == x || skip == n) && Absorbable(h, chunks, x, n)
    ensures TiledBut(Absorb(h, x, n), chunks, x) && Block(Absorb(h, x, n), chunks, x)
    ensures End(Absorb(h, x, n), x) == End(h, n)
  {
    AbsorbChunks(h, chunks, x, n);
    AbsorbAdjacent(h, chunks, x, n);
    var h' := Absorb(h, x, n);
    forall b | Block(h', chunks, b) && b != x ensures TagOk(h', b) {
      assert Block(h, chunks, b) && TagOk(h, b);
    }
  }

  // The tag behind the free block x is brought up to date.
  function SetTag(h: Heap, x: int): Heap
    requires x in h && End(h, x) in h
  {
    h[End(h, x) := h[End(h, x)].(prevFree := h[x].total)]
  }

  lemma SetTagTiled(h: Heap, chunks: set<int>, x: int)
    requires TiledBut(h, chunks, x) && Block(h, chunks, x) && h[x].total > 0
    ensures Tiled(SetTag(h, x), chunks)
  {
    var h' := SetTag(h, x);
    var n := End(h, x);
    assert h'.Keys == h.Keys;
    assert Housed(chunks, x);
    var c :| c in chunks && InChunk(x, c);
    EndInChunk(h, chunks, x, c);
    assert n !in chunks;
    SameExtents(h, h', chunks);
    forall b | Block(h', chunks, b) ensures TagOk(h', b) {
      assert Block(h, chunks, b);
      if b != x {
        assert TagOk(h, b);
        if b < x { assert End(h, b) <= x; } else { assert n <= b; }
      }
    }
  }

  // A freshly mapped chunk: one free block and the dummy header.
  function Grow(h: Heap, c: int): Heap {
    h[c := Desc(DUMMY, 0, 0, 1)][c + DUMMY := Desc(-1, DUMMY, 0, 0)]
  }

  ghost predicate Fresh(chunks: set<int>, c: int) {
    forall d :: d in chunks ==> c + GROW_SIZE <= d || d + GROW_SIZE <= c
  }

  // The new chunk lies apart from every header there is.
  lemma GrowApart(h: Heap, chunks: set<int>, c: int, b: int)
    requires ChunksOk(h, chunks) && Fresh(chunks, c) && b in h
    ensures b + DESC_SIZE <= c || b >= c + GROW_SIZE
  {
    assert Housed(chunks, b);
  }

  lemma GrowFresh(h: Heap, chunks: set<int>, c: int)
    requires ChunksOk(h, chunks) && Fresh(chunks, c)
    ensures c !in h && c + DUMMY !in h && c !in chunks && !IsDummy(chunks, c)
  {
    if c in h { GrowApart(h, chunks, c, c); }
    if c + DUMMY in h { GrowApart(h, chunks, c, c + DUMMY); }
    assert Fresh(chunks, c);
  }

  lemma GrowHoused(h: Heap, chunks: set<int>, c: int, b: int)
    requires ChunksOk(h, chunks) && b in Grow(h, c)
    ensures Housed(chunks + {c}, b)
  {
    if b in h {
      assert Housed(chunks, b);
      var d :| d in chunks && InChunk(b, d);
      assert d in chunks + {c};
    } else {
      assert c in chunks + {c} && InChunk(b, c);
    }
  }

  lemma GrowChunks(h: Heap, chunks: set<int>, c: int)
    requires ChunksOk(h, chunks) && Fresh(chunks, c)
    ensures ChunksOk(Grow(h, c), chunks + {c})
  {
    GrowFresh(h, chunks, c);
    forall b {:trigger Housed(chunks + {c}, b)} | b in Grow(h, c) ensures Housed(chunks + {c}, b) {
      GrowHoused(h, chunks, c, b);
    }
  }

  lemma GrowBlock(h: Heap, chunks: set<int>, c: int, b: int)
    requires ChunksOk(h, chunks) && Fresh(chunks, c)
    ensures Block(Grow(h, c), chunks + {c}, b) <==> Block(h, chunks, b) || b == c
  {
    GrowFresh(h, chunks, c);
    if b in h { GrowApart(h, chunks, c, b); }
  }

  lemma GrowPoint(h: Heap, chunks: set<int>, c: int, b: int)
    requires Tiled(h, chunks) && Fresh(chunks, c) && Block(Grow(h, c), chunks + {c}, b)
    ensures Grow(h, c)[b].Size() >= DESC_SIZE && End(Grow(h, c), b) in Grow(h, c) && TagOk(Grow(h, c), b)
  {
    GrowFresh(h, chunks, c);
    GrowBlock(h, chunks, c, b);
    if b != c {
      assert Block(h, chunks, b) && TagOk(h, b);
    }
  }

  lemma GrowTiled(h: Heap, chunks: set<int>, c: int)
    requires Tiled(h, chunks) && Fresh(chunks, c)
    ensures c !in h && c + DUMMY !in h && Tiled(Grow(h, c), chunks + {c})
    ensures forall a {:trigger Block(Grow(h, c), chunks + {c}, a)} ::
              Block(Grow(h, c), chunks + {c}, a) <==> Block(h, chunks, a) || a == c
  {
    GrowFresh(h, chunks, c);
    GrowChunks(h, chunks, c);
    var h', chunks' := Grow(h, c), chunks + {c};
    hide Grow, ChunksOk, Fresh;
    forall b | Block(h', chunks', b) ensures h'[b].Size() >= DESC_SIZE && End(h', b) in h' {
      GrowPoint(h, chunks, c, b);
    }
    forall b, d | Block(h', chunks', b) && d in h' && b < d ensures End(h', b) <= d {
      GrowBlock(h, chunks, c, b);
      GrowOrder(h, chunks, c, b, d);
    }
    forall b | Block(h', chunks', b) ensures TagOk(h', b) {
      GrowPoint(h, chunks, c, b);
    }
    forall b ensures Block(h', chunks', b) <==> Block(h, chunks, b) || b == c {
      GrowBlock(h, chunks, c, b);
    }
  }

  lemma GrowOrder(h: Heap, chunks: set<int>, c: int, b: int, d: int)
    requires ChunksOk(h, chunks) && Adjacent(h, chunks) && Fresh(chunks, c) && b < d
    requires (Block(h, chunks, b) || b == c) && d in Grow(h, c)
    ensures b in Grow(h, c) && End(Grow(h, c), b) <= d
  {
    if b == c {
      if d in h { GrowApart(h, chunks, c, d); }
    } else {
      GrowApart(h, chunks, c, b);
      if d !in h {
        assert End(h, b) in h;
        GrowApart(h, chunks, c, End(h, b));
        assert Housed(chunks, b);
        var e :| e in chunks && InChunk(b, e);
        EndInChunk(h, chunks, b, e);
      }
    }
  }

  // A chunk that is one free block is unmapped.
  function Unmap(h: Heap, c: int): Heap { h - {c, c + DUMMY} }

  lemma WholeChunk(h: Heap, chunks: set<int>, x: int)
    requires Tiled(h, chunks) && Block(h, chunks, x) && h[x].total == DUMMY
    ensures x in chunks
  {
    assert Housed(chunks, x);
    var c :| c in chunks && InChunk(x, c);
    EndInChunk(h, chunks, x, c);
  }

  // Everything but the chunk's two headers lives in another chunk.
  lemma UnmapApart(h: Heap, chunks: set<int>, c: int, b: int) returns (d: int)
    requires ChunksOk(h, chunks) && Adjacent(h, chunks) && c in chunks && Block(h, chunks, c) && h[c].total == DUMMY
    requires b in h && b != c && b != c + DUMMY
    ensures d in chunks && d != c && InChunk(b, d)
  {
    assert Housed(chunks, b);
    d :| d in chunks && InChunk(b, d);
    assert b > c ==> End(h, c) <= b;
  }

  lemma UnmapChunks(h: Heap, chunks: set<int>, c: int)
    requires ChunksOk(h, chunks) && Adjacent(h, chunks) && c in chunks && Block(h, chunks, c) && h[c].total == DUMMY
    ensures ChunksOk(Unmap(h, c), chunks - {c})
  {
    forall b {:trigger Housed(chunks - {c}, b)} | b in Unmap(h, c) ensures Housed(chunks - {c}, b) {
      var d := UnmapApart(h, chunks, c, b);
      assert d in chunks - {c};
    }
  }

  lemma UnmapBlock(h: Heap, chunks: set<int>, c: int, b: int)
    requires ChunksOk(h, chunks) && Adjacent(h, chunks) && c in chunks && Block(h, chunks, c) && h[c].total == DUMMY
    ensures Block(Unmap(h, c), chunks - {c}, b) <==> Block(h, chunks, b) && b != c
  {
    assert IsDummy(chunks, c + DUMMY);
  }

  lemma UnmapPoint(h: Heap, chunks: set<int>, c: int, b: int, e: int)
    requires Tiled(h, chunks) && c in chunks && Block(h, chunks, c) && h[c].total == DUMMY
    requires Block(Unmap(h, c), chunks - {c}, b)
    ensures Unmap(h, c)[b].Size() >= DESC_SIZE && End(Unmap(h, c), b) in Unmap(h, c) && TagOk(Unmap(h, c), b)
    ensures e in Unmap(h, c) && b < e ==> End(Unmap(h, c), b) <= e
  {
    UnmapBlock(h, chunks, c, b);
    var d := UnmapApart(h, chunks, c, b);
    EndInChunk(h, chunks, b, d);
    assert TagOk(h, b);
  }

  lemma UnmapTiled(h: Heap, chunks: set<int>, c: int)
    requires Tiled(h, chunks) && c in chunks && Block(h, chunks, c) && h[c].total == DUMMY
    ensures Tiled(Unmap(h, c), chunks - {c})
    ensures forall a {:trigger Block(Unmap(h, c), chunks - {c}, a)} ::
              Block(Unmap(h, c), chunks - {c}, a) <==> Block(h, chunks, a) && a != c
  {
    UnmapChunks(h, chunks, c);
    var h', chunks' := Unmap(h, c), chunks - {c};
    hide Unmap, ChunksOk;
    forall b | Block(h', chunks', b) ensures h'[b].Size() >= DESC_SIZE && End(h', b) in h' {
      UnmapPoint(h, chunks, c, b, b);
    }
    forall b, d | Block(h', chunks', b) && d in h' && b < d ensures End(h', b) <= d {
      UnmapPoint(h, chunks, c, b, d);
    }
    forall b | Block(h', chunks', b) ensures TagOk(h', b) {
      UnmapPoint(h, chunks, c, b, b);
    }
    forall b ensures Block(h', chunks', b) <==> Block(h, chunks, b) && b != c {
      UnmapBlock(h, chunks, c, b);
    }
  }
}
