/** What one allocation and one release do to the headers: which block serves a request, where the free block ends up
    that a release leaves behind, and what that means for the alignment of the buffers. */
module HeapSteps {
  import opened Blocks
  import opened FreeLists

  const UINT32 := 0x1_0000_0000

  // The 32-bit counters of the lists.
  function Inc(counts: seq<nat>, k: nat): seq<nat>
    requires k < |counts|
  {
    counts[k := (counts[k] + 1) % UINT32]
  }

  function Dec(counts: seq<nat>, k: nat): seq<nat>
    requires k < |counts|
  {
    counts[k := (counts[k] + UINT32 - 1) % UINT32]
  }

  // ----- allocation

  // d is the first block of a list that is large enough.
  ghost predicate FirstFit(h: Heap, list: seq<int>, actual: int, d: int) {
    exists i: nat :: FitsAt(h, list, actual, d, i)
  }

  ghost predicate FitsAt(h: Heap, list: seq<int>, actual: int, d: int, i: nat) {
    i < |list| && list[i] == d && d in h && h[d].total >= actual
    && forall j :: 0 <= j < i ==> list[j] in h && h[list[j]].total < actual
  }

  // Block u has been cut off the far end of d, or is all of d if less would be left than a header and 16 bytes.
  ghost predicate CutFrom(h: Heap, h': Heap, d: int, actual: int, u: int) {
    d in h && d in h' && u in h' && h[d].total >= actual
    && if h[d].total - actual >= DESC_SIZE + 16
       then u == d + h[d].total - actual && u !in h && h'.Keys == h.Keys + {u} && h'[u].total == -actual && h'[d].total == h[d].total - actual
       else u == d && h'.Keys == h.Keys && h'[u].total == -h[d].total
  }

  // The first fitting block of the first list that has one serves the request.
  ghost predicate ServedBy(h: Heap, bins: seq<seq<int>>, h': Heap, actual: int, u: int) {
    exists k: nat, d: int :: ServedAt(h, bins, h', actual, u, k, d)
  }

  ghost predicate ServedAt(h: Heap, bins: seq<seq<int>>, h': Heap, actual: int, u: int, k: nat, d: int) {
    k < |bins| && FirstFit(h, bins[k], actual, d) && CutFrom(h, h', d, actual, u)
    && forall j, x {:trigger x in bins[j]} :: 0 <= j < k && x in bins[j] ==> x in h && h[x].total < actual
  }

  // ----- alignment

  ghost predicate Times(x: int, k: int, m: nat) { x == k * m }

  ghost predicate Multiple(x: int, m: nat) { exists k: int :: Times(x, k, m) }

  lemma MultipleSum(x: int, y: int, m: nat)
    requires Multiple(x, m)
    ensures Multiple(y, m) <==> Multiple(x + y, m)
  {
    var k :| Times(x, k, m);
    if Multiple(y, m) {
      var j :| Times(y, j, m);
      assert Times(x + y, k + j, m) by { assert (k + j) * m == k * m + j * m; }
    }
    if Multiple(x + y, m) {
      var j :| Times(x + y, j, m);
      assert Times(y, j - k, m) by { assert (j - k) * m == j * m - k * m; }
    }
  }

  // Chunks begin at multiples of m, and so do the buffers of all other blocks.
  ghost predicate AlignedHeads(h: Heap, chunks: set<int>, m: nat) {
    forall a {:trigger a in h} :: a in h ==> if a in chunks then Multiple(a, m) else Multiple(a + DESC_SIZE, m)
  }

  // A pool's geometry agrees with m.
  ghost predicate Suits(m: nat) { Multiple(GROW_SIZE, m) }

  lemma CutAligned(h: Heap, h': Heap, chunks: set<int>, d: int, actual: int, u: int, m: nat)
    requires Tiled(h, chunks) && Free(h, chunks, d) && CutFrom(h, h', d, actual, u) && actual >= DESC_SIZE
    requires AlignedHeads(h, chunks, m) && Multiple(actual, m)
    ensures AlignedHeads(h', chunks, m)
  {
    if u != d {
      SplitFresh(h, chunks, d, actual);
      var e := End(h, d);
      assert e in h && e !in chunks;
      MultipleSum(actual, u + DESC_SIZE, m);
      assert actual + (u + DESC_SIZE) == e + DESC_SIZE;
    }
  }

  lemma GrowAligned(h: Heap, chunks: set<int>, c: int, m: nat)
    requires Tiled(h, chunks) && Fresh(chunks, c) && AlignedHeads(h, chunks, m) && Multiple(c, m) && Suits(m)
    ensures AlignedHeads(Grow(h, c), chunks + {c}, m)
  {
    GrowTiled(h, chunks, c);
    MultipleSum(c, GROW_SIZE, m);
    assert c + DUMMY + DESC_SIZE == c + GROW_SIZE;
    forall a | a in h && a !in chunks ensures a !in chunks + {c} { assert a != c; }
  }

  // The buffer of a block is aligned, unless the block begins a chunk and a header is no multiple of m.
  lemma BufferAligned(h: Heap, chunks: set<int>, m: nat, a: int)
    requires AlignedHeads(h, chunks, m) && a in h
    ensures Multiple(a + DESC_SIZE, m) <==> a !in chunks || Multiple(DESC_SIZE, m)
  {
    if a in chunks { MultipleSum(a, DESC_SIZE, m); }
  }

  // ----- release

  // Block d swallows what is behind it up to stop, and the tag there is set; n is where d ended before.
  ghost predicate Joined(h: Heap, h': Heap, d: int, n: int, stop: int) {
    d in h && n in h && stop in h && d < n <= stop
    && h'.Keys == (if stop == n then h.Keys else h.Keys - {n})
    && h'[d] == h[d].(total := stop - d) && h'[stop] == h[stop].(prevFree := stop - d)
    && forall b {:trigger h'[b]} :: b in h' && b != d && b != stop ==> h'[b] == h[b]
  }

  // Where the free block begins and ends that the release of block a makes: it takes in the neighbours that are free,
  // the left one if the tag of a tells so.
  function MergedStart(h: Heap, a: int): int
    requires a in h
  {
    a - h[a].prevFree
  }

  function MergedStop(h: Heap, a: int): int
    requires a in h && End(h, a) in h
  {
    if h[End(h, a)].total > 0 then End(h, a) + h[End(h, a)].total else End(h, a)
  }

  /** One free block lies from start to stop, with the right tag behind it; all other blocks are as they were. */
  ghost predicate Coalesced(h: Heap, h': Heap, start: int, stop: int) {
    start in h && stop in h && start < stop
    && (forall b {:trigger b in h'} :: b in h' <==> b in h && !(start < b < stop))
    && h'[start].total == stop - start && h'[start].prevFree == h[start].prevFree
    && h'[stop] == h[stop].(prevFree := stop - start)
    && forall b {:trigger h'[b]} :: b in h' && b != start && b != stop ==> h'[b] == h[b]
  }

  lemma NothingBetween(h: Heap, chunks: set<int>, a: int, b: int)
    requires Tiled(h, chunks) && Block(h, chunks, a) && b in h
    ensures b <= a || End(h, a) <= b
  {}

  lemma CoalesceMeans(h: Heap, chunks: set<int>, a: int, h2: Heap, h3: Heap, n: int, stop: int)
    requires Tiled(h, chunks) && Live(h, chunks, a)
    requires var h1 := Blocks.Release(h, a);
             var p := a - h[a].prevFree;
             if h[a].prevFree == 0 then h2 == h1 else p in h1 && p != a && h2 == Absorb(h1, p, a)
    requires End(h, a) in h && n == End(h, a) && stop == MergedStop(h, a) && Joined(h2, h3, MergedStart(h, a), n, stop)
    ensures Coalesced(h, h3, MergedStart(h, a), stop)
  {
    var start := MergedStart(h, a);
    assert Block(h, chunks, a);
    if h[a].prevFree != 0 {
      var left := TagTellsLeftBlock(h, chunks, a);
      assert left == start;
    }
    forall b | b in h && start < b < stop ensures b == a || b == n {
      NothingBetween(h, chunks, a, b);
      if b < a { NothingBetween(h, chunks, start, b); }
      if b > n { NextBlock(h, chunks, a); NothingBetween(h, chunks, n, b); }
    }
  }

  // A free right neighbour is a block.
  lemma NextBlock(h: Heap, chunks: set<int>, a: int)
    requires Tiled(h, chunks) && Block(h, chunks, a) && End(h, a) in h && h[End(h, a)].total > 0
    ensures Block(h, chunks, End(h, a)) && End(h, End(h, a)) == End(h, a) + h[End(h, a)].total
  {
    var n := End(h, a);
    assert !IsDummy(chunks, n);
  }
}
