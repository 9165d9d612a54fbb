/** Normal memory of one executor: a boundary-tag allocator over mapped chunks. */
module NormalPool {
  import opened Blocks
  import opened FreeLists
  import opened HeapSteps
  import opened Mappings
  import opened Options

  const THRESHOLD := 4

  function RoundUp(x: nat, align: nat): nat
    requires align > 0
  {
    (x + align - 1) / align * align
  }

  lemma RoundUpFacts(x: nat, align: nat)
    requires align > 0
    ensures x <= RoundUp(x, align) < x + align && Multiple(RoundUp(x, align), align)
  {
    var q := (x + align - 1) / align;
    assert x + align - 1 == q * align + (x + align - 1) % align;
    assert Times(RoundUp(x, align), q, align);
  }

  // A mapping that the operating system may return: apart from all chunks and other mappings.
  ghost predicate Unmapped(chunks: set<int>, ranges: Ranges, a: int, len: nat) {
    (forall c :: c in chunks ==> a + len <= c || c + GROW_SIZE <= a)
    && (forall d :: d in ranges ==> a + len <= d || d + ranges[d] <= a)
  }

  // Some free block is large enough.
  ghost predicate SomeFits(h: Heap, chunks: set<int>, actual: int) {
    exists a :: Free(h, chunks, a) && h[a].total >= actual
  }

  // The blocks in use are those of before, unmoved and unresized, plus u.
  ghost predicate LiveGains(h: Heap, chunks: set<int>, h': Heap, chunks': set<int>, u: int) {
    !Live(h, chunks, u) && Live(h', chunks', u)
    && (forall a {:trigger Live(h', chunks', a)} :: Live(h', chunks', a) && a != u ==> Live(h, chunks, a))
    && (forall a {:trigger Live(h, chunks, a)} :: Live(h, chunks, a) ==>
          Live(h', chunks', a) && h'[a].total == h[a].total && h'[a].ref == h[a].ref)
  }

  // Of the free blocks only c is new.
  ghost predicate OneMoreFree(h: Heap, chunks: set<int>, h': Heap, chunks': set<int>, c: int) {
    forall a {:trigger Free(h', chunks', a)} :: Free(h', chunks', a) && a != c ==> Free(h, chunks, a) && h'[a].total == h[a].total
  }

  lemma GrownFree(h: Heap, chunks: set<int>, c: int, k: int)
    requires Tiled(h, chunks) && Fresh(chunks, c)
    ensures var h' := Grow(h, c); OneMoreFree(h, chunks, h'[c := h'[c].(bin := k)], chunks + {c}, c)
  {
    GrowTiled(h, chunks, c);
    var h', chunks' := Grow(h, c), chunks + {c};
    var h'' := h'[c := h'[c].(bin := k)];
    hide Tiled;
    forall a | Free(h'', chunks', a) && a != c ensures Free(h, chunks, a) && h''[a].total == h[a].total {
      assert Block(h', chunks', a);
    }
  }

  // What the cut of a block means for its size and its buffer.
  lemma CutMeans(h: Heap, chunks: set<int>, h': Heap, d: int, actual: int, u: int, align: nat)
    requires Tiled(h, chunks) && Free(h, chunks, d) && CutFrom(h, h', d, actual, u) && actual >= DESC_SIZE && Multiple(actual, align)
    ensures actual <= h'[u].Size() < actual + DESC_SIZE + 16
    ensures AlignedHeads(h, chunks, align) ==>
              AlignedHeads(h', chunks, align) && (Multiple(u + DESC_SIZE, align) <==> Multiple(DESC_SIZE, align) || u !in chunks)
  {
    hide Multiple, Tiled;
    if AlignedHeads(h, chunks, align) {
      CutAligned(h, h', chunks, d, actual, u, align);
      BufferAligned(h', chunks, align, u);
    }
  }

  // After a chunk has been mapped for a request that no block was large enough for, the chunk serves it.
  lemma NewChunkServes(h: Heap, chunks: set<int>, h1: Heap, chunks1: set<int>, c: int, h2: Heap, d: int, actual: int, u: int)
    requires !SomeFits(h, chunks, actual) && OneMoreFree(h, chunks, h1, chunks1, c) && c in h1 && h1[c].total == DUMMY
    requires Free(h1, chunks1, d) && CutFrom(h1, h2, d, actual, u)
    ensures d == c && u == if DUMMY - actual >= DESC_SIZE + 16 then c + DUMMY - actual else c
  {
    assert Free(h1, chunks1, d);
  }

  lemma FreeFits(h: Heap, chunks: set<int>, c: int, actual: int)
    requires Free(h, chunks, c) && h[c].total >= actual
    ensures SomeFits(h, chunks, actual)
  {}

  // The blocks in use are exactly those of before.
  ghost predicate LiveSame(h: Heap, chunks: set<int>, h': Heap, chunks': set<int>) {
    forall a {:trigger Live(h, chunks, a)} {:trigger Live(h', chunks', a)} ::
      (Live(h', chunks', a) <==> Live(h, chunks, a))
      && (Live(h, chunks, a) ==> h'[a].total == h[a].total && h'[a].ref == h[a].ref)
  }

  // The blocks in use are those of before without u.
  ghost predicate LiveLoses(h: Heap, chunks: set<int>, h': Heap, chunks': set<int>, u: int) {
    LiveGains(h', chunks', h, chunks, u)
  }

  // While coalescing, the free block x is in no list and the tag behind it is not yet right.
  ghost predicate Pending(h: Heap, chunks: set<int>, bins: seq<seq<int>>, x: int) {
    TiledBut(h, chunks, x) && Listed(h, chunks, bins, {x}) && Free(h, chunks, x)
  }

  class NormalPool {
    const align: nat
    var hdr: Heap                  // the headers in memory; a header absorbed by its neighbour is dropped
    var bins: seq<seq<int>>        // mem_bins, front first
    var counts: seq<nat>           // mem_bins_count, a 32-bit counter per bin
    var allocChunks: nat
    var direct: map<int, Desc>     // headers of buffers mapped on their own
    ghost var ranges: Ranges       // what is mapped for such buffers
    ghost var chunks: set<int>

    ghost predicate Shape()
      reads this
    {
      align > 0 && |counts| == BIN_COUNT && |bins| == BIN_COUNT
      && RangesOk(ranges)
      && (forall d :: d in direct ==> d in ranges && direct[d].bin == -1 && direct[d].total == ToInt32(ranges[d]))
      && (forall d, c :: d in ranges && c in chunks ==> d + ranges[d] <= c || c + GROW_SIZE <= d)
    }

    ghost predicate ValidBut(out: set<int>)
      reads this
    {
      Shape() && Tiled(hdr, chunks) && Listed(hdr, chunks, bins, out)
    }

    // The blocks tile the chunks and the free lists hold exactly the free blocks.
    ghost predicate Valid()
      reads this
    {
      ValidBut({})
    }

    constructor (align: nat)
      requires align > 0
      ensures Valid() && hdr == map[] && chunks == {} && direct == map[] && ranges == map[] && this.align == align
    {
      this.align := align;
      hdr, chunks, allocChunks, direct, ranges := map[], {}, 0, map[], map[];
      bins, counts := seq(BIN_COUNT, _ => []), seq(BIN_COUNT, _ => 0);
    }

    method CountSub(index: nat)
      requires index < |counts|
      modifies this`counts
      ensures counts == Dec(old(counts), index)
    {
      counts := counts[index := (counts[index] + UINT32 - 1) % UINT32];
    }

    method InsertIntoFreelist(a: int, ghost out: set<int>)
      requires ValidBut(out) && Free(hdr, chunks, a) && a in out
      modifies this`hdr, this`bins, this`counts
      ensures ValidBut(out - {a}) && a in old(hdr) && a in hdr
      ensures hdr == old(hdr)[a := old(hdr)[a].(bin := hdr[a].bin)]
      ensures Fits(BIN_SIZE, hdr[a].bin, hdr[a].total) && counts == Inc(old(counts), hdr[a].bin) && bins == Insert(old(bins), hdr[a].bin, a)
    {
      ghost var h0 := hdr;
      BinSizesSorted();
      var index := GetBinIndex(hdr[a].total, BIN_SIZE);
      InsertListed(hdr, chunks, bins, out, a, index);
      RebinTiled(hdr, chunks, a, index);
      hdr := hdr[a := hdr[a].(bin := index)];
      bins := Insert(bins, index, a);
      counts := counts[index := (counts[index] + 1) % UINT32];
      assert hdr.Keys == h0.Keys;
    }

    // The free block d in list index is cut: the far end goes to the user.
    method CutBlock(index: nat, d: int, actual: int) returns (user: int)
      requires Valid() && index < BIN_COUNT && d in bins[index] && Splittable(hdr, chunks, d, actual)
      modifies this`hdr, this`bins, this`counts
      ensures Valid() && LiveGains(old(hdr), chunks, hdr, chunks, user)
      ensures hdr[user].total == -actual && hdr[user].ref == 1
      ensures d in old(hdr) && old(hdr)[d].total >= actual && CutFrom(old(hdr), hdr, d, actual, user)
    {
      ghost var h0 := hdr;
      ListedBin(hdr, chunks, bins, index, d);
      SplitListed(hdr, chunks, bins, d, actual);
      SplitCuts(hdr, chunks, d, actual);
      hide Tiled, Listed, LiveGains, Free, Splittable, CutFrom;
      user := d + hdr[d].total - actual;
      var next := user + actual;
      hdr := hdr[d := hdr[d].(total := hdr[d].total - actual)];
      hdr := hdr[user := Desc(-actual, hdr[d].total, hdr[d].bin, 1)];
      hdr := hdr[next := hdr[next].(prevFree := 0)];
      assert hdr == Split(h0, d, actual);
      bins := Delete(bins, index, d);
      CountSub(index);
      ghost var h1 := hdr;
      InsertIntoFreelist(d, {d});
      assert {d} - {d} == {};
      RebinLive(h0, h1, chunks, user, d, hdr[d].bin);
      RebinCuts(h0, h1, d, actual, user, hdr[d].bin);
    }

    // The free block d in list index goes to the user as a whole.
    method TakeWhole(index: nat, d: int)
      requires Valid() && index < BIN_COUNT && d in bins[index]
      modifies this`hdr, this`bins, this`counts
      ensures Valid() && LiveGains(old(hdr), chunks, hdr, chunks, d)
      ensures d in old(hdr) && hdr[d].total == -old(hdr)[d].total && hdr[d].ref == 1 && hdr.Keys == old(hdr).Keys
    {
      ListedBin(hdr, chunks, bins, index, d);
      TakeListed(hdr, chunks, bins, d);
      ghost var h0 := hdr;
      bins := Delete(bins, index, d);
      CountSub(index);
      var next := d + hdr[d].total;
      hdr := hdr[next := hdr[next].(prevFree := 0)];
      hdr := hdr[d := hdr[d].(total := -hdr[d].total, prevFree := 0, ref := 1)];
      assert hdr == Take(h0, d);
    }

    /** First fit in one list: cuts the block off the far end of a larger free one, or takes all of it. */
    method TravelList(index: nat, actual: int) returns (r: Option<int>)
      requires Valid() && index < BIN_COUNT && actual >= DESC_SIZE
      modifies this`hdr, this`bins, this`counts
      ensures Valid()
      ensures r.None? ==> hdr == old(hdr) && bins == old(bins) && counts == old(counts)
      ensures |bins| == |old(bins)| == BIN_COUNT && (r.None? ==> forall d :: d in bins[index] ==> d in hdr && hdr[d].total < actual)
      ensures r.Some? ==> LiveGains(old(hdr), chunks, hdr, chunks, r.value)
                          && hdr[r.value].Size() >= actual && hdr[r.value].ref == 1
      ensures r.Some? ==> SomeFits(old(hdr), chunks, actual)
      ensures r.Some? ==> exists d {:trigger FirstFit(old(hdr), old(bins)[index], actual, d)} ::
                FirstFit(old(hdr), old(bins)[index], actual, d) && Free(old(hdr), chunks, d) && CutFrom(old(hdr), hdr, d, actual, r.value)
    {
      hide Tiled, Listed, LiveGains;
      var list := bins[index];
      for i := 0 to |list|
        invariant Valid() && hdr == old(hdr) && bins == old(bins) && counts == old(counts)
        invariant forall j :: 0 <= j < i ==> list[j] in hdr && hdr[list[j]].total < actual
      {
        var d := list[i];
        assert d in list;
        ListedBin(hdr, chunks, bins, index, d);
        if hdr[d].total >= actual {
          assert FitsAt(hdr, list, actual, d, i);
          assert FirstFit(hdr, list, actual, d);
          TiledParts(hdr, chunks);
          if hdr[d].total - actual >= MIN_SPLIT {
            var user := CutBlock(index, d, actual);
            return Some(user);
          } else {
            TakeWhole(index, d);
            return Some(d);
          }
        }
      }
      return None;
    }

    // One pass over the lists from the bin of the request upwards.
    method SearchBins(actual: nat) returns (r: Option<int>)
      requires Valid() && actual >= DESC_SIZE
      modifies this`hdr, this`bins, this`counts
      ensures Valid()
      ensures r.None? <==> !SomeFits(old(hdr), chunks, actual)
      ensures r.None? ==> hdr == old(hdr) && bins == old(bins)
      ensures r.Some? ==> LiveGains(old(hdr), chunks, hdr, chunks, r.value)
                          && hdr[r.value].Size() >= actual && hdr[r.value].ref == 1
      ensures r.Some? ==> ServedBy(old(hdr), old(bins), hdr, actual, r.value)
      ensures r.Some? ==> exists d {:trigger CutFrom(old(hdr), hdr, d, actual, r.value)} ::
                Free(old(hdr), chunks, d) && CutFrom(old(hdr), hdr, d, actual, r.value)
    {
      hide Tiled, LiveGains, LiveSame, ListOk, Listed, CutFrom, FirstFit, ServedBy, NoneIn, Free, SomeFits;
      BinSizesSorted();
      ghost var h0, bins0 := hdr, bins;
      var first := GetBinIndex(actual, BIN_SIZE);
      NoneYet(h0, chunks, bins0, actual, first);
      var index := first;
      while index < BIN_COUNT
        invariant first <= index <= BIN_COUNT
        invariant Valid() && hdr == h0 && bins == bins0
        invariant NoneIn(h0, bins0, actual, first, index)
      {
        r := TravelList(index, actual);
        if r.Some? {
          ghost var d :| FirstFit(h0, bins0[index], actual, d) && Free(h0, chunks, d) && CutFrom(h0, hdr, d, actual, r.value);
          Served(h0, chunks, bins0, hdr, actual, r.value, first, index, d);
          return;
        }
        NoneNext(h0, bins0, actual, first, index);
        index := index + 1;
      }
      NothingInBins(actual, first);
      return None;
    }

    lemma NothingInBins(actual: nat, first: int)
      requires Valid() && Fits(BIN_SIZE, first, actual) && NoneIn(hdr, bins, actual, first, BIN_COUNT)
      ensures !SomeFits(hdr, chunks, actual)
    {
      NothingFits(hdr, chunks, bins, actual, first);
    }

    // Maps one chunk: a single free block and the dummy header behind it.
    method GrowChunk(c: int)
      requires Valid() && Unmapped(chunks, ranges, c, GROW_SIZE)
      modifies this`hdr, this`bins, this`counts, this`chunks, this`allocChunks
      ensures Valid() && chunks == old(chunks) + {c} && allocChunks == old(allocChunks) + 1
      ensures LiveSame(old(hdr), old(chunks), hdr, chunks)
      ensures Free(hdr, chunks, c) && hdr[c].total == DUMMY && hdr.Keys == old(hdr).Keys + {c, c + DUMMY}
      ensures forall m: nat {:trigger AlignedHeads(hdr, chunks, m)} ::
                AlignedHeads(old(hdr), old(chunks), m) && Multiple(c, m) && Suits(m) ==> AlignedHeads(hdr, chunks, m)
      ensures OneMoreFree(old(hdr), old(chunks), hdr, chunks, c)
    {
      GrowListed(hdr, chunks, bins, c);
      allocChunks := allocChunks + 1;
      ghost var h0, chunks0 := hdr, chunks;
      hdr := hdr[c := Desc(DUMMY, 0, 0, 1)];
      var next := c + hdr[c].total;
      hdr := hdr[next := Desc(-1, hdr[c].total, 0, 0)];
      chunks := chunks + {c};
      assert hdr == Grow(h0, c);
      GrowsAligned(h0, chunks0, c);
      ghost var h1 := hdr;
      InsertIntoFreelist(c, {c});
      assert {c} - {c} == {};
      RebinLiveSame(h0, chunks0, h1, chunks, c, hdr[c].bin);
      SameKeysAligned(h1, hdr, chunks);
      GrownFree(h0, chunks0, c, hdr[c].bin);
    }

    /** Allocation: an existing free block serves the request whenever one is large enough; otherwise one chunk
        is mapped, and then the request succeeds. mapped is what the operating system would return. */
    method Alloc(size: nat, mapped: Option<int>) returns (ptr: Option<int>)
      requires Valid()
      requires mapped.Some? ==> Unmapped(chunks, ranges, mapped.value, MapLength(size))
      modifies this
      ensures Valid()
      ensures Actual(size) > MAX_SIZE ==>
                hdr == old(hdr) && bins == old(bins) && chunks == old(chunks)
                && (if mapped.None? then ptr.None? && direct == old(direct) && ranges == old(ranges)
                    else ptr == Some(mapped.value + DESC_SIZE)
                         && ranges == old(ranges)[mapped.value := Actual(size)]
                         && direct == old(direct)[mapped.value := Desc(ToInt32(Actual(size)), 0, -1, 1)])
      ensures Actual(size) <= MAX_SIZE ==> direct == old(direct) && ranges == old(ranges)
      ensures Actual(size) <= MAX_SIZE && SomeFits(old(hdr), old(chunks), Actual(size)) ==>
                ptr.Some? && chunks == old(chunks) && allocChunks == old(allocChunks)
      ensures Actual(size) <= MAX_SIZE && !SomeFits(old(hdr), old(chunks), Actual(size)) ==>
                if mapped.None? then ptr.None? && hdr == old(hdr) && bins == old(bins) && chunks == old(chunks)
                else ptr.Some? && chunks == old(chunks) + {mapped.value} && allocChunks == old(allocChunks) + 1
      ensures Actual(size) <= MAX_SIZE && ptr.Some? ==>
                LiveGains(old(hdr), old(chunks), hdr, chunks, ptr.value - DESC_SIZE) && hdr[ptr.value - DESC_SIZE].ref == 1
                && Actual(size) <= hdr[ptr.value - DESC_SIZE].Size() < Actual(size) + DESC_SIZE + 16
      ensures size + DESC_SIZE <= Actual(size) < size + DESC_SIZE + align && Multiple(Actual(size), align)
      ensures Actual(size) <= MAX_SIZE && SomeFits(old(hdr), old(chunks), Actual(size)) ==>
                ServedBy(old(hdr), old(bins), hdr, Actual(size), ptr.value - DESC_SIZE)
      ensures Actual(size) <= MAX_SIZE && !SomeFits(old(hdr), old(chunks), Actual(size)) && ptr.Some? ==>
                ptr.value - DESC_SIZE == mapped.value + if DUMMY - Actual(size) >= DESC_SIZE + 16 then DUMMY - Actual(size) else 0
      ensures AlignedHeads(old(hdr), old(chunks), align) && Suits(align) && (mapped.Some? ==> Multiple(mapped.value, align)) ==>
                AlignedHeads(hdr, chunks, align)
                && (ptr.Some? ==> (Multiple(ptr.value, align) <==> Multiple(DESC_SIZE, align) || (Actual(size) <= MAX_SIZE && ptr.value - DESC_SIZE !in chunks)))
    {
      hide Tiled, Listed, LiveGains, LiveSame, RoundUp, ToInt32, AlignedHeads, Multiple, CutFrom, ServedBy, OneMoreFree, Free;
      RoundUpFacts(size + DESC_SIZE, align);
      var actual := Actual(size);
      if actual > MAX_SIZE {
        if mapped.None? { return None; }
        RangesMore(ranges, mapped.value, actual);
        if Multiple(mapped.value, align) { MultipleSum(mapped.value, DESC_SIZE, align); }
        hide RangesOk;
        ranges := ranges[mapped.value := actual];
        direct := direct[mapped.value := Desc(ToInt32(actual), 0, -1, 1)];
        return Some(mapped.value + DESC_SIZE);
      }
      var grown := false;
      while true
        invariant Valid() && direct == old(direct) && ranges == old(ranges) && actual == Actual(size) <= MAX_SIZE
        invariant !grown ==> hdr == old(hdr) && bins == old(bins) && chunks == old(chunks) && allocChunks == old(allocChunks)
        invariant grown ==> mapped.Some? && !SomeFits(old(hdr), old(chunks), actual)
                            && chunks == old(chunks) + {mapped.value} && allocChunks == old(allocChunks) + 1
                            && LiveSame(old(hdr), old(chunks), hdr, chunks) && SomeFits(hdr, chunks, actual)
                            && OneMoreFree(old(hdr), old(chunks), hdr, chunks, mapped.value)
                            && mapped.value in hdr && hdr[mapped.value].total == DUMMY
        invariant AlignedHeads(old(hdr), old(chunks), align) && Suits(align) && (mapped.Some? ==> Multiple(mapped.value, align)) ==>
                    AlignedHeads(hdr, chunks, align)
        decreases !grown
      {
        ghost var h1 := hdr;
        var u := SearchBins(actual);
        if u.Some? {
          ghost var d :| Free(h1, chunks, d) && CutFrom(h1, hdr, d, actual, u.value);
          CutMeans(h1, chunks, hdr, d, actual, u.value, align);
          if grown {
            GainsAfterSame(old(hdr), old(chunks), h1, hdr, chunks, u.value);
            NewChunkServes(old(hdr), old(chunks), h1, chunks, mapped.value, hdr, d, actual, u.value);
          }
          return Some(u.value + DESC_SIZE);
        }
        if mapped.None? { return None; }
        GrowChunk(mapped.value);
        FreeFits(hdr, chunks, mapped.value, actual);
        grown := true;
      }
    }

    function Actual(size: nat): nat
      requires align > 0
    {
      RoundUp(size + DESC_SIZE, align)
    }

    function MapLength(size: nat): nat
      requires align > 0
    {
      if Actual(size) > MAX_SIZE then Actual(size) else GROW_SIZE
    }

    // The free block d swallows into its free left neighbour.
    method MergePrev(d: int, index: nat) returns (p: int)
      requires Shape() && Tiled(hdr, chunks) && Listed(hdr, chunks, bins, {d}) && Free(hdr, chunks, d) && index < BIN_COUNT
      requires hdr[d].prevFree != 0
      modifies this`hdr, this`bins, this`counts
      ensures Shape() && Pending(hdr, chunks, bins, p) && LiveSame(old(hdr), chunks, hdr, chunks)
      ensures p == d - old(hdr)[d].prevFree && p in old(hdr) && p != d && hdr == Absorb(old(hdr), p, d) && counts == Dec(old(counts), index)
    {
      p := d - hdr[d].prevFree;
      MergePrevFacts(hdr, chunks, bins, d);
      bins := Delete(bins, hdr[p].bin, p);
      hdr := (hdr - {d})[p := hdr[p].(total := hdr[p].total + hdr[d].total)];
      CountSub(index);
    }

    // The free block d swallows its free right neighbour.
    method TakeNext(d: int, index: nat)
      requires Shape() && Pending(hdr, chunks, bins, d) && index < BIN_COUNT && d in hdr
      requires d + hdr[d].total in hdr && hdr[d + hdr[d].total].total > 0
      modifies this`hdr, this`bins, this`counts
      ensures Shape() && Pending(hdr, chunks, bins, d) && LiveSame(old(hdr), chunks, hdr, chunks)
      ensures hdr == Absorb(old(hdr), d, d + old(hdr)[d].total) && counts == Dec(old(counts), index)
    {
      PendingNext(hdr, chunks, bins, d);
      MergeNextFacts(hdr, chunks, bins, d);
      hide Pending, LiveSame;
      var next := d + hdr[d].total;
      bins := Delete(bins, hdr[next].bin, next);
      hdr := (hdr - {next})[d := hdr[d].(total := hdr[d].total + hdr[next].total)];
      CountSub(index);
    }

    // The free block d swallows its right neighbour if that is free, and the tag behind it is set.
    method MergeNext(d: int, index: nat)
      requires Shape() && Pending(hdr, chunks, bins, d) && index < BIN_COUNT
      modifies this`hdr, this`bins, this`counts
      ensures ValidBut({d}) && Free(hdr, chunks, d) && LiveSame(old(hdr), chunks, hdr, chunks)
      ensures var n := d + old(hdr)[d].total;
              n in old(hdr) && counts == (if old(hdr)[n].total > 0 then Dec(old(counts), index) else old(counts))
              && Joined(old(hdr), hdr, d, n, if old(hdr)[n].total > 0 then n + old(hdr)[n].total else n)
    {
      hide Pending, LiveSame, Joined, Tiled, Listed, Free, Absorb, Absorbable;
      PendingNext(hdr, chunks, bins, d);
      ghost var h0 := hdr;
      var next := d + hdr[d].total;
      if hdr[next].total > 0 {
        TakeNext(d, index);
        PendingNext(hdr, chunks, bins, d);
        next := d + hdr[d].total;
      } else {
        NoChange(h0, chunks);
      }
      SetTagFacts(hdr, chunks, bins, d);
      ghost var h1 := hdr;
      hdr := hdr[next := hdr[next].(prevFree := hdr[d].total)];
      LiveSameTrans(h0, chunks, h1, chunks, hdr, chunks);
      JoinedIs(h0, h1, hdr, d);
    }

    lemma JoinedIs(h0: Heap, h1: Heap, h2: Heap, d: int)
      requires d in h0 && d + h0[d].total in h0 && h0[d].total > 0
      requires var n := d + h0[d].total; n != d && if h0[n].total > 0 then h1 == Absorb(h0, d, n) else h1 == h0
      requires d in h1 && d + h1[d].total in h1 && h1[d].total > 0 && h2 == h1[d + h1[d].total := h1[d + h1[d].total].(prevFree := h1[d].total)]
      ensures var n := d + h0[d].total; Joined(h0, h2, d, n, if h0[n].total > 0 then n + h0[n].total else n)
    {}

    // A buffer that was mapped on its own is unmapped by the length in its header.
    method ReleaseDirect(d: int)
      requires Shape() && d in direct && direct[d].ref > 0
      modifies this`direct, this`ranges
      ensures Shape() && d in old(ranges)
      ensures direct == if old(direct)[d].ref > 1 then old(direct)[d := old(direct)[d].(ref := old(direct)[d].ref - 1)] else old(direct) - {d}
      ensures ranges == if old(direct)[d].ref > 1 then old(ranges) else Munmap(old(ranges), d, old(direct)[d].total)
    {
      direct := direct[d := direct[d].(ref := direct[d].ref - 1)];
      if direct[d].ref == 0 {
        MunmapOk(ranges, d, direct[d].total);
        hide RangesOk, Munmap, ToInt32;
        ranges := Munmap(ranges, d, direct[d].total);
        direct := direct - {d};
      }
    }

    /** Release: the block leaves the blocks in use and all others stay as they are. Below the threshold it
        just joins its list; otherwise it merges with the free neighbours its tag and its right neighbour show. */
    method Release(ptr: int)
      requires Valid()
      requires ptr - DESC_SIZE !in direct ==> Live(hdr, chunks, ptr - DESC_SIZE) && hdr[ptr - DESC_SIZE].ref > 0
      requires ptr - DESC_SIZE in direct ==> direct[ptr - DESC_SIZE].ref > 0
      modifies this
      ensures Valid()
      ensures old(ptr - DESC_SIZE in direct) ==>
                hdr == old(hdr) && bins == old(bins) && chunks == old(chunks)
                && var a := ptr - DESC_SIZE;
                   direct == if old(direct)[a].ref > 1 then old(direct)[a := old(direct)[a].(ref := old(direct)[a].ref - 1)]
                             else old(direct) - {a}
      ensures old(ptr - DESC_SIZE in direct) ==>
                var a := ptr - DESC_SIZE;
                a in old(ranges) && ranges == if old(direct)[a].ref > 1 then old(ranges) else Munmap(old(ranges), a, old(direct)[a].total)
      ensures old(ptr - DESC_SIZE !in direct) ==>
                direct == old(direct) && ranges == old(ranges)
                && var a := ptr - DESC_SIZE;
                   if old(hdr)[a].ref > 1 then hdr == old(hdr)[a := old(hdr)[a].(ref := old(hdr)[a].ref - 1)] && bins == old(bins)
                   else LiveLoses(old(hdr), old(chunks), hdr, chunks, a)
      ensures AlignedHeads(old(hdr), old(chunks), align) ==> AlignedHeads(hdr, chunks, align)
      ensures old(ptr - DESC_SIZE !in direct) && old(hdr[ptr - DESC_SIZE].ref) == 1 ==>
                Freed(old(hdr), old(chunks), old(counts), old(allocChunks), hdr, chunks, counts, ptr - DESC_SIZE)
      ensures allocChunks == old(allocChunks)
    {
      hide Tiled, Listed, LiveGains, LiveSame, Pending, RangesOk, Munmap, ToInt32, Freed, Multiple;
      var d := ptr - DESC_SIZE;
      if d in direct {
        ReleaseDirect(d);
        return;
      }
      if hdr[d].ref > 1 {
        RefFacts(hdr, chunks, bins, d, hdr[d].ref - 1);
        hdr := hdr[d := hdr[d].(ref := hdr[d].ref - 1)];
        return;
      }
      ghost var h0, chunks0, counts0 := hdr, chunks, counts;
      FreeOwn(d);
      FreedAligned(h0, chunks0, counts0, allocChunks, hdr, chunks, counts, d, align);
    }

    // The released block merges with its free neighbours; u is the block, h0 and counts0 are from before the release.
    method Coalesce(u: int, index: nat, ghost h0: Heap, ghost counts0: seq<nat>) returns (d: int)
      requires Shape() && Tiled(h0, chunks) && Live(h0, chunks, u) && u in h0 && index == h0[u].bin && index < BIN_COUNT && counts == counts0
      requires hdr == Blocks.Release(h0, u) && Tiled(hdr, chunks) && Listed(hdr, chunks, bins, {u}) && Free(hdr, chunks, u)
      requires LiveLoses(h0, chunks, hdr, chunks, u)
      modifies this`hdr, this`bins, this`counts
      ensures ValidBut({d}) && Free(hdr, chunks, d) && LiveLoses(h0, chunks, hdr, chunks, u)
      ensures End(h0, u) in h0 && d == MergedStart(h0, u) && Coalesced(h0, hdr, d, MergedStop(h0, u))
      ensures counts == Decs(counts0, index, Merges(h0, u))
    {
      LiveFacts(h0, chunks, u);
      DecsIs(counts0, index);
      hide Tiled, Listed, LiveGains, LiveSame, Pending, Joined, Coalesced, Free, Live, Decs;
      ghost var h1 := hdr;
      d := u;
      if hdr[d].prevFree != 0 {
        d := MergePrev(d, index);
      } else {
        StartPending(hdr, chunks, bins, d);
        NoChange(hdr, chunks);
      }
      ghost var h2 := hdr;
      PrevMerged(h0, chunks, u, h1, h2, d);
      MergeNext(d, index);
      CoalesceMeans(h0, chunks, u, h2, hdr, End(h0, u), MergedStop(h0, u));
      LiveSameTrans(h1, chunks, h2, chunks, hdr, chunks);
      LosesThenSame(h0, chunks, h1, chunks, hdr, chunks, u);
    }

    // The free block x joins its list; u has been released since h0.
    method Shelve(x: int, ghost h0: Heap, ghost chunks0: set<int>, ghost u: int)
      requires ValidBut({x}) && Free(hdr, chunks, x) && LiveLoses(h0, chunks0, hdr, chunks, u)
      modifies this`hdr, this`bins, this`counts
      ensures Valid() && LiveLoses(h0, chunks0, hdr, chunks, u) && x in old(hdr) && x in hdr
      ensures hdr == old(hdr)[x := old(hdr)[x].(bin := hdr[x].bin)] && 0 <= hdr[x].bin < |old(counts)| && counts == Inc(old(counts), hdr[x].bin)
    {
      FreeBlock(hdr, chunks, x);
      hide Tiled, Listed, LiveGains, LiveSame, Free;
      ghost var h1 := hdr;
      InsertIntoFreelist(x, {x});
      assert {x} - {x} == {};
      NoChange(h1, chunks);
      RebinLiveSame(h1, chunks, h1, chunks, x, hdr[x].bin);
      LosesThenSame(h0, chunks0, h1, chunks, hdr, chunks, u);
    }

    // The block in use d, which nobody refers to any longer, is released.
    method FreeOwn(d: int)
      requires Valid() && Live(hdr, chunks, d) && hdr[d].ref == 1
      modifies this`hdr, this`bins, this`counts, this`chunks
      ensures Valid() && LiveLoses(old(hdr), old(chunks), hdr, chunks, d)
      ensures Freed(old(hdr), old(chunks), old(counts), allocChunks, hdr, chunks, counts, d)
    {
      ghost var h0, chunks0, counts0 := hdr, chunks, counts;
      LiveFacts(hdr, chunks, d);
      ReleaseFacts(hdr, chunks, bins, d);
      hide Tiled, Listed, LiveGains, LiveSame, Pending, Coalesced, Freed, Merges, Live, Free;
      hdr := hdr[d := hdr[d].(total := -hdr[d].total, ref := 0)];
      ghost var h1 := hdr;
      var index := hdr[d].bin;
      if counts[index] < THRESHOLD {
        Shelve(d, h0, chunks0, d);
        FreedBelow(h0, chunks0, counts0, allocChunks, hdr, counts, d);
        return;
      }
      var x := Coalesce(d, index, h0, counts0);
      FreeBlock(hdr, chunks, x);
      ghost var h3 := hdr;
      if hdr[x].total == DUMMY && allocChunks >= 2 {
        UnmapFacts(hdr, chunks, bins, x);
        hdr := Unmap(hdr, x);
        chunks := chunks - {x};
        LosesThenSame(h0, chunks0, h3, chunks0, hdr, chunks, d);
        FreedUnmapped(h0, chunks0, counts0, allocChunks, h3, hdr, chunks, counts, d);
        return;
      }
      Shelve(x, h0, chunks0, d);
      FreedMerged(h0, chunks0, counts0, allocChunks, h3, hdr, counts, d);
    }
  }

  lemma SplitCuts(h: Heap, chunks: set<int>, d: int, actual: int)
    requires Splittable(h, chunks, d, actual) && Free(h, chunks, d)
    ensures d in h && h[d].total > 0 && End(h, d) in h && End(h, d) == d + h[d].total && End(h, d) != d && h[d].total - actual >= DESC_SIZE + 16
    ensures CutFrom(h, Split(h, d, actual), d, actual, d + h[d].total - actual)
  {
    SplitFresh(h, chunks, d, actual);
  }

  lemma RebinCuts(h: Heap, h1: Heap, d: int, actual: int, u: int, k: int)
    requires CutFrom(h, h1, d, actual, u) && u != d
    ensures d in h1 && CutFrom(h, h1[d := h1[d].(bin := k)], d, actual, u)
  {}

  lemma NoChange(h: Heap, chunks: set<int>)
    ensures LiveSame(h, chunks, h, chunks)
  {}

  // What a release leaves behind, in the heap h where block a is in use: see Release.
  ghost predicate Freed(h: Heap, chunks: set<int>, counts: seq<nat>, mapped: nat, h': Heap, chunks': set<int>, counts': seq<nat>, a: int) {
    a in h && End(h, a) in h && 0 <= h[a].bin < |counts|
    && var start, stop, k := MergedStart(h, a), MergedStop(h, a), h[a].bin;
       if counts[k] < 4 then
         chunks' == chunks && a in h' && 0 <= h'[a].bin < |counts|
         && h' == h[a := Desc(h[a].Size(), h[a].prevFree, h'[a].bin, 0)] && counts' == Inc(counts, h'[a].bin)
       else
         var counted := Decs(counts, k, Merges(h, a));
         if stop - start == GROW_SIZE - DESC_SIZE && mapped >= 2 then
           chunks' == chunks - {start} && counts' == counted
           && (forall b {:trigger b in h'} :: b in h' <==> b in h && !(start <= b <= stop)) && forall b {:trigger h'[b]} :: b in h' ==> h'[b] == h[b]
         else
           chunks' == chunks && Coalesced(h, h', start, stop) && start in h' && 0 <= h'[start].bin < |counts|
           && counts' == Inc(counted, h'[start].bin)
  }

  lemma FreedAligned(h: Heap, chunks: set<int>, counts: seq<nat>, mapped: nat, h': Heap, chunks': set<int>, counts': seq<nat>, a: int, m: nat)
    requires Freed(h, chunks, counts, mapped, h', chunks', counts', a)
    ensures AlignedHeads(h, chunks, m) ==> AlignedHeads(h', chunks', m)
  {
    hide Multiple;
  }

  // How many neighbours a released block merges with.
  function Merges(h: Heap, a: int): nat
    requires a in h && End(h, a) in h
  {
    (if MergedStart(h, a) < a then 1 else 0) + (if MergedStop(h, a) > End(h, a) then 1 else 0)
  }

  lemma DecsIs(counts: seq<nat>, k: nat)
    requires k < |counts|
    ensures Decs(counts, k, 0) == counts && Decs(counts, k, 1) == Dec(counts, k) && Decs(counts, k, 2) == Dec(Dec(counts, k), k)
  {}

  function Decs(counts: seq<nat>, k: nat, n: nat): (r: seq<nat>)
    requires k < |counts|
    ensures |r| == |counts|
  {
    if n == 0 then counts else Dec(Decs(counts, k, n - 1), k)
  }

  lemma LiveFacts(h: Heap, chunks: set<int>, a: int)
    requires Tiled(h, chunks) && Live(h, chunks, a)
    ensures a in h && h[a].total < 0 && End(h, a) in h && End(h, a) > a
  {
    assert Block(h, chunks, a);
  }

  lemma FreeBlock(h: Heap, chunks: set<int>, a: int)
    requires Free(h, chunks, a)
    ensures a in h && h[a].total > 0
  {}

  lemma FreedBelow(h: Heap, chunks: set<int>, counts: seq<nat>, mapped: nat, h': Heap, counts': seq<nat>, a: int)
    requires a in h && h[a].total < 0 && End(h, a) in h && 0 <= h[a].bin < |counts| && counts[h[a].bin] < 4
    requires var h1 := h[a := h[a].(total := -h[a].total, ref := 0)];
             a in h' && h' == h1[a := h1[a].(bin := h'[a].bin)] && 0 <= h'[a].bin < |counts| && counts' == Inc(counts, h'[a].bin)
    ensures Freed(h, chunks, counts, mapped, h', chunks, counts', a)
  {}

  // The step from the freed block to what it is with its left neighbour.
  lemma PrevMerged(h: Heap, chunks: set<int>, a: int, h1: Heap, h2: Heap, d: int)
    requires Tiled(h, chunks) && Live(h, chunks, a) && a in h && h1 == h[a := h[a].(total := -h[a].total, ref := 0)]
    requires if h1[a].prevFree == 0 then h2 == h1 && d == a
             else d == a - h1[a].prevFree && d in h1 && d != a && h2 == Absorb(h1, d, a)
    ensures End(h, a) in h && h1 == Blocks.Release(h, a) && d == MergedStart(h, a) && d in h2 && d + h2[d].total == End(h, a)
    ensures End(h, a) in h2 && h2[End(h, a)] == h[End(h, a)] && (d < a <==> h[a].prevFree != 0)
  {
    assert Block(h, chunks, a);
    if h[a].prevFree != 0 { var left := TagTellsLeftBlock(h, chunks, a); }
  }

  lemma FreedUnmapped(h: Heap, chunks: set<int>, counts: seq<nat>, mapped: nat, h3: Heap, h': Heap, chunks': set<int>, counts': seq<nat>, a: int)
    requires a in h && End(h, a) in h && 0 <= h[a].bin < |counts| && counts[h[a].bin] >= 4 && mapped >= 2
    requires Coalesced(h, h3, MergedStart(h, a), MergedStop(h, a)) && h3[MergedStart(h, a)].total == DUMMY
    requires h' == Unmap(h3, MergedStart(h, a)) && chunks' == chunks - {MergedStart(h, a)}
    requires counts' == Decs(counts, h[a].bin, Merges(h, a))
    ensures Freed(h, chunks, counts, mapped, h', chunks', counts', a)
  {}

  lemma FreedMerged(h: Heap, chunks: set<int>, counts: seq<nat>, mapped: nat, h3: Heap, h': Heap, counts': seq<nat>, a: int)
    requires a in h && End(h, a) in h && 0 <= h[a].bin < |counts| && counts[h[a].bin] >= 4
    requires Coalesced(h, h3, MergedStart(h, a), MergedStop(h, a)) && !(h3[MergedStart(h, a)].total == DUMMY && mapped >= 2)
    requires var d := MergedStart(h, a);
             d in h' && h' == h3[d := h3[d].(bin := h'[d].bin)] && 0 <= h'[d].bin < |counts|
             && counts' == Inc(Decs(counts, h[a].bin, Merges(h, a)), h'[d].bin)
    ensures Freed(h, chunks, counts, mapped, h', chunks, counts', a)
  {}

  /** What the validity that every operation keeps means: blocks in use never overlap, list k holds exactly the free
      blocks of its sizes, and a tag is 0 or the exact size of a free block that ends where the tagged one begins. */
  lemma ValidMeans(pool: NormalPool, a: int, b: int, k: nat)
    requires pool.Valid() && k < BIN_COUNT
    ensures Live(pool.hdr, pool.chunks, a) && Live(pool.hdr, pool.chunks, b) && a != b ==>
              End(pool.hdr, a) <= b || End(pool.hdr, b) <= a
    ensures |pool.bins| == BIN_COUNT
    ensures a in pool.bins[k] <==> Free(pool.hdr, pool.chunks, a) && Fits(BIN_SIZE, k, pool.hdr[a].total)
    ensures b in pool.hdr && pool.hdr[b].prevFree != 0 ==>
              var left := b - pool.hdr[b].prevFree;
              Free(pool.hdr, pool.chunks, left) && End(pool.hdr, left) == b
  {
    assert ListOk(pool.hdr, pool.chunks, pool.bins[k], k, {});
    if Live(pool.hdr, pool.chunks, a) && Live(pool.hdr, pool.chunks, b) && a != b {
      BlocksDisjoint(pool.hdr, pool.chunks, a, b);
    }
    if b in pool.hdr && pool.hdr[b].prevFree != 0 {
      var left := TagTellsLeftBlock(pool.hdr, pool.chunks, b);
    }
  }

  /** Releasing a buffer that was mapped on its own unmaps exactly that buffer, if and only if its mapping is shorter
      than 2^31 bytes. */
  lemma ReleaseUnmaps(pool: NormalPool, a: int)
    requires pool.Valid() && a in pool.direct
    ensures a in pool.ranges
    ensures Munmap(pool.ranges, a, pool.direct[a].total) == pool.ranges - {a} <==> pool.ranges[a] <= INT32_MAX
  {
    hide Tiled, Listed;
    UnmapsAll(pool.ranges, a);
  }

  // A buffer of 2 GiB that is released: its header is gone, and all of its mapping is still there.
  method LongMapping() returns (pool: NormalPool, a: int, len: nat)
    ensures pool.Valid() && len > INT32_MAX && pool.direct == map[] && pool.ranges == map[a := len]
  {
    pool := new NormalPool(64);
    a, len := 65536, pool.Actual(INT32_MAX + 1);
    RoundUpFacts(INT32_MAX + 1 + DESC_SIZE, 64);
    hide RoundUp;
    var ptr := pool.Alloc(INT32_MAX + 1, Some(a));
    assert ptr == Some(a + DESC_SIZE);
    assert ToInt32(len) < 0;
    pool.Release(ptr.value);
    assert pool.direct == map[];
  }

  // A buffer that is asked to be aligned to 64 bytes and is not, although the mapping is.
  method MisalignedBuffer() returns (pool: NormalPool, base: int, ptr: int)
    ensures pool.Valid() && pool.align == 64 && base in pool.direct && Multiple(base, 64) && ptr == base + DESC_SIZE && !Multiple(ptr, 64)
  {
    pool := new NormalPool(64);
    base := 65536;
    assert Times(base, 1024, 64);
    RoundUpFacts(GROW_SIZE + DESC_SIZE, 64);
    MultipleSum(base, DESC_SIZE, 64);
    var p := pool.Alloc(GROW_SIZE, Some(base));
    ptr := p.value;
  }

  // ----- what each update does to lists and live blocks

  lemma LiveSameTrans(h: Heap, c: set<int>, h': Heap, c': set<int>, h'': Heap, c'': set<int>)
    requires LiveSame(h, c, h', c') && LiveSame(h', c', h'', c'')
    ensures LiveSame(h, c, h'', c'')
  {
    forall a ensures (Live(h'', c'', a) <==> Live(h, c, a))
             ensures Live(h, c, a) ==> h''[a].total == h[a].total && h''[a].ref == h[a].ref
    {
      assert Live(h', c', a) <==> Live(h, c, a);
    }
  }

  lemma LosesThenSame(h: Heap, c: set<int>, h': Heap, c': set<int>, h'': Heap, c'': set<int>, u: int)
    requires LiveLoses(h, c, h', c', u) && LiveSame(h', c', h'', c'')
    ensures LiveLoses(h, c, h'', c'', u)
  {
    forall a | Live(h, c, a) && a != u ensures Live(h'', c'', a) { assert Live(h', c', a); }
    forall a | Live(h'', c'', a) ensures Live(h, c, a) && h''[a].total == h[a].total && h''[a].ref == h[a].ref {
      assert Live(h', c', a);
    }
    assert !Live(h'', c'', u);
  }

  lemma GainsAfterSame(h: Heap, c: set<int>, h': Heap, h'': Heap, c': set<int>, u: int)
    requires LiveSame(h, c, h', c') && LiveGains(h', c', h'', c', u)
    ensures LiveGains(h, c, h'', c', u)
  {
    forall a | Live(h'', c', a) && a != u ensures Live(h, c, a) { assert Live(h', c', a); }
    forall a | Live(h, c, a) ensures Live(h'', c', a) && h''[a].total == h[a].total && h''[a].ref == h[a].ref {
      assert Live(h', c', a);
    }
    assert !Live(h, c, u);
  }

  lemma RebinLiveSame(h0: Heap, chunks0: set<int>, h: Heap, chunks: set<int>, a: int, k: int)
    requires LiveSame(h0, chunks0, h, chunks) || (h0 == h && chunks0 == chunks)
    requires a in h && h[a].total > 0
    ensures LiveSame(h0, chunks0, h[a := h[a].(bin := k)], chunks)
  {
    var h' := h[a := h[a].(bin := k)];
    forall b ensures Live(h', chunks, b) <==> Live(h, chunks, b) {}
  }

  lemma NothingFits(h: Heap, chunks: set<int>, bins: seq<seq<int>>, actual: nat, first: int)
    requires Listed(h, chunks, bins, {}) && Fits(BIN_SIZE, first, actual)
    requires forall k, d :: first <= k < BIN_COUNT && d in bins[k] ==> d in h && h[d].total < actual
    ensures !SomeFits(h, chunks, actual)
  {
    BinSizesSorted();
    forall a | Free(h, chunks, a) ensures h[a].total < actual {
      assert Block(h, chunks, a);
      var k := h[a].bin;
      assert ListOk(h, chunks, bins[k], k, {});
      assert a in bins[k];
      if h[a].total >= actual { BinsMonotone(BIN_SIZE, actual, h[a].total, first, k); }
    }
  }

  lemma LowerBin(bins: seq<nat>, s: nat, t: nat, i: int, j: int)
    requires Sorted(bins) && Fits(bins, i, s) && Fits(bins, j, t) && i < j
    ensures s < t
  {
    assert i + 1 == j || bins[i + 1] < bins[j];
  }

  lemma GrowsAligned(h: Heap, chunks: set<int>, c: int)
    requires Tiled(h, chunks) && Fresh(chunks, c)
    ensures forall m: nat {:trigger AlignedHeads(Grow(h, c), chunks + {c}, m)} ::
              AlignedHeads(h, chunks, m) && Multiple(c, m) && Suits(m) ==> AlignedHeads(Grow(h, c), chunks + {c}, m)
  {
    hide Tiled, Grow, AlignedHeads, Multiple;
    forall m: nat {:trigger AlignedHeads(Grow(h, c), chunks + {c}, m)} | AlignedHeads(h, chunks, m) && Multiple(c, m) && Suits(m)
      ensures AlignedHeads(Grow(h, c), chunks + {c}, m)
    {
      GrowAligned(h, chunks, c, m);
    }
  }

  lemma SameKeysAligned(h: Heap, h': Heap, chunks: set<int>)
    requires h'.Keys == h.Keys
    ensures forall m: nat {:trigger AlignedHeads(h', chunks, m)} :: AlignedHeads(h', chunks, m) <==> AlignedHeads(h, chunks, m)
  {}

  // No block in the lists from first up to index is large enough.
  ghost predicate NoneIn(h: Heap, bins: seq<seq<int>>, actual: int, first: int, index: int) {
    0 <= first <= index <= |bins|
    && forall k, d {:trigger d in bins[k]} :: first <= k < index && d in bins[k] ==> d in h && h[d].total < actual
  }

  lemma NoneYet(h: Heap, chunks: set<int>, bins: seq<seq<int>>, actual: nat, first: int)
    requires Fits(BIN_SIZE, first, actual) && Listed(h, chunks, bins, {})
    ensures 0 <= first < BIN_COUNT == |bins| && NoneIn(h, bins, actual, first, first)
  {}

  lemma NoneNext(h: Heap, bins: seq<seq<int>>, actual: int, first: int, index: int)
    requires NoneIn(h, bins, actual, first, index) && index < |bins| && forall d :: d in bins[index] ==> d in h && h[d].total < actual
    ensures NoneIn(h, bins, actual, first, index + 1)
  {}

  // No block of a lower list is large enough.
  lemma Served(h: Heap, chunks: set<int>, bins: seq<seq<int>>, h': Heap, actual: nat, u: int, first: int, index: int, d: int)
    requires Listed(h, chunks, bins, {}) && Fits(BIN_SIZE, first, actual) && NoneIn(h, bins, actual, first, index) && index < |bins|
    requires FirstFit(h, bins[index], actual, d) && CutFrom(h, h', d, actual, u)
    ensures ServedBy(h, bins, h', actual, u) && SomeFits(h, chunks, actual)
  {
    BinSizesSorted();
    forall j, x {:trigger x in bins[j]} | 0 <= j < index && x in bins[j] ensures x in h && h[x].total < actual {
      assert ListOk(h, chunks, bins[j], j, {});
      if j < first { LowerBin(BIN_SIZE, h[x].total, actual, j, first); }
    }
    assert ServedAt(h, bins, h', actual, u, index, d);
    assert ListOk(h, chunks, bins[index], index, {});
    var i: nat :| FitsAt(h, bins[index], actual, d, i);
    assert d in bins[index];
  }

  lemma GrowListed(h: Heap, chunks: set<int>, bins: seq<seq<int>>, c: int)
    requires Tiled(h, chunks) && Listed(h, chunks, bins, {}) && Fresh(chunks, c)
    ensures Tiled(Grow(h, c), chunks + {c}) && Listed(Grow(h, c), chunks + {c}, bins, {c})
    ensures LiveSame(h, chunks, Grow(h, c), chunks + {c}) && Free(Grow(h, c), chunks + {c}, c)
  {
    GrowTiled(h, chunks, c);
    var h', chunks' := Grow(h, c), chunks + {c};
    hide Tiled, ListOk, Fresh, Housed;
    forall a ensures Block(h', chunks', a) <==> Block(h, chunks, a) || a == c
             ensures Block(h, chunks, a) ==> h'[a] == h[a]
    {}
    hide Grow, Block;
    forall a | Block(h', chunks', a) ensures 0 <= h'[a].bin < BIN_COUNT { assert a != c ==> Block(h, chunks, a); }
    forall a | Free(h, chunks, a) ensures Free(h', chunks', a) && a !in {c} { assert Block(h', chunks', a); }
    Relist(h, chunks, h', chunks', bins, {}, {c});
    forall a ensures Live(h', chunks', a) <==> Live(h, chunks, a) {
      assert Block(h', chunks', a) <==> Block(h, chunks, a) || a == c;
    }
  }

  lemma TiledIsBut(h: Heap, chunks: set<int>, x: int)
    requires Tiled(h, chunks)
    ensures TiledBut(h, chunks, x)
  {}

  lemma StartPending(h: Heap, chunks: set<int>, bins: seq<seq<int>>, d: int)
    requires Tiled(h, chunks) && Listed(h, chunks, bins, {d}) && Free(h, chunks, d)
    ensures Pending(h, chunks, bins, d)
  {
    TiledIsBut(h, chunks, d);
  }

  lemma AbsorbBlock(h: Heap, chunks: set<int>, x: int, n: int, b: int)
    requires Absorbable(h, chunks, x, n)
    ensures x != n && x in h && n in h
    ensures var h' := Absorb(h, x, n);
            (Block(h', chunks, b) <==> Block(h, chunks, b) && b != n)
            && (Block(h', chunks, b) && b != x ==> h'[b] == h[b])
            && Block(h', chunks, x) && h'[x].total > 0 && h'[x].bin == h[x].bin
  {
    assert Block(h, chunks, x);
  }

  lemma AbsorbLive(h: Heap, chunks: set<int>, x: int, n: int)
    requires Absorbable(h, chunks, x, n)
    ensures x in h && n in h && LiveSame(h, chunks, Absorb(h, x, n), chunks)
  {
    AbsorbBlock(h, chunks, x, n, x);
    var h' := Absorb(h, x, n);
    assert h[x].total > 0 && h[n].total > 0;
    hide Absorb, Absorbable;
    forall b {:trigger Live(h, chunks, b)} {:trigger Live(h', chunks, b)}
      ensures Live(h', chunks, b) <==> Live(h, chunks, b)
      ensures Live(h, chunks, b) ==> h'[b].total == h[b].total && h'[b].ref == h[b].ref
    {
      AbsorbBlock(h, chunks, x, n, b);
    }
  }

  // Merging two free blocks that are both between lists.
  lemma AbsorbListed(h: Heap, chunks: set<int>, bins: seq<seq<int>>, x: int, n: int, skip: int)
    requires TiledBut(h, chunks, skip) && (skip == x || skip == n) && Absorbable(h, chunks, x, n)
    requires Listed(h, chunks, bins, {x, n})
    ensures x in h && n in h && Pending(Absorb(h, x, n), chunks, bins, x)
    ensures LiveSame(h, chunks, Absorb(h, x, n), chunks)
  {
    AbsorbTiled(h, chunks, x, n, skip);
    AbsorbLive(h, chunks, x, n);
    AbsorbBlock(h, chunks, x, n, x);
    var h' := Absorb(h, x, n);
    hide TiledBut, Absorb, Absorbable, ListOk, LiveSame;
    forall b ensures Block(h', chunks, b) <==> Block(h, chunks, b) && b != n
             ensures Block(h', chunks, b) && b != x ==> h'[b] == h[b]
    {
      AbsorbBlock(h, chunks, x, n, b);
    }
    hide Block;
    forall b | Block(h', chunks, b) ensures 0 <= h'[b].bin < BIN_COUNT { assert Block(h, chunks, b); }
    forall b | Free(h, chunks, b) && b !in {x, n} ensures Free(h', chunks, b) && b !in {x} {
      assert Block(h', chunks, b);
    }
    Relist(h, chunks, h', chunks, bins, {x, n}, {x});
  }

  lemma MergePrevFacts(h: Heap, chunks: set<int>, bins: seq<seq<int>>, d: int)
    requires Tiled(h, chunks) && Listed(h, chunks, bins, {d}) && Free(h, chunks, d) && h[d].prevFree != 0
    ensures var p := d - h[d].prevFree;
            p in h && p != d && 0 <= h[p].bin < |bins|
            && Pending(Absorb(h, p, d), chunks, Delete(bins, h[p].bin, p), p)
            && LiveSame(h, chunks, Absorb(h, p, d), chunks)
  {
    var p := TagTellsLeftBlock(h, chunks, d);
    DeleteListed(h, chunks, bins, {d}, p);
    assert {d} + {p} == {p, d};
    TiledIsBut(h, chunks, d);
    AbsorbListed(h, chunks, Delete(bins, h[p].bin, p), p, d, d);
  }

  lemma PendingNext(h: Heap, chunks: set<int>, bins: seq<seq<int>>, d: int)
    requires Pending(h, chunks, bins, d)
    ensures d in h && h[d].total > 0 && End(h, d) in h && End(h, d) == d + h[d].total && End(h, d) != d
    ensures h[End(h, d)].total > 0 ==> Absorbable(h, chunks, d, End(h, d)) && Free(h, chunks, End(h, d))
  {
    assert Block(h, chunks, d);
    assert IsDummy(chunks, End(h, d)) ==> h[End(h, d) - DUMMY + DUMMY].total == -1;
  }

  lemma MergeNextFacts(h: Heap, chunks: set<int>, bins: seq<seq<int>>, d: int)
    requires Pending(h, chunks, bins, d) && End(h, d) in h && h[End(h, d)].total > 0
    ensures var n := End(h, d);
            0 <= h[n].bin < |bins| && Pending(Absorb(h, d, n), chunks, Delete(bins, h[n].bin, n), d)
            && LiveSame(h, chunks, Absorb(h, d, n), chunks)
  {
    PendingNext(h, chunks, bins, d);
    var n := End(h, d);
    DeleteListed(h, chunks, bins, {d}, n);
    assert {d} + {n} == {d, n};
    AbsorbListed(h, chunks, Delete(bins, h[n].bin, n), d, n, d);
  }

  // Updates that keep every block where, as large and as free as it was.
  lemma SameBlocks(h: Heap, h': Heap, chunks: set<int>, bins: seq<seq<int>>, out: set<int>)
    requires Listed(h, chunks, bins, out) && h'.Keys == h.Keys
    requires forall b {:trigger h'[b]} :: b in h ==> h'[b].total == h[b].total && h'[b].bin == h[b].bin
    ensures Listed(h', chunks, bins, out)
    ensures forall b :: Live(h', chunks, b) <==> Live(h, chunks, b)
  {
    forall b ensures Block(h', chunks, b) <==> Block(h, chunks, b) {}
    forall b ensures Free(h', chunks, b) <==> Free(h, chunks, b) {}
    forall b | Block(h', chunks, b) ensures 0 <= h'[b].bin < BIN_COUNT { assert Block(h, chunks, b); }
    Relist(h, chunks, h', chunks, bins, out, out);
  }

  lemma SetTagFacts(h: Heap, chunks: set<int>, bins: seq<seq<int>>, d: int)
    requires Pending(h, chunks, bins, d)
    ensures End(h, d) in h && End(h, d) == d + h[d].total
    ensures Tiled(SetTag(h, d), chunks) && Listed(SetTag(h, d), chunks, bins, {d}) && Free(SetTag(h, d), chunks, d)
    ensures LiveSame(h, chunks, SetTag(h, d), chunks)
  {
    PendingNext(h, chunks, bins, d);
    SetTagTiled(h, chunks, d);
    assert SetTag(h, d).Keys == h.Keys;
    SameBlocks(h, SetTag(h, d), chunks, bins, {d});
  }

  lemma RefFacts(h: Heap, chunks: set<int>, bins: seq<seq<int>>, d: int, ref: nat)
    requires Tiled(h, chunks) && Listed(h, chunks, bins, {}) && Live(h, chunks, d)
    ensures Tiled(h[d := h[d].(ref := ref)], chunks) && Listed(h[d := h[d].(ref := ref)], chunks, bins, {})
  {
    var h' := h[d := h[d].(ref := ref)];
    assert h'.Keys == h.Keys;
    SameBlocks(h, h', chunks, bins, {});
    SameExtents(h, h', chunks);
    forall b | Block(h', chunks, b) ensures TagOk(h', b) {
      assert Block(h, chunks, b) && TagOk(h, b);
    }
  }

  lemma ReleaseFacts(h: Heap, chunks: set<int>, bins: seq<seq<int>>, d: int)
    requires Tiled(h, chunks) && Listed(h, chunks, bins, {}) && Live(h, chunks, d)
    ensures Tiled(Blocks.Release(h, d), chunks) && Listed(Blocks.Release(h, d), chunks, bins, {d})
    ensures Free(Blocks.Release(h, d), chunks, d) && LiveLoses(h, chunks, Blocks.Release(h, d), chunks, d)
    ensures 0 <= h[d].bin < BIN_COUNT
  {
    ReleaseTiled(h, chunks, d);
    var h' := Blocks.Release(h, d);
    assert Block(h, chunks, d);
    forall b ensures Block(h', chunks, b) <==> Block(h, chunks, b) {}
    forall b | Block(h', chunks, b) ensures 0 <= h'[b].bin < BIN_COUNT { assert Block(h, chunks, b); }
    hide Tiled, ListOk;
    forall b | Free(h, chunks, b) ensures Free(h', chunks, b) && b !in {d} { assert Block(h', chunks, b); }
    Relist(h, chunks, h', chunks, bins, {}, {d});
  }

  lemma UnmapFacts(h: Heap, chunks: set<int>, bins: seq<seq<int>>, d: int)
    requires Tiled(h, chunks) && Listed(h, chunks, bins, {d}) && Free(h, chunks, d) && h[d].total == DUMMY
    ensures d in chunks && Tiled(Unmap(h, d), chunks - {d}) && Listed(Unmap(h, d), chunks - {d}, bins, {})
    ensures LiveSame(h, chunks, Unmap(h, d), chunks - {d})
  {
    WholeChunk(h, chunks, d);
    UnmapTiled(h, chunks, d);
    var h', chunks' := Unmap(h, d), chunks - {d};
    hide Tiled, ListOk, Housed;
    forall b ensures Block(h', chunks', b) <==> Block(h, chunks, b) && b != d
             ensures Block(h', chunks', b) ==> h'[b] == h[b]
    {}
    hide Unmap, Block;
    forall b | Block(h', chunks', b) ensures 0 <= h'[b].bin < BIN_COUNT { assert Block(h, chunks, b); }
    forall b | Free(h, chunks, b) && b !in {d} ensures Free(h', chunks', b) { assert Block(h', chunks', b); }
    Relist(h, chunks, h', chunks', bins, {d}, {});
    forall b ensures Live(h', chunks', b) <==> Live(h, chunks, b) {
      assert Block(h', chunks', b) <==> Block(h, chunks, b) && b != d;
    }
  }

  lemma TiledParts(h: Heap, chunks: set<int>)
    requires Tiled(h, chunks)
    ensures ChunksOk(h, chunks) && Adjacent(h, chunks)
  {}

  lemma ListedBin(h: Heap, chunks: set<int>, bins: seq<seq<int>>, k: nat, a: int)
    requires Listed(h, chunks, bins, {}) && k < BIN_COUNT && a in bins[k]
    ensures Free(h, chunks, a) && h[a].bin == k
  {
    assert ListOk(h, chunks, bins[k], k, {});
    BinSizesSorted();
    assert Block(h, chunks, a);
    BinsMonotone(BIN_SIZE, h[a].total, h[a].total, k, h[a].bin);
  }

  lemma SplitBlock(h: Heap, chunks: set<int>, a: int, actual: int, b: int)
    requires Tiled(h, chunks) && Free(h, chunks, a) && Splittable(h, chunks, a, actual)
    ensures End(h, a) in h
    ensures var h' := Split(h, a, actual);
            var u := a + h[a].total - actual;
            u != a && u !in h && (Block(h', chunks, b) <==> Block(h, chunks, b) || b == u)
            && (Block(h', chunks, b) && b != a && b != u ==> h'[b] == h[b].(prevFree := h'[b].prevFree))
            && h'[a].total > 0 && h'[a].bin == h[a].bin
            && h'[u] == Desc(-actual, h[a].total - actual, h[a].bin, 1)
  {
    SplitFresh(h, chunks, a, actual);
  }

  lemma SplitLive(h: Heap, chunks: set<int>, a: int, actual: int)
    requires Tiled(h, chunks) && Free(h, chunks, a) && Splittable(h, chunks, a, actual)
    ensures End(h, a) in h
    ensures LiveGains(h, chunks, Split(h, a, actual), chunks, a + h[a].total - actual)
  {
    SplitTiled(h, chunks, a, actual);
    SplitBlock(h, chunks, a, actual, a);
    var h' := Split(h, a, actual);
    var u := a + h[a].total - actual;
    hide Tiled, Split, Splittable;
    forall b ensures Block(h', chunks, b) <==> Block(h, chunks, b) || b == u
             ensures Block(h', chunks, b) && b != a && b != u ==> h'[b] == h[b].(prevFree := h'[b].prevFree)
    {
      SplitBlock(h, chunks, a, actual, b);
    }
    hide Block;
    assert Block(h', chunks, a) && Block(h, chunks, a);
  }

  lemma SplitListed(h: Heap, chunks: set<int>, bins: seq<seq<int>>, a: int, actual: int)
    requires Tiled(h, chunks) && Listed(h, chunks, bins, {}) && Free(h, chunks, a) && Splittable(h, chunks, a, actual)
    ensures 0 <= h[a].bin < |bins| && End(h, a) in h
    ensures var h' := Split(h, a, actual);
            var u := a + h[a].total - actual;
            Tiled(h', chunks) && Free(h', chunks, a) && Listed(h', chunks, Delete(bins, h[a].bin, a), {a})
            && LiveGains(h, chunks, h', chunks, u) && u != a && h'[u] == Desc(-actual, h[a].total - actual, h[a].bin, 1)
  {
    SplitTiled(h, chunks, a, actual);
    SplitLive(h, chunks, a, actual);
    DeleteListed(h, chunks, bins, {}, a);
    assert {} + {a} == {a};
    SplitBlock(h, chunks, a, actual, a);
    var h', bins' := Split(h, a, actual), Delete(bins, h[a].bin, a);
    var u := a + h[a].total - actual;
    hide Tiled, Split, Splittable, ListOk, Delete, LiveGains;
    forall b ensures Block(h', chunks, b) <==> Block(h, chunks, b) || b == u
             ensures Block(h', chunks, b) && b != a && b != u ==> h'[b] == h[b].(prevFree := h'[b].prevFree)
    {
      SplitBlock(h, chunks, a, actual, b);
    }
    hide Block;
    assert Block(h', chunks, a);
    forall b | Block(h', chunks, b) ensures 0 <= h'[b].bin < BIN_COUNT { assert b != u ==> Block(h, chunks, b); }
    Relist(h, chunks, h', chunks, bins', {a}, {a});
  }

  lemma TakeListed(h: Heap, chunks: set<int>, bins: seq<seq<int>>, a: int)
    requires Tiled(h, chunks) && Listed(h, chunks, bins, {}) && Free(h, chunks, a)
    ensures 0 <= h[a].bin < |bins| && End(h, a) in h
    ensures var h' := Take(h, a);
            Tiled(h', chunks) && Listed(h', chunks, Delete(bins, h[a].bin, a), {}) && LiveGains(h, chunks, h', chunks, a)
            && h'[a].total == -h[a].total && h'[a].ref == 1
  {
    TakeTiled(h, chunks, a);
    DeleteListed(h, chunks, bins, {}, a);
    assert {} + {a} == {a};
    var h', bins' := Take(h, a), Delete(bins, h[a].bin, a);
    hide ChunksOk, Adjacent, TagOk, ListOk;
    forall b ensures Block(h', chunks, b) <==> Block(h, chunks, b) {}
    Relist(h, chunks, h', chunks, bins', {a}, {});
    forall b | Live(h', chunks, b) && b != a ensures Live(h, chunks, b) { assert Block(h, chunks, b); }
    forall b | Live(h, chunks, b) ensures Live(h', chunks, b) { assert Block(h', chunks, b); }
  }

  // Putting a free block into a list changes nothing for the blocks in use.
  lemma RebinLive(h0: Heap, h: Heap, chunks: set<int>, u: int, a: int, k: int)
    requires LiveGains(h0, chunks, h, chunks, u) && a in h && h[a].total > 0
    ensures LiveGains(h0, chunks, h[a := h[a].(bin := k)], chunks, u)
  {
    var h' := h[a := h[a].(bin := k)];
    forall b ensures Live(h', chunks, b) <==> Live(h, chunks, b) {}
  }

  lemma RebinTiled(h: Heap, chunks: set<int>, a: int, k: int)
    requires Tiled(h, chunks) && Block(h, chunks, a)
    ensures Tiled(h[a := h[a].(bin := k)], chunks)
  {
    var h' := h[a := h[a].(bin := k)];
    assert h'.Keys == h.Keys;
    SameExtents(h, h', chunks);
    forall b | Block(h', chunks, b) ensures TagOk(h', b) {
      assert Block(h, chunks, b) && TagOk(h, b);
    }
  }
}
