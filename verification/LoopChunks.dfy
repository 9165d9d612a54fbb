/** The chunks of a loop range as sets of iterations: every iteration lies in the box of exactly one chunk. */
module LoopChunks {
  import opened Division
  import opened LoopRange

  // The loop over d takes the value v.
  ghost predicate Visits(d: Dim, v: int) { exists k: nat :: VisitsAt(d, v, k) }

  ghost predicate VisitsAt(d: Dim, v: int, k: nat) {
    v == d.lower + k * d.step && if d.step > 0 then v < d.upper else v > d.upper
  }

  // Chunks a to b, b excluded, of a dimension.
  function Stretch(d: Dim, a: nat, b: nat): Dim {
    var end := d.lower + b * d.ChunkSize();
    d.(lower := d.lower + a * d.ChunkSize(), upper := if d.ChunkSize() > 0 then Min(end, d.upper) else Max(end, d.upper))
  }

  // Chunk i of a dimension.
  function ChunkDim(d: Dim, i: nat): Dim { Stretch(d, i, i + 1) }

  // The same loop over the negated numbers.
  function Mirror(d: Dim): Dim { Dim(-d.lower, -d.upper, -d.step, d.blocksize) }

  lemma MirrorVisits(d: Dim, v: int)
    requires d.step != 0
    ensures Visits(Mirror(d), -v) <==> Visits(d, v)
  {
    forall k: nat ensures VisitsAt(Mirror(d), -v, k) <==> VisitsAt(d, v, k) {
      assert k * -d.step == -(k * d.step);
    }
    if Visits(d, v) {
      var k: nat :| VisitsAt(d, v, k);
      assert VisitsAt(Mirror(d), -v, k);
    }
    if Visits(Mirror(d), -v) {
      var k: nat :| VisitsAt(Mirror(d), -v, k);
      assert VisitsAt(d, v, k);
    }
  }

  lemma MirrorStretch(d: Dim, a: nat, b: nat)
    requires d.step < 0 && d.blocksize > 0
    ensures Stretch(Mirror(d), a, b) == Mirror(Stretch(d, a, b))
  {
    MulSign(d.step, d.blocksize);
    assert a * Mirror(d).ChunkSize() == -(a * d.ChunkSize());
    assert b * Mirror(d).ChunkSize() == -(b * d.ChunkSize());
  }

  // With first and last the numbers of the iterations where the stretch begins and ends.
  lemma StretchAt(d: Dim, a: nat, b: nat, k: nat, v: int, first: nat, last: nat)
    requires d.step > 0 && d.ChunkSize() > 0 && VisitsAt(d, v, k)
    requires a * d.ChunkSize() == first * d.step && b * d.ChunkSize() == last * d.step
    requires k < last <==> k * d.step < last * d.step
    ensures Visits(Stretch(d, a, b), v) <==> first <= k < last
  {
    if first <= k < last {
      assert k * d.step == first * d.step + (k - first) * d.step;
      assert VisitsAt(Stretch(d, a, b), v, k - first);
    }
    if Visits(Stretch(d, a, b), v) {
      var r: nat :| VisitsAt(Stretch(d, a, b), v, r);
      assert (first + r) * d.step == first * d.step + r * d.step;
      MulOrder(first + r, k, d.step);
      MulOrder(k, first + r, d.step);
    }
  }

  // The k-th iteration lies in the chunks from a to b just when k divided by the block size does.
  lemma StretchUp(d: Dim, a: nat, b: nat, k: nat, v: int)
    requires d.step > 0 && d.blocksize > 0 && VisitsAt(d, v, k)
    ensures Visits(Stretch(d, a, b), v) <==> a * d.blocksize <= k < b * d.blocksize
  {
    var s := d.blocksize;
    MulSign(d.step, s);
    assert a * (d.step * s) == a * s * d.step && b * (d.step * s) == b * s * d.step;
    MulOrder(k, b * s, d.step);
    MulOrder(b * s, k, d.step);
    StretchAt(d, a, b, k, v, a * s, b * s);
  }

  lemma BetweenBlocks(a: nat, b: nat, k: nat, s: nat, q: nat)
    requires q * s <= k < q * s + s
    ensures a * s <= k < b * s <==> a <= q < b
  {
    MulOrder(a, q, s);
    MulOrder(q, a, s);
    MulOrder(b, q, s);
    MulOrder(q, b, s);
  }

  lemma LastChunk(d: Dim, k: nat, v: int)
    requires d.Ordered() && d.step > 0 && d.blocksize > 0 && VisitsAt(d, v, k)
    ensures k / d.blocksize < Chunks(d)
  {
    var b, q := d.blocksize, k / d.blocksize;
    MulSign(d.step, b);
    CeilDivBounds(d.upper - d.lower, d.ChunkSize());
    DivBounds(k, b);
    MulOrder(Chunks(d), q, d.ChunkSize());
    MulOrder(q * b, k, d.step);
    assert q * b * d.step == q * (d.step * b);
  }

  // The value v of the loop belongs to chunk i: it is taken in just those stretches that contain chunk i.
  ghost predicate ChunkIs(d: Dim, v: int, i: nat) {
    forall a: nat, b: nat {:trigger Stretch(d, a, b)} :: Visits(Stretch(d, a, b), v) <==> a <= i < b
  }

  /** In one dimension, with steps of either sign: every value of the loop belongs to exactly one chunk. */
  lemma OneChunk(d: Dim, v: int) returns (i: nat)
    requires d.Ordered() && d.blocksize > 0 && Visits(d, v)
    ensures i < Chunks(d) && ChunkIs(d, v, i)
  {
    if d.step > 0 {
      i := OneChunkUp(d, v);
    } else {
      MirrorVisits(d, v);
      MirrorCount(d);
      i := OneChunkUp(Mirror(d), -v);
      hide Visits, Chunks;
      forall a: nat, b: nat {:trigger Stretch(d, a, b)} ensures Visits(Stretch(d, a, b), v) <==> a <= i < b {
        assert Visits(Stretch(Mirror(d), a, b), -v) <==> a <= i < b;
        MirrorStretch(d, a, b);
        StretchStep(d, a, b);
        MirrorVisits(Stretch(d, a, b), v);
      }
    }
  }

  lemma StretchStep(d: Dim, a: nat, b: nat)
    ensures Stretch(d, a, b).step == d.step
  {}

  lemma OneChunkUp(d: Dim, v: int) returns (i: nat)
    requires d.Ordered() && d.step > 0 && d.blocksize > 0 && Visits(d, v)
    ensures i < Chunks(d) && ChunkIs(d, v, i)
  {
    var k: nat :| VisitsAt(d, v, k);
    i := k / d.blocksize;
    LastChunk(d, k, v);
    DivMod(k, d.blocksize);
    hide Visits, VisitsAt, Stretch, Chunks;
    forall a: nat, b: nat {:trigger Stretch(d, a, b)} ensures Visits(Stretch(d, a, b), v) <==> a <= i < b {
      StretchUp(d, a, b, k, v);
      BetweenBlocks(a, b, k, d.blocksize, i);
    }
  }

  lemma MirrorCount(d: Dim)
    requires d.step < 0 && d.Ordered() && d.blocksize > 0
    ensures Chunks(Mirror(d)) == Chunks(d)
  {
    MulSign(d.step, d.blocksize);
  }

  /** Chunks take no other values than the loop does. */
  lemma ChunkStaysInside(d: Dim, a: nat, b: nat, v: int)
    requires d.Ordered() && d.blocksize > 0 && Visits(Stretch(d, a, b), v)
    ensures Visits(d, v)
  {
    var r: nat :| VisitsAt(Stretch(d, a, b), v, r);
    var k := a * d.blocksize + r;
    assert a * (d.step * d.blocksize) == a * d.blocksize * d.step;
    assert k * d.step == a * d.blocksize * d.step + r * d.step;
    MulSign(d.step, d.blocksize);
    assert VisitsAt(d, v, k);
  }

  // ----- chunk numbers in mixed radix, the last dimension running fastest

  function Product(n: seq<nat>): nat { if n == [] then 1 else Product(n[..|n| - 1]) * n[|n| - 1] }

  predicate Positive(n: seq<nat>) { forall k :: 0 <= k < |n| ==> n[k] > 0 }

  function Digits(c: nat, n: seq<nat>): (t: seq<nat>)
    requires Positive(n)
    ensures |t| == |n|
    decreases |n|
  {
    if n == [] then [] else Digits(Quot(c, n[|n| - 1]), n[..|n| - 1]) + [Rem(c, n[|n| - 1])]
  }

  function Encode(t: seq<nat>, n: seq<nat>): nat
    requires |t| == |n|
  {
    if n == [] then 0 else Encode(t[..|t| - 1], n[..|n| - 1]) * n[|n| - 1] + t[|t| - 1]
  }

  ghost predicate InRadix(t: seq<nat>, n: seq<nat>) { |t| == |n| && forall k :: 0 <= k < |n| ==> t[k] < n[k] }

  lemma {:induction false} EncodeBelow(t: seq<nat>, n: seq<nat>)
    requires InRadix(t, n)
    ensures Encode(t, n) < Product(n)
  {
    if n != [] {
      var m, x := n[..|n| - 1], n[|n| - 1];
      EncodeBelow(t[..|t| - 1], m);
      MulMono(Encode(t[..|t| - 1], m) + 1, Product(m), x);
      assert (Encode(t[..|t| - 1], m) + 1) * x == Encode(t[..|t| - 1], m) * x + x;
    }
  }

  /** Decoding a chunk number and encoding the digits are inverse to each other. */
  lemma {:induction false} DigitsOfEncode(t: seq<nat>, n: seq<nat>)
    requires InRadix(t, n) && Positive(n)
    ensures Digits(Encode(t, n), n) == t
  {
    if n != [] {
      var m, x := n[..|n| - 1], n[|n| - 1];
      DigitsOfEncode(t[..|t| - 1], m);
      QuotRem(Encode(t, n), x);
      QuotUnique(x, Encode(t[..|t| - 1], m), t[|t| - 1], Quot(Encode(t, n), x), Rem(Encode(t, n), x));
      assert t == t[..|t| - 1] + [t[|t| - 1]];
    }
  }

  lemma {:induction false} EncodeOfDigits(c: nat, n: seq<nat>)
    requires c < Product(n) && Positive(n)
    ensures InRadix(Digits(c, n), n) && Encode(Digits(c, n), n) == c
  {
    if n != [] {
      var m, x := n[..|n| - 1], n[|n| - 1];
      QuotRem(c, x);
      MulOrder(Product(m), Quot(c, x), x);
      hide Quot, Rem;
      EncodeOfDigits(Quot(c, x), m);
      var t := Digits(c, n);
      assert t[..|t| - 1] == Digits(Quot(c, x), m);
      forall k | 0 <= k < |n| ensures t[k] < n[k] {
        if k < |m| { assert t[k] == Digits(Quot(c, x), m)[k]; }
      }
    }
  }

  // ----- ranges

  ghost predicate RangeOk(dims: seq<Dim>) { forall k {:trigger dims[k]} :: 0 <= k < |dims| ==> dims[k].Ordered() && dims[k].blocksize > 0 }

  ghost function Counts(dims: seq<Dim>): (n: seq<nat>)
    requires RangeOk(dims)
    ensures |n| == |dims| && forall k :: 0 <= k < |dims| ==> n[k] == Chunks(dims[k]) > 0
  {
    if dims == [] then [] else
      ChunksPositive(dims[|dims| - 1]);
      Counts(dims[..|dims| - 1]) + [Chunks(dims[|dims| - 1])]
  }

  lemma ChunksPositive(d: Dim)
    requires d.Ordered() && d.blocksize > 0
    ensures Chunks(d) > 0
  {
    MulSign(d.step, d.blocksize);
    if d.step > 0 { CeilDivBounds(d.upper - d.lower, d.ChunkSize()); } else { CeilDivBounds(d.lower - d.upper, -d.ChunkSize()); }
  }

  ghost predicate PointIn(dims: seq<Dim>, p: seq<int>) { |p| == |dims| && forall k :: 0 <= k < |dims| ==> Visits(dims[k], p[k]) }

  // The box of chunk c.
  ghost predicate IsBox(dims: seq<Dim>, c: nat, box: seq<Dim>)
    requires RangeOk(dims)
  {
    |box| == |dims| && forall k :: 0 <= k < |dims| ==> box[k] == ChunkDim(dims[k], Digits(c, Counts(dims))[k])
  }

  ghost predicate InChunk(dims: seq<Dim>, c: nat, p: seq<int>)
    requires RangeOk(dims)
  {
    |p| == |dims| && forall k {:trigger dims[k]} :: 0 <= k < |dims| ==> Visits(ChunkDim(dims[k], Digits(c, Counts(dims))[k]), p[k])
  }

  /** Counting the chunks of a range. */
  method CalcChunkInfo(dims: seq<Dim>) returns (chunksize: seq<int>, chunks: seq<nat>, total: nat)
    requires RangeOk(dims)
    ensures |chunksize| == |dims| && forall k :: 0 <= k < |dims| ==> chunksize[k] == dims[k].ChunkSize() != 0
    ensures chunks == Counts(dims) && total == Product(chunks)
  {
    chunksize, chunks, total := [], [], 1;
    for d := 0 to |dims|
      invariant |chunksize| == |chunks| == d && forall k :: 0 <= k < d ==> chunksize[k] == dims[k].ChunkSize() != 0
      invariant forall k :: 0 <= k < d ==> chunks[k] == Chunks(dims[k])
      invariant total == Product(chunks)
    {
      MulSign(dims[d].step, dims[d].blocksize);
      var cs := dims[d].step * dims[d].blocksize;
      var n := if cs > 0 then (dims[d].upper - dims[d].lower + cs - 1) / cs else (dims[d].lower - dims[d].upper + -cs - 1) / -cs;
      assert (chunks + [n])[..d] == chunks;
      chunksize, chunks := chunksize + [cs], chunks + [n];
      total := total * n;
    }
  }

  // The bounds of one dimension of the box.
  method SetBounds(dims: seq<Dim>, d: nat, index: nat, range: array<Dim>)
    requires d < |dims| == range.Length && range[d] == dims[d]
    modifies range
    ensures range[d] == ChunkDim(dims[d], index)
    ensures forall k :: 0 <= k < range.Length && k != d ==> range[k] == old(range[k])
  {
    var chunksize := dims[d].step * dims[d].blocksize;
    assert (index + 1) * chunksize == index * chunksize + chunksize;
    range[d] := range[d].(lower := dims[d].lower + index * chunksize);
    if chunksize > 0 {
      range[d] := range[d].(upper := Min(range[d].lower + chunksize, dims[d].upper));
    } else {
      range[d] := range[d].(upper := Max(range[d].lower + chunksize, dims[d].upper));
    }
  }

  // The first d digits come from the first d radices.
  lemma DigitStep(ci: nat, chunks: seq<nat>, d: nat)
    requires d < |chunks| && Positive(chunks)
    ensures Digits(ci, chunks[..d + 1]) == Digits(Quot(ci, chunks[d]), chunks[..d]) + [Rem(ci, chunks[d])]
  {
    assert chunks[..d + 1][..d] == chunks[..d];
  }

  /** Decoding: the box of chunk number c. */
  method ComputeChunkRange(dims: seq<Dim>, chunks: seq<nat>, c: nat, range: array<Dim>)
    requires RangeOk(dims) && chunks == Counts(dims) && range[..] == dims
    modifies range
    ensures IsBox(dims, c, range[..])
  {
    var ci := c;
    ghost var all := Digits(c, chunks);
    assert chunks[..|dims|] == chunks && all[..|dims|] == all;
    forall k | 0 <= k < |dims| ensures range[k] == dims[k] { assert range[..][k] == dims[k]; }
    hide Quot, Rem, Digits, ChunkDim, RangeOk, Counts;
    for d := |dims| downto 0
      invariant forall k :: 0 <= k < |dims| ==> range[k] == if k < d then dims[k] else ChunkDim(dims[k], all[k])
      invariant Positive(chunks) && DigitsLeft(ci, chunks, all, d)
    {
      DigitsStep(ci, chunks, all, d);
      var index;
      ci, index := DivRem(ci, chunks[d]);
      SetBounds(dims, d, index, range);
    }
  }

  // The first d of the digits are those of ci.
  ghost predicate DigitsLeft(ci: nat, chunks: seq<nat>, all: seq<nat>, d: nat)
    requires Positive(chunks)
  {
    d <= |chunks| == |all| && Digits(ci, chunks[..d]) == all[..d]
  }

  lemma DigitsStep(ci: nat, chunks: seq<nat>, all: seq<nat>, d: nat)
    requires Positive(chunks) && DigitsLeft(ci, chunks, all, d + 1)
    ensures all[d] == Rem(ci, chunks[d]) && DigitsLeft(Quot(ci, chunks[d]), chunks, all, d)
  {
    DigitStep(ci, chunks, d);
    hide Quot, Rem, Digits;
    assert all[..d + 1][..d] == all[..d] && all[..d + 1][d] == all[d];
  }

  /** In any number of dimensions: every point of the iteration space lies in exactly one chunk, and chunks hold
      no other points. */
  lemma EveryPointOnce(dims: seq<Dim>, p: seq<int>) returns (c: nat)
    requires RangeOk(dims) && PointIn(dims, p)
    ensures c < Product(Counts(dims))
    ensures forall b: nat :: b < Product(Counts(dims)) ==> (InChunk(dims, b, p) <==> b == c)
    ensures forall b: nat, q {:trigger InChunk(dims, b, q)} :: InChunk(dims, b, q) ==> PointIn(dims, q)
  {
    forall b: nat, q {:trigger InChunk(dims, b, q)} | InChunk(dims, b, q) ensures PointIn(dims, q) { ChunksHoldNoMore(dims, b, q); }
    var n := Counts(dims);
    hide PointIn;
    var t := ChunkOf(dims, p);
    c := Encode(t, n);
    EncodeBelow(t, n);
    DigitsOfEncode(t, n);
    forall b: nat | b < Product(n) ensures InChunk(dims, b, p) <==> b == c {
      EncodeOfDigits(b, n);
      var s := Digits(b, n);
      if InChunk(dims, b, p) {
        forall k | 0 <= k < |n| ensures s[k] == t[k] { assert Visits(ChunkDim(dims[k], s[k]), p[k]); }
        assert s == t;
      }
    }
  }

  lemma {:induction false} ChunkOf(dims: seq<Dim>, p: seq<int>) returns (t: seq<nat>)
    requires RangeOk(dims) && PointIn(dims, p)
    ensures InRadix(t, Counts(dims))
    ensures forall k, j: nat :: 0 <= k < |dims| ==> (Visits(ChunkDim(dims[k], j), p[k]) <==> j == t[k])
  {
    t := [];
    for d := 0 to |dims|
      invariant |t| == d && forall k :: 0 <= k < d ==> t[k] < Chunks(dims[k])
      invariant forall k, j: nat :: 0 <= k < d ==> (Visits(ChunkDim(dims[k], j), p[k]) <==> j == t[k])
    {
      var i := OneChunk(dims[d], p[d]);
      forall j: nat ensures Visits(ChunkDim(dims[d], j), p[d]) <==> j == i { assert Visits(Stretch(dims[d], j, j + 1), p[d]) <==> j == i; }
      hide Visits, ChunkDim;
      t := t + [i];
    }
  }

  lemma ChunksHoldNoMore(dims: seq<Dim>, c: nat, p: seq<int>)
    requires RangeOk(dims) && InChunk(dims, c, p)
    ensures PointIn(dims, p)
  {
    forall k | 0 <= k < |dims| ensures Visits(dims[k], p[k]) { ChunkStaysInside(dims[k], Digits(c, Counts(dims))[k], Digits(c, Counts(dims))[k] + 1, p[k]); }
  }

  /** The number of threads of a loop never exceeds its number of chunks. */
  method NumThreads(dims: seq<Dim>, concurrency: nat, groupSize: nat, kernelConcurrency: nat) returns (threads: nat)
    requires RangeOk(dims)
    ensures threads <= Product(Counts(dims)) && threads <= concurrency && threads <= groupSize && threads <= kernelConcurrency
    ensures threads in {Product(Counts(dims)), concurrency, groupSize, kernelConcurrency}
  {
    var total := 1;
    ghost var counts: seq<nat> := [];
    for i := 0 to |dims|
      invariant |counts| == i && (forall k :: 0 <= k < i ==> counts[k] == Chunks(dims[k])) && total == Product(counts)
    {
      var d := dims[i];
      MulSign(d.step, d.blocksize);
      var n := if d.lower < d.upper then DivUp(d.upper - d.lower, d.blocksize * d.step) else DivUp(d.lower - d.upper, -d.blocksize * d.step);
      assert d.blocksize * d.step == d.ChunkSize() && -d.blocksize * d.step == -d.ChunkSize();
      if d.lower < d.upper { DivUpPositive(d.upper - d.lower, d.ChunkSize()); } else { DivUpPositive(d.lower - d.upper, -d.ChunkSize()); }
      assert n == Chunks(d);
      assert (counts + [Chunks(d)])[..i] == counts;
      total := total * n;
      counts := counts + [Chunks(d)];
    }
    assert counts == Counts(dims);
    threads := Min(Min(Min(concurrency, total), groupSize), kernelConcurrency);
  }

  // ----- the static policy in one dimension

  // Both ends of thread t's share are computed within 64 bits.
  predicate ShareFits(lower: int, chunksize: int, base: nat, remain: nat, t: nat) {
    var start := lower + t * chunksize * base;
    Fits(t * chunksize) && Fits(t * chunksize * base) && Fits(start)
    && Fits(Min(remain, t) * chunksize) && Fits(start + Min(remain, t) * chunksize)
    && Fits(chunksize * base) && Fits(start + chunksize * base)
    && Fits(Min(remain, t + 1) * chunksize) && Fits(start + chunksize * base + Min(remain, t + 1) * chunksize)
  }

  /** A thread's share under the static policy is the stretch from its first chunk to the next thread's. fits tells
      whether each value computed was within 64 bits: that is so for every thread but the last one; for the last one
      it is so exactly if a whole last chunk would still end within 64 bits. */
  method StaticShare(d: Dim, threads: nat, t: nat) returns (r: Dim, ghost fits: bool)
    requires d.Ordered() && d.blocksize > 0 && t < threads
    ensures r == Stretch(d, ShareStart(Chunks(d), threads, t), ShareStart(Chunks(d), threads, t + 1))
    ensures d.IsInt64() && DimOk(d, Static) && threads <= Chunks(d) ==>
              (fits <==> t + 1 < threads || Fits(d.lower + Chunks(d) * d.ChunkSize()))
  {
    var total := Chunks(d);
    var chunksize := d.ChunkSize();
    var base, remain := DivRem(total, threads);
    fits := ShareFits(d.lower, chunksize, base, remain, t);
    if d.IsInt64() && DimOk(d, Static) && threads <= total { ShareFitsIf(d, threads, t); }
    hide Chunks, Quot, Rem, ShareFits;
    var lower := d.lower + t * chunksize * base;
    var first := lower + Min(remain, t) * chunksize;
    var last := lower + chunksize * base + Min(remain, t + 1) * chunksize;
    Distribute(t, base, Min(remain, t), chunksize);
    Distribute(t + 1, base, Min(remain, t + 1), chunksize);
    if chunksize > 0 { last := Min(last, d.upper); } else { last := Max(last, d.upper); }
    r := Dim(first, last, d.step, d.blocksize);
  }

  // m chunks have a size, and chunk m a lower bound, within 64 bits.
  predicate SizeFits(d: Dim, m: nat) { Fits(m * d.ChunkSize()) }

  predicate BoundFits(d: Dim, m: nat) { Fits(d.lower + m * d.ChunkSize()) }

  lemma MultipleFits(d: Dim, m: nat)
    requires d.IsInt64() && DimOk(d, Static) && m <= Chunks(d)
    ensures SizeFits(d, m) && (m < Chunks(d) ==> BoundFits(d, m))
  {
    ChunkSigns(d, Static);
    CeilDivBounds(d.Extent(), Abs(d.ChunkSize()));
    var n, s := Chunks(d), Abs(d.ChunkSize());
    assert n * s < d.Extent() + s;
    MulOrder(m, n, s);
    SignedProduct(m, d.ChunkSize());
    hide Chunks, Dim.ChunkSize;
  }

  lemma ShareIsMultiples(d: Dim, base: nat, remain: nat, t: nat)
    ensures ShareFits(d.lower, d.ChunkSize(), base, remain, t) <==>
            SizeFits(d, t) && SizeFits(d, t * base) && BoundFits(d, t * base) && SizeFits(d, Min(remain, t)) && BoundFits(d, t * base + Min(remain, t))
            && SizeFits(d, base) && BoundFits(d, (t + 1) * base) && SizeFits(d, Min(remain, t + 1)) && BoundFits(d, (t + 1) * base + Min(remain, t + 1))
  {
    var s := d.ChunkSize();
    hide Dim.ChunkSize;
    Distribute(t, base, 0, s);
    Distribute(t, base, Min(remain, t), s);
    Distribute(t + 1, base, 0, s);
    Distribute(t + 1, base, Min(remain, t + 1), s);
    assert s * base == base * s;
  }

  lemma ShareFitsIf(d: Dim, threads: nat, t: nat)
    requires d.IsInt64() && DimOk(d, Static) && t < threads <= Chunks(d)
    ensures ShareFits(d.lower, d.ChunkSize(), Quot(Chunks(d), threads), Rem(Chunks(d), threads), t)
            <==> t + 1 < threads || BoundFits(d, Chunks(d))
  {
    var n := Chunks(d);
    var base, remain := Quot(n, threads), Rem(n, threads);
    ShareIsMultiples(d, base, remain, t);
    QuotRem(n, threads);
    ShareFacts(n, threads, t);
    SharesBelow(n, threads, t);
    ShareMono(n, threads, t + 1, threads);
    assert base > 0;
    assert ShareStart(n, threads, t) == t * base + Min(remain, t) && ShareStart(n, threads, t + 1) == (t + 1) * base + Min(remain, t + 1);
    hide Chunks, Quot, Rem, DimOk, SizeFits, BoundFits, ShareFits, ShareStart;
    assert (t + 1) * base == t * base + base && t * base >= t && base <= threads * base && n == base * threads + remain by { MulMono(1, base, t); MulMono(1, threads, base); }
    MultipleFits(d, t);
    MultipleFits(d, t * base);
    MultipleFits(d, Min(remain, t));
    MultipleFits(d, t * base + Min(remain, t));
    MultipleFits(d, base);
    MultipleFits(d, (t + 1) * base);
    MultipleFits(d, Min(remain, t + 1));
    MultipleFits(d, (t + 1) * base + Min(remain, t + 1));
  }

  lemma SharesBelow(n: nat, threads: nat, t: nat)
    requires t < threads <= n
    ensures ShareStart(n, threads, t + 1) < n <==> t + 1 < threads
  {
    ShareFacts(n, threads, t);
    if t + 1 < threads {
      ShareFacts(n, threads, threads - 1);
      ShareMono(n, threads, t + 1, threads - 1);
    }
  }

  // A static loop near the end of 64 bits whose last thread computes an upper bound outside them.
  lemma StaticShareExample()
    ensures var d := Dim(INT64_MAX - 10, INT64_MAX, 7, 1);
            d.IsInt64() && Accepted([d], Static) && Chunks(d) == 2 && !Fits(d.lower + Chunks(d) * d.ChunkSize())
  {
    OneDimension(Dim(INT64_MAX - 10, INT64_MAX, 7, 1), Static);
  }

  lemma Distribute(t: int, base: int, m: int, cs: int)
    ensures (t * base + m) * cs == t * cs * base + m * cs
    ensures t * cs * base == (t - 1) * cs * base + cs * base
  {}

  lemma {:induction false} ShareOf(total: nat, threads: nat, i: nat, n: nat) returns (t: nat)
    requires threads > 0 && i < ShareStart(total, threads, n)
    ensures t < n && ShareStart(total, threads, t) <= i < ShareStart(total, threads, t + 1)
    decreases n
  {
    if n == 0 || i >= ShareStart(total, threads, n - 1) { t := n - 1; } else { t := ShareOf(total, threads, i, n - 1); }
  }

  /** Under the static policy every value of the loop falls into exactly one thread's share. */
  lemma StaticOnce(d: Dim, threads: nat, v: int) returns (t: nat)
    requires d.Ordered() && d.blocksize > 0 && threads > 0 && Visits(d, v)
    ensures t < threads
    ensures forall u: nat :: u < threads ==>
              (Visits(Stretch(d, ShareStart(Chunks(d), threads, u), ShareStart(Chunks(d), threads, u + 1)), v) <==> u == t)
  {
    var total := Chunks(d);
    var i := OneChunk(d, v);
    ShareFacts(total, threads, 0);
    t := ShareOf(total, threads, i, threads);
    hide Chunks, ShareStart, Visits, Stretch;
    forall u: nat | u < threads
      ensures Visits(Stretch(d, ShareStart(total, threads, u), ShareStart(total, threads, u + 1)), v) <==> u == t
    {
      if u < t { ShareMono(total, threads, u + 1, t); }
      if t < u { ShareMono(total, threads, t + 1, u); }
    }
  }
}
