/** Loop ranges of one to three dimensions: the check that accepts them, how they are cut into chunks, and how
    a chunk number is decoded into a box. */
module LoopRange {
  import opened Division

  const INT64_MAX := 0x7FFF_FFFF_FFFF_FFFF
  const INT64_MIN := -0x8000_0000_0000_0000
  const MAX_CHUNK := INT64_MAX - 1
  const MAX_DIM := 3

  datatype Policy = Static | Dynamic | Task

  // One dimension: lower, lower + step, ... up to but not including upper.
  datatype Dim = Dim(lower: int, upper: int, step: int, blocksize: int) {
    predicate IsInt64() { Fits(lower) && Fits(upper) && Fits(step) && Fits(blocksize) }

    function ChunkSize(): int { step * blocksize }

    function Extent(): int { Abs(upper - lower) }

    predicate Ordered() { (step > 0 && lower < upper) || (step < 0 && lower > upper) }
  }

  predicate Fits(x: int) { INT64_MIN <= x <= INT64_MAX }

  function Abs(x: int): nat { if x < 0 then -x else x }

  // Division as in C: the quotient is truncated.
  function CDiv(a: int, b: int): int
    requires b != 0
  {
    var q := (if a < 0 then -a else a) / (if b < 0 then -b else b);
    if (a < 0) == (b < 0) then q else -q
  }

  function DivUp(a: int, b: int): int
    requires b != 0
  {
    CDiv(a + b - 1, b)
  }

  lemma DivUpPositive(a: nat, b: nat)
    requires a > 0 && b > 0
    ensures DivUp(a, b) == CeilDiv(a, b) > 0
  {
    CeilDivBounds(a, b);
  }

  // ----- the check

  // The block size that the check leaves in the range.
  function Normal(d: Dim, p: Policy): Dim {
    if p == Static then d.(blocksize := 1) else if d.blocksize == 0 then d.(blocksize := 1) else d
  }

  /** A dimension whose block size is final may be used: it has iterations, and one chunk more than it has still
      has bounds within 64 bits. */
  predicate DimOk(d: Dim, p: Policy) {
    d.Ordered() && d.blocksize > 0 && d.Extent() + Abs(d.ChunkSize()) <= INT64_MAX + 1
    && (p != Static ==> Abs(d.ChunkSize()) <= MAX_CHUNK && Fits(d.upper + d.ChunkSize()))
  }

  // The number of chunks that the check counts; static loops are counted in steps, which is the same.
  function Counted(d: Dim): int
    requires d.ChunkSize() != 0
  {
    DivUp(d.upper - d.lower, d.ChunkSize())
  }

  function CountedProduct(dims: seq<Dim>): int
    requires forall d :: d in dims ==> d.ChunkSize() != 0
  {
    if dims == [] then 1 else CountedProduct(dims[..|dims| - 1]) * Counted(dims[|dims| - 1])
  }

  // The accepted chunk sizes have the sign of the step.
  lemma ChunkSigns(d: Dim, p: Policy)
    requires DimOk(d, p)
    ensures (d.step > 0 <==> d.ChunkSize() > 0) && (d.step < 0 <==> d.ChunkSize() < 0)
  {
    MulSign(d.step, d.blocksize);
  }

  lemma MulSign(s: int, b: int)
    ensures s > 0 && b > 0 ==> s * b > 0
    ensures s < 0 && b > 0 ==> s * b < 0 && (-s) * b == -(s * b)
  {}

  lemma CountedPositive(d: Dim, p: Policy)
    requires DimOk(d, p)
    ensures d.ChunkSize() != 0 && Counted(d) > 0
  {
    ChunkSigns(d, p);
    if d.step > 0 {
      DivUpPositive(d.upper - d.lower, d.ChunkSize());
    } else {
      var a, b := d.lower - d.upper, -d.ChunkSize();
      assert -(d.upper - d.lower + d.ChunkSize() - 1) == a + b + 1;
      DivMono(b, a + b + 1, b);
    }
  }

  function NormalAll(dims: seq<Dim>, p: Policy): (r: seq<Dim>)
    ensures |r| == |dims| && forall k :: 0 <= k < |dims| ==> r[k] == Normal(dims[k], p)
  {
    if dims == [] then [] else NormalAll(dims[..|dims| - 1], p) + [Normal(dims[|dims| - 1], p)]
  }

  ghost predicate AllOk(dims: seq<Dim>, p: Policy) {
    forall k {:trigger dims[k]} :: 0 <= k < |dims| ==> DimOk(dims[k], p) && (p == Static ==> dims[k].blocksize == 1)
  }

  lemma AllNonZero(dims: seq<Dim>, p: Policy)
    requires AllOk(dims, p)
    ensures forall d :: d in dims ==> d.ChunkSize() != 0
  {
    forall d | d in dims ensures d.ChunkSize() != 0 {
      var k :| 0 <= k < |dims| && dims[k] == d;
      ChunkSigns(dims[k], p);
    }
  }

  lemma MulAssoc(a: int, b: int, c: int)
    ensures a * (b * c) == a * c * b
  {}

  // The budget m divided by prod, rounded down, is remain.
  ghost predicate Budget(m: nat, remain: nat, prod: nat) { prod > 0 && remain * prod <= m < (remain + 1) * prod }

  lemma BudgetTells(m: nat, remain: nat, prod: nat)
    requires Budget(m, remain, prod)
    ensures remain != 0 <==> prod <= m
  {
    if remain > 0 { MulMono(1, remain, prod); }
  }

  lemma BudgetMath(m: nat, remain: nat, prod: nat, c: nat)
    requires c > 0 && prod > 0 && remain * prod <= m < (remain + 1) * prod
    ensures prod * c > 0 && (remain / c) * (prod * c) <= m < (remain / c + 1) * (prod * c)
  {
    DivBounds(remain, c);
    var q := remain / c;
    MulMono(q * c, remain, prod);
    MulMono(remain + 1, (q + 1) * c, prod);
    MulAssoc(q, prod, c);
    MulAssoc(q + 1, prod, c);
    MulMono(1, c, prod);
  }

  // Dividing the budget m by one count after the other tells exactly whether the product stays within it.
  lemma BudgetStep(m: nat, remain: nat, prod: nat, c: nat, q: nat, more: nat)
    requires c > 0 && Budget(m, remain, prod) && q == remain / c && more == prod * c
    ensures Budget(m, q, more)
  {
    BudgetMath(m, remain, prod, c);
  }

  // ----- what the check computes on the way

  /** For these the count of the chunks leaves 64 bits: either the extent and the size of a chunk add up to 2^63,
      which is one too many, or the quotient does. */
  predicate CountOverflows(d: Dim) {
    d.Extent() + Abs(d.ChunkSize()) == INT64_MAX + 1 || (d.ChunkSize() == -1 && d.Extent() == INT64_MAX - 1)
  }

  // The least step of all has no negation, which the tests for negative steps ask for.
  predicate NegatesMin(d: Dim, p: Policy) {
    d.Ordered() && d.step == INT64_MIN && (p == Static ==> d.Extent() <= INT64_MAX)
  }

  predicate Overflows(d: Dim, p: Policy) { NegatesMin(d, p) || (DimOk(Normal(d, p), p) && CountOverflows(Normal(d, p))) }

  // Division by the block size tells whether the chunk size is within the limit.
  lemma BlockTest(b: int, m: nat)
    requires b != 0 && m > 0
    ensures CDiv(MAX_CHUNK, b) < m <==> !(b > 0 && m * b <= MAX_CHUNK)
  {
    if b > 0 {
      DivBounds(MAX_CHUNK, b);
      var q := MAX_CHUNK / b;
      assert CDiv(MAX_CHUNK, b) == q;
      hide *;
      assert (q + 1) * b == q * b + b;
      MulOrder(m, q, b);
      MulOrder(q, m, b);
    } else {
      QuotientBelow(MAX_CHUNK, -b);
    }
  }

  lemma QuotientBelow(v: nat, b: nat)
    requires b > 0
    ensures 0 <= v / b <= v
  {
    DivBounds(v, b);
    DivNonNegative(v, b);
    var q: nat := v / b;
    hide *;
    MulMono(1, b, q);
    assert q * b == b * q;
  }

  // The tests of block and chunk size under the dynamic and task policies.
  method TestBlock(d: Dim) returns (ok: bool, ghost fits: bool)
    requires d.IsInt64() && d.step != 0 && d.blocksize != 0
    ensures ok <==> d.blocksize > 0 && Abs(d.ChunkSize()) <= MAX_CHUNK && Fits(d.upper + d.ChunkSize())
    ensures fits <==> d.step != INT64_MIN
  {
    var step, b := d.step, d.blocksize;
    BlockTest(b, Abs(step));
    if b > 0 { ChunkAbs(step, b); }
    hide CDiv;
    fits := step < 0 ==> Fits(-step);
    if (step > 0 && CDiv(MAX_CHUNK, b) < step) || (step < 0 && CDiv(MAX_CHUNK, b) < -step) {
      return false, fits;
    }
    var chunksize := b * step;
    fits := fits && Fits(chunksize) && Fits(if chunksize > 0 then INT64_MAX - chunksize else INT64_MIN - chunksize);
    ok := !((chunksize > 0 && INT64_MAX - chunksize < d.upper) || (chunksize < 0 && INT64_MIN - chunksize > d.upper));
  }

  // The tests of the extent.
  method TestExtent(d: Dim) returns (ok: bool, ghost fits: bool)
    requires d.IsInt64() && d.Ordered() && d.blocksize > 0 && (Abs(d.ChunkSize()) <= MAX_CHUNK || d.blocksize == 1)
    ensures ok <==> d.Extent() + Abs(d.ChunkSize()) <= INT64_MAX + 1
    ensures fits <==> (d.step == INT64_MIN ==> d.Extent() > INT64_MAX)
  {
    var lower, upper, size := d.lower, d.upper, -d.step * d.blocksize;
    ChunkAbs(d.step, d.blocksize);
    fits := true;
    if d.step > 0 {
      fits := upper >= 0 && lower < 0 ==> Fits(INT64_MAX + lower);
      if upper >= 0 && lower < 0 && upper > INT64_MAX + lower { return false, fits; }
      size := d.step * d.blocksize;
      fits := fits && Fits(upper - lower) && Fits(upper - lower - 1) && Fits(size) && Fits(INT64_MAX - size);
      if upper - lower - 1 > INT64_MAX - size { return false, fits; }
    }
    if d.step < 0 {
      fits := fits && (lower >= 0 && upper < 0 ==> Fits(INT64_MAX + upper));
      if lower >= 0 && upper < 0 && lower > INT64_MAX + upper { return false, fits; }
      fits := fits && Fits(lower - upper) && Fits(-d.step) && Fits(size) && Fits(size - 1) && Fits(INT64_MAX - (size - 1));
      if lower - upper > INT64_MAX - (size - 1) { return false, fits; }
    }
    return true, fits;
  }

  /** The tests of one dimension, and the update of its block size. fits tells whether each value computed was
      within 64 bits. */
  method CheckDim(dims: array<Dim>, i: nat, policy: Policy) returns (ok: bool, ghost fits: bool)
    requires i < dims.Length && dims[i].IsInt64()
    modifies dims
    ensures ok <==> DimOk(Normal(old(dims[i]), policy), policy)
    ensures fits <==> !NegatesMin(old(dims[i]), policy)
    ensures forall k :: 0 <= k < dims.Length && k != i ==> dims[k] == old(dims[k])
    ensures dims[i] == old(dims[i]) || dims[i] == Normal(old(dims[i]), policy)
    ensures ok ==> dims[i] == Normal(old(dims[i]), policy)
  {
    var d := dims[i];
    if (d.upper <= d.lower && d.step > 0) || (d.upper >= d.lower && d.step < 0) || d.step == 0 {
      return false, true;
    }
    hide Dim.ChunkSize;
    ghost var before := true;
    if policy == Static {
      dims[i] := d.(blocksize := 1);
      ChunkOfOne(dims[i]);
    } else {
      if d.blocksize == 0 { dims[i] := d.(blocksize := 1); }
      ok, before := TestBlock(dims[i]);
      if !ok { return false, before; }
    }
    ok, fits := TestExtent(dims[i]);
    fits := before && fits;
  }

  lemma ChunkOfOne(d: Dim)
    requires d.blocksize == 1
    ensures d.ChunkSize() == d.step
  {}

  lemma ChunkAbs(s: int, b: int)
    requires b > 0
    ensures Abs(s * b) == Abs(s) * b && b * s == s * b && (s > 0 <==> s * b > 0) && (s < 0 <==> s * b < 0) && -s * b == -(s * b)
  {
    MulSign(s, b);
  }

  // One turn of the loop: the tests of dimension i, and its share of the budget.
  method CheckNext(dims: array<Dim>, i: nat, policy: Policy, budget: nat, ghost prod: nat) returns (ok: bool, remain: nat, ghost fits: bool)
    requires i < dims.Length && dims[i].IsInt64() && Budget(MAX_CHUNK, budget, prod)
    modifies dims
    ensures ok <==> DimOk(Normal(old(dims[i]), policy), policy)
    ensures fits <==> !Overflows(old(dims[i]), policy)
    ensures dims[..] == old(dims[..])[i := dims[i]]
    ensures dims[i] == old(dims[i]) || dims[i] == Normal(old(dims[i]), policy)
    ensures ok ==> dims[i] == Normal(old(dims[i]), policy) && dims[i].ChunkSize() != 0 && Counted(dims[i]) > 0
                   && (policy == Static ==> dims[i].blocksize == 1) && Budget(MAX_CHUNK, remain, prod * Counted(dims[i]))
  {
    hide DimOk, DivUp, Budget, NegatesMin, CountOverflows;
    remain := budget;
    ok, fits := CheckDim(dims, i, policy);
    if ok {
      var d := dims[i];
      CountedPositive(d, policy);
      CountFits(d, policy);
      var extent, size := d.upper - d.lower, d.step * d.blocksize;
      var c := DivUp(extent, size);
      fits := fits && Fits(extent) && Fits(extent + size) && Fits(extent + size - 1) && Fits(c);
      BudgetStep(MAX_CHUNK, remain, prod, c, remain / c, prod * c);
      remain := remain / c;
    }
  }

  /** What an accepted dimension is counted with leaves 64 bits exactly in the cases named above. */
  lemma CountFits(d: Dim, p: Policy)
    requires d.IsInt64() && DimOk(d, p)
    ensures d.ChunkSize() != 0
    ensures var e, s := d.upper - d.lower, d.ChunkSize();
            Fits(e) && Fits(s) && (Fits(e + s) && Fits(e + s - 1) && Fits(Counted(d)) <==> !CountOverflows(d))
  {
    ChunkSigns(d, p);
    var e, s := d.upper - d.lower, d.ChunkSize();
    var a, b: nat := Abs(e + s - 1), Abs(s);
    QuotientBelow(a, b);
    if s < -1 {
      DivBounds(a, b);
      MulMono(2, b, a / b);
    }
  }

  // The check comes to dimension k.
  predicate Reached(dims: seq<Dim>, p: Policy, k: nat)
    requires k < |dims|
  {
    forall j :: 0 <= j < k ==> DimOk(Normal(dims[j], p), p)
  }

  // Nothing is computed outside 64 bits for the first n dimensions, as far as the check comes.
  ghost predicate RangeFits(dims: seq<Dim>, p: Policy, n: nat)
    requires n <= |dims|
  {
    forall k {:trigger Reached(dims, p, k)} :: 0 <= k < n && Reached(dims, p, k) ==> !Overflows(dims[k], p)
  }

  lemma FitsNext(dims: seq<Dim>, p: Policy, i: nat)
    requires i < |dims| && AllOk(NormalAll(dims, p)[..i], p)
    ensures RangeFits(dims, p, i + 1) <==> RangeFits(dims, p, i) && !Overflows(dims[i], p)
    ensures !DimOk(Normal(dims[i], p), p) ==> (RangeFits(dims, p, |dims|) <==> RangeFits(dims, p, i + 1))
  {
    hide DimOk, Normal, Overflows;
    var normal := NormalAll(dims, p);
    assert forall j :: 0 <= j < i ==> normal[..i][j] == normal[j];
    assert Reached(dims, p, i);
  }

  /** The check accepts a range exactly when it has one to three dimensions, every dimension passes and the
      chunks counted do not exceed 2^63 - 2; block sizes of zero, and those of static loops, become one. fits
      tells whether each value computed was within 64 bits. */
  method CheckRange(dims: array<Dim>, policy: Policy) returns (ok: bool, ghost fits: bool)
    requires forall k :: 0 <= k < dims.Length ==> dims[k].IsInt64()
    modifies dims
    ensures ok ==> dims[..] == NormalAll(old(dims[..]), policy)
    ensures ok <==> 1 <= dims.Length <= MAX_DIM && Accepted(NormalAll(old(dims[..]), policy), policy)
    ensures fits <==> (1 <= dims.Length <= MAX_DIM ==> RangeFits(old(dims[..]), policy, dims.Length))
    ensures MaybeNormal(old(dims[..]), dims[..], policy)
  {
    ghost var was := dims[..];
    ghost var normal := NormalAll(was, policy);
    hide *;
    fits := true;
    CheckStarts(was, policy);
    if dims.Length < 1 || dims.Length > MAX_DIM { return false, fits; }
    var remain: nat := MAX_CHUNK;
    ghost var prod: nat := 1;
    for i := 0 to dims.Length
      invariant Rewritten(was, dims[..], policy, i) && Counting(normal, policy, i, remain, prod)
      invariant fits <==> RangeFits(was, policy, i)
    {
      ghost var inRange;
      ghost var before, budget := dims[..], remain;
      var passed;
      RewriteFacts(was, before, policy, i);
      CountingFacts(was, policy, i, budget, prod);
      passed, remain, inRange := CheckNext(dims, i, policy, remain, prod);
      RewriteNext(was, before, dims[..], policy, i);
      fits := fits && inRange;
      if !passed { return false, fits; }
      CountingNext(normal, policy, i, prod, budget, remain);
      prod := prod * Counted(dims[i]);
    }
    CountingEnd(normal, policy, remain, prod);
    RewriteFacts(was, dims[..], policy, dims.Length);
    return remain != 0, fits;
  }

  lemma CheckStarts(was: seq<Dim>, p: Policy)
    ensures MaybeNormal(was, was, p) && Rewritten(was, was, p, 0) && RangeFits(was, p, 0)
    ensures Counting(NormalAll(was, p), p, 0, MAX_CHUNK, 1)
  {}

  // Each dimension is as it was or has its final block size.
  ghost predicate MaybeNormal(was: seq<Dim>, now: seq<Dim>, p: Policy) {
    |now| == |was| && forall k :: 0 <= k < |was| ==> now[k] == was[k] || now[k] == Normal(was[k], p)
  }

  // The first i dimensions have their final block sizes.
  ghost predicate Rewritten(was: seq<Dim>, now: seq<Dim>, p: Policy, i: nat) {
    MaybeNormal(was, now, p) && forall k :: 0 <= k < |was| ==> now[k] == if k < i then NormalAll(was, p)[k] else was[k]
  }

  lemma RewriteFacts(was: seq<Dim>, now: seq<Dim>, p: Policy, i: nat)
    requires Rewritten(was, now, p, i)
    ensures |now| == |was| && MaybeNormal(was, now, p) && (i < |was| ==> now[i] == was[i]) && (i == |was| ==> now == NormalAll(was, p))
  {}

  lemma RewriteNext(was: seq<Dim>, before: seq<Dim>, now: seq<Dim>, p: Policy, i: nat)
    requires Rewritten(was, before, p, i) && i < |was| == |now|
    requires now == before[i := now[i]]
    requires now[i] == was[i] || now[i] == Normal(was[i], p)
    ensures MaybeNormal(was, now, p) && (now[i] == Normal(was[i], p) ==> Rewritten(was, now, p, i + 1))
  {}

  // The first i dimensions have passed; remain is the budget for the others.
  ghost predicate Counting(normal: seq<Dim>, p: Policy, i: nat, remain: nat, prod: nat) {
    i <= |normal| && AllOk(normal[..i], p) && prod == CountOf(normal[..i], p) && Budget(MAX_CHUNK, remain, prod)
  }

  lemma CountingFacts(was: seq<Dim>, p: Policy, i: nat, remain: nat, prod: nat)
    requires Counting(NormalAll(was, p), p, i, remain, prod) && i < |was|
    ensures Budget(MAX_CHUNK, remain, prod)
    ensures RangeFits(was, p, i + 1) <==> RangeFits(was, p, i) && !Overflows(was[i], p)
    ensures !DimOk(Normal(was[i], p), p) ==>
              !Accepted(NormalAll(was, p), p) && (RangeFits(was, p, |was|) <==> RangeFits(was, p, i + 1))
  {
    hide DimOk, Normal, RangeFits, Overflows, NormalAll;
    var normal := NormalAll(was, p);
    assert AllOk(normal, p) ==> DimOk(normal[i], p);
    FitsNext(was, p, i);
  }

  lemma CountingNext(normal: seq<Dim>, p: Policy, i: nat, prod: nat, budget: nat, remain: nat)
    requires Counting(normal, p, i, budget, prod) && i < |normal|
    requires DimOk(normal[i], p) && (p == Static ==> normal[i].blocksize == 1) && normal[i].ChunkSize() != 0
    requires Counted(normal[i]) > 0 && Budget(MAX_CHUNK, remain, prod * Counted(normal[i]))
    ensures Counting(normal, p, i + 1, remain, prod * Counted(normal[i]))
  {
    hide DimOk, Budget;
    CountOfMore(normal, i, p);
  }

  lemma CountingEnd(normal: seq<Dim>, p: Policy, remain: nat, prod: nat)
    requires Counting(normal, p, |normal|, remain, prod)
    ensures remain != 0 <==> Accepted(normal, p)
  {
    assert normal[..|normal|] == normal;
    BudgetTells(MAX_CHUNK, remain, prod);
  }

  // The chunks that the check counts.
  ghost function CountOf(dims: seq<Dim>, p: Policy): int
    requires AllOk(dims, p)
  {
    AllNonZero(dims, p);
    CountedProduct(dims)
  }

  lemma CountOfMore(dims: seq<Dim>, i: nat, p: Policy)
    requires i < |dims| && AllOk(dims[..i], p) && DimOk(dims[i], p) && (p == Static ==> dims[i].blocksize == 1)
    ensures AllOk(dims[..i + 1], p) && dims[i].ChunkSize() != 0
    ensures CountOf(dims[..i + 1], p) == CountOf(dims[..i], p) * Counted(dims[i])
  {
    assert dims[..i + 1][..i] == dims[..i];
    ChunkSigns(dims[i], p);
    AllNonZero(dims[..i + 1], p);
  }

  ghost predicate Accepted(dims: seq<Dim>, p: Policy) { AllOk(dims, p) && CountOf(dims, p) <= MAX_CHUNK }

  // ----- chunks

  // How many chunks a dimension has.
  function Chunks(d: Dim): nat
    requires d.Ordered() && d.blocksize > 0
  {
    MulSign(d.step, d.blocksize);
    if d.step > 0 then CeilDiv(d.upper - d.lower, d.ChunkSize()) else CeilDiv(d.lower - d.upper, -d.ChunkSize())
  }

  // For positive steps the check counts what is there; for negative steps it counts up to two more.
  lemma CountedIsChunks(d: Dim, p: Policy)
    requires DimOk(d, p) && (p == Static ==> d.blocksize == 1)
    ensures d.Ordered() && d.blocksize > 0 && d.ChunkSize() != 0 && Chunks(d) > 0
    ensures d.step > 0 ==> Counted(d) == Chunks(d)
    ensures d.step < 0 ==> Chunks(d) <= Counted(d) <= Chunks(d) + 2
  {
    ChunkSigns(d, p);
    if d.step > 0 {
      DivUpPositive(d.upper - d.lower, d.ChunkSize());
    } else {
      var a, b := d.lower - d.upper, -d.ChunkSize();
      CeilDivBounds(a, b);
      assert -(d.upper - d.lower + d.ChunkSize() - 1) == a + b + 1;
      DivMono(a + b - 1, a + b + 1, b);
      DivShift(a + b - 1, 2, b);
      MulMono(1, b, 2);
      DivMono(a + b + 1, a + b - 1 + 2 * b, b);
    }
  }

  // What is computed to count the chunks of a loop.
  predicate CountingFits(d: Dim) {
    var n, s := d.Extent(), Abs(d.ChunkSize());
    Fits(n) && Fits(s) && Fits(n + s) && Fits(n + s - 1)
  }

  // What is computed to decode index i of this dimension into the bounds of a box, under either policy.
  predicate BoxFits(d: Dim, i: nat) {
    var s := d.ChunkSize();
    Fits(s) && Fits(i * s) && Fits(d.lower + i * s) && Fits(d.lower + i * s + s)
    && Fits((i + 1) * s) && Fits(d.lower + (i + 1) * s)
  }

  /** What is computed for an accepted dimension, with a step of either sign, when its chunks are counted for the
      loop, and when a chunk is decoded under the dynamic or task policy. It stays within 64 bits, but for the sum
      of extent and chunk size when that is 2^63. */
  lemma AcceptedFits(d: Dim, p: Policy, i: nat)
    requires d.IsInt64() && DimOk(d, p)
    ensures CountingFits(d) <==> d.Extent() + Abs(d.ChunkSize()) != INT64_MAX + 1
    ensures p != Static && i < Chunks(d) ==> BoxFits(d, i)
  {
    ChunkSigns(d, p);
    if p != Static && i < Chunks(d) {
      IndexInside(d, i);
      BoxInside(d, i, i * Abs(d.ChunkSize()));
    }
  }

  lemma IndexInside(d: Dim, i: nat)
    requires d.Ordered() && d.blocksize > 0 && i < Chunks(d)
    ensures i * Abs(d.ChunkSize()) < d.Extent()
    ensures i * d.ChunkSize() == if d.step < 0 then -(i * Abs(d.ChunkSize())) else i * Abs(d.ChunkSize())
  {
    MulSign(d.step, d.blocksize);
    var s, n := Abs(d.ChunkSize()), Chunks(d);
    CeilDivBounds(d.Extent(), s);
    hide *;
    MulOrder(i, n - 1, s);
    assert n * s == (n - 1) * s + s;
    SignedProduct(i, d.ChunkSize());
  }

  lemma BoxInside(d: Dim, i: nat, q: nat)
    requires d.IsInt64() && d.Ordered() && d.blocksize > 0 && Fits(d.upper + d.ChunkSize()) && Abs(d.ChunkSize()) <= MAX_CHUNK
    requires d.Extent() + Abs(d.ChunkSize()) <= INT64_MAX + 1 && (d.step > 0 <==> d.ChunkSize() > 0)
    requires q < d.Extent() && i * d.ChunkSize() == (if d.step < 0 then -(q as int) else q)
    ensures BoxFits(d, i)
  {
    hide Dim.ChunkSize;
    NextMultiple(i, d.ChunkSize());
  }

  lemma NextMultiple(i: nat, s: int)
    ensures (i + 1) * s == i * s + s
  {}

  lemma SignedProduct(i: nat, s: int)
    ensures i * s == if s < 0 then -(i * Abs(s)) else i * Abs(s)
  {}

  // Inputs at which the check leaves 64 bits; the first three are accepted all the same, or would be.
  lemma OverflowExamples()
    ensures var d := Dim(-1, INT64_MAX - 2, 1, 2);
            d.IsInt64() && Overflows(d, Dynamic) && Accepted([d], Dynamic) && !CountingFits(d)
    ensures var d := Dim(INT64_MAX - 3, -2, -1, 2);
            d.IsInt64() && Overflows(d, Dynamic) && Accepted([d], Dynamic) && !CountingFits(d)
    ensures var d := Dim(INT64_MAX - 2, -1, -1, 1);
            d.IsInt64() && Overflows(d, Static) && DimOk(d, Static) && !Fits(Counted(d))
    ensures forall p: Policy :: Overflows(Dim(0, -1, INT64_MIN, 1), p)
  {
    OneDimension(Dim(-1, INT64_MAX - 2, 1, 2), Dynamic);
    OneDimension(Dim(INT64_MAX - 3, -2, -1, 2), Dynamic);
  }

  lemma OneDimension(d: Dim, p: Policy)
    requires DimOk(d, p) && (p == Static ==> d.blocksize == 1)
    ensures Accepted([d], p) <==> d.ChunkSize() != 0 && Counted(d) <= MAX_CHUNK
  {
    ChunkSigns(d, p);
    assert [d][..0] == [];
    assert AllOk([d], p) by { assert [d][0] == d; }
    CountOfMore([d], 0, p);
    assert [d][..1] == [d];
  }
}
