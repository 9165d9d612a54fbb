/** Sizes and addresses of the buffers that the fast bins cut from a block of normal memory. */
module FastLayout {
  import opened Division
  import opened FastCache
  import opened HeapSteps

  const FAST_BINS := 19
  const FAST_DESC_SIZE := 16

  // The bin of a request, for cache lines of line bytes.
  function FastBin(size: nat, line: nat): nat
    requires line > 0
  {
    CeilDiv(size, line)
  }

  // The size of the buffers in a bin.
  function FastSize(bin: nat, line: nat): nat { if bin == 0 then line else bin * line }

  /** A request up to the largest fast size finds a bin whose buffers hold it with less than a line to spare. */
  lemma FastBinFits(size: nat, line: nat)
    requires line > 0 && size <= FastSize(FAST_BINS - 1, line)
    ensures FastBin(size, line) < FAST_BINS
    ensures size <= FastSize(FastBin(size, line), line) && (size > 0 ==> FastSize(FastBin(size, line), line) < size + line)
  {
    CeilDivBounds(size, line);
    var q := FastBin(size, line);
    if q >= FAST_BINS { MulMono(FAST_BINS, q, line); }
  }

  function AlignUp(p: nat, line: nat): (r: nat)
    requires line > 0
    ensures p <= r < p + line
  {
    CeilDivBounds(p, line);
    CeilDiv(p, line) * line
  }

  // Buffer i of the block that normal memory returned at ptr; its descriptor is in front of it.
  function Buffer(ptr: nat, stride: nat, line: nat, i: nat): nat
    requires line > 0
  {
    AlignUp(ptr, line) + i * stride
  }

  /** Every buffer begins at a cache line, less than a line behind where the block would have it begin. */
  lemma BuffersAligned(ptr: nat, bin: nat, line: nat, i: nat)
    requires line > 0
    ensures Multiple(Buffer(ptr, FastSize(bin, line) + line, line, i), line)
    ensures ptr <= Buffer(ptr, FastSize(bin, line) + line, line, 0) < ptr + line
  {
    var n := if bin == 0 then 1 else bin;
    var q, stride := CeilDiv(ptr, line), FastSize(bin, line) + line;
    assert stride == (n + 1) * line && i * stride == i * (n + 1) * line by { Regroup(i, n + 1, line); }
    assert Times(Buffer(ptr, stride, line, i), q + i * (n + 1), line) by { assert (q + i * (n + 1)) * line == q * line + i * (n + 1) * line; }
  }

  lemma Regroup(a: nat, b: nat, c: nat)
    ensures a * (b * c) == a * b * c
  {}

  /** Buffers and descriptors lie in the block, the first descriptor at most in the padding of the block's
      own header, and no two overlap. */
  lemma CarveFits(ptr: nat, actual: nat, line: nat, i: nat, j: nat)
    requires FAST_DESC_SIZE <= line && actual + line <= GROW_SIZE && i < j < GROW_SIZE / (actual + line)
    ensures ptr <= Buffer(ptr, actual + line, line, i)
    ensures Buffer(ptr, actual + line, line, i) + actual <= Buffer(ptr, actual + line, line, j) - FAST_DESC_SIZE
    ensures Buffer(ptr, actual + line, line, j) + actual < ptr + GROW_SIZE
  {
    var stride := actual + line;
    MulMono(i + 1, j, stride);
    assert (i + 1) * stride == i * stride + stride;
    DivBounds(GROW_SIZE, stride);
    MulMono(j + 1, GROW_SIZE / stride, stride);
    assert (j + 1) * stride == j * stride + stride;
  }

  /** Blocks of normal memory that are apart stay apart after alignment, so each carving starts in a block of
      its own. */
  lemma AlignedApart(p: nat, q: nat, line: nat)
    requires line > 0 && GROW_SIZE % line == 0 && p + GROW_SIZE <= q
    ensures AlignUp(p, line) + GROW_SIZE <= AlignUp(q, line)
  {
    var k := GROW_SIZE / line;
    DivMod(GROW_SIZE, line);
    DivShift(p + line - 1, k, line);
    DivMono(p + line - 1 + k * line, q + line - 1, line);
    MulMono(CeilDiv(p, line) + k, CeilDiv(q, line), line);
    assert (CeilDiv(p, line) + k) * line == CeilDiv(p, line) * line + k * line;
  }
}
