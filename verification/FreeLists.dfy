/** The segregated free lists over the blocks: every free block is in exactly one list, the one of its size. */
module FreeLists {
  import opened Blocks

  const BIN_SIZE: seq<nat> := [0, 512, 1024, 2 * 1024, 4 * 1024, 8 * 1024, 16 * 1024, 32 * 1024, 64 * 1024, 128 * 1024,
                               256 * 1024, 512 * 1024, 1024 * 1024, 2 * 1024 * 1024, 4 * 1024 * 1024]
  const BIN_COUNT := 15

  ghost predicate Sorted(bins: seq<nat>) {
    forall i, j :: 0 <= i < j < |bins| ==> bins[i] < bins[j]
  }

  // The bin of a size is the last one that does not exceed it.
  predicate Fits(bins: seq<nat>, k: int, size: nat) {
    0 <= k < |bins| && bins[k] <= size && (k + 1 < |bins| ==> size < bins[k + 1])
  }

  lemma BinSizesSorted()
    ensures |BIN_SIZE| == BIN_COUNT && BIN_SIZE[0] == 0 && Sorted(BIN_SIZE)
  {}

  /** The binary search finds the bin of a size exactly. */
  method GetBinIndex(size: nat, bins: seq<nat>) returns (index: int)
    requires |bins| > 0 && bins[0] == 0 && Sorted(bins)
    ensures Fits(bins, index, size)
  {
    var low, high := 0, |bins| - 1;
    while high - low > 1
      invariant 0 <= low <= high < |bins|
      invariant bins[low] <= size && (high + 1 < |bins| ==> size < bins[high + 1])
    {
      var mid := (high + low) / 2;
      if size < bins[mid] {
        high := mid - 1;
      } else {
        low := mid;
      }
    }
    if high > low && size >= bins[high] {
      return high;
    }
    return low;
  }

  /** A size has only one bin, and a larger size never has a lower one. */
  lemma BinsMonotone(bins: seq<nat>, s: nat, t: nat, i: int, j: int)
    requires Sorted(bins) && Fits(bins, i, s) && Fits(bins, j, t) && s <= t
    ensures i <= j && (s == t ==> i == j)
  {
    assert i < j ==> i + 1 == j || bins[i + 1] < bins[j];
  }

  ghost predicate Distinct(s: seq<int>) {
    forall i, j :: 0 <= i < j < |s| ==> s[i] != s[j]
  }

  // Removing an element from a list.
  function Without(s: seq<int>, a: int): seq<int> {
    if s == [] then [] else if s[0] == a then s[1..] else [s[0]] + Without(s[1..], a)
  }

  lemma Prepend(s: seq<int>, a: int)
    requires Distinct(s) && a !in s
    ensures Distinct([a] + s)
  {
    var t := [a] + s;
    forall i, j | 0 <= i < j < |t| ensures t[i] != t[j] {
      assert t[j] == s[j - 1];
    }
  }

  lemma {:induction false} WithoutFacts(s: seq<int>, a: int)
    requires Distinct(s)
    ensures Distinct(Without(s, a)) && forall b :: b in Without(s, a) <==> b in s && b != a
  {
    if s != [] {
      assert s == [s[0]] + s[1..];
      if s[0] != a {
        WithoutFacts(s[1..], a);
        assert s[0] !in s[1..];
        Prepend(Without(s[1..], a), s[0]);
      }
    }
  }

  ghost predicate Free(h: Heap, chunks: set<int>, a: int) { Block(h, chunks, a) && h[a].total > 0 }

  // List k holds exactly the free blocks of its sizes, bar the blocks in out, which are between lists.
  ghost predicate ListOk(h: Heap, chunks: set<int>, list: seq<int>, k: int, out: set<int>) {
    Distinct(list)
    && forall a {:trigger a in list} :: a in list <==> Free(h, chunks, a) && Fits(BIN_SIZE, k, h[a].total) && a !in out
  }

  ghost predicate Listed(h: Heap, chunks: set<int>, bins: seq<seq<int>>, out: set<int>) {
    |bins| == BIN_COUNT
    && (forall k {:trigger bins[k]} :: 0 <= k < BIN_COUNT ==> ListOk(h, chunks, bins[k], k, out))
    && (forall a {:trigger Block(h, chunks, a)} :: Block(h, chunks, a) ==>
          0 <= h[a].bin < BIN_COUNT && (h[a].total > 0 && a !in out ==> Fits(BIN_SIZE, h[a].bin, h[a].total)))
  }

  function Delete(bins: seq<seq<int>>, k: nat, a: int): seq<seq<int>>
    requires k < |bins|
  {
    bins[k := Without(bins[k], a)]
  }

  function Insert(bins: seq<seq<int>>, k: nat, a: int): seq<seq<int>>
    requires k < |bins|
  {
    bins[k := [a] + bins[k]]
  }

  lemma DeleteListed(h: Heap, chunks: set<int>, bins: seq<seq<int>>, out: set<int>, a: int)
    requires Listed(h, chunks, bins, out) && Free(h, chunks, a) && a !in out
    ensures 0 <= h[a].bin < |bins| && Listed(h, chunks, Delete(bins, h[a].bin, a), out + {a})
  {
    var k := h[a].bin;
    var bins' := Delete(bins, k, a);
    forall j | 0 <= j < BIN_COUNT ensures ListOk(h, chunks, bins'[j], j, out + {a}) {
      assert ListOk(h, chunks, bins[j], j, out);
      if j == k {
        WithoutFacts(bins[k], a);
      } else {
        BinSizesSorted();
        assert Fits(BIN_SIZE, j, h[a].total) ==> (BinsMonotone(BIN_SIZE, h[a].total, h[a].total, j, k); false);
      }
    }
  }

  lemma InsertListed(h: Heap, chunks: set<int>, bins: seq<seq<int>>, out: set<int>, a: int, k: nat)
    requires Listed(h, chunks, bins, out) && Free(h, chunks, a) && a in out && Fits(BIN_SIZE, k, h[a].total)
    ensures k < |bins| && Listed(h[a := h[a].(bin := k)], chunks, Insert(bins, k, a), out - {a})
  {
    var h', bins' := h[a := h[a].(bin := k)], Insert(bins, k, a);
    assert h'.Keys == h.Keys;
    BinSizesSorted();
    forall j | 0 <= j < BIN_COUNT ensures ListOk(h', chunks, bins'[j], j, out - {a}) {
      assert ListOk(h, chunks, bins[j], j, out);
      if j == k { Prepend(bins[k], a); }
      forall b ensures b in bins'[j] <==> Free(h', chunks, b) && Fits(BIN_SIZE, j, h'[b].total) && b !in out - {a} {
        if b == a && j != k && Fits(BIN_SIZE, j, h[a].total) {
          BinsMonotone(BIN_SIZE, h[a].total, h[a].total, j, k);
        }
        assert b in bins[j] <==> Free(h, chunks, b) && Fits(BIN_SIZE, j, h[b].total) && b !in out;
      }
    }
    forall b | Block(h', chunks, b)
      ensures 0 <= h'[b].bin < BIN_COUNT && (h'[b].total > 0 && b !in out - {a} ==> Fits(BIN_SIZE, h'[b].bin, h'[b].total))
    {
      assert Block(h, chunks, b);
    }
  }

  /** Header updates that concern only blocks between lists leave the lists right. */
  lemma Relist(h: Heap, chunks: set<int>, h': Heap, chunks': set<int>, bins: seq<seq<int>>, out: set<int>, out': set<int>)
    requires Listed(h, chunks, bins, out)
    requires forall a {:trigger Block(h', chunks', a)} :: Block(h', chunks', a) ==> 0 <= h'[a].bin < BIN_COUNT
    requires forall a {:trigger Free(h', chunks', a)} :: Free(h', chunks', a) && a !in out' ==>
               Free(h, chunks, a) && a !in out && h'[a].total == h[a].total && h'[a].bin == h[a].bin
    requires forall a {:trigger Free(h, chunks, a)} :: Free(h, chunks, a) && a !in out ==>
               Free(h', chunks', a) && a !in out'
    ensures Listed(h', chunks', bins, out')
  {
    forall k | 0 <= k < BIN_COUNT ensures ListOk(h', chunks', bins[k], k, out') {
      assert ListOk(h, chunks, bins[k], k, out);
      forall a ensures a in bins[k] <==> Free(h', chunks', a) && Fits(BIN_SIZE, k, h'[a].total) && a !in out' {
        assert a in bins[k] <==> Free(h, chunks, a) && Fits(BIN_SIZE, k, h[a].total) && a !in out;
        if Free(h', chunks', a) && a !in out' {}
      }
    }
    forall a | Block(h', chunks', a)
      ensures h'[a].total > 0 && a !in out' ==> Fits(BIN_SIZE, h'[a].bin, h'[a].total)
    {
      if h'[a].total > 0 && a !in out' {
        assert Free(h', chunks', a);
        assert Block(h, chunks, a);
      }
    }
  }
}
