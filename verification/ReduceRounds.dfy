/** What the allreduce computes if every rank ran in lockstep: the value of each receive-buffer cell
    after each exchange, and the proof that after the last one every cell holds the sum over all ranks.

    The addition of elements is a parameter - the wrapping additions of the integer types are
    instances - and all that is asked of it is that it is associative and commutative. */
module ReduceRounds {
  import opened Pow2Math
  import opened Segments

  type Element = int

  datatype Config = Config(size: nat, nsteps: nat, pof2: nat, count: nat, send: seq<seq<Element>>, add: (Element, Element) -> Element) {
    ghost predicate Valid() {
      nsteps >= 1 && pof2 == Pow2(nsteps) && pof2 <= size < 2 * pof2 && count >= 1
      && |send| == size && (forall r :: 0 <= r < size ==> |send[r]| == count)
      && Associative(add) && Commutative(add)
    }

    function Rem(): int { size as int - pof2 }
  }

  // Mark the sums that the laws of the addition are applied to.
  predicate Sum2(a: Element, b: Element) { true }

  predicate Sum3(a: Element, b: Element, c: Element) { true }

  ghost predicate Associative(add: (Element, Element) -> Element) {
    forall a, b, c {:trigger Sum3(a, b, c)} :: add(add(a, b), c) == add(a, add(b, c))
  }

  ghost predicate Commutative(add: (Element, Element) -> Element) {
    forall a, b {:trigger Sum2(a, b)} :: add(a, b) == add(b, a)
  }

  // The sum over ranks 0 .. k - 1 at index x, in rank order.
  function RankSum(c: Config, k: nat, x: nat): Element
    requires 1 <= k <= |c.send| && forall r :: 0 <= r < k ==> x < |c.send[r]|
  {
    if k == 1 then c.send[0][x] else c.add(RankSum(c, k - 1, x), c.send[k - 1][x])
  }

  ghost function Total(c: Config, x: nat): Element
    requires c.Valid() && x < c.count
  {
    RankSum(c, c.size, x)
  }

  // What virtual rank v starts the exchanges with: its own data, or the sum of the pair it stands for.
  ghost function Base(c: Config, v: nat, x: nat): Element
    requires c.Valid() && v < c.pof2 && x < c.count
  {
    if v < c.Rem() then c.add(c.send[2 * v][x], c.send[2 * v + 1][x]) else c.send[v + c.Rem()][x]
  }

  // Stage t < nsteps halves at level t; stage nsteps + s gathers at level nsteps - 1 - s.
  function Level(c: Config, t: nat): nat
    requires t < 2 * c.nsteps
  {
    if t < c.nsteps then t else 2 * c.nsteps - 1 - t
  }

  function PeerAt(c: Config, v: nat, t: nat): nat
    requires t < 2 * c.nsteps
  {
    Flip(v, Level(c, t))
  }

  // Whose segment v writes at stage t: its own when reducing, its peer's when gathering.
  function Owner(c: Config, v: nat, t: nat): nat
    requires t < 2 * c.nsteps
  {
    if t < c.nsteps then v else PeerAt(c, v, t)
  }

  function Segment(c: Config, v: nat, t: nat): Span
    requires c.count >= 1 && t < 2 * c.nsteps
  {
    Levels(Owner(c, v, t), c.count, Level(c, t) + 1)
  }

  // The low k bits of v are those index x spells.
  predicate Agree(c: Config, v: nat, x: nat, k: nat)
    requires c.count >= 1
  {
    Low(v, k) == Leaf(c.count, x, k)
  }

  ghost predicate Writes(c: Config, v: nat, x: nat, t: nat)
    requires c.count >= 1 && t < 2 * c.nsteps
  {
    Agree(c, Owner(c, v, t), x, Level(c, t) + 1)
  }

  lemma WritesSegment(c: Config, v: nat, x: nat, t: nat)
    requires x < c.count && t < 2 * c.nsteps
    ensures Writes(c, v, x, t) <==> Segment(c, v, t).Has(x)
  {
    SegmentByLowBits(Owner(c, v, t), c.count, x, Level(c, t) + 1);
  }

  lemma PeerBelow(c: Config, v: nat, t: nat)
    requires c.Valid() && v < c.pof2 && t < 2 * c.nsteps
    ensures PeerAt(c, v, t) < c.pof2 && PeerAt(c, v, t) != v && PeerAt(c, PeerAt(c, v, t), t) == v
  {
    FlipBelow(v, Level(c, t), c.nsteps);
    FlipFacts(v, Level(c, t));
  }

  /** The receive-buffer cell x of virtual rank v after t stages in lockstep. */
  ghost function Cell(c: Config, v: nat, x: nat, t: nat): Element
    requires c.Valid() && v < c.pof2 && x < c.count && t <= 2 * c.nsteps
    decreases t
  {
    if t == 0 then Base(c, v, x)
    else
      PeerBelow(c, v, t - 1);
      var mine, theirs := Cell(c, v, x, t - 1), Cell(c, PeerAt(c, v, t - 1), x, t - 1);
      if !Writes(c, v, x, t - 1) then mine
      else if t - 1 < c.nsteps then c.add(mine, theirs)
      else theirs
  }

  // ----- agreement along the bits

  lemma {:induction false} AgreeDown(c: Config, v: nat, x: nat, i: nat, j: nat)
    requires c.count >= 1 && i <= j && Agree(c, v, x, j)
    ensures Agree(c, v, x, i)
    decreases j - i
  {
    if i < j {
      LevelUp(v, j - 1);
      LowBelow(v, j - 1);
      LeafIsLow(c.count, x, j - 1);
      AgreeDown(c, v, x, i, j - 1);
    }
  }

  // Of two peers that agree with x below a level, exactly one agrees at the level too.
  lemma AgreeSplit(c: Config, v: nat, x: nat, i: nat)
    requires c.count >= 1
    ensures Agree(c, Flip(v, i), x, i) <==> Agree(c, v, x, i)
    ensures Agree(c, v, x, i) ==> (Agree(c, v, x, i + 1) <==> !Agree(c, Flip(v, i), x, i + 1))
  {
    FlipFacts(v, i);
    LevelUp(v, i);
    LevelUp(Flip(v, i), i);
    LowBelow(v, i);
    LeafIsLow(c.count, x, i);
  }

  // ----- nobody overwrites what a peer still reads

  /** While v reads from its peer w at stage t, w writes elsewhere: the cell that v reads is not in a segment
      that w writes at stage t or any later stage before it meets v again, and never after a gathering stage. */
  lemma PeerWritesElsewhere(c: Config, v: nat, x: nat, t: nat, u: nat)
    requires c.Valid() && v < c.pof2 && x < c.count && t <= u < 2 * c.nsteps
    requires Writes(c, v, x, t)
    requires t < c.nsteps ==> u < 2 * c.nsteps - 1 - t
    ensures !Writes(c, PeerAt(c, v, t), x, u)
  {
    var w := PeerAt(c, v, t);
    var i := Level(c, t);
    FlipFacts(v, i);
    hide Low, Agree;
    if t < c.nsteps {
      AgreeDown(c, v, x, t, t + 1);
      AgreeSplit(c, v, x, t);
      if Writes(c, w, x, u) { StillSplit(c, w, x, t, u); }
    } else {
      var j := Level(c, u);
      AgreeDown(c, w, x, j + 1, i + 1);
      AgreeDown(c, w, x, j, j + 1);
      AgreeSplit(c, w, x, j);
    }
  }

  // A rank that writes x after stage t, short of meeting its peer of stage t again, agrees with x beyond level t.
  lemma StillSplit(c: Config, w: nat, x: nat, t: nat, u: nat)
    requires c.count >= 1 && t < c.nsteps && t <= u < 2 * c.nsteps - 1 - t && Writes(c, w, x, u)
    ensures Agree(c, w, x, t + 1)
  {
    hide Low, Agree;
    if u < c.nsteps {
      AgreeDown(c, w, x, t + 1, u + 1);
    } else {
      var j := Level(c, u);
      AgreeDown(c, Flip(w, j), x, j, j + 1);
      AgreeSplit(c, w, x, j);
      AgreeDown(c, w, x, t + 1, j);
    }
  }

  lemma {:induction false} CellStable(c: Config, v: nat, x: nat, t: nat, u: nat)
    requires c.Valid() && v < c.pof2 && x < c.count && t <= u <= 2 * c.nsteps
    requires forall s :: t <= s < u ==> !Writes(c, v, x, s)
    ensures Cell(c, v, x, u) == Cell(c, v, x, t)
    decreases u
  {
    if t < u {
      PeerBelow(c, v, u - 1);
      CellStable(c, v, x, t, u - 1);
      assert !Writes(c, v, x, u - 1);
    }
  }

  // ----- the sums

  // The first rank of v's block of 2^i ranks.
  function First(v: nat, i: nat): int { v - Low(v, i) }

  lemma {:induction false} FirstFits(v: nat, i: nat, l: nat)
    requires v < Pow2(l) && i <= l
    ensures 0 <= First(v, i) && First(v, i) + Pow2(i) <= Pow2(l)
    decreases l - i
  {
    if i == l {
      BelowPow2(v, l);
    } else {
      FirstFits(v, i + 1, l);
      LevelUp(v, i);
    }
  }

  // The sum over the 2^i virtual ranks from lo, added up as a tree.
  ghost function BlockSum(c: Config, i: nat, lo: nat, x: nat): Element
    requires c.Valid() && x < c.count && lo + Pow2(i) <= c.pof2
    decreases i
  {
    if i == 0 then Base(c, lo, x) else c.add(BlockSum(c, i - 1, lo, x), BlockSum(c, i - 1, lo + Pow2(i - 1), x))
  }

  ghost function MyBlockSum(c: Config, v: nat, x: nat, t: nat): Element
    requires c.Valid() && v < c.pof2 && x < c.count && t <= c.nsteps
  {
    FirstFits(v, t, c.nsteps);
    BlockSum(c, t, First(v, t), x)
  }

  lemma BlockSumJoins(c: Config, v: nat, x: nat, t: nat)
    requires c.Valid() && v < c.pof2 && x < c.count && t < c.nsteps
    ensures PeerAt(c, v, t) < c.pof2
    ensures MyBlockSum(c, v, x, t + 1) == c.add(MyBlockSum(c, v, x, t), MyBlockSum(c, PeerAt(c, v, t), x, t))
  {
    PeerBelow(c, v, t);
    PeerFirst(v, t);
    assert Sum2(MyBlockSum(c, v, x, t), MyBlockSum(c, PeerAt(c, v, t), x, t));
  }

  // After t halvings, v's cell in its own segment holds the sum over v's block of 2^t ranks.
  lemma {:induction false} HalvingSums(c: Config, v: nat, x: nat, t: nat)
    requires c.Valid() && v < c.pof2 && x < c.count && t <= c.nsteps && Agree(c, v, x, t)
    ensures Cell(c, v, x, t) == MyBlockSum(c, v, x, t)
    decreases t
  {
    if t == 0 {
      assert First(v, 0) == v;
    } else {
      hide *;
      var i := t - 1;
      AgreeDown(c, v, x, i, t);
      AgreeSplit(c, v, x, i);
      HalvingStep(c, v, x, i);
      BlockSumJoins(c, v, x, i);
      HalvingSums(c, v, x, i);
      HalvingSums(c, PeerAt(c, v, i), x, i);
      assert Cell(c, v, x, t) == MyBlockSum(c, v, x, t);
    }
  }

  lemma HalvingStep(c: Config, v: nat, x: nat, t: nat)
    requires c.Valid() && v < c.pof2 && x < c.count && t < c.nsteps && Agree(c, v, x, t + 1)
    ensures PeerAt(c, v, t) < c.pof2
    ensures Cell(c, v, x, t + 1) == c.add(Cell(c, v, x, t), Cell(c, PeerAt(c, v, t), x, t))
  {
    PeerBelow(c, v, t);
    assert Writes(c, v, x, t);
  }

  lemma PeerFirst(v: nat, i: nat)
    ensures var w := Flip(v, i);
            (First(w, i) == First(v, i) + Pow2(i) && First(v, i + 1) == First(v, i))
            || (First(v, i) == First(w, i) + Pow2(i) && First(v, i + 1) == First(w, i))
  {
    FlipFacts(v, i);
    LevelUp(v, i);
  }

  // Each gathering stage doubles the share of a rank's buffer that holds the sum over its virtual ranks.
  lemma {:induction false} GatheringCompletes(c: Config, v: nat, x: nat, s: nat)
    requires c.Valid() && v < c.pof2 && x < c.count && s <= c.nsteps && Agree(c, v, x, c.nsteps - s)
    ensures Cell(c, v, x, c.nsteps + s) == BlockSum(c, c.nsteps, 0, x)
    decreases s
  {
    hide Cell, BlockSum, MyBlockSum, Agree;
    if s == 0 {
      HalvingSums(c, v, x, c.nsteps);
      WholeBlock(c, v, x);
    } else {
      AgreeSplit(c, v, x, c.nsteps - s);
      GatheringStep(c, v, x, s);
      if Agree(c, v, x, c.nsteps - s + 1) {
        GatheringCompletes(c, v, x, s - 1);
      } else {
        GatheringCompletes(c, PeerAt(c, v, c.nsteps + s - 1), x, s - 1);
      }
    }
  }

  lemma WholeBlock(c: Config, v: nat, x: nat)
    requires c.Valid() && v < c.pof2 && x < c.count
    ensures MyBlockSum(c, v, x, c.nsteps) == BlockSum(c, c.nsteps, 0, x)
  {
    BelowPow2(v, c.nsteps);
  }

  lemma GatheringStep(c: Config, v: nat, x: nat, s: nat)
    requires c.Valid() && v < c.pof2 && x < c.count && 0 < s <= c.nsteps && Agree(c, v, x, c.nsteps - s)
    ensures var t := c.nsteps + s - 1;
            PeerAt(c, v, t) == Flip(v, c.nsteps - s) && PeerAt(c, v, t) < c.pof2
            && Cell(c, v, x, t + 1) == (if Agree(c, v, x, c.nsteps - s + 1) then Cell(c, v, x, t)
                                        else Cell(c, PeerAt(c, v, t), x, t))
  {
    var t := c.nsteps + s - 1;
    PeerBelow(c, v, t);
    AgreeSplit(c, v, x, c.nsteps - s);
    assert Writes(c, v, x, t) <==> Agree(c, Flip(v, c.nsteps - s), x, c.nsteps - s + 1);
  }

  // The sum over virtual ranks lo .. hi - 1 in order.
  ghost function VSum(c: Config, lo: nat, hi: nat, x: nat): Element
    requires c.Valid() && x < c.count && lo < hi <= c.pof2
    decreases hi
  {
    if hi == lo + 1 then Base(c, lo, x) else c.add(VSum(c, lo, hi - 1, x), Base(c, hi - 1, x))
  }

  lemma {:induction false} VSumSplit(c: Config, lo: nat, mid: nat, hi: nat, x: nat)
    requires c.Valid() && x < c.count && lo < mid < hi <= c.pof2
    ensures VSum(c, lo, hi, x) == c.add(VSum(c, lo, mid, x), VSum(c, mid, hi, x))
    decreases hi
  {
    if mid < hi - 1 {
      VSumSplit(c, lo, mid, hi - 1, x);
      assert Sum3(VSum(c, lo, mid, x), VSum(c, mid, hi - 1, x), Base(c, hi - 1, x));
    }
  }

  lemma BlockSumHalves(c: Config, i: nat, lo: nat, x: nat)
    requires c.Valid() && x < c.count && 0 < i && lo + Pow2(i) <= c.pof2
    ensures Pow2(i) == 2 * Pow2(i - 1)
    ensures BlockSum(c, i, lo, x) == c.add(BlockSum(c, i - 1, lo, x), BlockSum(c, i - 1, lo + Pow2(i - 1), x))
  {}

  lemma {:induction false} BlockSumIsVSum(c: Config, i: nat, lo: nat, x: nat)
    requires c.Valid() && x < c.count && lo + Pow2(i) <= c.pof2
    ensures BlockSum(c, i, lo, x) == VSum(c, lo, lo + Pow2(i), x)
    decreases i
  {
    if i > 0 {
      hide *;
      BlockSumHalves(c, i, lo, x);
      var mid := lo + Pow2(i - 1);
      BlockSumIsVSum(c, i - 1, lo, x);
      BlockSumIsVSum(c, i - 1, mid, x);
      VSumSplit(c, lo, mid, lo + Pow2(i), x);
    }
  }

  lemma {:induction false} VSumIsRankSum(c: Config, k: nat, x: nat)
    requires c.Valid() && x < c.count && 1 <= k <= c.pof2
    ensures VSum(c, 0, k, x) == RankSum(c, if k <= c.Rem() then 2 * k else k + c.Rem(), x)
    decreases k
  {
    if k > 1 {
      VSumIsRankSum(c, k - 1, x);
      if k <= c.Rem() {
        assert Sum3(RankSum(c, 2 * k - 2, x), c.send[2 * k - 2][x], c.send[2 * k - 1][x]);
      }
    }
  }

  /** After all stages every cell of every participating rank holds the sum over all ranks. */
  lemma RoundsComputeTotal(c: Config, v: nat, x: nat)
    requires c.Valid() && v < c.pof2 && x < c.count
    ensures Cell(c, v, x, 2 * c.nsteps) == Total(c, x)
  {
    GatheringCompletes(c, v, x, c.nsteps);
    BlockSumIsVSum(c, c.nsteps, 0, x);
    VSumIsRankSum(c, c.pof2, x);
  }
}
