/** The index segments of the recursive-halving reduce-scatter, and the small index computations
    around it: highest bit of the rank count, virtual ranks, and the interval of a rank at a step. */
module Segments {
  import opened Division
  import opened Pow2Math

  // An inclusive interval; start == end + 1 when it is empty.
  datatype Span = Span(start: nat, end: nat) {
    predicate Has(x: nat) { start <= x <= end }
  }

  function Half(sp: Span, upper: bool): Span {
    var mid := (sp.start + sp.end) / 2;
    if upper then Span(mid + 1, sp.end) else Span(sp.start, mid)
  }

  // The interval of rank v after k halvings of 0 .. count - 1, taking the half that bit i of v names.
  function Levels(v: nat, count: nat, k: nat): (sp: Span)
    requires count >= 1
    ensures sp.start <= sp.end + 1 && sp.end < count
  {
    if k == 0 then Span(0, count - 1) else Half(Levels(v, count, k - 1), Block(v, k - 1) % 2 == 1)
  }

  method CalcOffset(rank: nat, count: nat, step: nat) returns (start: nat, end: nat)
    requires count >= 1
    ensures Span(start, end) == Levels(rank, count, step + 1)
  {
    start, end := 0, count - 1;
    for i := 0 to step + 1
      invariant Span(start, end) == Levels(rank, count, i)
    {
      FlipFacts(rank, i);
      var dest := Flip(rank, i);
      var mid := (start + end) / 2;
      if rank < dest {
        end := mid;
      } else {
        start := mid + 1;
      }
    }
  }

  method CalcHibit(value: nat) returns (r: int)
    requires value < Pow2(32)
    ensures value > 0 ==> 0 <= r < 32 && Pow2(r) <= value < Pow2(r + 1)
    ensures value == 0 ==> r == -1
  {
    r := 31;
    while r >= 0
      invariant -1 <= r < 32 && value < Pow2(r + 1)
    {
      if Block(value, r) % 2 != 0 {
        DivMod(value, Pow2(r));
        return;
      }
      LevelUp(value, r);
      BelowPow2(value, r + 1);
      DivMod(value, Pow2(r));
      r := r - 1;
    }
  }

  // The rank inside the power of two, or -1 for a rank that only hands its data to a neighbour.
  function VRank(rank: nat, rem: nat): int {
    if rank < 2 * rem then (if rank % 2 != 0 then -1 else rank / 2) else rank - rem
  }

  function RankOf(v: nat, rem: nat): nat { if v < rem then v * 2 else v + rem }

  /** Virtual ranks and participating ranks are in bijection. */
  lemma VRankBijection(rank: nat, v: nat, rem: nat)
    ensures VRank(RankOf(v, rem), rem) == v
    ensures VRank(rank, rem) >= 0 ==> RankOf(VRank(rank, rem), rem) == rank
    ensures VRank(rank, rem) == -1 <==> rank < 2 * rem && rank % 2 == 1
  {}

  // The k-bit number that the halvings around index x spell.
  function Leaf(count: nat, x: nat, k: nat): (l: nat)
    requires count >= 1
  {
    if k == 0 then 0 else
      var l := Leaf(count, x, k - 1);
      var sp := Levels(l, count, k - 1);
      if x <= (sp.start + sp.end) / 2 then l else l + Pow2(k - 1)
  }

  lemma {:induction false} LevelsByLowBits(v: nat, w: nat, count: nat, k: nat)
    requires count >= 1 && Low(v, k) == Low(w, k)
    ensures Levels(v, count, k) == Levels(w, count, k)
  {
    if k > 0 {
      LevelUp(v, k - 1);
      LevelUp(w, k - 1);
      LowBelow(v, k - 1);
      LowBelow(w, k - 1);
      LevelsByLowBits(v, w, count, k - 1);
    }
  }

  lemma {:induction false} LeafIsLow(count: nat, x: nat, k: nat)
    requires count >= 1
    ensures Leaf(count, x, k) < Pow2(k) && Low(Leaf(count, x, k), k) == Leaf(count, x, k)
  {
    if k > 0 { LeafIsLow(count, x, k - 1); }
    BelowPow2(Leaf(count, x, k), k);
  }

  /** Segments are nested by low rank bits: index x lies in the segment of v after k halvings exactly when
      the low k bits of v are those that x spells - also when there are fewer indices than ranks. */
  lemma {:induction false} SegmentByLowBits(v: nat, count: nat, x: nat, k: nat)
    requires x < count
    ensures Levels(v, count, k).Has(x) <==> Low(v, k) == Leaf(count, x, k)
  {
    if k > 0 {
      var l := Leaf(count, x, k - 1);
      SegmentByLowBits(v, count, x, k - 1);
      LevelUp(v, k - 1);
      LowBelow(v, k - 1);
      LeafIsLow(count, x, k - 1);
      if Low(v, k - 1) == l {
        LevelsByLowBits(v, l, count, k - 1);
      }
    }
  }
}
