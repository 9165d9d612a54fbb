/** Powers of two, and the three views of a rank that the collectives rest on: the block of
    ranks it belongs to at a level, its low bits, and the peer one bit away. */
module Pow2Math {
  import opened Division

  function Pow2(k: nat): (r: nat)
    ensures r >= 1
  {
    if k == 0 then 1 else 2 * Pow2(k - 1)
  }

  // The number of the aligned block of 2^i ranks that v belongs to.
  function Block(v: nat, i: nat): nat { DivNonNegative(v, Pow2(i)); v / Pow2(i) }

  // The low i bits of v.
  function Low(v: nat, i: nat): nat { v % Pow2(i) }

  // v with bit i inverted; the fence writes it with a division and a parity test, the allreduce as an exclusive or.
  function Flip(v: nat, i: nat): nat {
    if Block(v, i) % 2 == 0 then v + Pow2(i) else (DivMod(v, Pow2(i)); v - Pow2(i))
  }

  lemma {:induction false} Pow2Mono(i: nat, j: nat)
    requires i <= j
    ensures Pow2(i) <= Pow2(j)
    ensures i < j ==> 2 * Pow2(i) <= Pow2(j)
  {
    if i < j { Pow2Mono(i, j - 1); }
  }

  lemma LowBelow(v: nat, i: nat)
    ensures Low(v, i) < Pow2(i)
  {}

  // One more level: the block number halves, and the low bits gain the parity of the block number.
  lemma LevelUp(v: nat, i: nat)
    ensures Block(v, i + 1) == Block(v, i) / 2
    ensures Low(v, i + 1) == Low(v, i) + (if Block(v, i) % 2 == 1 then Pow2(i) else 0)
  {
    var p, q := Pow2(i), Block(v, i);
    DivMod(v, p);
    var r := Low(v, i) + (if q % 2 == 1 then p else 0);
    assert v == (q / 2) * Pow2(i + 1) + r by {
      assert q == 2 * (q / 2) + q % 2;
      assert q * p == (2 * (q / 2)) * p + (q % 2) * p;
    }
    DivModUnique(v, Pow2(i + 1), q / 2, r);
  }

  /** The peer of v at level i: same low bits, sibling block, same parent block; flipping twice gives v back. */
  lemma FlipFacts(v: nat, i: nat)
    ensures var w := Flip(v, i);
            w != v && Flip(w, i) == v
            && Low(w, i) == Low(v, i)
            && Block(w, i) == (if Block(v, i) % 2 == 0 then Block(v, i) + 1 else Block(v, i) - 1)
            && Block(w, i + 1) == Block(v, i + 1)
            && Low(w, i + 1) != Low(v, i + 1)
  {
    var p, q := Pow2(i), Block(v, i);
    var w := Flip(v, i);
    DivMod(v, p);
    var q' := if q % 2 == 0 then q + 1 else q - 1;
    assert w == q' * p + Low(v, i);
    DivModUnique(w, p, q', Low(v, i));
    LevelUp(v, i);
    LevelUp(w, i);
  }

  lemma FlipBelow(v: nat, i: nat, l: nat)
    requires i < l && v < Pow2(l)
    ensures Flip(v, i) < Pow2(l)
  {
    FlipFacts(v, i);
    BlockUp(v, Flip(v, i), i + 1, l);
    BelowPow2(v, l);
    DivMod(Flip(v, i), Pow2(l));
  }

  // Ranks in one block at a level share every wider block.
  lemma {:induction false} BlockUp(v: nat, w: nat, i: nat, j: nat)
    requires i <= j && Block(v, i) == Block(w, i)
    ensures Block(v, j) == Block(w, j)
  {
    if i < j {
      BlockUp(v, w, i, j - 1);
      LevelUp(v, j - 1);
      LevelUp(w, j - 1);
    }
  }

  // A block of level i + 1 is the block of v at level i together with the block of v's peer.
  lemma BlockSplit(v: nat, u: nat, i: nat)
    requires Block(u, i + 1) == Block(v, i + 1)
    ensures Block(u, i) == Block(v, i) || Block(u, i) == Block(Flip(v, i), i)
  {
    LevelUp(u, i);
    LevelUp(v, i);
    FlipFacts(v, i);
  }

  lemma BelowPow2(v: nat, l: nat)
    requires v < Pow2(l)
    ensures Block(v, l) == 0 && Low(v, l) == v
  {
    DivModUnique(v, Pow2(l), 0, v);
  }
}
