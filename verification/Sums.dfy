/** The sum of a sequence of numbers, for measures of the work that is left. */
module Sums {

  function Sum(w: seq<nat>): nat { if w == [] then 0 else Sum(w[..|w| - 1]) + w[|w| - 1] }

  lemma {:induction false} SumUpdate(w: seq<nat>, i: nat, v: nat)
    requires i < |w|
    ensures Sum(w[i := v]) + w[i] == Sum(w) + v
  {
    var m := |w| - 1;
    if i < m {
      SumUpdate(w[..m], i, v);
      assert w[i := v][..m] == w[..m][i := v];
    } else {
      assert w[i := v][..m] == w[..m];
    }
  }

  lemma {:induction false} SumPositive(w: seq<nat>, i: nat)
    requires i < |w| && w[i] > 0
    ensures Sum(w) > 0
  {
    if i < |w| - 1 { SumPositive(w[..|w| - 1], i); }
  }

  lemma {:induction false} SumAtMost(w: seq<nat>, b: nat)
    requires forall i :: 0 <= i < |w| ==> w[i] <= b
    ensures Sum(w) <= |w| * b
  {
    if w != [] {
      SumAtMost(w[..|w| - 1], b);
      assert |w| * b == (|w| - 1) * b + b;
    }
  }

  // Nowhere more, and somewhere less.
  lemma {:induction false} SumLess(w: seq<nat>, w': seq<nat>, i: nat)
    requires |w| == |w'| && (forall k :: 0 <= k < |w| ==> w'[k] <= w[k])
    ensures Sum(w') <= Sum(w) && (i < |w| && w'[i] < w[i] ==> Sum(w') < Sum(w))
  {
    if w != [] { SumLess(w[..|w| - 1], w'[..|w| - 1], i); }
  }
}
