/** Successor lists and the predecessor counters that go with them. */
module Edges {

  function Occ(l: seq<nat>, j: nat): nat { multiset(l)[j] }

  // The edges into j from nodes below n.
  function InDegree(succ: seq<seq<nat>>, j: nat, n: nat): nat
    requires n <= |succ|
  {
    if n == 0 then 0 else InDegree(succ, j, n - 1) + Occ(succ[n - 1], j)
  }

  lemma {:induction false} SamePrefix(a: seq<seq<nat>>, b: seq<seq<nat>>, j: nat, n: nat)
    requires n <= |a| <= |b| && b[..n] == a[..n]
    ensures InDegree(a, j, n) == InDegree(b, j, n)
  {
    if n > 0 {
      assert a[..n][n - 1] == b[..n][n - 1];
      assert a[..n - 1] == a[..n][..n - 1] && b[..n - 1] == b[..n][..n - 1];
      SamePrefix(a, b, j, n - 1);
    }
  }

  lemma {:induction false} NoEdgesTo(succ: seq<seq<nat>>, j: nat, n: nat)
    requires n <= |succ| && forall i, t :: 0 <= i < n && 0 <= t < |succ[i]| ==> succ[i][t] != j
    ensures InDegree(succ, j, n) == 0
  {
    if n > 0 { NoEdgesTo(succ, j, n - 1); }
  }

  lemma {:induction false} OneEdgeMore(succ: seq<seq<nat>>, p: nat, s: nat, j: nat, n: nat)
    requires n <= |succ| && p < |succ|
    ensures InDegree(succ[p := [s] + succ[p]], j, n) == InDegree(succ, j, n) + (if p < n && j == s then 1 else 0)
  {
    if n > 0 {
      OneEdgeMore(succ, p, s, j, n - 1);
    }
  }

  lemma {:induction false} EdgeCounts(succ: seq<seq<nat>>, j: nat, n: nat, p: nat)
    requires n <= |succ| && p < n && j in succ[p]
    ensures InDegree(succ, j, n) > 0
  {
    if p < n - 1 { EdgeCounts(succ, j, n - 1, p); }
  }

  // Taking the first successor off p's list.
  lemma OneEdgeLess(succ: seq<seq<nat>>, p: nat, j: nat)
    requires p < |succ| && |succ[p]| > 0
    ensures InDegree(succ[p := succ[p][1..]], j, |succ|) == InDegree(succ, j, |succ|) - (if j == succ[p][0] then 1 else 0)
  {
    var after := succ[p := succ[p][1..]];
    OneEdgeMore(after, p, succ[p][0], j, |succ|);
    assert [succ[p][0]] + succ[p][1..] == succ[p];
    assert after[p := [succ[p][0]] + after[p]] == succ;
  }
}
