/** Whether what a loop computes fits its 64-bit integers: chunk counts and their product, the bounds of chunks,
    the shares of the threads, and the counters from which chunks are claimed. */
module LoopLimits {
  import opened Division
  import opened LoopRange
  import opened LoopChunks
  import opened DynamicFor

  // ----- counting, decoding and splitting

  ghost predicate Upward(dims: seq<Dim>) { forall k :: 0 <= k < |dims| ==> dims[k].step > 0 }

  // There are no more chunks than the check counted.
  lemma {:induction false} CountedIsProduct(dims: seq<Dim>, p: Policy)
    requires AllOk(dims, p)
    ensures RangeOk(dims) && 0 < Product(Counts(dims)) <= CountOf(dims, p)
    ensures Upward(dims) ==> Product(Counts(dims)) == CountOf(dims, p)
  {
    if dims != [] {
      var m := |dims| - 1;
      assert dims[..m + 1] == dims && AllOk(dims[..m], p);
      hide DimOk, Product, Digits;
      CountedIsProduct(dims[..m], p);
      CountOfMore(dims, m, p);
      CountedIsChunks(dims[m], p);
      RangeMore(dims);
      MulBoth(Product(Counts(dims[..m])), CountOf(dims[..m], p), Chunks(dims[m]), Counted(dims[m]));
    }
  }

  lemma RangeMore(dims: seq<Dim>)
    requires var m := |dims| - 1; m >= 0 && RangeOk(dims[..m]) && dims[m].Ordered() && dims[m].blocksize > 0
    ensures RangeOk(dims) && Product(Counts(dims)) == Product(Counts(dims[..|dims| - 1])) * Chunks(dims[|dims| - 1])
  {
    var m := |dims| - 1;
    RangeOkMore(dims);
    CountsMore(dims);
    hide *;
    ProductMore(Counts(dims[..m]), Chunks(dims[m]));
  }

  lemma RangeOkMore(dims: seq<Dim>)
    requires var m := |dims| - 1; m >= 0 && RangeOk(dims[..m]) && dims[m].Ordered() && dims[m].blocksize > 0
    ensures RangeOk(dims)
  {
    hide Dim.Ordered;
    forall k {:trigger dims[k]} | 0 <= k < |dims| ensures dims[k].Ordered() && dims[k].blocksize > 0 {
      if k < |dims| - 1 { assert dims[..|dims| - 1][k] == dims[k]; }
    }
  }

  lemma CountsMore(dims: seq<Dim>)
    requires dims != [] && RangeOk(dims)
    ensures RangeOk(dims[..|dims| - 1]) && Counts(dims) == Counts(dims[..|dims| - 1]) + [Chunks(dims[|dims| - 1])]
  {
    hide Chunks;
  }

  lemma ProductMore(n: seq<nat>, x: nat)
    ensures Product(n + [x]) == Product(n) * x
  {
    assert (n + [x])[..|n|] == n;
  }

  lemma MulBoth(a: nat, a': nat, b: nat, b': nat)
    requires 0 < a <= a' && 0 < b <= b'
    ensures 0 < a * b <= a' * b'
  {
    MulMono(a, a', b);
    MulMono(b, b', a');
    MulMono(1, a, b);
  }

  lemma {:induction false} PrefixBelow(n: seq<nat>, k: nat)
    requires Positive(n) && k <= |n|
    ensures Product(n[..k]) <= Product(n)
  {
    if k == |n| {
      assert n[..k] == n;
    } else {
      var m := |n| - 1;
      PrefixBelow(n[..m], k);
      assert n[..m][..k] == n[..k];
      MulMono(1, n[m], Product(n[..m]));
    }
  }

  // What is computed to split the chunks among the threads' counters.
  predicate SplitFits(c: Config, i: nat)
    requires c.threads > 0
  {
    Fits(i * c.Each()) && Fits(c.Start(i))
  }

  lemma SplitsFit(c: Config, i: nat)
    requires c.Ok() && c.total <= INT64_MAX && i <= c.threads
    ensures SplitFits(c, i)
  {
    StretchesCover(c);
    StartMono(c, i, c.threads);
  }

  lemma ChunkFits(dims: seq<Dim>, p: Policy, c: nat, k: nat)
    requires (forall d :: d in dims ==> d.IsInt64()) && AllOk(dims, p) && p != Static
    requires RangeOk(dims) && c < Product(Counts(dims)) && k < |dims|
    ensures BoxFits(dims[k], Digits(c, Counts(dims))[k])
  {
    var n := Counts(dims);
    assert dims[k].IsInt64() && DimOk(dims[k], p);
    EncodeOfDigits(c, n);
    hide *;
    AcceptedFits(dims[k], p, Digits(c, n)[k]);
  }

  /** Whatever range the check accepts under the dynamic or task policy, with steps of either sign: the chunks are
      at most 2^63 - 2, as many as the check counted if all steps are positive, and all that is computed fits 64
      bits: each partial product of the chunks, the bounds of every chunk, the start and target of every counter.
      Counting the chunks of a dimension goes through a value outside 64 bits exactly if its extent and chunk size
      add up to 2^63. */
  lemma AcceptedLoopFits(dims: seq<Dim>, p: Policy)
    requires (forall d :: d in dims ==> d.IsInt64()) && Accepted(dims, p) && p != Static
    ensures RangeOk(dims)
    ensures 0 < Product(Counts(dims)) <= CountOf(dims, p) <= MAX_CHUNK
    ensures Upward(dims) ==> Product(Counts(dims)) == CountOf(dims, p)
    ensures forall k :: 0 <= k < |dims| ==> (CountingFits(dims[k]) <==> dims[k].Extent() + Abs(dims[k].ChunkSize()) != INT64_MAX + 1)
    ensures forall k :: 0 <= k <= |dims| ==> Fits(Product(Counts(dims)[..k]))
    ensures forall c: nat, k {:trigger Digits(c, Counts(dims))[k]} ::
              c < Product(Counts(dims)) && 0 <= k < |dims| ==> BoxFits(dims[k], Digits(c, Counts(dims))[k])
    ensures forall threads: nat, i: nat {:trigger SplitFits(Config(threads, Product(Counts(dims))), i)} ::
              0 < threads <= Product(Counts(dims)) && i <= threads ==> SplitFits(Config(threads, Product(Counts(dims))), i)
  {
    CountedIsProduct(dims, p);
    PrefixesFit(Counts(dims));
    hide *;
    CountingsFit(dims, p);
    BoxesFit(dims, p);
    SharesFit(Product(Counts(dims)));
  }

  lemma PrefixesFit(n: seq<nat>)
    requires Positive(n)
    ensures Product(n) <= INT64_MAX ==> forall k :: 0 <= k <= |n| ==> Fits(Product(n[..k]))
  {
    hide Product;
    forall k | 0 <= k <= |n| ensures Product(n[..k]) <= Product(n) { PrefixBelow(n, k); }
  }

  lemma CountingsFit(dims: seq<Dim>, p: Policy)
    requires (forall d :: d in dims ==> d.IsInt64()) && AllOk(dims, p)
    ensures forall k :: 0 <= k < |dims| ==> (CountingFits(dims[k]) <==> dims[k].Extent() + Abs(dims[k].ChunkSize()) != INT64_MAX + 1)
  {
    hide CountingFits, Dim.Extent, Dim.ChunkSize, Abs, DimOk;
    forall k | 0 <= k < |dims| ensures CountingFits(dims[k]) <==> dims[k].Extent() + Abs(dims[k].ChunkSize()) != INT64_MAX + 1 {
      assert dims[k].IsInt64() && DimOk(dims[k], p);
      AcceptedFits(dims[k], p, 0);
    }
  }

  lemma BoxesFit(dims: seq<Dim>, p: Policy)
    requires (forall d :: d in dims ==> d.IsInt64()) && AllOk(dims, p) && p != Static && RangeOk(dims)
    ensures forall c: nat, k {:trigger Digits(c, Counts(dims))[k]} ::
              c < Product(Counts(dims)) && 0 <= k < |dims| ==> BoxFits(dims[k], Digits(c, Counts(dims))[k])
  {
    hide BoxFits, Digits, Product, Counts;
    forall c: nat, k {:trigger Digits(c, Counts(dims))[k]} | c < Product(Counts(dims)) && 0 <= k < |dims|
      ensures BoxFits(dims[k], Digits(c, Counts(dims))[k])
    {
      ChunkFits(dims, p, c, k);
    }
  }

  lemma SharesFit(total: nat)
    requires total <= INT64_MAX
    ensures forall threads: nat, i: nat {:trigger SplitFits(Config(threads, total), i)} ::
              0 < threads <= total && i <= threads ==> SplitFits(Config(threads, total), i)
  {
    hide SplitFits;
    forall threads: nat, i: nat {:trigger SplitFits(Config(threads, total), i)} | 0 < threads <= total && i <= threads
      ensures SplitFits(Config(threads, total), i)
    {
      SplitsFit(Config(threads, total), i);
    }
  }

  // ----- how far a counter can be advanced

  ghost function Last(tr: seq<State>): State
    requires |tr| > 0
  {
    tr[|tr| - 1]
  }

  // A run that ends in s.
  ghost predicate RunTo(c: Config, tr: seq<State>, s: State) { IsRun(c, tr) && Last(tr) == s }

  lemma OneMore(c: Config, tr: seq<State>, s: State, s': State, t: nat) returns (r: seq<State>)
    requires RunTo(c, tr, s) && Step(c, s, s', t)
    ensures RunTo(c, r, s')
  {
    hide Step, Init;
    r := tr + [s'];
    forall i | 0 <= i < |r| - 1 ensures Next(c, r[i], r[i + 1]) {
      if i < |tr| - 1 { assert Next(c, tr[i], tr[i + 1]); }
    }
  }

  // Thread t is about to decide whether to advance counter j; the others have not moved between s and s'.
  ghost predicate Alone(s: State, s': State, t: nat, j: nat, a: Thread, v: nat) {
    t < |s.thr| && j < |s.value| && s'.thr == s.thr[t := a] && s'.value == s.value[j := v]
  }

  // A thread that goes on claiming from one counter, undisturbed, leaves it one beyond its target.
  lemma {:induction false} Drain(c: Config, tr: seq<State>, s: State, t: nat) returns (r: seq<State>, s': State)
    requires RunTo(c, tr, s) && Shape(c, s) && t < c.threads && s.thr[t].pc.Test? && s.thr[t].at < c.threads
    requires s.thr[t].pc.index <= s.value[s.thr[t].at]
    ensures RunTo(c, r, s') && Shape(c, s')
    ensures var a := s.thr[t];
            Alone(s, s', t, a.at, Leaves(a), if a.pc.index < c.Start(a.at + 1) then Max(s.value[a.at], c.Start(a.at + 1)) + 1 else s.value[a.at])
    decreases c.Start(s.thr[t].at + 1) - s.value[s.thr[t].at]
  {
    var a := s.thr[t];
    var k, target := s.value[a.at], c.Start(a.at + 1);
    hide Config.Start, IsRun;
    if a.pc.index >= target {
      s' := s.(thr := s.thr[t := Leaves(a)]);
      r := OneMore(c, tr, s, s', t);
    } else if k >= target {
      s' := s.(value := s.value[a.at := k + 1], thr := s.thr[t := Leaves(a)]);
      r := OneMore(c, tr, s, s', t);
    } else {
      var s1 := s.(value := s.value[a.at := k + 1], thr := s.thr[t := a.(pc := Claimed(k))]);
      r := OneMore(c, tr, s, s1, t);
      var s2 := s1.(thr := s1.thr[t := a.(pc := Test(k))], calls := s1.calls + multiset{k});
      r := OneMore(c, r, s1, s2, t);
      r, s' := Drain(c, r, s2, t);
    }
  }

  lemma Look(c: Config, tr: seq<State>, s: State, t: nat) returns (r: seq<State>, s': State)
    requires RunTo(c, tr, s) && Shape(c, s) && t < c.threads && s.thr[t].pc.Load? && s.thr[t].pos < c.threads && s.thr[t].at < c.threads
    ensures RunTo(c, r, s') && Shape(c, s')
    ensures s' == s.(thr := s.thr[t := s.thr[t].(pc := Test(s.value[s.thr[t].at]))])
  {
    s' := s.(thr := s.thr[t := s.thr[t].(pc := Test(s.value[s.thr[t].at]))]);
    assert LoadStep(c, s, s', t);
    hide IsRun;
    r := OneMore(c, tr, s, s', t);
  }

  // Thread t goes through the counters before the last one.
  lemma {:induction false} Walk(c: Config, tr: seq<State>, s: State, t: nat) returns (r: seq<State>, s': State)
    requires RunTo(c, tr, s) && Shape(c, s) && t < c.threads && s.thr[t].pc.Load? && s.thr[t].at == t + s.thr[t].pos < c.threads
    ensures RunTo(c, r, s') && Shape(c, s')
    ensures s'.thr == s.thr[t := Thread(c.threads - 1 - t, c.threads - 1, Load)] && s'.value[c.threads - 1] == s.value[c.threads - 1]
    decreases c.threads - s.thr[t].at
  {
    hide IsRun, Config.Start;
    r, s' := tr, s;
    if s.thr[t].at < c.threads - 1 {
      var s1;
      r, s1 := Look(c, r, s, t);
      r, s' := Drain(c, r, s1, t);
      r, s' := Walk(c, r, s', t);
    }
  }

  // The first n threads have looked at the last counter before anybody took from it; the others have not begun.
  ghost predicate Gathered(c: Config, s: State, n: nat) {
    Shape(c, s) && n <= c.threads && s.value[c.threads - 1] == c.Start(c.threads - 1)
    && forall t :: 0 <= t < c.threads ==>
         s.thr[t] == if t < n then Thread(c.threads - 1 - t, c.threads - 1, Test(c.Start(c.threads - 1))) else Thread(0, t, Load)
  }

  lemma {:induction false} Gather(c: Config, n: nat) returns (r: seq<State>, s: State)
    requires c.Ok() && n <= c.threads
    ensures RunTo(c, r, s) && Gathered(c, s, n)
  {
    if n == 0 {
      s := State(seq(c.threads, i requires 0 <= i < c.threads => c.Start(i)), seq(c.threads, t requires 0 <= t < c.threads => Thread(0, t, Load)), multiset{});
      r := [s];
    } else {
      r, s := Gather(c, n - 1);
      hide IsRun, Config.Start;
      r, s := Walk(c, r, s, n - 1);
      r, s := Look(c, r, s, n - 1);
    }
  }

  // Then the first thread takes all there is, and each of the others advances the counter once more.
  lemma {:induction false} Overshoot(c: Config, tr: seq<State>, s0: State, n: nat) returns (r: seq<State>, s: State)
    requires RunTo(c, tr, s0) && Gathered(c, s0, c.threads) && 0 < n <= c.threads
    ensures RunTo(c, r, s) && Shape(c, s) && s.value[c.threads - 1] == c.total + n
    ensures s.thr[n..] == s0.thr[n..]
  {
    StretchesCover(c);
    var last := c.threads - 1;
    LastIsNotEmpty(c);
    hide IsRun, Config.Start;
    if n == 1 {
      r, s := Drain(c, tr, s0, 0);
    } else {
      var s1;
      r, s1 := Overshoot(c, tr, s0, n - 1);
      assert s1.thr[n - 1] == s1.thr[n - 1..][0] == s0.thr[n - 1..][0] == s0.thr[n - 1];
      assert s1.thr[n..] == s1.thr[n - 1..][1..] && s0.thr[n..] == s0.thr[n - 1..][1..];
      s := s1.(value := s1.value[last := c.total + n], thr := s1.thr[n - 1 := Leaves(s1.thr[n - 1])]);
      assert ClaimStep(c, s1, s, n - 1);
      r := OneMore(c, r, s1, s, n - 1);
    }
  }

  lemma LastIsNotEmpty(c: Config)
    requires c.Ok()
    ensures c.Start(c.threads - 1) < c.Start(c.threads)
  {
    DivMono(c.threads, c.total, c.threads);
    DivModUnique(c.threads, c.threads, 1, 0);
    assert c.threads * c.Each() == (c.threads - 1) * c.Each() + c.Each();
  }

  /** The counters of a dynamic loop stay within 64 bits in every run if and only if chunks and threads together
      are at most 2^63 - 1. */
  lemma CountersFit(c: Config)
    requires c.Ok()
    ensures c.total + c.threads <= INT64_MAX <==>
            forall tr: seq<State>, n: nat, i: nat {:trigger tr[n].value[i]} ::
              IsRun(c, tr) && n < |tr| && i < |tr[n].value| ==> Fits(tr[n].value[i])
  {
    if c.total + c.threads <= INT64_MAX {
      forall tr: seq<State>, n: nat, i: nat {:trigger tr[n].value[i]} | IsRun(c, tr) && n < |tr| && i < |tr[n].value|
        ensures Fits(tr[n].value[i])
      {
        RunInv(c, tr, n);
        CountersAreBounded(c, tr, n, i);
        StretchesCover(c);
        StartMono(c, i + 1, c.threads);
      }
    } else {
      var tr, s := Gather(c, c.threads);
      tr, s := Overshoot(c, tr, s, c.threads);
      assert tr[|tr| - 1].value[c.threads - 1] == c.total + c.threads;
    }
  }
}
