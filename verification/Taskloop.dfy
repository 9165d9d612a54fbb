/** Task loops: total task numbers are dealt out to the executors of a group, by one thread in rows or by one
    dispatching task per executor, and every number stands for a box of the index space. */
module Taskloop {
  import opened Division
  import opened LoopRange
  import opened LoopChunks

  // What the dispatchers are told: total tasks for esize executors.
  datatype Info = Info(total: nat, esize: nat) {
    function MinTasks(): nat
      requires esize > 0
    {
      total / esize
    }

    function ExtraTasks(): nat
      requires esize > 0
    {
      total % esize
    }

    function MaxTasks(): nat
      requires esize > 0
    {
      MinTasks() + if ExtraTasks() > 0 then 1 else 0
    }
  }

  // ----- the linear dispatcher: the last executors get the extra tasks

  function Share(c: Info, e: nat): nat
    requires c.esize > 0
  {
    c.MinTasks() + if e + c.ExtraTasks() >= c.esize then 1 else 0
  }

  // The first task of executor e.
  function First(c: Info, e: nat): nat
    requires c.esize > 0
  {
    if e == 0 then 0 else First(c, e - 1) + Share(c, e - 1)
  }

  lemma {:induction false} FirstIs(c: Info, e: nat)
    requires c.esize > 0 && e <= c.esize
    ensures First(c, e) == e * c.MinTasks() + (if e + c.ExtraTasks() > c.esize then e + c.ExtraTasks() - c.esize else 0)
  {
    DivMod(c.total, c.esize);
    if e > 0 {
      FirstIs(c, e - 1);
      assert e * c.MinTasks() == (e - 1) * c.MinTasks() + c.MinTasks();
    }
  }

  lemma FirstOfAll(c: Info)
    requires c.esize > 0
    ensures First(c, c.esize) == c.total
  {
    FirstIs(c, c.esize);
    DivMod(c.total, c.esize);
  }

  lemma {:induction false} FirstMono(c: Info, e: nat, f: nat)
    requires c.esize > 0 && e <= f
    ensures First(c, e) <= First(c, f)
  {
    if e < f { FirstMono(c, e, f - 1); }
  }

  // Task k is the r-th of executor e.
  predicate TaskIs(c: Info, e: nat, r: nat, k: nat)
    requires c.esize > 0
  {
    r < Share(c, e) && k == First(c, e) + r
  }

  lemma TaskIsUnique(c: Info, e: nat, r: nat, f: nat, q: nat, k: nat)
    requires c.esize > 0 && TaskIs(c, e, r, k) && TaskIs(c, f, q, k)
    ensures e == f && r == q
  {
    if e < f { FirstMono(c, e + 1, f); }
    if f < e { FirstMono(c, f + 1, e); }
  }

  lemma {:induction false} TaskOf(c: Info, k: nat, n: nat) returns (e: nat, r: nat)
    requires c.esize > 0 && k < First(c, n)
    ensures e < n && TaskIs(c, e, r, k)
  {
    if k >= First(c, n - 1) { e, r := n - 1, k - First(c, n - 1); } else { e, r := TaskOf(c, k, n - 1); }
  }

  // Before the dispatcher comes to executor e in row i, task k of executor f and rank r has been dealt.
  predicate Dealt(i: nat, e: nat, f: nat, r: nat) { r < i || (r == i && f < e) }

  ghost predicate SentOk(c: Info, sent: map<nat, nat>, i: nat, e: nat)
    requires c.esize > 0
  {
    forall f: nat, r: nat, k: nat {:trigger TaskIs(c, f, r, k)} :: f < c.esize && TaskIs(c, f, r, k) ==>
      (k in sent <==> Dealt(i, e, f, r)) && (k in sent ==> sent[k] == f)
  }

  ghost predicate OnlyTasks(c: Info, sent: map<nat, nat>) { forall k :: k in sent ==> k < c.total }

  // The row ends where the next one begins.
  lemma RowEnds(c: Info, sent: map<nat, nat>, i: nat)
    requires c.esize > 0 && SentOk(c, sent, i, c.esize)
    ensures SentOk(c, sent, i + 1, 0)
  {}

  lemma BelowTotal(c: Info, e: nat, i: nat)
    requires c.esize > 0 && e < c.esize && i < Share(c, e)
    ensures First(c, e) + i < c.total
  {
    FirstOfAll(c);
    FirstMono(c, e + 1, c.esize);
  }

  lemma DealOne(c: Info, sent: map<nat, nat>, i: nat, e: nat)
    requires c.esize > 0 && e < c.esize && SentOk(c, sent, i, e) && i < Share(c, e)
    ensures First(c, e) + i !in sent && SentOk(c, sent[First(c, e) + i := e], i, e + 1)
  {
    hide Info.MinTasks, Info.ExtraTasks, First, Share;
    var k := First(c, e) + i;
    assert TaskIs(c, e, i, k);
    forall f: nat, r: nat, x: nat {:trigger TaskIs(c, f, r, x)} | f < c.esize && TaskIs(c, f, r, x)
      ensures (x in sent[k := e] <==> Dealt(i, e + 1, f, r)) && (x in sent[k := e] ==> sent[k := e][x] == f)
    {
      assert f == e && r == i ==> x == k;
      if x == k {
        TaskIsUnique(c, e, i, f, r, k);
      }
    }
  }

  lemma SkipOne(c: Info, sent: map<nat, nat>, i: nat, e: nat)
    requires c.esize > 0 && e < c.esize && SentOk(c, sent, i, e) && i >= Share(c, e)
    ensures SentOk(c, sent, i, e + 1)
  {}

  // One task handed to an executor.
  datatype Sent = Sent(task: nat, executor: nat)

  ghost predicate IsDealt(sent: seq<Sent>, k: nat) { exists i :: 0 <= i < |sent| && sent[i].task == k }

  // What the sequence says, the map says.
  ghost predicate Recorded(sent: seq<Sent>, whose: map<nat, nat>) {
    (forall i :: 0 <= i < |sent| ==> sent[i].task in whose && whose[sent[i].task] == sent[i].executor)
    && (forall i, j :: 0 <= i < j < |sent| ==> sent[i].task != sent[j].task)
    && (forall k :: k in whose ==> IsDealt(sent, k))
  }

  lemma RecordOne(sent: seq<Sent>, whose: map<nat, nat>, k: nat, e: nat)
    requires Recorded(sent, whose) && k !in whose
    ensures Recorded(sent + [Sent(k, e)], whose[k := e])
  {
    var more := sent + [Sent(k, e)];
    forall x | x in whose[k := e] ensures IsDealt(more, x) {
      if x == k {
        assert more[|sent|].task == x;
      } else {
        assert IsDealt(sent, x);
        var i :| 0 <= i < |sent| && sent[i].task == x;
        assert more[i].task == x;
      }
    }
  }

  // Every number below the total is dealt once, and to the executor whose share it belongs to.
  ghost predicate DealsOnce(c: Info, sent: seq<Sent>)
    requires c.esize > 0
  {
    (forall i :: 0 <= i < |sent| ==> sent[i].task < c.total && sent[i].executor < c.esize
                                     && First(c, sent[i].executor) <= sent[i].task < First(c, sent[i].executor + 1))
    && (forall i, j :: 0 <= i < j < |sent| ==> sent[i].task != sent[j].task)
    && (forall k: nat :: k < c.total ==> IsDealt(sent, k))
  }

  /** The linear dispatcher: every number is dealt exactly once, and executor e gets First(e), First(e) + 1, ... as
      many as its share. sent lists what is dealt in that order. */
  method DispatchLinear(c: Info) returns (sent: seq<Sent>)
    requires c.esize > 0
    ensures DealsOnce(c, sent)
  {
    sent := [];
    ghost var whose: map<nat, nat> := map[];
    var min, extra := c.MinTasks(), c.ExtraTasks();
    hide Info.MinTasks, Info.ExtraTasks;
    for i := 0 to c.MaxTasks()
      invariant SentOk(c, whose, i, 0) && OnlyTasks(c, whose) && Recorded(sent, whose)
    {
      var task := i;
      for e := 0 to c.esize
        invariant SentOk(c, whose, i, e) && OnlyTasks(c, whose) && Recorded(sent, whose) && task == First(c, e) + i
      {
        hide SentOk, OnlyTasks, Recorded;
        if i == min && e + extra < c.esize {
          SkipOne(c, whose, i, e);
          task := task + min;
        } else {
          DealOne(c, whose, i, e);
          BelowTotal(c, e, i);
          KeepsOnly(c, whose, task, e);
          RecordOne(sent, whose, task, e);
          sent, whose := sent + [Sent(task, e)], whose[task := e];
          task := task + min + if e + extra >= c.esize then 1 else 0;
        }
      }
      RowEnds(c, whose, i);
    }
    AllDealt(c, sent, whose);
  }

  lemma AllDealt(c: Info, sent: seq<Sent>, whose: map<nat, nat>)
    requires c.esize > 0 && SentOk(c, whose, c.MaxTasks(), 0) && OnlyTasks(c, whose) && Recorded(sent, whose)
    ensures DealsOnce(c, sent)
  {
    hide First, SentOk, IsDealt;
    forall i | 0 <= i < |sent|
      ensures sent[i].executor < c.esize && First(c, sent[i].executor) <= sent[i].task < First(c, sent[i].executor + 1)
    {
      AllSent(c, whose, sent[i].task);
    }
    forall k: nat | k < c.total ensures IsDealt(sent, k) { AllSent(c, whose, k); }
  }

  lemma KeepsOnly(c: Info, sent: map<nat, nat>, k: nat, e: nat)
    requires OnlyTasks(c, sent) && k < c.total
    ensures OnlyTasks(c, sent[k := e])
  {}

  lemma AllSent(c: Info, sent: map<nat, nat>, k: nat)
    requires c.esize > 0 && SentOk(c, sent, c.MaxTasks(), 0) && k < c.total
    ensures k in sent && sent[k] < c.esize && First(c, sent[k]) <= k < First(c, sent[k] + 1)
  {
    FirstOfAll(c);
    var e, r := TaskOf(c, k, c.esize);
    assert r < c.MaxTasks();
  }

  // ----- the concurrent dispatchers: the first executors get the extra tasks

  /** The interval of the dispatching task of executor e. */
  function Begin(c: Info, e: nat): nat
    requires c.esize > 0
  {
    if c.ExtraTasks() != 0 && e >= c.ExtraTasks() then e * c.MinTasks() + c.ExtraTasks() else e * c.MaxTasks()
  }

  function End(c: Info, e: nat): nat
    requires c.esize > 0
  {
    Begin(c, e) + if c.ExtraTasks() != 0 && e >= c.ExtraTasks() then c.MinTasks() else c.MaxTasks()
  }

  /** The intervals follow each other without gap or overlap, from task 0 to the last. */
  lemma IntervalsTile(c: Info, e: nat)
    requires c.esize > 0 && e < c.esize
    ensures Begin(c, 0) == 0 && End(c, c.esize - 1) == c.total && Begin(c, e) <= End(c, e)
    ensures e + 1 < c.esize ==> End(c, e) == Begin(c, e + 1)
  {
    DivMod(c.total, c.esize);
    var m, x, last := c.MinTasks(), c.ExtraTasks(), c.esize - 1;
    assert (e + 1) * m == e * m + m && (last + 1) * m == last * m + m;
    if x > 0 {
      assert e * (m + 1) == e * m + e && (e + 1) * (m + 1) == (e + 1) * m + e + 1;
    }
  }

  lemma {:induction false} InOneInterval(c: Info, k: nat, n: nat) returns (e: nat)
    requires c.esize > 0 && 0 < n <= c.esize && k < End(c, n - 1)
    ensures e < n && Begin(c, e) <= k < End(c, e)
  {
    IntervalsTile(c, n - 1);
    if k >= Begin(c, n - 1) {
      e := n - 1;
    } else {
      IntervalsTile(c, n - 2);
      e := InOneInterval(c, k, n - 1);
    }
  }

  lemma {:induction false} IntervalsOrdered(c: Info, e: nat, f: nat)
    requires c.esize > 0 && e < f < c.esize
    ensures End(c, e) <= Begin(c, f)
  {
    IntervalsTile(c, e);
    IntervalsTile(c, f - 1);
    if e + 1 < f { IntervalsOrdered(c, e, f - 1); }
  }

  /** The dispatching tasks together deal every number exactly once. */
  lemma DispatchedOnce(c: Info, k: nat) returns (e: nat)
    requires c.esize > 0 && k < c.total
    ensures e < c.esize && forall f: nat :: f < c.esize ==> (Begin(c, f) <= k < End(c, f) <==> f == e)
  {
    IntervalsTile(c, 0);
    e := InOneInterval(c, k, c.esize);
    hide Begin, End;
    forall f: nat | f < c.esize ensures Begin(c, f) <= k < End(c, f) <==> f == e {
      if f < e { IntervalsOrdered(c, f, e); IntervalsTile(c, f); }
      if e < f { IntervalsOrdered(c, e, f); IntervalsTile(c, f); }
    }
  }

  // ----- the boxes: here the first dimension runs fastest

  function FrontDigits(k: nat, n: seq<nat>): (t: seq<nat>)
    requires Positive(n)
    ensures |t| == |n|
    decreases |n|
  {
    if n == [] then [] else [Rem(k, n[0])] + FrontDigits(Quot(k, n[0]), n[1..])
  }

  function FrontEncode(t: seq<nat>, n: seq<nat>): nat
    requires |t| == |n|
  {
    if n == [] then 0 else t[0] + FrontEncode(t[1..], n[1..]) * n[0]
  }

  function FrontProduct(n: seq<nat>): nat { if n == [] then 1 else n[0] * FrontProduct(n[1..]) }

  lemma {:induction false} FrontBelow(t: seq<nat>, n: seq<nat>)
    requires InRadix(t, n)
    ensures FrontEncode(t, n) < FrontProduct(n)
  {
    if n != [] {
      FrontBelow(t[1..], n[1..]);
      MulOrder(FrontEncode(t[1..], n[1..]), FrontProduct(n[1..]), n[0]);
    }
  }

  lemma {:induction false} FrontDecodes(t: seq<nat>, n: seq<nat>)
    requires InRadix(t, n) && Positive(n)
    ensures FrontDigits(FrontEncode(t, n), n) == t
  {
    if n != [] {
      FrontDecodes(t[1..], n[1..]);
      var k := FrontEncode(t, n);
      QuotRem(k, n[0]);
      QuotUnique(n[0], FrontEncode(t[1..], n[1..]), t[0], Quot(k, n[0]), Rem(k, n[0]));
      assert t == [t[0]] + t[1..];
    }
  }

  lemma {:induction false} FrontEncodes(k: nat, n: seq<nat>)
    requires k < FrontProduct(n) && Positive(n)
    ensures InRadix(FrontDigits(k, n), n) && FrontEncode(FrontDigits(k, n), n) == k
  {
    if n != [] {
      QuotRem(k, n[0]);
      MulOrder(FrontProduct(n[1..]), Quot(k, n[0]), n[0]);
      hide Quot, Rem;
      assert Positive(n[1..]);
      FrontEncodes(Quot(k, n[0]), n[1..]);
      var t := FrontDigits(k, n);
      assert t[1..] == FrontDigits(Quot(k, n[0]), n[1..]);
      forall i | 0 <= i < |n| ensures t[i] < n[i] {
        if i > 0 { assert t[i] == t[1..][i - 1] && n[i] == n[1..][i - 1]; }
      }
    }
  }

  lemma {:induction false} FrontSnoc(n: seq<nat>, x: nat)
    ensures FrontProduct(n + [x]) == FrontProduct(n) * x
  {
    if n == [] {
      assert (n + [x])[1..] == [];
    } else {
      FrontSnoc(n[1..], x);
      assert (n + [x])[1..] == n[1..] + [x];
      MulAssoc(n[0], FrontProduct(n[1..]), x);
      MulAssoc(n[0], x, FrontProduct(n[1..]));
    }
  }

  // Either way of counting the tasks comes to the same.
  lemma {:induction false} ProductsAgree(n: seq<nat>)
    ensures FrontProduct(n) == Product(n)
  {
    if n != [] {
      ProductsAgree(n[..|n| - 1]);
      FrontSnoc(n[..|n| - 1], n[|n| - 1]);
      assert n == n[..|n| - 1] + [n[|n| - 1]];
    }
  }

  // The box of task k: blocks of blocksize indices.
  function BlockDim(d: Dim, i: nat): Dim {
    var lower := d.lower + i * d.blocksize;
    d.(lower := lower, upper := if d.blocksize > 0 then Min(d.upper, lower + d.blocksize) else Max(d.upper, lower + d.blocksize))
  }

  /** Decoding: the box of task k. */
  method ComputeBox(dims: seq<Dim>, blocks: seq<nat>, k: nat) returns (box: seq<Dim>)
    requires |blocks| == |dims| && Positive(blocks)
    ensures |box| == |dims| && forall d :: 0 <= d < |dims| ==> box[d] == BlockDim(dims[d], FrontDigits(k, blocks)[d])
  {
    box := [];
    var rest := k;
    ghost var all := FrontDigits(k, blocks);
    for d := 0 to |dims|
      invariant |box| == d && forall x :: 0 <= x < d ==> box[x] == BlockDim(dims[x], all[x])
      invariant Positive(blocks[d..]) && FrontDigits(rest, blocks[d..]) == all[d..]
    {
      assert blocks[d..][1..] == blocks[d + 1..] && all[d..][1..] == all[d + 1..] && blocks[d..][0] == blocks[d] && all[d..][0] == all[d];
      var index;
      rest, index := DivRem(rest, blocks[d]);
      var lower := dims[d].lower + index * dims[d].blocksize;
      var upper := if dims[d].blocksize > 0 then Min(dims[d].upper, lower + dims[d].blocksize) else Max(dims[d].upper, lower + dims[d].blocksize);
      box := box + [Dim(lower, upper, dims[d].step, dims[d].blocksize)];
    }
  }

  ghost predicate UnitSteps(dims: seq<Dim>) { RangeOk(dims) && forall d :: 0 <= d < |dims| ==> dims[d].step == 1 }

  ghost predicate InBox(dims: seq<Dim>, k: nat, p: seq<int>)
    requires RangeOk(dims)
  {
    |p| == |dims| && forall d {:trigger dims[d]} :: 0 <= d < |dims| ==> Visits(BlockDim(dims[d], FrontDigits(k, Counts(dims))[d]), p[d])
  }

  lemma BlockIsChunk(d: Dim, i: nat)
    requires d.step == 1
    ensures BlockDim(d, i) == ChunkDim(d, i)
  {
    assert (i + 1) * d.blocksize == i * d.blocksize + d.blocksize;
  }

  /** With steps of one the boxes tile the index space: every point lies in the box of exactly one task,
      and boxes hold no other points. */
  lemma BoxesTile(dims: seq<Dim>, p: seq<int>) returns (k: nat)
    requires UnitSteps(dims) && PointIn(dims, p)
    ensures k < Product(Counts(dims))
    ensures forall b: nat :: b < Product(Counts(dims)) ==> (InBox(dims, b, p) <==> b == k)
    ensures forall b: nat, q {:trigger InBox(dims, b, q)} :: InBox(dims, b, q) ==> PointIn(dims, q)
  {
    forall b: nat, q {:trigger InBox(dims, b, q)} | InBox(dims, b, q) ensures PointIn(dims, q) { BoxesStayInside(dims, b, q); }
    var n := Counts(dims);
    var t := ChunkOf(dims, p);
    k := FrontEncode(t, n);
    FrontBelow(t, n);
    FrontDecodes(t, n);
    forall d, i: nat {:trigger BlockDim(dims[d], i)} | 0 <= d < |dims| ensures Visits(BlockDim(dims[d], i), p[d]) <==> i == t[d] {
      BlockIsChunk(dims[d], i);
    }
    hide BlockDim, Visits;
    ProductsAgree(n);
    forall b: nat | b < Product(n) ensures InBox(dims, b, p) <==> b == k {
      FrontEncodes(b, n);
      var s := FrontDigits(b, n);
      if InBox(dims, b, p) {
        forall d | 0 <= d < |n| ensures s[d] == t[d] { assert Visits(BlockDim(dims[d], s[d]), p[d]); }
        assert s == t;
      }
    }
  }

  /** The linear dispatcher covers the index space: every point lies in the box of exactly one of the tasks it
      deals, and is dealt once. */
  lemma LinearCovers(dims: seq<Dim>, c: Info, sent: seq<Sent>, p: seq<int>) returns (i: nat)
    requires c.esize > 0 && DealsOnce(c, sent) && UnitSteps(dims) && c.total == Product(Counts(dims)) && PointIn(dims, p)
    ensures i < |sent| && forall j :: 0 <= j < |sent| ==> (InBox(dims, sent[j].task, p) <==> j == i)
  {
    var k := BoxesTile(dims, p);
    assert IsDealt(sent, k);
    i :| 0 <= i < |sent| && sent[i].task == k;
    hide InBox, First;
  }

  /** So do the concurrent dispatchers: every point lies in the box of exactly one number in exactly one of the
      dispatching tasks' intervals. */
  lemma ConcurrentCovers(dims: seq<Dim>, c: Info, p: seq<int>) returns (e: nat, k: nat)
    requires c.esize > 0 && UnitSteps(dims) && c.total == Product(Counts(dims)) && PointIn(dims, p)
    ensures e < c.esize && Begin(c, e) <= k < End(c, e) && InBox(dims, k, p)
    ensures forall f: nat, b: nat :: f < c.esize && Begin(c, f) <= b < End(c, f) && InBox(dims, b, p) ==> f == e && b == k
  {
    k := BoxesTile(dims, p);
    e := DispatchedOnce(c, k);
    forall f: nat | f < c.esize ensures End(c, f) <= c.total { EndsBelow(c, f); }
    hide InBox, Begin, End;
  }

  lemma EndsBelow(c: Info, e: nat)
    requires e < c.esize
    ensures End(c, e) <= c.total
  {
    IntervalsTile(c, e);
    if e + 1 < c.esize {
      IntervalsOrdered(c, e, c.esize - 1);
      IntervalsTile(c, c.esize - 1);
    }
  }

  lemma BoxesStayInside(dims: seq<Dim>, k: nat, p: seq<int>)
    requires UnitSteps(dims) && InBox(dims, k, p)
    ensures PointIn(dims, p)
  {
    forall d | 0 <= d < |dims| ensures Visits(dims[d], p[d]) {
      var i := FrontDigits(k, Counts(dims))[d];
      BlockIsChunk(dims[d], i);
      ChunkStaysInside(dims[d], i, i + 1, p[d]);
    }
  }
}
