/** The dynamic policy of parallel loops: threads claim chunks by advancing shared counters, each starting with
    its own counter and then helping the others. Every access to a counter is one transition. */
module DynamicFor {
  import opened Division
  import opened LoopRange
  import opened LoopChunks

  datatype Config = Config(threads: nat, total: nat) {
    // There are never more threads than chunks.
    predicate Ok() { 0 < threads <= total }

    function Each(): nat
      requires threads > 0
    {
      total / threads
    }

    function Left(): nat
      requires threads > 0
    {
      total % threads
    }

    // Where counter i starts; it ends where the next one starts.
    function Start(i: nat): nat
      requires threads > 0
    {
      StartAt(i * Each(), Left())
    }
  }

  function StartAt(first: nat, left: nat): nat { first + if first < left then first else left }

  /** Preparation: counter i runs from Start(i) to Start(i + 1). */
  method Prepare(c: Config) returns (value: seq<nat>, target: seq<nat>)
    requires c.threads > 0
    ensures |value| == |target| == c.threads
    ensures forall i :: 0 <= i < c.threads ==> value[i] == c.Start(i) && target[i] == c.Start(i + 1)
  {
    var each := c.Each();
    var left := c.Left();
    hide Config.Each, Config.Left, StartAt;
    value, target := [], [];
    for i := 0 to c.threads
      invariant |value| == |target| == i
      invariant forall k :: 0 <= k < i ==> value[k] == c.Start(k) && target[k] == c.Start(k + 1)
    {
      value := value + [StartAt(i * each, left)];
      target := target + [StartAt((i + 1) * each, left)];
    }
  }

  /** The stretches of the counters cover the chunks exactly if and only if there are no more threads than
      chunks, or no chunks at all. */
  lemma StretchesCover(c: Config)
    requires c.threads > 0
    ensures c.Start(0) == 0 && (c.Start(c.threads) == c.total <==> c.threads <= c.total || c.total == 0)
  {
    DivMod(c.total, c.threads);
    if c.threads <= c.total {
      DivMono(c.threads, c.total, c.threads);
      DivModUnique(c.threads, c.threads, 1, 0);
      MulMono(1, c.Each(), c.threads);
    } else {
      DivModUnique(c.total, c.threads, 0, c.total);
    }
  }

  lemma StartMono(c: Config, i: nat, j: nat)
    requires c.threads > 0 && i <= j
    ensures c.Start(i) <= c.Start(j)
  {
    MulMono(i, j, c.Each());
  }

  predicate InStretch(c: Config, i: nat, k: nat)
    requires c.threads > 0
  {
    c.Start(i) <= k < c.Start(i + 1)
  }

  lemma {:induction false} StretchOf(c: Config, k: nat, n: nat) returns (i: nat)
    requires c.threads > 0 && k < c.Start(n)
    ensures i < n && InStretch(c, i, k)
  {
    StartMono(c, 0, n);
    if n == 0 || k >= c.Start(n - 1) { i := n - 1; } else { i := StretchOf(c, k, n - 1); }
  }

  lemma OneStretch(c: Config, i: nat, j: nat, k: nat)
    requires c.threads > 0 && InStretch(c, i, k) && InStretch(c, j, k)
    ensures i == j
  {
    if i < j { StartMono(c, i + 1, j); }
    if j < i { StartMono(c, j + 1, i); }
  }

  // ----- the claim loop

  datatype Pc =
    | Load                 // about to look at the next counter
    | Test(index: int)     // about to compare and, if it is worth it, to advance the counter
    | Claimed(k: nat)      // about to run chunk k

  // A thread at the pos-th counter of its round; at is that counter, before wrapping around.
  datatype Thread = Thread(pos: nat, at: nat, pc: Pc)

  datatype State = State(value: seq<nat>, thr: seq<Thread>, calls: multiset<nat>)

  ghost predicate Init(c: Config, s: State) {
    c.Ok() && |s.value| == |s.thr| == c.threads && s.calls == multiset{}
    && (forall i :: 0 <= i < c.threads ==> s.value[i] == c.Start(i))
    && (forall t :: 0 <= t < c.threads ==> s.thr[t] == Thread(0, t, Load))
  }

  ghost predicate Shape(c: Config, s: State) { c.Ok() && |s.value| == |s.thr| == c.threads }

  function Leaves(a: Thread): Thread { Thread(a.pos + 1, a.at + 1, Load) }

  ghost predicate LoadStep(c: Config, s: State, s': State, t: nat) {
    Shape(c, s) && t < c.threads && s.thr[t].pc.Load? && s.thr[t].pos < c.threads
    && var at := if s.thr[t].at >= c.threads then 0 else s.thr[t].at;
       s' == s.(thr := s.thr[t := Thread(s.thr[t].pos, at, Test(s.value[at]))])
  }

  ghost predicate SkipStep(c: Config, s: State, s': State, t: nat) {
    Shape(c, s) && t < c.threads && s.thr[t].pc.Test? && s.thr[t].pc.index >= c.Start(s.thr[t].at + 1)
    && s' == s.(thr := s.thr[t := Leaves(s.thr[t])])
  }

  // The counter is advanced, whatever it has become meanwhile.
  ghost predicate ClaimStep(c: Config, s: State, s': State, t: nat) {
    Shape(c, s) && t < c.threads && s.thr[t].pc.Test? && s.thr[t].at < c.threads
    && s.thr[t].pc.index < c.Start(s.thr[t].at + 1)
    && var at := s.thr[t].at;
       var k := s.value[at];
       s' == s.(value := s.value[at := k + 1],
                thr := s.thr[t := if k >= c.Start(at + 1) then Leaves(s.thr[t]) else s.thr[t].(pc := Claimed(k))])
  }

  ghost predicate CallStep(c: Config, s: State, s': State, t: nat) {
    Shape(c, s) && t < c.threads && s.thr[t].pc.Claimed?
    && s' == s.(thr := s.thr[t := s.thr[t].(pc := Test(s.thr[t].pc.k))], calls := s.calls + multiset{s.thr[t].pc.k})
  }

  ghost predicate Step(c: Config, s: State, s': State, t: nat) {
    LoadStep(c, s, s', t) || SkipStep(c, s, s', t) || ClaimStep(c, s, s', t) || CallStep(c, s, s', t)
  }

  ghost predicate Next(c: Config, s: State, s': State) { exists t: nat :: Step(c, s, s', t) }

  ghost predicate IsRun(c: Config, tr: seq<State>) {
    |tr| > 0 && Init(c, tr[0]) && forall i :: 0 <= i < |tr| - 1 ==> Next(c, tr[i], tr[i + 1])
  }

  // ----- the invariant

  // After pos counters thread t is through with counter i: it starts with its own and wraps around once.
  predicate Passed(c: Config, pos: nat, t: nat, i: nat) { if i >= t then i < t + pos else i + c.threads < t + pos }

  function PassCount(c: Config, thr: seq<Thread>, i: nat, n: nat): nat
    requires n <= |thr|
  {
    if n == 0 then 0 else PassCount(c, thr, i, n - 1) + (if Passed(c, thr[n - 1].pos, n - 1, i) then 1 else 0)
  }

  lemma {:induction false} PassUpdate(c: Config, thr: seq<Thread>, t: nat, a: Thread, i: nat, n: nat)
    requires n <= |thr| && t < |thr|
    ensures PassCount(c, thr[t := a], i, n) - PassCount(c, thr, i, n)
            == if t < n then (if Passed(c, a.pos, t, i) then 1 else 0) - (if Passed(c, thr[t].pos, t, i) then 1 else 0) else 0
  {
    if n > 0 { PassUpdate(c, thr, t, a, i, n - 1); }
  }

  lemma {:induction false} PassBound(c: Config, thr: seq<Thread>, i: nat, n: nat)
    requires n <= |thr|
    ensures PassCount(c, thr, i, n) <= n
  {
    if n > 0 { PassBound(c, thr, i, n - 1); }
  }

  predicate Claims(a: Thread, k: nat) { a.pc == Claimed(k) }

  ghost predicate ThreadOk(c: Config, s: State, t: nat)
    requires Shape(c, s) && t < c.threads
  {
    var a := s.thr[t];
    a.pos <= c.threads
    && (if a.pc.Load? then a.at == (if t + a.pos <= c.threads then t + a.pos else t + a.pos - c.threads) || a.at == t + a.pos - c.threads
        else a.pos < c.threads && a.at == if t + a.pos < c.threads then t + a.pos else t + a.pos - c.threads)
    && (a.pc.Test? ==> a.pc.index <= s.value[a.at])
    && (a.pc.Claimed? ==> InStretch(c, a.at, a.pc.k) && a.pc.k < s.value[a.at])
    && (forall i {:trigger Passed(c, a.pos, t, i)} :: 0 <= i < c.threads && Passed(c, a.pos, t, i) ==> s.value[i] >= c.Start(i + 1))
  }

  ghost predicate CounterOk(c: Config, s: State, i: nat)
    requires Shape(c, s) && i < c.threads
  {
    c.Start(i) <= s.value[i] && s.value[i] <= c.Start(i + 1) + PassCount(c, s.thr, i, c.threads)
  }

  ghost predicate ChunkOk(c: Config, s: State, i: nat, k: nat)
    requires Shape(c, s) && i < c.threads
  {
    InStretch(c, i, k) ==>
      if k >= s.value[i] then s.calls[k] == 0
      else if exists t :: 0 <= t < c.threads && Claims(s.thr[t], k) then s.calls[k] == 0
      else s.calls[k] == 1
  }

  ghost predicate OneClaim(c: Config, s: State)
    requires Shape(c, s)
  {
    forall t, u, k {:trigger Claims(s.thr[t], k), Claims(s.thr[u], k)} ::
      0 <= t < c.threads && 0 <= u < c.threads && Claims(s.thr[t], k) && Claims(s.thr[u], k) ==> t == u
  }

  ghost predicate Inv(c: Config, s: State) {
    Shape(c, s) && OneClaim(c, s) && (forall k :: k in s.calls ==> k < c.total)
    && (forall t {:trigger ThreadOk(c, s, t)} :: 0 <= t < c.threads ==> ThreadOk(c, s, t))
    && (forall i {:trigger CounterOk(c, s, i)} :: 0 <= i < c.threads ==> CounterOk(c, s, i))
    && (forall i, k {:trigger ChunkOk(c, s, i, k)} :: 0 <= i < c.threads && 0 <= k ==> ChunkOk(c, s, i, k))
  }

  lemma InitInv(c: Config, s: State)
    requires Init(c, s)
    ensures Inv(c, s)
  {
    forall i | 0 <= i < c.threads ensures CounterOk(c, s, i) { StartMono(c, i, i + 1); }
  }

  // A thread's own step does not pass counters it is not at.
  lemma PassedNow(c: Config, s: State, t: nat, i: nat)
    requires Inv(c, s) && t < c.threads && i < c.threads && !s.thr[t].pc.Load?
    ensures Passed(c, s.thr[t].pos + 1, t, i) <==> Passed(c, s.thr[t].pos, t, i) || i == s.thr[t].at
    ensures !Passed(c, s.thr[t].pos, t, s.thr[t].at)
  {
    assert ThreadOk(c, s, t);
  }

  lemma LoadThread(c: Config, s: State, s': State, t: nat, u: nat)
    requires Inv(c, s) && LoadStep(c, s, s', t) && u < c.threads
    ensures Shape(c, s') && ThreadOk(c, s', u)
  {
    hide InStretch, Config.Start;
    assert ThreadOk(c, s, t) && ThreadOk(c, s, u);
  }

  lemma SkipThread(c: Config, s: State, s': State, t: nat, u: nat)
    requires Inv(c, s) && SkipStep(c, s, s', t) && u < c.threads
    ensures Shape(c, s') && ThreadOk(c, s', u)
  {
    hide InStretch, Config.Start;
    assert ThreadOk(c, s, t) && ThreadOk(c, s, u);
    forall i {:trigger Passed(c, s'.thr[t].pos, t, i)} | 0 <= i < c.threads && Passed(c, s'.thr[t].pos, t, i)
      ensures s'.value[i] >= c.Start(i + 1)
    {
      PassedNow(c, s, t, i);
      assert Passed(c, s.thr[t].pos, t, i) ==> s.value[i] >= c.Start(i + 1);
    }
  }

  lemma ClaimThread(c: Config, s: State, s': State, t: nat, u: nat)
    requires Inv(c, s) && ClaimStep(c, s, s', t) && u < c.threads
    ensures Shape(c, s') && ThreadOk(c, s', u)
  {
    assert CounterOk(c, s, s.thr[t].at) ==> InStretch(c, s.thr[t].at, s.value[s.thr[t].at]) || s.value[s.thr[t].at] >= c.Start(s.thr[t].at + 1);
    hide InStretch, Config.Start;
    assert ThreadOk(c, s, t) && ThreadOk(c, s, u) && CounterOk(c, s, s.thr[t].at);
    forall i {:trigger Passed(c, s'.thr[t].pos, t, i)} | 0 <= i < c.threads && Passed(c, s'.thr[t].pos, t, i)
      ensures s'.value[i] >= c.Start(i + 1)
    {
      PassedNow(c, s, t, i);
      assert Passed(c, s.thr[t].pos, t, i) ==> s.value[i] >= c.Start(i + 1);
    }
  }

  lemma CallThread(c: Config, s: State, s': State, t: nat, u: nat)
    requires Inv(c, s) && CallStep(c, s, s', t) && u < c.threads
    ensures Shape(c, s') && ThreadOk(c, s', u)
  {
    hide InStretch, Config.Start;
    assert ThreadOk(c, s, t) && ThreadOk(c, s, u);
  }

  lemma CounterKept(c: Config, s: State, s': State, t: nat, i: nat)
    requires Inv(c, s) && Step(c, s, s', t) && i < c.threads
    ensures Shape(c, s') && CounterOk(c, s', i)
  {
    hide InStretch, Config.Start, Passed;
    assert ThreadOk(c, s, t) && CounterOk(c, s, i);
    PassUpdate(c, s.thr, t, s'.thr[t], i, c.threads);
    if !s.thr[t].pc.Load? {
      PassedNow(c, s, t, i);
    }
  }

  lemma ClaimsKept(c: Config, s: State, s': State, t: nat)
    requires Inv(c, s) && Step(c, s, s', t)
    ensures Shape(c, s') && OneClaim(c, s')
  {
    hide Config.Start, ChunkOk, CounterOk;
    assert ThreadOk(c, s, t) && Shape(c, s');
    forall u, w, k {:trigger Claims(s'.thr[u], k), Claims(s'.thr[w], k)} |
      0 <= u < c.threads && 0 <= w < c.threads && Claims(s'.thr[u], k) && Claims(s'.thr[w], k)
      ensures u == w
    {
      assert Claims(s.thr[u], k) && Claims(s.thr[w], k) ==> u == w;
      if u == t && !Claims(s.thr[t], k) && w != t { FreshClaim(c, s, s', t, w, k); }
      if w == t && !Claims(s.thr[t], k) && u != t { FreshClaim(c, s, s', t, u, k); }
    }
  }

  // A chunk just claimed is not claimed by anybody else.
  lemma FreshClaim(c: Config, s: State, s': State, t: nat, u: nat, k: nat)
    requires Inv(c, s) && Step(c, s, s', t) && Shape(c, s') && u < c.threads && u != t && Claims(s'.thr[t], k) && !Claims(s.thr[t], k)
    ensures !Claims(s.thr[u], k)
  {
    assert ThreadOk(c, s, t) && ThreadOk(c, s, u) && CounterOk(c, s, s.thr[t].at);
    assert InStretch(c, s.thr[t].at, k);
    hide Config.Start;
    if Claims(s.thr[u], k) { OneStretch(c, s.thr[t].at, s.thr[u].at, k); }
  }

  // Chunk k of counter i after a step of thread t.
  lemma ChunkKept(c: Config, s: State, s': State, t: nat, i: nat, k: nat)
    requires Inv(c, s) && Step(c, s, s', t) && i < c.threads && InStretch(c, i, k)
    ensures Shape(c, s') && ChunkOk(c, s', i, k)
  {
    assert ThreadOk(c, s, t) && ChunkOk(c, s, i, k) && CounterOk(c, s, i);
    if s.thr[t].pc.Claimed? && s.thr[t].pc.k == k { OneStretch(c, s.thr[t].at, i, k); }
    if ClaimStep(c, s, s', t) { ClaimChunk(c, s, s', t, i, k); }
    else if CallStep(c, s, s', t) { CallChunk(c, s, s', t, i, k); }
    else {
      hide Config.Start, InStretch;
      forall u | 0 <= u < c.threads ensures Claims(s'.thr[u], k) <==> Claims(s.thr[u], k) {}
    }
  }

  lemma CallChunk(c: Config, s: State, s': State, t: nat, i: nat, k: nat)
    requires Inv(c, s) && CallStep(c, s, s', t) && i < c.threads && InStretch(c, i, k)
    requires s.thr[t].pc.k == k ==> s.thr[t].at == i
    ensures Shape(c, s') && ChunkOk(c, s', i, k)
  {
    hide Config.Start;
    assert ThreadOk(c, s, t) && ChunkOk(c, s, i, k);
    forall u | 0 <= u < c.threads ensures Claims(s'.thr[u], k) <==> Claims(s.thr[u], k) && u != t {
      assert Claims(s.thr[u], k) && Claims(s.thr[t], k) ==> u == t;
    }
    if s.thr[t].pc.k == k { assert Claims(s.thr[t], k); }
  }

  lemma ClaimChunk(c: Config, s: State, s': State, t: nat, i: nat, k: nat)
    requires Inv(c, s) && ClaimStep(c, s, s', t) && i < c.threads && InStretch(c, i, k)
    ensures Shape(c, s') && ChunkOk(c, s', i, k)
  {
    var at := s.thr[t].at;
    assert ThreadOk(c, s, t) && ChunkOk(c, s, i, k) && CounterOk(c, s, at);
    var got := s.value[at];
    if got == k && got < c.Start(at + 1) { OneStretch(c, at, i, k); }
    if got == k && i == at {
      assert s'.thr[t].pc == Claimed(k);
      assert Claims(s'.thr[t], k);
    } else {
      hide Config.Start;
      assert Claims(s'.thr[t], k) ==> got == k && i == at;
      forall u | 0 <= u < c.threads ensures Claims(s'.thr[u], k) <==> Claims(s.thr[u], k) {}
    }
  }

  lemma CallsBelow(c: Config, s: State, s': State, t: nat)
    requires Inv(c, s) && Step(c, s, s', t)
    ensures forall k :: k in s'.calls ==> k < c.total
  {
    assert ThreadOk(c, s, t);
    if CallStep(c, s, s', t) {
      StretchesCover(c);
      StartMono(c, s.thr[t].at + 1, c.threads);
    }
    hide Config.Start;
  }

  lemma StepInv(c: Config, s: State, s': State, t: nat)
    requires Inv(c, s) && Step(c, s, s', t)
    ensures Inv(c, s')
  {
    ClaimsKept(c, s, s', t);
    CallsBelow(c, s, s', t);
    hide ThreadOk, CounterOk, InStretch, Config.Start;
    forall u | 0 <= u < c.threads ensures ThreadOk(c, s', u) {
      if LoadStep(c, s, s', t) { LoadThread(c, s, s', t, u); }
      else if SkipStep(c, s, s', t) { SkipThread(c, s, s', t, u); }
      else if ClaimStep(c, s, s', t) { ClaimThread(c, s, s', t, u); }
      else { CallThread(c, s, s', t, u); }
    }
    hide Step;
    forall i | 0 <= i < c.threads ensures CounterOk(c, s', i) { CounterKept(c, s, s', t, i); }
    forall i, k {:trigger ChunkOk(c, s', i, k)} | 0 <= i < c.threads && 0 <= k ensures ChunkOk(c, s', i, k) {
      if InStretch(c, i, k) { ChunkKept(c, s, s', t, i, k); }
    }
  }

  lemma {:induction false} RunInv(c: Config, tr: seq<State>, i: nat)
    requires IsRun(c, tr) && i < |tr|
    ensures Inv(c, tr[i])
  {
    hide Inv, Step;
    if i == 0 {
      InitInv(c, tr[0]);
    } else {
      RunInv(c, tr, i - 1);
      assert Next(c, tr[i - 1], tr[i]);
      var t: nat :| Step(c, tr[i - 1], tr[i], t);
      StepInv(c, tr[i - 1], tr[i], t);
    }
  }

  // ----- the theorems

  /** No counter is advanced by more than the number of threads beyond its target. */
  lemma CountersAreBounded(c: Config, tr: seq<State>, n: nat, i: nat)
    requires IsRun(c, tr) && n < |tr| && i < c.threads
    ensures |tr[n].value| == c.threads && tr[n].value[i] <= c.Start(i + 1) + c.threads
  {
    RunInv(c, tr, n);
    assert CounterOk(c, tr[n], i);
    PassBound(c, tr[n].thr, i, c.threads);
  }

  /** No chunk is ever run twice, and when all threads have returned every chunk has been run. */
  lemma EveryChunkOnce(c: Config, tr: seq<State>, n: nat, k: nat)
    requires IsRun(c, tr) && n < |tr|
    ensures tr[n].calls[k] <= 1 && (k >= c.total ==> tr[n].calls[k] == 0)
    ensures (forall t :: 0 <= t < |tr[n].thr| ==> tr[n].thr[t].pos == c.threads) && k < c.total ==> tr[n].calls[k] == 1
  {
    RunInv(c, tr, n);
    var s := tr[n];
    if k < c.total {
      StretchesCover(c);
      var i := StretchOf(c, k, c.threads);
      hide Config.Start;
      assert ChunkOk(c, s, i, k);
      if forall t :: 0 <= t < |s.thr| ==> s.thr[t].pos == c.threads {
        forall t | 0 <= t < c.threads ensures !Claims(s.thr[t], k) { assert ThreadOk(c, s, t); }
        assert ThreadOk(c, s, i) && Passed(c, s.thr[i].pos, i, i);
      }
    } else {
      assert k !in s.calls;
    }
  }

  /** When all threads have returned from a dynamic loop over dims, every point of the iteration space has been
      passed to the function in exactly one call, and no other points have been passed. */
  lemma EveryPointInOneCall(dims: seq<Dim>, threads: nat, tr: seq<State>, n: nat, p: seq<int>) returns (k: nat)
    requires RangeOk(dims) && PointIn(dims, p)
    requires var c := Config(threads, Product(Counts(dims))); IsRun(c, tr) && n < |tr|
    requires forall t :: 0 <= t < |tr[n].thr| ==> tr[n].thr[t].pos == threads
    ensures tr[n].calls[k] == 1 && InChunk(dims, k, p)
    ensures forall b: nat :: tr[n].calls[b] > 0 && InChunk(dims, b, p) ==> b == k
    ensures forall b: nat, q {:trigger InChunk(dims, b, q)} :: tr[n].calls[b] > 0 && InChunk(dims, b, q) ==> PointIn(dims, q)
  {
    var c := Config(threads, Product(Counts(dims)));
    k := EveryPointOnce(dims, p);
    EveryChunkOnce(c, tr, n, k);
    hide IsRun, InChunk;
    forall b: nat | tr[n].calls[b] > 0 && InChunk(dims, b, p) ensures b == k { EveryChunkOnce(c, tr, n, b); }
  }

  /** A thread that has not returned can always take a step: the loop never waits. */
  lemma NeverWaits(c: Config, tr: seq<State>, n: nat, t: nat)
    requires IsRun(c, tr) && n < |tr| && t < c.threads && Shape(c, tr[n]) && tr[n].thr[t].pos < c.threads
    ensures exists s' :: Step(c, tr[n], s', t)
  {
    RunInv(c, tr, n);
    var s := tr[n];
    assert ThreadOk(c, s, t);
    hide Config.Start;
    var a := s.thr[t];
    var s' := match a.pc
      case Load => (var at := if a.at >= c.threads then 0 else a.at; s.(thr := s.thr[t := Thread(a.pos, at, Test(s.value[at]))]))
      case Test(index) =>
        if index >= c.Start(a.at + 1) then s.(thr := s.thr[t := Leaves(a)])
        else (var k := s.value[a.at];
              s.(value := s.value[a.at := k + 1], thr := s.thr[t := if k >= c.Start(a.at + 1) then Leaves(a) else a.(pc := Claimed(k))]))
      case Claimed(k) => s.(thr := s.thr[t := a.(pc := Test(k))], calls := s.calls + multiset{k});
    assert Step(c, s, s', t);
  }
}
