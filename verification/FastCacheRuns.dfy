/** What runs of the fast bins can do: an executor can always go on, and its first batch can grow to 17 buffers,
    whatever their size. */
module FastCacheRuns {
  import opened FastCache
  import opened FastCacheProof

  // ----- the history variable

  ghost predicate Flushes(c: Config, s: State, s': State, e: nat) { exists b: int :: FreeFlush(c, s, s', e, b) }

  lemma FlushedStep(c: Config, s: State, s': State, e: nat)
    requires Next(c, s, s') && e < c.executors && |s.cache| == c.executors
    ensures |s'.cache| == c.executors && (s'.cache[e].flushed <==> s.cache[e].flushed || Flushes(c, s, s', e))
  {
    var f: nat, x: int, word: int :| Step(c, s, s', f, x, word);
    if FreeFlush(c, s, s', f, x) && f == e { assert Flushes(c, s, s', e); }
  }

  /** An executor is marked as having flushed exactly when it has sent a batch home earlier in the run. */
  lemma {:induction false} FlushedMeans(c: Config, tr: seq<State>, i: nat, e: nat)
    requires IsRun(c, tr) && i < |tr| && e < c.executors
    ensures |tr[i].cache| == c.executors
    ensures tr[i].cache[e].flushed <==> exists j :: 0 <= j < i && Flushes(c, tr[j], tr[j + 1], e)
  {
    if i > 0 {
      FlushedMeans(c, tr, i - 1, e);
      hide Next, Flushes;
      assert Next(c, tr[i - 1], tr[i]);
      FlushedStep(c, tr[i - 1], tr[i], e);
      if Flushes(c, tr[i - 1], tr[i - 1 + 1], e) { assert Flushes(c, tr[i - 1], tr[i], e); }
      if exists j :: 0 <= j < i && Flushes(c, tr[j], tr[j + 1], e) {
        var j :| 0 <= j < i && Flushes(c, tr[j], tr[j + 1], e);
        if j < i - 1 { assert exists k :: 0 <= k < i - 1 && Flushes(c, tr[k], tr[k + 1], e); }
      }
    }
  }

  // ----- an executor can always go on

  ghost predicate Moves(c: Config, s: State, e: nat, x: int) {
    exists s': State :: AllocStep(c, s, s', e, x) || FreeStep(c, s, s', e, x)
  }

  lemma GoesOn(c: Config, s: State, v: View, e: nat)
    requires Explains(c, s, v) && e < c.executors && !s.pc[e].Idle?
    ensures Moves(c, s, e, 0)
  {
    assert PcOk(c, s, v, e);
    var p := s.pc[e];
    var s' := match p
      case PopSync(_) => s.(pc := s.pc[e := PopReload])
      case PopReload => s.(pc := s.pc[e := PopSync(s.cache[e].sync)])
      case Carving(base, i, cur) =>
        if i == 0 then s.(owner := s.owner[cur := e], next := s.next[cur := 0], pc := s.pc[e := Carving(base, 1, cur + c.stride)])
        else if i < c.Count() then
          s.(owner := s.owner[cur := e], next := s.next[cur := s.cache[e].self], cache := s.cache[e := s.cache[e].(self := cur)],
             pc := s.pc[e := Carving(base, i + 1, cur + c.stride)])
        else s.(pc := s.pc[e := Idle], held := s.held + {base})
      case FlushLoad(to, head, tail) => s.(pc := s.pc[e := FlushLink(to, head, tail, s.cache[to].sync)])
      case FlushLink(to, head, tail, seen) => s.(next := s.next[tail := seen], pc := s.pc[e := FlushCas(to, head, tail, seen)])
      case FlushCas(to, head, tail, _) => s.(pc := s.pc[e := FlushLoad(to, head, tail)])
      case Idle => s;
    assert AllocStep(c, s, s', e, 0) || FreeStep(c, s, s', e, 0);
  }

  // If nobody has changed the list since it was read, the operation ends with its next step.
  lemma Succeeds(c: Config, s: State, v: View, e: nat)
    requires Explains(c, s, v) && e < c.executors
    ensures s.pc[e].PopSync? && s.cache[e].sync == s.pc[e].ptr ==> exists s': State :: PopSwap(c, s, s', e)
    ensures s.pc[e].FlushCas? && s.pc[e].to < c.executors && s.cache[s.pc[e].to].sync == s.pc[e].seen ==> exists s': State :: PushBatch(c, s, s', e)
  {
    assert PcOk(c, s, v, e) && CacheOk(c, s, v, e);
    var p := s.pc[e];
    if p.PopSync? && s.cache[e].sync == p.ptr {
      assert BufOk(c, s, v, p.ptr);
      var s' := s.(cache := s.cache[e := s.cache[e].(sync := NULL, self := s.next[p.ptr])], pc := s.pc[e := Idle], held := s.held + {p.ptr});
      assert PopSwap(c, s, s', e);
    }
    if p.FlushCas? && p.to < c.executors && s.cache[p.to].sync == p.seen {
      var s' := s.(cache := s.cache[p.to := s.cache[p.to].(sync := p.head)], pc := s.pc[e := Idle]);
      assert PushBatch(c, s, s', e);
    }
  }

  // There is room behind all blocks.
  lemma {:induction false} Beyond(regions: set<int>) returns (base: int)
    ensures Apart(regions, base)
    ensures forall r :: r in regions ==> r + GROW_SIZE <= base
    decreases regions
  {
    base := 1;
    if r :| r in regions {
      var rest := Beyond(regions - {r});
      base := if rest < r + GROW_SIZE then r + GROW_SIZE else rest;
      forall q | q in regions ensures q + GROW_SIZE <= base { if q != r { assert q in regions - {r}; } }
    }
  }

  lemma CanAlloc(c: Config, s: State, v: View, e: nat)
    requires Explains(c, s, v) && e < c.executors && s.pc[e].Idle?
    ensures exists x: int :: Moves(c, s, e, x)
  {
    var k := s.cache[e];
    assert CacheOk(c, s, v, e);
    var base := Beyond(s.regions);
    if k.self != NULL { assert BufOk(c, s, v, k.self); }
    var s' := if k.self != NULL then s.(cache := s.cache[e := k.(self := s.next[k.self])], held := s.held + {k.self})
              else if k.sync != NULL then s.(pc := s.pc[e := PopSync(k.sync)])
              else s.(pc := s.pc[e := Carving(base, 0, base)], regions := s.regions + {base});
    assert AllocStep(c, s, s', e, base);
    assert Moves(c, s, e, base);
  }

  lemma CanFree(c: Config, s: State, v: View, e: nat, b: int)
    requires Explains(c, s, v) && e < c.executors && s.pc[e].Idle? && b in s.held
    ensures exists s': State :: FreeStep(c, s, s', e, b)
  {
    var k := s.cache[e];
    assert CacheOk(c, s, v, e) && BufOk(c, s, v, b);
    if k.other != NULL { assert BufOk(c, s, v, k.other); }
    var s' := if s.owner[b] == e then s.(next := s.next[b := k.self], cache := s.cache[e := k.(self := b)], held := s.held - {b})
              else if k.other == NULL then
                s.(next := s.next[b := k.other], cache := s.cache[e := k.(other := b, otherTail := b)], held := s.held - {b})
              else if Batches(s, e, b) then
                s.(next := s.next[b := k.other], cache := s.cache[e := k.(other := b, otherCount := k.otherCount + 1)], held := s.held - {b})
              else
                s.(next := s.next[b := NULL], cache := s.cache[e := k.(other := b, otherTail := b, otherCount := 1, flushed := true)],
                   pc := s.pc[e := FlushLoad(s.owner[k.other], k.other, k.otherTail)], held := s.held - {b});
    assert FreeStep(c, s, s', e, b);
  }

  /** No executor is ever stuck: with an operation in progress it has a step, and one that ends a pop or a push if
      nobody has changed the list since it was read; idle, it can allocate, and free any buffer a user holds. */
  lemma NeverStuck(c: Config, tr: seq<State>, i: nat, e: nat)
    requires c.Ok() && IsRun(c, tr) && i < |tr| && e < c.executors
    ensures |tr[i].cache| == |tr[i].pc| == c.executors
    ensures !tr[i].pc[e].Idle? ==> Moves(c, tr[i], e, 0)
    ensures tr[i].pc[e].PopSync? && tr[i].cache[e].sync == tr[i].pc[e].ptr ==> exists s': State :: PopSwap(c, tr[i], s', e)
    ensures tr[i].pc[e].FlushCas? && tr[i].pc[e].to < c.executors && tr[i].cache[tr[i].pc[e].to].sync == tr[i].pc[e].seen ==>
              exists s': State :: PushBatch(c, tr[i], s', e)
    ensures tr[i].pc[e].Idle? ==> exists x: int :: Moves(c, tr[i], e, x)
    ensures tr[i].pc[e].Idle? ==> forall b :: b in tr[i].held ==> exists s': State :: FreeStep(c, tr[i], s', e, b)
  {
    RunInv(c, tr, i);
    var s := tr[i];
    var v :| Explains(c, s, v);
    hide Moves, PopSwap, PushBatch, FreeStep;
    Succeeds(c, s, v, e);
    if s.pc[e].Idle? {
      CanAlloc(c, s, v, e);
      forall b | b in s.held ensures exists s': State :: FreeStep(c, s, s', e, b) { CanFree(c, s, v, e, b); }
    } else {
      GoesOn(c, s, v, e);
    }
  }

  // ----- a batch of 17

  // A run that ends in s.
  ghost predicate RunTo(c: Config, tr: seq<State>, s: State) { IsRun(c, tr) && tr[|tr| - 1] == s }

  lemma OneMore(c: Config, tr: seq<State>, s: State, s': State, e: nat, x: int) returns (r: seq<State>)
    requires RunTo(c, tr, s) && Step(c, s, s', e, x, NULL)
    ensures RunTo(c, r, s')
  {
    hide Step, Init;
    r := tr + [s'];
    forall i | 0 <= i < |r| - 1 ensures Next(c, r[i], r[i + 1]) {
      if i < |tr| - 1 { assert Next(c, tr[i], tr[i + 1]); }
    }
  }

  // Executor 0 has carved all buffers there are, users hold n of them, and executor 1 has freed m.
  ghost predicate Supplied(c: Config, s: State, n: nat, m: nat) {
    c.executors >= 2 && |s.cache| == |s.pc| == c.executors && s.pc[1].Idle? && s.cache[0].sync == NULL
    && (forall b :: b in s.owner ==> s.owner[b] == 0) && |s.held| == n && s.held <= s.owner.Keys
    && !s.cache[1].flushed
    && if m == 0 then s.cache[1].other == NULL && s.cache[1].otherCount == 0
       else s.cache[1].other != NULL && s.cache[1].other in s.owner && s.cache[1].otherCount == m - 1
  }

  // Executor 0 carves the rest of its block.
  lemma {:induction false} CarveRest(c: Config, tr: seq<State>, s: State, n: nat) returns (r: seq<State>, s': State)
    requires c.Ok() && RunTo(c, tr, s) && Supplied(c, s, n, 0) && s.pc[0].Carving? && 0 < s.pc[0].i <= c.Count()
    ensures RunTo(c, r, s') && Supplied(c, s', n, 0) && s'.pc[0].Carving? && s'.pc[0].i == c.Count()
    decreases c.Count() - s.pc[0].i
  {
    hide IsRun, Config.Count;
    r, s' := tr, s;
    var p := s.pc[0];
    if p.i < c.Count() {
      s' := s.(owner := s.owner[p.cur := 0], next := s.next[p.cur := s.cache[0].self], cache := s.cache[0 := s.cache[0].(self := p.cur)],
               pc := s.pc[0 := Carving(p.base, p.i + 1, p.cur + c.stride)]);
      assert CarveMore(c, s, s', 0);
      r := OneMore(c, tr, s, s', 0, NULL);
      r, s' := CarveRest(c, r, s', n);
    }
  }

  // An allocation by executor 0 from its own list.
  lemma AllocFromSelf(c: Config, tr: seq<State>, s: State, n: nat) returns (r: seq<State>, s': State)
    requires c.Ok() && RunTo(c, tr, s) && Supplied(c, s, n, 0) && s.pc[0].Idle? && s.cache[0].self != NULL
    ensures RunTo(c, r, s') && Supplied(c, s', n + 1, 0) && s'.pc[0].Idle?
  {
    RunInv(c, tr, |tr| - 1);
    var v :| Explains(c, s, v);
    var ptr := s.cache[0].self;
    assert CacheOk(c, s, v, 0) && BufOk(c, s, v, ptr);
    s' := s.(cache := s.cache[0 := s.cache[0].(self := s.next[ptr])], held := s.held + {ptr});
    assert AllocSelf(c, s, s', 0);
    hide IsRun, Explains;
    r := OneMore(c, tr, s, s', 0, NULL);
  }

  // An allocation for which it carves a block.
  lemma AllocByCarving(c: Config, tr: seq<State>, s: State, n: nat) returns (r: seq<State>, s': State)
    requires c.Ok() && RunTo(c, tr, s) && Supplied(c, s, n, 0) && s.pc[0].Idle? && s.cache[0].self == NULL
    ensures RunTo(c, r, s') && Supplied(c, s', n + 1, 0) && s'.pc[0].Idle?
  {
    CountPositive(c);
    var base := Beyond(s.regions);
    hide IsRun, Config.Count;
    var s1 := s.(pc := s.pc[0 := Carving(base, 0, base)], regions := s.regions + {base});
    assert CarveStart(c, s, s1, 0, base);
    r := OneMore(c, tr, s, s1, 0, base);
    var s2 := s1.(owner := s1.owner[base := 0], next := s1.next[base := NULL], pc := s1.pc[0 := Carving(base, 1, base + c.stride)]);
    assert CarveFirst(c, s1, s2, 0, NULL);
    r := OneMore(c, r, s1, s2, 0, NULL);
    r, s2 := CarveRest(c, r, s2, n);
    InHandIsNew(c, r, s2);
    base := s2.pc[0].base;
    s' := s2.(pc := s2.pc[0 := Idle], held := s2.held + {base});
    assert CarveDone(c, s2, s', 0);
    r := OneMore(c, r, s2, s', 0, NULL);
  }

  lemma InHandIsNew(c: Config, tr: seq<State>, s: State)
    requires c.Ok() && RunTo(c, tr, s) && c.executors > 0 && |s.pc| == c.executors && s.pc[0].Carving? && s.pc[0].i > 0
    ensures s.pc[0].base !in s.held && s.pc[0].base in s.owner
  {
    RunInv(c, tr, |tr| - 1);
    var v :| Explains(c, s, v);
    assert PcOk(c, s, v, 0) && BufOk(c, s, v, s.pc[0].base);
  }

  lemma {:induction false} Supply(c: Config, n: nat) returns (tr: seq<State>, s: State)
    requires c.Ok() && c.executors >= 2
    ensures RunTo(c, tr, s) && Supplied(c, s, n, 0) && s.pc[0].Idle?
  {
    if n == 0 {
      s := State(seq(c.executors, _ => Cache(NULL, NULL, NULL, NULL, 0, false)), seq(c.executors, _ => Idle), map[], map[], {}, {});
      tr := [s];
    } else {
      tr, s := Supply(c, n - 1);
      if s.cache[0].self != NULL { tr, s := AllocFromSelf(c, tr, s, n - 1); } else { tr, s := AllocByCarving(c, tr, s, n - 1); }
    }
  }

  lemma Pick(held: set<int>) returns (b: int)
    requires |held| > 0
    ensures b in held
  {
    assert (forall x :: x !in held) ==> held == {};
    b :| b in held;
  }

  // Executor 1 frees m of the buffers.
  lemma {:induction false} FreeSome(c: Config, n: nat, m: nat) returns (tr: seq<State>, s: State)
    requires c.Ok() && c.executors >= 2 && m <= OTHER_LIMIT + 1
    ensures RunTo(c, tr, s) && Supplied(c, s, n, m)
    decreases m
  {
    if m == 0 {
      tr, s := Supply(c, n);
    } else {
      var s1;
      tr, s1 := FreeSome(c, n + 1, m - 1);
      RunInv(c, tr, |tr| - 1);
      var v :| Explains(c, s1, v);
      NullIsNoBuffer(c, s1, v);
      hide IsRun, Explains;
      var b := Pick(s1.held);
      var k := s1.cache[1];
      if m == 1 {
        s := s1.(next := s1.next[b := k.other], cache := s1.cache[1 := k.(other := b, otherTail := b)], held := s1.held - {b});
        assert FreeFirst(c, s1, s, 1, b);
      } else {
        s := s1.(next := s1.next[b := k.other], cache := s1.cache[1 := k.(other := b, otherCount := k.otherCount + 1)], held := s1.held - {b});
        assert FreeBatch(c, s1, s, 1, b);
      }
      tr := OneMore(c, tr, s1, s, 1, b);
    }
  }

  /** Whatever the size of the buffers, as soon as there are two executors there is a run at whose end a batch holds
      17 buffers. */
  lemma SeventeenBuffers(c: Config) returns (tr: seq<State>)
    requires c.Ok() && c.executors >= 2
    ensures IsRun(c, tr) && |tr[|tr| - 1].cache| == c.executors
    ensures var s := tr[|tr| - 1]; BatchLength(s.cache[1]) == OTHER_LIMIT + 1 && Follow(s.next, s.cache[1].other, OTHER_LIMIT) != NULL
  {
    var s;
    tr, s := FreeSome(c, 0, OTHER_LIMIT + 1);
    BatchIsBounded(c, tr, |tr| - 1, 1);
  }
}
