/** Left alone, an executor ends the operation it is in: an allocation hands a buffer to its user, and a batch that is
    sent home arrives. Blocks are carved completely, and only when there is nothing to reuse. */
module FastCacheProgress {
  import opened FastCache
  import opened FastCacheProof

  // ----- operations end

  ghost predicate Own(c: Config, s: State, s': State, e: nat) { exists x: int :: AllocStep(c, s, s', e, x) || FreeStep(c, s, s', e, x) }

  predicate Popping(pc: Pc) { pc.PopSync? || pc.PopReload? }

  // The steps that executor e has still to take if nobody else moves.
  function StepsLeft(c: Config, s: State, e: nat): nat
    requires e < |s.pc| == |s.cache|
  {
    match s.pc[e]
    case Idle => 0
    case PopSync(ptr) => if ptr == s.cache[e].sync then 1 else 3
    case PopReload => 2
    case Carving(_, i, _) => if c.stride > 0 && i <= c.Count() then c.Count() - i + 1 else 0
    case FlushLoad(_, _, _) => 3
    case FlushLink(to, _, _, seen) => if to < |s.cache| && seen == s.cache[to].sync then 2 else 5
    case FlushCas(to, _, _, seen) => if to < |s.cache| && seen == s.cache[to].sync then 1 else 4
  }

  // Still in the same operation.
  ghost predicate OnTheWay(s: State, s': State, e: nat) {
    e < |s.pc| == |s.cache| == |s'.pc| == |s'.cache| && s'.held == s.held
    && if Popping(s.pc[e]) then Popping(s'.pc[e]) && s'.cache[e].sync == s.cache[e].sync
       else if s.pc[e].Carving? then s'.pc[e].Carving? && s'.pc[e].base == s.pc[e].base
       else Flushing(s.pc[e]) && Flushing(s'.pc[e]) && s'.pc[e].to == s.pc[e].to && s'.pc[e].head == s.pc[e].head
  }

  // The operation has ended: a pop hands out the head of the sync list, a carving the first buffer of the block, and a
  // flush makes its batch the front of the owner's sync list.
  ghost predicate Ended(s: State, s': State, e: nat) {
    e < |s.pc| == |s.cache| == |s'.pc| == |s'.cache| && s'.pc[e].Idle?
    && if Popping(s.pc[e]) then s'.held == s.held + {s.cache[e].sync} && s'.cache[e].sync == NULL
       else if s.pc[e].Carving? then s'.held == s.held + {s.pc[e].base}
       else Flushing(s.pc[e]) && s'.held == s.held && s.pc[e].to < |s.cache| && s'.cache[s.pc[e].to].sync == s.pc[e].head
  }

  lemma PopFurther(c: Config, s: State, v: View, e: nat) returns (s': State)
    requires Explains(c, s, v) && e < c.executors && Popping(s.pc[e])
    ensures AllocStep(c, s, s', e, 0) && (Ended(s, s', e) || (OnTheWay(s, s', e) && StepsLeft(c, s', e) < StepsLeft(c, s, e)))
  {
    assert PcOk(c, s, v, e) && CacheOk(c, s, v, e);
    var p := s.pc[e];
    if p.PopReload? {
      s' := s.(pc := s.pc[e := PopSync(s.cache[e].sync)]);
      assert PopLoad(c, s, s', e);
    } else if p.ptr == s.cache[e].sync {
      assert BufOk(c, s, v, p.ptr);
      s' := s.(cache := s.cache[e := s.cache[e].(sync := NULL, self := s.next[p.ptr])], pc := s.pc[e := Idle], held := s.held + {p.ptr});
      assert PopSwap(c, s, s', e);
    } else {
      s' := s.(pc := s.pc[e := PopReload]);
      assert PopFail(c, s, s', e);
    }
  }

  lemma CarveFurther(c: Config, s: State, v: View, e: nat) returns (s': State)
    requires Explains(c, s, v) && e < c.executors && s.pc[e].Carving?
    ensures AllocStep(c, s, s', e, 0) && (Ended(s, s', e) || (OnTheWay(s, s', e) && StepsLeft(c, s', e) < StepsLeft(c, s, e)))
  {
    assert PcOk(c, s, v, e);
    CountPositive(c);
    var p := s.pc[e];
    hide Config.Count;
    if p.i == 0 {
      s' := s.(owner := s.owner[p.cur := e], next := s.next[p.cur := 0], pc := s.pc[e := Carving(p.base, 1, p.cur + c.stride)]);
      assert CarveFirst(c, s, s', e, 0);
    } else if p.i < c.Count() {
      s' := s.(owner := s.owner[p.cur := e], next := s.next[p.cur := s.cache[e].self], cache := s.cache[e := s.cache[e].(self := p.cur)],
               pc := s.pc[e := Carving(p.base, p.i + 1, p.cur + c.stride)]);
      assert CarveMore(c, s, s', e);
    } else {
      s' := s.(pc := s.pc[e := Idle], held := s.held + {p.base});
      assert CarveDone(c, s, s', e);
    }
  }

  lemma FlushFurther(c: Config, s: State, v: View, e: nat) returns (s': State)
    requires Explains(c, s, v) && e < c.executors && Flushing(s.pc[e])
    ensures FreeStep(c, s, s', e, 0) && (Ended(s, s', e) || (OnTheWay(s, s', e) && StepsLeft(c, s', e) < StepsLeft(c, s, e)))
  {
    assert PcOk(c, s, v, e);
    var p := s.pc[e];
    match p {
      case FlushLoad(to, head, tail) =>
        s' := s.(pc := s.pc[e := FlushLink(to, head, tail, s.cache[to].sync)]);
        assert LoadSync(c, s, s', e);
      case FlushLink(to, head, tail, seen) =>
        s' := s.(next := s.next[tail := seen], pc := s.pc[e := FlushCas(to, head, tail, seen)]);
        assert LinkBatch(c, s, s', e);
      case FlushCas(to, head, tail, seen) =>
        if s.cache[to].sync == seen {
          s' := s.(cache := s.cache[to := s.cache[to].(sync := head)], pc := s.pc[e := Idle]);
          assert PushBatch(c, s, s', e);
        } else {
          s' := s.(pc := s.pc[e := FlushLoad(to, head, tail)]);
          assert PushFail(c, s, s', e);
        }
    }
  }

  lemma OneFurther(c: Config, tr: seq<State>, e: nat) returns (more: seq<State>)
    requires c.Ok() && IsRun(c, tr) && e < c.executors && e < |tr[|tr| - 1].pc| == |tr[|tr| - 1].cache| && !tr[|tr| - 1].pc[e].Idle?
    ensures IsRun(c, more) && |more| == |tr| + 1 && more[..|tr|] == tr && Own(c, tr[|tr| - 1], more[|tr|], e)
    ensures var s, s' := tr[|tr| - 1], more[|tr|];
            e < |s'.pc| == |s'.cache| && (Ended(s, s', e) || (OnTheWay(s, s', e) && StepsLeft(c, s', e) < StepsLeft(c, s, e)))
  {
    var s := tr[|tr| - 1];
    RunInv(c, tr, |tr| - 1);
    var v :| Explains(c, s, v);
    var s';
    hide Explains, AllocStep, FreeStep, Init, StepsLeft;
    if Popping(s.pc[e]) { s' := PopFurther(c, s, v, e); }
    else if s.pc[e].Carving? { s' := CarveFurther(c, s, v, e); }
    else { s' := FlushFurther(c, s, v, e); }
    assert Own(c, s, s', e);
    assert Step(c, s, s', e, 0, 0);
    more := tr + [s'];
    hide Step;
    forall i | 0 <= i < |more| - 1 ensures Next(c, more[i], more[i + 1]) { assert i < |tr| - 1 ==> Next(c, tr[i], tr[i + 1]); }
  }

  /** Whatever operation an executor is in the middle of, its own steps alone bring it to the end: the buffer is handed
      out, or the batch is in its owner's sync list. */
  lemma {:induction false} Finishes(c: Config, tr: seq<State>, e: nat) returns (tr': seq<State>)
    requires c.Ok() && IsRun(c, tr) && e < c.executors && e < |tr[|tr| - 1].pc| == |tr[|tr| - 1].cache| && !tr[|tr| - 1].pc[e].Idle?
    ensures IsRun(c, tr') && |tr| < |tr'| && tr'[..|tr|] == tr && Ended(tr[|tr| - 1], tr'[|tr'| - 1], e)
    ensures forall i :: |tr| - 1 <= i < |tr'| - 1 ==> Own(c, tr'[i], tr'[i + 1], e)
    decreases StepsLeft(c, tr[|tr| - 1], e)
  {
    var s := tr[|tr| - 1];
    hide IsRun, Own, StepsLeft;
    var more := OneFurther(c, tr, e);
    var s' := more[|tr|];
    if Ended(s, s', e) {
      tr' := more;
      assert tr'[|tr| - 1] == tr'[..|tr|][|tr| - 1] == s;
    } else {
      tr' := Finishes(c, more, e);
      assert tr'[..|tr|] == tr'[..|more|][..|tr|];
      forall i | |tr| - 1 <= i < |tr'| - 1 ensures Own(c, tr'[i], tr'[i + 1], e) {
        if i == |tr| - 1 {
          assert tr'[i] == tr'[..|more|][i] == more[i] == more[..|tr|][i] == s && tr'[i + 1] == tr'[..|more|][i + 1] == s';
        }
      }
    }
  }

  // ----- what a step gives and takes

  /** A buffer that a step hands to its user belongs to the executor that makes the step, whose operation is then over;
      no step hands out more than one. A step takes back only the buffer that is freed. */
  lemma GivesOwn(c: Config, s: State, s': State, e: nat, x: int, word: int, v: View, b: int)
    requires Explains(c, s, v) && Step(c, s, s', e, x, word)
    ensures b in s'.held && b !in s.held ==> e < |s'.pc| && s'.pc[e].Idle? && s'.held == s.held + {b} && b in s'.owner && s'.owner[b] == e
    ensures b in s.held && b !in s'.held ==> b == x && s'.held == s.held - {b} && FreeStep(c, s, s', e, b)
  {
    if At(c, s, e) { OwnFacts(c, s, v, e); }
    hide Explains, Config.Count;
    if AllocStep(c, s, s', e, x) {
      hide FreeStep;
    } else {
      hide AllocStep;
    }
  }

  lemma OwnFacts(c: Config, s: State, v: View, e: nat)
    requires Explains(c, s, v) && At(c, s, e)
    ensures var k := s.cache[e];
            (k.self != NULL ==> k.self !in s.held && k.self in s.owner && s.owner[k.self] == e)
            && (k.sync != NULL ==> k.sync !in s.held && k.sync in s.owner && s.owner[k.sync] == e)
    ensures s.pc[e].Carving? && s.pc[e].i > 0 ==> s.pc[e].base !in s.held && s.pc[e].base in s.owner && s.owner[s.pc[e].base] == e
    ensures c.Ok() && c.Count() > 0 && (s.pc[e].PopSync? ==> s.pc[e].ptr != NULL && s.cache[e].sync != NULL)
  {
    assert PcOk(c, s, v, e) && CacheOk(c, s, v, e);
    var k := s.cache[e];
    if k.self != NULL { assert BufOk(c, s, v, k.self); }
    if k.sync != NULL { assert BufOk(c, s, v, k.sync); }
    if s.pc[e].Carving? && s.pc[e].i > 0 { assert BufOk(c, s, v, s.pc[e].base); }
    CountPositive(c);
  }

  /** A block of normal memory is taken only by an executor that has nothing of its own to reuse. */
  lemma CarvesWhenEmpty(c: Config, s: State, s': State, e: nat, x: int, word: int)
    requires Step(c, s, s', e, x, word) && s'.regions != s.regions
    ensures e < |s.cache| && s.cache[e].self == NULL && s.cache[e].sync == NULL && s'.regions == s.regions + {x}
  {}

  // ----- blocks are carved completely

  ghost predicate CarvingAt(s: State, r: int, k: nat) { exists e: nat :: e < |s.pc| && s.pc[e].Carving? && s.pc[e].base == r && s.pc[e].i <= k }

  // Buffer k of block r exists, or is still to be carved.
  ghost predicate There(c: Config, s: State, r: int, k: nat) { r + k * c.stride in s.owner || CarvingAt(s, r, k) }

  ghost predicate Whole(c: Config, s: State)
    requires c.Ok()
  {
    forall r, k: nat {:trigger There(c, s, r, k)} :: r in s.regions && k < c.Count() ==> There(c, s, r, k)
  }

  // How a step changes what is being carved and what exists.
  lemma CarvingStep(c: Config, s: State, s': State, e: nat, x: int, word: int)
    requires Step(c, s, s', e, x, word) && |s.pc| == |s.cache|
    ensures |s'.pc| == |s.pc| && s.owner.Keys <= s'.owner.Keys
    ensures forall f: nat :: f < |s.pc| && s.pc[f].Carving? && f != e ==> s'.pc[f] == s.pc[f]
    ensures e < |s.pc| && s.pc[e].Carving? ==>
              var p := s.pc[e];
              s'.pc[e] == p || (c.Ok() && p.i == c.Count())
              || (p.cur in s'.owner && s'.pc[e].Carving? && s'.pc[e].base == p.base && s'.pc[e].i == p.i + 1)
    ensures forall r :: r in s'.regions && r !in s.regions ==> e < |s.pc| && s'.pc[e] == Carving(r, 0, r)
  {
    hide Config.Count;
  }

  lemma ThereStep(c: Config, s: State, s': State, e: nat, x: int, word: int, v: View, r: int, k: nat)
    requires c.Ok() && Explains(c, s, v) && Step(c, s, s', e, x, word) && r in s'.regions && k < c.Count()
    requires r in s.regions ==> There(c, s, r, k)
    ensures There(c, s', r, k)
  {
    CarvingStep(c, s, s', e, x, word);
    assert e < c.executors ==> PcOk(c, s, v, e);
    assert e < c.executors && s.pc[e].Carving? ==> s.pc[e].cur == s.pc[e].base + s.pc[e].i * c.stride;
    hide Explains, PcOk, Config.Count, Step;
    if r !in s.regions {
      assert CarvingAt(s', r, k);
    } else if r + k * c.stride !in s.owner {
      var f: nat :| f < |s.pc| && s.pc[f].Carving? && s.pc[f].base == r && s.pc[f].i <= k;
      if s'.pc[f] == s.pc[f] || s.pc[f].i < k {
        assert CarvingAt(s', r, k);
      }
    }
  }

  lemma {:induction false} RunWhole(c: Config, tr: seq<State>, i: nat)
    requires c.Ok() && IsRun(c, tr) && i < |tr|
    ensures Whole(c, tr[i])
  {
    hide Step, Explains, There, Config.Count;
    if i > 0 {
      RunWhole(c, tr, i - 1);
      RunInv(c, tr, i - 1);
      var s, s' := tr[i - 1], tr[i];
      var v :| Explains(c, s, v);
      assert Next(c, s, s');
      var e: nat, x: int, word: int :| Step(c, s, s', e, x, word);
      forall r, k: nat {:trigger There(c, s', r, k)} | r in s'.regions && k < c.Count() ensures There(c, s', r, k) {
        ThereStep(c, s, s', e, x, word, v, r, k);
      }
    }
  }

  /** Of every block all the buffers that it has room for have been carved, unless an executor is still at it. */
  lemma CarvedCompletely(c: Config, tr: seq<State>, i: nat, r: int, k: nat)
    requires c.Ok() && IsRun(c, tr) && i < |tr| && r in tr[i].regions && k < c.Count()
    requires forall e: nat :: e < |tr[i].pc| && tr[i].pc[e].Carving? ==> tr[i].pc[e].base != r
    ensures r + k * c.stride in tr[i].owner
  {
    RunWhole(c, tr, i);
    assert There(c, tr[i], r, k);
  }
}
