/** Every step of the fast bins keeps every buffer in exactly one place. Each step comes with the view after
    it, one lemma for the buffers, one for the executors, and one that puts them together. */
module FastCacheProof {
  import opened FastCache

  // The place above the list that starts at head.
  ghost function Top(v: View, head: int): nat {
    if head in v && v[head].Listed? then v[head].pos + 1 else 0
  }

  lemma NullIsNoBuffer(c: Config, s: State, v: View)
    requires Explains(c, s, v)
    ensures NULL !in v
  {
    assert NULL in v ==> Housed(s.regions, NULL);
  }

  // ----- steps that move no buffer

  // Executor e only moves on in its own code.
  ghost predicate PcOnly(c: Config, s: State, s': State, e: nat) {
    At(c, s, e) && |s'.pc| == |s.pc| && s' == s.(pc := s.pc[e := s'.pc[e]]) && !s.pc[e].Carving? && !s'.pc[e].Carving?
    && (Flushing(s'.pc[e]) <==> Flushing(s.pc[e]))
    && (Flushing(s.pc[e]) ==> s'.pc[e].head == s.pc[e].head && s'.pc[e].tail == s.pc[e].tail && s'.pc[e].to == s.pc[e].to)
  }

  lemma PcOnlyBuf(c: Config, s: State, s': State, e: nat, v: View, b: int)
    requires Explains(c, s, v) && PcOnly(c, s, s', e) && b in v
    ensures BufOk(c, s', v, b)
  {
    hide Regions, CarvedBelow, OnePerPlace;
    assert BufOk(c, s, v, b);
  }

  lemma PcOnlyExec(c: Config, s: State, s': State, e: nat, v: View, f: nat)
    requires Explains(c, s, v) && PcOnly(c, s, s', e) && f < c.executors && (f == e ==> PcOk(c, s', v, e))
    ensures PcOk(c, s', v, f) && CacheOk(c, s', v, f)
  {
    hide Regions, CarvedBelow, OnePerPlace;
    assert PcOk(c, s, v, f) && CacheOk(c, s, v, f);
  }

  lemma PcOnlyStep(c: Config, s: State, s': State, e: nat, v: View)
    requires Explains(c, s, v) && PcOnly(c, s, s', e) && PcOk(c, s', v, e)
    ensures Inv(c, s')
  {
    forall b | b in v ensures BufOk(c, s', v, b) { PcOnlyBuf(c, s, s', e, v, b); }
    forall f | 0 <= f < c.executors ensures PcOk(c, s', v, f) && CacheOk(c, s', v, f) { PcOnlyExec(c, s, s', e, v, f); }
    hide BufOk, PcOk, CacheOk;
    assert Explains(c, s', v);
  }

  lemma MovesOn(c: Config, s: State, s': State, e: nat, v: View)
    requires Explains(c, s, v)
    requires AllocLoad(c, s, s', e) || PopFail(c, s, s', e) || PopLoad(c, s, s', e) || LoadSync(c, s, s', e) || PushFail(c, s, s', e)
    ensures Inv(c, s')
  {
    assert PcOk(c, s, v, e) by { hide BufOk; }
    assert PcOk(c, s', v, e) by { hide Explains; }
    hide Explains, PcOk;
    PcOnlyStep(c, s, s', e, v);
  }

  lemma WriteBuf(c: Config, s: State, s': State, x: int, word: int, v: View, b: int)
    requires Explains(c, s, v) && UserWrite(c, s, s', x, word) && b in v
    ensures BufOk(c, s', v, b)
  {
    hide Regions, CarvedBelow, OnePerPlace;
    assert BufOk(c, s, v, b);
  }

  lemma WriteExec(c: Config, s: State, s': State, x: int, word: int, v: View, f: nat)
    requires Explains(c, s, v) && UserWrite(c, s, s', x, word) && f < c.executors
    ensures PcOk(c, s', v, f) && CacheOk(c, s', v, f)
  {
    hide Regions, CarvedBelow, OnePerPlace;
    assert PcOk(c, s, v, f) && CacheOk(c, s, v, f);
  }

  lemma WriteStep(c: Config, s: State, s': State, x: int, word: int, v: View)
    requires Explains(c, s, v) && UserWrite(c, s, s', x, word)
    ensures Inv(c, s')
  {
    forall b | b in v ensures BufOk(c, s', v, b) { WriteBuf(c, s, s', x, word, v, b); }
    forall f | 0 <= f < c.executors ensures PcOk(c, s', v, f) && CacheOk(c, s', v, f) { WriteExec(c, s, s', x, word, v, f); }
    hide BufOk, PcOk, CacheOk;
    assert s'.next.Keys == s.next.Keys;
    assert Explains(c, s', v);
  }

  lemma LinkBuf(c: Config, s: State, s': State, e: nat, v: View, b: int)
    requires Explains(c, s, v) && LinkBatch(c, s, s', e) && b in v
    ensures BufOk(c, s', v, b)
  {
    hide Regions, CarvedBelow, OnePerPlace;
    assert PcOk(c, s, v, e) && BufOk(c, s, v, b);
  }

  lemma LinkExec(c: Config, s: State, s': State, e: nat, v: View, f: nat)
    requires Explains(c, s, v) && LinkBatch(c, s, s', e) && f < c.executors
    ensures PcOk(c, s', v, f) && CacheOk(c, s', v, f)
  {
    hide Regions, CarvedBelow, OnePerPlace;
    assert PcOk(c, s, v, e) && PcOk(c, s, v, f) && CacheOk(c, s, v, f);
  }

  lemma LinkStep(c: Config, s: State, s': State, e: nat, v: View)
    requires Explains(c, s, v) && LinkBatch(c, s, s', e)
    ensures Inv(c, s')
  {
    assert PcOk(c, s, v, e);
    forall b | b in v ensures BufOk(c, s', v, b) { LinkBuf(c, s, s', e, v, b); }
    forall f | 0 <= f < c.executors ensures PcOk(c, s', v, f) && CacheOk(c, s', v, f) { LinkExec(c, s, s', e, v, f); }
    hide BufOk, PcOk, CacheOk;
    assert s'.next.Keys == s.next.Keys;
    assert Explains(c, s', v);
  }

  // ----- a buffer leaves a list or normal memory for a user

  lemma AllocSelfBuf(c: Config, s: State, s': State, e: nat, v: View, b: int)
    requires Explains(c, s, v) && AllocSelf(c, s, s', e) && b in v
    ensures BufOk(c, s', v[s.cache[e].self := AtUser], b)
  {
    hide Regions, CarvedBelow;
    var ptr := s.cache[e].self;
    assert PcOk(c, s, v, e) && CacheOk(c, s, v, e) && BufOk(c, s, v, ptr) && BufOk(c, s, v, b);
    assert SamePlace(v, ptr, b) ==> ptr == b;
  }

  lemma AllocSelfExec(c: Config, s: State, s': State, e: nat, v: View, f: nat)
    requires Explains(c, s, v) && AllocSelf(c, s, s', e) && f < c.executors
    ensures PcOk(c, s', v[s.cache[e].self := AtUser], f) && CacheOk(c, s', v[s.cache[e].self := AtUser], f)
  {
    hide Regions, OnePerPlace;
    var ptr := s.cache[e].self;
    assert PcOk(c, s, v, e) && CacheOk(c, s, v, e) && BufOk(c, s, v, ptr) && PcOk(c, s, v, f) && CacheOk(c, s, v, f);
  }

  lemma AllocSelfStep(c: Config, s: State, s': State, e: nat, v: View)
    requires Explains(c, s, v) && AllocSelf(c, s, s', e)
    ensures Inv(c, s')
  {
    var v' := v[s.cache[e].self := AtUser];
    hide BufOk, CarvedBelow;
    assert PcOk(c, s, v, e) && CacheOk(c, s, v, e);
    hide PcOk, CacheOk;
    forall b | b in v' ensures BufOk(c, s', v', b) { AllocSelfBuf(c, s, s', e, v, b); }
    forall f | 0 <= f < c.executors ensures PcOk(c, s', v', f) && CacheOk(c, s', v', f) { AllocSelfExec(c, s, s', e, v, f); }
    forall a, b | SamePlace(v', a, b) ensures a == b { assert SamePlace(v, a, b); }
    assert Explains(c, s', v');
  }

  // The whole sync list of e but its head becomes the self list.
  ghost function Popped(v: View, e: nat, ptr: int): View {
    map b | b in v :: if b == ptr then AtUser else if OnList(v, Sync(e), b) then Listed(Self(e), v[b].pos) else v[b]
  }

  lemma PopBuf(c: Config, s: State, s': State, e: nat, v: View, b: int)
    requires Explains(c, s, v) && PopSwap(c, s, s', e) && b in v
    ensures BufOk(c, s', Popped(v, e, s.pc[e].ptr), b)
  {
    NullIsNoBuffer(c, s, v);
    hide Regions, CarvedBelow;
    var ptr := s.pc[e].ptr;
    assert PcOk(c, s, v, e) && CacheOk(c, s, v, e) && BufOk(c, s, v, ptr) && BufOk(c, s, v, b);
    assert SamePlace(v, ptr, b) ==> ptr == b;
  }

  lemma PopExec(c: Config, s: State, s': State, e: nat, v: View, f: nat)
    requires Explains(c, s, v) && PopSwap(c, s, s', e) && f < c.executors
    ensures PcOk(c, s', Popped(v, e, s.pc[e].ptr), f) && CacheOk(c, s', Popped(v, e, s.pc[e].ptr), f)
  {
    NullIsNoBuffer(c, s, v);
    hide Regions, OnePerPlace;
    var ptr := s.pc[e].ptr;
    assert PcOk(c, s, v, e) && CacheOk(c, s, v, e) && BufOk(c, s, v, ptr) && PcOk(c, s, v, f) && CacheOk(c, s, v, f);
  }

  lemma PopPlaces(c: Config, s: State, e: nat, v: View, ptr: int, a: int, b: int)
    requires Explains(c, s, v) && At(c, s, e) && s.cache[e].self == NULL && SamePlace(Popped(v, e, ptr), a, b)
    ensures a == b
  {
    NullIsNoBuffer(c, s, v);
    assert BufOk(c, s, v, a) && BufOk(c, s, v, b);
    assert SamePlace(v, a, b) ==> a == b;
  }

  lemma PopStep(c: Config, s: State, s': State, e: nat, v: View)
    requires Explains(c, s, v) && PopSwap(c, s, s', e)
    ensures Inv(c, s')
  {
    var v' := Popped(v, e, s.pc[e].ptr);
    hide BufOk, CarvedBelow;
    assert PcOk(c, s, v, e) && CacheOk(c, s, v, e);
    hide PcOk, CacheOk;
    forall b | b in v' ensures BufOk(c, s', v', b) { PopBuf(c, s, s', e, v, b); }
    forall f | 0 <= f < c.executors ensures PcOk(c, s', v', f) && CacheOk(c, s', v', f) { PopExec(c, s, s', e, v, f); }
    forall a, b | SamePlace(v', a, b) ensures a == b { PopPlaces(c, s, e, v, s.pc[e].ptr, a, b); }
    assert Explains(c, s', v');
  }

  // ----- carving a block of normal memory

  lemma CarveStartBuf(c: Config, s: State, s': State, e: nat, base: int, v: View, b: int)
    requires Explains(c, s, v) && CarveStart(c, s, s', e, base) && b in v
    ensures BufOk(c, s', v, b)
  {
    hide Regions, CarvedBelow, OnePerPlace;
    assert BufOk(c, s, v, b);
  }

  lemma CarveStartExec(c: Config, s: State, s': State, e: nat, base: int, v: View, f: nat)
    requires Explains(c, s, v) && CarveStart(c, s, s', e, base) && f < c.executors
    ensures PcOk(c, s', v, f) && CacheOk(c, s', v, f)
  {
    hide OnePerPlace;
    assert PcOk(c, s, v, f) && CacheOk(c, s, v, f);
    if f == e {
      forall b | b in v ensures b < base || base + GROW_SIZE <= b {
        assert Housed(s.regions, b);
      }
    }
  }

  lemma CarveStartStep(c: Config, s: State, s': State, e: nat, base: int, v: View)
    requires Explains(c, s, v) && CarveStart(c, s, s', e, base)
    ensures Inv(c, s')
  {
    forall b | b in v ensures BufOk(c, s', v, b) { CarveStartBuf(c, s, s', e, base, v, b); }
    forall f | 0 <= f < c.executors ensures PcOk(c, s', v, f) && CacheOk(c, s', v, f) { CarveStartExec(c, s, s', e, base, v, f); }
    forall f: nat | f < c.executors && s.pc[f].Carving? ensures s.pc[f].base != base { assert PcOk(c, s, v, f); }
    hide BufOk, PcOk, CacheOk;
    forall b | b in v ensures Housed(s'.regions, b) {
      assert Housed(s.regions, b);
      var r :| r in s.regions && r <= b < r + GROW_SIZE;
      assert r in s'.regions;
    }
    assert Explains(c, s', v);
  }

  // The buffer about to be carved is new, and lies in the executor's own block only.
  lemma CarveFresh(c: Config, s: State, e: nat, v: View)
    requires Explains(c, s, v) && At(c, s, e) && s.pc[e].Carving? && s.pc[e].i < c.Count()
    ensures var cur := s.pc[e].cur; cur !in v && s.pc[e].base <= cur && cur + c.stride <= s.pc[e].base + GROW_SIZE
    ensures Housed(s.regions, s.pc[e].cur) && (s.pc[e].i > 0 ==> s.pc[e].cur > s.pc[e].base)
    ensures forall f: nat :: f < c.executors && f != e && s.pc[f].Carving? ==>
              s.pc[e].cur < s.pc[f].base || s.pc[f].base + GROW_SIZE <= s.pc[e].cur
  {
    var p := s.pc[e];
    assert PcOk(c, s, v, e);
    assert (p.i + 1) * c.stride <= c.Count() * c.stride <= GROW_SIZE;
    assert (p.i + 1) * c.stride == p.i * c.stride + c.stride;
    assert p.i > 0 ==> p.i * c.stride > 0;
    forall f: nat | f < c.executors && f != e && s.pc[f].Carving?
      ensures p.cur < s.pc[f].base || s.pc[f].base + GROW_SIZE <= p.cur
    {
      assert PcOk(c, s, v, f);
    }
  }

  lemma CarveFirstBuf(c: Config, s: State, s': State, e: nat, word: int, v: View, b: int)
    requires Explains(c, s, v) && CarveFirst(c, s, s', e, word) && c.Count() > 0 && b in v[s.pc[e].cur := InHand(e)]
    ensures BufOk(c, s', v[s.pc[e].cur := InHand(e)], b)
  {
    CarveFresh(c, s, e, v);
    hide Regions, CarvedBelow, OnePerPlace;
    assert PcOk(c, s, v, e);
    if b != s.pc[e].cur { assert BufOk(c, s, v, b); }
  }

  lemma CarveFirstExec(c: Config, s: State, s': State, e: nat, word: int, v: View, f: nat)
    requires Explains(c, s, v) && CarveFirst(c, s, s', e, word) && c.Count() > 0 && f < c.executors
    ensures PcOk(c, s', v[s.pc[e].cur := InHand(e)], f) && CacheOk(c, s', v[s.pc[e].cur := InHand(e)], f)
  {
    CarveFresh(c, s, e, v);
    hide Regions, OnePerPlace;
    assert PcOk(c, s, v, e) && PcOk(c, s, v, f) && CacheOk(c, s, v, f);
  }

  lemma CarveFirstStep(c: Config, s: State, s': State, e: nat, word: int, v: View)
    requires Explains(c, s, v) && CarveFirst(c, s, s', e, word)
    ensures Inv(c, s')
  {
    CountPositive(c);
    CarveFresh(c, s, e, v);
    var v' := v[s.pc[e].cur := InHand(e)];
    forall b | b in v' ensures BufOk(c, s', v', b) { CarveFirstBuf(c, s, s', e, word, v, b); }
    forall f | 0 <= f < c.executors ensures PcOk(c, s', v', f) && CacheOk(c, s', v', f) { CarveFirstExec(c, s, s', e, word, v, f); }
    hide BufOk, PcOk, CacheOk;
    forall a, b | SamePlace(v', a, b) ensures a == b { assert SamePlace(v, a, b); }
    assert s'.next.Keys == s.next.Keys + {s.pc[e].cur} && s'.owner.Keys == s.owner.Keys + {s.pc[e].cur};
    assert Explains(c, s', v');
  }

  lemma CountPositive(c: Config)
    requires c.Ok()
    ensures c.Count() > 0
  {}

  ghost function CarvedView(s: State, v: View, e: nat): View
    requires e < |s.pc| == |s.cache| && s.pc[e].Carving?
  {
    v[s.pc[e].cur := Listed(Self(e), Top(v, s.cache[e].self))]
  }

  lemma CarveMoreBuf(c: Config, s: State, s': State, e: nat, v: View, b: int)
    requires Explains(c, s, v) && CarveMore(c, s, s', e) && b in CarvedView(s, v, e)
    ensures BufOk(c, s', CarvedView(s, v, e), b)
  {
    CarveFresh(c, s, e, v);
    NullIsNoBuffer(c, s, v);
    hide Regions, CarvedBelow, OnePerPlace;
    assert PcOk(c, s, v, e) && CacheOk(c, s, v, e);
    if b != s.pc[e].cur { assert BufOk(c, s, v, b); }
  }

  lemma CarveMoreExec(c: Config, s: State, s': State, e: nat, v: View, f: nat)
    requires Explains(c, s, v) && CarveMore(c, s, s', e) && f < c.executors
    ensures PcOk(c, s', CarvedView(s, v, e), f) && CacheOk(c, s', CarvedView(s, v, e), f)
  {
    CarveFresh(c, s, e, v);
    NullIsNoBuffer(c, s, v);
    hide Regions, OnePerPlace;
    assert PcOk(c, s, v, e) && PcOk(c, s, v, f) && CacheOk(c, s, v, f);
    assert (s.pc[e].i + 1) * c.stride == s.pc[e].i * c.stride + c.stride;
  }

  // A place on top of a list is free.
  lemma TopIsFree(c: Config, s: State, v: View, l: List, b: int)
    requires Explains(c, s, v) && l.e < c.executors && b in v
    ensures v[b] != Listed(l, Top(v, Head(s, l)))
  {
    assert BufOk(c, s, v, b);
  }

  lemma CarveMoreStep(c: Config, s: State, s': State, e: nat, v: View)
    requires Explains(c, s, v) && CarveMore(c, s, s', e)
    ensures Inv(c, s')
  {
    CarveFresh(c, s, e, v);
    var v' := CarvedView(s, v, e);
    forall b | b in v' ensures BufOk(c, s', v', b) { CarveMoreBuf(c, s, s', e, v, b); }
    forall f | 0 <= f < c.executors ensures PcOk(c, s', v', f) && CacheOk(c, s', v', f) { CarveMoreExec(c, s, s', e, v, f); }
    hide BufOk, PcOk, CacheOk;
    forall a, b | SamePlace(v', a, b) ensures a == b {
      assert SamePlace(v, a, b) ==> a == b;
      if a in v { TopIsFree(c, s, v, Self(e), a); }
      if b in v { TopIsFree(c, s, v, Self(e), b); }
    }
    assert s'.next.Keys == s.next.Keys + {s.pc[e].cur} && s'.owner.Keys == s.owner.Keys + {s.pc[e].cur};
    assert Explains(c, s', v');
  }

  lemma CarveDoneBuf(c: Config, s: State, s': State, e: nat, v: View, b: int)
    requires Explains(c, s, v) && CarveDone(c, s, s', e) && b in v
    ensures BufOk(c, s', v[s.pc[e].base := AtUser], b)
  {
    CountPositive(c);
    hide Regions, CarvedBelow, OnePerPlace;
    assert PcOk(c, s, v, e) && BufOk(c, s, v, b);
  }

  lemma CarveDoneExec(c: Config, s: State, s': State, e: nat, v: View, f: nat)
    requires Explains(c, s, v) && CarveDone(c, s, s', e) && f < c.executors
    ensures s.pc[e].base in v
    ensures PcOk(c, s', v[s.pc[e].base := AtUser], f) && CacheOk(c, s', v[s.pc[e].base := AtUser], f)
  {
    CountPositive(c);
    hide Regions, OnePerPlace;
    assert PcOk(c, s, v, e) && PcOk(c, s, v, f) && CacheOk(c, s, v, f);
  }

  lemma CarveDoneStep(c: Config, s: State, s': State, e: nat, v: View)
    requires Explains(c, s, v) && CarveDone(c, s, s', e)
    ensures Inv(c, s')
  {
    CarveDoneExec(c, s, s', e, v, e);
    var v' := v[s.pc[e].base := AtUser];
    forall b | b in v' ensures BufOk(c, s', v', b) { CarveDoneBuf(c, s, s', e, v, b); }
    forall f | 0 <= f < c.executors ensures PcOk(c, s', v', f) && CacheOk(c, s', v', f) { CarveDoneExec(c, s, s', e, v, f); }
    hide BufOk, PcOk, CacheOk;
    forall a, b | SamePlace(v', a, b) ensures a == b { assert SamePlace(v, a, b); }
    assert Explains(c, s', v');
  }

  // ----- frees

  ghost function FreedView(s: State, v: View, l: List, b: int): View
    requires |s.cache| == |s.pc| && l.e < |s.cache|
  {
    v[b := Listed(l, Top(v, Head(s, l)))]
  }

  // Buffer b goes on top of a private list of e.
  ghost predicate FreeTop(c: Config, s: State, s': State, l: List, b: int) {
    (l.Self? && FreeSelf(c, s, s', l.e, b))
    || (l.Other? && (FreeFirst(c, s, s', l.e, b) || FreeBatch(c, s, s', l.e, b)))
  }

  lemma FreedBuf(c: Config, s: State, s': State, l: List, v: View, x: int)
    requires Explains(c, s, v) && FreeTop(c, s, s', l, x)
    ensures x in v && BufOk(c, s', FreedView(s, v, l, x), x)
  {
    NullIsNoBuffer(c, s, v);
    hide Regions, CarvedBelow, OnePerPlace;
    assert CacheOk(c, s, v, l.e) && BufOk(c, s, v, x);
    hide PcOk;
  }

  lemma FreeTopBuf(c: Config, s: State, s': State, l: List, v: View, x: int, b: int)
    requires Explains(c, s, v) && FreeTop(c, s, s', l, x) && b in v && b != x
    ensures BufOk(c, s', FreedView(s, v, l, x), b)
  {
    NullIsNoBuffer(c, s, v);
    hide Regions, CarvedBelow, OnePerPlace, PcOk;
    assert CacheOk(c, s, v, l.e) && BufOk(c, s, v, b) && BufOk(c, s, v, x);
  }

  lemma FreeTopExec(c: Config, s: State, s': State, l: List, v: View, x: int, f: nat)
    requires Explains(c, s, v) && FreeTop(c, s, s', l, x) && f < c.executors
    ensures PcOk(c, s', FreedView(s, v, l, x), f) && CacheOk(c, s', FreedView(s, v, l, x), f)
  {
    NullIsNoBuffer(c, s, v);
    hide Regions, OnePerPlace;
    assert PcOk(c, s, v, l.e) && CacheOk(c, s, v, l.e) && PcOk(c, s, v, f) && CacheOk(c, s, v, f) && BufOk(c, s, v, x);
  }

  lemma FreeTopStep(c: Config, s: State, s': State, l: List, v: View, x: int)
    requires Explains(c, s, v) && FreeTop(c, s, s', l, x)
    ensures Inv(c, s')
  {
    var v' := FreedView(s, v, l, x);
    hide BufOk, PcOk, CacheOk, CarvedBelow;
    forall b | b in v' ensures BufOk(c, s', v', b) {
      if b == x { FreedBuf(c, s, s', l, v, x); } else { FreeTopBuf(c, s, s', l, v, x, b); }
    }
    forall f | 0 <= f < c.executors ensures PcOk(c, s', v', f) && CacheOk(c, s', v', f) { FreeTopExec(c, s, s', l, v, x, f); }
    forall a, b | SamePlace(v', a, b) ensures a == b {
      assert SamePlace(v, a, b) ==> a == b;
      TopIsFree(c, s, v, l, a);
      TopIsFree(c, s, v, l, b);
    }
    assert s'.next.Keys == s.next.Keys;
    assert Explains(c, s', v');
  }

  // The batch of e takes off, and b is the first of the next one.
  ghost function TakeOff(v: View, e: nat, x: int): View {
    map b | b in v :: if b == x then Listed(Other(e), 0) else if OnList(v, Other(e), b) then Listed(Flight(e), v[b].pos) else v[b]
  }

  lemma FlushBuf(c: Config, s: State, s': State, e: nat, v: View, x: int, b: int)
    requires Explains(c, s, v) && FreeFlush(c, s, s', e, x) && b in v
    ensures BufOk(c, s', TakeOff(v, e, x), b)
  {
    NullIsNoBuffer(c, s, v);
    hide Regions, CarvedBelow;
    assert PcOk(c, s, v, e) && CacheOk(c, s, v, e) && BufOk(c, s, v, b) && BufOk(c, s, v, x);
    assert SamePlace(v, b, s.cache[e].otherTail) ==> b == s.cache[e].otherTail;
  }

  lemma FlushExec(c: Config, s: State, s': State, e: nat, v: View, x: int, f: nat)
    requires Explains(c, s, v) && FreeFlush(c, s, s', e, x) && f < c.executors
    ensures PcOk(c, s', TakeOff(v, e, x), f) && CacheOk(c, s', TakeOff(v, e, x), f)
  {
    NullIsNoBuffer(c, s, v);
    hide Regions, OnePerPlace;
    assert PcOk(c, s, v, e) && CacheOk(c, s, v, e) && PcOk(c, s, v, f) && CacheOk(c, s, v, f);
    assert BufOk(c, s, v, x) && BufOk(c, s, v, s.cache[e].other);
  }

  lemma FlushPlaces(c: Config, s: State, e: nat, v: View, x: int, a: int, b: int)
    requires Explains(c, s, v) && At(c, s, e) && !Flushing(s.pc[e]) && SamePlace(TakeOff(v, e, x), a, b)
    ensures a == b
  {
    NullIsNoBuffer(c, s, v);
    hide Regions, CarvedBelow;
    assert BufOk(c, s, v, a) && BufOk(c, s, v, b);
    assert SamePlace(v, a, b) ==> a == b;
  }

  lemma FlushStep(c: Config, s: State, s': State, e: nat, v: View, x: int)
    requires Explains(c, s, v) && FreeFlush(c, s, s', e, x)
    ensures Inv(c, s')
  {
    var v' := TakeOff(v, e, x);
    hide BufOk, PcOk, CacheOk, CarvedBelow;
    forall b | b in v' ensures BufOk(c, s', v', b) { FlushBuf(c, s, s', e, v, x, b); }
    forall f | 0 <= f < c.executors ensures PcOk(c, s', v', f) && CacheOk(c, s', v', f) { FlushExec(c, s, s', e, v, x, f); }
    forall a, b | SamePlace(v', a, b) ensures a == b { FlushPlaces(c, s, e, v, x, a, b); }
    assert s'.next.Keys == s.next.Keys;
    assert Explains(c, s', v');
  }

  // The batch of e lands on the sync list of its owner.
  ghost function Landed(s: State, v: View, e: nat, to: nat): View
    requires to < |s.cache|
  {
    map b | b in v :: if OnList(v, Flight(e), b) then Listed(Sync(to), v[b].pos + Top(v, s.cache[to].sync)) else v[b]
  }

  lemma PushBuf(c: Config, s: State, s': State, e: nat, v: View, b: int)
    requires Explains(c, s, v) && PushBatch(c, s, s', e) && b in v
    ensures BufOk(c, s', Landed(s, v, e, s.pc[e].to), b)
  {
    NullIsNoBuffer(c, s, v);
    hide Regions, CarvedBelow, OnePerPlace;
    assert PcOk(c, s, v, e) && CacheOk(c, s, v, e) && CacheOk(c, s, v, s.pc[e].to) && BufOk(c, s, v, b);
  }

  lemma PushExec(c: Config, s: State, s': State, e: nat, v: View, f: nat)
    requires Explains(c, s, v) && PushBatch(c, s, s', e) && f < c.executors
    ensures PcOk(c, s', Landed(s, v, e, s.pc[e].to), f) && CacheOk(c, s', Landed(s, v, e, s.pc[e].to), f)
  {
    NullIsNoBuffer(c, s, v);
    hide Regions, OnePerPlace;
    assert PcOk(c, s, v, e) && CacheOk(c, s, v, e) && PcOk(c, s, v, f) && CacheOk(c, s, v, f);
  }

  lemma PushPlaces(c: Config, s: State, e: nat, v: View, to: nat, a: int, b: int)
    requires Explains(c, s, v) && e < c.executors && to < c.executors && SamePlace(Landed(s, v, e, to), a, b)
    ensures a == b
  {
    NullIsNoBuffer(c, s, v);
    hide Regions, CarvedBelow;
    assert BufOk(c, s, v, a) && BufOk(c, s, v, b);
    assert SamePlace(v, a, b) ==> a == b;
  }

  lemma PushStep(c: Config, s: State, s': State, e: nat, v: View)
    requires Explains(c, s, v) && PushBatch(c, s, s', e)
    ensures Inv(c, s')
  {
    var v' := Landed(s, v, e, s.pc[e].to);
    hide BufOk, PcOk, CacheOk, CarvedBelow;
    forall b | b in v' ensures BufOk(c, s', v', b) { PushBuf(c, s, s', e, v, b); }
    forall f | 0 <= f < c.executors ensures PcOk(c, s', v', f) && CacheOk(c, s', v', f) { PushExec(c, s, s', e, v, f); }
    forall a, b | SamePlace(v', a, b) ensures a == b { PushPlaces(c, s, e, v, s.pc[e].to, a, b); }
    assert Explains(c, s', v');
  }

  // ----- whole runs

  lemma InitInv(c: Config, s: State)
    requires c.Ok() && Init(c, s)
    ensures Inv(c, s)
  {
    var v: View := map[];
    assert Explains(c, s, v);
  }

  lemma AllocInv(c: Config, s: State, s': State, e: nat, x: int, v: View)
    requires Explains(c, s, v) && AllocStep(c, s, s', e, x)
    ensures Inv(c, s')
  {
    hide Explains, Inv, AllocSelf, AllocLoad, PopSwap, PopFail, PopLoad, CarveStart, CarveFirst, CarveMore, CarveDone;
    if AllocSelf(c, s, s', e) { AllocSelfStep(c, s, s', e, v); }
    else if PopSwap(c, s, s', e) { PopStep(c, s, s', e, v); }
    else if CarveStart(c, s, s', e, x) { CarveStartStep(c, s, s', e, x, v); }
    else if CarveFirst(c, s, s', e, x) { CarveFirstStep(c, s, s', e, x, v); }
    else if CarveMore(c, s, s', e) { CarveMoreStep(c, s, s', e, v); }
    else if CarveDone(c, s, s', e) { CarveDoneStep(c, s, s', e, v); }
    else { MovesOn(c, s, s', e, v); }
  }

  lemma FreeInv(c: Config, s: State, s': State, e: nat, b: int, v: View)
    requires Explains(c, s, v) && FreeStep(c, s, s', e, b)
    ensures Inv(c, s')
  {
    hide Explains, Inv, FreeSelf, FreeFirst, FreeBatch, FreeFlush, LoadSync, LinkBatch, PushBatch, PushFail;
    if FreeSelf(c, s, s', e, b) { FreeTopStep(c, s, s', Self(e), v, b); }
    else if FreeFirst(c, s, s', e, b) || FreeBatch(c, s, s', e, b) { FreeTopStep(c, s, s', Other(e), v, b); }
    else if FreeFlush(c, s, s', e, b) { FlushStep(c, s, s', e, v, b); }
    else if LinkBatch(c, s, s', e) { LinkStep(c, s, s', e, v); }
    else if PushBatch(c, s, s', e) { PushStep(c, s, s', e, v); }
    else { MovesOn(c, s, s', e, v); }
  }

  lemma {:induction false} RunInv(c: Config, tr: seq<State>, i: nat)
    requires c.Ok() && IsRun(c, tr) && i < |tr|
    ensures Inv(c, tr[i])
  {
    hide Init, Step, AllocStep, FreeStep, UserWrite, Explains;
    if i == 0 {
      InitInv(c, tr[0]);
    } else {
      RunInv(c, tr, i - 1);
      var s, s' := tr[i - 1], tr[i];
      assert Next(c, s, s');
      var v :| Explains(c, s, v);
      var e: nat, x: int, word: int :| Step(c, s, s', e, x, word);
      StepInv(c, s, s', e, x, word, v);
    }
  }

  lemma StepInv(c: Config, s: State, s': State, e: nat, x: int, word: int, v: View)
    requires Explains(c, s, v) && Step(c, s, s', e, x, word)
    ensures Inv(c, s')
  {
    hide Explains, Inv, AllocStep, FreeStep, UserWrite;
    if AllocStep(c, s, s', e, x) { AllocInv(c, s, s', e, x, v); }
    else if FreeStep(c, s, s', e, x) { FreeInv(c, s, s', e, x, v); }
    else { WriteStep(c, s, s', x, word, v); }
  }

  // ----- following the links finds exactly what the view says

  lemma HeadListed(c: Config, s: State, v: View, l: List)
    requires Explains(c, s, v) && l.e < c.executors && Head(s, l) != NULL
    ensures OnList(v, l, Head(s, l))
  {
    assert CacheOk(c, s, v, l.e);
  }

  lemma {:induction false} FollowAt(c: Config, s: State, v: View, l: List, k: nat)
    requires Explains(c, s, v) && l.e < c.executors && OnList(v, l, Head(s, l)) && k <= v[Head(s, l)].pos
    ensures OnList(v, l, Follow(s.next, Head(s, l), k))
    ensures v[Follow(s.next, Head(s, l), k)].pos == v[Head(s, l)].pos - k
  {
    if k > 0 {
      FollowAt(c, s, v, l, k - 1);
      assert BufOk(c, s, v, Follow(s.next, Head(s, l), k - 1));
    }
  }

  lemma {:induction false} FollowPast(c: Config, s: State, v: View, l: List, k: nat)
    requires Explains(c, s, v) && l.e < c.executors && !l.Flight?
    requires Head(s, l) == NULL || (OnList(v, l, Head(s, l)) && k > v[Head(s, l)].pos)
    ensures Follow(s.next, Head(s, l), k) == NULL
  {
    NullIsNoBuffer(c, s, v);
    if k > 0 {
      if Head(s, l) == NULL || k - 1 > v[Head(s, l)].pos {
        FollowPast(c, s, v, l, k - 1);
      } else {
        FollowAt(c, s, v, l, k - 1);
        assert BufOk(c, s, v, Follow(s.next, Head(s, l), k - 1));
      }
    }
  }

  lemma FlightEnds(c: Config, s: State, v: View, e: nat)
    requires Explains(c, s, v) && e < c.executors && Flushing(s.pc[e])
    ensures OnList(v, Flight(e), s.pc[e].head)
    ensures Follow(s.next, s.pc[e].head, v[s.pc[e].head].pos) == s.pc[e].tail
  {
    assert PcOk(c, s, v, e);
    HeadListed(c, s, v, Flight(e));
    FollowAt(c, s, v, Flight(e), v[s.pc[e].head].pos);
    assert SamePlace(v, Follow(s.next, s.pc[e].head, v[s.pc[e].head].pos), s.pc[e].tail);
  }

  ghost function SpotOf(p: Place): Spot {
    match p
    case AtUser => User
    case InHand(e) => Hand(e)
    case Listed(l, _) => On(l)
  }

  lemma ReachedIsListed(c: Config, s: State, v: View, l: List, b: int, k: nat)
    requires Explains(c, s, v) && l.e < c.executors && b != NULL && Reaches(s, l, b, k)
    ensures OnList(v, l, b)
  {
    if l.Flight? {
      FlightEnds(c, s, v, l.e);
      FollowAt(c, s, v, l, k);
    } else {
      if Head(s, l) == NULL || (HeadListed(c, s, v, l); k > v[Head(s, l)].pos) {
        FollowPast(c, s, v, l, k);
      } else {
        FollowAt(c, s, v, l, k);
      }
    }
  }

  lemma ListedIsReached(c: Config, s: State, v: View, b: int)
    requires Explains(c, s, v) && b in v && v[b].Listed?
    ensures v[b].list.e < c.executors && exists k: nat :: Reaches(s, v[b].list, b, k)
  {
    assert BufOk(c, s, v, b);
    var l, top := v[b].list, v[Head(s, v[b].list)].pos;
    var k: nat := top - v[b].pos;
    FollowAt(c, s, v, l, k);
    assert SamePlace(v, Follow(s.next, Head(s, l), k), b);
    if l.Flight? {
      assert PcOk(c, s, v, l.e);
      forall j: nat | j < k ensures Follow(s.next, Head(s, l), j) != s.pc[l.e].tail {
        FollowAt(c, s, v, l, j);
      }
    }
    assert Reaches(s, l, b, k);
  }

  lemma SpotExact(c: Config, s: State, v: View, spot: Spot, b: int)
    requires Explains(c, s, v)
    ensures IsAt(s, spot, b) <==> b in v && SpotOf(v[b]) == spot
  {
    NullIsNoBuffer(c, s, v);
    if b in v {
      assert BufOk(c, s, v, b);
      if v[b].Listed? { ListedIsReached(c, s, v, b); }
    }
    if IsAt(s, spot, b) {
      match spot {
        case User =>
        case Hand(e) => assert PcOk(c, s, v, e);
        case On(l) =>
          var k: nat :| Reaches(s, l, b, k);
          ReachedIsListed(c, s, v, l, b, k);
      }
    }
  }

  // ----- the theorems

  /** Conservation: in every state of every run each carved buffer is in exactly one place, and nothing else
      is found anywhere. */
  lemma ExactlyOnePlace(c: Config, tr: seq<State>, i: nat, b: int)
    requires c.Ok() && IsRun(c, tr) && i < |tr|
    ensures b in tr[i].owner ==> exists spot :: IsAt(tr[i], spot, b)
    ensures forall spot {:trigger IsAt(tr[i], spot, b)} :: IsAt(tr[i], spot, b) ==> b in tr[i].owner
    ensures forall p, q {:trigger IsAt(tr[i], p, b), IsAt(tr[i], q, b)} :: IsAt(tr[i], p, b) && IsAt(tr[i], q, b) ==> p == q
  {
    RunInv(c, tr, i);
    var s := tr[i];
    var v :| Explains(c, s, v);
    forall spot ensures IsAt(s, spot, b) <==> b in v && SpotOf(v[b]) == spot { SpotExact(c, s, v, spot, b); }
    if b in s.owner { assert IsAt(s, SpotOf(v[b]), b); }
  }

  /** The private and the sync list of an executor hold its own buffers only; a batch holds buffers of one
      other executor, in flight too. */
  lemma ListsHaveOneOwner(c: Config, tr: seq<State>, i: nat, l: List, a: int, b: int)
    requires c.Ok() && IsRun(c, tr) && i < |tr| && IsAt(tr[i], On(l), a) && IsAt(tr[i], On(l), b)
    ensures a in tr[i].owner && b in tr[i].owner && tr[i].owner[a] == tr[i].owner[b]
    ensures l.Self? || l.Sync? ==> tr[i].owner[a] == l.e
    ensures l.Other? || l.Flight? ==> tr[i].owner[a] != l.e
  {
    RunInv(c, tr, i);
    var s := tr[i];
    var v :| Explains(c, s, v);
    SpotExact(c, s, v, On(l), a);
    SpotExact(c, s, v, On(l), b);
    assert BufOk(c, s, v, a) && BufOk(c, s, v, b) && PcOk(c, s, v, l.e);
  }

  // How many buffers an executor's batch holds: the first one of its first batch is not counted.
  ghost function BatchLength(k: Cache): nat {
    if k.other == NULL then 0 else k.otherCount + if k.flushed then 0 else 1
  }

  /** A batch ends at its tail, with a null link behind it. It holds as many buffers as are counted, and one more
      before the executor's first flush: so it holds more than 16 if and only if the executor has not flushed yet
      and has counted 16, and then it holds 17. */
  lemma BatchIsBounded(c: Config, tr: seq<State>, i: nat, e: nat)
    requires c.Ok() && IsRun(c, tr) && i < |tr| && e < c.executors
    ensures |tr[i].cache| == |tr[i].pc| == c.executors
    ensures forall n: nat :: Follow(tr[i].next, tr[i].cache[e].other, n) != NULL <==> n < BatchLength(tr[i].cache[e])
    ensures BatchLength(tr[i].cache[e]) > OTHER_LIMIT <==> !tr[i].cache[e].flushed && tr[i].cache[e].otherCount == OTHER_LIMIT
    ensures BatchLength(tr[i].cache[e]) <= OTHER_LIMIT + 1
    ensures tr[i].cache[e].other != NULL ==>
              IsAt(tr[i], On(Other(e)), tr[i].cache[e].otherTail)
              && tr[i].cache[e].otherTail in tr[i].next && tr[i].next[tr[i].cache[e].otherTail] == NULL
  {
    RunInv(c, tr, i);
    var s := tr[i];
    var v :| Explains(c, s, v);
    assert CacheOk(c, s, v, e);
    NullIsNoBuffer(c, s, v);
    forall n: nat ensures Follow(s.next, s.cache[e].other, n) != NULL <==> n < BatchLength(s.cache[e]) {
      if n < BatchLength(s.cache[e]) { FollowAt(c, s, v, Other(e), n); } else { FollowPast(c, s, v, Other(e), n); }
    }
    if s.cache[e].other != NULL {
      SpotExact(c, s, v, On(Other(e)), s.cache[e].otherTail);
      assert BufOk(c, s, v, s.cache[e].otherTail);
    }
  }

  /** An executor that takes its sync list never finds it empty, so it never follows a null link: only the
      owner empties a sync list. */
  lemma PopNeverFindsNull(c: Config, tr: seq<State>, i: nat, e: nat)
    requires c.Ok() && IsRun(c, tr) && i < |tr| && e < c.executors
    ensures |tr[i].cache| == |tr[i].pc| == c.executors
    ensures tr[i].pc[e].PopSync? || tr[i].pc[e].PopReload? ==> tr[i].cache[e].sync != NULL && tr[i].cache[e].sync in tr[i].next
    ensures tr[i].pc[e].PopSync? ==> tr[i].pc[e].ptr != NULL
  {
    RunInv(c, tr, i);
    var s := tr[i];
    var v :| Explains(c, s, v);
    assert PcOk(c, s, v, e) && CacheOk(c, s, v, e);
    if s.cache[e].sync != NULL { assert BufOk(c, s, v, s.cache[e].sync); }
  }
}
