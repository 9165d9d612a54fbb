/** The fast bins above normal memory. Every executor keeps, per size bin, a private list of its own free
    buffers (self), a list that others push its buffers onto (sync), and a batch of buffers that belong to one
    other executor (other). Lists are threaded through the first word of each free buffer, which the user
    overwrites at will while holding it. Each access to a sync list is one transition, so a run is any
    interleaving of allocations and frees by any executors; buffers may be freed by another executor than
    the one that allocated them. */
module FastCache {

  const NULL := 0
  const GROW_SIZE := 65536
  const OTHER_LIMIT := 16

  // One bin: stride is the bin's buffer size plus the space for the descriptor in front of each buffer.
  datatype Config = Config(executors: nat, stride: nat) {
    function Count(): nat
      requires stride > 0
    {
      GROW_SIZE / stride
    }

    predicate Ok() { 0 < stride <= GROW_SIZE }
  }

  // flushed is history: the executor has sent a batch home before. No transition reads it.
  datatype Cache = Cache(self: int, sync: int, other: int, otherTail: int, otherCount: nat, flushed: bool)

  datatype Pc =
    | Idle
    | PopSync(ptr: int)                                     // about to swap the sync list for null
    | PopReload                                             // the swap failed
    | Carving(base: int, i: nat, cur: int)                  // cur is buffer i of the block at base
    | FlushLoad(to: nat, head: int, tail: int)              // about to load the owner's sync list
    | FlushLink(to: nat, head: int, tail: int, seen: int)    // about to link the batch in front of it
    | FlushCas(to: nat, head: int, tail: int, seen: int)     // about to swap it in

  /** next is the first word of each buffer, owner the executor in its descriptor, held the buffers that
      users have, regions the blocks of normal memory that buffers are cut from. */
  datatype State = State(cache: seq<Cache>, pc: seq<Pc>, next: map<int, int>, owner: map<int, nat>,
                         held: set<int>, regions: set<int>)

  predicate Flushing(pc: Pc) { pc.FlushLoad? || pc.FlushLink? || pc.FlushCas? }

  ghost predicate Init(c: Config, s: State) {
    s == State(seq(c.executors, _ => Cache(NULL, NULL, NULL, NULL, 0, false)), seq(c.executors, _ => Idle),
               map[], map[], {}, {})
  }

  ghost predicate At(c: Config, s: State, e: nat) {
    |s.cache| == |s.pc| == c.executors && e < c.executors
  }

  // ----- allocation

  ghost predicate AllocSelf(c: Config, s: State, s': State, e: nat) {
    At(c, s, e) && s.pc[e].Idle? && s.cache[e].self != NULL && s.cache[e].self in s.next
    && var ptr := s.cache[e].self;
       s' == s.(cache := s.cache[e := s.cache[e].(self := s.next[ptr])], held := s.held + {ptr})
  }

  ghost predicate AllocLoad(c: Config, s: State, s': State, e: nat) {
    At(c, s, e) && s.pc[e].Idle? && s.cache[e].self == NULL && s.cache[e].sync != NULL
    && s' == s.(pc := s.pc[e := PopSync(s.cache[e].sync)])
  }

  ghost predicate PopSwap(c: Config, s: State, s': State, e: nat) {
    At(c, s, e) && s.pc[e].PopSync? && s.cache[e].sync == s.pc[e].ptr && s.pc[e].ptr in s.next
    && var ptr := s.pc[e].ptr;
       s' == s.(cache := s.cache[e := s.cache[e].(sync := NULL, self := s.next[ptr])], pc := s.pc[e := Idle],
                held := s.held + {ptr})
  }

  // The weak compare-and-swap may fail for no reason.
  ghost predicate PopFail(c: Config, s: State, s': State, e: nat) {
    At(c, s, e) && s.pc[e].PopSync? && s' == s.(pc := s.pc[e := PopReload])
  }

  ghost predicate PopLoad(c: Config, s: State, s': State, e: nat) {
    At(c, s, e) && s.pc[e].PopReload? && s' == s.(pc := s.pc[e := PopSync(s.cache[e].sync)])
  }

  // Normal memory hands out a block apart from all the blocks it handed out before; base is aligned.
  ghost predicate Apart(regions: set<int>, base: int) {
    base > NULL && forall r :: r in regions ==> base + GROW_SIZE <= r || r + GROW_SIZE <= base
  }

  ghost predicate CarveStart(c: Config, s: State, s': State, e: nat, base: int) {
    At(c, s, e) && s.pc[e].Idle? && s.cache[e].self == NULL && s.cache[e].sync == NULL && Apart(s.regions, base)
    && s' == s.(pc := s.pc[e := Carving(base, 0, base)], regions := s.regions + {base})
  }

  // The first buffer is for the user; word is whatever its first word happens to hold.
  ghost predicate CarveFirst(c: Config, s: State, s': State, e: nat, word: int) {
    At(c, s, e) && s.pc[e].Carving? && c.Ok() && s.pc[e].i == 0
    && var cur := s.pc[e].cur;
       s' == s.(owner := s.owner[cur := e], next := s.next[cur := word],
                pc := s.pc[e := Carving(s.pc[e].base, 1, cur + c.stride)])
  }

  ghost predicate CarveMore(c: Config, s: State, s': State, e: nat) {
    At(c, s, e) && s.pc[e].Carving? && c.Ok() && 0 < s.pc[e].i < c.Count()
    && var cur := s.pc[e].cur;
       s' == s.(owner := s.owner[cur := e], next := s.next[cur := s.cache[e].self],
                cache := s.cache[e := s.cache[e].(self := cur)],
                pc := s.pc[e := Carving(s.pc[e].base, s.pc[e].i + 1, cur + c.stride)])
  }

  ghost predicate CarveDone(c: Config, s: State, s': State, e: nat) {
    At(c, s, e) && s.pc[e].Carving? && c.Ok() && s.pc[e].i == c.Count()
    && s' == s.(pc := s.pc[e := Idle], held := s.held + {s.pc[e].base})
  }

  // ----- use and free

  ghost predicate UserWrite(c: Config, s: State, s': State, b: int, word: int) {
    b in s.held && s' == s.(next := s.next[b := word])
  }

  ghost predicate Frees(c: Config, s: State, e: nat, b: int) {
    At(c, s, e) && s.pc[e].Idle? && b in s.held && b in s.owner
  }

  ghost predicate FreeSelf(c: Config, s: State, s': State, e: nat, b: int) {
    Frees(c, s, e, b) && s.owner[b] == e
    && s' == s.(next := s.next[b := s.cache[e].self], cache := s.cache[e := s.cache[e].(self := b)], held := s.held - {b})
  }

  ghost predicate FreeFirst(c: Config, s: State, s': State, e: nat, b: int) {
    Frees(c, s, e, b) && s.owner[b] != e && s.cache[e].other == NULL
    && s' == s.(next := s.next[b := s.cache[e].other],
                cache := s.cache[e := s.cache[e].(other := b, otherTail := b)], held := s.held - {b})
  }

  ghost predicate Batches(s: State, e: nat, b: int)
    requires e < |s.cache| && b in s.owner
  {
    s.cache[e].other in s.owner && s.owner[b] == s.owner[s.cache[e].other] && s.cache[e].otherCount < OTHER_LIMIT
  }

  ghost predicate FreeBatch(c: Config, s: State, s': State, e: nat, b: int) {
    Frees(c, s, e, b) && s.owner[b] != e && s.cache[e].other != NULL && Batches(s, e, b)
    && s' == s.(next := s.next[b := s.cache[e].other],
                cache := s.cache[e := s.cache[e].(other := b, otherCount := s.cache[e].otherCount + 1)],
                held := s.held - {b})
  }

  // The batch is full or belongs to someone else: it is sent home and b starts a new one.
  ghost predicate FreeFlush(c: Config, s: State, s': State, e: nat, b: int) {
    Frees(c, s, e, b) && s.owner[b] != e && s.cache[e].other != NULL && !Batches(s, e, b)
    && s.cache[e].other in s.owner
    && var head := s.cache[e].other;
       s' == s.(next := s.next[b := NULL],
                cache := s.cache[e := s.cache[e].(other := b, otherTail := b, otherCount := 1, flushed := true)],
                pc := s.pc[e := FlushLoad(s.owner[head], head, s.cache[e].otherTail)], held := s.held - {b})
  }

  ghost predicate LoadSync(c: Config, s: State, s': State, e: nat) {
    At(c, s, e) && s.pc[e].FlushLoad? && s.pc[e].to < c.executors
    && var p := s.pc[e];
       s' == s.(pc := s.pc[e := FlushLink(p.to, p.head, p.tail, s.cache[p.to].sync)])
  }

  ghost predicate LinkBatch(c: Config, s: State, s': State, e: nat) {
    At(c, s, e) && s.pc[e].FlushLink?
    && var p := s.pc[e];
       s' == s.(next := s.next[p.tail := p.seen], pc := s.pc[e := FlushCas(p.to, p.head, p.tail, p.seen)])
  }

  ghost predicate PushBatch(c: Config, s: State, s': State, e: nat) {
    At(c, s, e) && s.pc[e].FlushCas? && s.pc[e].to < c.executors && s.cache[s.pc[e].to].sync == s.pc[e].seen
    && var p := s.pc[e];
       s' == s.(cache := s.cache[p.to := s.cache[p.to].(sync := p.head)], pc := s.pc[e := Idle])
  }

  ghost predicate PushFail(c: Config, s: State, s': State, e: nat) {
    At(c, s, e) && s.pc[e].FlushCas?
    && s' == s.(pc := s.pc[e := FlushLoad(s.pc[e].to, s.pc[e].head, s.pc[e].tail)])
  }

  ghost predicate AllocStep(c: Config, s: State, s': State, e: nat, x: int) {
    AllocSelf(c, s, s', e) || AllocLoad(c, s, s', e) || PopSwap(c, s, s', e) || PopFail(c, s, s', e)
    || PopLoad(c, s, s', e) || CarveStart(c, s, s', e, x) || CarveFirst(c, s, s', e, x)
    || CarveMore(c, s, s', e) || CarveDone(c, s, s', e)
  }

  ghost predicate FreeStep(c: Config, s: State, s': State, e: nat, b: int) {
    FreeSelf(c, s, s', e, b) || FreeFirst(c, s, s', e, b) || FreeBatch(c, s, s', e, b) || FreeFlush(c, s, s', e, b)
    || LoadSync(c, s, s', e) || LinkBatch(c, s, s', e) || PushBatch(c, s, s', e) || PushFail(c, s, s', e)
  }

  ghost predicate Step(c: Config, s: State, s': State, e: nat, x: int, word: int) {
    AllocStep(c, s, s', e, x) || FreeStep(c, s, s', e, x) || UserWrite(c, s, s', x, word)
  }

  ghost predicate Next(c: Config, s: State, s': State) {
    exists e: nat, x: int, word: int :: Step(c, s, s', e, x, word)
  }

  ghost predicate IsRun(c: Config, tr: seq<State>) {
    |tr| > 0 && Init(c, tr[0]) && forall i :: 0 <= i < |tr| - 1 ==> Next(c, tr[i], tr[i + 1])
  }

  // ----- where buffers are, by following the links in memory

  datatype List = Self(e: nat) | Sync(e: nat) | Other(e: nat) | Flight(e: nat)

  // The head of a list; a batch in flight starts at the flushing executor's own copy of the head.
  ghost function Head(s: State, l: List): int
    requires |s.cache| == |s.pc| && l.e < |s.cache|
  {
    match l
    case Self(e) => s.cache[e].self
    case Sync(e) => s.cache[e].sync
    case Other(e) => s.cache[e].other
    case Flight(e) => if Flushing(s.pc[e]) then s.pc[e].head else NULL
  }

  ghost function Follow(next: map<int, int>, head: int, k: nat): int {
    if k == 0 then head
    else var p := Follow(next, head, k - 1); if p in next then next[p] else NULL
  }

  datatype Spot = User | Hand(e: nat) | On(list: List)

  // A batch in flight ends at its tail, whose link is being rewritten.
  ghost predicate Reaches(s: State, l: List, b: int, k: nat)
    requires |s.cache| == |s.pc| && l.e < |s.cache|
  {
    Follow(s.next, Head(s, l), k) == b
    && (l.Flight? ==> Flushing(s.pc[l.e]) && forall j: nat :: j < k ==> Follow(s.next, Head(s, l), j) != s.pc[l.e].tail)
  }

  // Buffer b is in the hands of users, kept by an executor that is still carving, or on a list.
  ghost predicate IsAt(s: State, spot: Spot, b: int) {
    |s.cache| == |s.pc| && b != NULL
    && match spot
       case User => b in s.held
       case Hand(e) => e < |s.pc| && s.pc[e].Carving? && s.pc[e].i > 0 && b == s.pc[e].base
       case On(l) => l.e < |s.pc| && exists k: nat :: Reaches(s, l, b, k)
  }

  // ----- the invariant: a view that gives every buffer one place, lists being numbered from the tail up

  datatype Place = AtUser | InHand(e: nat) | Listed(list: List, pos: nat)

  type View = map<int, Place>

  ghost predicate OnList(v: View, l: List, b: int) { b in v && v[b].Listed? && v[b].list == l }

  ghost predicate OwnerOk(s: State, l: List, b: int)
    requires |s.cache| == |s.pc| && l.e < |s.cache|
  {
    b in s.owner
    && match l
       case Self(e) => s.owner[b] == e
       case Sync(e) => s.owner[b] == e
       case Other(e) => s.owner[b] != e && s.cache[e].other in s.owner && s.owner[b] == s.owner[s.cache[e].other]
       case Flight(e) => Flushing(s.pc[e]) && s.owner[b] == s.pc[e].to
  }

  ghost predicate LinkOk(s: State, v: View, l: List, pos: nat, b: int)
    requires |s.cache| == |s.pc| && l.e < |s.cache|
  {
    b in s.next
    && if pos > 0 then OnList(v, l, s.next[b]) && v[s.next[b]].pos == pos - 1
       else if l.Flight? then Flushing(s.pc[l.e]) && b == s.pc[l.e].tail
       else s.next[b] == NULL
  }

  ghost predicate BufOk(c: Config, s: State, v: View, b: int)
    requires |s.cache| == |s.pc| == c.executors && b in v
  {
    b in s.owner && s.owner[b] < c.executors
    && match v[b]
    case AtUser => b in s.held
    case InHand(e) => e < c.executors && s.pc[e].Carving? && s.pc[e].i > 0 && b == s.pc[e].base && b !in s.held && s.owner[b] == e
    case Listed(l, pos) =>
      b !in s.held && l.e < c.executors && OwnerOk(s, l, b) && LinkOk(s, v, l, pos, b)
      && OnList(v, l, Head(s, l)) && pos <= v[Head(s, l)].pos
  }

  // Of the block at base, only the part below cur has been carved.
  ghost predicate CarvedBelow(v: View, base: int, cur: int) {
    forall b :: b in v && base <= b < base + GROW_SIZE ==> b < cur
  }

  ghost predicate PcOk(c: Config, s: State, v: View, e: nat)
    requires |s.cache| == |s.pc| == c.executors && e < c.executors
  {
    var p := s.pc[e];
    (p.PopSync? ==> p.ptr != NULL)
    && (p.PopSync? || p.PopReload? ==> s.cache[e].self == NULL && s.cache[e].sync != NULL)
    && (Flushing(p) ==> p.to < c.executors && p.to != e && p.head != NULL && v.Keys >= {p.tail} && v[p.tail] == Listed(Flight(e), 0))
    && (p.FlushCas? ==> p.tail in s.next && s.next[p.tail] == p.seen)
    && (p.Carving? ==> c.Ok() && p.base in s.regions && p.i <= c.Count() && p.cur == p.base + p.i * c.stride
                       && (p.i > 0 ==> p.base in v && v[p.base] == InHand(e))
                       && CarvedBelow(v, p.base, p.cur))
  }

  ghost predicate CacheOk(c: Config, s: State, v: View, e: nat)
    requires |s.cache| == |s.pc| == c.executors && e < c.executors
  {
    var k := s.cache[e];
    (k.self != NULL ==> OnList(v, Self(e), k.self))
    && (k.sync != NULL ==> OnList(v, Sync(e), k.sync))
    && (Flushing(s.pc[e]) ==> OnList(v, Flight(e), s.pc[e].head))
    && (k.other != NULL ==> OnList(v, Other(e), k.other) && k.otherTail in v && v[k.otherTail] == Listed(Other(e), 0)
                            && k.otherCount == v[k.other].pos + if k.flushed then 1 else 0)
    && k.otherCount <= OTHER_LIMIT
    && (k.other == NULL ==> k.otherCount == 0 && !k.flushed)
  }

  ghost predicate Housed(regions: set<int>, b: int) {
    exists r :: r in regions && r <= b < r + GROW_SIZE
  }

  ghost predicate Regions(c: Config, s: State, v: View)
    requires |s.cache| == |s.pc| == c.executors
  {
    (forall r, q :: r in s.regions && q in s.regions && r != q ==> r + GROW_SIZE <= q || q + GROW_SIZE <= r)
    && (forall r :: r in s.regions ==> r > NULL)
    && (forall b {:trigger Housed(s.regions, b)} :: b in v ==> Housed(s.regions, b))
    && (forall e, f :: 0 <= e < f < c.executors && s.pc[e].Carving? && s.pc[f].Carving? ==> s.pc[e].base != s.pc[f].base)
  }

  ghost predicate SamePlace(v: View, a: int, b: int) { a in v && b in v && v[a].Listed? && v[a] == v[b] }

  // No two buffers share a place on a list.
  ghost predicate OnePerPlace(v: View) {
    forall a, b {:trigger SamePlace(v, a, b)} :: SamePlace(v, a, b) ==> a == b
  }

  ghost predicate Domain(s: State, v: View) {
    v.Keys == s.owner.Keys == s.next.Keys && s.held <= v.Keys && (forall b :: b in s.held ==> b in v && v[b].AtUser?)
  }

  ghost predicate Explains(c: Config, s: State, v: View) {
    c.Ok() && |s.cache| == |s.pc| == c.executors
    && Domain(s, v) && Regions(c, s, v) && OnePerPlace(v)
    && (forall b {:trigger BufOk(c, s, v, b)} :: b in v ==> BufOk(c, s, v, b))
    && (forall e {:trigger PcOk(c, s, v, e)} {:trigger CacheOk(c, s, v, e)} ::
          0 <= e < c.executors ==> PcOk(c, s, v, e) && CacheOk(c, s, v, e))
  }

  ghost predicate Inv(c: Config, s: State) { exists v :: Explains(c, s, v) }
}
