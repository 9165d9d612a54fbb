/** The dependency graph of tasks by the addresses they read and write. Submission of one task is one step;
    between submissions executors take ready tasks, finish them and release their successors one by one. */
module TaskDag {
  import opened Division
  import opened Edges
  import opened Options

  const UINT32 := 0x1_0000_0000

  // A 64-bit address.
  datatype Addr = Addr(bits: bv64)

  const ALL_ADDR := Addr(0xFFFF_FFFF_FFFF_FFFF)

  datatype Kind = In | Out | InOut | All

  datatype Dep = Dep(addr: Addr, kind: Kind)

  // The last writer of an address and its readers since.
  datatype Entry = Entry(out: Option<nat>, ins: seq<nat>)

  datatype Stat = Waiting | Queued | Running | Finished

  // ----- what tasks do to addresses

  predicate IsAll(d: Dep) { d.kind.All? || d.addr == ALL_ADDR }

  // The task depends on everything.
  predicate AllTask(l: seq<Dep>) { exists d :: d in l && IsAll(d) }

  predicate Writes(l: seq<Dep>, a: Addr) { AllTask(l) || exists d :: d in l && d.addr == a && !d.kind.In? }

  predicate Touches(l: seq<Dep>, a: Addr) { AllTask(l) || exists d :: d in l && d.addr == a }

  lemma WritesTouches(l: seq<Dep>, a: Addr)
    ensures Writes(l, a) ==> Touches(l, a)
  {}

  /** Two tasks conflict if both touch an address and one of them writes it. */
  ghost predicate Conflict(l: seq<Dep>, m: seq<Dep>) {
    exists a :: Touches(l, a) && Touches(m, a) && (Writes(l, a) || Writes(m, a))
  }

  // Only addresses that are read may be repeated, unless a dependency on everything stands for the whole list.
  predicate RepeatsReads(l: seq<Dep>) {
    AllTask(l) || forall i, j :: 0 <= i < j < |l| && l[i].addr == l[j].addr ==> l[i].kind.In? && l[j].kind.In?
  }

  // A dependency on everything stands for the whole list.
  function Normal(l: seq<Dep>): seq<Dep> { if AllTask(l) then [Dep(ALL_ADDR, All)] else l }

  // Repeated addresses come with the same kind of access.
  predicate SameKinds(l: seq<Dep>) { forall i, j :: 0 <= i < j < |l| && l[i].addr == l[j].addr ==> l[i].kind == l[j].kind }

  // The bits of hash tell that an address is new.
  predicate NewBits(hash: bv64, a: Addr) { hash & a.bits != a.bits }

  /** Two lists stand for the same: they touch and write the same addresses. */
  ghost predicate SameUse(l: seq<Dep>, m: seq<Dep>) {
    forall a :: (Touches(l, a) <==> Touches(m, a)) && (Writes(l, a) <==> Writes(m, a))
  }

  /** Removing repeated addresses leaves a list that stands for the same. A dependency on everything replaces the
      list, and one entry is reported. Otherwise as many entries as there were are reported, but so many are left
      just when no address is repeated with another kind of access, and then nothing has been removed. */
  method RemoveDuplicates(l: seq<Dep>) returns (r: seq<Dep>, cnt: nat)
    ensures SameUse(r, l)
    ensures AllTask(l) ==> r == Normal(l) && cnt == 1
    ensures !AllTask(l) ==> cnt == |l| && |r| <= cnt && (|r| == cnt <==> SameKinds(l)) && (SameKinds(l) ==> r == l)
    ensures RepeatsReads(l) ==> r == Normal(l) && |r| == cnt
  {
    r, cnt := [], |l|;
    var hash: bv64 := 0;
    for i := 0 to |l|
      invariant cnt == |l| && Plain(l[..i]) && Plain(r) && SameUse(r, l[..i])
      invariant |r| <= i && (|r| == i <==> SameKinds(l[..i])) && (|r| == i ==> r == l[..i])
      invariant SeenBits(hash, r)
    {
      var d := l[i];
      assert l[..i + 1] == l[..i] + [d];
      if d.kind == All || d.addr == ALL_ADDR {
        assert d in l && IsAll(d);
        AllUse(l);
        return [Dep(ALL_ADDR, All)], 1;
      }
      ghost var before := r;
      r, hash := AddDep(r, hash, d);
      hide NewBits, AllTask, SameUse, Touches, Writes, Plain, Merged;
      MergeUse(before, l[..i], r, d);
      MergeKinds(l, i, before, r);
    }
    assert l[..|l|] == l;
    PlainUse(l, ALL_ADDR);
  }

  // A list for which more entries are reported than are left.
  method RepeatedExample() returns (l: seq<Dep>, r: seq<Dep>, cnt: nat)
    ensures l == [Dep(Addr(8), In), Dep(Addr(8), Out)] && !AllTask(l) && !SameKinds(l)
    ensures SameUse(r, l) && cnt == |l| && |r| == 1
  {
    l := [Dep(Addr(8), In), Dep(Addr(8), Out)];
    PlainUse(l, Addr(8));
    r, cnt := RemoveDuplicates(l);
    assert l[0].addr == l[1].addr && l[0].kind != l[1].kind;
    assert TouchedAt(l, Addr(8), 0);
    assert Touches(r, Addr(8)) && r != [];
  }

  lemma AllUse(l: seq<Dep>)
    requires AllTask(l)
    ensures SameUse([Dep(ALL_ADDR, All)], l)
  {
    assert AllTask([Dep(ALL_ADDR, All)]) by { assert Dep(ALL_ADDR, All) in [Dep(ALL_ADDR, All)]; }
  }

  /** One more dependency d is either appended or turns the access of an earlier entry into a write. */
  ghost predicate Merged(l: seq<Dep>, d: Dep, r: seq<Dep>) {
    r == l + [d] || exists j: nat :: j < |l| && l[j].addr == d.addr && l[j].kind != d.kind && r == l[j := l[j].(kind := Out)]
  }

  // No entry depends on everything.
  predicate Plain(l: seq<Dep>) { forall k :: 0 <= k < |l| ==> !IsAll(l[k]) }

  predicate TouchedAt(l: seq<Dep>, a: Addr, k: nat) { k < |l| && l[k].addr == a }

  predicate WrittenAt(l: seq<Dep>, a: Addr, k: nat) { k < |l| && l[k].addr == a && !l[k].kind.In? }

  lemma PlainUse(l: seq<Dep>, a: Addr)
    requires Plain(l)
    ensures !AllTask(l) && (Touches(l, a) <==> exists k: nat :: TouchedAt(l, a, k)) && (Writes(l, a) <==> exists k: nat :: WrittenAt(l, a, k))
  {
    forall k: nat ensures (TouchedAt(l, a, k) ==> Touches(l, a)) && (WrittenAt(l, a, k) ==> Writes(l, a)) {
      if TouchedAt(l, a, k) { assert l[k] in l; }
    }
    if Touches(l, a) {
      var d :| d in l && d.addr == a;
      var k: nat :| k < |l| && l[k] == d;
      assert TouchedAt(l, a, k);
    }
    if Writes(l, a) {
      var d :| d in l && d.addr == a && !d.kind.In?;
      var k: nat :| k < |l| && l[k] == d;
      assert WrittenAt(l, a, k);
    }
  }

  lemma AppendUse(l: seq<Dep>, d: Dep, a: Addr)
    requires Plain(l) && !IsAll(d)
    ensures Plain(l + [d]) && (Touches(l + [d], a) <==> Touches(l, a) || d.addr == a)
    ensures Writes(l + [d], a) <==> Writes(l, a) || (d.addr == a && !d.kind.In?)
  {
    PlainUse(l, a);
    PlainUse(l + [d], a);
    hide Touches, Writes, AllTask;
    forall k: nat ensures (TouchedAt(l + [d], a, k) <==> if k == |l| then d.addr == a else TouchedAt(l, a, k))
                          && (WrittenAt(l + [d], a, k) <==> if k == |l| then d.addr == a && !d.kind.In? else WrittenAt(l, a, k)) {}
  }

  lemma UpdateUse(l: seq<Dep>, j: nat, a: Addr)
    requires Plain(l) && j < |l|
    ensures var r := l[j := l[j].(kind := Out)];
            Plain(r) && (Touches(r, a) <==> Touches(l, a)) && (Writes(r, a) <==> Writes(l, a) || l[j].addr == a)
  {
    var r := l[j := l[j].(kind := Out)];
    PlainUse(l, a);
    PlainUse(r, a);
    hide Touches, Writes, AllTask;
    forall k: nat ensures (TouchedAt(r, a, k) <==> TouchedAt(l, a, k))
                          && (WrittenAt(r, a, k) <==> if k == j then l[j].addr == a else WrittenAt(l, a, k)) {}
    assert WrittenAt(r, a, j) <==> l[j].addr == a;
  }

  lemma MergeUse(l: seq<Dep>, m: seq<Dep>, r: seq<Dep>, d: Dep)
    requires SameUse(l, m) && Plain(l) && Plain(m) && Merged(l, d, r) && !IsAll(d)
    ensures SameUse(r, m + [d]) && Plain(r) && Plain(m + [d])
  {
    hide Touches, Writes, AllTask, IsAll;
    if r == l + [d] {
      forall a ensures (Touches(r, a) <==> Touches(m + [d], a)) && (Writes(r, a) <==> Writes(m + [d], a)) {
        AppendUse(l, d, a);
        AppendUse(m, d, a);
      }
      AppendUse(l, d, d.addr);
      AppendUse(m, d, d.addr);
    } else {
      var j: nat :| j < |l| && l[j].addr == d.addr && l[j].kind != d.kind && r == l[j := l[j].(kind := Out)];
      forall a ensures (Touches(r, a) <==> Touches(m + [d], a)) && (Writes(r, a) <==> Writes(m + [d], a)) {
        UpdateUse(l, j, a);
        AppendUse(m, d, a);
        PlainUse(l, a);
        assert TouchedAt(l, d.addr, j) && (!l[j].kind.In? ==> WrittenAt(l, d.addr, j));
      }
      UpdateUse(l, j, d.addr);
      AppendUse(m, d, d.addr);
    }
  }

  ghost predicate SeenBits(hash: bv64, l: seq<Dep>) { forall j :: 0 <= j < |l| ==> !NewBits(hash, l[j].addr) }

  // The bits of the addresses so far save the search for one that has a new bit.
  method AddDep(l: seq<Dep>, hash: bv64, d: Dep) returns (r: seq<Dep>, hash': bv64)
    requires SeenBits(hash, l)
    ensures SeenBits(hash', r) && Merged(l, d, r) && (|r| == |l| || r == l + [d])
    ensures |r| == |l| <==> exists j :: 0 <= j < |l| && FirstWith(l, d.addr, j) && l[j].kind != d.kind
  {
    hide *;
    if NewBits(hash, d.addr) {
      NewMore(hash, l, d);
      r, hash' := l + [d], hash | d.addr.bits;
    } else {
      r := Merge(l, d);
      hash' := hash;
      SeenMore(hash, l, d, r);
    }
  }

  lemma NewMore(hash: bv64, l: seq<Dep>, d: Dep)
    requires SeenBits(hash, l) && NewBits(hash, d.addr)
    ensures SeenBits(hash | d.addr.bits, l + [d]) && Merged(l, d, l + [d])
    ensures !exists j :: 0 <= j < |l| && FirstWith(l, d.addr, j) && l[j].kind != d.kind
  {
    BitsGrow(hash, d.addr);
    hide NewBits;
  }

  lemma SeenMore(hash: bv64, l: seq<Dep>, d: Dep, r: seq<Dep>)
    requires SeenBits(hash, l) && !NewBits(hash, d.addr) && Merged(l, d, r)
    ensures SeenBits(hash, r)
  {
    hide NewBits;
  }

  // One more dependency, searched for among those there are.
  method Merge(l: seq<Dep>, d: Dep) returns (r: seq<Dep>)
    ensures |r| >= |l| && forall k :: 0 <= k < |l| ==> r[k].addr == l[k].addr
    ensures |r| == |l| <==> exists j :: 0 <= j < |l| && FirstWith(l, d.addr, j) && l[j].kind != d.kind
    ensures |r| > |l| ==> r == l + [d]
    ensures Merged(l, d, r)
  {
    var j := 0;
    while j < |l| && l[j].addr != d.addr
      invariant j <= |l| && forall k :: 0 <= k < j ==> l[k].addr != d.addr
    {
      j := j + 1;
    }
    if j < |l| && l[j].kind != d.kind {
      assert FirstWith(l, d.addr, j);
      r := l[j := l[j].(kind := Out)];
    } else {
      r := l + [d];
    }
  }

  predicate FirstWith(l: seq<Dep>, a: Addr, j: nat)
    requires j < |l|
  {
    l[j].addr == a && forall k :: 0 <= k < j ==> l[k].addr != a
  }

  lemma MergeKinds(l: seq<Dep>, i: nat, before: seq<Dep>, r: seq<Dep>)
    requires i < |l| && |before| <= i && (|before| == i <==> SameKinds(l[..i])) && (|before| == i ==> before == l[..i])
    requires |r| == |before| || r == before + [l[i]]
    requires |before| == i ==> (|r| == i <==> exists j :: 0 <= j < i && FirstWith(before, l[i].addr, j) && before[j].kind != l[i].kind)
    ensures |r| <= i + 1 && (|r| == i + 1 <==> SameKinds(l[..i + 1])) && (|r| == i + 1 ==> r == l[..i + 1])
  {
    var m, d := l[..i], l[i];
    assert l[..i + 1] == m + [d];
    if SameKinds(m) && !SameKinds(m + [d]) {
      var j :| 0 <= j < i && m[j].addr == d.addr && m[j].kind != d.kind;
      var f := FirstIndex(m, d.addr, j);
      assert FirstWith(before, d.addr, f) && before[f].kind != d.kind;
    }
    if SameKinds(m + [d]) {
      forall a, b | 0 <= a < b < |m| && m[a].addr == m[b].addr ensures m[a].kind == m[b].kind { assert (m + [d])[a] == m[a] && (m + [d])[b] == m[b]; }
      forall f | 0 <= f < i && m[f].addr == d.addr ensures m[f].kind == d.kind { assert (m + [d])[f] == m[f] && (m + [d])[i] == d; }
    }
  }

  lemma {:induction false} FirstIndex(l: seq<Dep>, a: Addr, j: nat) returns (f: nat)
    requires j < |l| && l[j].addr == a
    ensures f <= j && FirstWith(l, a, f)
  {
    if k :| 0 <= k < j && l[k].addr == a { f := FirstIndex(l, a, k); } else { f := j; }
  }

  lemma BitsGrow(hash: bv64, a: Addr)
    ensures !NewBits(hash | a.bits, a) && forall b: Addr {:trigger NewBits(hash, b)} :: !NewBits(hash, b) ==> !NewBits(hash | a.bits, b)
  {}

  /** The test for readiness adds the links to a counter that holds them already and compares with their
      negative. Modulo 2^32 that succeeds for no number of links but zero. */
  lemma ReadyTest(n: nat)
    requires n < UINT32
    ensures (n + n) % UINT32 == (UINT32 - n) % UINT32 <==> n == 0
  {
    if (n + n) % UINT32 == (UINT32 - n) % UINT32 {
      assert (3 * n) % UINT32 == 0;
      var k := 3 * n / UINT32;
      assert 3 * n == k * UINT32 && 0 <= k <= 2;
    }
  }

  // ----- the invariant

  // i is x, or finishes before x may start.
  predicate Before(g: seq<set<nat>>, i: nat, x: nat) { i == x || (x < |g| && i in g[x]) }

  predicate Behind(stat: seq<Stat>, g: seq<set<nat>>, i: nat, x: Option<nat>)
    requires i < |stat|
  {
    stat[i].Finished? || (x.Some? && Before(g, i, x.value))
  }

  ghost predicate Counts(succ: seq<seq<nat>>, pred: seq<nat>) {
    |pred| == |succ|
    && (forall i, x :: 0 <= i < |succ| && x in succ[i] ==> i <= x < |succ|)
    && (forall j :: 0 <= j < |succ| ==> pred[j] == InDegree(succ, j, |succ|))
  }

  // j has a link, not yet released, to some p, and q is p or finishes before p starts.
  ghost predicate WaitsFor(succ: seq<seq<nat>>, g: seq<set<nat>>, q: nat, j: nat) {
    exists p: nat :: p < |succ| && j in succ[p] && Before(g, q, p)
  }

  // Whatever is to finish before j has finished, or j still waits for it.
  ghost predicate Known(succ: seq<seq<nat>>, stat: seq<Stat>, g: seq<set<nat>>, j: nat)
    requires j < |g|
  {
    forall q {:trigger q in g[j]} :: q in g[j] ==> q < j && q < |stat| && (stat[q].Finished? || WaitsFor(succ, g, q, j))
  }

  ghost predicate TasksOk(succ: seq<seq<nat>>, pred: seq<nat>, stat: seq<Stat>, g: seq<set<nat>>) {
    Counts(succ, pred) && |stat| == |g| == |succ|
    && forall j {:trigger Known(succ, stat, g, j)} :: 0 <= j < |g| ==> Known(succ, stat, g, j)
  }

  // Of the first m tasks those in a queue, running or done are the ones without predecessors.
  ghost predicate StatsOk(pred: seq<nat>, stat: seq<Stat>, bag: multiset<nat>, m: nat) {
    m <= |pred| && m <= |stat|
    && (forall j :: 0 <= j < m ==> (stat[j].Waiting? <==> pred[j] > 0))
    && (forall j: nat :: bag[j] == if j < m && stat[j].Queued? then 1 else 0)
  }

  // Whom of the first m tasks, as users of address a, the entry stands for.
  ghost predicate UserOk(deps: seq<seq<Dep>>, stat: seq<Stat>, g: seq<set<nat>>, a: Addr, e: Entry, i: nat)
    requires i < |deps| && i < |stat|
  {
    (Touches(deps[i], a) ==> i in e.ins || (Behind(stat, g, i, e.out) && forall r :: r in e.ins ==> Behind(stat, g, i, Some(r))))
    && (Writes(deps[i], a) ==> Behind(stat, g, i, e.out) && forall r :: r in e.ins ==> Behind(stat, g, i, Some(r)))
  }

  ghost predicate EntryOk(deps: seq<seq<Dep>>, stat: seq<Stat>, g: seq<set<nat>>, a: Addr, e: Entry, m: nat)
    requires m <= |deps| && m <= |stat|
  {
    (e.out.Some? ==> e.out.value < m && Writes(deps[e.out.value], a)) && (forall r :: r in e.ins ==> r < m && Touches(deps[r], a))
    && (a == ALL_ADDR ==> e.ins == [])
    && (forall i {:trigger UserOk(deps, stat, g, a, e, i)} :: 0 <= i < m ==> UserOk(deps, stat, g, a, e, i))
  }

  // Nobody waits for a task that it does not conflict with, itself aside.
  ghost predicate Justified(succ: seq<seq<nat>>, deps: seq<seq<Dep>>) {
    |deps| == |succ| && forall p, j {:trigger j in succ[p]} :: 0 <= p < |succ| && j in succ[p] && p != j ==> j < |deps| && Conflict(deps[p], deps[j])
  }

  // The newest task n has been linked behind unfinished tasks only.
  ghost predicate Fresh(succ: seq<seq<nat>>, stat: seq<Stat>, n: nat) {
    |stat| == |succ| && forall p {:trigger succ[p]} :: 0 <= p < |succ| && n in succ[p] ==> !stat[p].Finished?
  }

  lemma LinkJustified(succ: seq<seq<nat>>, deps: seq<seq<Dep>>, stat: seq<Stat>, p: nat, n: nat)
    requires Justified(succ, deps) && Fresh(succ, stat, n) && p < |succ| && n < |succ| && !stat[p].Finished?
    requires p != n ==> Conflict(deps[p], deps[n])
    ensures Justified(succ[p := [n] + succ[p]], deps) && Fresh(succ[p := [n] + succ[p]], stat, n)
  {
    hide Conflict;
  }

  lemma ReleaseJustified(succ: seq<seq<nat>>, deps: seq<seq<Dep>>, i: nat)
    requires Justified(succ, deps) && i < |succ| && |succ[i]| > 0
    ensures Justified(succ[i := succ[i][1..]], deps)
  {
    hide Conflict;
    forall j | j in succ[i][1..] ensures j in succ[i] {}
  }

  // Of the first n tasks all that conflict with l have finished.
  ghost predicate Unhindered(deps: seq<seq<Dep>>, stat: seq<Stat>, l: seq<Dep>, n: nat) {
    n <= |deps| && n <= |stat| && forall p :: 0 <= p < n && Conflict(deps[p], l) ==> stat[p].Finished?
  }

  lemma SameBefore(deps: seq<seq<Dep>>, stat: seq<Stat>, l: seq<Dep>, n: nat)
    requires |deps| == |stat| == n
    ensures Unhindered(deps + [l], stat + [Waiting], l, n) <==> Unhindered(deps, stat, l, n)
  {
    hide Conflict;
    forall p | 0 <= p < n ensures (deps + [l])[p] == deps[p] && (stat + [Waiting])[p] == stat[p] {}
  }

  lemma OnlyConflicts(succ: seq<seq<nat>>, deps: seq<seq<Dep>>, n: nat)
    requires Justified(succ, deps) && n < |succ|
    ensures |deps| == |succ| && forall p {:trigger succ[p]} :: 0 <= p < n && n in succ[p] ==> Conflict(deps[p], deps[n])
  {
    hide Conflict;
  }

  // Who writes an address conflicts with all that touch it.
  lemma UsersConflict(l: seq<Dep>, m: seq<Dep>, a: Addr)
    requires Touches(l, a) && Touches(m, a) && (Writes(l, a) || Writes(m, a))
    ensures Conflict(l, m)
  {}

  // No address has more than b readers on its list.
  ghost predicate InsBound(hash: map<Addr, Entry>, b: nat) { forall a {:trigger hash[a]} :: a in hash ==> |hash[a].ins| <= b }

  lemma InsGet(hash: map<Addr, Entry>, b: nat, a: Addr)
    requires InsBound(hash, b) && a in hash
    ensures |hash[a].ins| <= b
  {}

  lemma InsPut(hash: map<Addr, Entry>, b: nat, a: Addr, e: Entry)
    requires InsBound(hash, b) && |e.ins| <= b + 1
    ensures InsBound(hash[a := e], b + 1)
  {}

  // The addresses in done have entries.
  ghost predicate Entered(hash: map<Addr, Entry>, done: set<Addr>) { done <= hash.Keys }

  // Address a has an entry now, and otherwise the same addresses as before.
  ghost predicate OneKey(hash: map<Addr, Entry>, hash': map<Addr, Entry>, a: Addr) { hash'.Keys == hash.Keys + {a} }

  lemma KeyPut(hash: map<Addr, Entry>, hash': map<Addr, Entry>, a: Addr, e: Entry)
    requires OneKey(hash, hash', a)
    ensures OneKey(hash, hash'[a := e], a)
  {}

  lemma EnteredNext(hash: map<Addr, Entry>, hash': map<Addr, Entry>, done: set<Addr>, done': set<Addr>, a: Addr)
    requires Entered(hash, done) && OneKey(hash, hash', a) && done' == done + {a}
    ensures Entered(hash', done')
  {}

  // Addresses without an entry have only been touched by tasks that depend on everything.
  ghost predicate NoEntryOk(hash: map<Addr, Entry>, deps: seq<seq<Dep>>, m: nat)
    requires m <= |deps|
  {
    (forall i, a :: 0 <= i < m && a !in hash && Touches(deps[i], a) ==> AllTask(deps[i]))
    && (forall i :: 0 <= i < m && AllTask(deps[i]) ==> ALL_ADDR in hash)
  }

  ghost predicate HashOk(hash: map<Addr, Entry>, deps: seq<seq<Dep>>, stat: seq<Stat>, g: seq<set<nat>>, m: nat)
    requires m <= |deps| && m <= |stat|
  {
    (forall a {:trigger hash[a]} :: a in hash ==> EntryOk(deps, stat, g, a, hash[a], m)) && NoEntryOk(hash, deps, m)
  }

  ghost predicate OrderedAt(deps: seq<seq<Dep>>, stat: seq<Stat>, g: seq<set<nat>>, i: nat, j: nat)
    requires i < |deps| && j < |deps| && i < |stat|
  {
    Conflict(deps[i], deps[j]) ==> Behind(stat, g, i, Some(j))
  }

  // ----- facts about values

  // A task without predecessors left has everything before it finished.
  lemma AllBeforeFinished(succ: seq<seq<nat>>, pred: seq<nat>, stat: seq<Stat>, g: seq<set<nat>>, j: nat)
    requires TasksOk(succ, pred, stat, g) && j < |succ| && pred[j] == 0
    ensures forall q :: q in g[j] ==> q < |stat| && stat[q].Finished?
  {
    assert Known(succ, stat, g, j);
    forall q | q in g[j] ensures q < |stat| && stat[q].Finished? {
      if !stat[q].Finished? {
        var p: nat :| p < |succ| && j in succ[p] && Before(g, q, p);
        EdgeCounts(succ, j, |succ|, p);
      }
    }
  }

  // Linking n behind p, the newest task behind an older one that has not finished.
  lemma LinkOk(succ: seq<seq<nat>>, pred: seq<nat>, stat: seq<Stat>, g: seq<set<nat>>, p: nat, n: nat)
    requires TasksOk(succ, pred, stat, g) && p < n == |succ| - 1
    ensures TasksOk(succ[p := [n] + succ[p]], pred[n := pred[n] + 1], stat, g[n := g[n] + {p} + g[p]])
  {
    var succ', pred', g' := succ[p := [n] + succ[p]], pred[n := pred[n] + 1], g[n := g[n] + {p} + g[p]];
    forall j | 0 <= j < |succ| ensures pred'[j] == InDegree(succ', j, |succ|) {
      OneEdgeMore(succ, p, n, j, |succ|);
    }
    hide InDegree;
    forall j | 0 <= j < |g| ensures Known(succ', stat, g', j) {
      assert Known(succ, stat, g, j) && Known(succ, stat, g, p);
      forall q | q in g'[j] ensures q < j && (stat[q].Finished? || WaitsFor(succ', g', q, j)) {
        if q in g[j] {
          if !stat[q].Finished? {
            var x: nat :| x < |succ| && j in succ[x] && Before(g, q, x);
            assert x < |succ'| && j in succ'[x] && Before(g', q, x);
          }
        } else {
          assert p < |succ'| && j in succ'[p] && Before(g', q, p);
        }
      }
    }
  }

  // Linking n behind itself.
  lemma LinkSelf(succ: seq<seq<nat>>, pred: seq<nat>, stat: seq<Stat>, g: seq<set<nat>>, n: nat)
    requires TasksOk(succ, pred, stat, g) && n == |succ| - 1
    ensures TasksOk(succ[n := [n] + succ[n]], pred[n := pred[n] + 1], stat, g)
  {
    var succ', pred' := succ[n := [n] + succ[n]], pred[n := pred[n] + 1];
    forall j | 0 <= j < |succ| ensures pred'[j] == InDegree(succ', j, |succ|) {
      OneEdgeMore(succ, n, n, j, |succ|);
    }
    hide InDegree;
    forall j | 0 <= j < |g| ensures Known(succ', stat, g, j) {
      assert Known(succ, stat, g, j);
      forall q | q in g[j] ensures stat[q].Finished? || WaitsFor(succ', g, q, j) {
        if !stat[q].Finished? {
          var x: nat :| x < |succ| && j in succ[x] && Before(g, q, x);
          assert x < |succ'| && j in succ'[x] && Before(g, q, x);
        }
      }
    }
  }

  // ----- the newest task n collects what is to finish before it

  ghost predicate Grown(g: seq<set<nat>>, g': seq<set<nat>>, n: nat) {
    |g| == |g'| == n + 1 && g'[..n] == g[..n] && g[n] <= g'[n]
  }

  lemma NobodyCovers(stat: seq<Stat>, g: seq<set<nat>>, n: nat)
    requires n <= |stat|
    ensures Covers(stat, g, None, n)
  {}

  lemma GrownTrans(g: seq<set<nat>>, g': seq<set<nat>>, g'': seq<set<nat>>, n: nat)
    requires Grown(g, g', n) && Grown(g', g'', n)
    ensures Grown(g, g'', n)
  {}

  // Whatever x stands for finishes before n.
  ghost predicate Covers(stat: seq<Stat>, g: seq<set<nat>>, x: Option<nat>, n: nat)
    requires n <= |stat|
  {
    forall i: nat {:trigger Behind(stat, g, i, x)} :: i < n && Behind(stat, g, i, x) ==> Behind(stat, g, i, Some(n))
  }

  lemma BehindGrown(stat: seq<Stat>, g: seq<set<nat>>, g': seq<set<nat>>, n: nat, i: nat, x: Option<nat>)
    requires Grown(g, g', n) && |stat| == n + 1 && i <= n && Behind(stat, g, i, x)
    ensures Behind(stat, g', i, x)
    ensures x.Some? && x.value < n ==> (Behind(stat, g', i, x) <==> Behind(stat, g, i, x))
  {
    if x.Some? && x.value < n { assert g'[..n][x.value] == g[..n][x.value]; }
  }

  lemma CoversGrown(stat: seq<Stat>, g: seq<set<nat>>, g': seq<set<nat>>, n: nat, x: Option<nat>)
    requires Grown(g, g', n) && |stat| == n + 1 && Covers(stat, g, x, n) && (x.Some? ==> x.value < n)
    ensures Covers(stat, g', x, n)
  {
    forall i: nat | i < n && Behind(stat, g', i, x) ensures Behind(stat, g', i, Some(n)) {
      if x.Some? { assert g'[..n][x.value] == g[..n][x.value]; }
      assert Behind(stat, g, i, x);
      BehindGrown(stat, g, g', n, i, Some(n));
    }
  }

  lemma UserGrown(deps: seq<seq<Dep>>, stat: seq<Stat>, g: seq<set<nat>>, g': seq<set<nat>>, n: nat, a: Addr, e: Entry, i: nat)
    requires Grown(g, g', n) && |stat| == |deps| == n + 1 && i <= n && UserOk(deps, stat, g, a, e, i)
    ensures UserOk(deps, stat, g', a, e, i)
  {
    forall x: Option<nat> | Behind(stat, g, i, x) ensures Behind(stat, g', i, x) { BehindGrown(stat, g, g', n, i, x); }
    hide Touches, Writes;
    forall r | r in e.ins && Behind(stat, g, i, Some(r)) ensures Behind(stat, g', i, Some(r)) {}
  }

  lemma EntryGrown(deps: seq<seq<Dep>>, stat: seq<Stat>, g: seq<set<nat>>, g': seq<set<nat>>, n: nat, a: Addr, e: Entry, m: nat)
    requires Grown(g, g', n) && |stat| == |deps| == n + 1 && m <= n + 1 && EntryOk(deps, stat, g, a, e, m)
    ensures EntryOk(deps, stat, g', a, e, m)
  {
    hide UserOk;
    forall i | 0 <= i < m ensures UserOk(deps, stat, g', a, e, i) {
      assert UserOk(deps, stat, g, a, e, i);
      UserGrown(deps, stat, g, g', n, a, e, i);
    }
  }

  lemma LinkCovers(stat: seq<Stat>, g: seq<set<nat>>, p: nat, n: nat)
    requires p < n && |stat| == |g| == n + 1
    ensures var g' := g[n := g[n] + {p} + g[p]];
            Grown(g, g', n) && Covers(stat, g', Some(p), n)
  {}

  // What the newest task wrote is now behind it.
  lemma WrittenOk(deps: seq<seq<Dep>>, stat: seq<Stat>, g: seq<set<nat>>, a: Addr, n: nat)
    requires |stat| == |deps| == |g| == n + 1 && Writes(deps[n], a)
    requires forall i: nat {:trigger Touches(deps[i], a)} :: i < n && Touches(deps[i], a) ==> Behind(stat, g, i, Some(n))
    ensures EntryOk(deps, stat, g, a, Entry(Some(n), []), n + 1)
  {
    forall i | 0 <= i < n + 1 ensures UserOk(deps, stat, g, a, Entry(Some(n), []), i) {
      WritesTouches(deps[i], a);
    }
  }

  // The newest task has joined the readers.
  lemma ReadOk(deps: seq<seq<Dep>>, stat: seq<Stat>, g: seq<set<nat>>, a: Addr, e: Entry, n: nat)
    requires |stat| == |deps| == |g| == n + 1 && a != ALL_ADDR
    requires EntryOk(deps, stat, g, a, e, n) && Covers(stat, g, e.out, n) && Touches(deps[n], a) && !Writes(deps[n], a)
    ensures EntryOk(deps, stat, g, a, e.(ins := [n] + e.ins), n + 1)
  {
    var e' := e.(ins := [n] + e.ins);
    forall i | 0 <= i < n + 1 ensures UserOk(deps, stat, g, a, e', i) {
      if i < n {
        assert UserOk(deps, stat, g, a, e, i);
        assert Behind(stat, g, i, e.out) ==> Behind(stat, g, i, Some(n));
        hide Touches, Writes;
        forall r | r in e'.ins && (r in e.ins ==> Behind(stat, g, i, Some(r))) && Behind(stat, g, i, e.out) ensures Behind(stat, g, i, Some(r)) {}
      } else {
        assert e'.ins[0] == n;
      }
    }
  }

  // Whoever reads an address once more is on the list of its readers already.
  lemma ReadAgain(deps: seq<seq<Dep>>, succ: seq<seq<nat>>, pred: seq<nat>, stat: seq<Stat>, g: seq<set<nat>>, a: Addr, e: Entry, n: nat)
    requires TasksOk(succ, pred, stat, g) && |stat| == |deps| == n + 1 && stat[n].Waiting? && EntryOk(deps, stat, g, a, e, n + 1)
    requires Touches(deps[n], a) && !Writes(deps[n], a)
    ensures (e.out.Some? ==> e.out.value < n) && n in e.ins
  {
    assert UserOk(deps, stat, g, a, e, n);
    if e.out.Some? { assert e.out.value != n && Known(succ, stat, g, e.out.value); }
  }

  // Whoever writes an address once more is its last writer, and the only one on its list if there is any.
  lemma WriteAgain(deps: seq<seq<Dep>>, succ: seq<seq<nat>>, pred: seq<nat>, stat: seq<Stat>, g: seq<set<nat>>, a: Addr, e: Entry, n: nat)
    requires TasksOk(succ, pred, stat, g) && |stat| == |deps| == n + 1 && stat[n].Waiting? && EntryOk(deps, stat, g, a, e, n + 1)
    requires Writes(deps[n], a)
    ensures e.out == Some(n) && forall r :: r in e.ins ==> r == n
    ensures forall i: nat :: i < n && Touches(deps[i], a) ==> Behind(stat, g, i, Some(n))
  {
    assert UserOk(deps, stat, g, a, e, n);
    assert e.out == Some(n) by { assert Known(succ, stat, g, e.out.value); }
    forall r | r in e.ins ensures r == n { assert Known(succ, stat, g, r); }
    hide Writes;
    forall i: nat | i < n && Touches(deps[i], a) ensures Behind(stat, g, i, Some(n)) {
      assert UserOk(deps, stat, g, a, e, i);
    }
  }

  lemma SameReaders(deps: seq<seq<Dep>>, stat: seq<Stat>, g: seq<set<nat>>, a: Addr, e: Entry, e': Entry, m: nat)
    requires m <= |deps| && m <= |stat| && EntryOk(deps, stat, g, a, e, m) && a != ALL_ADDR
    requires e'.out == e.out && forall r :: r in e'.ins <==> r in e.ins
    ensures EntryOk(deps, stat, g, a, e', m)
  {
    hide Touches, Writes, Behind;
    forall i | 0 <= i < m ensures UserOk(deps, stat, g, a, e', i) { assert UserOk(deps, stat, g, a, e, i); }
  }

  // An address without an entry starts with the last task that depends on everything.
  lemma FreshEntryOk(hash: map<Addr, Entry>, deps: seq<seq<Dep>>, stat: seq<Stat>, g: seq<set<nat>>, a: Addr, n: nat)
    requires n <= |stat| && n <= |deps| && NoEntryOk(hash, deps, n) && a !in hash
    requires ALL_ADDR in hash ==> EntryOk(deps, stat, g, ALL_ADDR, hash[ALL_ADDR], n)
    ensures ALL_ADDR in hash ==> EntryOk(deps, stat, g, a, Entry(hash[ALL_ADDR].out, []), n)
    ensures ALL_ADDR !in hash ==> EntryOk(deps, stat, g, a, Entry(None, []), n)
  {
    if ALL_ADDR in hash {
      forall i | 0 <= i < n ensures UserOk(deps, stat, g, a, Entry(hash[ALL_ADDR].out, []), i) {
        assert UserOk(deps, stat, g, ALL_ADDR, hash[ALL_ADDR], i);
        WritesTouches(deps[i], a);
      }
    } else {
      forall i | 0 <= i < n ensures UserOk(deps, stat, g, a, Entry(None, []), i) {
        WritesTouches(deps[i], a);
      }
    }
  }

  // A last writer that has finished may be forgotten, and so may what is behind it.
  lemma ForgetOk(deps: seq<seq<Dep>>, stat: seq<Stat>, g: seq<set<nat>>, a: Addr, e: Entry, m: nat)
    requires m <= |stat| && m <= |deps| && EntryOk(deps, stat, g, a, e, m) && e.ins == [] && e.out.Some? && e.out.value < |g|
    requires stat[e.out.value].Finished? && forall q :: q in g[e.out.value] ==> q < |stat| && stat[q].Finished?
    ensures EntryOk(deps, stat, g, a, Entry(None, []), m)
  {
    forall i | 0 <= i < m ensures UserOk(deps, stat, g, a, Entry(None, []), i) {
      assert UserOk(deps, stat, g, a, e, i);
    }
  }

  // All earlier tasks that touch, or write, address a are behind the newest task n.
  ghost predicate TouchersBehind(deps: seq<seq<Dep>>, stat: seq<Stat>, g: seq<set<nat>>, a: Addr, n: nat)
    requires n <= |deps| && n <= |stat|
  {
    forall i: nat :: i < n && Touches(deps[i], a) ==> Behind(stat, g, i, Some(n))
  }

  ghost predicate WritersBehind(deps: seq<seq<Dep>>, stat: seq<Stat>, g: seq<set<nat>>, a: Addr, n: nat)
    requires n <= |deps| && n <= |stat|
  {
    forall i: nat :: i < n && Writes(deps[i], a) ==> Behind(stat, g, i, Some(n))
  }

  // ----- the steps on the graph alone

  datatype Graph = Graph(succ: seq<seq<nat>>, pred: seq<nat>, stat: seq<Stat>) {
    predicate Ok() { |pred| == |succ| == |stat| }
  }

  // Linking n behind p.
  function Linked(s: Graph, p: nat, n: nat): Graph
    requires s.Ok() && p < |s.succ| && n < |s.succ|
  {
    if s.stat[p].Finished? then s else s.(succ := s.succ[p := [n] + s.succ[p]], pred := s.pred[n := s.pred[n] + 1])
  }

  ghost predicate TakeStep(s: Graph, s': Graph, i: nat) {
    s.Ok() && i < |s.stat| && s.stat[i].Queued? && s' == s.(stat := s.stat[i := Running])
  }

  ghost predicate FinishStep(s: Graph, s': Graph, i: nat) {
    s.Ok() && i < |s.stat| && s.stat[i].Running? && s' == s.(stat := s.stat[i := Finished])
  }

  ghost predicate ReleaseStep(s: Graph, s': Graph, i: nat) {
    s.Ok() && i < |s.stat| && s.stat[i].Finished? && |s.succ[i]| > 0
    && var j := s.succ[i][0];
       j < |s.stat| && s.pred[j] > 0
       && s' == Graph(s.succ[i := s.succ[i][1..]], s.pred[j := s.pred[j] - 1], if s.pred[j] == 1 then s.stat[j := Queued] else s.stat)
  }

  // New links to n have come in front of a list.
  ghost predicate Extends(l: seq<nat>, l': seq<nat>, n: nat) {
    |l'| >= |l| && l'[|l'| - |l|..] == l && forall k :: 0 <= k < |l'| - |l| ==> l'[k] == n
  }

  // The newest task n has been linked behind some tasks, and behind itself if self; nothing else has changed.
  ghost predicate Links(s: Graph, s': Graph, n: nat, self: bool) {
    s.Ok() && s'.Ok() && |s.succ| == |s'.succ| == n + 1 && s'.stat == s.stat && s'.pred[..n] == s.pred[..n]
    && (forall p {:trigger s'.succ[p]} :: 0 <= p <= n ==> Extends(s.succ[p], s'.succ[p], n))
    && (n in s'.succ[n] <==> n in s.succ[n] || self)
  }

  lemma LinksTrans(a: Graph, b: Graph, c: Graph, n: nat, self: bool, more: bool)
    requires Links(a, b, n, self) && Links(b, c, n, more)
    ensures Links(a, c, n, self || more)
  {
    forall p {:trigger c.succ[p]} | 0 <= p <= n ensures Extends(a.succ[p], c.succ[p], n) {
      assert Extends(a.succ[p], b.succ[p], n) && Extends(b.succ[p], c.succ[p], n);
      ExtendsTrans(a.succ[p], b.succ[p], c.succ[p], n);
    }
  }

  lemma NoLinks(s: Graph, n: nat)
    requires s.Ok() && |s.succ| == n + 1
    ensures Links(s, s, n, false)
  {}

  lemma ExtendsTrans(a: seq<nat>, b: seq<nat>, c: seq<nat>, n: nat)
    requires Extends(a, b, n) && Extends(b, c, n)
    ensures Extends(a, c, n)
  {
    var k := |c| - |b|;
    assert c[|c| - |a|..] == c[k..][|b| - |a|..];
    forall i | 0 <= i < |c| - |a| ensures c[i] == n {
      if i >= k { assert c[i] == c[k..][i - k]; }
    }
  }

  lemma LinkedIs(s: Graph, p: nat, n: nat)
    requires s.Ok() && p < |s.succ| && n < |s.succ|
    ensures s.stat[p].Finished? ==> Linked(s, p, n) == s
    ensures !s.stat[p].Finished? ==> Linked(s, p, n) == Graph(s.succ[p := [n] + s.succ[p]], s.pred[n := s.pred[n] + 1], s.stat)
  {}

  lemma OneLink(s: Graph, p: nat, n: nat)
    requires s.Ok() && p <= n == |s.succ| - 1 && s.stat[n].Waiting?
    ensures Links(s, Linked(s, p, n), n, p == n)
  {}

  // The newest task, as yet without links.
  function Appended(s: Graph): Graph { Graph(s.succ + [[]], s.pred + [0], s.stat + [Waiting]) }

  // A task has been submitted: it is behind some of those there were, and behind itself if self.
  ghost predicate SubmitStep(s: Graph, s': Graph, self: bool) {
    var n := |s.succ|;
    s.Ok() && s'.Ok() && |s'.succ| == n + 1
    && s'.stat == s.stat + [if s'.pred[n] == 0 then Queued else Waiting]
    && Links(Appended(s), s'.(stat := s.stat + [Waiting]), n, self)
  }

  lemma Submitted(s: Graph, s1: Graph, s': Graph, self: bool)
    requires s.Ok() && var n := |s.succ|; Links(Appended(s), s1, n, self)
                                           && s' == s1.(stat := s1.stat[n := if s1.pred[n] == 0 then Queued else Waiting])
    ensures SubmitStep(s, s', self) && |s'.succ| == |s.succ| + 1 && (|s.succ| in s'.succ[|s.succ|] <==> self)
  {
    assert s'.(stat := s.stat + [Waiting]) == s1;
  }

  ghost predicate GraphStep(s: Graph, s': Graph) {
    (exists self: bool :: SubmitStep(s, s', self)) || exists i: nat :: TakeStep(s, s', i) || FinishStep(s, s', i) || ReleaseStep(s, s', i)
  }

  ghost predicate BehindItself(s: Graph, n: nat) {
    s.Ok() && n < |s.succ| && n in s.succ[n] && s.stat[n].Waiting? && s.pred[n] == InDegree(s.succ, n, |s.succ|)
  }

  lemma {:induction false} SameDegree(succ: seq<seq<nat>>, succ': seq<seq<nat>>, j: nat, n: nat, m: nat)
    requires m <= |succ| <= |succ'| && j != n && forall p :: 0 <= p < m ==> Extends(succ[p], succ'[p], n)
    ensures InDegree(succ', j, m) == InDegree(succ, j, m)
  {
    if m > 0 {
      SameDegree(succ, succ', j, n, m - 1);
      var l, l' := succ[m - 1], succ'[m - 1];
      assert l' == l'[..|l'| - |l|] + l;
    }
  }

  lemma SubmitKeeps(s: Graph, s': Graph, n: nat, self: bool)
    requires BehindItself(s, n) && SubmitStep(s, s', self)
    ensures BehindItself(s', n)
  {
    var m := |s.succ|;
    forall p | 0 <= p <= m ensures Extends((s.succ + [[]])[p], s'.succ[p], m) {}
    SameDegree(s.succ + [[]], s'.succ, n, m, m + 1);
    SamePrefix(s.succ, s.succ + [[]], n, m);
    assert Extends(s.succ[n], s'.succ[n], m);
    assert s'.pred[n] == s'.pred[..m][n] == (s.pred + [0])[..m][n];
  }

  lemma StaysBehind(s: Graph, s': Graph, n: nat)
    requires BehindItself(s, n) && GraphStep(s, s')
    ensures BehindItself(s', n)
  {
    if self: bool :| SubmitStep(s, s', self) {
      SubmitKeeps(s, s', n, self);
    } else {
      var i: nat :| TakeStep(s, s', i) || FinishStep(s, s', i) || ReleaseStep(s, s', i);
      if ReleaseStep(s, s', i) {
        OneEdgeLess(s.succ, i, n);
        EdgeCounts(s'.succ, n, |s'.succ|, n);
      }
    }
  }

  /** A task that has been linked behind itself never starts, whatever is submitted, taken, finished or released
      afterwards. */
  lemma {:induction false} NeverStarts(d: Dag, n: nat, tr: seq<Graph>, i: nat)
    requires d.Valid() && n < |d.succ| && n in d.succ[n]
    requires |tr| > 0 && tr[0] == d.View() && (forall k :: 0 <= k < |tr| - 1 ==> GraphStep(tr[k], tr[k + 1])) && i < |tr|
    ensures n < |tr[i].stat| && tr[i].stat[n].Waiting? && BehindItself(tr[i], n)
  {
    if i == 0 {
      EdgeCounts(d.succ, n, |d.succ|, n);
    } else {
      NeverStarts(d, n, tr, i - 1);
      assert GraphStep(tr[i - 1], tr[i]);
      StaysBehind(tr[i - 1], tr[i], n);
    }
  }

  // c entries have led to at most k links.
  ghost predicate AtMost(k: nat, c: nat, b: nat) { k <= c * (b + 1) }

  lemma AtMostNext(k: nat, one: nat, c: nat, b: nat)
    requires AtMost(k, c, b) && one <= b + 1
    ensures AtMost(k + one, c + 1, b)
  {
    MulNext(c + 1, b + 1);
  }

  lemma AtMostIs(k: nat, c: nat, b: nat)
    requires AtMost(k, c, b)
    ensures k <= c * (b + 1)
  {}

  // Of the keys, the c ones in done have been dealt with.
  ghost predicate Split(keys: set<Addr>, done: set<Addr>, todo: set<Addr>, c: nat) {
    done !! todo && done + todo == keys && |done| == c
  }

  lemma SplitNext(keys: set<Addr>, done: set<Addr>, todo: set<Addr>, c: nat, a: Addr)
    requires Split(keys, done, todo, c) && a in todo
    ensures a in keys && a !in done && Split(keys, done + {a}, todo - {a}, c + 1) && |todo - {a}| < |todo|
  {}

  lemma SplitEnds(keys: set<Addr>, done: set<Addr>, todo: set<Addr>, c: nat)
    requires Split(keys, done, todo, c) && todo == {}
    ensures done == keys && c == |keys|
  {}

  class Dag {
    var hash: map<Addr, Entry>
    var succ: seq<seq<nat>>       // successors not yet released, the latest first
    var pred: seq<nat>            // n_predecessors
    var stat: seq<Stat>
    var bag: multiset<nat>        // the scheduler
    ghost var deps: seq<seq<Dep>> // what each task was submitted with
    ghost var g: seq<set<nat>>    // whom each task was made to wait for, directly or not

    ghost function View(): Graph
      reads this`succ, this`pred, this`stat
    {
      Graph(succ, pred, stat)
    }

    // Every two conflicting tasks are ordered: the earlier has finished or is to finish before the later starts.
    ghost predicate Valid()
      reads this
    {
      TasksOk(succ, pred, stat, g) && |deps| == |succ| && StatsOk(pred, stat, bag, |succ|)
      && HashOk(hash, deps, stat, g, |succ|) && OldOrdered(deps, stat, g, |succ|) && Justified(succ, deps)
    }

    // Task n is being submitted.
    ghost predicate Mid(n: nat)
      reads this`succ, this`pred, this`stat, this`bag, this`deps, this`g
    {
      TasksOk(succ, pred, stat, g) && |deps| == |succ| == n + 1 && StatsOk(pred, stat, bag, n) && stat[n].Waiting?
      && Justified(succ, deps) && Fresh(succ, stat, n)
    }

    constructor ()
      ensures Valid() && stat == [] && deps == [] && hash == map[]
    {
      hash, succ, pred, stat, bag := map[], [], [], [], multiset{};
      deps, g := [], [];
    }

    // Puts the new task behind p, which may be itself, unless p has finished.
    method Precede(p: Option<nat>, n: nat) returns (k: nat)
      requires Mid(n) && (p.Some? ==> p.value <= n && (p.value < n ==> Conflict(deps[p.value], deps[n])))
      modifies this`succ, this`pred, this`g
      ensures Mid(n) && Grown(old(g), g, n) && Covers(stat, g, p, n)
      ensures k <= 1 && pred[n] == old(pred[n]) + k
      ensures old(View()).Ok() && View() == if p.None? then old(View()) else Linked(old(View()), p.value, n)
      ensures Links(old(View()), View(), n, p == Some(n))
    {
      hide TasksOk, StatsOk, Grown, Covers, Links, Linked, Justified, Fresh, Conflict;
      LengthsNow(n);
      Unmoved(n);
      if p.None? {
        NobodyCovers(stat, g, n);
        return 0;
      }
      LinkedIs(View(), p.value, n);
      if stat[p.value].Finished? {
        FinishedCovers(succ, pred, stat, g, bag, p.value, n);
        return 0;
      }
      OneLink(View(), p.value, n);
      LinkNow(p.value, n);
      if p.value < n { g := g[n := g[n] + {p.value} + g[p.value]]; }
      succ := succ[p.value := [n] + succ[p.value]];
      pred := pred[n := pred[n] + 1];
      return 1;
    }

    lemma LengthsNow(n: nat)
      requires Mid(n)
      ensures |succ| == |pred| == |stat| == |deps| == |g| == n + 1
    {
      TasksLengths(succ, pred, stat, g);
    }

    lemma Unmoved(n: nat)
      requires Mid(n)
      ensures Grown(g, g, n) && Links(View(), View(), n, false)
    {
      TasksLengths(succ, pred, stat, g);
    }

    lemma LinkNow(p: nat, n: nat)
      requires Mid(n) && p <= n && p < |succ| && n < |succ| && n < |pred| && p < |g| && n < |g| && p < |stat| && !stat[p].Finished?
      requires p < n ==> Conflict(deps[p], deps[n])
      ensures var g' := if p < n then g[n := g[n] + {p} + g[p]] else g;
              TasksOk(succ[p := [n] + succ[p]], pred[n := pred[n] + 1], stat, g') && StatsOk(pred[n := pred[n] + 1], stat, bag, n)
              && Grown(g, g', n) && Covers(stat, g', Some(p), n)
              && Justified(succ[p := [n] + succ[p]], deps) && Fresh(succ[p := [n] + succ[p]], stat, n)
    {
      LengthsNow(n);
      LinkJustified(succ, deps, stat, p, n);
      StatsIgnoreLast(pred, pred[n := pred[n] + 1], stat, bag, n);
      if p < n {
        LinkOk(succ, pred, stat, g, p, n);
        LinkCovers(stat, g, p, n);
      } else {
        LinkSelf(succ, pred, stat, g, n);
      }
    }

    // Puts the new task behind all tasks of a list, which has only the new task itself the second time.
    method PrecedeAll(ins: seq<nat>, n: nat, ghost again: bool) returns (k: nat)
      requires Mid(n) && forall r :: r in ins ==> if again then r == n else r < n && Conflict(deps[r], deps[n])
      modifies this`succ, this`pred, this`g
      ensures Mid(n) && Grown(old(g), g, n) && Links(old(View()), View(), n, again && ins != [])
      ensures k <= |ins| && pred[n] == old(pred[n]) + k
      ensures !again ==> forall y :: 0 <= y < |ins| ==> Covers(stat, g, Some(ins[y]), n)
    {
      hide *;
      LengthsNow(n);
      Unmoved(n);
      ghost var g0, s0 := g, View();
      k := 0;
      for x := 0 to |ins|
        invariant |pred| == |stat| == n + 1
        invariant Mid(n) && Grown(g0, g, n) && k <= x && pred[n] == old(pred[n]) + k
        invariant Links(s0, View(), n, again && x > 0)
        invariant !again ==> forall y :: 0 <= y < x ==> Covers(stat, g, Some(ins[y]), n)
      {
        ghost var g1, s1 := g, View();
        assert ins[x] in ins;
        var one := Precede(Some(ins[x]), n);
        k := k + one;
        LengthsNow(n);
        LinksTrans(s0, s1, View(), n, again && x > 0, again);
        GrownTrans(g0, g1, g, n);
        if !again {
          forall y | 0 <= y < x ensures Covers(stat, g, Some(ins[y]), n) {
            assert ins[y] in ins;
            CoversGrown(stat, g1, g, n, Some(ins[y]));
          }
        }
      }
    }

    // The new task writes an address, maybe once again: it goes behind the readers, or behind the last writer if there
    // are none. The second time that is itself.
    method DepOut(ghost a: Addr, e: Entry, n: nat, ghost again: bool) returns (k: nat, e': Entry)
      requires Mid(n) && EntryOk(deps, stat, g, a, e, if again then n + 1 else n) && Writes(deps[n], a)
      modifies this`succ, this`pred, this`g
      ensures Mid(n) && Grown(old(g), g, n) && e' == Entry(Some(n), [])
      ensures k <= |e.ins| + 1 && pred[n] == old(pred[n]) + k
      ensures EntryOk(deps, stat, g, a, e', n + 1)
      ensures TouchersBehind(deps, stat, g, a, n)
      ensures Links(old(View()), View(), n, again)
    {
      TasksLengths(succ, pred, stat, g);
      ghost var g0 := g;
      if again { WriteAgain(deps, succ, pred, stat, g, a, e, n); }
      hide TasksOk, StatsOk, Covers, Behind, Links, Linked, Grown;
      if e.ins != [] {
        k := PrecedeAll(e.ins, n, again);
      } else {
        k := Precede(e.out, n);
      }
      TasksLengths(succ, pred, stat, g);
      EntryGrown(deps, stat, g0, g, n, a, e, if again then n + 1 else n);
      if again { WriteAgain(deps, succ, pred, stat, g, a, e, n); } else { AllUsersCovered(deps, stat, g, a, e, n); }
      WrittenOk(deps, stat, g, a, n);
      e' := Entry(Some(n), []);
    }

    // The new task reads an address, maybe once again: it goes behind the last writer.
    method DepIn(ghost a: Addr, e: Entry, n: nat, ghost again: bool) returns (k: nat, e': Entry)
      requires Mid(n) && a != ALL_ADDR && Touches(deps[n], a) && !Writes(deps[n], a)
      requires EntryOk(deps, stat, g, a, e, if again then n + 1 else n)
      modifies this`succ, this`pred, this`g
      ensures Mid(n) && Grown(old(g), g, n) && e' == e.(ins := [n] + e.ins)
      ensures k <= 1 && pred[n] == old(pred[n]) + k
      ensures EntryOk(deps, stat, g, a, e', n + 1)
      ensures WritersBehind(deps, stat, g, a, n)
      ensures Links(old(View()), View(), n, false)
    {
      hide TasksOk, StatsOk, Behind;
      TasksLengths(succ, pred, stat, g);
      ghost var g0 := g;
      if again { ReadAgain(deps, succ, pred, stat, g, a, e, n); }
      k := Precede(e.out, n);
      TasksLengths(succ, pred, stat, g);
      e' := e.(ins := [n] + e.ins);
      EntryGrown(deps, stat, g0, g, n, a, e, if again then n + 1 else n);
      if again { SameReaders(deps, stat, g, a, e, e', n + 1); } else { ReadOk(deps, stat, g, a, e, n); }
      forall i: nat | i < n && Writes(deps[i], a) ensures Behind(stat, g, i, Some(n)) {
        assert UserOk(deps, stat, g, a, e, i);
      }
    }

    // The entry of an address that has none yet.
    method NewEntry(ghost done: set<Addr>, a: Addr, n: nat, ghost b: nat) returns (e: Entry)
      requires Mid(n) && HashMid(hash, deps, stat, g, done, n) && a !in hash && a !in done && ALL_ADDR !in done && InsBound(hash, b)
      modifies this`hash
      ensures HashMid(hash, deps, stat, g, done, n) && a in hash && hash[a] == e && hash.Keys == old(hash).Keys + {a}
      ensures e.ins == [] && InsBound(hash, b)
    {
      hide TasksOk, StatsOk, EntryOk, HashMid;
      TasksLengths(succ, pred, stat, g);
      e := Entry(None, []);
      MidFresh(hash, deps, stat, g, done, n, a);
      if ALL_ADDR in hash && hash[ALL_ADDR].out.Some? {
        var all := hash[ALL_ADDR];
        MidGet(hash, deps, stat, g, done, n, ALL_ADDR);
        EntryBounds(deps, stat, g, ALL_ADDR, all, n);
        if stat[all.out.value].Finished? {
          AllFinished(succ, pred, stat, g, bag, all.out.value, n);
          ForgetOk(deps, stat, g, ALL_ADDR, all, n);
          MidPut(hash, deps, stat, g, done, n, ALL_ADDR, all.(out := None));
          hash := hash[ALL_ADDR := all.(out := None)];
          MidFresh(hash, deps, stat, g, done, n, a);
        } else {
          e := e.(out := all.out);
        }
      }
      MidPut(hash, deps, stat, g, done, n, a, e);
      hash := hash[a := e];
    }

    // The entry of an address.
    method FindEntry(ghost done: set<Addr>, a: Addr, n: nat, ghost b: nat) returns (e: Entry)
      requires Mid(n) && HashMid(hash, deps, stat, g, done, n) && Entered(hash, done) && ALL_ADDR !in done && InsBound(hash, b)
      modifies this`hash
      ensures HashMid(hash, deps, stat, g, done, n) && OneKey(old(hash), hash, a) && InsBound(hash, b)
      ensures |deps| == |stat| == n + 1 && EntryOk(deps, stat, g, a, e, if a in done then n + 1 else n) && |e.ins| <= b
    {
      LengthsNow(n);
      assert a in done ==> a in hash;
      hide Entered, HashMid, EntryOk, InsBound;
      if a in hash {
        e := hash[a];
      } else {
        e := NewEntry(done, a, n, b);
      }
      MidGet(hash, deps, stat, g, done, n, a);
      InsGet(hash, b, a);
    }

    // The new task reads or writes the address that has entry e, maybe once again.
    method Access(d: Dep, e: Entry, n: nat, ghost again: bool) returns (k: nat, e': Entry)
      requires Mid(n) && d in deps[n] && !IsAll(d) && (d.kind.In? ==> !Writes(deps[n], d.addr))
      requires EntryOk(deps, stat, g, d.addr, e, if again then n + 1 else n)
      modifies this`succ, this`pred, this`g
      ensures Mid(n) && Grown(old(g), g, n) && |stat| == n + 1 && EntryOk(deps, stat, g, d.addr, e', n + 1) && |e'.ins| <= |e.ins| + 1
      ensures k <= |e.ins| + 1 && |pred| == n + 1 && pred[n] == old(pred[n]) + k
      ensures AllHandledFor(deps, stat, g, d, n)
      ensures Links(old(View()), View(), n, !d.kind.In? && again)
    {
      LengthsNow(n);
      hide *;
      UseOf(deps[n], d);
      if d.kind.In? {
        k, e' := DepIn(d.addr, e, n, again);
      } else {
        k, e' := DepOut(d.addr, e, n, again);
      }
      LengthsNow(n);
      HandledNow(deps, stat, g, d, n);
    }

    // The new task has been entered at address a; before that the entries were as good with g0.
    method Store(ghost done: set<Addr>, a: Addr, e: Entry, n: nat, ghost b: nat, ghost g0: seq<set<nat>>, ghost hash0: map<Addr, Entry>)
      requires Mid(n) && |stat| == n + 1 && HashMid(hash, deps, stat, g0, done, n) && Grown(g0, g, n) && EntryOk(deps, stat, g, a, e, n + 1)
      requires InsBound(hash, b) && |e.ins| <= b + 1 && OneKey(hash0, hash, a)
      modifies this`hash
      ensures Mid(n) && HashMid(hash, deps, stat, g, done + {a}, n) && InsBound(hash, b + 1) && OneKey(hash0, hash, a)
    {
      hide *;
      MidSet(hash, deps, stat, g0, g, done, n, a, e);
      InsPut(hash, b, a, e);
      KeyPut(hash0, hash, a, e);
      hash := hash[a := e];
    }

    /** One dependency of the new task: whoever conflicts with it at that address is behind it afterwards. */
    method ProcessDep(ghost done: set<Addr>, d: Dep, n: nat, ghost b: nat) returns (k: nat)
      requires Mid(n) && HashMid(hash, deps, stat, g, done, n) && Entered(hash, done) && ALL_ADDR !in done && InsBound(hash, b)
      requires d in deps[n] && !IsAll(d) && (d.kind.In? ==> !Writes(deps[n], d.addr))
      modifies this`hash, this`succ, this`pred, this`g
      ensures Mid(n) && HashMid(hash, deps, stat, g, done + {d.addr}, n) && Grown(old(g), g, n)
      ensures OneKey(old(hash), hash, d.addr) && InsBound(hash, b + 1)
      ensures k <= b + 1 && |pred| == n + 1 && pred[n] == old(pred[n]) + k
      ensures |stat| == n + 1 && AllHandledFor(deps, stat, g, d, n)
      ensures Links(old(View()), View(), n, !d.kind.In? && d.addr in done)
    {
      LengthsNow(n);
      hide *;
      ghost var g0, hash0 := g, hash;
      var e := FindEntry(done, d.addr, n, b);
      k, e := Access(d, e, n, d.addr in done);
      Store(done, d.addr, e, n, b, g0, hash0);
    }

    // The new task becomes the last writer of an address that has an entry.
    method Overwrite(ghost done: set<Addr>, a: Addr, n: nat, ghost b: nat) returns (k: nat)
      requires Mid(n) && AllTask(deps[n]) && InsBound(hash, b) && HashMid(hash, deps, stat, g, done, n) && AllHandled(deps, stat, g, done, n) && a in hash && a !in done
      modifies this`hash, this`succ, this`pred, this`g
      ensures Mid(n) && HashMid(hash, deps, stat, g, done + {a}, n) && AllHandled(deps, stat, g, done + {a}, n)
      ensures Grown(old(g), g, n) && hash.Keys == old(hash).Keys && InsBound(hash, b)
      ensures k <= b + 1 && |pred| == n + 1 && pred[n] == old(pred[n]) + k
      ensures Links(old(View()), View(), n, false)
    {
      hide TasksOk, StatsOk, EntryOk, Touches, Behind, HashMid, AllHandled, Grown, Links;
      ghost var g0 := g;
      TasksLengths(succ, pred, stat, g);
      MidGet(hash, deps, stat, g, done, n, a);
      var e;
      k, e := DepOut(a, hash[a], n, false);
      TasksLengths(succ, pred, stat, g);
      MidSet(hash, deps, stat, g0, g, done, n, a, e);
      HandledMore(deps, stat, g0, g, done, a, n);
      hash := hash[a := e];
    }

    /** A dependency on everything: every earlier task that touches anything is behind the new one. */
    method ProcessAll(n: nat, ghost b: nat) returns (k: nat)
      requires Mid(n) && HashMid(hash, deps, stat, g, {}, n) && AllTask(deps[n]) && InsBound(hash, b)
      modifies this`hash, this`succ, this`pred, this`g
      ensures Mid(n) && Grown(old(g), g, n) && HashOk(hash, deps, stat, g, n + 1) && InsBound(hash, b)
      ensures k <= (|old(hash)| + 1) * (b + 1) && pred[n] == old(pred[n]) + k
      ensures forall i: nat {:trigger OrderedAt(deps, stat, g, i, n)} :: i < n ==> OrderedAt(deps, stat, g, i, n)
      ensures Links(old(View()), View(), n, false)
    {
      hide TasksOk, StatsOk, EntryOk, Touches, Behind, OrderedAt, HashMid, HashOk, Writes, Links;
      TasksLengths(succ, pred, stat, g);
      if ALL_ADDR !in hash {
        MidFresh(hash, deps, stat, g, {}, n, ALL_ADDR);
        MidPut(hash, deps, stat, g, {}, n, ALL_ADDR, Entry(None, []));
        hash := hash[ALL_ADDR := Entry(None, [])];
      }
      KeysBound(old(hash), hash, ALL_ADDR);
      k := OverwriteAll(n, b);
      AtMostIs(k, |hash.Keys|, b);
      MulMono(|hash.Keys|, |old(hash)| + 1, b + 1);
      TasksLengths(succ, pred, stat, g);
      MidAll(hash, deps, stat, g, n);
    }

    // Before the new task has dealt with any entry.
    lemma WayBegins(n: nat, b: nat)
      requires Mid(n)
      ensures |succ| == |pred| == |stat| == |deps| == n + 1 && AllHandled(deps, stat, g, {}, n) && Grown(g, g, n)
      ensures Links(View(), View(), n, false) && AtMost(0, 0, b) && Split(hash.Keys, {}, hash.Keys, 0)
    {
      TasksLengths(succ, pred, stat, g);
      Unmoved(n);
    }

    // One more entry on the way of the new task through all of them; the way began with the links s0 and g0.
    method OverwriteNext(ghost done: set<Addr>, a: Addr, n: nat, ghost b: nat, ghost s0: Graph, ghost g0: seq<set<nat>>) returns (k: nat)
      requires Mid(n) && AllTask(deps[n]) && InsBound(hash, b) && HashMid(hash, deps, stat, g, done, n) && AllHandled(deps, stat, g, done, n)
      requires a in hash && a !in done && Links(s0, View(), n, false) && Grown(g0, g, n)
      modifies this`hash, this`succ, this`pred, this`g
      ensures Mid(n) && HashMid(hash, deps, stat, g, done + {a}, n) && AllHandled(deps, stat, g, done + {a}, n)
      ensures hash.Keys == old(hash).Keys && InsBound(hash, b) && Links(s0, View(), n, false) && Grown(g0, g, n)
      ensures k <= b + 1 && |pred| == n + 1 && pred[n] == old(pred[n]) + k
    {
      ghost var s1, g1 := View(), g;
      hide TasksOk, StatsOk, EntryOk, Touches, Behind, HashMid, AllHandled, Grown, Links, InsBound, Linked;
      k := Overwrite(done, a, n, b);
      LinksTrans(s0, s1, View(), n, false, false);
      GrownTrans(g0, g1, g, n);
    }

    // The entries are visited in no particular order.
    method OverwriteAll(n: nat, ghost b: nat) returns (k: nat)
      requires Mid(n) && HashMid(hash, deps, stat, g, {}, n) && AllTask(deps[n]) && InsBound(hash, b)
      modifies this`hash, this`succ, this`pred, this`g
      ensures Mid(n) && Grown(old(g), g, n) && hash.Keys == old(hash).Keys && InsBound(hash, b)
      ensures HashMid(hash, deps, stat, g, hash.Keys, n) && AllHandled(deps, stat, g, hash.Keys, n)
      ensures AtMost(k, |hash.Keys|, b) && |pred| == n + 1 && pred[n] == old(pred[n]) + k
      ensures Links(old(View()), View(), n, false)
    {
      hide *;
      WayBegins(n, b);
      var todo := hash.Keys;
      k := 0;
      ghost var keys, done: set<Addr>, c: nat, s0, g0 := hash.Keys, {}, 0, View(), g;
      while todo != {}
        invariant |stat| == |pred| == |deps| == n + 1 && hash.Keys == keys && Split(keys, done, todo, c)
        invariant Mid(n) && Grown(g0, g, n) && Links(s0, View(), n, false) && InsBound(hash, b) && AllTask(deps[n])
        invariant HashMid(hash, deps, stat, g, done, n) && AllHandled(deps, stat, g, done, n)
        invariant AtMost(k, c, b) && pred[n] == old(pred[n]) + k
        decreases |todo|
      {
        var a :| a in todo;
        SplitNext(keys, done, todo, c, a);
        var one := OverwriteNext(done, a, n, b, s0, g0);
        AtMostNext(k, one, c, b);
        k := k + one;
        todo, done, c := todo - {a}, done + {a}, c + 1;
      }
      SplitEnds(keys, done, todo, c);
    }

    // One more dependency of the list; submission began with the links s0 and g0.
    method ListNext(l: seq<Dep>, i: nat, ghost done: set<Addr>, n: nat, ghost b: nat, ghost s0: Graph, ghost g0: seq<set<nat>>)
      returns (k: nat)
      requires Mid(n) && HashMid(hash, deps, stat, g, done, n) && deps[n] == l && !AllTask(l) && SameKinds(l) && InsBound(hash, b)
      requires i < |l| && done == AddrsOf(l[..i]) && Entered(hash, done) && HandledUpTo(deps, stat, g, l, i, n)
      requires Links(s0, View(), n, WroteAgain(l, i)) && Grown(g0, g, n)
      modifies this`hash, this`succ, this`pred, this`g
      ensures Mid(n) && HashMid(hash, deps, stat, g, AddrsOf(l[..i + 1]), n) && Entered(hash, AddrsOf(l[..i + 1])) && InsBound(hash, b + 1)
      ensures |succ| == |pred| == |stat| == |deps| == n + 1 && HandledUpTo(deps, stat, g, l, i + 1, n)
      ensures Links(s0, View(), n, WroteAgain(l, i + 1)) && Grown(g0, g, n)
      ensures k <= b + 1 && pred[n] == old(pred[n]) + k
    {
      LengthsNow(n);
      ghost var g1, s1, hash1 := g, View(), hash;
      hide *;
      DepFacts(l, i);
      k := ProcessDep(done, l[i], n, b);
      LengthsNow(n);
      LinksTrans(s0, s1, View(), n, WroteAgain(l, i), WritesAgain(l, i));
      GrownTrans(g0, g1, g, n);
      HandledNext(deps, stat, g1, g, l, i, n);
      EnteredNext(hash1, hash, done, AddrsOf(l[..i + 1]), l[i].addr);
    }

    /** The dependencies of the new task, one by one. */
    method ProcessList(l: seq<Dep>, n: nat, ghost b: nat) returns (k: nat)
      requires Mid(n) && HashMid(hash, deps, stat, g, {}, n) && deps[n] == l && !AllTask(l) && SameKinds(l) && InsBound(hash, b)
      modifies this`hash, this`succ, this`pred, this`g
      ensures Mid(n) && Grown(old(g), g, n) && HashOk(hash, deps, stat, g, n + 1) && InsBound(hash, b + |l|)
      ensures k <= |l| * (b + |l| + 1) && pred[n] == old(pred[n]) + k
      ensures forall i: nat {:trigger OrderedAt(deps, stat, g, i, n)} :: i < n ==> OrderedAt(deps, stat, g, i, n)
      ensures Links(old(View()), View(), n, !RepeatsReads(l))
    {
      hide *;
      WayBegins(n, b + |l|);
      ghost var s0, g0 := View(), g;
      ListBegins(hash, deps, stat, g, l, n);
      k := 0;
      for i := 0 to |l|
        invariant |succ| == |pred| == |stat| == |deps| == n + 1 && deps[n] == l && !AllTask(l) && SameKinds(l)
        invariant Mid(n) && Grown(g0, g, n) && HashMid(hash, deps, stat, g, AddrsOf(l[..i]), n) && Entered(hash, AddrsOf(l[..i]))
        invariant InsBound(hash, b + i) && AtMost(k, i, b + |l|) && pred[n] == old(pred[n]) + k
        invariant HandledUpTo(deps, stat, g, l, i, n) && Links(s0, View(), n, WroteAgain(l, i))
      {
        var one := ListNext(l, i, AddrsOf(l[..i]), n, b + i, s0, g0);
        AtMostNext(k, one, i, b + |l|);
        k := k + one;
      }
      AtMostIs(k, |l|, b + |l|);
      ListEnds(l);
      MidList(hash, deps, stat, g, n);
    }

    // The new task, as yet without dependencies.
    method Append(l: seq<Dep>) returns (n: nat)
      requires Valid()
      modifies this`succ, this`pred, this`stat, this`deps, this`g
      ensures n == |old(stat)| == |old(succ)| && Mid(n) && pred[n] == 0
      ensures View() == Appended(old(View())) && deps == old(deps) + [l]
      ensures HashMid(hash, deps, stat, g, {}, n) && OldOrdered(deps, stat, g, n)
    {
      hide TasksOk, StatsOk, HashOk, HashMid, OldOrdered;
      n := |succ|;
      TasksLengths(succ, pred, stat, g);
      AppendTasks(succ, pred, stat, g, bag, n);
      AppendHash(hash, deps, stat, g, l, n);
      AppendOrdered(deps, stat, g, l, n);
      succ, pred, stat := succ + [[]], pred + [0], stat + [Waiting];
      deps, g := deps + [l], g + [{}];
    }

    // The test for readiness, and the hand-over to the scheduler.
    method Schedule(n: nat, count: nat) returns (ready: bool)
      requires Mid(n) && pred[n] == count < UINT32 && HashOk(hash, deps, stat, g, n + 1) && OldOrdered(deps, stat, g, n + 1)
      modifies this`stat, this`bag
      ensures Valid() && |stat| == n + 1 && stat == old(stat)[n := if ready then Queued else Waiting]
      ensures |succ| == n + 1 && (ready <==> forall p :: 0 <= p <= n ==> n !in succ[p]) && (ready <==> pred[n] == 0)
    {
      assert Counts(succ, pred);
      hide TasksOk, StatsOk, HashOk, OldOrdered, Counts;
      TasksLengths(succ, pred, stat, g);
      ReadyTest(count);
      LinksCounted(succ, pred, n);
      ready := (pred[n] + count) % UINT32 == (UINT32 - count) % UINT32;
      if ready {
        QueueOk(hash, succ, pred, stat, bag, g, deps, n);
        stat := stat[n := Queued];
        bag := bag + multiset{n};
      } else {
        StatsWithLast(pred, stat, bag, n);
      }
    }

    // Nobody is in the way of the new task just when all it conflicts with have finished, and it is not behind itself.
    lemma ReadyWhen(n: nat)
      requires Mid(n) && n < |stat| && OldOrdered(deps, stat, g, n + 1)
      ensures (forall p :: 0 <= p <= n ==> n !in succ[p]) <==>
              n !in succ[n] && Unhindered(deps, stat, deps[n], n)
    {
      LengthsNow(n);
      hide Conflict, StatsOk;
      if forall p :: 0 <= p <= n ==> n !in succ[p] {
        LinksCounted(succ, pred, n);
        AllBeforeFinished(succ, pred, stat, g, n);
        forall p {:trigger stat[p]} | 0 <= p < n && Conflict(deps[p], deps[n]) ensures stat[p].Finished? { assert OrderedAt(deps, stat, g, p, n); }
      }
    }

    /** Submission: the new task is put behind unfinished tasks that it conflicts with, and no others; so it is handed
        to the scheduler at once just when all of those have finished. It is made to wait for itself just when its list
        repeats an address that it writes. */
    method AddTask(l: seq<Dep>, ghost b: nat) returns (ready: bool)
      requires Valid() && (AllTask(l) || SameKinds(l)) && InsBound(hash, b) && (|l| + |hash| + 1) * (b + |l| + 1) < UINT32
      modifies this
      ensures Valid() && InsBound(hash, b + |l|) && deps == old(deps) + [l]
      ensures stat == old(stat) + [if ready then Queued else Waiting]
      ensures |succ| == |stat| && (ready <==> forall p :: 0 <= p < |succ| ==> |old(stat)| !in succ[p])
      ensures forall p {:trigger succ[p]} :: 0 <= p < |old(stat)| && |old(stat)| in succ[p] ==> Conflict(deps[p], l)
      ensures ready <==> RepeatsReads(l) && Unhindered(old(deps), old(stat), l, |old(stat)|)
      ensures SubmitStep(old(View()), View(), !RepeatsReads(l))
      ensures |old(stat)| in succ[|old(stat)|] <==> !RepeatsReads(l)
    {
      hide TasksOk, StatsOk, Touches, Writes, Behind, OrderedAt, HashOk, HashMid, OldOrdered, Links, SameKinds, Unhindered, Justified;
      TasksLengths(succ, pred, stat, g);
      var list, cnt := RemoveDuplicates(l);
      ListKind(l);
      var n := Append(l);
      ghost var g0 := g;
      var count;
      if cnt == 1 && list[0].kind == All {
        count := ProcessAll(n, b);
        LinksBound(|old(hash)| + 1, |l| + |old(hash)| + 1, b + 1, b + |l| + 1);
      } else {
        count := ProcessList(list, n, b);
        LinksBound(|l|, |l| + |old(hash)| + 1, b + |l| + 1, b + |l| + 1);
      }
      TasksLengths(succ, pred, stat, g);
      OrderedGrown(deps, stat, g0, g, n);
      ghost var s1 := View();
      ReadyWhen(n);
      ready := Schedule(n, count);
      Submitted(old(View()), s1, View(), !RepeatsReads(l));
      SameBefore(old(deps), old(stat), l, n);
      OnlyConflicts(succ, deps, n);
    }

    // ----- execution

    // An executor takes a task out of the scheduler.
    method Take(i: nat)
      requires Valid() && i < |stat| && i in bag
      modifies this`stat, this`bag
      ensures Valid() && TakeStep(old(View()), View(), i) && bag == old(bag) - multiset{i}
    {
      ForwardTasks(succ, pred, stat, stat[i := Running], g);
      ForwardHash(hash, deps, stat, stat[i := Running], g);
      hide TasksOk, HashOk, OldOrdered;
      stat := stat[i := Running];
      bag := bag - multiset{i};
    }

    method Finish(i: nat)
      requires Valid() && i < |stat| && stat[i] == Running
      modifies this`stat
      ensures Valid() && FinishStep(old(View()), View(), i)
    {
      ForwardTasks(succ, pred, stat, stat[i := Finished], g);
      ForwardHash(hash, deps, stat, stat[i := Finished], g);
      hide TasksOk, HashOk, OldOrdered;
      stat := stat[i := Finished];
    }

    /** A finished task releases its next successor, which goes to the scheduler if that was the last task it
        waited for. */
    method ReleaseNext(i: nat)
      requires Valid() && i < |stat| && |succ| == |stat| && stat[i] == Finished && |succ[i]| > 0
      modifies this`succ, this`pred, this`stat, this`bag
      ensures Valid() && ReleaseStep(old(View()), View(), i)
      ensures var j := old(succ)[i][0];
              stat == (if forall p :: 0 <= p < |succ| ==> j !in succ[p] then old(stat)[j := Queued] else old(stat))
    {
      var j := succ[i][0];
      ReleaseOk(succ, pred, stat, g, bag, i);
      ReleaseLinks(succ, pred, i);
      ReleaseJustified(succ, deps, i);
      hide TasksOk, HashOk, OldOrdered, StatsOk, Counts, Justified;
      var before := pred[j];
      succ := succ[i := succ[i][1..]];
      pred := pred[j := pred[j] - 1];
      if before == 1 {
        ForwardTasks(succ, pred, stat, stat[j := Queued], g);
        ForwardHash(hash, deps, stat, stat[j := Queued], g);
        stat := stat[j := Queued];
        bag := bag + multiset{j};
      }
    }
  }

  ghost function AddrsOf(l: seq<Dep>): set<Addr> { set d | d in l :: d.addr }

  // Whoever conflicts with the newest task n at the address of its dependency d is behind it.
  ghost predicate HandledFor(deps: seq<seq<Dep>>, stat: seq<Stat>, g: seq<set<nat>>, d: Dep, i: nat, n: nat)
    requires i < |deps| && i < |stat|
  {
    (if d.kind.In? then Writes(deps[i], d.addr) else Touches(deps[i], d.addr)) ==> Behind(stat, g, i, Some(n))
  }

  ghost predicate AllHandledFor(deps: seq<seq<Dep>>, stat: seq<Stat>, g: seq<set<nat>>, d: Dep, n: nat)
    requires n <= |deps| && n <= |stat|
  {
    forall i: nat {:trigger HandledFor(deps, stat, g, d, i, n)} :: i < n ==> HandledFor(deps, stat, g, d, i, n)
  }

  lemma HandledNow(deps: seq<seq<Dep>>, stat: seq<Stat>, g: seq<set<nat>>, d: Dep, n: nat)
    requires n <= |deps| && n <= |stat|
    requires if d.kind.In? then WritersBehind(deps, stat, g, d.addr, n) else TouchersBehind(deps, stat, g, d.addr, n)
    ensures AllHandledFor(deps, stat, g, d, n)
  {
    hide Writes, Touches, Behind;
  }

  // So it is for the first i dependencies of list l.
  ghost predicate HandledUpTo(deps: seq<seq<Dep>>, stat: seq<Stat>, g: seq<set<nat>>, l: seq<Dep>, i: nat, n: nat)
    requires n <= |deps| && n <= |stat|
  {
    i <= |l| && forall x, q: nat {:trigger HandledFor(deps, stat, g, l[x], q, n)} :: 0 <= x < i && q < n ==> HandledFor(deps, stat, g, l[x], q, n)
  }

  lemma HandledNext(deps: seq<seq<Dep>>, stat: seq<Stat>, g: seq<set<nat>>, g': seq<set<nat>>, l: seq<Dep>, i: nat, n: nat)
    requires |deps| == |stat| == n + 1 && Grown(g, g', n) && i < |l| && HandledUpTo(deps, stat, g, l, i, n)
    requires AllHandledFor(deps, stat, g', l[i], n)
    ensures HandledUpTo(deps, stat, g', l, i + 1, n)
  {
    hide HandledFor, Grown;
    forall x, q: nat {:trigger HandledFor(deps, stat, g', l[x], q, n)} | 0 <= x < i + 1 && q < n ensures HandledFor(deps, stat, g', l[x], q, n) {
      if x < i { HandledGrown(deps, stat, g, g', l[x], q, n); }
    }
  }

  // Of the addresses in hash, those in done already know the newest task n.
  ghost predicate HashMid(hash: map<Addr, Entry>, deps: seq<seq<Dep>>, stat: seq<Stat>, g: seq<set<nat>>, done: set<Addr>, n: nat) {
    |deps| == |stat| == |g| == n + 1 && NoEntryOk(hash, deps, n)
    && forall a {:trigger hash[a]} :: a in hash ==> EntryOk(deps, stat, g, a, hash[a], if a in done then n + 1 else n)
  }

  lemma MidGet(hash: map<Addr, Entry>, deps: seq<seq<Dep>>, stat: seq<Stat>, g: seq<set<nat>>, done: set<Addr>, n: nat, a: Addr)
    requires HashMid(hash, deps, stat, g, done, n) && a in hash
    ensures |deps| == |stat| == |g| == n + 1 && EntryOk(deps, stat, g, a, hash[a], if a in done then n + 1 else n)
  {}

  // The entry of a is brought up to date after n has collected more.
  lemma MidSet(hash: map<Addr, Entry>, deps: seq<seq<Dep>>, stat: seq<Stat>, g: seq<set<nat>>, g': seq<set<nat>>, done: set<Addr>, n: nat,
               a: Addr, e: Entry)
    requires HashMid(hash, deps, stat, g, done, n) && Grown(g, g', n) && EntryOk(deps, stat, g', a, e, n + 1)
    ensures HashMid(hash[a := e], deps, stat, g', done + {a}, n)
  {
    hide EntryOk, NoEntryOk, Grown;
    var hash', done' := hash[a := e], done + {a};
    NoEntryKept(hash, hash', deps, n);
    forall b | b in hash' ensures EntryOk(deps, stat, g', b, hash'[b], if b in done' then n + 1 else n) {
      if b != a { EntryGrown(deps, stat, g, g', n, b, hash[b], if b in done then n + 1 else n); }
    }
    assert |g'| == n + 1 by { GrownLength(g, g', n); }
  }

  lemma GrownLength(g: seq<set<nat>>, g': seq<set<nat>>, n: nat)
    requires Grown(g, g', n)
    ensures |g'| == n + 1
  {}

  // The entry of a, which n has not dealt with, is replaced by one as good.
  lemma MidPut(hash: map<Addr, Entry>, deps: seq<seq<Dep>>, stat: seq<Stat>, g: seq<set<nat>>, done: set<Addr>, n: nat, a: Addr, e: Entry)
    requires HashMid(hash, deps, stat, g, done, n) && a !in done && n <= |deps| && n <= |stat| && EntryOk(deps, stat, g, a, e, n)
    ensures HashMid(hash[a := e], deps, stat, g, done, n)
  {
    hide EntryOk, NoEntryOk;
    NoEntryKept(hash, hash[a := e], deps, n);
  }

  lemma MidFresh(hash: map<Addr, Entry>, deps: seq<seq<Dep>>, stat: seq<Stat>, g: seq<set<nat>>, done: set<Addr>, n: nat, a: Addr)
    requires HashMid(hash, deps, stat, g, done, n) && a !in hash && ALL_ADDR !in done
    ensures |deps| == |stat| == n + 1
    ensures ALL_ADDR in hash ==> EntryOk(deps, stat, g, a, Entry(hash[ALL_ADDR].out, []), n)
    ensures ALL_ADDR !in hash ==> EntryOk(deps, stat, g, a, Entry(None, []), n)
  {
    FreshEntryOk(hash, deps, stat, g, a, n);
  }

  // Whoever touches an address in done is behind the newest task n.
  ghost predicate AllHandled(deps: seq<seq<Dep>>, stat: seq<Stat>, g: seq<set<nat>>, done: set<Addr>, n: nat)
    requires n <= |deps| && n <= |stat|
  {
    forall i: nat, a {:trigger Touches(deps[i], a)} :: i < n && a in done && Touches(deps[i], a) ==> Behind(stat, g, i, Some(n))
  }

  lemma HandledMore(deps: seq<seq<Dep>>, stat: seq<Stat>, g: seq<set<nat>>, g': seq<set<nat>>, done: set<Addr>, a: Addr, n: nat)
    requires |deps| == |stat| == n + 1 && Grown(g, g', n) && AllHandled(deps, stat, g, done, n)
    requires TouchersBehind(deps, stat, g', a, n)
    ensures AllHandled(deps, stat, g', done + {a}, n)
  {
    hide Touches, Behind, Grown;
    forall i: nat, b {:trigger Touches(deps[i], b)} | i < n && b in done + {a} && Touches(deps[i], b) ensures Behind(stat, g', i, Some(n)) {
      if b != a { BehindGrown(stat, g, g', n, i, Some(n)); }
    }
  }

  lemma MulNext(a: nat, b: nat)
    requires a > 0
    ensures a * b == (a - 1) * b + b
  {}

  lemma MidAll(hash: map<Addr, Entry>, deps: seq<seq<Dep>>, stat: seq<Stat>, g: seq<set<nat>>, n: nat)
    requires |deps| == |stat| == n + 1 && HashMid(hash, deps, stat, g, hash.Keys, n) && AllTask(deps[n]) && ALL_ADDR in hash
    requires AllHandled(deps, stat, g, hash.Keys, n)
    ensures HashOk(hash, deps, stat, g, n + 1)
    ensures forall i: nat {:trigger OrderedAt(deps, stat, g, i, n)} :: i < n ==> OrderedAt(deps, stat, g, i, n)
  {
    hide EntryOk, Behind, OrderedAt;
    AllTouched(hash, deps, stat, g, n);
  }

  lemma HandledGrown(deps: seq<seq<Dep>>, stat: seq<Stat>, g: seq<set<nat>>, g': seq<set<nat>>, d: Dep, i: nat, n: nat)
    requires Grown(g, g', n) && |stat| == |deps| == n + 1 && i < n && HandledFor(deps, stat, g, d, i, n)
    ensures HandledFor(deps, stat, g', d, i, n)
  {
    hide Touches, Writes, Behind;
    if Behind(stat, g, i, Some(n)) { BehindGrown(stat, g, g', n, i, Some(n)); }
  }

  lemma MidList(hash: map<Addr, Entry>, deps: seq<seq<Dep>>, stat: seq<Stat>, g: seq<set<nat>>, n: nat)
    requires |deps| == |stat| == n + 1 && HashMid(hash, deps, stat, g, AddrsOf(deps[n]), n) && !AllTask(deps[n]) && Entered(hash, AddrsOf(deps[n]))
    requires HandledUpTo(deps, stat, g, deps[n], |deps[n]|, n)
    ensures HashOk(hash, deps, stat, g, n + 1)
    ensures forall i: nat {:trigger OrderedAt(deps, stat, g, i, n)} :: i < n ==> OrderedAt(deps, stat, g, i, n)
  {
    hide EntryOk, OrderedAt, HandledFor;
    ListDone(hash, deps, stat, g, n);
  }

  lemma KeysBound(h: map<Addr, Entry>, h': map<Addr, Entry>, a: Addr)
    requires h'.Keys == h.Keys || h'.Keys == h.Keys + {a}
    ensures |h'.Keys| <= |h| + 1
  {
    assert |h.Keys| == |h|;
  }

  lemma TasksLengths(succ: seq<seq<nat>>, pred: seq<nat>, stat: seq<Stat>, g: seq<set<nat>>)
    requires TasksOk(succ, pred, stat, g)
    ensures |succ| == |pred| == |stat| == |g|
  {}

  lemma FinishedCovers(succ: seq<seq<nat>>, pred: seq<nat>, stat: seq<Stat>, g: seq<set<nat>>, bag: multiset<nat>, p: nat, n: nat)
    requires TasksOk(succ, pred, stat, g) && StatsOk(pred, stat, bag, n) && p < n == |succ| - 1 && stat[p].Finished?
    ensures Covers(stat, g, Some(p), n)
  {
    AllBeforeFinished(succ, pred, stat, g, p);
  }

  lemma StatsIgnoreLast(pred: seq<nat>, pred': seq<nat>, stat: seq<Stat>, bag: multiset<nat>, n: nat)
    requires StatsOk(pred, stat, bag, n) && |pred'| == |pred| && forall j :: 0 <= j < n ==> pred'[j] == pred[j]
    ensures StatsOk(pred', stat, bag, n)
  {}

  lemma AllUsersCovered(deps: seq<seq<Dep>>, stat: seq<Stat>, g: seq<set<nat>>, a: Addr, e: Entry, n: nat)
    requires |stat| == |deps| == |g| == n + 1 && EntryOk(deps, stat, g, a, e, n)
    requires if e.ins != [] then forall y :: 0 <= y < |e.ins| ==> Covers(stat, g, Some(e.ins[y]), n) else Covers(stat, g, e.out, n)
    ensures forall i: nat {:trigger Touches(deps[i], a)} :: i < n && Touches(deps[i], a) ==> Behind(stat, g, i, Some(n))
  {
    forall i: nat | i < n && Touches(deps[i], a) ensures Behind(stat, g, i, Some(n)) {
      assert UserOk(deps, stat, g, a, e, i);
      hide Touches, Writes;
      if e.ins == [] {
        assert Behind(stat, g, i, e.out);
      } else if i in e.ins {
        var y :| 0 <= y < |e.ins| && e.ins[y] == i;
        assert Behind(stat, g, i, Some(i)) && Covers(stat, g, Some(e.ins[y]), n);
      } else {
        assert e.ins[0] in e.ins && Behind(stat, g, i, Some(e.ins[0])) && Covers(stat, g, Some(e.ins[0]), n);
      }
    }
  }

  lemma EntryBounds(deps: seq<seq<Dep>>, stat: seq<Stat>, g: seq<set<nat>>, a: Addr, e: Entry, m: nat)
    requires m <= |deps| && m <= |stat| && EntryOk(deps, stat, g, a, e, m)
    ensures (e.out.Some? ==> e.out.value < m) && (a == ALL_ADDR ==> e.ins == [])
  {}

  lemma NoEntryKept(h: map<Addr, Entry>, h': map<Addr, Entry>, deps: seq<seq<Dep>>, n: nat)
    requires n <= |deps| && NoEntryOk(h, deps, n) && h.Keys <= h'.Keys
    ensures NoEntryOk(h', deps, n)
  {}

  lemma AllFinished(succ: seq<seq<nat>>, pred: seq<nat>, stat: seq<Stat>, g: seq<set<nat>>, bag: multiset<nat>, p: nat, n: nat)
    requires TasksOk(succ, pred, stat, g) && StatsOk(pred, stat, bag, n) && p < n == |succ| - 1 && stat[p].Finished?
    ensures forall q :: q in g[p] ==> q < |stat| && stat[q].Finished?
  {
    AllBeforeFinished(succ, pred, stat, g, p);
  }

  lemma AllTouched(hash: map<Addr, Entry>, deps: seq<seq<Dep>>, stat: seq<Stat>, g: seq<set<nat>>, n: nat)
    requires |deps| == |stat| == n + 1 && NoEntryOk(hash, deps, n) && AllTask(deps[n]) && ALL_ADDR in hash
    requires forall a {:trigger hash[a]} :: a in hash ==> EntryOk(deps, stat, g, a, hash[a], n + 1)
    requires forall i: nat, a {:trigger Touches(deps[i], a)} :: i < n && a in hash && Touches(deps[i], a) ==> Behind(stat, g, i, Some(n))
    ensures HashOk(hash, deps, stat, g, n + 1)
    ensures forall i: nat {:trigger OrderedAt(deps, stat, g, i, n)} :: i < n ==> OrderedAt(deps, stat, g, i, n)
  {
    hide EntryOk, Behind;
    forall i: nat | i < n ensures OrderedAt(deps, stat, g, i, n) {
      if Conflict(deps[i], deps[n]) {
        var a :| Touches(deps[i], a);
        assert a in hash || Touches(deps[i], ALL_ADDR);
      }
    }
  }

  lemma ListDone(hash: map<Addr, Entry>, deps: seq<seq<Dep>>, stat: seq<Stat>, g: seq<set<nat>>, n: nat)
    requires |deps| == |stat| == n + 1 && NoEntryOk(hash, deps, n) && !AllTask(deps[n]) && AddrsOf(deps[n]) <= hash.Keys
    requires forall a {:trigger hash[a]} :: a in hash ==> EntryOk(deps, stat, g, a, hash[a], if a in AddrsOf(deps[n]) then n + 1 else n)
    requires forall x, i: nat {:trigger HandledFor(deps, stat, g, deps[n][x], i, n)} :: 0 <= x < |deps[n]| && i < n ==> HandledFor(deps, stat, g, deps[n][x], i, n)
    ensures HashOk(hash, deps, stat, g, n + 1)
    ensures forall i: nat {:trigger OrderedAt(deps, stat, g, i, n)} :: i < n ==> OrderedAt(deps, stat, g, i, n)
  {
    forall a | a in hash ensures EntryOk(deps, stat, g, a, hash[a], n + 1) {
      assert EntryOk(deps, stat, g, a, hash[a], if a in AddrsOf(deps[n]) then n + 1 else n);
      if a !in AddrsOf(deps[n]) { UntouchedOk(deps, stat, g, a, hash[a], n); }
    }
    hide EntryOk, Behind;
    forall i: nat | i < n ensures OrderedAt(deps, stat, g, i, n) {
      if Conflict(deps[i], deps[n]) {
        var a :| Touches(deps[i], a) && Touches(deps[n], a) && (Writes(deps[i], a) || Writes(deps[n], a));
        var d :| d in deps[n] && d.addr == a && (Writes(deps[i], a) || !d.kind.In?);
        var x :| 0 <= x < |deps[n]| && deps[n][x] == d;
        assert HandledFor(deps, stat, g, deps[n][x], i, n);
        WritesTouches(deps[i], a);
      }
    }
  }

  lemma UntouchedOk(deps: seq<seq<Dep>>, stat: seq<Stat>, g: seq<set<nat>>, a: Addr, e: Entry, n: nat)
    requires |deps| == |stat| == n + 1 && EntryOk(deps, stat, g, a, e, n) && !AllTask(deps[n]) && a !in AddrsOf(deps[n])
    ensures EntryOk(deps, stat, g, a, e, n + 1)
  {
    forall i | 0 <= i < n + 1 ensures UserOk(deps, stat, g, a, e, i) {
      if i < n { assert UserOk(deps, stat, g, a, e, i); }
    }
  }

  lemma DepFacts(l: seq<Dep>, i: nat)
    requires SameKinds(l) && !AllTask(l) && i < |l|
    ensures l[i] in l && !IsAll(l[i]) && l[i].addr != ALL_ADDR && ALL_ADDR !in AddrsOf(l[..i])
    ensures l[i].kind.In? ==> !Writes(l, l[i].addr)
    ensures AddrsOf(l[..i + 1]) == AddrsOf(l[..i]) + {l[i].addr}
    ensures WritesAgain(l, i) <==> !l[i].kind.In? && l[i].addr in AddrsOf(l[..i])
    ensures WroteAgain(l, i + 1) <==> WroteAgain(l, i) || WritesAgain(l, i)
  {
    assert l[..i + 1] == l[..i] + [l[i]];
    forall d | d in l[..i] ensures d.addr != ALL_ADDR { assert d in l && !IsAll(d); }
    forall x | 0 <= x < |l| && l[x].addr == l[i].addr ensures l[x].kind == l[i].kind {}
  }

  // Dependency i writes an address that an earlier one has; one of the first i does.
  ghost predicate WritesAgain(l: seq<Dep>, i: nat) { i < |l| && !l[i].kind.In? && l[i].addr in AddrsOf(l[..i]) }

  ghost predicate WroteAgain(l: seq<Dep>, i: nat) { exists y {:trigger WritesAgain(l, y)} :: 0 <= y < i && WritesAgain(l, y) }

  lemma ListBegins(hash: map<Addr, Entry>, deps: seq<seq<Dep>>, stat: seq<Stat>, g: seq<set<nat>>, l: seq<Dep>, n: nat)
    requires n <= |deps| && n <= |stat|
    ensures AddrsOf(l[..0]) == {} && Entered(hash, AddrsOf(l[..0])) && !WroteAgain(l, 0) && HandledUpTo(deps, stat, g, l, 0, n)
  {}

  // In the end an address that is written has been repeated just when not only reads have.
  lemma ListEnds(l: seq<Dep>)
    requires SameKinds(l) && !AllTask(l)
    ensures l[..|l|] == l && (RepeatsReads(l) <==> !WroteAgain(l, |l|))
  {
    if y :| 0 <= y < |l| && WritesAgain(l, y) {
      var d :| d in l[..y] && d.addr == l[y].addr;
      var x :| 0 <= x < y && l[x] == d;
    }
    forall x, y | 0 <= x < y < |l| && l[x].addr == l[y].addr && !l[y].kind.In? ensures WritesAgain(l, y) {
      assert l[x] in l[..y];
    }
  }

  lemma UseOf(l: seq<Dep>, d: Dep)
    requires d in l
    ensures Touches(l, d.addr) && (!d.kind.In? ==> Writes(l, d.addr)) && (!IsAll(d) ==> d.addr != ALL_ADDR)
  {}

  lemma LinksBound(a: nat, a': nat, b: nat, b': nat)
    requires a <= a' && b <= b'
    ensures a * b <= a' * b'
  {
    MulMono(a, a', b);
    MulMono(b, b', a');
  }

  lemma ListKind(l: seq<Dep>)
    ensures AllTask(l) ==> Normal(l) == [Dep(ALL_ADDR, All)]
    ensures !AllTask(l) ==> Normal(l) == l && (|l| > 0 ==> l[0].kind != All)
  {
    if |l| > 0 && !AllTask(l) { assert l[0] in l && !IsAll(l[0]); }
  }

  lemma AppendTasks(succ: seq<seq<nat>>, pred: seq<nat>, stat: seq<Stat>, g: seq<set<nat>>, bag: multiset<nat>, n: nat)
    requires TasksOk(succ, pred, stat, g) && StatsOk(pred, stat, bag, n) && n == |succ|
    ensures TasksOk(succ + [[]], pred + [0], stat + [Waiting], g + [{}])
    ensures StatsOk(pred + [0], stat + [Waiting], bag, n)
  {
    var succ', pred', stat', g' := succ + [[]], pred + [0], stat + [Waiting], g + [{}];
    forall j | 0 <= j < n + 1 ensures pred'[j] == InDegree(succ', j, n + 1) {
      SamePrefix(succ, succ', j, n);
      if j == n {
        forall i, t | 0 <= i < n && 0 <= t < |succ'[i]| ensures succ'[i][t] != n { assert succ[i][t] in succ[i]; }
        NoEdgesTo(succ', n, n);
      }
    }
    hide InDegree;
    forall j | 0 <= j < n + 1 ensures Known(succ', stat', g', j) {
      if j < n {
        assert Known(succ, stat, g, j);
        forall q | q in g'[j] ensures q < j && (stat'[q].Finished? || WaitsFor(succ', g', q, j)) {
          if !stat[q].Finished? {
            var p: nat :| p < |succ| && j in succ[p] && Before(g, q, p);
            assert p < |succ'| && j in succ'[p] && Before(g', q, p);
          }
        }
      }
    }
  }

  lemma AppendHash(hash: map<Addr, Entry>, deps: seq<seq<Dep>>, stat: seq<Stat>, g: seq<set<nat>>, l: seq<Dep>, n: nat)
    requires |deps| == |stat| == |g| == n && HashOk(hash, deps, stat, g, n)
    ensures HashMid(hash, deps + [l], stat + [Waiting], g + [{}], {}, n)
  {
    forall a | a in hash ensures EntryOk(deps + [l], stat + [Waiting], g + [{}], a, hash[a], n) {
      assert EntryOk(deps, stat, g, a, hash[a], n);
      forall i | 0 <= i < n ensures UserOk(deps + [l], stat + [Waiting], g + [{}], a, hash[a], i) {
        assert UserOk(deps, stat, g, a, hash[a], i);
        assert (deps + [l])[i] == deps[i];
      }
    }
    forall i, a | 0 <= i < n && a !in hash && Touches((deps + [l])[i], a) ensures AllTask((deps + [l])[i]) { assert Touches(deps[i], a); }
  }

  // Of the tasks before n every two are ordered.
  ghost predicate OldOrdered(deps: seq<seq<Dep>>, stat: seq<Stat>, g: seq<set<nat>>, n: nat)
    requires n <= |deps| && n <= |stat|
  {
    forall i, j {:trigger OrderedAt(deps, stat, g, i, j)} :: 0 <= i < j < n ==> OrderedAt(deps, stat, g, i, j)
  }

  lemma AppendOrdered(deps: seq<seq<Dep>>, stat: seq<Stat>, g: seq<set<nat>>, l: seq<Dep>, n: nat)
    requires |deps| == |stat| == |g| == n && OldOrdered(deps, stat, g, n)
    ensures OldOrdered(deps + [l], stat + [Waiting], g + [{}], n)
  {
    var deps', stat', g' := deps + [l], stat + [Waiting], g + [{}];
    hide Conflict;
    forall i, j {:trigger OrderedAt(deps', stat', g', i, j)} | 0 <= i < j < n ensures OrderedAt(deps', stat', g', i, j) {
      assert OrderedAt(deps, stat, g, i, j) && deps'[i] == deps[i] && deps'[j] == deps[j];
    }
  }

  lemma OrderedGrown(deps: seq<seq<Dep>>, stat: seq<Stat>, g: seq<set<nat>>, g': seq<set<nat>>, n: nat)
    requires |deps| == |stat| == n + 1 && Grown(g, g', n) && OldOrdered(deps, stat, g, n)
    requires forall i: nat {:trigger OrderedAt(deps, stat, g', i, n)} :: i < n ==> OrderedAt(deps, stat, g', i, n)
    ensures OldOrdered(deps, stat, g', n + 1)
  {
    hide Conflict;
    forall i, j {:trigger OrderedAt(deps, stat, g', i, j)} | 0 <= i < j < n + 1 ensures OrderedAt(deps, stat, g', i, j) {
      if j < n {
        assert OrderedAt(deps, stat, g, i, j);
        assert g'[..n][j] == g[..n][j];
      }
    }
  }

  lemma LinksCounted(succ: seq<seq<nat>>, pred: seq<nat>, n: nat)
    requires Counts(succ, pred) && n == |succ| - 1
    ensures pred[n] == 0 <==> forall p :: 0 <= p <= n ==> n !in succ[p]
  {
    if pred[n] == 0 {
      forall p | 0 <= p <= n ensures n !in succ[p] {
        if n in succ[p] { EdgeCounts(succ, n, |succ|, p); }
      }
    }
    if forall p :: 0 <= p <= n ==> n !in succ[p] {
      NoEdgesTo(succ, n, |succ|);
    }
  }

  // A change of status in which nobody stops being finished keeps what is known.
  ghost predicate Forward(stat: seq<Stat>, stat': seq<Stat>) {
    |stat'| == |stat| && forall i :: 0 <= i < |stat| && stat[i].Finished? ==> stat'[i].Finished?
  }

  lemma ForwardTasks(succ: seq<seq<nat>>, pred: seq<nat>, stat: seq<Stat>, stat': seq<Stat>, g: seq<set<nat>>)
    requires TasksOk(succ, pred, stat, g) && Forward(stat, stat')
    ensures TasksOk(succ, pred, stat', g)
  {
    forall j | 0 <= j < |g| ensures Known(succ, stat', g, j) { assert Known(succ, stat, g, j); }
  }

  lemma ForwardHash(hash: map<Addr, Entry>, deps: seq<seq<Dep>>, stat: seq<Stat>, stat': seq<Stat>, g: seq<set<nat>>)
    requires |deps| == |stat| && HashOk(hash, deps, stat, g, |stat|) && Forward(stat, stat') && OldOrdered(deps, stat, g, |stat|)
    ensures HashOk(hash, deps, stat', g, |stat|) && OldOrdered(deps, stat', g, |stat|)
  {
    forall a | a in hash ensures EntryOk(deps, stat', g, a, hash[a], |stat|) {
      assert EntryOk(deps, stat, g, a, hash[a], |stat|);
      hide Touches, Writes, NoEntryOk;
      forall i | 0 <= i < |stat| ensures UserOk(deps, stat', g, a, hash[a], i) { assert UserOk(deps, stat, g, a, hash[a], i); }
    }
    hide Conflict, EntryOk, NoEntryOk;
    forall i, j {:trigger OrderedAt(deps, stat', g, i, j)} | 0 <= i < j < |stat| ensures OrderedAt(deps, stat', g, i, j) {
      assert OrderedAt(deps, stat, g, i, j);
    }
  }

  lemma QueueOk(hash: map<Addr, Entry>, succ: seq<seq<nat>>, pred: seq<nat>, stat: seq<Stat>, bag: multiset<nat>, g: seq<set<nat>>,
                deps: seq<seq<Dep>>, n: nat)
    requires TasksOk(succ, pred, stat, g) && StatsOk(pred, stat, bag, n) && |deps| == |succ| == n + 1 && stat[n].Waiting? && pred[n] == 0
    requires HashOk(hash, deps, stat, g, n + 1) && OldOrdered(deps, stat, g, n + 1)
    ensures TasksOk(succ, pred, stat[n := Queued], g) && StatsOk(pred, stat[n := Queued], bag + multiset{n}, n + 1)
    ensures HashOk(hash, deps, stat[n := Queued], g, n + 1) && OldOrdered(deps, stat[n := Queued], g, n + 1)
  {
    ForwardTasks(succ, pred, stat, stat[n := Queued], g);
    ForwardHash(hash, deps, stat, stat[n := Queued], g);
  }

  lemma StatsWithLast(pred: seq<nat>, stat: seq<Stat>, bag: multiset<nat>, n: nat)
    requires StatsOk(pred, stat, bag, n) && |pred| == |stat| == n + 1 && stat[n].Waiting? && pred[n] > 0
    ensures StatsOk(pred, stat, bag, n + 1)
  {}

  // Releasing the first successor of a finished task.
  lemma ReleaseOk(succ: seq<seq<nat>>, pred: seq<nat>, stat: seq<Stat>, g: seq<set<nat>>, bag: multiset<nat>, i: nat)
    requires TasksOk(succ, pred, stat, g) && StatsOk(pred, stat, bag, |succ|)
    requires i < |succ| && stat[i] == Finished && |succ[i]| > 0
    ensures var j := succ[i][0];
            j < |pred| == |stat| == |succ| && pred[j] > 0 && stat[j] == Waiting
            && var pred' := pred[j := pred[j] - 1];
               TasksOk(succ[i := succ[i][1..]], pred', stat, g)
               && (pred[j] > 1 ==> StatsOk(pred', stat, bag, |succ|))
               && (pred[j] == 1 ==> StatsOk(pred', stat[j := Queued], bag + multiset{j}, |succ|))
  {
    var j := succ[i][0];
    assert j in succ[i];
    EdgeCounts(succ, j, |succ|, i);
    ReleaseCounts(succ, pred, i);
    AllBeforeFinished(succ, pred, stat, g, i);
    var succ' := succ[i := succ[i][1..]];
    hide Counts;
    forall x | 0 <= x < |g| ensures Known(succ', stat, g, x) {
      assert Known(succ, stat, g, x);
      forall q | q in g[x] && !stat[q].Finished? ensures WaitsFor(succ', g, q, x) {
        var p: nat :| p < |succ| && x in succ[p] && Before(g, q, p);
        assert p < |succ'| && x in succ'[p] && Before(g, q, p);
      }
    }
  }

  lemma ReleaseCounts(succ: seq<seq<nat>>, pred: seq<nat>, i: nat)
    requires Counts(succ, pred) && i < |succ| && |succ[i]| > 0 && succ[i][0] < |pred| && pred[succ[i][0]] > 0
    ensures Counts(succ[i := succ[i][1..]], pred[succ[i][0] := pred[succ[i][0]] - 1])
  {
    var succ', pred' := succ[i := succ[i][1..]], pred[succ[i][0] := pred[succ[i][0]] - 1];
    forall x | 0 <= x < |succ| ensures pred'[x] == InDegree(succ', x, |succ|) { OneEdgeLess(succ, i, x); }
    forall p, x | 0 <= p < |succ| && x in succ'[p] ensures p <= x < |succ| { assert x in succ[p]; }
  }

  // The released task has no predecessor left just when its counter was one.
  lemma ReleaseLinks(succ: seq<seq<nat>>, pred: seq<nat>, i: nat)
    requires Counts(succ, pred) && i < |succ| && |succ[i]| > 0
    ensures var j := succ[i][0];
            var succ' := succ[i := succ[i][1..]];
            j < |pred| && (pred[j] == 1 <==> forall p :: 0 <= p < |succ| ==> j !in succ'[p])
  {
    var j := succ[i][0];
    assert j in succ[i];
    OneEdgeLess(succ, i, j);
    var succ' := succ[i := succ[i][1..]];
    if pred[j] == 1 {
      forall p | 0 <= p < |succ| ensures j !in succ'[p] {
        if j in succ'[p] { EdgeCounts(succ', j, |succ|, p); }
      }
    }
    if forall p :: 0 <= p < |succ| ==> j !in succ'[p] {
      forall p, t | 0 <= p < |succ| && 0 <= t < |succ'[p]| ensures succ'[p][t] != j { assert succ'[p][t] in succ'[p]; }
      NoEdgesTo(succ', j, |succ|);
    }
  }

  /** Of two conflicting tasks the one submitted earlier has finished before the later one starts. */
  lemma ConflictsAreOrdered(d: Dag, i: nat, j: nat)
    requires d.Valid() && i < j < |d.stat| && |d.deps| == |d.stat| && Conflict(d.deps[i], d.deps[j])
    ensures d.stat[j] != Waiting ==> d.stat[i] == Finished
  {
    assert OrderedAt(d.deps, d.stat, d.g, i, j);
    if d.stat[j] != Waiting { AllBeforeFinished(d.succ, d.pred, d.stat, d.g, j); }
  }

  /** Nobody is held up for nothing: in every state a task waits only for tasks that it conflicts with, or for itself. */
  lemma WaitsOnlyForConflicts(d: Dag, p: nat, j: nat)
    requires d.Valid() && p < |d.succ| && j in d.succ[p] && p != j
    ensures j < |d.deps| == |d.succ| && Conflict(d.deps[p], d.deps[j])
  {
    hide Conflict;
  }

  /** Nothing gets stuck: while some task is unfinished, some task is queued or running, or some finished task
      has a successor to release, unless a task waits for itself. */
  lemma SomethingToDo(d: Dag, j: nat)
    requires d.Valid() && j < |d.stat| == |d.succ| && d.stat[j] != Finished
    ensures (exists i :: 0 <= i < |d.stat| && (d.stat[i] == Queued || d.stat[i] == Running || (d.stat[i] == Finished && d.succ[i] != [])))
            || exists i :: 0 <= i <= j && i in d.succ[i]
  {
    if d.stat[j] == Waiting {
      var p := SomePredecessor(d.succ, d.pred, j);
      if d.stat[p] != Finished && p < j { SomethingToDo(d, p); }
    }
  }

  lemma SomePredecessor(succ: seq<seq<nat>>, pred: seq<nat>, j: nat) returns (p: nat)
    requires Counts(succ, pred) && j < |succ| && pred[j] > 0
    ensures p <= j && p < |succ| && j in succ[p]
  {
    if forall q :: 0 <= q < |succ| ==> j !in succ[q] {
      forall q, t | 0 <= q < |succ| && 0 <= t < |succ[q]| ensures succ[q][t] != j { assert succ[q][t] in succ[q]; }
      NoEdgesTo(succ, j, |succ|);
    }
    p :| 0 <= p < |succ| && j in succ[p];
  }

  // A task that is submitted as the only one and waits for itself.
  method WritesTwiceExample() returns (l: seq<Dep>, d: Dag, ready: bool)
    ensures l == [Dep(Addr(8), Out), Dep(Addr(8), Out)] && !AllTask(l) && SameKinds(l) && !RepeatsReads(l)
    ensures d.Valid() && d.deps == [l] && !ready && d.stat == [Waiting] && |d.succ| == 1 && 0 in d.succ[0]
  {
    l := [Dep(Addr(8), Out), Dep(Addr(8), Out)];
    PlainUse(l, Addr(8));
    assert l[0].addr == l[1].addr;
    d := new Dag();
    ready := d.AddTask(l, 0);
  }
}
