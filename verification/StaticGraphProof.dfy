/** A static graph runs every node once per run, after its predecessors, and is as it was when the run is over. */
module StaticGraphProof {
  import opened Edges
  import opened StaticGraph

  // ----- sums over nodes

  lemma {:induction false} PendingKept(succ: seq<seq<nat>>, pc: seq<Pc>, pc': seq<Pc>, j: nat, n: nat)
    requires n <= |succ| == |pc| == |pc'|
    requires forall i {:trigger pc[i]} :: 0 <= i < n ==> Rel(pc'[i], |succ[i]|) == Rel(pc[i], |succ[i]|)
    ensures Pending(succ, pc', j, n) == Pending(succ, pc, j, n)
  {
    if n > 0 { PendingKept(succ, pc, pc', j, n - 1); }
  }

  lemma {:induction false} PendingUpdate(succ: seq<seq<nat>>, pc: seq<Pc>, i: nat, v: Pc, j: nat, n: nat)
    requires n <= |succ| == |pc| && i < |pc|
    ensures Pending(succ, pc[i := v], j, n) - Pending(succ, pc, j, n)
            == if i < n then Occ(succ[i][Rel(v, |succ[i]|)..], j) - Occ(succ[i][Rel(pc[i], |succ[i]|)..], j) else 0
  {
    if n > 0 { PendingUpdate(succ, pc, i, v, j, n - 1); }
  }

  lemma OccTail(l: seq<nat>, t: nat, j: nat)
    requires t < |l|
    ensures Occ(l[t..], j) == Occ(l[t + 1..], j) + (if l[t] == j then 1 else 0)
  {
    assert l[t..] == [l[t]] + l[t + 1..];
  }

  lemma {:induction false} ActiveUpdate(pc: seq<Pc>, i: nat, v: Pc, n: nat)
    requires n <= |pc| && i < |pc|
    ensures ActiveCount(pc[i := v], n) - ActiveCount(pc, n)
            == if i < n then (if Active(v) then 1 else 0) - (if Active(pc[i]) then 1 else 0) else 0
  {
    if n > 0 { ActiveUpdate(pc, i, v, n - 1); }
  }

  lemma {:induction false} SomeActive(pc: seq<Pc>, n: nat) returns (i: nat)
    requires n <= |pc| && ActiveCount(pc, n) > 0
    ensures i < n && Active(pc[i])
  {
    if Active(pc[n - 1]) { i := n - 1; } else { i := SomeActive(pc, n - 1); }
  }

  lemma {:induction false} NoneActive(pc: seq<Pc>, n: nat, i: nat)
    requires n <= |pc| && ActiveCount(pc, n) == 0 && i < n
    ensures !Active(pc[i])
  {
    if i < n - 1 { NoneActive(pc, n - 1, i); }
  }

  lemma {:induction false} PendingFrom(succ: seq<seq<nat>>, pc: seq<Pc>, j: nat, n: nat) returns (i: nat)
    requires n <= |succ| == |pc| && Pending(succ, pc, j, n) > 0
    ensures i < n && j in succ[i] && j in succ[i][Rel(pc[i], |succ[i]|)..]
  {
    if Occ(succ[n - 1][Rel(pc[n - 1], |succ[n - 1]|)..], j) > 0 {
      i := n - 1;
    } else {
      i := PendingFrom(succ, pc, j, n - 1);
    }
  }

  lemma OccAfter(l: seq<nat>, r: nat, t: nat)
    requires r <= |l| && t < |l|
    ensures t >= r ==> Occ(l[r..], l[t]) > 0
  {
    assert t >= r ==> l[r..][t - r] == l[t];
  }

  lemma {:induction false} PendingNone(succ: seq<seq<nat>>, pc: seq<Pc>, j: nat, n: nat, i: nat, t: nat)
    requires n <= |succ| == |pc| && Pending(succ, pc, j, n) == 0 && i < n && t < |succ[i]| && succ[i][t] == j
    ensures Rel(pc[i], |succ[i]|) > t
  {
    if i < n - 1 {
      PendingNone(succ, pc, j, n - 1, i, t);
    } else {
      OccAfter(succ[i], Rel(pc[i], |succ[i]|), t);
    }
  }

  lemma {:induction false} NothingReleased(succ: seq<seq<nat>>, pc: seq<Pc>, j: nat, n: nat)
    requires n <= |succ| == |pc| && forall i :: 0 <= i < n ==> Rel(pc[i], |succ[i]|) == 0
    ensures Pending(succ, pc, j, n) == InDegree(succ, j, n)
  {
    if n > 0 {
      NothingReleased(succ, pc, j, n - 1);
      assert succ[n - 1][0..] == succ[n - 1];
    }
  }

  lemma {:induction false} AllReleased(succ: seq<seq<nat>>, pc: seq<Pc>, j: nat, n: nat)
    requires n <= |succ| == |pc| && forall i :: 0 <= i < n ==> pc[i].Rest?
    ensures Pending(succ, pc, j, n) == 0
  {
    if n > 0 { AllReleased(succ, pc, j, n - 1); }
  }

  lemma {:induction false} NoneCounted(pc: seq<Pc>, n: nat)
    requires n <= |pc| && forall i :: 0 <= i < n ==> !Active(pc[i])
    ensures ActiveCount(pc, n) == 0
  {
    if n > 0 { NoneCounted(pc, n - 1); }
  }

  // ----- steps of executors

  // The node that i is about to hand on is marked as i's, and is in i's list only once.
  lemma HandTarget(g: Graph, s: State, i: nat)
    requires Inv(g, s) && i < |s.pc| && s.pc[i].Adding? && s.pc[i].t < |s.pc[i].ready|
    ensures var r := s.pc[i].ready[s.pc[i].t];
            r < |s.pc| && r != i && s.pc[r] == (if s.pc[i].half then Counted(Node(i)) else Ready(Node(i)))
            && r !in s.pc[i].ready[s.pc[i].t + 1..]
  {
    hide Counters;
    var t, ready := s.pc[i].t, s.pc[i].ready;
    var r := ready[t];
    assert NodeInv(g, s, i);
    assert ready[t..][0] == r;
    if s.pc[i].half {
      assert HalfHanded(s.pc[i], r);
      HalfInRange(g, s, i);
      assert Holds(s, i, r);
    } else {
      assert InHand(s.pc[i], r);
      assert Holds(s, i, r);
    }
    forall a | t + 1 <= a < |ready| ensures ready[a] != r {}
  }

  lemma HalfInRange(g: Graph, s: State, i: nat)
    requires Inv(g, s) && i < |s.pc| && s.pc[i].Adding? && s.pc[i].half && s.pc[i].t < |s.pc[i].ready|
    ensures s.pc[i].ready[s.pc[i].t] < |s.pc|
  {
    assert NodeInv(g, s, i);
  }

  lemma TakeNode(g: Graph, s: State, s': State, i: nat, j: nat)
    requires Inv(g, s) && TakeStep(g, s, s', i) && j < |s.pc|
    ensures NodeInv(g, s', j)
  {
    assert NodeInv(g, s, i) && NodeInv(g, s, j);
    PendingKept(g.succ, s.pc, s'.pc, j, |s.pc|);
  }

  lemma TakeHolds(g: Graph, s: State, s': State, i: nat, k: nat, j: nat)
    requires Inv(g, s) && TakeStep(g, s, s', i) && j < |s.pc| && k < |s.pc|
    ensures Holds(s', k, j)
  {
    assert NodeInv(g, s, i) && Holds(s, k, j);
  }

  lemma ReturnNode(g: Graph, s: State, s': State, i: nat, j: nat)
    requires Inv(g, s) && ReturnStep(g, s, s', i) && j < |s.pc|
    ensures NodeInv(g, s', j)
  {
    assert NodeInv(g, s, i) && NodeInv(g, s, j);
    PendingKept(g.succ, s.pc, s'.pc, j, |s.pc|);
  }

  lemma ReturnHolds(g: Graph, s: State, s': State, i: nat, k: nat, j: nat)
    requires Inv(g, s) && ReturnStep(g, s, s', i) && j < |s.pc| && k < |s.pc|
    ensures Holds(s', k, j)
  {
    hide Counters;
    assert NodeInv(g, s, i) && Holds(s, k, j);
  }

  lemma ResetNode(g: Graph, s: State, s': State, i: nat, j: nat)
    requires Inv(g, s) && ResetStep(g, s, s', i) && j < |s.pc|
    ensures NodeInv(g, s', j)
  {
    assert NodeInv(g, s, i) && NodeInv(g, s, j);
    PendingKept(g.succ, s.pc, s'.pc, j, |s.pc|);
  }

  lemma ResetHolds(g: Graph, s: State, s': State, i: nat, k: nat, j: nat)
    requires Inv(g, s) && ResetStep(g, s, s', i) && j < |s.pc| && k < |s.pc|
    ensures Holds(s', k, j)
  {
    hide Counters;
    assert NodeInv(g, s, i) && Holds(s, k, j);
  }

  lemma ReleasedNode(g: Graph, s: State, s': State, i: nat, j: nat)
    requires Inv(g, s) && ReleasedStep(g, s, s', i) && j < |s.pc|
    ensures NodeInv(g, s', j)
  {
    assert NodeInv(g, s, i) && NodeInv(g, s, j);
    PendingKept(g.succ, s.pc, s'.pc, j, |s.pc|);
  }

  lemma ReleasedHolds(g: Graph, s: State, s': State, i: nat, k: nat, j: nat)
    requires Inv(g, s) && ReleasedStep(g, s, s', i) && j < |s.pc| && k < |s.pc|
    ensures Holds(s', k, j)
  {
    hide Counters;
    assert NodeInv(g, s, i) && Holds(s, k, j);
  }

  lemma HandCountNode(g: Graph, s: State, s': State, i: nat, j: nat)
    requires Inv(g, s) && HandCountStep(g, s, s', i) && j < |s.pc|
    ensures NodeInv(g, s', j)
  {
    HandTarget(g, s, i);
    assert NodeInv(g, s, i) && NodeInv(g, s, j) && NodeInv(g, s, s.pc[i].ready[s.pc[i].t]);
    PendingKept(g.succ, s.pc, s'.pc, j, |s.pc|);
  }

  lemma HandCountHolds(g: Graph, s: State, s': State, i: nat, k: nat, j: nat)
    requires Inv(g, s) && HandCountStep(g, s, s', i) && j < |s.pc| && k < |s.pc|
    ensures Holds(s', k, j)
  {
    HandTarget(g, s, i);
    hide Counters;
    assert NodeInv(g, s, i) && Holds(s, k, j);
    assert s.pc[i].ready[s.pc[i].t..] == [s.pc[i].ready[s.pc[i].t]] + s.pc[i].ready[s.pc[i].t + 1..];
  }

  lemma HandAddNode(g: Graph, s: State, s': State, i: nat, j: nat)
    requires Inv(g, s) && HandAddStep(g, s, s', i) && j < |s.pc|
    ensures NodeInv(g, s', j)
  {
    HandTarget(g, s, i);
    assert NodeInv(g, s, i) && NodeInv(g, s, j) && NodeInv(g, s, s.pc[i].ready[s.pc[i].t]);
    PendingKept(g.succ, s.pc, s'.pc, j, |s.pc|);
  }

  lemma HandAddHolds(g: Graph, s: State, s': State, i: nat, k: nat, j: nat)
    requires Inv(g, s) && HandAddStep(g, s, s', i) && j < |s.pc| && k < |s.pc|
    ensures Holds(s', k, j)
  {
    HandTarget(g, s, i);
    hide Counters;
    assert NodeInv(g, s, i) && Holds(s, k, j);
    assert s.pc[i].ready[s.pc[i].t..] == [s.pc[i].ready[s.pc[i].t]] + s.pc[i].ready[s.pc[i].t + 1..];
  }

  lemma DoneNode(g: Graph, s: State, s': State, i: nat, j: nat)
    requires Inv(g, s) && DoneStep(g, s, s', i) && j < |s.pc|
    ensures NodeInv(g, s', j)
  {
    assert NodeInv(g, s, i) && NodeInv(g, s, j);
    PendingKept(g.succ, s.pc, s'.pc, j, |s.pc|);
  }

  lemma DoneHolds(g: Graph, s: State, s': State, i: nat, k: nat, j: nat)
    requires Inv(g, s) && DoneStep(g, s, s', i) && j < |s.pc| && k < |s.pc|
    ensures Holds(s', k, j)
  {
    hide Counters;
    assert NodeInv(g, s, i) && Holds(s, k, j);
  }

  lemma SeedCountNode(g: Graph, s: State, s': State, x: nat, j: nat)
    requires Inv(g, s) && SeedCountStep(g, s, s', x) && j < |s.pc|
    ensures NodeInv(g, s', j)
  {
    assert NodeInv(g, s, j) && NodeInv(g, s, x);
    PendingKept(g.succ, s.pc, s'.pc, j, |s.pc|);
  }

  lemma SeedCountHolds(g: Graph, s: State, s': State, x: nat, k: nat, j: nat)
    requires Inv(g, s) && SeedCountStep(g, s, s', x) && j < |s.pc| && k < |s.pc|
    ensures Holds(s', k, j)
  {
    hide Counters;
    assert Holds(s, k, j) && NodeInv(g, s, x);
  }

  lemma SeedAddNode(g: Graph, s: State, s': State, x: nat, j: nat)
    requires Inv(g, s) && SeedAddStep(g, s, s', x) && j < |s.pc|
    ensures NodeInv(g, s', j)
  {
    assert NodeInv(g, s, j) && NodeInv(g, s, x);
    PendingKept(g.succ, s.pc, s'.pc, j, |s.pc|);
  }

  lemma SeedAddHolds(g: Graph, s: State, s': State, x: nat, k: nat, j: nat)
    requires Inv(g, s) && SeedAddStep(g, s, s', x) && j < |s.pc| && k < |s.pc|
    ensures Holds(s', k, j)
  {
    hide Counters;
    assert Holds(s, k, j) && NodeInv(g, s, x);
  }

  lemma SeededNode(g: Graph, s: State, s': State, j: nat)
    requires Inv(g, s) && SeededStep(g, s, s') && j < |s.pc|
    ensures NodeInv(g, s', j)
  {
    assert NodeInv(g, s, j);
    PendingKept(g.succ, s.pc, s'.pc, j, |s.pc|);
  }

  lemma SeededHolds(g: Graph, s: State, s': State, k: nat, j: nat)
    requires Inv(g, s) && SeededStep(g, s, s') && j < |s.pc| && k < |s.pc|
    ensures Holds(s', k, j)
  {
    hide Counters;
    assert Holds(s, k, j);
  }

  // The next successor of i to be released is idle, and its counter tells how many edges into it are left.
  lemma ReleaseTarget(g: Graph, s: State, i: nat)
    requires Inv(g, s) && i < |s.pc| && s.pc[i].Releasing? && s.pc[i].t < |g.succ[i]|
    ensures var j := g.succ[i][s.pc[i].t];
            j < |s.pc| && j != i && s.pc[j].Idle? && s.pred[j] == Pending(g.succ, s.pc, j, |s.pc|) > 0 && j !in s.pc[i].ready
  {
    var t := s.pc[i].t;
    var j := g.succ[i][t];
    if Pending(g.succ, s.pc, j, |s.pc|) == 0 { PendingNone(g.succ, s.pc, j, |s.pc|, i, t); }
    assert NodeInv(g, s, j);
    assert Holds(s, i, j);
  }

  lemma ReleasePending(g: Graph, s: State, s': State, i: nat, x: nat)
    requires Inv(g, s) && ReleaseStep(g, s, s', i) && x < |s.pc|
    ensures Pending(g.succ, s'.pc, x, |s.pc|) == Pending(g.succ, s.pc, x, |s.pc|) - (if x == g.succ[i][s.pc[i].t] then 1 else 0)
  {
    ReleaseTarget(g, s, i);
    var t := s.pc[i].t;
    PendingUpdate(g.succ, s.pc, i, s'.pc[i], x, |s.pc|);
    OccTail(g.succ[i], t, x);
    PendingKept(g.succ, s.pc[i := s'.pc[i]], s'.pc, x, |s.pc|);
  }

  lemma ReleaseNode(g: Graph, s: State, s': State, i: nat, x: nat)
    requires Inv(g, s) && ReleaseStep(g, s, s', i) && x < |s.pc|
    ensures NodeInv(g, s', x)
  {
    ReleaseTarget(g, s, i);
    ReleasePending(g, s, s', i, x);
    assert NodeInv(g, s, i) && NodeInv(g, s, x);
  }

  lemma ReleaseHolds(g: Graph, s: State, s': State, i: nat, k: nat, x: nat)
    requires Inv(g, s) && ReleaseStep(g, s, s', i) && x < |s.pc| && k < |s.pc|
    ensures Holds(s', k, x)
  {
    ReleaseTarget(g, s, i);
    hide Counters;
    assert Holds(s, k, x);
  }

  // ----- the two ends of a run

  lemma BeginNode(g: Graph, s: State, s': State, j: nat)
    requires Inv(g, s) && BeginStep(g, s, s') && j < |s.pc|
    ensures NodeInv(g, s', j)
  {
    assert NodeInv(g, s, j);
    NothingReleased(g.succ, s'.pc, j, |s.pc|);
  }

  lemma BeginHolds(g: Graph, s: State, s': State, k: nat, j: nat)
    requires Inv(g, s) && BeginStep(g, s, s') && j < |s.pc| && k < |s.pc|
    ensures Holds(s', k, j)
  {}

  /** A task counter of zero, once the sources are seeded, means that every node is done: an idle node waits for
      an edge, whose node is idle too, and so on down to a node without predecessors. */
  lemma ZeroMeansDone(g: Graph, rank: seq<nat>, s: State, j: nat)
    requires Acyclic(g, rank) && Inv(g, s) && s.body.Waiting? && s.count == 0 && j < |s.pc|
    ensures s.pc[j].Rest?
  {
    NoneActive(s.pc, |s.pc|, j);
    assert NodeInv(g, s, j);
    ReadyNeedsActive(g, s, j);
    if s.pc[j].Idle? { IdleNeedsActive(g, rank, s, j); }
  }

  lemma ReadyNeedsActive(g: Graph, s: State, j: nat)
    requires Inv(g, s) && s.body.Waiting? && j < |s.pc|
    ensures s.count == 0 ==> !s.pc[j].Ready?
  {
    assert NodeInv(g, s, j);
    if s.pc[j].Ready? {
      var i := s.pc[j].holder.i;
      assert Holds(s, i, j);
      if s.count == 0 { NoneActive(s.pc, |s.pc|, i); }
    }
  }

  lemma {:induction false} IdleNeedsActive(g: Graph, rank: seq<nat>, s: State, j: nat)
    requires Acyclic(g, rank) && Inv(g, s) && s.body.Waiting? && s.count == 0 && j < |s.pc| && s.pc[j].Idle?
    ensures false
    decreases rank[j]
  {
    assert NodeInv(g, s, j);
    var i := PendingFrom(g.succ, s.pc, j, |s.pc|);
    NoneActive(s.pc, |s.pc|, i);
    var t :| 0 <= t < |g.succ[i]| && g.succ[i][t] == j;
    assert NodeInv(g, s, i);
    ReadyNeedsActive(g, s, i);
    if s.pc[i].Idle? {
      IdleNeedsActive(g, rank, s, i);
    }
  }

  lemma LeaveNode(g: Graph, rank: seq<nat>, s: State, s': State, j: nat)
    requires Acyclic(g, rank) && Inv(g, s) && LeaveStep(g, s, s') && j < |s.pc|
    ensures NodeInv(g, s', j)
  {
    ZeroMeansDone(g, rank, s, j);
    assert NodeInv(g, s, j);
  }

  lemma LeaveHolds(g: Graph, s: State, s': State, k: nat, j: nat)
    requires Inv(g, s) && LeaveStep(g, s, s') && j < |s.pc| && k < |s.pc|
    ensures Holds(s', k, j)
  {
    hide Counters;
    assert Holds(s, k, j);
  }

  // ----- whole runs

  // Everything in the invariant but the nodes and their lists.
  ghost predicate Frame(g: Graph, s: State) {
    Shape(g, s) && s.count == ActiveCount(s.pc, |s.pc|)
    && (s.body.Seeding? ==> (forall j :: j in s.body.rest || j in s.body.half ==> j < |s.pc|)
                            && forall a, b :: a in s.body.half && b in s.body.half ==> a == b)
    && (forall j :: j in s.bag ==> j < |s.pc|)
    && (forall i: nat, k: nat {:trigger InHand(s.pc[i], k)} :: i < |s.pc| && InHand(s.pc[i], k) ==> k < |s.pc|)
  }

  lemma TakeFrame(g: Graph, s: State, s': State, i: nat)
    requires Inv(g, s) && TakeStep(g, s, s', i)
    ensures Frame(g, s')
  {
    assert NodeInv(g, s, i);
    ActiveUpdate(s.pc, i, Running, |s.pc|);
  }

  lemma OwnFrame(g: Graph, s: State, s': State, i: nat)
    requires Inv(g, s)
    requires ReturnStep(g, s, s', i) || ResetStep(g, s, s', i) || ReleasedStep(g, s, s', i) || DoneStep(g, s, s', i)
    ensures Frame(g, s')
  {
    hide NodeInv, Holds;
    ActiveUpdate(s.pc, i, s'.pc[i], |s.pc|);
    forall a: nat, k: nat {:trigger InHand(s'.pc[a], k)} | a < |s.pc| && InHand(s'.pc[a], k) ensures k < |s.pc| {
      assert a == i && s.pc[i].Releasing? ==> InHand(s.pc[i], k);
    }
  }

  lemma ReleaseFrame(g: Graph, s: State, s': State, i: nat)
    requires Inv(g, s) && ReleaseStep(g, s, s', i)
    ensures Frame(g, s')
  {
    ReleaseTarget(g, s, i);
    hide NodeInv, Holds;
    var j := g.succ[i][s.pc[i].t];
    ActiveUpdate(s.pc, i, s'.pc[i], |s.pc|);
    ActiveUpdate(s.pc[i := s'.pc[i]], j, s'.pc[j], |s.pc|);
    assert s'.pc == s.pc[i := s'.pc[i]][j := s'.pc[j]];
    forall a: nat, k: nat {:trigger InHand(s'.pc[a], k)} | a < |s.pc| && InHand(s'.pc[a], k) ensures k < |s.pc| {
      assert a == i ==> InHand(s.pc[i], k) || k == j;
    }
  }

  lemma HandFrame(g: Graph, s: State, s': State, i: nat)
    requires Inv(g, s) && (HandCountStep(g, s, s', i) || HandAddStep(g, s, s', i))
    ensures Frame(g, s')
  {
    HandTarget(g, s, i);
    hide NodeInv, Holds;
    var t, ready := s.pc[i].t, s.pc[i].ready;
    var r := ready[t];
    ActiveUpdate(s.pc, i, s'.pc[i], |s.pc|);
    ActiveUpdate(s.pc[i := s'.pc[i]], r, s'.pc[r], |s.pc|);
    assert ready[t..] == [r] + ready[t + 1..];
    forall a: nat, k: nat {:trigger InHand(s'.pc[a], k)} | a < |s.pc| && InHand(s'.pc[a], k) ensures k < |s.pc| {
      assert a == i ==> InHand(s.pc[i], k);
      assert a != r;
    }
  }

  lemma SeedFrame(g: Graph, s: State, s': State, j: nat)
    requires Inv(g, s) && (SeedCountStep(g, s, s', j) || SeedAddStep(g, s, s', j))
    ensures Frame(g, s')
  {
    assert NodeInv(g, s, j);
    hide Counters, Holds;
    ActiveUpdate(s.pc, j, s'.pc[j], |s.pc|);
  }

  lemma BeginFrame(g: Graph, s: State, s': State)
    requires Inv(g, s) && BeginStep(g, s, s')
    ensures Frame(g, s')
  {
    hide Holds;
    forall j | 0 <= j < |s.pc| ensures !Active(s.pc[j]) { assert NodeInv(g, s, j); }
    NoneCounted(s.pc, |s.pc|);
    NoneCounted(s'.pc, |s.pc|);
  }

  lemma CallerInv(g: Graph, rank: seq<nat>, s: State, s': State, x: nat)
    requires Acyclic(g, rank) && Inv(g, s) && CallerStep(g, s, s', x)
    ensures Inv(g, s')
  {
    assert Frame(g, s') by {
      hide NodeInv, Holds;
      if SeedCountStep(g, s, s', x) || SeedAddStep(g, s, s', x) { SeedFrame(g, s, s', x); }
    }
    hide SeedCountStep, SeedAddStep, SeededStep, LeaveStep, NodeInv, Holds, Acyclic;
    assert |s'.pc| == |s.pc| by { assert Shape(g, s) && Shape(g, s'); }
    forall j | 0 <= j < |s'.pc| ensures NodeInv(g, s', j) {
      hide Inv, Frame;
      if SeedCountStep(g, s, s', x) { SeedCountNode(g, s, s', x, j); }
      else if SeedAddStep(g, s, s', x) { SeedAddNode(g, s, s', x, j); }
      else if SeededStep(g, s, s') { SeededNode(g, s, s', j); }
      else { LeaveNode(g, rank, s, s', j); }
    }
    forall i, j | 0 <= i < |s'.pc| && 0 <= j < |s'.pc| ensures Holds(s', i, j) {
      hide Inv, Frame;
      if SeedCountStep(g, s, s', x) { SeedCountHolds(g, s, s', x, i, j); }
      else if SeedAddStep(g, s, s', x) { SeedAddHolds(g, s, s', x, i, j); }
      else if SeededStep(g, s, s') { SeededHolds(g, s, s', i, j); }
      else { LeaveHolds(g, s, s', i, j); }
    }
  }

  lemma NodeFrame(g: Graph, s: State, s': State, i: nat)
    requires Inv(g, s) && NodeStep(g, s, s', i)
    ensures Frame(g, s') && |s'.pc| == |s.pc|
  {
    assert Shape(g, s);
    hide Inv, TakeStep, ReturnStep, ResetStep, ReleaseStep, ReleasedStep, HandCountStep, HandAddStep, DoneStep;
    if TakeStep(g, s, s', i) { TakeFrame(g, s, s', i); }
    else if ReleaseStep(g, s, s', i) { ReleaseFrame(g, s, s', i); }
    else if HandCountStep(g, s, s', i) || HandAddStep(g, s, s', i) { HandFrame(g, s, s', i); }
    else { OwnFrame(g, s, s', i); }
    assert Shape(g, s');
  }

  lemma NodeKept(g: Graph, s: State, s': State, i: nat, j: nat)
    requires Inv(g, s) && NodeStep(g, s, s', i) && j < |s.pc|
    ensures Shape(g, s') && |s'.pc| == |s.pc| && NodeInv(g, s', j)
  {
    NodeFrame(g, s, s', i);
    hide Inv, NodeInv, TakeStep, ReturnStep, ResetStep, ReleaseStep, ReleasedStep, HandCountStep, HandAddStep, DoneStep;
    if TakeStep(g, s, s', i) { TakeNode(g, s, s', i, j); }
    else if ReturnStep(g, s, s', i) { ReturnNode(g, s, s', i, j); }
    else if ResetStep(g, s, s', i) { ResetNode(g, s, s', i, j); }
    else if ReleaseStep(g, s, s', i) { ReleaseNode(g, s, s', i, j); }
    else if ReleasedStep(g, s, s', i) { ReleasedNode(g, s, s', i, j); }
    else if HandCountStep(g, s, s', i) { HandCountNode(g, s, s', i, j); }
    else if HandAddStep(g, s, s', i) { HandAddNode(g, s, s', i, j); }
    else { DoneNode(g, s, s', i, j); }
  }

  lemma HoldsKept(g: Graph, s: State, s': State, i: nat, k: nat, j: nat)
    requires Inv(g, s) && NodeStep(g, s, s', i) && j < |s.pc| && k < |s.pc|
    ensures |s'.pc| == |s.pc| && Holds(s', k, j)
  {
    NodeFrame(g, s, s', i);
    hide Inv, Holds, TakeStep, ReturnStep, ResetStep, ReleaseStep, ReleasedStep, HandCountStep, HandAddStep, DoneStep;
    if TakeStep(g, s, s', i) { TakeHolds(g, s, s', i, k, j); }
    else if ReturnStep(g, s, s', i) { ReturnHolds(g, s, s', i, k, j); }
    else if ResetStep(g, s, s', i) { ResetHolds(g, s, s', i, k, j); }
    else if ReleaseStep(g, s, s', i) { ReleaseHolds(g, s, s', i, k, j); }
    else if ReleasedStep(g, s, s', i) { ReleasedHolds(g, s, s', i, k, j); }
    else if HandCountStep(g, s, s', i) { HandCountHolds(g, s, s', i, k, j); }
    else if HandAddStep(g, s, s', i) { HandAddHolds(g, s, s', i, k, j); }
    else { DoneHolds(g, s, s', i, k, j); }
  }

  lemma NodeStepInv(g: Graph, s: State, s': State, i: nat)
    requires Inv(g, s) && NodeStep(g, s, s', i)
    ensures Inv(g, s')
  {
    NodeFrame(g, s, s', i);
    hide NodeInv, Holds, NodeStep;
    forall j | 0 <= j < |s'.pc| ensures NodeInv(g, s', j) { NodeKept(g, s, s', i, j); }
    forall k, j | 0 <= k < |s'.pc| && 0 <= j < |s'.pc| ensures Holds(s', k, j) { HoldsKept(g, s, s', i, k, j); }
  }

  lemma BeginInv(g: Graph, s: State, s': State)
    requires Inv(g, s) && BeginStep(g, s, s')
    ensures Inv(g, s')
  {
    BeginFrame(g, s, s');
    hide NodeInv, Holds;
    forall j | 0 <= j < |s'.pc| ensures NodeInv(g, s', j) { BeginNode(g, s, s', j); }
    forall k, j | 0 <= k < |s'.pc| && 0 <= j < |s'.pc| ensures Holds(s', k, j) { BeginHolds(g, s, s', k, j); }
  }

  lemma InitInv(g: Graph, s: State)
    requires Init(g, s)
    ensures Inv(g, s)
  {
    NoneCounted(s.pc, |s.pc|);
    forall j | 0 <= j < |s.pc| ensures NodeInv(g, s, j) { AllReleased(g.succ, s.pc, j, |s.pc|); }
  }

  lemma {:induction false} RunInv(g: Graph, rank: seq<nat>, tr: seq<State>, i: nat)
    requires Acyclic(g, rank) && IsRun(g, tr) && i < |tr|
    ensures Inv(g, tr[i])
  {
    hide Inv, Init, Acyclic, BeginStep, CallerStep, NodeStep;
    if i == 0 {
      InitInv(g, tr[0]);
    } else {
      RunInv(g, rank, tr, i - 1);
      var s, s' := tr[i - 1], tr[i];
      assert Next(g, s, s');
      if BeginStep(g, s, s') {
        BeginInv(g, s, s');
      } else {
        var x: nat :| CallerStep(g, s, s', x) || NodeStep(g, s, s', x);
        if CallerStep(g, s, s', x) { CallerInv(g, rank, s, s', x); } else { NodeStepInv(g, s, s', x); }
      }
    }
  }

  // ----- the theorems

  /** Within a run a node starts only after all its predecessors have returned, and starts at most once. */
  lemma AfterPredecessors(g: Graph, rank: seq<nat>, tr: seq<State>, i: nat, p: nat, t: nat)
    requires Acyclic(g, rank) && IsRun(g, tr) && i < |tr| && p < |g.succ| && t < |g.succ[p]|
    ensures Shape(g, tr[i])
    ensures var s, j := tr[i], g.succ[p][t];
            s.rounds <= s.runs[j] <= s.rounds + 1
            && (s.runs[j] > s.rounds ==> HasRun(s.pc[j]) && ResetDone(s.pc[p]) && s.runs[p] == s.rounds + 1)
  {
    RunInv(g, rank, tr, i);
    var s, j := tr[i], g.succ[p][t];
    assert NodeInv(g, s, j) && NodeInv(g, s, p);
    if Pending(g.succ, s.pc, j, |s.pc|) == 0 { PendingNone(g.succ, s.pc, j, |s.pc|, p, t); }
  }

  /** When the caller has returned for the k-th time every node has run exactly k times, every counter is back at
      its number of predecessors, the task counter is zero and nothing is left in the bag: the graph can be run
      again. */
  lemma ReadyForReplay(g: Graph, rank: seq<nat>, tr: seq<State>, i: nat)
    requires Acyclic(g, rank) && IsRun(g, tr) && i < |tr| && tr[i].body.Out?
    ensures Shape(g, tr[i]) && tr[i].pred == g.hard && tr[i].count == 0 && tr[i].bag == multiset{}
    ensures forall j :: 0 <= j < |g.succ| ==> tr[i].runs[j] == tr[i].rounds
  {
    RunInv(g, rank, tr, i);
    var s := tr[i];
    forall j | 0 <= j < |g.succ| ensures s.pred[j] == g.hard[j] && s.runs[j] == s.rounds && s.pc[j].Rest? && s.bag[j] == 0 {
      assert NodeInv(g, s, j);
    }
    NoneCounted(s.pc, |s.pc|);
    forall j ensures j !in s.bag {}
  }

  // A step that is no new run.
  ghost predicate Works(g: Graph, s: State, s': State) { exists x: nat :: CallerStep(g, s, s', x) || NodeStep(g, s, s', x) }

  // An active node moves, or its holder does.
  lemma ActiveMoves(g: Graph, s: State, i: nat)
    requires Inv(g, s) && i < |s.pc| && Active(s.pc[i]) && s.body.Waiting?
    ensures exists s' :: Works(g, s, s')
  {
    assert NodeInv(g, s, i);
    var x := if s.pc[i].Counted? then s.pc[i].holder.i else i;
    if s.pc[i].Counted? { assert Holds(s, x, i); }
    assert NodeInv(g, s, x);
    if s.pc[x].Adding? && s.pc[x].t < |s.pc[x].ready| { HandTarget(g, s, x); }
    if s.pc[x].Releasing? && s.pc[x].t < |g.succ[x]| { ReleaseTarget(g, s, x); }
    hide Inv, NodeInv, Holds;
    var s' := NextOf(g, s, x);
    assert NodeStep(g, s, s', x);
    assert Works(g, s, s');
  }

  ghost function NextOf(g: Graph, s: State, i: nat): State
    requires Shape(g, s) && i < |s.pc|
    requires s.pc[i].Releasing? && s.pc[i].t < |g.succ[i]| ==> g.succ[i][s.pc[i].t] < |s.pc|
    requires s.pc[i].Adding? && s.pc[i].t < |s.pc[i].ready| ==> s.pc[i].ready[s.pc[i].t] < |s.pc|
  {
    match s.pc[i]
    case Queued => Goes(s, i, Running).(bag := s.bag - multiset{i}, runs := s.runs[i := s.runs[i] + 1])
    case Running => Goes(s, i, Returned)
    case Returned => Goes(s, i, Releasing(0, [])).(pred := s.pred[i := g.hard[i]])
    case Releasing(t, ready) =>
      if t >= |g.succ[i]| then Goes(s, i, Adding(ready, 0, false))
      else
        var j := g.succ[i][t];
        (if s.pred[j] == 1 then Goes(Goes(s, i, Releasing(t + 1, ready + [j])), j, Ready(Node(i)))
         else Goes(s, i, Releasing(t + 1, ready))).(pred := s.pred[j := s.pred[j] - 1])
    case Adding(ready, t, half) =>
      if t >= |ready| then Goes(s, i, Rest).(count := s.count - 1)
      else if half then Goes(Goes(s, i, Adding(ready, t + 1, false)), ready[t], Queued).(bag := s.bag + multiset{ready[t]})
      else Goes(Goes(s, i, Adding(ready, t, true)), ready[t], Counted(Node(i))).(count := s.count + 1)
    case _ => s
  }

  /** A run is never stuck: until the caller has returned, the caller or some executor can take a step. */
  lemma NeverStuck(g: Graph, rank: seq<nat>, tr: seq<State>, i: nat)
    requires Acyclic(g, rank) && IsRun(g, tr) && i < |tr| && !tr[i].body.Out?
    ensures exists s' :: Works(g, tr[i], s')
  {
    RunInv(g, rank, tr, i);
    var s := tr[i];
    if s.body.Waiting? && s.count > 0 {
      var a := SomeActive(s.pc, |s.pc|);
      ActiveMoves(g, s, a);
    } else {
      var x := if s.body.Waiting? then 0 else if s.body.half != {} then (var y :| y in s.body.half; y)
               else if s.body.rest != {} then (var y :| y in s.body.rest; y) else 0;
      var s' := if s.body.Waiting? then s.(body := Out, rounds := s.rounds + 1)
                else if s.body.half != {} then Goes(s, x, Queued).(bag := s.bag + multiset{x}, body := Seeding(s.body.rest, s.body.half - {x}))
                else if s.body.rest != {} then Goes(s, x, Counted(Caller)).(count := s.count + 1, body := Seeding(s.body.rest - {x}, {x}))
                else s.(body := Waiting);
      assert CallerStep(g, s, s', x);
      assert Works(g, s, s');
    }
  }
}
