/** Every step of a run of a graph leaves less to do, so the run comes to its end and the caller returns. */
module StaticGraphProgress {
  import opened Sums
  import opened Edges
  import opened StaticGraph
  import opened StaticGraphProof

  // The steps that a node with deg successors has still to take at most, and the caller.
  function NodeLeft(deg: nat, pc: Pc): nat {
    match pc
    case Idle => 8 + 3 * deg
    case Ready(_) => 7 + 3 * deg
    case Counted(_) => 6 + 3 * deg
    case Queued => 5 + 3 * deg
    case Running => 4 + 3 * deg
    case Returned => 3 + 3 * deg
    case Releasing(t, ready) => 2 + 2 * |ready| + if t < deg then 3 * (deg - t) else 0
    case Adding(ready, t, half) => 1 + if t < |ready| then 2 * (|ready| - t) - (if half then 1 else 0) else 0
    case Rest => 0
  }

  function BodyLeft(b: Body): nat {
    match b
    case Out => 0
    case Waiting => 1
    case Seeding(rest, half) => 2 + 2 * |rest| + |half|
  }

  function Weights(g: Graph, s: State): (w: seq<nat>)
    requires |s.pc| == |g.succ|
    ensures |w| == |s.pc| && forall i :: 0 <= i < |w| ==> w[i] == NodeLeft(|g.succ[i]|, s.pc[i])
  {
    seq(|s.pc|, i requires 0 <= i < |s.pc| => NodeLeft(|g.succ[i]|, s.pc[i]))
  }

  function Left(g: Graph, s: State): nat
    requires |s.pc| == |g.succ|
  {
    Sum(Weights(g, s)) + BodyLeft(s.body)
  }

  // No node has more to do, and node i has less.
  ghost predicate Lower(g: Graph, s: State, s': State, i: nat) {
    |s.pc| == |s'.pc| == |g.succ| && i < |s.pc| && NodeLeft(|g.succ[i]|, s'.pc[i]) < NodeLeft(|g.succ[i]|, s.pc[i])
    && forall k {:trigger s'.pc[k]} :: 0 <= k < |s.pc| ==> NodeLeft(|g.succ[k]|, s'.pc[k]) <= NodeLeft(|g.succ[k]|, s.pc[k])
  }

  lemma LowerLeft(g: Graph, s: State, s': State, i: nat)
    requires Lower(g, s, s', i)
    ensures Sum(Weights(g, s')) < Sum(Weights(g, s))
  {
    SumLess(Weights(g, s), Weights(g, s'), i);
  }

  lemma NodeLowers(g: Graph, s: State, s': State, i: nat)
    requires Inv(g, s) && NodeStep(g, s, s', i)
    ensures Lower(g, s, s', i) && s'.body == s.body
  {
    hide Inv, NodeStep, ReleaseStep, HandCountStep, HandAddStep, Lower;
    if ReleaseStep(g, s, s', i) { ReleaseLowers(g, s, s', i); }
    else if HandCountStep(g, s, s', i) { HandCountLowers(g, s, s', i); }
    else if HandAddStep(g, s, s', i) { HandAddLowers(g, s, s', i); }
    else { OwnLowers(g, s, s', i); }
  }

  lemma OwnLowers(g: Graph, s: State, s': State, i: nat)
    requires Inv(g, s) && NodeStep(g, s, s', i) && !ReleaseStep(g, s, s', i) && !HandCountStep(g, s, s', i) && !HandAddStep(g, s, s', i)
    ensures Lower(g, s, s', i) && s'.body == s.body
  {
    if i < |s.pc| { assert NodeInv(g, s, i); }
    hide Inv, ReleaseStep, HandCountStep, HandAddStep, WellBuilt;
  }

  lemma ReleaseLowers(g: Graph, s: State, s': State, i: nat)
    requires Inv(g, s) && ReleaseStep(g, s, s', i)
    ensures Lower(g, s, s', i) && s'.body == s.body
  {
    ReleaseTarget(g, s, i);
    var j := g.succ[i][s.pc[i].t];
    assert NodeInv(g, s, j) && NodeInv(g, s, i);
    PendingSome(g, s, i, j);
    hide Inv, WellBuilt;
  }

  // A node that a running predecessor has still to release is idle.
  lemma PendingSome(g: Graph, s: State, i: nat, j: nat)
    requires Inv(g, s) && i < |s.pc| && j < |s.pc| && s.pc[i].Releasing? && s.pc[i].t < |g.succ[i]| && g.succ[i][s.pc[i].t] == j
    ensures s.pc[j].Idle?
  {
    assert NodeInv(g, s, j);
    if Pending(g.succ, s.pc, j, |s.pc|) == 0 { PendingNone(g.succ, s.pc, j, |s.pc|, i, s.pc[i].t); }
  }

  lemma HandCountLowers(g: Graph, s: State, s': State, i: nat)
    requires Inv(g, s) && HandCountStep(g, s, s', i)
    ensures Lower(g, s, s', i) && s'.body == s.body
  {
    HandTarget(g, s, i);
    assert Holds(s, i, s.pc[i].ready[s.pc[i].t]);
    hide Inv, WellBuilt;
  }

  lemma HandAddLowers(g: Graph, s: State, s': State, i: nat)
    requires Inv(g, s) && HandAddStep(g, s, s', i)
    ensures Lower(g, s, s', i) && s'.body == s.body
  {
    HandTarget(g, s, i);
    assert Holds(s, i, s.pc[i].ready[s.pc[i].t]);
    hide Inv, WellBuilt;
  }

  lemma SeedLowers(g: Graph, s: State, s': State, j: nat)
    requires Inv(g, s) && (SeedCountStep(g, s, s', j) || SeedAddStep(g, s, s', j))
    ensures Lower(g, s, s', j) && BodyLeft(s'.body) < BodyLeft(s.body)
  {
    assert NodeInv(g, s, j);
    hide Inv, WellBuilt, Counters;
  }

  lemma CallerLowers(g: Graph, s: State, s': State, j: nat)
    requires Inv(g, s) && CallerStep(g, s, s', j)
    ensures |s.pc| == |s'.pc| == |g.succ| && Left(g, s') < Left(g, s)
  {
    if SeedCountStep(g, s, s', j) || SeedAddStep(g, s, s', j) {
      SeedLowers(g, s, s', j);
      LowerLeft(g, s, s', j);
    } else {
      hide Inv, WellBuilt, SeedCountStep, SeedAddStep;
      assert Weights(g, s') == Weights(g, s);
    }
    hide Inv, CallerStep, BodyLeft, Lower;
  }

  /** Every step of the caller or an executor leaves less to do. */
  lemma WorksLowers(g: Graph, s: State, s': State)
    requires Inv(g, s) && Works(g, s, s')
    ensures |s.pc| == |s'.pc| == |g.succ| && Left(g, s') < Left(g, s)
  {
    var x: nat :| CallerStep(g, s, s', x) || NodeStep(g, s, s', x);
    hide CallerStep, NodeStep, Inv;
    if CallerStep(g, s, s', x) {
      CallerLowers(g, s, s', x);
    } else {
      NodeLowers(g, s, s', x);
      LowerLeft(g, s, s', x);
    }
  }

  ghost predicate Extends(tr: seq<State>, tr': seq<State>) { 0 < |tr| <= |tr'| && tr'[..|tr|] == tr }

  lemma Progress(g: Graph, rank: seq<nat>, tr: seq<State>) returns (more: seq<State>)
    requires Acyclic(g, rank) && IsRun(g, tr) && !tr[|tr| - 1].body.Out?
    ensures IsRun(g, more) && Extends(tr, more) && |tr[|tr| - 1].pc| == |more[|more| - 1].pc| == |g.succ|
    ensures Left(g, more[|more| - 1]) < Left(g, tr[|tr| - 1]) && Works(g, tr[|tr| - 1], more[|more| - 1])
  {
    var s := tr[|tr| - 1];
    RunInv(g, rank, tr, |tr| - 1);
    hide Inv, Init, Works, Left, Acyclic;
    NeverStuck(g, rank, tr, |tr| - 1);
    var s' :| Works(g, s, s');
    WorksLowers(g, s, s');
    assert Next(g, s, s') by { WorksNext(g, s, s'); }
    more := tr + [s'];
    hide Next;
    forall i | 0 <= i < |more| - 1 ensures Next(g, more[i], more[i + 1]) { assert i < |tr| - 1 ==> Next(g, tr[i], tr[i + 1]); }
  }

  lemma WorksNext(g: Graph, s: State, s': State)
    requires Works(g, s, s')
    ensures Next(g, s, s')
  {
    hide CallerStep, NodeStep, BeginStep;
  }

  // A step ends the run, or stays in it.
  lemma SameRound(g: Graph, s: State, s': State)
    requires Works(g, s, s') && !s.body.Out?
    ensures s'.rounds == s.rounds + (if s'.body.Out? then 1 else 0)
  {}

  function Measure(g: Graph, s: State): nat { if |s.pc| == |g.succ| then Left(g, s) else 0 }

  /** From every state of a run the graph gets to where the caller has returned from it, every node having run once
      more; and from there the caller can start it again. */
  lemma {:induction false} Completes(g: Graph, rank: seq<nat>, tr: seq<State>) returns (tr': seq<State>)
    requires Acyclic(g, rank) && IsRun(g, tr)
    ensures IsRun(g, tr') && Extends(tr, tr')
    ensures var s, s' := tr[|tr| - 1], tr'[|tr'| - 1];
            s'.body.Out? && s'.rounds == s.rounds + (if s.body.Out? then 0 else 1)
            && (forall j :: 0 <= j < |g.succ| && j < |s'.runs| ==> s'.runs[j] == s'.rounds) && exists next :: BeginStep(g, s', next)
    decreases Measure(g, tr[|tr| - 1])
  {
    if tr[|tr| - 1].body.Out? {
      tr' := tr;
      hide IsRun, Acyclic, BeginStep;
      ReadyForReplay(g, rank, tr, |tr| - 1);
      MayBegin(g, tr[|tr| - 1]);
    } else {
      hide IsRun, Acyclic, BeginStep, Works, Left;
      var more := Progress(g, rank, tr);
      SameRound(g, tr[|tr| - 1], more[|more| - 1]);
      tr' := Completes(g, rank, more);
      assert tr'[..|tr|] == tr'[..|more|][..|tr|];
    }
  }

  lemma MayBegin(g: Graph, s: State)
    requires Shape(g, s) && s.body.Out?
    ensures exists next :: BeginStep(g, s, next)
  {
    var next := s.(body := Seeding(g.src, {}), pc := seq(|s.pc|, i requires 0 <= i => if i in g.src then Ready(Caller) else Idle));
    assert BeginStep(g, s, next);
  }
}
