/** Every step takes a rank further through the allreduce, so the call comes to its end for every rank. */
module AllreduceProgress {
  import opened Sums
  import opened Division
  import opened Pow2Math
  import opened Segments
  import opened ReduceRounds
  import opened Allreduce
  import opened AllreduceProof

  // The steps within a position of the program: two for each index.
  function Inner(pc: Pc): nat {
    match pc
    case PreLoad(x) => 2 * x
    case PreStore(x, _) => 2 * x + 1
    case Load(_, x) => 2 * x
    case Store(_, x, _) => 2 * x + 1
    case PostLoad(x) => 2 * x
    case PostStore(x, _) => 2 * x + 1
    case _ => 0
  }

  function Width(c: Config): nat { 2 * c.count + 2 }

  function Progressed(c: Config, pc: Pc): nat { Position(c, pc) * Width(c) + Inner(pc) }

  function Whole(c: Config): nat { (10 + 6 * c.nsteps) * Width(c) }

  function ToGo(c: Config, pc: Pc): nat { if Progressed(c, pc) < Whole(c) && !pc.Done? then Whole(c) - Progressed(c, pc) else 0 }

  lemma InnerBelow(c: Config, s: State, r: nat)
    requires WellFormed(c, s) && r < c.size
    ensures Inner(s.pc[r]) < Width(c) && Position(c, s.pc[r]) < 10 + 6 * c.nsteps
  {
    hide Pow2, Block, Low, Levels, Fences, Leaf, Flip;
    assert PcOk(c, r, s.pc[r]);
    if s.pc[r].PreLoad? || s.pc[r].PreStore? { SegmentInside(c, r, 1); }
    if s.pc[r].Load? || s.pc[r].Store? { StageInside(c, Virtual(c, r), s.pc[r].t); }
  }

  lemma {:induction false} SegmentInside(c: Config, v: nat, k: nat)
    requires c.count >= 1
    ensures Levels(v, c.count, k).end < c.count
  {
    if k > 0 { SegmentInside(c, v, k - 1); }
  }

  lemma StageInside(c: Config, v: nat, t: nat)
    requires c.count >= 1 && t < 2 * c.nsteps
    ensures Segment(c, v, t).end < c.count
  {
    hide Levels;
    SegmentInside(c, v, 0);
  }

  lemma FurtherCases(c: Config, a: Pc, b: Pc)
    requires Further(c, a, b)
    ensures Position(c, a) < Position(c, b) || (Position(c, a) == Position(c, b) && Inner(a) < Inner(b))
  {}

  lemma FurtherGrows(c: Config, a: Pc, b: Pc)
    requires Further(c, a, b) && Inner(a) < Width(c)
    ensures Progressed(c, a) < Progressed(c, b)
  {
    FurtherCases(c, a, b);
    hide Position, Inner, Width, Further;
    MulOrder(Position(c, a), Position(c, b), Width(c));
  }

  lemma FurtherLowers(c: Config, a: Pc, b: Pc)
    requires Further(c, a, b) && Inner(a) < Width(c) && Position(c, a) < 10 + 6 * c.nsteps && !a.Done?
    ensures ToGo(c, b) < ToGo(c, a)
  {
    FurtherGrows(c, a, b);
    hide Position, Inner, Width, Further;
    MulOrder(Position(c, a), 10 + 6 * c.nsteps, Width(c));
  }

  function Weights(c: Config, s: State): (w: seq<nat>)
    ensures |w| == |s.pc| && forall r :: 0 <= r < |w| ==> w[r] == ToGo(c, s.pc[r])
  {
    seq(|s.pc|, r requires 0 <= r < |s.pc| => ToGo(c, s.pc[r]))
  }

  ghost predicate AllReturned(c: Config, s: State) { |s.pc| == c.size && forall r {:trigger s.pc[r]} :: 0 <= r < c.size ==> s.pc[r].Done? }

  ghost predicate Extends(tr: seq<State>, tr': seq<State>) { 0 < |tr| <= |tr'| && tr'[..|tr|] == tr }

  lemma Lengths(c: Config, tr: seq<State>)
    requires IsRun(c, tr)
    ensures WellFormed(c, tr[|tr| - 1])
  {
    RunInv(c, tr, |tr| - 1);
  }

  lemma Progress(c: Config, tr: seq<State>) returns (more: seq<State>)
    requires IsRun(c, tr) && !AllReturned(c, tr[|tr| - 1])
    ensures IsRun(c, more) && Extends(tr, more)
    ensures Sum(Weights(c, more[|more| - 1])) < Sum(Weights(c, tr[|tr| - 1]))
  {
    var s := tr[|tr| - 1];
    Lengths(c, tr);
    assert |s.pc| == c.size;
    var q: nat :| q < c.size && !s.pc[q].Done?;
    hide Init, ToGo, Enabled, Moved, Further, Position, WellFormed;
    var r := NeverStuck(c, tr, |tr| - 1);
    var s' := Moved(c, s, r);
    assert Step(c, s, s', r);
    assert Next(c, s, s');
    more := tr + [s'];
    forall i | 0 <= i < |more| - 1 ensures Next(c, more[i], more[i + 1]) { assert i < |tr| - 1 ==> Next(c, tr[i], tr[i + 1]); }
    hide Next, IsRun, Step;
    StepShape(c, s, s', r);
    InnerBelow(c, s, r);
    NotDoneYet(c, s, r);
    FurtherLowers(c, s.pc[r], s'.pc[r]);
    SumLess(Weights(c, s), Weights(c, s'), r);
  }

  lemma StepShape(c: Config, s: State, s': State, r: nat)
    requires Step(c, s, s', r)
    ensures |s'.pc| == |s.pc| == c.size && r < c.size && forall q :: 0 <= q < c.size && q != r ==> s'.pc[q] == s.pc[q]
  {
    StepWellFormed(c, s, s', r);
  }

  lemma NotDoneYet(c: Config, s: State, r: nat)
    requires Enabled(c, s, r)
    ensures r < |s.pc| && !s.pc[r].Done?
  {}

  ghost predicate HoldSums(c: Config, s: State) {
    c.Valid() && |s.recv| == c.size && forall r, x {:trigger s.recv[r][x]} :: 0 <= r < c.size && 0 <= x < c.count ==> x < |s.recv[r]| && s.recv[r][x] == Total(c, x)
  }

  lemma SumsHeld(c: Config, tr: seq<State>)
    requires IsRun(c, tr) && AllReturned(c, tr[|tr| - 1])
    ensures HoldSums(c, tr[|tr| - 1])
  {
    var s := tr[|tr| - 1];
    Lengths(c, tr);
    hide IsRun, Total, PcOk;
    forall r, x {:trigger s.recv[r][x]} | 0 <= r < c.size && 0 <= x < c.count ensures x < |s.recv[r]| && s.recv[r][x] == Total(c, x) {
      ReturnedHoldsTheSum(c, tr, |tr| - 1, r, x);
    }
  }

  /** From every reachable state the run can be continued to where all ranks have returned, and then every receive buffer
      holds the sum over all send buffers. */
  lemma {:induction false} Completes(c: Config, tr: seq<State>) returns (tr': seq<State>)
    requires IsRun(c, tr)
    ensures IsRun(c, tr') && Extends(tr, tr') && AllReturned(c, tr'[|tr'| - 1])
    ensures HoldSums(c, tr'[|tr'| - 1])
    decreases Sum(Weights(c, tr[|tr| - 1]))
  {
    if AllReturned(c, tr[|tr| - 1]) {
      tr' := tr;
      SumsHeld(c, tr);
    } else {
      hide IsRun, AllReturned, HoldSums;
      var more := Progress(c, tr);
      tr' := Completes(c, more);
      assert tr'[..|tr|] == tr'[..|more|][..|tr|];
    }
  }
}
