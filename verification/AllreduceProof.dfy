/** The allreduce is correct under every interleaving: whenever a rank returns, its receive buffer holds
    the sum over all ranks at every index; nobody writes what somebody else is reading; and the ranks
    never block one another for good. */
module AllreduceProof {
  import opened Pow2Math
  import opened Segments
  import opened ReduceRounds
  import opened Allreduce

  // ----- the control flow of one step

  lemma StepWellFormed(c: Config, s: State, s': State, r: nat)
    requires Step(c, s, s', r)
    ensures WellFormed(c, s')
    ensures forall q :: 0 <= q < c.size && q != r ==> s'.pc[q] == s.pc[q]
  {
    hide Pow2, Block, Low, Flip, Levels, Loaded, Fences, Leaf;
    assert PcOk(c, r, s'.pc[r]);
    forall q | 0 <= q < c.size ensures PcOk(c, q, s'.pc[q]) {
      assert PcOk(c, q, s.pc[q]);
    }
  }

  /** A stage fence lets r through exactly when its peer of that stage has entered the fence, although the
      two ranks share one peer fence for both stages at which they meet. */
  lemma StageSpinExact(c: Config, s: State, r: nat, t: nat)
    requires WellFormed(c, s) && r < c.size && Virtual(c, r) >= 0 && t < 2 * c.nsteps
    requires Dest(c, r, t) < c.size && StagesEntered(c, s.pc[Dest(c, r, t)]) <= 2 * c.nsteps
    ensures StageSpinPasses(c, s, r, t) <==> StagesEntered(c, s.pc[Dest(c, r, t)]) > t
  {
    DestFacts(c, r, t);
    hide Flip;
    var q := Dest(c, r, t);
    var v, w, e := Virtual(c, r), Virtual(c, q), StagesEntered(c, s.pc[q]);
    DestFacts(c, q, t);
    FencesSymmetric(c, v, w, t);
    if e > t {
      FencesMono(c, w, v, t + 1, e);
    } else {
      FencesMono(c, w, v, e, t);
    }
  }

  lemma EnteredBounded(c: Config, s: State, r: nat)
    requires WellFormed(c, s) && r < c.size
    ensures StagesEntered(c, s.pc[r]) <= 2 * c.nsteps && StagesLeft(c, s.pc[r]) <= 2 * c.nsteps
    ensures forall x :: StagesDone(c, s.pc[r], x) <= 2 * c.nsteps
  {
    assert PcOk(c, r, s.pc[r]);
  }

  lemma Monotone(c: Config, s: State, s': State, r: nat)
    requires Step(c, s, s', r)
    ensures |s'.pc| == c.size && FullEntered(s'.pc[r]) >= FullEntered(s.pc[r])
    ensures StagesEntered(c, s'.pc[r]) >= StagesEntered(c, s.pc[r])
  {
    hide Pow2, Block, Low, Flip, Levels, Loaded, Fences, Leaf;
    assert PcOk(c, r, s.pc[r]);
  }

  lemma SyncStep(c: Config, s: State, s': State, r: nat, q: nat)
    requires Inv(c, s) && Step(c, s, s', r) && q < c.size
    requires WellFormed(c, s')
    ensures StageSync(c, s', q) && FullSync(c, s', q)
  {
    hide Pow2, Block, Low, Flip, Levels, Loaded, Fences, Leaf;
    StepWellFormed(c, s, s', r);
    Monotone(c, s, s', r);
    assert FullSync(c, s, q) && StageSync(c, s, q);
    if Virtual(c, q) >= 0 {
      forall t | 0 <= t < StagesLeft(c, s'.pc[q]) && t < 2 * c.nsteps
        ensures Dest(c, q, t) < c.size && StagesEntered(c, s'.pc[Dest(c, q, t)]) > t
      {
        DestFacts(c, q, t);
        if t >= StagesLeft(c, s.pc[q]) {
          assert q == r && s.pc[r] == StageSpin(t);
          EnteredBounded(c, s, Dest(c, r, t));
          StageSpinExact(c, s, r, t);
        }
      }
    }
  }

  // ----- loads

  // A rank past the first fence finds every folded cell in place.
  lemma FoldedBefore(c: Config, s: State, r: nat, q: nat, x: nat)
    requires Inv(c, s) && r < c.size && q < c.size && x < c.count
    requires FullLeft(s.pc[r]) >= 1 && Virtual(c, q) >= 0 && Paired(c, q)
    ensures Written(c, s, q, x)
  {
    assert FullSync(c, s, r);
    var k := PreWriter(c, Virtual(c, q), x);
    assert k < c.size && FullEntered(s.pc[k]) >= 1;
  }

  // The peer has come to stage t, and not beyond the stage at which it meets r again.
  lemma PeerPosition(c: Config, s: State, r: nat, t: nat, x: nat)
    requires Inv(c, s) && r < c.size && s.pc[r] == Load(t, x) && x <= Segment(c, Virtual(c, r), t).end
    ensures Virtual(c, r) >= 0 && t < 2 * c.nsteps && x < c.count && Dest(c, r, t) < c.size
    ensures var u := StagesDone(c, s.pc[Dest(c, r, t)], x);
            t <= u <= 2 * c.nsteps && (t < c.nsteps ==> u <= 2 * c.nsteps - 1 - t)
  {
    hide Pow2, Block, Low, Levels, Fences, Leaf, Flip;
    assert PcOk(c, r, s.pc[r]);
    assert StageSync(c, s, r);
    DestFacts(c, r, t);
    var q := Dest(c, r, t);
    assert StagesEntered(c, s.pc[q]) > t;
    EnteredBounded(c, s, q);
    if t < c.nsteps {
      assert StageSync(c, s, q);
      assert Dest(c, q, 2 * c.nsteps - 1 - t) == Dest(c, q, t) == r;
    }
  }

  // What r reads from its peer at stage t is what the lockstep computation has there.
  lemma PeerValue(c: Config, s: State, r: nat, t: nat, x: nat)
    requires Inv(c, s) && r < c.size && s.pc[r] == Load(t, x) && x <= Segment(c, Virtual(c, r), t).end
    ensures Virtual(c, r) >= 0 && t < 2 * c.nsteps && x < c.count && Dest(c, r, t) < c.size
    ensures PeerAt(c, Virtual(c, r), t) < c.pof2
    ensures (if t == 0 && !Paired(c, Dest(c, r, t)) then c.send[Dest(c, r, t)][x] else s.recv[Dest(c, r, t)][x])
            == Cell(c, PeerAt(c, Virtual(c, r), t), x, t)
  {
    hide Pow2, Block, Low, Levels, Fences, Leaf, Flip;
    PeerPosition(c, s, r, t, x);
    DestFacts(c, r, t);
    PeerBelow(c, Virtual(c, r), t);
    assert PcOk(c, r, s.pc[r]);
    var v, q := Virtual(c, r), Dest(c, r, t);
    var w, u := PeerAt(c, v, t), StagesDone(c, s.pc[q], x);
    WritesSegment(c, v, x, t);
    forall k | t <= k < u ensures !Writes(c, w, x, k) {
      PeerWritesElsewhere(c, v, x, t, k);
    }
    CellStable(c, w, x, t, u);
    assert CellOk(c, s, q, x);
    if Paired(c, q) {
      FoldedBefore(c, s, r, q, x);
    } else if t > 0 {
      PeerAgrees(c, v, x, t);
    }
  }

  // Beyond the first stage, the peer already owns the cell that v reads.
  lemma PeerAgrees(c: Config, v: nat, x: nat, t: nat)
    requires c.Valid() && x < c.count && 0 < t < 2 * c.nsteps && Writes(c, v, x, t)
    ensures Agree(c, PeerAt(c, v, t), x, 1)
  {
    hide Agree;
    if t < c.nsteps {
      AgreeDown(c, v, x, t, t + 1);
      AgreeSplit(c, v, x, t);
      AgreeDown(c, PeerAt(c, v, t), x, 1, t);
    } else {
      AgreeDown(c, PeerAt(c, v, t), x, 1, Level(c, t) + 1);
    }
  }

  lemma OwnValue(c: Config, s: State, r: nat, t: nat, x: nat)
    requires Inv(c, s) && r < c.size && s.pc[r] == Load(t, x) && t < c.nsteps && x <= Segment(c, Virtual(c, r), t).end
    ensures Virtual(c, r) >= 0 && Virtual(c, r) < c.pof2 && x < c.count
    ensures (if t == 0 && !Paired(c, r) then c.send[r][x] else s.recv[r][x]) == Cell(c, Virtual(c, r), x, t)
  {
    hide Pow2, Block, Low, Levels, Fences, Leaf, Flip, Agree;
    assert PcOk(c, r, s.pc[r]);
    DestFacts(c, r, t);
    var v := Virtual(c, r);
    WritesSegment(c, v, x, t);
    assert CellOk(c, s, r, x);
    if Paired(c, r) {
      FoldedBefore(c, s, r, r, x);
    } else if t > 0 {
      AgreeDown(c, v, x, 1, t + 1);
    }
  }

  lemma LoadRight(c: Config, s: State, r: nat, t: nat, x: nat)
    requires Inv(c, s) && r < c.size && s.pc[r] == Load(t, x) && x <= Segment(c, Virtual(c, r), t).end
    ensures Virtual(c, r) >= 0 && Virtual(c, r) < c.pof2 && t < 2 * c.nsteps && x < c.count
    ensures Loaded(c, s, r, t, x) == Cell(c, Virtual(c, r), x, t + 1)
  {
    hide Pow2, Block, Low, Levels, Fences, Leaf, Flip, Agree;
    PeerValue(c, s, r, t, x);
    PeerBelow(c, Virtual(c, r), t);
    DestFacts(c, r, t);
    assert PcOk(c, r, s.pc[r]);
    WritesSegment(c, Virtual(c, r), x, t);
    if t < c.nsteps { OwnValue(c, s, r, t, x); }
  }

  lemma PostLoadRight(c: Config, s: State, r: nat, x: nat)
    requires Inv(c, s) && r < c.size && s.pc[r] == PostLoad(x) && x < c.count
    ensures s.recv[r][x] == Total(c, x)
  {
    hide Cell, Total, Levels, Agree;
    assert PcOk(c, r, s.pc[r]);
    FoldedBefore(c, s, r, r, x);
    assert CellOk(c, s, r, x);
    RoundsComputeTotal(c, Virtual(c, r), x);
  }

  lemma InFlightStep(c: Config, s: State, s': State, r: nat, q: nat)
    requires Inv(c, s) && Step(c, s, s', r) && q < c.size
    requires WellFormed(c, s')
    ensures InFlight(c, s', q)
  {
    hide Pow2, Block, Low, Levels, Fences, Leaf, Flip, Agree, Cell, Loaded, Total;
    StepWellFormed(c, s, s', r);
    assert InFlight(c, s, q);
    if q == r {
      match s.pc[r]
      case Load(t, x) => if x <= Segment(c, Virtual(c, r), t).end { LoadRight(c, s, r, t, x); }
      case PostLoad(x) => if x < c.count { PostLoadRight(c, s, r, x); }
      case PreLoad(x) => if x <= PreSegment(c, r).end { assert Sum2(c.send[r][x], c.send[Buddy(r)][x]); }
      case _ =>
    }
  }

  // ----- cells

  // Passing index x of a stage that does not write it changes nothing.
  lemma SkippedCell(c: Config, v: nat, x: nat, t: nat)
    requires c.Valid() && v < c.pof2 && x < c.count && t < 2 * c.nsteps && !Writes(c, v, x, t)
    ensures Cell(c, v, x, t + 1) == Cell(c, v, x, t)
    ensures WrittenBy(c, v, x, t + 1) ==> WrittenBy(c, v, x, t)
  {
    hide Agree, Flip;
    PeerBelow(c, v, t);
    AgreeSplit(c, v, x, 0);
    AgreeAtZero(c, v, x);
  }

  lemma AgreeAtZero(c: Config, v: nat, x: nat)
    requires c.count >= 1
    ensures Agree(c, v, x, 0)
  {
    assert Pow2(0) == 1;
  }

  // The stages that r's own step puts behind index x.
  lemma DoneStep(c: Config, s: State, s': State, r: nat, x: nat)
    requires Inv(c, s) && Step(c, s, s', r) && WellFormed(c, s') && x < c.count && Virtual(c, r) >= 0
    requires !(s.pc[r].Store? && s.pc[r].x == x)
    ensures Virtual(c, r) < c.pof2
    ensures var t := StagesDone(c, s.pc[r], x);
            StagesDone(c, s'.pc[r], x) == t
            || (t < 2 * c.nsteps && StagesDone(c, s'.pc[r], x) == t + 1 && !Writes(c, Virtual(c, r), x, t))
  {
    hide Pow2, Block, Low, Levels, Fences, Leaf, Flip, Agree, Cell, Loaded, Total;
    assert PcOk(c, r, s.pc[r]);
    assert CellOk(c, s, r, x);
    if s.pc[r].StageSpin? || s.pc[r].Load? || s.pc[r].Store? {
      WritesSegment(c, Virtual(c, r), x, s.pc[r].t);
    }
  }

  // Index x counts as folded once the rank that folds it has stored it.
  lemma FoldStep(c: Config, s: State, s': State, r: nat, q: nat, x: nat)
    requires Inv(c, s) && Step(c, s, s', r) && WellFormed(c, s') && q < c.size && x < c.count
    requires Virtual(c, q) >= 0 && Paired(c, q) && !(s.pc[r].PreStore? && s.pc[r].x == x && PreTarget(r) == q)
    ensures PrePast(s'.pc[PreWriter(c, Virtual(c, q), x)], x) ==> PrePast(s.pc[PreWriter(c, Virtual(c, q), x)], x)
  {
    hide Levels, Fences, Cell, Loaded, Total, Agree;
    PreHalves(c, Virtual(c, q), x);
    StepWellFormed(c, s, s', r);
    assert PcOk(c, r, s.pc[r]);
  }

  // Cells that the step does not store to.
  lemma CellKept(c: Config, s: State, s': State, r: nat, q: nat, x: nat)
    requires Inv(c, s) && Step(c, s, s', r) && WellFormed(c, s') && q < c.size && x < c.count
    requires s'.recv[q][x] == s.recv[q][x]
    requires !(s.pc[r].Store? && s.pc[r].x == x && r == q)
    requires !(s.pc[r].PreStore? && s.pc[r].x == x && PreTarget(r) == q)
    requires !(s.pc[r].PostStore? && s.pc[r].x == x && r + 1 == q)
    ensures CellOk(c, s', q, x)
  {
    hide Pow2, Block, Low, Levels, Fences, Leaf, Flip, Agree, Cell, Loaded, Total;
    StepWellFormed(c, s, s', r);
    assert CellOk(c, s, q, x);
    assert PcOk(c, r, s.pc[r]);
    if Virtual(c, q) >= 0 {
      if q == r {
        DoneStep(c, s, s', r, x);
        var t := StagesDone(c, s.pc[r], x);
        if StagesDone(c, s'.pc[r], x) == t + 1 { SkippedCell(c, Virtual(c, q), x, t); }
      }
      if Paired(c, q) { FoldStep(c, s, s', r, q, x); }
    } else {
      VRankBijection(q, 0, c.Rem());
    }
  }

  lemma CellStored(c: Config, s: State, s': State, r: nat)
    requires Inv(c, s) && Step(c, s, s', r) && WellFormed(c, s') && s.pc[r].Store?
    ensures s.pc[r].x < c.count && CellOk(c, s', r, s.pc[r].x)
  {
    hide Pow2, Block, Low, Levels, Fences, Leaf, Flip, Agree, Cell, Loaded, Total;
    assert PcOk(c, r, s.pc[r]);
    assert InFlight(c, s, r);
    assert CellOk(c, s, r, s.pc[r].x);
  }

  lemma CellFolded(c: Config, s: State, s': State, r: nat)
    requires Inv(c, s) && Step(c, s, s', r) && WellFormed(c, s') && s.pc[r].PreStore?
    ensures s.pc[r].x < c.count && PreTarget(r) < c.size && CellOk(c, s', PreTarget(r), s.pc[r].x)
  {
    hide Pow2, Block, Low, Levels, Fences, Leaf, Flip, Agree, Loaded, Total;
    assert PcOk(c, r, s.pc[r]);
    assert InFlight(c, s, r);
    var q, x := PreTarget(r), s.pc[r].x;
    StepWellFormed(c, s, s', r);
    assert CellOk(c, s, q, x);
    assert FullSync(c, s, q);
    assert FullEntered(s.pc[r]) == 0;
    assert StagesDone(c, s'.pc[q], x) == 0;
    assert Virtual(c, q) == r / 2;
  }

  lemma CellPosted(c: Config, s: State, s': State, r: nat)
    requires Inv(c, s) && Step(c, s, s', r) && WellFormed(c, s') && s.pc[r].PostStore?
    ensures s.pc[r].x < c.count && r + 1 < c.size && CellOk(c, s', r + 1, s.pc[r].x)
  {
    hide Pow2, Block, Low, Levels, Fences, Leaf, Flip, Agree, Cell, Loaded, Total;
    assert PcOk(c, r, s.pc[r]);
    assert InFlight(c, s, r);
  }

  lemma CellStep(c: Config, s: State, s': State, r: nat, q: nat, x: nat)
    requires Inv(c, s) && Step(c, s, s', r) && WellFormed(c, s') && q < c.size && x < c.count
    ensures CellOk(c, s', q, x)
  {
    hide Pow2, Block, Low, Levels, Fences, Leaf, Flip, Agree, Cell, Loaded, Total, CellOk;
    if s.pc[r].Store? && s.pc[r].x == x && r == q { CellStored(c, s, s', r); }
    else if s.pc[r].PreStore? && s.pc[r].x == x && PreTarget(r) == q { CellFolded(c, s, s', r); }
    else if s.pc[r].PostStore? && s.pc[r].x == x && r + 1 == q { CellPosted(c, s, s', r); }
    else { CellKept(c, s, s', r, q, x); }
  }

  // ----- whole runs

  lemma StepInv(c: Config, s: State, s': State, r: nat)
    requires Inv(c, s) && Step(c, s, s', r)
    ensures Inv(c, s')
  {
    hide Step, CellOk, InFlight, StageSync, FullSync;
    StepWellFormed(c, s, s', r);
    forall q | 0 <= q < c.size ensures InFlight(c, s', q) && StageSync(c, s', q) && FullSync(c, s', q) {
      InFlightStep(c, s, s', r, q);
      SyncStep(c, s, s', r, q);
    }
    forall q, x | 0 <= q < c.size && 0 <= x < c.count ensures CellOk(c, s', q, x) {
      CellStep(c, s, s', r, q, x);
    }
  }

  lemma InitInv(c: Config, s: State)
    requires Init(c, s)
    ensures Inv(c, s)
  {
    hide Pow2, Block, Low, Levels, Fences, Leaf, Flip, Cell, Total, Agree;
    forall r, x | 0 <= r < c.size && 0 <= x < c.count ensures CellOk(c, s, r, x) {
      if Virtual(c, r) < 0 { VRankBijection(r, 0, c.Rem()); }
      else if Paired(c, r) { assert PreWriter(c, Virtual(c, r), x) < c.size; }
    }
  }

  lemma {:induction false} RunInv(c: Config, tr: seq<State>, i: nat)
    requires IsRun(c, tr) && i < |tr|
    ensures Inv(c, tr[i])
  {
    hide Inv, Init, Step;
    if i == 0 {
      InitInv(c, tr[0]);
    } else {
      RunInv(c, tr, i - 1);
      assert Next(c, tr[i - 1], tr[i]);
      var r: nat :| Step(c, tr[i - 1], tr[i], r);
      StepInv(c, tr[i - 1], tr[i], r);
    }
  }

  /** Whenever a rank has returned, its receive buffer holds at every index the sum over all ranks' send
      buffers - for every number of ranks, every element count and every interleaving. */
  lemma ReturnedHoldsTheSum(c: Config, tr: seq<State>, i: nat, r: nat, x: nat)
    requires IsRun(c, tr) && i < |tr| && r < c.size && x < c.count && r < |tr[i].pc| && tr[i].pc[r].Done?
    ensures r < |tr[i].recv| && x < |tr[i].recv[r]|
    ensures tr[i].recv[r][x] == Total(c, x)
  {
    hide Pow2, Block, Low, Levels, Fences, Leaf, Flip, Cell, Total, Agree;
    RunInv(c, tr, i);
    var s := tr[i];
    assert CellOk(c, s, r, x) && FullSync(c, s, r);
    if Virtual(c, r) >= 0 {
      if Paired(c, r) { FoldedBefore(c, s, r, r, x); }
      RoundsComputeTotal(c, Virtual(c, r), x);
    } else {
      VRankBijection(r, 0, c.Rem());
      assert FullEntered(s.pc[r - 1]) >= 2;
    }
  }

  // The cells that rank k writes in the phase it is in.
  ghost predicate MayWrite(c: Config, k: nat, pc: Pc, b: nat, x: nat)
    requires c.Valid() && PcOk(c, k, pc)
  {
    match pc
    case PreLoad(_) => b == PreTarget(k) && PreSegment(c, k).Has(x)
    case PreStore(_, _) => b == PreTarget(k) && PreSegment(c, k).Has(x)
    case Load(t, _) => b == k && Segment(c, Virtual(c, k), t).Has(x)
    case Store(t, _, _) => b == k && Segment(c, Virtual(c, k), t).Has(x)
    case PostLoad(_) => b == k + 1
    case PostStore(_, _) => b == k + 1
    case _ => false
  }

  // How far the peer can be while r is in the body of stage t.
  lemma PeerStage(c: Config, s: State, r: nat, t: nat, u: nat)
    requires Inv(c, s) && r < c.size && (s.pc[r].Load? || s.pc[r].Store?) && s.pc[r].t == t
    requires Virtual(c, r) >= 0 && t < 2 * c.nsteps && Dest(c, r, t) < c.size
    requires (s.pc[Dest(c, r, t)].Load? || s.pc[Dest(c, r, t)].Store?) && s.pc[Dest(c, r, t)].t == u
    ensures t <= u < 2 * c.nsteps && (t < c.nsteps ==> u < 2 * c.nsteps - 1 - t)
  {
    hide Pow2, Block, Low, Levels, Fences, Leaf, Flip;
    DestFacts(c, r, t);
    var q := Dest(c, r, t);
    assert PcOk(c, q, s.pc[q]);
    assert StageSync(c, s, r);
    assert StagesEntered(c, s.pc[q]) > t;
    if t < c.nsteps {
      assert StageSync(c, s, q);
      assert Dest(c, q, 2 * c.nsteps - 1 - t) == Dest(c, q, t) == r;
    }
  }

  /** Race freedom with only pairwise fences inside the loops: while a rank is in a stage, no rank is in a
      phase in which it writes any receive-buffer cell that the first one reads from its peer at that stage. */
  lemma RaceFree(c: Config, tr: seq<State>, i: nat, r: nat, k: nat, x: nat)
    requires IsRun(c, tr) && i < |tr| && r < c.size && k < c.size && x < c.count
    ensures WellFormed(c, tr[i])
    ensures tr[i].pc[r].Load? || tr[i].pc[r].Store? ==>
              var t := tr[i].pc[r].t;
              PcOk(c, r, tr[i].pc[r]) && PcOk(c, k, tr[i].pc[k])
              && (Segment(c, Virtual(c, r), t).Has(x) ==> !MayWrite(c, k, tr[i].pc[k], Dest(c, r, t), x))
  {
    hide Pow2, Block, Low, Levels, Fences, Leaf, Flip, Cell, Total, Agree;
    RunInv(c, tr, i);
    var s := tr[i];
    if s.pc[r].Load? || s.pc[r].Store? {
      var t := s.pc[r].t;
      assert PcOk(c, r, s.pc[r]) && PcOk(c, k, s.pc[k]) && FullSync(c, s, r);
      DestFacts(c, r, t);
      VRankBijection(k, 0, c.Rem());
      VRankBijection(k + 1, 0, c.Rem());
      if Segment(c, Virtual(c, r), t).Has(x) && k == Dest(c, r, t) && (s.pc[k].Load? || s.pc[k].Store?) {
        var u := s.pc[k].t;
        PeerStage(c, s, r, t, u);
        WritesSegment(c, Virtual(c, r), x, t);
        WritesSegment(c, Virtual(c, k), x, u);
        PeerWritesElsewhere(c, Virtual(c, r), x, t, u);
      }
    }
  }

  // Whoever is past its peer fence before the first full fence has met its neighbour there.
  ghost predicate Met(c: Config, s: State, r: nat)
    requires WellFormed(c, s) && r < c.size
  {
    s.pc[r].PreLoad? || s.pc[r].PreStore? ==> Buddy(r) < c.size && !s.pc[Buddy(r)].PreEnter?
  }

  lemma MetKept(c: Config, s: State, s': State, r: nat, q: nat)
    requires Step(c, s, s', r) && WellFormed(c, s') && q < c.size && Met(c, s, q)
    requires forall k :: 0 <= k < c.size && k != r ==> s'.pc[k] == s.pc[k]
    ensures Met(c, s', q)
  {
    hide Pow2, Block, Low, Levels, Loaded, Fences, Leaf, Flip;
    assert PcOk(c, r, s.pc[r]) && PcOk(c, q, s.pc[q]);
    assert !s'.pc[r].PreEnter?;
  }

  lemma {:induction false} RunMet(c: Config, tr: seq<State>, i: nat, r: nat)
    requires IsRun(c, tr) && i < |tr| && r < c.size
    ensures WellFormed(c, tr[i]) && Met(c, tr[i], r)
  {
    hide Pow2, Block, Low, Levels, Loaded, Fences, Leaf, Flip, Step, Moved, Enabled;
    if i > 0 {
      RunMet(c, tr, i - 1, r);
      assert Next(c, tr[i - 1], tr[i]);
      var k: nat :| Step(c, tr[i - 1], tr[i], k);
      StepWellFormed(c, tr[i - 1], tr[i], k);
      MetKept(c, tr[i - 1], tr[i], k, r);
    }
  }

  /** A send buffer is read only while its owner is in the call: the neighbour whose send buffer a rank reduces before
      the first fence, and the peer whose send buffer it may read at the first stage, has entered and not returned. */
  lemma SendBuffersAreThere(c: Config, tr: seq<State>, i: nat, r: nat)
    requires IsRun(c, tr) && i < |tr| && r < c.size
    ensures WellFormed(c, tr[i])
    ensures tr[i].pc[r].PreLoad? || tr[i].pc[r].PreStore? ==>
              Buddy(r) < c.size && !tr[i].pc[Buddy(r)].PreEnter? && !tr[i].pc[Buddy(r)].Done?
    ensures (tr[i].pc[r].Load? || tr[i].pc[r].Store?) && tr[i].pc[r].t == 0 ==>
              Virtual(c, r) >= 0 && c.nsteps > 0 && Dest(c, r, 0) < c.size
              && StagesEntered(c, tr[i].pc[Dest(c, r, 0)]) > 0 && !tr[i].pc[Dest(c, r, 0)].Done?
  {
    hide Pow2, Block, Low, Levels, Fences, Leaf, Flip, Cell, Total, Agree;
    RunInv(c, tr, i);
    RunMet(c, tr, i, r);
    var s := tr[i];
    assert PcOk(c, r, s.pc[r]);
    if s.pc[r].PreLoad? || s.pc[r].PreStore? {
      assert FullSync(c, s, Buddy(r));
    }
    if (s.pc[r].Load? || s.pc[r].Store?) && s.pc[r].t == 0 {
      DestFacts(c, r, 0);
      assert StageSync(c, s, r) && FullSync(c, s, Dest(c, r, 0));
    }
  }

  // ----- no rank is blocked for good

  function Position(c: Config, pc: Pc): nat {
    match pc
    case PreEnter => 0
    case PreSpin => 1
    case PreLoad(_) => 2
    case PreStore(_, _) => 2
    case FirstEnter => 3
    case FirstSpin => 4
    case StageEnter(t) => 5 + 3 * t
    case StageSpin(t) => 6 + 3 * t
    case Load(t, _) => 7 + 3 * t
    case Store(t, _, _) => 7 + 3 * t
    case PostLoad(_) => 6 + 6 * c.nsteps
    case PostStore(_, _) => 6 + 6 * c.nsteps
    case LastEnter => 7 + 6 * c.nsteps
    case LastSpin => 8 + 6 * c.nsteps
    case Done => 9 + 6 * c.nsteps
  }

  lemma {:induction false} LeastAdvanced(c: Config, s: State, k: nat) returns (r: nat)
    requires 0 < k <= |s.pc|
    ensures r < k && forall q :: 0 <= q < k ==> Position(c, s.pc[r]) <= Position(c, s.pc[q])
  {
    r := 0;
    if k > 1 {
      r := LeastAdvanced(c, s, k - 1);
      if Position(c, s.pc[k - 1]) < Position(c, s.pc[r]) { r := k - 1; }
    }
  }

  lemma LeastCanStep(c: Config, s: State, r: nat)
    requires Inv(c, s) && r < c.size && !s.pc[r].Done?
    requires forall q :: 0 <= q < c.size ==> Position(c, s.pc[r]) <= Position(c, s.pc[q])
    ensures Enabled(c, s, r)
  {
    hide Pow2, Block, Low, Levels, Fences, Leaf, Flip, Loaded;
    assert PcOk(c, r, s.pc[r]);
    if s.pc[r].StageSpin? {
      var t := s.pc[r].t;
      DestFacts(c, r, t);
      var q := Dest(c, r, t);
      assert PcOk(c, q, s.pc[q]);
      StageSpinExact(c, s, r, t);
    } else {
      forall q | 0 <= q < c.size
        ensures s.pc[r].FirstSpin? ==> FullEntered(s.pc[q]) >= 1
        ensures s.pc[r].LastSpin? ==> FullEntered(s.pc[q]) >= 2
      {
        assert PcOk(c, q, s.pc[q]);
      }
    }
  }

  // Later in the program, or further in the same loop.
  predicate Further(c: Config, a: Pc, b: Pc) {
    Position(c, a) < Position(c, b)
    || (Position(c, a) == Position(c, b)
        && match b
           case PreLoad(y) => a.PreStore? && a.x < y
           case PreStore(y, _) => a == PreLoad(y)
           case Load(t, y) => a.Store? && a.x < y
           case Store(t, y, _) => a == Load(t, y)
           case PostLoad(y) => a.PostStore? && a.x < y
           case PostStore(y, _) => a == PostLoad(y)
           case _ => false)
  }

  lemma InvWellFormed(c: Config, s: State)
    requires Inv(c, s)
    ensures WellFormed(c, s)
  {}

  lemma MovesOn(c: Config, s: State, r: nat)
    requires Enabled(c, s, r)
    ensures r < |Moved(c, s, r).pc| && Further(c, s.pc[r], Moved(c, s, r).pc[r])
  {
    hide Pow2, Block, Low, Levels, Fences, Leaf, Flip, Loaded;
    assert PcOk(c, r, s.pc[r]);
  }

  /** No reachable state is stuck: unless all ranks have returned, some rank can take a step, and it moves on. */
  lemma NeverStuck(c: Config, tr: seq<State>, i: nat) returns (r: nat)
    requires IsRun(c, tr) && i < |tr|
    requires exists q :: 0 <= q < c.size && q < |tr[i].pc| && !tr[i].pc[q].Done?
    ensures Enabled(c, tr[i], r) && r < |Moved(c, tr[i], r).pc|
    ensures Further(c, tr[i].pc[r], Moved(c, tr[i], r).pc[r])
  {
    hide Pow2, Block, Low, Levels, Fences, Leaf, Flip, Loaded;
    RunInv(c, tr, i);
    r := LeastAdvanced(c, tr[i], c.size);
    hide Inv, Moved, Enabled, Further;
    var q :| 0 <= q < c.size && !tr[i].pc[q].Done?;
    assert WellFormed(c, tr[i]) by { InvWellFormed(c, tr[i]); }
    assert PcOk(c, q, tr[i].pc[q]);
    LeastCanStep(c, tr[i], r);
    MovesOn(c, tr[i], r);
  }
}
