/** The allreduce over shared memory, for any number of ranks and any interleaving.

    The ranks beyond the largest power of two are folded into neighbours, a recursive-halving
    reduce-scatter and a recursive-doubling allgather run between the others, and the result is
    copied back out. Every load and every store of a buffer element is a transition of its own.
    A full fence lets a rank out once every rank has entered it (HypercubeFence.FenceIsABarrier);
    a peer fence lets it out once its peer has entered as many fences with it (ToggleFence.TestExact). */
module Allreduce {
  import opened Pow2Math
  import opened Segments
  import opened ReduceRounds

  datatype Pc =
    | PreEnter | PreSpin | PreLoad(x: nat) | PreStore(x: nat, val: Element)
    | FirstEnter | FirstSpin
    | StageEnter(t: nat) | StageSpin(t: nat) | Load(t: nat, x: nat) | Store(t: nat, x: nat, val: Element)
    | PostLoad(x: nat) | PostStore(x: nat, val: Element)
    | LastEnter | LastSpin | Done

  datatype State = State(pc: seq<Pc>, recv: seq<seq<Element>>)

  // ----- who talks to whom

  predicate Paired(c: Config, r: nat) { r < 2 * c.Rem() }

  function Buddy(r: nat): nat { if r % 2 == 0 then r + 1 else r - 1 }

  function Virtual(c: Config, r: nat): int
    requires c.Rem() >= 0
  {
    VRank(r, c.Rem())
  }

  // The rank that r meets at stage t.
  function Dest(c: Config, r: nat, t: nat): nat
    requires c.Rem() >= 0 && Virtual(c, r) >= 0 && t < 2 * c.nsteps
  {
    RankOf(PeerAt(c, Virtual(c, r), t), c.Rem())
  }

  lemma DestFacts(c: Config, r: nat, t: nat)
    requires c.Valid() && r < c.size && Virtual(c, r) >= 0 && t < 2 * c.nsteps
    ensures Virtual(c, r) < c.pof2
    ensures var q := Dest(c, r, t);
            q < c.size && q != r && Virtual(c, q) == PeerAt(c, Virtual(c, r), t) && Dest(c, q, t) == r
  {
    hide Flip;
    PeerBelow(c, Virtual(c, r), t);
    VRankBijection(r, PeerAt(c, Virtual(c, r), t), c.Rem());
  }

  // The half of the indices that a paired rank reduces before the first fence.
  function PreSegment(c: Config, r: nat): Span
    requires c.count >= 1
  {
    Levels(r, c.count, 1)
  }

  lemma PreHalves(c: Config, v: nat, x: nat)
    requires x < c.count
    ensures PreSegment(c, 2 * v).Has(x) <==> !PreSegment(c, 2 * v + 1).Has(x)
  {
    assert Pow2(0) == 1;
    assert Levels(2 * v, c.count, 0) == Levels(2 * v + 1, c.count, 0) == Span(0, c.count - 1);
  }

  // Both ranks of a pair write into the receive buffer of the even one.
  function PreTarget(r: nat): nat { if r % 2 == 0 then r else r - 1 }

  // ----- the peer fences

  // Before stage k, the number of fences v has entered with w.
  function Fences(c: Config, v: nat, w: nat, k: nat): nat
    requires k <= 2 * c.nsteps
  {
    if k == 0 then 0 else Fences(c, v, w, k - 1) + if PeerAt(c, v, k - 1) == w then 1 else 0
  }

  lemma {:induction false} FencesSymmetric(c: Config, v: nat, w: nat, k: nat)
    requires k <= 2 * c.nsteps
    ensures Fences(c, v, w, k) == Fences(c, w, v, k)
  {
    if k > 0 {
      hide Flip;
      FencesSymmetric(c, v, w, k - 1);
      FlipFacts(v, Level(c, k - 1));
      FlipFacts(w, Level(c, k - 1));
    }
  }

  lemma {:induction false} FencesMono(c: Config, v: nat, w: nat, j: nat, k: nat)
    requires j <= k <= 2 * c.nsteps
    ensures Fences(c, v, w, j) <= Fences(c, v, w, k)
  {
    if j < k { FencesMono(c, v, w, j, k - 1); }
  }

  // ----- how far a rank has come

  function StagesEntered(c: Config, pc: Pc): nat {
    match pc
    case StageEnter(t) => t
    case StageSpin(t) => t + 1
    case Load(t, _) => t + 1
    case Store(t, _, _) => t + 1
    case PostLoad(_) => 2 * c.nsteps
    case PostStore(_, _) => 2 * c.nsteps
    case LastEnter => 2 * c.nsteps
    case LastSpin => 2 * c.nsteps
    case Done => 2 * c.nsteps
    case _ => 0
  }

  function StagesLeft(c: Config, pc: Pc): nat {
    if pc.StageSpin? then pc.t else StagesEntered(c, pc)
  }

  // The number of stages behind pc as far as index x is concerned.
  function StagesDone(c: Config, pc: Pc, x: nat): nat {
    if pc.StageSpin? then pc.t
    else if (pc.Load? || pc.Store?) && !(x < pc.x) then pc.t
    else StagesEntered(c, pc)
  }

  function FullEntered(pc: Pc): nat {
    match pc
    case PreEnter => 0
    case PreSpin => 0
    case PreLoad(_) => 0
    case PreStore(_, _) => 0
    case FirstEnter => 0
    case LastSpin => 2
    case Done => 2
    case _ => 1
  }

  function FullLeft(pc: Pc): nat {
    if pc.Done? then 2 else if pc.FirstSpin? then 0 else if pc.LastSpin? then 1 else FullEntered(pc)
  }

  predicate PrePast(pc: Pc, x: nat) {
    !pc.PreEnter? && !pc.PreSpin? && (pc.PreLoad? || pc.PreStore? ==> x < pc.x)
  }

  predicate PostPast(pc: Pc, x: nat) {
    pc.LastEnter? || pc.LastSpin? || pc.Done? || ((pc.PostLoad? || pc.PostStore?) && x < pc.x)
  }

  // ----- the transitions

  ghost predicate PcOk(c: Config, r: nat, pc: Pc)
    requires c.Valid()
  {
    match pc
    case PreEnter => Paired(c, r)
    case PreSpin => Paired(c, r)
    case PreLoad(x) => Paired(c, r) && PreSegment(c, r).start <= x <= PreSegment(c, r).end + 1
    case PreStore(x, _) => Paired(c, r) && PreSegment(c, r).Has(x)
    case StageEnter(t) => Virtual(c, r) >= 0 && t <= 2 * c.nsteps
    case StageSpin(t) => Virtual(c, r) >= 0 && t < 2 * c.nsteps
    case Load(t, x) => Virtual(c, r) >= 0 && t < 2 * c.nsteps
                       && var sp := Segment(c, Virtual(c, r), t); sp.start <= x <= sp.end + 1
    case Store(t, x, _) => Virtual(c, r) >= 0 && t < 2 * c.nsteps && Segment(c, Virtual(c, r), t).Has(x)
    case PostLoad(x) => Paired(c, r) && r % 2 == 0 && x <= c.count
    case PostStore(x, _) => Paired(c, r) && r % 2 == 0 && x < c.count
    case _ => true
  }

  ghost predicate WellFormed(c: Config, s: State) {
    c.Valid() && |s.pc| == c.size && |s.recv| == c.size
    && (forall r :: 0 <= r < c.size ==> |s.recv[r]| == c.count)
    && (forall r :: 0 <= r < c.size ==> PcOk(c, r, s.pc[r]))
  }

  ghost predicate Init(c: Config, s: State) {
    WellFormed(c, s) && forall r :: 0 <= r < c.size ==> s.pc[r] == if Paired(c, r) then PreEnter else FirstEnter
  }

  ghost predicate Enabled(c: Config, s: State, r: nat) {
    WellFormed(c, s) && r < c.size
    && match s.pc[r]
       case PreSpin => s.pc[Buddy(r)] != PreEnter
       case FirstSpin => forall q :: 0 <= q < c.size ==> FullEntered(s.pc[q]) >= 1
       case StageSpin(t) => StageSpinPasses(c, s, r, t)
       case LastSpin => forall q :: 0 <= q < c.size ==> FullEntered(s.pc[q]) >= 2
       case Done => false
       case _ => true
  }

  ghost predicate StageSpinPasses(c: Config, s: State, r: nat, t: nat)
    requires WellFormed(c, s) && r < c.size && Virtual(c, r) >= 0 && t < 2 * c.nsteps
  {
    DestFacts(c, r, t);
    var q := Dest(c, r, t);
    StagesEntered(c, s.pc[q]) <= 2 * c.nsteps
    && Fences(c, Virtual(c, q), Virtual(c, r), StagesEntered(c, s.pc[q])) > Fences(c, Virtual(c, r), Virtual(c, q), t)
  }

  // What r reads at index x of stage t. At the first stage the ranks that were not folded start from their send buffers.
  ghost function Loaded(c: Config, s: State, r: nat, t: nat, x: nat): Element
    requires WellFormed(c, s) && r < c.size && Virtual(c, r) >= 0 && t < 2 * c.nsteps && x < c.count
  {
    DestFacts(c, r, t);
    var q := Dest(c, r, t);
    var mine := if t == 0 && !Paired(c, r) then c.send[r][x] else s.recv[r][x];
    var theirs := if t == 0 && !Paired(c, q) then c.send[q][x] else s.recv[q][x];
    if t < c.nsteps then c.add(mine, theirs) else theirs
  }

  function SetPc(s: State, r: nat, pc: Pc): State
    requires r < |s.pc|
  {
    s.(pc := s.pc[r := pc])
  }

  function SetCell(s: State, r: nat, x: nat, val: Element): State
    requires r < |s.recv| && x < |s.recv[r]|
  {
    s.(recv := s.recv[r := s.recv[r][x := val]])
  }

  ghost function Moved(c: Config, s: State, r: nat): State
    requires Enabled(c, s, r)
  {
    var v := Virtual(c, r);
    match s.pc[r]
    case PreEnter => SetPc(s, r, PreSpin)
    case PreSpin => SetPc(s, r, PreLoad(PreSegment(c, r).start))
    case PreLoad(x) =>
      if x <= PreSegment(c, r).end then SetPc(s, r, PreStore(x, c.add(c.send[r][x], c.send[Buddy(r)][x])))
      else SetPc(s, r, FirstEnter)
    case PreStore(x, val) => SetPc(SetCell(s, PreTarget(r), x, val), r, PreLoad(x + 1))
    case FirstEnter => SetPc(s, r, FirstSpin)
    case FirstSpin => SetPc(s, r, if v >= 0 then StageEnter(0) else LastEnter)
    case StageEnter(t) =>
      SetPc(s, r, if t < 2 * c.nsteps then StageSpin(t) else if Paired(c, r) then PostLoad(0) else LastEnter)
    case StageSpin(t) => SetPc(s, r, Load(t, Segment(c, v, t).start))
    case Load(t, x) =>
      if x <= Segment(c, v, t).end then SetPc(s, r, Store(t, x, Loaded(c, s, r, t, x))) else SetPc(s, r, StageEnter(t + 1))
    case Store(t, x, val) => SetPc(SetCell(s, r, x, val), r, Load(t, x + 1))
    case PostLoad(x) => SetPc(s, r, if x < c.count then PostStore(x, s.recv[r][x]) else LastEnter)
    case PostStore(x, val) => SetPc(SetCell(s, r + 1, x, val), r, PostLoad(x + 1))
    case LastEnter => SetPc(s, r, LastSpin)
    case LastSpin => SetPc(s, r, Done)
  }

  ghost predicate Step(c: Config, s: State, s': State, r: nat) {
    Enabled(c, s, r) && s' == Moved(c, s, r)
  }

  ghost predicate Next(c: Config, s: State, s': State) {
    exists r: nat :: Step(c, s, s', r)
  }

  ghost predicate IsRun(c: Config, tr: seq<State>) {
    |tr| > 0 && Init(c, tr[0]) && forall i :: 0 <= i < |tr| - 1 ==> Next(c, tr[i], tr[i + 1])
  }

  // ----- the invariant

  // The value in flight is the right one.
  ghost predicate InFlight(c: Config, s: State, r: nat)
    requires WellFormed(c, s) && r < c.size
  {
    match s.pc[r]
    case PreStore(x, val) => val == Base(c, r / 2, x)
    case Store(t, x, val) => Virtual(c, r) < c.pof2 && val == Cell(c, Virtual(c, r), x, t + 1)
    case PostStore(x, val) => val == Total(c, x)
    case _ => true
  }

  ghost predicate StageSync(c: Config, s: State, r: nat)
    requires WellFormed(c, s) && r < c.size
  {
    Virtual(c, r) >= 0 ==>
      forall t :: 0 <= t < StagesLeft(c, s.pc[r]) && t < 2 * c.nsteps ==>
        Dest(c, r, t) < c.size && StagesEntered(c, s.pc[Dest(c, r, t)]) > t
  }

  ghost predicate FullSync(c: Config, s: State, r: nat)
    requires WellFormed(c, s) && r < c.size
  {
    forall q :: 0 <= q < c.size ==> FullEntered(s.pc[q]) >= FullLeft(s.pc[r])
  }

  // The rank of v's pair that reduces index x before the first fence.
  function PreWriter(c: Config, v: nat, x: nat): nat
    requires c.count >= 1
  {
    if PreSegment(c, 2 * v).Has(x) then 2 * v else 2 * v + 1
  }

  // Whether cell x of participating rank r has been given a value yet.
  ghost predicate Written(c: Config, s: State, r: nat, x: nat)
    requires WellFormed(c, s) && r < c.size && Virtual(c, r) >= 0 && x < c.count
  {
    var v := Virtual(c, r);
    if Paired(c, r) then PrePast(s.pc[PreWriter(c, v, x)], x)
    else WrittenBy(c, v, x, StagesDone(c, s.pc[r], x))
  }

  ghost predicate WrittenBy(c: Config, v: nat, x: nat, t: nat)
    requires c.count >= 1
  {
    (t >= 1 && Agree(c, v, x, 1)) || t >= 2 * c.nsteps
  }

  ghost predicate CellOk(c: Config, s: State, r: nat, x: nat)
    requires WellFormed(c, s) && r < c.size && x < c.count
  {
    if Virtual(c, r) >= 0 then
      StagesDone(c, s.pc[r], x) <= 2 * c.nsteps && Virtual(c, r) < c.pof2
      && (Written(c, s, r, x) ==> s.recv[r][x] == Cell(c, Virtual(c, r), x, StagesDone(c, s.pc[r], x)))
    else PostPast(s.pc[r - 1], x) ==> s.recv[r][x] == Total(c, x)
  }

  ghost predicate Inv(c: Config, s: State) {
    WellFormed(c, s)
    && (forall r :: 0 <= r < c.size ==> InFlight(c, s, r) && StageSync(c, s, r) && FullSync(c, s, r))
    && (forall r, x :: 0 <= r < c.size && 0 <= x < c.count ==> CellOk(c, s, r, x))
  }
}
