/** Every step inside the ring broadcast takes a rank further, so any number of broadcasts comes to its end. */
module RingBcastProgress {
  import opened Sums
  import opened Division
  import opened RingBcast
  import opened RingBcastProof

  // ----- how far a rank is in its program

  function Round(c: Config): nat { 4 + c.size + 4 * c.chunks }

  function Pos(c: Config, g: Stage): nat {
    match g
    case Outside => 0
    case Start => 1
    case Ready => 2
    case Scan(i) => 3 + i
    case Await(i) => 4 + c.size + 4 * i
    case Send(i) => 5 + c.size + 4 * i
    case Copying(i, _) => 6 + c.size + 4 * i
    case Notify(i) => 7 + c.size + 4 * i
  }

  // b is later in the same broadcast than a, or has just returned from it.
  predicate Further(c: Config, a: Proc, b: Proc) {
    (b.run == a.run && Pos(c, a.stage) < Pos(c, b.stage)) || (b == Proc(a.run + 1, Outside) && !a.stage.Outside?)
  }

  lemma AfterMoves(c: Config, s: State, p: nat, i: nat)
    requires c.Ok() && p < |s.proc| && i < c.chunks && !s.proc[p].stage.Outside? && Pos(c, s.proc[p].stage) <= 7 + c.size + 4 * i
    ensures After(c, s, p, i).proc == s.proc[p := After(c, s, p, i).proc[p]]
    ensures Further(c, s.proc[p], After(c, s, p, i).proc[p])
  {}

  /** A step inside the broadcast takes the rank that makes it further in its program, and no other rank. */
  lemma InnerAdvances(c: Config, s: State, s': State, p: nat)
    requires Inv(c, s) && InnerStep(c, s, s', p)
    ensures |s'.proc| == |s.proc| == c.size && p < c.size
    ensures s'.proc == s.proc[p := s'.proc[p]] && Further(c, s.proc[p], s'.proc[p])
  {
    assert StageOk(c, s, p) by { assert RankInv(c, s, p); }
    hide Inv;
    var a := s.proc[p].stage;
    if a.Await? {
      var t := Bump(s, c.Prev(p), p);
      AfterMoves(c, t, p, a.c);
    }
    if a.Notify? {
      AfterMoves(c, Bump(s, p, p), p, a.c);
    }
  }

  // ----- what is left of the first runs broadcasts

  // Nobody is beyond them.
  ghost predicate Within(c: Config, s: State, runs: nat) {
    |s.proc| == c.size && forall q {:trigger s.proc[q]} :: 0 <= q < c.size ==> s.proc[q].run < runs || s.proc[q] == Proc(runs, Outside)
  }

  ghost predicate AllReturned(c: Config, s: State, runs: nat) {
    |s.proc| == c.size && forall q {:trigger s.proc[q]} :: 0 <= q < c.size ==> s.proc[q] == Proc(runs, Outside)
  }

  function ToGo(c: Config, runs: nat, a: Proc): nat {
    if a.run >= runs then 0
    else
      var all := (runs - a.run) * Round(c);
      if Pos(c, a.stage) < all then all - Pos(c, a.stage) else 0
  }

  function Weights(c: Config, runs: nat, s: State): (w: seq<nat>)
    ensures |w| == |s.proc| && forall i :: 0 <= i < |w| ==> w[i] == ToGo(c, runs, s.proc[i])
  {
    seq(|s.proc|, i requires 0 <= i < |s.proc| => ToGo(c, runs, s.proc[i]))
  }

  function Left(c: Config, runs: nat, s: State): nat { Sum(Weights(c, runs, s)) }

  lemma FurtherLowers(c: Config, runs: nat, a: Proc, b: Proc)
    requires Further(c, a, b) && a.run < runs && Pos(c, a.stage) < Round(c) && Pos(c, b.stage) < Round(c)
    ensures ToGo(c, runs, b) < ToGo(c, runs, a) && (b.run < runs || b == Proc(runs, Outside))
  {
    var n, r: nat := runs - a.run, Round(c);
    assert n * r >= r by { MulMono(1, n, r); }
    assert (n - 1) * r == n * r - r;
  }

  lemma StageBelow(c: Config, s: State, p: nat)
    requires Inv(c, s) && p < c.size
    ensures |s.proc| == c.size && Pos(c, s.proc[p].stage) < Round(c)
  {
    assert RankInv(c, s, p);
    hide Counts, Order, Buffers;
  }

  // Rank p is the only one to have moved.
  lemma MoveLowers(c: Config, runs: nat, s: State, s': State, p: nat)
    requires Inv(c, s) && Inv(c, s') && Within(c, s, runs) && p < c.size && |s'.proc| == c.size
    requires s'.proc == s.proc[p := s'.proc[p]] && Further(c, s.proc[p], s'.proc[p]) && s.proc[p].run < runs
    ensures Within(c, s', runs) && Left(c, runs, s') < Left(c, runs, s)
  {
    StageBelow(c, s, p);
    StageBelow(c, s', p);
    FurtherLowers(c, runs, s.proc[p], s'.proc[p]);
    SumUpdate(Weights(c, runs, s), p, ToGo(c, runs, s'.proc[p]));
    assert Weights(c, runs, s') == Weights(c, runs, s)[p := ToGo(c, runs, s'.proc[p])];
  }

  // ----- runs that go on

  ghost predicate Extends(tr: seq<State>, tr': seq<State>) { 0 < |tr| <= |tr'| && tr'[..|tr|] == tr }

  lemma Longer(c: Config, tr: seq<State>, s': State) returns (more: seq<State>)
    requires IsRun(c, tr) && Next(c, tr[|tr| - 1], s')
    ensures IsRun(c, more) && Extends(tr, more) && more[|more| - 1] == s'
  {
    more := tr + [s'];
    hide Init, Next;
    forall i | 0 <= i < |more| - 1 ensures Next(c, more[i], more[i + 1]) { assert i < |tr| - 1 ==> Next(c, tr[i], tr[i + 1]); }
  }

  lemma ExtendsTrans(a: seq<State>, b: seq<State>, d: seq<State>)
    requires Extends(a, b) && Extends(b, d)
    ensures Extends(a, d)
  {
    assert d[..|a|] == d[..|b|][..|a|];
  }

  /** A rank that is outside can enter at any time; the root's user puts the data into the buffer before. */
  lemma MayEnter(c: Config, tr: seq<State>, p: nat) returns (tr': seq<State>)
    requires IsRun(c, tr) && p < c.size && |tr[|tr| - 1].proc| == c.size && tr[|tr| - 1].proc[p].stage.Outside?
    ensures IsRun(c, tr') && Extends(tr, tr')
    ensures tr'[|tr'| - 1].proc == tr[|tr| - 1].proc[p := Proc(tr[|tr| - 1].proc[p].run, Start)]
  {
    RunInv(c, tr, |tr| - 1);
    var s := tr[|tr| - 1];
    var row := seq(c.chunks, i requires 0 <= i < c.chunks => Val(c.data(s.proc[p].run, i)));
    var t := s.(buf := s.buf[p := row]);
    assert UserStep(c, s, t, p, row);
    assert Step(c, s, t, p, row);
    var u := Go(t, p, Start);
    assert EnterStep(c, t, u, p);
    assert Step(c, t, u, p, row);
    hide Step, IsRun, Inv;
    var more := Longer(c, tr, t);
    tr' := Longer(c, more, u);
    ExtendsTrans(tr, more, tr');
  }

  // Somebody gets further.
  lemma Progress(c: Config, tr: seq<State>, runs: nat) returns (tr': seq<State>)
    requires IsRun(c, tr) && Within(c, tr[|tr| - 1], runs) && !AllReturned(c, tr[|tr| - 1], runs)
    ensures IsRun(c, tr') && Extends(tr, tr')
    ensures Within(c, tr'[|tr'| - 1], runs) && Left(c, runs, tr'[|tr'| - 1]) < Left(c, runs, tr[|tr| - 1])
  {
    var s := tr[|tr| - 1];
    RunInv(c, tr, |tr| - 1);
    if q: nat :| q < c.size && s.proc[q].stage.Outside? && s.proc[q].run < runs {
      hide Inv, IsRun;
      tr' := MayEnter(c, tr, q);
      RunInv(c, tr', |tr'| - 1);
      MoveLowers(c, runs, s, tr'[|tr'| - 1], q);
    } else {
      var q: nat :| q < c.size && s.proc[q] != Proc(runs, Outside);
      assert !s.proc[q].stage.Outside?;
      hide Inv, IsRun, CanStep;
      var r := SomeoneMoves(c, s, runs, q);
      tr' := InnerProgress(c, tr, runs, r);
    }
  }

  lemma InnerProgress(c: Config, tr: seq<State>, runs: nat, p: nat) returns (tr': seq<State>)
    requires IsRun(c, tr) && Within(c, tr[|tr| - 1], runs) && p < c.size && CanStep(c, tr[|tr| - 1], p)
    ensures IsRun(c, tr') && Extends(tr, tr')
    ensures Within(c, tr'[|tr'| - 1], runs) && Left(c, runs, tr'[|tr'| - 1]) < Left(c, runs, tr[|tr| - 1])
  {
    var s := tr[|tr| - 1];
    RunInv(c, tr, |tr| - 1);
    var s' :| InnerStep(c, s, s', p);
    hide Inv, IsRun, InnerStep;
    InnerAdvances(c, s, s', p);
    assert Step(c, s, s', p, []);
    assert Next(c, s, s');
    tr' := Longer(c, tr, s');
    RunInv(c, tr', |tr'| - 1);
    hide Step, Next;
    InsideFurther(c, s, s', p, runs);
    MoveLowers(c, runs, s, s', p);
  }

  // Whoever takes a step inside has not made all its runs.
  lemma InsideFurther(c: Config, s: State, s': State, p: nat, runs: nat)
    requires Within(c, s, runs) && p < c.size && InnerStep(c, s, s', p)
    ensures s.proc[p].run < runs
  {}

  /** From every reachable state any number of broadcasts comes to its end: as long as nobody has made more than runs
      of them, the run can be continued to where every rank has returned from runs broadcasts. */
  lemma {:induction false} Completes(c: Config, tr: seq<State>, runs: nat) returns (tr': seq<State>)
    requires IsRun(c, tr) && Within(c, tr[|tr| - 1], runs)
    ensures IsRun(c, tr') && Extends(tr, tr') && AllReturned(c, tr'[|tr'| - 1], runs)
    decreases Left(c, runs, tr[|tr| - 1])
  {
    if AllReturned(c, tr[|tr| - 1], runs) {
      tr' := tr;
    } else {
      hide *;
      var more := Progress(c, tr, runs);
      tr' := Completes(c, more, runs);
      ExtendsTrans(tr, more, tr');
    }
  }
}
