/** Every step of a dynamic loop leaves less to do, so from wherever it is the loop comes to its end. */
module DynamicForProgress {
  import opened Sums
  import opened LoopRange
  import opened LoopChunks
  import opened DynamicFor

  // The steps a thread has still to take besides claims, and how far a counter can still be advanced.
  function ThreadLeft(c: Config, a: Thread): nat {
    (if a.pos < c.threads then 4 * (c.threads - a.pos) else 0)
    + match a.pc
      case Load => 3
      case Claimed(_) => 2
      case Test(_) => 1
  }

  function CounterLeft(c: Config, s: State, i: nat): nat
    requires c.threads > 0 && i < |s.value|
  {
    var most := c.Start(i + 1) + c.threads;
    if s.value[i] < most then 2 * (most - s.value[i]) else 0
  }

  function Threads(c: Config, s: State): (w: seq<nat>)
    ensures |w| == |s.thr| && forall t :: 0 <= t < |w| ==> w[t] == ThreadLeft(c, s.thr[t])
  {
    seq(|s.thr|, t requires 0 <= t < |s.thr| => ThreadLeft(c, s.thr[t]))
  }

  function Counters(c: Config, s: State): (w: seq<nat>)
    requires c.threads > 0
    ensures |w| == |s.value| && forall i :: 0 <= i < |w| ==> w[i] == CounterLeft(c, s, i)
  {
    seq(|s.value|, i requires 0 <= i < |s.value| => CounterLeft(c, s, i))
  }

  function Left(c: Config, s: State): nat
    requires c.threads > 0
  {
    Sum(Threads(c, s)) + Sum(Counters(c, s))
  }

  // Thread t has moved, and at most counter i has been advanced.
  lemma TwoSums(c: Config, s: State, s': State, t: nat, i: nat)
    requires Shape(c, s) && Shape(c, s') && t < c.threads && i < c.threads
    requires s'.thr == s.thr[t := s'.thr[t]] && s'.value == s.value[i := s'.value[i]]
    ensures Left(c, s') + ThreadLeft(c, s.thr[t]) + CounterLeft(c, s, i) == Left(c, s) + ThreadLeft(c, s'.thr[t]) + CounterLeft(c, s', i)
  {
    SumUpdate(Threads(c, s), t, ThreadLeft(c, s'.thr[t]));
    assert Threads(c, s') == Threads(c, s)[t := ThreadLeft(c, s'.thr[t])];
    SumUpdate(Counters(c, s), i, CounterLeft(c, s', i));
    assert Counters(c, s') == Counters(c, s)[i := CounterLeft(c, s', i)];
  }

  // What a step needs to leave less to do.
  lemma OneLowers(c: Config, s: State, s': State, t: nat)
    requires Inv(c, s) && Inv(c, s') && Step(c, s, s', t)
    ensures t < c.threads && s'.thr == s.thr[t := s'.thr[t]]
    ensures var i := if ClaimStep(c, s, s', t) then s.thr[t].at else 0;
            i < c.threads && s'.value == s.value[i := s'.value[i]]
            && ThreadLeft(c, s'.thr[t]) + CounterLeft(c, s', i) < ThreadLeft(c, s.thr[t]) + CounterLeft(c, s, i)
  {
    assert ThreadOk(c, s, t) && ThreadOk(c, s', t);
    var at := s.thr[t].at;
    if ClaimStep(c, s, s', t) {
      assert CounterOk(c, s', at);
      PassBound(c, s'.thr, at, c.threads);
    }
    hide Config.Start, Inv, ThreadOk, CounterOk, InStretch, Passed;
  }

  /** Every step, by whatever thread, leaves less to do. */
  lemma StepLowers(c: Config, s: State, s': State, t: nat)
    requires Inv(c, s) && Step(c, s, s', t)
    ensures Left(c, s') < Left(c, s)
  {
    StepInv(c, s, s', t);
    OneLowers(c, s, s', t);
    var i := if ClaimStep(c, s, s', t) then s.thr[t].at else 0;
    hide Inv, Step, ClaimStep, ThreadLeft, CounterLeft, Left;
    assert Shape(c, s) && Shape(c, s') by { InvShape(c, s); InvShape(c, s'); }
    TwoSums(c, s, s', t, i);
  }

  lemma InvShape(c: Config, s: State)
    requires Inv(c, s)
    ensures Shape(c, s)
  {}

  ghost predicate AllReturned(c: Config, s: State) { |s.thr| == c.threads && forall t :: 0 <= t < |s.thr| ==> s.thr[t].pos == c.threads }

  ghost predicate CalledOnce(s: State, k: nat) { s.calls[k] == 1 }

  ghost predicate Extends(tr: seq<State>, tr': seq<State>) { 0 < |tr| <= |tr'| && tr'[..|tr|] == tr }

  lemma Progress(c: Config, tr: seq<State>) returns (more: seq<State>)
    requires IsRun(c, tr) && c.threads > 0 && !AllReturned(c, tr[|tr| - 1])
    ensures IsRun(c, more) && Extends(tr, more) && Left(c, more[|more| - 1]) < Left(c, tr[|tr| - 1])
  {
    var s := tr[|tr| - 1];
    RunInv(c, tr, |tr| - 1);
    InvShape(c, s);
    var t: nat :| t < |s.thr| && s.thr[t].pos != c.threads;
    assert ThreadOk(c, s, t);
    hide Inv, Step, Left, ThreadOk, Init;
    NeverWaits(c, tr, |tr| - 1, t);
    var s' :| Step(c, s, s', t);
    StepLowers(c, s, s', t);
    assert Next(c, s, s');
    more := tr + [s'];
    hide Next;
    forall i | 0 <= i < |more| - 1 ensures Next(c, more[i], more[i + 1]) { assert i < |tr| - 1 ==> Next(c, tr[i], tr[i + 1]); }
  }

  /** From every reachable state the loop comes to where all threads have returned, and there is no other way to go on
      for ever; every chunk has then been run exactly once. */
  lemma {:induction false} Completes(c: Config, tr: seq<State>) returns (tr': seq<State>)
    requires IsRun(c, tr) && c.threads > 0
    ensures IsRun(c, tr') && Extends(tr, tr') && AllReturned(c, tr'[|tr'| - 1])
    ensures forall k: nat {:trigger CalledOnce(tr'[|tr'| - 1], k)} :: k < c.total ==> CalledOnce(tr'[|tr'| - 1], k)
    decreases Left(c, tr[|tr| - 1])
  {
    if AllReturned(c, tr[|tr| - 1]) {
      tr' := tr;
      hide IsRun;
      forall k: nat {:trigger CalledOnce(tr[|tr| - 1], k)} | k < c.total ensures CalledOnce(tr[|tr| - 1], k) { EveryChunkOnce(c, tr, |tr| - 1, k); }
    } else {
      hide IsRun, AllReturned;
      var more := Progress(c, tr);
      tr' := Completes(c, more);
      assert tr'[..|tr|] == tr'[..|more|][..|tr|];
    }
  }
}
