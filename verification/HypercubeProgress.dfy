/** Every step takes a rank further through the hypercube fence, so any number of fences comes to its end. */
module HypercubeProgress {
  import opened Sums
  import opened Division
  import opened Pow2Math
  import opened HypercubeFence

  // b is later in the same fence than a, or has just left it.
  predicate Further(c: Config, a: Rank, b: Rank) {
    (b.round == a.round && Stage(c, a.pc) < Stage(c, b.pc)) || (b.round == a.round + 1 && b.pc.Outside?)
  }

  /** A step takes the rank that makes it further, and no other. */
  lemma StepAdvances(c: Config, s: State, s': State, p: nat)
    requires Inv(c, s) && Step(c, s, s', p)
    ensures |s'| == |s| && p < |s| && s' == s[p := s'[p]] && Further(c, s[p], s'[p])
    ensures Stage(c, s[p].pc) < Cycle(c)
  {
    assert Mine(c, s, p);
    hide Inv, Flip;
  }

  function Cycle(c: Config): nat { 5 + 2 * c.loopTimes }

  // The steps that a rank has still to take to have left rounds fences.
  function ToGo(c: Config, rounds: nat, a: Rank): nat {
    if a.round >= rounds then 0
    else
      var all := (rounds - a.round) * Cycle(c);
      if Stage(c, a.pc) < all then all - Stage(c, a.pc) else 0
  }

  function Weights(c: Config, rounds: nat, s: State): (w: seq<nat>)
    ensures |w| == |s| && forall p :: 0 <= p < |w| ==> w[p] == ToGo(c, rounds, s[p])
  {
    seq(|s|, p requires 0 <= p < |s| => ToGo(c, rounds, s[p]))
  }

  lemma FurtherLowers(c: Config, rounds: nat, a: Rank, b: Rank)
    requires Further(c, a, b) && a.round < rounds && Stage(c, a.pc) < Cycle(c) && Stage(c, b.pc) < Cycle(c)
    ensures ToGo(c, rounds, b) < ToGo(c, rounds, a) && (b.round < rounds || (b.round == rounds && b.pc.Outside?))
  {
    var k, r: nat := rounds - a.round, Cycle(c);
    MulMono(1, k, r);
    assert (k - 1) * r == k * r - r;
  }

  // Nobody is beyond the first rounds fences.
  ghost predicate Within(s: State, rounds: nat) {
    forall p {:trigger s[p]} :: 0 <= p < |s| ==> s[p].round < rounds || (s[p].round == rounds && s[p].pc.Outside?)
  }

  ghost predicate AllLeft(s: State, rounds: nat) { forall p {:trigger s[p]} :: 0 <= p < |s| ==> s[p].round == rounds && s[p].pc.Outside? }

  ghost predicate Extends(tr: seq<State>, tr': seq<State>) { 0 < |tr| <= |tr'| && tr'[..|tr|] == tr }

  lemma StageBelow(c: Config, s: State, p: nat)
    requires Inv(c, s) && p < |s|
    ensures Stage(c, s[p].pc) < Cycle(c)
  {
    assert Mine(c, s, p);
  }

  lemma Progress(c: Config, tr: seq<State>, rounds: nat) returns (more: seq<State>)
    requires IsRun(c, tr) && Within(tr[|tr| - 1], rounds) && !AllLeft(tr[|tr| - 1], rounds)
    ensures IsRun(c, more) && Extends(tr, more) && Within(more[|more| - 1], rounds)
    ensures Sum(Weights(c, rounds, more[|more| - 1])) < Sum(Weights(c, rounds, tr[|tr| - 1]))
  {
    var s := tr[|tr| - 1];
    RunInv(c, tr, |tr| - 1);
    hide Inv, Init, ToGo, Enabled, Moved, Stage;
    var p := NeverStuck(c, tr, |tr| - 1);
    assert s[p].round < rounds;
    var s' := s[p := Moved(c, s, p)];
    assert Step(c, s, s', p);
    assert Next(c, s, s');
    more := tr + [s'];
    forall i | 0 <= i < |more| - 1 ensures Next(c, more[i], more[i + 1]) { assert i < |tr| - 1 ==> Next(c, tr[i], tr[i + 1]); }
    RunInv(c, more, |more| - 1);
    hide Next, IsRun;
    StepAdvances(c, s, s', p);
    StageBelow(c, s', p);
    FurtherLowers(c, rounds, s[p], s'[p]);
    SumLess(Weights(c, rounds, s), Weights(c, rounds, s'), p);
  }

  /** From every reachable state any number of fences comes to its end: as long as nobody has left more than rounds of
      them, the run can be continued to where every rank has left rounds fences. */
  lemma {:induction false} Completes(c: Config, tr: seq<State>, rounds: nat) returns (tr': seq<State>)
    requires IsRun(c, tr) && Within(tr[|tr| - 1], rounds)
    ensures IsRun(c, tr') && Extends(tr, tr') && AllLeft(tr'[|tr'| - 1], rounds)
    decreases Sum(Weights(c, rounds, tr[|tr| - 1]))
  {
    if AllLeft(tr[|tr| - 1], rounds) {
      tr' := tr;
    } else {
      hide IsRun, AllLeft, Within;
      var more := Progress(c, tr, rounds);
      tr' := Completes(c, more, rounds);
      assert tr'[..|tr|] == tr'[..|more|][..|tr|];
    }
  }
}
