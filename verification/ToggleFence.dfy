/** The two toggling fences: the peer fence between two ranks, whose flag slots rotate through
    three, and the linear fence between all ranks, whose slots alternate between two.

    A participant flips its own flag in the current slot, spins until every watched participant
    shows the same value in that slot, and only then moves to its next slot. Each shared-memory
    access is one transition, so a run is any interleaving of the participants, each of which
    may pass the fence any number of times. */
module ToggleFence {
  import opened Sums

  const KUPL_ERROR := -1

  datatype Config = Peer | Linear(n: nat) {
    function Parties(): nat { if Peer? then 2 else n }

    function Slots(): nat { if Peer? then 3 else 2 }

    // p spins on the flags of participants Watched(p, 0), Watched(p, 1), ..., as many as Watches.
    function Watches(): nat { if Peer? then 1 else n }

    function Watched(p: nat, j: nat): nat
      requires p < Parties() && j < Watches()
    {
      if Peer? then 1 - p else j
    }

    // q is among the first seen participants that p spins on.
    predicate Seen(p: nat, seen: nat, q: nat)
      requires p < Parties()
    {
      if Peer? then seen > 0 && q == 1 - p else q < seen
    }

    // The slot after idx.
    function NextSlot(idx: nat): nat
      requires idx < Slots()
    {
      if Peer? then (idx + 1) % 3 else 1 - idx
    }
  }

  datatype Pc = Outside | Spinning(val: int, seen: nat)

  // One participant: its flags are shared, the rest is private; entered and left count its fences.
  datatype Party = Party(flag: seq<int>, idx: nat, pc: Pc, entered: nat, left: nat)

  type State = seq<Party>

  ghost predicate WellFormed(c: Config, s: State) {
    |s| == c.Parties() && forall p :: 0 <= p < |s| ==> |s[p].flag| == c.Slots() && s[p].idx < c.Slots()
  }

  ghost predicate Init(c: Config, s: State) {
    |s| == c.Parties()
    && forall p :: 0 <= p < |s| ==> s[p] == Party(seq(c.Slots(), _ => 0), 0, Outside, 0, 0)
  }

  ghost predicate Enter(c: Config, s: State, s': State, p: nat) {
    WellFormed(c, s) && p < |s| && s[p].pc.Outside?
    && var val := 1 - s[p].flag[s[p].idx];
       s' == s[p := s[p].(flag := s[p].flag[s[p].idx := val], pc := Spinning(val, 0), entered := s[p].entered + 1)]
  }

  // The peer fence gives up, without moving to its next slot, if the flag it spins on reads as an error code.
  ghost predicate Abort(c: Config, s: State, s': State, p: nat) {
    WellFormed(c, s) && c.Peer? && p < |s| && s[p].pc.Spinning? && s[p].pc.seen == 0
    && s[1 - p].flag[s[p].idx] == KUPL_ERROR
    && s' == s[p := s[p].(pc := Outside)]
  }

  ghost predicate See(c: Config, s: State, s': State, p: nat) {
    WellFormed(c, s) && p < |s| && s[p].pc.Spinning? && s[p].pc.seen < c.Watches()
    && TestPasses(c, s, p, c.Watched(p, s[p].pc.seen))
    && s' == s[p := s[p].(pc := Spinning(s[p].pc.val, s[p].pc.seen + 1))]
  }

  // The spin condition of p on q fails, so the loop on q ends.
  ghost predicate TestPasses(c: Config, s: State, p: nat, q: nat)
    requires WellFormed(c, s) && p < |s| && q < |s| && s[p].pc.Spinning?
  {
    s[q].flag[s[p].idx] == s[p].pc.val
  }

  ghost predicate Leave(c: Config, s: State, s': State, p: nat) {
    WellFormed(c, s) && p < |s| && s[p].pc.Spinning? && s[p].pc.seen == c.Watches()
    && s' == s[p := s[p].(pc := Outside, idx := c.NextSlot(s[p].idx), left := s[p].left + 1)]
  }

  ghost predicate Step(c: Config, s: State, s': State, p: nat) {
    Enter(c, s, s', p) || Abort(c, s, s', p) || See(c, s, s', p) || Leave(c, s, s', p)
  }

  ghost predicate Next(c: Config, s: State, s': State) {
    exists p: nat :: Step(c, s, s', p)
  }

  ghost predicate IsRun(c: Config, tr: seq<State>) {
    |tr| > 0 && Init(c, tr[0]) && forall i :: 0 <= i < |tr| - 1 ==> Next(c, tr[i], tr[i + 1])
  }

  // The slot of the fence number e.
  function SlotOf(c: Config, e: nat): nat { if c.Peer? then e % 3 else e % 2 }

  // How often a participant that entered e fences has flipped its flag in slot i.
  function Toggles(c: Config, e: nat, i: nat): nat
    requires i < c.Slots()
  {
    if c.Peer? then (e + 2 - i) / 3 else (e + 1 - i) / 2
  }

  ghost predicate PartyInv(c: Config, s: State, p: nat)
    requires WellFormed(c, s) && p < |s|
  {
    var a := s[p];
    a.idx == SlotOf(c, a.left)
    && (forall i :: 0 <= i < c.Slots() ==> a.flag[i] == Toggles(c, a.entered, i) % 2)
    && (a.pc.Outside? ==> a.entered == a.left)
    && (a.pc.Spinning? ==>
          a.entered == a.left + 1 && a.pc.val == a.flag[a.idx] && a.pc.seen <= c.Watches()
          && forall q :: 0 <= q < |s| && c.Seen(p, a.pc.seen, q) ==> s[q].entered >= a.left + 1)
  }

  ghost predicate Inv(c: Config, s: State) {
    WellFormed(c, s)
    && (forall p :: 0 <= p < |s| ==> PartyInv(c, s, p))
    && (forall p, q :: 0 <= p < |s| && 0 <= q < |s| ==> s[p].left <= s[q].entered)
  }

  // Entering flips exactly the slot of the fence being entered.
  lemma ToggleOnce(c: Config, e: nat, i: nat)
    requires i < c.Slots()
    ensures Toggles(c, e + 1, i) == Toggles(c, e, i) + (if i == SlotOf(c, e) then 1 else 0)
  {}

  lemma NextSlotOf(c: Config, l: nat)
    ensures c.NextSlot(SlotOf(c, l)) == SlotOf(c, l + 1)
  {}

  // Between participants at most two fences apart, the parity of the slot tells the fences apart.
  lemma ParityTells(c: Config, r: nat, e: nat)
    requires r <= e <= r + 2
    ensures Toggles(c, e, SlotOf(c, r)) % 2 == Toggles(c, r + 1, SlotOf(c, r)) % 2 <==> e >= r + 1
  {
    ToggleOnce(c, r, SlotOf(c, r));
    ToggleOnce(c, r + 1, SlotOf(c, r));
  }

  /** No flag is missed and none is taken for another round's: p's test on q passes exactly when q has
      entered the fence that p is in. */
  lemma TestExact(c: Config, s: State, p: nat, q: nat)
    requires Inv(c, s) && p < |s| && q < |s| && s[p].pc.Spinning?
    ensures TestPasses(c, s, p, q) <==> s[q].entered >= s[p].entered
  {
    assert PartyInv(c, s, p) && PartyInv(c, s, q);
    assert s[p].left <= s[q].entered && s[q].left <= s[p].entered;
    ParityTells(c, s[p].left, s[q].entered);
  }

  lemma InitInv(c: Config, s: State)
    requires Init(c, s)
    ensures Inv(c, s)
  {
    forall i | 0 <= i < c.Slots() ensures Toggles(c, 0, i) == 0 {}
  }

  lemma EnterMine(c: Config, s: State, s': State, p: nat)
    requires Inv(c, s) && Enter(c, s, s', p)
    ensures WellFormed(c, s') && PartyInv(c, s', p)
  {
    assert PartyInv(c, s, p);
    hide Toggles;
    forall i | 0 <= i < c.Slots() ensures s'[p].flag[i] == Toggles(c, s'[p].entered, i) % 2 {
      ToggleOnce(c, s[p].entered, i);
      FlipParity(Toggles(c, s[p].entered, i));
    }
    hide SlotOf;
  }

  lemma FlipParity(t: nat)
    ensures (t + 1) % 2 == 1 - t % 2
  {}

  lemma EnterInv(c: Config, s: State, s': State, p: nat)
    requires Inv(c, s) && Enter(c, s, s', p)
    ensures Inv(c, s')
  {
    EnterMine(c, s, s', p);
    Others(c, s, s', p);
    hide PartyInv;
    forall q | 0 <= q < |s| ensures PartyInv(c, s', q) {}
    forall q | 0 <= q < |s| ensures s'[p].left <= s'[q].entered { assert s[p].left <= s[q].entered; }
  }

  lemma SeeInv(c: Config, s: State, s': State, p: nat)
    requires Inv(c, s) && See(c, s, s', p)
    ensures Inv(c, s')
  {
    assert PartyInv(c, s, p);
    TestExact(c, s, p, c.Watched(p, s[p].pc.seen));
    Others(c, s, s', p);
  }

  lemma LeaveInv(c: Config, s: State, s': State, p: nat)
    requires Inv(c, s) && Leave(c, s, s', p)
    ensures Inv(c, s')
  {
    assert PartyInv(c, s, p);
    NextSlotOf(c, s[p].left);
    assert PartyInv(c, s', p);
    forall q | 0 <= q < |s| ensures s[p].left + 1 <= s[q].entered {
      assert q == p || c.Seen(p, s[p].pc.seen, q);
    }
    Others(c, s, s', p);
  }

  // A step of p leaves the invariant of everyone else in place.
  lemma Others(c: Config, s: State, s': State, p: nat)
    requires Inv(c, s) && WellFormed(c, s') && |s'| == |s| && p < |s|
    requires forall q :: 0 <= q < |s| && q != p ==> s'[q] == s[q]
    requires s'[p].entered >= s[p].entered
    ensures forall q :: 0 <= q < |s| && q != p ==> PartyInv(c, s', q)
    ensures forall q, r :: 0 <= q < |s| && 0 <= r < |s| && q != p ==> s'[q].left <= s'[r].entered
  {
    forall q | 0 <= q < |s| && q != p ensures PartyInv(c, s', q) {
      assert PartyInv(c, s, q);
    }
    forall q, r | 0 <= q < |s| && 0 <= r < |s| && q != p ensures s'[q].left <= s'[r].entered {
      assert s[q].left <= s[r].entered;
    }
  }

  /** Flags only ever read 0 or 1, so the peer fence never takes its error exit. */
  lemma NeverAborts(c: Config, s: State, s': State, p: nat)
    requires Inv(c, s)
    ensures !Abort(c, s, s', p)
  {
    if c.Peer? && p < 2 {
      assert PartyInv(c, s, 1 - p);
    }
  }

  lemma {:induction false} RunInv(c: Config, tr: seq<State>, i: nat)
    requires IsRun(c, tr) && i < |tr|
    ensures Inv(c, tr[i])
  {
    if i == 0 {
      InitInv(c, tr[0]);
    } else {
      RunInv(c, tr, i - 1);
      var s, s' := tr[i - 1], tr[i];
      assert Next(c, s, s');
      var p: nat :| Step(c, s, s', p);
      NeverAborts(c, s, s', p);
      if Enter(c, s, s', p) { EnterInv(c, s, s', p); }
      else if See(c, s, s', p) { SeeInv(c, s, s', p); }
      else { LeaveInv(c, s, s', p); }
    }
  }

  /** The fence is a barrier over any number of rounds: whoever has left k fences, everyone has entered
      k of them, and no two participants are ever more than one fence apart. */
  lemma FenceIsABarrier(c: Config, tr: seq<State>, i: nat, p: nat, q: nat)
    requires IsRun(c, tr) && i < |tr| && p < c.Parties() && q < c.Parties()
    ensures p < |tr[i]| && q < |tr[i]|
    ensures tr[i][p].left <= tr[i][q].entered
    ensures tr[i][p].entered <= tr[i][q].entered + 1
  {
    RunInv(c, tr, i);
    assert PartyInv(c, tr[i], p) && PartyInv(c, tr[i], q);
  }

  /** Nothing gets stuck on a stale slot: a participant inside a fence can take a step unless the very
      participant it is looking at has not yet entered that fence. */
  lemma BlockedOnlyByALatecomer(c: Config, tr: seq<State>, i: nat, p: nat)
    requires IsRun(c, tr) && i < |tr| && p < c.Parties()
    ensures |tr[i]| == c.Parties()
    ensures tr[i][p].pc.Spinning? ==>
              (exists s' :: Step(c, tr[i], s', p))
              || (tr[i][p].pc.seen < c.Watches() && tr[i][c.Watched(p, tr[i][p].pc.seen)].entered < tr[i][p].entered)
  {
    RunInv(c, tr, i);
    var s := tr[i];
    assert PartyInv(c, s, p);
    if s[p].pc.Spinning? {
      if s[p].pc.seen == c.Watches() {
        var s' := s[p := s[p].(pc := Outside, idx := c.NextSlot(s[p].idx), left := s[p].left + 1)];
        assert Step(c, s, s', p);
      } else {
        var q := c.Watched(p, s[p].pc.seen);
        TestExact(c, s, p, q);
        if TestPasses(c, s, p, q) {
          var s' := s[p := s[p].(pc := Spinning(s[p].pc.val, s[p].pc.seen + 1))];
          assert Step(c, s, s', p);
        }
      }
    }
  }

  // ----- any number of fences comes to its end

  // The steps a participant has still to take to have left rounds fences.
  function ToGo(c: Config, rounds: nat, a: Party): nat {
    if a.left >= rounds then 0
    else match a.pc
      case Outside => (rounds - a.left) * (c.Watches() + 2)
      case Spinning(_, seen) => (rounds - a.left - 1) * (c.Watches() + 2) + 1 + if seen < c.Watches() then c.Watches() - seen else 0
  }

  function Weights(c: Config, rounds: nat, s: State): (w: seq<nat>)
    ensures |w| == |s| && forall p :: 0 <= p < |w| ==> w[p] == ToGo(c, rounds, s[p])
  {
    seq(|s|, p requires 0 <= p < |s| => ToGo(c, rounds, s[p]))
  }

  // Nobody is beyond the first rounds fences.
  ghost predicate Within(s: State, rounds: nat) {
    forall p {:trigger s[p]} :: 0 <= p < |s| ==> s[p].left < rounds || (s[p].left == rounds && s[p].pc.Outside?)
  }

  ghost predicate AllLeft(s: State, rounds: nat) { forall p {:trigger s[p]} :: 0 <= p < |s| ==> s[p].left == rounds && s[p].pc.Outside? }

  // b is later in the same fence than a, or has just left it, or entered it.
  predicate Further(c: Config, a: Party, b: Party) {
    if a.pc.Outside? then b.left == a.left && b.pc.Spinning?
    else if b.pc.Outside? then b.left == a.left + 1
    else b.left == a.left && a.pc.seen < b.pc.seen <= c.Watches()
  }

  /** A step takes the participant that makes it further, and no other. */
  lemma StepAdvances(c: Config, s: State, s': State, p: nat)
    requires Inv(c, s) && Step(c, s, s', p)
    ensures |s'| == |s| && p < |s| && s' == s[p := s'[p]] && Further(c, s[p], s'[p])
  {
    NeverAborts(c, s, s', p);
    hide Inv, Abort;
  }

  lemma FurtherLowers(c: Config, rounds: nat, a: Party, b: Party)
    requires Further(c, a, b) && a.left < rounds
    ensures ToGo(c, rounds, b) < ToGo(c, rounds, a) && (b.left < rounds || (b.left == rounds && b.pc.Outside?))
  {
    var k, r := rounds - a.left, c.Watches() + 2;
    assert k * r == (k - 1) * r + r;
  }

  // The participant that is inside and has entered the fewest fences can take a step.
  lemma {:induction false} FewestEntered(s: State, k: nat, p: nat) returns (f: nat)
    requires p < k <= |s| && s[p].pc.Spinning?
    ensures f < k && s[f].pc.Spinning? && forall q :: 0 <= q < k && s[q].pc.Spinning? ==> s[f].entered <= s[q].entered
    decreases k
  {
    if s[k - 1].pc.Spinning? && forall x :: 0 <= x < k - 1 ==> !s[x].pc.Spinning? {
      f := k - 1;
    } else {
      var x: nat :| x < k - 1 && s[x].pc.Spinning?;
      f := FewestEntered(s, k - 1, x);
      if s[k - 1].pc.Spinning? && s[k - 1].entered < s[f].entered { f := k - 1; }
    }
  }

  lemma SomeStep(c: Config, tr: seq<State>, rounds: nat) returns (p: nat, s': State)
    requires IsRun(c, tr) && Within(tr[|tr| - 1], rounds) && !AllLeft(tr[|tr| - 1], rounds)
    ensures p < |tr[|tr| - 1]| && Step(c, tr[|tr| - 1], s', p) && tr[|tr| - 1][p].left < rounds
  {
    var s := tr[|tr| - 1];
    RunInv(c, tr, |tr| - 1);
    if u: nat :| u < |s| && s[u].pc.Outside? && s[u].left < rounds {
      p := u;
      var val := 1 - s[p].flag[s[p].idx];
      s' := s[p := s[p].(flag := s[p].flag[s[p].idx := val], pc := Spinning(val, 0), entered := s[p].entered + 1)];
      assert Enter(c, s, s', p);
    } else {
      var u: nat :| u < |s| && !(s[u].left == rounds && s[u].pc.Outside?);
      p := FewestEntered(s, |s|, u);
      BlockedOnlyByALatecomer(c, tr, |tr| - 1, p);
      assert PartyInv(c, s, p);
      if s[p].pc.seen < c.Watches() {
        var q := c.Watched(p, s[p].pc.seen);
        assert PartyInv(c, s, q) && s[q].entered >= s[p].entered;
      }
      hide Step;
      s' :| Step(c, s, s', p);
    }
  }

  ghost predicate Extends(tr: seq<State>, tr': seq<State>) { 0 < |tr| <= |tr'| && tr'[..|tr|] == tr }

  lemma Progress(c: Config, tr: seq<State>, rounds: nat) returns (more: seq<State>)
    requires IsRun(c, tr) && Within(tr[|tr| - 1], rounds) && !AllLeft(tr[|tr| - 1], rounds)
    ensures IsRun(c, more) && Extends(tr, more) && Within(more[|more| - 1], rounds)
    ensures Sum(Weights(c, rounds, more[|more| - 1])) < Sum(Weights(c, rounds, tr[|tr| - 1]))
  {
    var s := tr[|tr| - 1];
    RunInv(c, tr, |tr| - 1);
    hide Inv, Init, ToGo, Step, AllLeft;
    var p, s' := SomeStep(c, tr, rounds);
    StepAdvances(c, s, s', p);
    FurtherLowers(c, rounds, s[p], s'[p]);
    hide Further;
    SumLess(Weights(c, rounds, s), Weights(c, rounds, s'), p);
    more := tr + [s'];
    assert Next(c, s, s');
    hide Next;
    forall i | 0 <= i < |more| - 1 ensures Next(c, more[i], more[i + 1]) { assert i < |tr| - 1 ==> Next(c, tr[i], tr[i + 1]); }
  }

  /** From every reachable state any number of fences comes to its end: as long as nobody has left more than rounds of
      them, the run can be continued to where every participant has left rounds fences. */
  lemma {:induction false} Completes(c: Config, tr: seq<State>, rounds: nat) returns (tr': seq<State>)
    requires IsRun(c, tr) && Within(tr[|tr| - 1], rounds)
    ensures IsRun(c, tr') && Extends(tr, tr') && AllLeft(tr'[|tr'| - 1], rounds)
    decreases Sum(Weights(c, rounds, tr[|tr| - 1]))
  {
    if AllLeft(tr[|tr| - 1], rounds) {
      tr' := tr;
    } else {
      hide IsRun, AllLeft, Within;
      var more := Progress(c, tr, rounds);
      tr' := Completes(c, more, rounds);
      assert tr'[..|tr|] == tr'[..|more|][..|tr|];
    }
  }
}
