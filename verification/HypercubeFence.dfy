/** The recursive-doubling fence for any number of ranks.

    Ranks beyond the largest power of two first meet a partner inside it (peer fence), then every
    rank runs the hypercube exchange - at level i it counts its flag up and spins until the rank
    one bit away has counted as far - then it clears its oldest flag slot, moves to the next of
    three slots, and meets its partner once more.

    Each shared-memory access is one transition of one rank. The flags of the peer fence between
    partners are part of the state; ToggleFence says what their parity tells. */
module HypercubeFence {
  import opened Division
  import opened Pow2Math
  import TF = ToggleFence

  // Constants computed once per fence: see Create.
  datatype Config = Config(size: nat, loopTimes: nat, nearPow2: nat) {
    ghost predicate Valid() {
      nearPow2 == Pow2(loopTimes) && nearPow2 <= size < 2 * nearPow2
    }

    predicate HasPartner(p: nat) {
      p >= size as int - 2 * (size as int - nearPow2)
    }

    function Partner(p: nat): int {
      if p < nearPow2 then p + (size as int - nearPow2) else p - (size as int - nearPow2)
    }
  }

  method Create(size: nat) returns (loopTimes: nat, nearPow2: nat)
    requires size >= 1
    ensures Config(size, loopTimes, nearPow2).Valid()
  {
    loopTimes, nearPow2 := 0, 1;
    var tmp := size;
    while tmp > 1
      invariant tmp >= 1 && nearPow2 == Pow2(loopTimes) && tmp == Block(size, loopTimes)
    {
      LevelUp(size, loopTimes);
      tmp := tmp / 2;
      nearPow2 := 2 * nearPow2;
      loopTimes := loopTimes + 1;
    }
    DivMod(size, nearPow2);
  }

  // Where a rank is: outside, in its peer phases, at the top of loop iteration i, or spinning in it.
  datatype Pc = Outside | PreSpin | Top(i: nat) | Spin(i: nat) | PostSet | PostSpin

  // slots and peerFlag (the flags towards the partner) are shared; the rest is private. round counts
  // the fences a rank has left, peerEntered and peerLeft the peer fences within them.
  datatype Rank = Rank(slots: seq<nat>, idx: nat, pc: Pc, round: nat,
                       peerFlag: seq<int>, peerIdx: nat, peerEntered: nat, peerLeft: nat)

  type State = seq<Rank>

  ghost predicate WellFormed(c: Config, s: State) {
    |s| == c.size
    && forall p :: 0 <= p < |s| ==>
         |s[p].slots| == 3 && s[p].idx < 3 && |s[p].peerFlag| == 3 && s[p].peerIdx < 3
         && (s[p].pc.PreSpin? || s[p].pc.PostSpin? ==> 0 <= c.Partner(p) < |s|)
         && (s[p].pc.Spin? ==> Flip(p, s[p].pc.i) < |s|)
  }

  ghost predicate Init(c: Config, s: State) {
    |s| == c.size && forall p :: 0 <= p < |s| ==> s[p] == Rank([0, 0, 0], 0, Outside, 0, [0, 0, 0], 0, 0, 0)
  }

  // The spin of a peer fence ends: the partner's flag shows the value this rank has set its own to.
  predicate PartnerShows(a: Rank, b: Rank)
    requires a.peerIdx < 3 && |a.peerFlag| == 3 && |b.peerFlag| == 3
  {
    b.peerFlag[a.peerIdx] == a.peerFlag[a.peerIdx]
  }

  // Whether p can take its next step: only the three spins ever wait.
  ghost predicate Enabled(c: Config, s: State, p: nat) {
    WellFormed(c, s) && p < |s|
    && match s[p].pc
       case PreSpin => PartnerShows(s[p], s[c.Partner(p)])
       case Spin(i) => s[Flip(p, i)].slots[s[p].idx] >= s[p].slots[s[p].idx]
       case PostSpin => PartnerShows(s[p], s[c.Partner(p)])
       case _ => true
  }

  function Leave(a: Rank): Rank { a.(pc := Outside, round := a.round + 1) }

  function EnterPeer(a: Rank): Rank
    requires a.peerIdx < 3 && |a.peerFlag| == 3
  {
    a.(peerFlag := a.peerFlag[a.peerIdx := 1 - a.peerFlag[a.peerIdx]], peerEntered := a.peerEntered + 1)
  }

  function LeavePeer(a: Rank): Rank { a.(peerIdx := (a.peerIdx + 1) % 3, peerLeft := a.peerLeft + 1) }

  // What the next step of p makes of p.
  ghost function Moved(c: Config, s: State, p: nat): Rank
    requires Enabled(c, s, p)
  {
    var a := s[p];
    match a.pc
    case Outside =>
      if c.HasPartner(p) then EnterPeer(a).(pc := PreSpin) else a.(pc := Top(0))
    case PreSpin => LeavePeer(a).(pc := Top(0))
    case Top(i) =>
      if i < c.loopTimes then
        a.(slots := a.slots[a.idx := a.slots[a.idx] + 1], pc := if Flip(p, i) < c.size then Spin(i) else Top(i + 1))
      else
        var b := a.(slots := a.slots[(2 + a.idx) % 3 := 0], idx := (1 + a.idx) % 3);
        if c.HasPartner(p) then b.(pc := PostSet) else Leave(b)
    case Spin(i) => a.(pc := Top(i + 1))
    case PostSet => EnterPeer(a).(pc := PostSpin)
    case PostSpin => Leave(LeavePeer(a))
  }

  ghost predicate Step(c: Config, s: State, s': State, p: nat) {
    Enabled(c, s, p) && s' == s[p := Moved(c, s, p)]
  }

  ghost predicate Next(c: Config, s: State, s': State) {
    exists p: nat :: Step(c, s, s', p)
  }

  ghost predicate IsRun(c: Config, tr: seq<State>) {
    c.Valid() && |tr| > 0 && Init(c, tr[0]) && forall i :: 0 <= i < |tr| - 1 ==> Next(c, tr[i], tr[i + 1])
  }

  // ----- how far a rank has come

  // The number of fences a rank has entered, and entered beyond the first peer phase.
  function Entered(a: Rank): nat { a.round + if a.pc.Outside? then 0 else 1 }

  function EnteredLoop(a: Rank): nat { a.round + if a.pc.Outside? || a.pc.PreSpin? then 0 else 1 }

  // The number of hypercube exchanges a rank has finished.
  function Finished(a: Rank): nat { a.round + if a.pc.PostSet? || a.pc.PostSpin? then 1 else 0 }

  // In the current exchange: how often the flag was counted up, and how many levels are behind.
  function Counted(a: Rank): nat { match a.pc case Top(i) => i case Spin(i) => i + 1 case _ => 0 }

  function Passed(a: Rank): nat { match a.pc case Top(i) => i case Spin(i) => i case _ => 0 }

  // a has counted its flag up at level i of exchange r.
  predicate HasCounted(a: Rank, r: nat, i: nat) {
    Finished(a) > r || (Finished(a) == r && Counted(a) > i)
  }

  // ----- the invariant, seen from one rank

  ghost predicate Own(c: Config, a: Rank, p: nat) {
    var r := Finished(a);
    |a.slots| == 3 && a.idx == r % 3
    && a.slots[r % 3] == Counted(a)
    && a.slots[(r + 1) % 3] == 0
    && a.slots[(r + 2) % 3] == (if r == 0 then 0 else c.loopTimes)
    && (a.pc.Top? ==> a.pc.i <= c.loopTimes)
    && (a.pc.Spin? ==> a.pc.i < c.loopTimes && Flip(p, a.pc.i) < c.size)
    && (a.pc.PreSpin? || a.pc.PostSet? || a.pc.PostSpin? ==> c.HasPartner(p))
    && (c.HasPartner(p) ==>
          a.peerEntered == 2 * a.round + (if a.pc.Outside? then 0 else if a.pc.PostSpin? then 2 else 1)
          && a.peerLeft == 2 * a.round + (if a.pc.Outside? || a.pc.PreSpin? then 0 else 1))
  }

  ghost predicate PeerOwn(a: Rank) {
    |a.peerFlag| == 3 && a.peerIdx == TF.SlotOf(TF.Peer, a.peerLeft)
    && forall i :: 0 <= i < 3 ==> a.peerFlag[i] == TF.Toggles(TF.Peer, a.peerEntered, i) % 2
  }

  // Every level behind p was counted by p's peer there, in this exchange and in the one before.
  ghost predicate PeersCounted(c: Config, s: State, p: nat)
    requires |s| == c.size && p < |s|
  {
    forall i :: 0 <= i < c.loopTimes && Flip(p, i) < c.size ==>
      (Finished(s[p]) > 0 ==> HasCounted(s[Flip(p, i)], Finished(s[p]) - 1, i))
      && (Passed(s[p]) > i ==> HasCounted(s[Flip(p, i)], Finished(s[p]), i))
  }

  // Inside the power of two: the whole block that p has exchanged with has entered p's exchange.
  ghost predicate BlockEntered(c: Config, s: State, p: nat)
    requires |s| == c.size && p < |s|
  {
    p < c.nearPow2 ==>
      forall q :: 0 <= q < c.nearPow2 && q < |s| ==>
        EnteredLoop(s[q]) >= Finished(s[p])
        && ((s[p].pc.Top? || s[p].pc.Spin?) && Block(q, Passed(s[p])) == Block(p, Passed(s[p])) ==>
              EnteredLoop(s[q]) > Finished(s[p]))
  }

  ghost predicate PartnerMet(c: Config, s: State, p: nat)
    requires |s| == c.size && p < |s|
  {
    c.HasPartner(p) ==> 0 <= c.Partner(p) < |s| && s[p].peerLeft <= s[c.Partner(p)].peerEntered
  }

  ghost predicate Mine(c: Config, s: State, p: nat)
    requires |s| == c.size && p < |s|
  {
    Own(c, s[p], p) && PeerOwn(s[p]) && PeersCounted(c, s, p) && BlockEntered(c, s, p) && PartnerMet(c, s, p)
  }

  ghost predicate Inv(c: Config, s: State) {
    c.Valid() && |s| == c.size && forall p :: 0 <= p < |s| ==> Mine(c, s, p)
  }

  // ----- its preservation

  ghost predicate Grows(a: Rank, b: Rank) {
    (Finished(b) > Finished(a) || (Finished(b) == Finished(a) && Counted(b) >= Counted(a)))
    && EnteredLoop(b) >= EnteredLoop(a) && b.peerEntered >= a.peerEntered
  }

  // What p has done stays done, so nobody else's invariant is hurt by a step of p.
  lemma OthersKeep(c: Config, s: State, s': State, p: nat, q: nat)
    requires Inv(c, s) && p < |s| && q < |s| && q != p
    requires |s'| == |s| && s' == s[p := s'[p]] && Grows(s[p], s'[p])
    ensures Mine(c, s', q)
  {
    assert Mine(c, s, q);
    forall i | 0 <= i < c.loopTimes && Flip(q, i) < c.size
      ensures Finished(s[q]) > 0 ==> HasCounted(s'[Flip(q, i)], Finished(s[q]) - 1, i)
      ensures Passed(s[q]) > i ==> HasCounted(s'[Flip(q, i)], Finished(s[q]), i)
    {
      assert PeersCounted(c, s, q);
    }
  }

  // The least and greatest exchange that a neighbour of p can be in.
  lemma NeighboursClose(c: Config, s: State, p: nat, i: nat)
    requires Inv(c, s) && p < |s| && i < c.loopTimes && Flip(p, i) < |s|
    ensures var q := Flip(p, i);
            Finished(s[q]) <= Finished(s[p]) + 1 && Finished(s[p]) <= Finished(s[q]) + 1
  {
    var q := Flip(p, i);
    FlipFacts(p, i);
    assert Mine(c, s, p) && Mine(c, s, q);
    assert Flip(q, i) == p;
  }

  // What a rank's slot of exchange r reads, up to one exchange away from its own.
  lemma SlotReads(c: Config, a: Rank, p: nat, r: nat)
    requires Own(c, a, p) && r <= Finished(a) + 1 && Finished(a) <= r + 1
    ensures a.slots[r % 3] == (if r == Finished(a) then Counted(a) else if r < Finished(a) then c.loopTimes else 0)
  {}

  /** The spin on a neighbour's flag is exact: it passes if and only if the neighbour has counted up at
      this level of this exchange - a slot left over from another exchange never lets it pass and a
      cleared one never holds it back. */
  lemma SpinExact(c: Config, s: State, p: nat)
    requires Inv(c, s) && p < |s| && s[p].pc.Spin?
    ensures Flip(p, s[p].pc.i) < |s| && |s[p].slots| == 3 && s[p].idx < 3
    ensures var q := Flip(p, s[p].pc.i);
            |s[q].slots| == 3
            && (s[q].slots[s[p].idx] >= s[p].slots[s[p].idx] <==> HasCounted(s[q], Finished(s[p]), s[p].pc.i))
  {
    assert Mine(c, s, p);
    var i := s[p].pc.i;
    var q := Flip(p, i);
    assert Mine(c, s, q);
    FlipFacts(p, i);
    NeighboursClose(c, s, p, i);
    SlotReads(c, s[p], p, Finished(s[p]));
    SlotReads(c, s[q], q, Finished(s[p]));
  }

  // The peer spin, likewise, passes exactly when the partner has entered this peer fence.
  lemma PeerSpinExact(c: Config, s: State, p: nat)
    requires Inv(c, s) && p < |s| && (s[p].pc.PreSpin? || s[p].pc.PostSpin?)
    ensures 0 <= c.Partner(p) < |s| && PeerOwn(s[p]) && PeerOwn(s[c.Partner(p)])
    ensures PartnerShows(s[p], s[c.Partner(p)]) <==> s[c.Partner(p)].peerEntered > s[p].peerLeft
  {
    assert Mine(c, s, p);
    var q := c.Partner(p);
    assert Mine(c, s, q) && c.Partner(q) == p;
    TF.ParityTells(TF.Peer, s[p].peerLeft, s[q].peerEntered);
  }

  lemma InvWellFormed(c: Config, s: State)
    requires Inv(c, s)
    ensures WellFormed(c, s)
  {
    forall p | 0 <= p < |s|
      ensures |s[p].slots| == 3 && s[p].idx < 3 && |s[p].peerFlag| == 3 && s[p].peerIdx < 3
      ensures s[p].pc.PreSpin? || s[p].pc.PostSpin? ==> 0 <= c.Partner(p) < |s|
      ensures s[p].pc.Spin? ==> Flip(p, s[p].pc.i) < |s|
    {
      assert Mine(c, s, p);
    }
  }

  lemma InitInv(c: Config, s: State)
    requires c.Valid() && Init(c, s)
    ensures Inv(c, s)
  {
    forall p | 0 <= p < |s| ensures Mine(c, s, p) {}
  }

  // Leaving a level behind: p's block doubles.
  lemma SpinInv(c: Config, s: State, s': State, p: nat)
    requires Inv(c, s) && Step(c, s, s', p) && s[p].pc.Spin?
    ensures BlockEntered(c, s', p) && PeersCounted(c, s', p)
  {
    assert Mine(c, s, p);
    SpinExact(c, s, p);
    var i := s[p].pc.i;
    var q := Flip(p, i);
    FlipFacts(p, i);
    forall j | 0 <= j < c.loopTimes && Flip(p, j) < c.size
      ensures Finished(s'[p]) > 0 ==> HasCounted(s'[Flip(p, j)], Finished(s'[p]) - 1, j)
      ensures Passed(s'[p]) > j ==> HasCounted(s'[Flip(p, j)], Finished(s'[p]), j)
    {
      FlipFacts(p, j);
      assert PeersCounted(c, s, p);
    }
    if p < c.nearPow2 {
      FlipBelow(p, i, c.loopTimes);
      assert Mine(c, s, q);
      forall u | 0 <= u < c.nearPow2 && u < |s|
        ensures EnteredLoop(s'[u]) >= Finished(s'[p])
        ensures Block(u, i + 1) == Block(p, i + 1) ==> EnteredLoop(s'[u]) > Finished(s'[p])
      {
        if Block(u, i + 1) == Block(p, i + 1) {
          BlockSplit(p, u, i);
          if Block(u, i) == Block(q, i) && Finished(s[q]) == Finished(s[p]) {
            BlockUp(u, q, i, Passed(s[q]));
          }
        }
      }
    }
  }

  // Leaving the exchange: the block of p is everyone inside the power of two.
  lemma ClearInv(c: Config, s: State, s': State, p: nat)
    requires Inv(c, s) && Step(c, s, s', p) && s[p].pc == Top(c.loopTimes)
    ensures BlockEntered(c, s', p) && PeersCounted(c, s', p)
  {
    assert Mine(c, s, p);
    forall j | 0 <= j < c.loopTimes && Flip(p, j) < c.size
      ensures HasCounted(s'[Flip(p, j)], Finished(s'[p]) - 1, j)
    {
      FlipFacts(p, j);
      assert PeersCounted(c, s, p);
    }
    if p < c.nearPow2 {
      forall u | 0 <= u < c.nearPow2 && u < |s| ensures EnteredLoop(s'[u]) >= Finished(s'[p]) {
        BelowPow2(u, c.loopTimes);
        BelowPow2(p, c.loopTimes);
      }
    }
  }

  lemma QuietInv(c: Config, s: State, s': State, p: nat)
    requires Inv(c, s) && Step(c, s, s', p) && !s[p].pc.Spin? && s[p].pc != Top(c.loopTimes)
    ensures BlockEntered(c, s', p) && PeersCounted(c, s', p)
  {
    assert Mine(c, s, p);
    forall j | 0 <= j < c.loopTimes && Flip(p, j) < c.size
      ensures Finished(s'[p]) > 0 ==> HasCounted(s'[Flip(p, j)], Finished(s'[p]) - 1, j)
      ensures Passed(s'[p]) > j ==> HasCounted(s'[Flip(p, j)], Finished(s'[p]), j)
    {
      FlipFacts(p, j);
      assert PeersCounted(c, s, p);
    }
    if p < c.nearPow2 {
      if s[p].pc.Top? { FlipBelow(p, s[p].pc.i, c.loopTimes); }
      forall u | 0 <= u < c.nearPow2 && u < |s|
        ensures EnteredLoop(s'[u]) >= Finished(s'[p])
        ensures (s'[p].pc.Top? || s'[p].pc.Spin?) && Block(u, Passed(s'[p])) == Block(p, Passed(s'[p])) ==>
                  EnteredLoop(s'[u]) > Finished(s'[p])
      {
        assert Block(u, 0) == u && Block(p, 0) == p;
      }
    }
  }

  lemma Rotate(r: nat)
    ensures (2 + r % 3) % 3 == (r + 2) % 3 == ((r + 1) + 1) % 3
    ensures (1 + r % 3) % 3 == (r + 1) % 3 && ((r + 1) + 2) % 3 == r % 3
  {}

  lemma OwnClear(c: Config, s: State, s': State, p: nat)
    requires Inv(c, s) && Step(c, s, s', p) && s[p].pc == Top(c.loopTimes)
    ensures Own(c, s'[p], p) && Grows(s[p], s'[p])
  {
    assert Mine(c, s, p);
    Rotate(Finished(s[p]));
  }

  lemma OwnStep(c: Config, s: State, s': State, p: nat)
    requires Inv(c, s) && Step(c, s, s', p)
    ensures Own(c, s'[p], p) && Grows(s[p], s'[p])
  {
    assert Mine(c, s, p);
    if s[p].pc == Top(c.loopTimes) { OwnClear(c, s, s', p); }
  }

  lemma EnterPeerOwn(a: Rank)
    requires PeerOwn(a) && a.peerEntered == a.peerLeft
    ensures PeerOwn(EnterPeer(a))
  {
    forall i | 0 <= i < 3
      ensures EnterPeer(a).peerFlag[i] == TF.Toggles(TF.Peer, a.peerEntered + 1, i) % 2
    {
      TF.ToggleOnce(TF.Peer, a.peerEntered, i);
    }
  }

  lemma LeavePeerOwn(a: Rank)
    requires PeerOwn(a)
    ensures PeerOwn(LeavePeer(a))
  {
    TF.NextSlotOf(TF.Peer, a.peerLeft);
  }

  lemma PeerStep(c: Config, s: State, s': State, p: nat)
    requires Inv(c, s) && Step(c, s, s', p)
    ensures PeerOwn(s'[p]) && PartnerMet(c, s', p)
  {
    assert Mine(c, s, p);
    if s[p].pc.PreSpin? || s[p].pc.PostSpin? {
      PeerSpinExact(c, s, p);
      LeavePeerOwn(s[p]);
    } else if c.HasPartner(p) && (s[p].pc.Outside? || s[p].pc.PostSet?) {
      EnterPeerOwn(s[p]);
    }
  }

  lemma StepInv(c: Config, s: State, s': State, p: nat)
    requires Inv(c, s) && Step(c, s, s', p)
    ensures Inv(c, s')
  {
    OwnStep(c, s, s', p);
    if s[p].pc.Spin? { SpinInv(c, s, s', p); }
    else if s[p].pc == Top(c.loopTimes) { ClearInv(c, s, s', p); }
    else { QuietInv(c, s, s', p); }
    PeerStep(c, s, s', p);
    forall q | 0 <= q < |s'| ensures Mine(c, s', q) {
      if q != p { OthersKeep(c, s, s', p, q); }
    }
  }

  lemma {:induction false} RunInv(c: Config, tr: seq<State>, i: nat)
    requires IsRun(c, tr) && i < |tr|
    ensures Inv(c, tr[i])
  {
    if i == 0 {
      InitInv(c, tr[0]);
    } else {
      RunInv(c, tr, i - 1);
      assert Next(c, tr[i - 1], tr[i]);
      var p: nat :| Step(c, tr[i - 1], tr[i], p);
      StepInv(c, tr[i - 1], tr[i], p);
    }
  }

  // ----- what it means for the callers

  lemma InsideIsABarrier(c: Config, s: State, p: nat, q: nat)
    requires Inv(c, s) && p < c.nearPow2 && q < |s|
    ensures p < |s| && Finished(s[p]) <= Entered(s[q])
  {
    assert Mine(c, s, p);
    if q >= c.nearPow2 {
      var u := c.Partner(q);
      assert Mine(c, s, q) && Mine(c, s, u);
      assert c.Partner(u) == q;
      assert EnteredLoop(s[u]) >= Finished(s[p]);
    }
  }

  /** The fence is a barrier for every number of ranks and over any number of rounds: no rank has left
      more fences than any other rank has entered. */
  lemma FenceIsABarrier(c: Config, tr: seq<State>, i: nat, p: nat, q: nat)
    requires IsRun(c, tr) && i < |tr| && p < c.size && q < c.size
    ensures |tr[i]| == c.size && tr[i][p].round <= Entered(tr[i][q])
  {
    RunInv(c, tr, i);
    var s := tr[i];
    assert Mine(c, s, p);
    if p < c.nearPow2 {
      InsideIsABarrier(c, s, p, q);
    } else {
      var u := c.Partner(p);
      assert Mine(c, s, u);
      InsideIsABarrier(c, s, u, q);
    }
  }

  /** A rank starts every exchange on a slot that reads 0, and the slot it clears at the end of one is
      not a slot that any rank spinning on it is still looking at. */
  lemma SlotsRotateSafely(c: Config, tr: seq<State>, i: nat, p: nat, q: nat)
    requires IsRun(c, tr) && i < |tr| && p < c.size && q < c.size
    ensures |tr[i]| == c.size && |tr[i][p].slots| == 3 && tr[i][p].idx < 3
    ensures tr[i][p].pc == Top(0) ==> tr[i][p].slots[tr[i][p].idx] == 0
    ensures tr[i][p].pc == Top(c.loopTimes) && tr[i][q].pc.Spin? && Flip(q, tr[i][q].pc.i) == p ==>
              tr[i][q].idx != (2 + tr[i][p].idx) % 3
  {
    RunInv(c, tr, i);
    var s := tr[i];
    assert Mine(c, s, p) && Mine(c, s, q);
    if s[p].pc == Top(c.loopTimes) && s[q].pc.Spin? && Flip(q, s[q].pc.i) == p {
      FlipFacts(q, s[q].pc.i);
      assert Flip(p, s[q].pc.i) == q;
      NeighboursClose(c, s, q, s[q].pc.i);
    }
  }

  // The order in which a rank runs through the fence.
  function Stage(c: Config, pc: Pc): nat {
    match pc
    case Outside => 0
    case PreSpin => 1
    case Top(i) => 2 + 2 * i
    case Spin(i) => 3 + 2 * i
    case PostSet => 3 + 2 * c.loopTimes
    case PostSpin => 4 + 2 * c.loopTimes
  }

  predicate NotAhead(c: Config, a: Rank, b: Rank) {
    a.round < b.round || (a.round == b.round && Stage(c, a.pc) <= Stage(c, b.pc))
  }

  lemma {:induction false} LeastAdvanced(c: Config, s: State, k: nat) returns (p: nat)
    requires 0 < k <= |s|
    ensures p < k && forall q :: 0 <= q < k ==> NotAhead(c, s[p], s[q])
  {
    p := 0;
    if k > 1 {
      p := LeastAdvanced(c, s, k - 1);
      if !NotAhead(c, s[p], s[k - 1]) { p := k - 1; }
    }
  }

  lemma LeastCanStep(c: Config, s: State, p: nat)
    requires Inv(c, s) && p < |s| && forall q :: 0 <= q < |s| ==> NotAhead(c, s[p], s[q])
    ensures Enabled(c, s, p)
  {
    InvWellFormed(c, s);
    assert Mine(c, s, p);
    if s[p].pc.Spin? {
      var q := Flip(p, s[p].pc.i);
      assert Mine(c, s, q);
      SpinExact(c, s, p);
      assert NotAhead(c, s[p], s[q]);
    } else if s[p].pc.PreSpin? || s[p].pc.PostSpin? {
      var q := c.Partner(p);
      PeerSpinExact(c, s, p);
      assert Mine(c, s, q) && c.HasPartner(q);
      assert NotAhead(c, s[p], s[q]);
    }
  }

  /** No reachable state is stuck: the least advanced rank can always take its next step, and a step
      always takes it further. */
  lemma NeverStuck(c: Config, tr: seq<State>, i: nat) returns (p: nat)
    requires IsRun(c, tr) && i < |tr|
    ensures p < |tr[i]| && (forall q :: 0 <= q < |tr[i]| ==> NotAhead(c, tr[i][p], tr[i][q]))
    ensures Enabled(c, tr[i], p) && !NotAhead(c, Moved(c, tr[i], p), tr[i][p])
  {
    RunInv(c, tr, i);
    p := LeastAdvanced(c, tr[i], |tr[i]|);
    LeastCanStep(c, tr[i], p);
    assert Mine(c, tr[i], p);
  }
}
