/** Every step but a new submission takes the queue further, so whatever has been submitted is executed. */
module OrderedQueueProgress {
  import opened Sums
  import opened Options
  import opened OrderedQueue
  import opened OrderedQueueProof

  // The steps that an item, and the holder of the queue lock, has still to take at most.
  function ItemLeft(pc: Pc): nat {
    match pc
    case Idle => 11
    case Running => 10
    case Returned => 9
    case Dequeued => 7
    case Finished => 6
    case Sized(_) => 5
    case Releasing(_, t, _) => if t == 0 then 4 else 3
    case Adding(_, t) => if t == 0 then 2 else 1
    case Done => 0
  }

  function LockLeft(l: Lock): nat {
    match l
    case Open => 1
    case Dequeue(_) => 0
    case Submit(_, at) =>
      match at
      case Fetch => 8
      case Check(_) => 7
      case LockNode(_) => 6
      case Recheck(_) => 5
      case Insert(_) => 4
      case Count => 3
      case Add => 3
      case SetLast => 2
  }

  function Weights(s: State): (w: seq<nat>)
    ensures |w| == |s.items| && forall i :: 0 <= i < |w| ==> w[i] == ItemLeft(s.items[i].pc)
  {
    seq(|s.items|, i requires 0 <= i < |s.items| => ItemLeft(s.items[i].pc))
  }

  function Left(s: State): nat { Sum(Weights(s)) + LockLeft(s.lock) }

  // Only item i has moved.
  lemma OneItem(s: State, s': State, i: nat)
    requires i < |s.items| == |s'.items| && forall q :: 0 <= q < |s.items| && q != i ==> s'.items[q].pc == s.items[q].pc
    ensures Sum(Weights(s')) + ItemLeft(s.items[i].pc) == Sum(Weights(s)) + ItemLeft(s'.items[i].pc)
  {
    SumUpdate(Weights(s), i, ItemLeft(s'.items[i].pc));
    assert Weights(s') == Weights(s)[i := ItemLeft(s'.items[i].pc)];
  }

  // What a step needs to lower what is left: the item that moves, or the holder of the lock, has less to do.
  ghost predicate Lowers(s: State, s': State, i: nat) {
    |s'.items| == |s.items| && (forall q {:trigger s'.items[q]} :: 0 <= q < |s.items| && q != i ==> s'.items[q].pc == s.items[q].pc)
    && if i < |s.items| then ItemLeft(s'.items[i].pc) + LockLeft(s'.lock) < ItemLeft(s.items[i].pc) + LockLeft(s.lock)
       else LockLeft(s'.lock) < LockLeft(s.lock)
  }

  lemma LowersLeft(s: State, s': State, i: nat)
    requires Lowers(s, s', i)
    ensures Left(s') < Left(s)
  {
    if i < |s.items| {
      OneItem(s, s', i);
    } else {
      assert Weights(s') == Weights(s);
    }
  }

  lemma SubmitLowers(s: State, s': State)
    requires SubmitStep(s, s')
    ensures Lowers(s, s', |s.items|)
  {}

  lemma ExecLowers(s: State, s': State, i: nat)
    requires Inv(s) && ExecStep(s, s', i)
    ensures Lowers(s, s', i)
  {
    hide Inv, ExecStep;
    if ReleaseStep(s, s', i) || HandOnStep(s, s', i) || DequeueStep(s, s', i) {
      FewLower(s, s', i);
    } else {
      MostLower(s, s', i);
    }
  }

  lemma MostLower(s: State, s': State, i: nat)
    requires Inv(s) && ExecStep(s, s', i) && !(ReleaseStep(s, s', i) || HandOnStep(s, s', i) || DequeueStep(s, s', i))
    ensures Lowers(s, s', i)
  {
    IdleInBag(s, i);
    hide Inv, ReleaseStep, HandOnStep, DequeueStep;
  }

  lemma IdleInBag(s: State, i: nat)
    requires Inv(s)
    ensures i < |s.items| && i in s.bag ==> s.items[i].pc.Idle?
    ensures i < |s.items| && s.items[i].pc.Releasing? ==> s.items[i].pc.t <= |s.items[i].succ| <= 1
    ensures i < |s.items| && s.items[i].pc.Adding? ==> s.items[i].pc.t <= |s.items[i].pc.ready| <= 1
    ensures i < |s.items| && s.lock == Dequeue(i) ==> s.items[i].pc.Returned?
  {
    if i < |s.items| { assert ItemInv(s, i); }
    hide LockOk, MarkAt;
  }

  lemma FewLower(s: State, s': State, i: nat)
    requires Inv(s) && (ReleaseStep(s, s', i) || HandOnStep(s, s', i) || DequeueStep(s, s', i))
    ensures Lowers(s, s', i)
  {
    IdleInBag(s, i);
    hide Inv;
  }

  /** Every step of a submitter or an executor leaves less to do. */
  lemma WorksLowers(s: State, s': State)
    requires Inv(s) && Works(s, s')
    ensures Left(s') < Left(s) && |s'.items| == |s.items|
  {
    hide SubmitStep, ExecStep, Lowers, Left, Inv;
    if SubmitStep(s, s') {
      SubmitLowers(s, s');
      LowersLeft(s, s', |s.items|);
      SameLength(s, s', |s.items|);
    } else {
      var i: nat :| ExecStep(s, s', i);
      ExecLowers(s, s', i);
      LowersLeft(s, s', i);
      SameLength(s, s', i);
    }
  }

  lemma SameLength(s: State, s': State, i: nat)
    requires Lowers(s, s', i)
    ensures |s'.items| == |s.items|
  {}

  // What is left is bounded by the number of items.
  lemma LeftBound(s: State)
    ensures Left(s) <= 11 * |s.items| + 8
  {
    SumAtMost(Weights(s), 11);
  }

  ghost predicate AllDone(s: State) { s.lock.Open? && forall j :: 0 <= j < |s.items| ==> s.items[j].pc.Done? }

  ghost predicate Extends(tr: seq<State>, tr': seq<State>) { |tr| <= |tr'| && tr'[..|tr|] == tr }

  /** From every reachable state, without a new submission, the queue gets to where all that has been submitted is
      done: every function has begun and ended, in submission order, and the lock is open for the next submission.
      There is no other way, since every step leaves less to do. */
  lemma {:induction false} Completes(tr: seq<State>) returns (tr': seq<State>)
    requires IsRun(tr)
    ensures IsRun(tr') && Extends(tr, tr') && |tr'| - |tr| <= Left(tr[|tr| - 1])
    ensures forall i :: |tr| - 1 <= i < |tr'| - 1 ==> Works(tr'[i], tr'[i + 1])
    ensures var s, s' := tr[|tr| - 1], tr'[|tr'| - 1];
            AllDone(s') && |s'.items| == |s.items| && |s'.log| == 2 * |s.items| && exists next :: Acquire(s', next)
    decreases Left(tr[|tr| - 1])
  {
    var s := tr[|tr| - 1];
    RunInv(tr, |tr| - 1);
    if AllDone(s) {
      tr' := tr;
      AllRan(tr, |tr| - 1);
      MayAcquire(s);
    } else {
      var s' := SomeWork(tr);
      hide *;
      WorksLowers(s, s');
      var more := Longer(tr, s');
      tr' := Completes(more);
      Extended(tr, s', more, tr');
    }
  }

  lemma SomeWork(tr: seq<State>) returns (s': State)
    requires IsRun(tr) && !AllDone(tr[|tr| - 1])
    ensures Works(tr[|tr| - 1], s')
  {
    RunInv(tr, |tr| - 1);
    var s := tr[|tr| - 1];
    var j: nat := 0;
    if !s.lock.Submit? { j := NotDone(s); }
    hide Works, AllDone, Inv;
    NeverStuck(tr, |tr| - 1, j);
    s' :| Works(s, s');
  }

  lemma Longer(tr: seq<State>, s': State) returns (more: seq<State>)
    requires IsRun(tr) && Works(tr[|tr| - 1], s')
    ensures IsRun(more) && more == tr + [s']
  {
    more := tr + [s'];
    hide SubmitStep, ExecStep, Acquire;
    forall i | 0 <= i < |more| - 1 ensures Next(more[i], more[i + 1]) { assert i < |tr| - 1 ==> Next(tr[i], tr[i + 1]); }
  }

  lemma Extended(tr: seq<State>, s': State, more: seq<State>, tr': seq<State>)
    requires |tr| > 0 && more == tr + [s'] && Extends(more, tr') && Works(tr[|tr| - 1], s')
    requires forall i :: |more| - 1 <= i < |tr'| - 1 ==> Works(tr'[i], tr'[i + 1])
    ensures Extends(tr, tr') && more[|more| - 1] == s' && |more| == |tr| + 1
    ensures forall i :: |tr| - 1 <= i < |tr'| - 1 ==> Works(tr'[i], tr'[i + 1])
  {
    hide Works;
    assert tr'[..|tr|] == tr'[..|more|][..|tr|] == tr;
    assert tr'[|tr| - 1] == tr'[..|more|][|tr| - 1] && tr'[|tr|] == tr'[..|more|][|tr|];
  }

  lemma NotDone(s: State) returns (j: nat)
    requires Inv(s) && !AllDone(s) && !s.lock.Submit?
    ensures j < |s.items| && !s.items[j].pc.Done?
  {
    if s.lock.Dequeue? {
      assert ItemInv(s, s.lock.i);
      j := s.lock.i;
    } else {
      j :| 0 <= j < |s.items| && !s.items[j].pc.Done?;
    }
  }

  // A submission can begin whenever nobody holds the lock.
  lemma MayAcquire(s: State)
    requires s.lock.Open?
    ensures exists next :: Acquire(s, next)
  {
    var next := s.(items := s.items + [Item(Idle, false, false, 0, 0, [])], lock := Submit(|s.items|, Fetch), count := s.count + 1);
    assert Acquire(s, next);
  }
}
