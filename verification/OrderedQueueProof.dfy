/** The queue keeps its invariant, and its items run one after the other. */
module OrderedQueueProof {
  import opened Options
  import opened OrderedQueue

  // The invariant of an item and of its neighbours.
  ghost predicate Around(s: State, q: nat) {
    q < |s.items| && ItemInv(s, q) && (q > 0 ==> ItemInv(s, q - 1)) && (q + 1 < |s.items| ==> ItemInv(s, q + 1))
  }

  // Steps outside submission leave the edges alone, as long as an item leaves the queue only with the lock open.
  lemma EdgesKept(s: State, s': State, q: nat)
    requires q < |s.items| == |s'.items| && Edges(s, q) && s'.lock == s.lock
    requires s'.items[q].nSucc == s.items[q].nSucc && s'.items[q].succ == s.items[q].succ && s'.items[q].locked == s.items[q].locked
    requires Gone(s'.items[q].pc) == Gone(s.items[q].pc)
    ensures Edges(s', q)
  {}

  lemma FetchItem(s: State, s': State, q: nat)
    requires Inv(s) && FetchStep(s, s') && q < |s.items|
    ensures |s'.items| == |s.items| && ItemInv(s', q)
  {
    assert Around(s, q) && Around(s, s.lock.j);
    if s.lock.j > 0 { assert ItemInv(s, s.lock.j - 1); }
  }

  lemma CheckItem(s: State, s': State, q: nat)
    requires Inv(s) && CheckStep(s, s') && q < |s.items|
    ensures |s'.items| == |s.items| && ItemInv(s', q)
  {
    assert Around(s, q) && Around(s, s.lock.j);
    if s.lock.j > 0 { assert ItemInv(s, s.lock.j - 1); }
  }

  lemma LockItem(s: State, s': State, q: nat)
    requires Inv(s) && LockStep(s, s') && q < |s.items|
    ensures |s'.items| == |s.items| && ItemInv(s', q)
  {
    assert Around(s, q) && Around(s, s.lock.j);
    if s.lock.j > 0 { assert ItemInv(s, s.lock.j - 1); }
  }

  lemma RecheckItem(s: State, s': State, q: nat)
    requires Inv(s) && RecheckStep(s, s') && q < |s.items|
    ensures |s'.items| == |s.items| && ItemInv(s', q)
  {
    assert Around(s, q) && Around(s, s.lock.j);
    if s.lock.j > 0 { assert ItemInv(s, s.lock.j - 1); }
  }

  lemma InsertItem(s: State, s': State, q: nat)
    requires Inv(s) && InsertStep(s, s') && q < |s.items|
    ensures |s'.items| == |s.items| && ItemInv(s', q)
  {
    assert Around(s, q) && Around(s, s.lock.j);
    if s.lock.j > 0 { assert ItemInv(s, s.lock.j - 1); }
  }

  lemma CountItem(s: State, s': State, q: nat)
    requires Inv(s) && CountStep(s, s') && q < |s.items|
    ensures |s'.items| == |s.items| && ItemInv(s', q)
  {
    assert Around(s, q) && Around(s, s.lock.j);
    if s.lock.j > 0 { assert ItemInv(s, s.lock.j - 1); }
  }

  lemma AddItem(s: State, s': State, q: nat)
    requires Inv(s) && AddStep(s, s') && q < |s.items|
    ensures |s'.items| == |s.items| && ItemInv(s', q)
  {
    assert Around(s, q) && Around(s, s.lock.j);
    if s.lock.j > 0 { assert ItemInv(s, s.lock.j - 1); }
  }

  lemma SetLastItem(s: State, s': State, q: nat)
    requires Inv(s) && SetLastStep(s, s') && q < |s.items|
    ensures |s'.items| == |s.items| && ItemInv(s', q)
  {
    assert Around(s, q) && Around(s, s.lock.j);
    if s.lock.j > 0 { assert ItemInv(s, s.lock.j - 1); }
  }

  lemma TakeRuns(s: State, s': State, i: nat, q: nat)
    requires Inv(s) && TakeStep(s, s', i) && q < |s.items|
    ensures |s'.items| == |s.items| && Runs(s', q) && s.items[i].pc.Idle?
  {
    LogLength(s, s', i);
    assert ItemInv(s, q) && ItemInv(s, i);
    hide Edges, Waits, LockOk, MarkAt;
  }

  lemma TakeWaits(s: State, s': State, i: nat, q: nat)
    requires Inv(s) && TakeStep(s, s', i) && q < |s.items|
    ensures |s'.items| == |s.items| && Waits(s', q)
  {
    assert ItemInv(s, q) && ItemInv(s, i);
    hide Edges, Runs, LockOk, MarkAt;
  }

  lemma TakeItem(s: State, s': State, i: nat, q: nat)
    requires Inv(s) && TakeStep(s, s', i) && q < |s.items|
    ensures |s'.items| == |s.items| && ItemInv(s', q)
  {
    TakeRuns(s, s', i, q);
    TakeWaits(s, s', i, q);
    assert ItemInv(s, q);
    hide Inv, Waits, Runs;
    EdgesKept(s, s', q);
  }

  lemma ReturnItem(s: State, s': State, i: nat, q: nat)
    requires Inv(s) && ReturnStep(s, s', i) && q < |s.items|
    ensures |s'.items| == |s.items| && ItemInv(s', q)
  {
    assert Around(s, q) && ItemInv(s, i);
    EdgesKept(s, s', q);
    hide Edges, MarkAt;
  }

  lemma GrabItem(s: State, s': State, i: nat, q: nat)
    requires Inv(s) && GrabStep(s, s', i) && q < |s.items|
    ensures |s'.items| == |s.items| && ItemInv(s', q)
  {
    assert Around(s, q) && Around(s, i);
  }

  lemma DequeueItem(s: State, s': State, i: nat, q: nat)
    requires Inv(s) && DequeueStep(s, s', i) && q < |s.items|
    ensures |s'.items| == |s.items| && ItemInv(s', q)
  {
    assert Around(s, q) && Around(s, i);
  }

  lemma FinishItem(s: State, s': State, i: nat, q: nat)
    requires Inv(s) && FinishStep(s, s', i) && q < |s.items|
    ensures |s'.items| == |s.items| && ItemInv(s', q)
  {
    assert Around(s, q) && ItemInv(s, i);
    EdgesKept(s, s', q);
    hide Edges, MarkAt;
  }

  lemma SizeItem(s: State, s': State, i: nat, q: nat)
    requires Inv(s) && SizeStep(s, s', i) && q < |s.items|
    ensures |s'.items| == |s.items| && ItemInv(s', q)
  {
    assert Around(s, q) && ItemInv(s, i);
    EdgesKept(s, s', q);
    hide Edges, MarkAt;
  }

  lemma SyncItem(s: State, s': State, i: nat, q: nat)
    requires Inv(s) && SyncStep(s, s', i) && q < |s.items|
    ensures |s'.items| == |s.items| && ItemInv(s', q)
  {
    assert Around(s, q) && ItemInv(s, i);
    EdgesKept(s, s', q);
    hide Edges, MarkAt, LockOk;
    assert Waits(s', q) by { hide Runs; }
    hide Waits;
  }

  lemma ReleaseNext(s: State, s': State, i: nat)
    requires Inv(s) && ReleaseStep(s, s', i)
    ensures i + 1 < |s.items| && s.items[i].succ == [i + 1] && s.items[i + 1].nPred == 1 && s.items[i].pc.t == 0
    ensures s' == With(Goes(s, i, Releasing(1, 1, [i + 1])), i + 1, s.items[i + 1].(nPred := 0))
  {
    assert ItemInv(s, i);
    assert i + 1 < |s.items| ==> ItemInv(s, i + 1);
    hide LockOk, MarkAt;
    assert s.items[i].pc.ready + [i + 1] == [i + 1];
  }

  lemma ReleaseWaits(s: State, s': State, i: nat, q: nat)
    requires Inv(s) && ReleaseStep(s, s', i) && q < |s.items|
    ensures |s'.items| == |s.items| && Waits(s', q)
  {
    ReleaseNext(s, s', i);
    assert ItemInv(s, q) && ItemInv(s, i);
    hide Edges, Runs, LockOk, MarkAt, ReleaseStep;
  }

  lemma ReleaseRuns(s: State, s': State, i: nat, q: nat)
    requires Inv(s) && ReleaseStep(s, s', i) && q < |s.items|
    ensures |s'.items| == |s.items| && Runs(s', q)
  {
    ReleaseNext(s, s', i);
    assert ItemInv(s, q) && ItemInv(s, i);
    hide Edges, Waits, LockOk, MarkAt, ReleaseStep;
  }

  lemma ReleaseItem(s: State, s': State, i: nat, q: nat)
    requires Inv(s) && ReleaseStep(s, s', i) && q < |s.items|
    ensures |s'.items| == |s.items| && ItemInv(s', q)
  {
    ReleaseNext(s, s', i);
    ReleaseWaits(s, s', i, q);
    ReleaseRuns(s, s', i, q);
    assert ItemInv(s, q);
    hide Inv, Waits, Runs, ReleaseStep;
    EdgesKept(s, s', q);
  }

  lemma ReleasedItem(s: State, s': State, i: nat, q: nat)
    requires Inv(s) && ReleasedStep(s, s', i) && q < |s.items|
    ensures |s'.items| == |s.items| && ItemInv(s', q)
  {
    assert Around(s, q) && ItemInv(s, i);
    EdgesKept(s, s', q);
    hide Edges, MarkAt;
  }

  lemma HandOnRest(s: State, s': State, i: nat, q: nat)
    requires Inv(s) && HandOnStep(s, s', i) && q < |s.items|
    ensures |s'.items| == |s.items| && Edges(s', q) && Runs(s', q)
  {
    assert Around(s, q);
    EdgesKept(s, s', q);
    hide Edges, Waits, MarkAt;
  }

  // The item that is handed on.
  lemma HandOnNext(s: State, s': State, i: nat)
    requires Inv(s) && HandOnStep(s, s', i) && i + 1 < |s.items|
    ensures |s'.items| == |s.items| && Waits(s', i + 1)
  {
    assert ItemInv(s, i) && ItemInv(s, i + 1);
    hide LockOk, MarkAt;
  }

  lemma HandOnOther(s: State, s': State, i: nat, q: nat)
    requires Inv(s) && HandOnStep(s, s', i) && q < |s.items| && q != i + 1
    ensures |s'.items| == |s.items| && Waits(s', q)
  {
    assert Around(s, q) && ItemInv(s, i);
    assert s.items[i].pc.ready == [] || s.items[i].pc.ready == [i + 1];
    hide Edges, Runs, LockOk, MarkAt;
  }

  lemma HandOnItem(s: State, s': State, i: nat, q: nat)
    requires Inv(s) && HandOnStep(s, s', i) && q < |s.items|
    ensures |s'.items| == |s.items| && ItemInv(s', q)
  {
    HandOnRest(s, s', i, q);
    if q == i + 1 { HandOnNext(s, s', i); } else { HandOnOther(s, s', i, q); }
    hide Inv, HandOnStep, Edges, Waits, Runs;
  }

  lemma AcquireItem(s: State, s': State, q: nat)
    requires Inv(s) && Acquire(s, s') && q < |s'.items|
    ensures ItemInv(s', q)
  {
    if q < |s.items| { assert Around(s, q); }
    if q > 0 { assert ItemInv(s, q - 1); }
    assert q == |s.items| ==> q !in s.bag;
  }

  ghost predicate Frame(s: State) {
    LockOk(s) && 0 <= s.count <= |s.items| && |s.log| <= 2 * |s.items|
    && (forall i :: i in s.bag ==> i < |s.items|)
    && (forall k :: 0 <= k < |s.log| ==> s.log[k] == MarkAt(k))
  }

  lemma AcquireFrame(s: State, s': State)
    requires Inv(s) && Acquire(s, s')
    ensures Frame(s')
  {
    if |s.items| > 0 { assert ItemInv(s, |s.items| - 1); }
  }

  lemma SubmitFrame(s: State, s': State)
    requires Inv(s) && SubmitStep(s, s')
    ensures Frame(s')
  {
    assert ItemInv(s, s.lock.j);
    if s.lock.j > 0 { assert ItemInv(s, s.lock.j - 1); }
  }

  lemma ExecFrame(s: State, s': State, i: nat)
    requires Inv(s) && ExecStep(s, s', i)
    ensures Frame(s')
  {
    hide Inv, Frame, DequeueStep, TakeStep, ReturnStep, GrabStep, FinishStep, SizeStep, SyncStep, ReleaseStep, ReleasedStep, HandOnStep;
    if DequeueStep(s, s', i) {
      DequeueFrame(s, s', i);
    } else if TakeStep(s, s', i) || ReturnStep(s, s', i) {
      LogFrame(s, s', i);
    } else {
      OtherFrame(s, s', i);
    }
  }

  // No item leaves the queue, and no function begins or ends.
  ghost predicate Quiet(s: State, s': State) {
    |s'.items| == |s.items| && s'.log == s.log && s'.count == s.count && s'.last == s.last
    && (s'.lock == s.lock || (s.lock.Open? && s'.lock.Dequeue? && s'.lock.i < |s.items|))
    && (forall q {:trigger s'.items[q]} :: 0 <= q < |s.items| ==> Gone(s'.items[q].pc) == Gone(s.items[q].pc))
    && (forall q :: q in s'.bag ==> q < |s.items|)
  }

  lemma QuietFrame(s: State, s': State)
    requires Frame(s) && Quiet(s, s')
    ensures Frame(s')
  {}

  lemma OtherQuiet(s: State, s': State, i: nat)
    requires Inv(s)
    requires GrabStep(s, s', i) || FinishStep(s, s', i) || SizeStep(s, s', i) || SyncStep(s, s', i) || ReleaseStep(s, s', i) || ReleasedStep(s, s', i)
    ensures Quiet(s, s')
  {
    hide MarkAt, ItemInv;
  }

  lemma HandOnQuiet(s: State, s': State, i: nat)
    requires Inv(s) && HandOnStep(s, s', i)
    ensures Quiet(s, s')
  {
    assert Around(s, i);
    hide MarkAt, LockOk, Waits;
  }

  lemma OtherFrame(s: State, s': State, i: nat)
    requires Inv(s) && ExecStep(s, s', i) && !DequeueStep(s, s', i) && !TakeStep(s, s', i) && !ReturnStep(s, s', i)
    ensures Frame(s')
  {
    assert Frame(s);
    hide Frame, Inv, Quiet, GrabStep, FinishStep, SizeStep, SyncStep, ReleaseStep, ReleasedStep, HandOnStep, TakeStep, ReturnStep, DequeueStep;
    if HandOnStep(s, s', i) { HandOnQuiet(s, s', i); } else { OtherQuiet(s, s', i); }
    QuietFrame(s, s');
  }

  lemma DequeueFrame(s: State, s': State, i: nat)
    requires Inv(s) && DequeueStep(s, s', i)
    ensures Frame(s')
  {
    assert ItemInv(s, i);
    if i + 1 < |s.items| { assert ItemInv(s, i + 1); }
    assert ItemInv(s, |s.items| - 1);
    hide Edges, Waits, MarkAt;
  }

  // The log is where the item says: its function is the next to begin, or the one to end.
  lemma LogLength(s: State, s': State, i: nat)
    requires Inv(s)
    ensures TakeStep(s, s', i) ==> |s.log| == 2 * i
    ensures ReturnStep(s, s', i) ==> |s.log| == 2 * i + 1
  {
    if i < |s.items| { assert ItemInv(s, i); }
    if 0 < i < |s.items| { assert ItemInv(s, i - 1); }
    hide Edges, LockOk, MarkAt;
  }

  lemma LogFrame(s: State, s': State, i: nat)
    requires Inv(s) && (TakeStep(s, s', i) || ReturnStep(s, s', i))
    ensures Frame(s')
  {
    LogLength(s, s', i);
    assert s'.log == s.log + [MarkAt(|s.log|)];
    assert Runs(s, i) by { assert ItemInv(s, i); }
    hide MarkAt, ItemInv;
  }

  lemma SubmitInv(s: State, s': State)
    requires Inv(s) && SubmitStep(s, s')
    ensures Inv(s')
  {
    SubmitFrame(s, s');
    forall q | 0 <= q < |s'.items| ensures ItemInv(s', q) {
      hide Inv, ItemInv, LockOk, Frame;
      if FetchStep(s, s') { FetchItem(s, s', q); }
      else if CheckStep(s, s') { CheckItem(s, s', q); }
      else if LockStep(s, s') { LockItem(s, s', q); }
      else if RecheckStep(s, s') { RecheckItem(s, s', q); }
      else if InsertStep(s, s') { InsertItem(s, s', q); }
      else if CountStep(s, s') { CountItem(s, s', q); }
      else if AddStep(s, s') { AddItem(s, s', q); }
      else { SetLastItem(s, s', q); }
    }
  }

  lemma ExecInv(s: State, s': State, i: nat)
    requires Inv(s) && ExecStep(s, s', i)
    ensures Inv(s')
  {
    ExecFrame(s, s', i);
    forall q | 0 <= q < |s'.items| ensures ItemInv(s', q) {
      hide Inv, ItemInv, LockOk, Frame;
      if TakeStep(s, s', i) { TakeItem(s, s', i, q); }
      else if ReturnStep(s, s', i) { ReturnItem(s, s', i, q); }
      else if GrabStep(s, s', i) { GrabItem(s, s', i, q); }
      else if DequeueStep(s, s', i) { DequeueItem(s, s', i, q); }
      else if FinishStep(s, s', i) { FinishItem(s, s', i, q); }
      else if SizeStep(s, s', i) { SizeItem(s, s', i, q); }
      else if SyncStep(s, s', i) { SyncItem(s, s', i, q); }
      else if ReleaseStep(s, s', i) { ReleaseItem(s, s', i, q); }
      else if ReleasedStep(s, s', i) { ReleasedItem(s, s', i, q); }
      else { HandOnItem(s, s', i, q); }
    }
  }

  lemma {:induction false} RunInv(tr: seq<State>, i: nat)
    requires IsRun(tr) && i < |tr|
    ensures Inv(tr[i])
  {
    if i > 0 {
      RunInv(tr, i - 1);
      var s, s' := tr[i - 1], tr[i];
      hide ItemInv, LockOk, SubmitStep, ExecStep;
      assert Next(s, s');
      if Acquire(s, s') {
        AcquireFrame(s, s');
        forall q | 0 <= q < |s'.items| ensures ItemInv(s', q) { AcquireItem(s, s', q); }
      } else if SubmitStep(s, s') {
        SubmitInv(s, s');
      } else {
        var e: nat :| ExecStep(s, s', e);
        ExecInv(s, s', e);
      }
    }
  }

  // ----- the theorems

  /** Every item's function runs once, in submission order, and the next begins only after it has returned: the
      functions begin and end as 0 begins, 0 ends, 1 begins, 1 ends, and so on. */
  lemma RunsInOrder(tr: seq<State>, i: nat, k: nat)
    requires IsRun(tr) && i < |tr| && k < |tr[i].log|
    ensures tr[i].log[k] == (if k % 2 == 0 then Begin(k / 2) else End(k / 2)) && k / 2 < |tr[i].items|
  {
    RunInv(tr, i);
  }

  /** The queue lock makes the finished tests of a submitter pointless: the event it finds to be last cannot leave
      the queue, let alone finish, before the edge to the new task and the new task's counter are in place. */
  lemma EdgeIsNeverLate(tr: seq<State>, i: nat, k: nat)
    requires IsRun(tr) && i < |tr| && tr[i].lock.Submit?
    requires var at := tr[i].lock.at;
             (at.Check? && at.k == k) || (at.LockNode? && at.k == k) || (at.Recheck? && at.k == k) || (at.Insert? && at.k == k)
             || (at.Count? && k == tr[i].lock.j - 1)
    ensures k + 1 == tr[i].lock.j && k < |tr[i].items| && !tr[i].items[k].finished && !Gone(tr[i].items[k].pc)
  {
    RunInv(tr, i);
    var s := tr[i];
    assert ItemInv(s, s.lock.j);
    if s.lock.j > 0 { assert ItemInv(s, s.lock.j - 1); }
  }

  /** The successor list no longer changes once its node is finishing, so the ready array, sized by a read of
      n_successors outside the node's lock, has room for all the tasks that become ready. */
  lemma ReadyArrayFits(tr: seq<State>, i: nat, j: nat)
    requires IsRun(tr) && i < |tr| && j < |tr[i].items|
    ensures var it := tr[i].items[j];
            (it.pc.Releasing? ==> |it.pc.ready| <= it.pc.m == |it.succ| == it.nSucc)
            && (Gone(it.pc) ==> it.succ == [] || it.succ == [j + 1])
  {
    RunInv(tr, i);
    assert ItemInv(tr[i], j);
  }

  /** The event count is exact: it is zero just when every submitted item has left the queue. */
  lemma CountIsExact(tr: seq<State>, i: nat)
    requires IsRun(tr) && i < |tr|
    ensures tr[i].count >= 0
    ensures tr[i].count == 0 <==> forall j :: 0 <= j < |tr[i].items| ==> Gone(tr[i].items[j].pc)
  {
    RunInv(tr, i);
    var s := tr[i];
    forall j | 0 <= j < |s.items| ensures Gone(s.items[j].pc) <==> j < |s.items| - s.count { assert ItemInv(s, j); }
    if s.count > 0 { assert !Gone(s.items[|s.items| - 1].pc); }
  }

  // ----- progress

  // A step that is no new submission.
  ghost predicate Works(s: State, s': State) { SubmitStep(s, s') || exists i: nat :: ExecStep(s, s', i) }

  ghost predicate Moves(s: State) { exists s' :: Works(s, s') }

  lemma SubmitMoves(s: State)
    requires Inv(s) && s.lock.Submit?
    ensures Moves(s)
  {
    assert ItemInv(s, s.lock.j);
    if s.lock.j > 0 { assert ItemInv(s, s.lock.j - 1); }
    var j, at := s.lock.j, s.lock.at;
    var s' := match at
      case Fetch => At(s, if s.last.None? then Add else Check(s.last.value))
      case Check(k) => At(s, if s.items[k].finished then Add else LockNode(k))
      case LockNode(k) => With(At(s, Recheck(k)), k, s.items[k].(locked := true))
      case Recheck(k) => With(At(s, Insert(k)), k, s.items[k].(nSucc := s.items[k].nSucc + 1))
      case Insert(k) => With(At(s, Count), k, s.items[k].(succ := [j] + s.items[k].succ, locked := false))
      case Count => With(At(s, SetLast), j, s.items[j].(nPred := s.items[j].nPred + 1))
      case Add => At(s, SetLast).(bag := s.bag + multiset{j})
      case SetLast => s.(last := Some(j), lock := Open);
    assert Works(s, s');
  }

  // An item that has been handed out moves on, unless it waits for the queue lock.
  lemma ItemMoves(s: State, i: nat)
    requires Inv(s) && i < |s.items| && !s.lock.Submit? && !s.items[i].pc.Done?
    requires s.items[i].pc.Idle? ==> i in s.bag
    requires s.items[i].pc.Returned? ==> s.lock.Open? || s.lock == Dequeue(i)
    ensures Moves(s)
  {
    assert Around(s, i);
    var it := s.items[i];
    var s' := match it.pc
      case Idle => Goes(s, i, Running).(bag := s.bag - multiset{i}, log := s.log + [Begin(i)])
      case Running => Goes(s, i, Returned).(log := s.log + [End(i)])
      case Returned =>
        if s.lock.Open? then s.(lock := Dequeue(i))
        else Goes(s, i, Dequeued).(lock := Open, count := s.count - 1, last := if s.last == Some(i) then None else s.last)
      case Dequeued => With(s, i, it.(pc := Finished, finished := true))
      case Finished => Goes(s, i, Sized(it.nSucc))
      case Sized(m) => Goes(s, i, Releasing(m, 0, []))
      case Releasing(m, t, ready) =>
        if t < |it.succ| then
          var j := it.succ[t];
          With(Goes(s, i, Releasing(m, t + 1, if s.items[j].nPred == 1 then ready + [j] else ready)), j, s.items[j].(nPred := s.items[j].nPred - 1))
        else Goes(s, i, Adding(ready, 0))
      case Adding(ready, t) =>
        if t < |ready| then Goes(s, i, Adding(ready, t + 1)).(bag := s.bag + multiset{ready[t]}) else Goes(s, i, Done)
      case Done => s;
    assert ExecStep(s, s', i);
    assert Works(s, s');
  }

  /** No reachable state is stuck before every submitted item has been executed: as long as a submitter holds the
      lock or some item is not done, a step is possible that is no new submission. */
  lemma NeverStuck(tr: seq<State>, i: nat, j: nat)
    requires IsRun(tr) && i < |tr|
    requires tr[i].lock.Submit? || (j < |tr[i].items| && !tr[i].items[j].pc.Done?)
    ensures exists s' :: Works(tr[i], s')
  {
    RunInv(tr, i);
    var s := tr[i];
    if s.lock.Submit? {
      SubmitMoves(s);
    } else if s.lock.Dequeue? {
      assert ItemInv(s, s.lock.i);
      ItemMoves(s, s.lock.i);
    } else {
      FirstMoves(s, j);
    }
    assert Moves(s);
  }

  // The first item that is not done can move: the one before it has handed it on.
  lemma {:induction false} FirstMoves(s: State, j: nat)
    requires Inv(s) && s.lock.Open? && j < |s.items| && !s.items[j].pc.Done?
    ensures Moves(s)
  {
    assert ItemInv(s, j);
    if j > 0 && !s.items[j - 1].pc.Done? {
      FirstMoves(s, j - 1);
    } else {
      ItemMoves(s, j);
    }
  }

  /** When everything submitted is done, every function has run to its end. */
  lemma AllRan(tr: seq<State>, i: nat)
    requires IsRun(tr) && i < |tr| && forall j :: 0 <= j < |tr[i].items| ==> tr[i].items[j].pc.Done?
    ensures |tr[i].log| == 2 * |tr[i].items|
  {
    RunInv(tr, i);
    if |tr[i].items| > 0 { assert ItemInv(tr[i], |tr[i].items| - 1); }
  }
}
