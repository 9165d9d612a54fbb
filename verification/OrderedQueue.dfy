/** One in-order queue, fed by any number of submitters and drained by any number of executors. The items are
    numbered in the order in which their submitters got the queue lock. The scheduler is a bag that hands out
    whatever was put into it. Every access to the lock, to a node's lock, counter or state, and to the bag is
    a transition of its own. */
module OrderedQueue {
  import opened Options

  // Where a submitter is between taking and returning the queue lock; k is the event it found to be last.
  datatype Submitting =
    | Fetch             // about to read last_event
    | Check(k: nat)     // about to look whether k is finished
    | LockNode(k: nat)
    | Recheck(k: nat)   // holding k's lock
    | Insert(k: nat)    // about to put the new node into k's successor list and release the lock
    | Count             // about to raise the new node's predecessor counter
    | Add               // about to hand the task to the scheduler
    | SetLast

  datatype Lock = Open | Submit(j: nat, at: Submitting) | Dequeue(i: nat)

  // Where the executor of an item is.
  datatype Pc =
    | Idle
    | Running
    | Returned
    | Dequeued
    | Finished
    | Sized(m: nat)                                     // has read n_successors, for the size of the ready array
    | Releasing(m: nat, t: nat, ready: seq<nat>)
    | Adding(ready: seq<nat>, t: nat)
    | Done

  datatype Item = Item(pc: Pc, finished: bool, locked: bool, nPred: int, nSucc: nat, succ: seq<nat>)

  // The functions of the items begin and end.
  datatype Mark = Begin(i: nat) | End(i: nat)

  datatype State = State(items: seq<Item>, lock: Lock, last: Option<nat>, count: int, bag: multiset<nat>, log: seq<Mark>)

  const EMPTY := State([], Open, None, 0, multiset{}, [])

  function With(s: State, i: nat, it: Item): State
    requires i < |s.items|
  {
    s.(items := s.items[i := it])
  }

  function Goes(s: State, i: nat, pc: Pc): State
    requires i < |s.items|
  {
    With(s, i, s.items[i].(pc := pc))
  }

  // ----- submission

  ghost predicate Acquire(s: State, s': State) {
    s.lock.Open?
    && s' == s.(items := s.items + [Item(Idle, false, false, 0, 0, [])], lock := Submit(|s.items|, Fetch), count := s.count + 1)
  }

  ghost predicate Submits(s: State) { s.lock.Submit? && s.lock.j < |s.items| }

  function At(s: State, at: Submitting): State
    requires s.lock.Submit?
  {
    s.(lock := Submit(s.lock.j, at))
  }

  ghost predicate FetchStep(s: State, s': State) {
    Submits(s) && s.lock.at.Fetch? && s' == At(s, if s.last.None? then Add else Check(s.last.value))
  }

  ghost predicate CheckStep(s: State, s': State) {
    Submits(s) && s.lock.at.Check? && s.lock.at.k < |s.items|
    && s' == At(s, if s.items[s.lock.at.k].finished then Add else LockNode(s.lock.at.k))
  }

  ghost predicate LockStep(s: State, s': State) {
    Submits(s) && s.lock.at.LockNode? && s.lock.at.k < |s.items| && !s.items[s.lock.at.k].locked
    && var k := s.lock.at.k;
       s' == With(At(s, Recheck(k)), k, s.items[k].(locked := true))
  }

  ghost predicate RecheckStep(s: State, s': State) {
    Submits(s) && s.lock.at.Recheck? && s.lock.at.k < |s.items|
    && var k := s.lock.at.k;
       s' == if s.items[k].finished then With(At(s, Add), k, s.items[k].(locked := false))
             else With(At(s, Insert(k)), k, s.items[k].(nSucc := s.items[k].nSucc + 1))
  }

  ghost predicate InsertStep(s: State, s': State) {
    Submits(s) && s.lock.at.Insert? && s.lock.at.k < |s.items|
    && var k := s.lock.at.k;
       s' == With(At(s, Count), k, s.items[k].(succ := [s.lock.j] + s.items[k].succ, locked := false))
  }

  ghost predicate CountStep(s: State, s': State) {
    Submits(s) && s.lock.at.Count?
    && s' == With(At(s, SetLast), s.lock.j, s.items[s.lock.j].(nPred := s.items[s.lock.j].nPred + 1))
  }

  ghost predicate AddStep(s: State, s': State) {
    Submits(s) && s.lock.at.Add? && s' == At(s, SetLast).(bag := s.bag + multiset{s.lock.j})
  }

  ghost predicate SetLastStep(s: State, s': State) {
    Submits(s) && s.lock.at.SetLast? && s' == s.(last := Some(s.lock.j), lock := Open)
  }

  ghost predicate SubmitStep(s: State, s': State) {
    FetchStep(s, s') || CheckStep(s, s') || LockStep(s, s') || RecheckStep(s, s') || InsertStep(s, s') || CountStep(s, s')
    || AddStep(s, s') || SetLastStep(s, s')
  }

  // ----- execution of item i

  ghost predicate TakeStep(s: State, s': State, i: nat) {
    i < |s.items| && i in s.bag && s' == Goes(s, i, Running).(bag := s.bag - multiset{i}, log := s.log + [Begin(i)])
  }

  ghost predicate ReturnStep(s: State, s': State, i: nat) {
    i < |s.items| && s.items[i].pc.Running? && s' == Goes(s, i, Returned).(log := s.log + [End(i)])
  }

  ghost predicate GrabStep(s: State, s': State, i: nat) {
    i < |s.items| && s.items[i].pc.Returned? && s.lock.Open? && s' == s.(lock := Dequeue(i))
  }

  ghost predicate DequeueStep(s: State, s': State, i: nat) {
    i < |s.items| && s.lock == Dequeue(i)
    && s' == Goes(s, i, Dequeued).(lock := Open, count := s.count - 1, last := if s.last == Some(i) then None else s.last)
  }

  ghost predicate FinishStep(s: State, s': State, i: nat) {
    i < |s.items| && s.items[i].pc.Dequeued? && s' == With(s, i, s.items[i].(pc := Finished, finished := true))
  }

  ghost predicate SizeStep(s: State, s': State, i: nat) {
    i < |s.items| && s.items[i].pc.Finished? && s' == Goes(s, i, Sized(s.items[i].nSucc))
  }

  // The node's lock is taken and given back at once.
  ghost predicate SyncStep(s: State, s': State, i: nat) {
    i < |s.items| && s.items[i].pc.Sized? && !s.items[i].locked && s' == Goes(s, i, Releasing(s.items[i].pc.m, 0, []))
  }

  ghost predicate ReleaseStep(s: State, s': State, i: nat) {
    i < |s.items| && s.items[i].pc.Releasing? && s.items[i].pc.t < |s.items[i].succ|
    && var p := s.items[i].pc;
       var j := s.items[i].succ[p.t];
       j < |s.items| && j != i
       && s' == With(Goes(s, i, Releasing(p.m, p.t + 1, if s.items[j].nPred == 1 then p.ready + [j] else p.ready)), j,
                     s.items[j].(nPred := s.items[j].nPred - 1))
  }

  ghost predicate ReleasedStep(s: State, s': State, i: nat) {
    i < |s.items| && s.items[i].pc.Releasing? && s.items[i].pc.t >= |s.items[i].succ|
    && s' == Goes(s, i, Adding(s.items[i].pc.ready, 0))
  }

  ghost predicate HandOnStep(s: State, s': State, i: nat) {
    i < |s.items| && s.items[i].pc.Adding?
    && var p := s.items[i].pc;
       s' == if p.t < |p.ready| then Goes(s, i, Adding(p.ready, p.t + 1)).(bag := s.bag + multiset{p.ready[p.t]})
             else Goes(s, i, Done)
  }

  ghost predicate ExecStep(s: State, s': State, i: nat) {
    TakeStep(s, s', i) || ReturnStep(s, s', i) || GrabStep(s, s', i) || DequeueStep(s, s', i) || FinishStep(s, s', i)
    || SizeStep(s, s', i) || SyncStep(s, s', i) || ReleaseStep(s, s', i) || ReleasedStep(s, s', i) || HandOnStep(s, s', i)
  }

  ghost predicate Next(s: State, s': State) {
    Acquire(s, s') || SubmitStep(s, s') || exists i: nat :: ExecStep(s, s', i)
  }

  ghost predicate IsRun(tr: seq<State>) {
    |tr| > 0 && tr[0] == EMPTY && forall i :: 0 <= i < |tr| - 1 ==> Next(tr[i], tr[i + 1])
  }

  // ----- the invariant, one item at a time

  function MarkAt(k: nat): Mark { if k % 2 == 0 then Begin(k / 2) else End(k / 2) }

  // Past the point where the item leaves the queue.
  predicate Gone(pc: Pc) { !pc.Idle? && !pc.Running? && !pc.Returned? }

  predicate AfterFinish(pc: Pc) { Gone(pc) && !pc.Dequeued? }

  // Item j + 1 has been put behind item j, at least as far as n_successors tells.
  predicate Linked(s: State, j: nat) { j < |s.items| && s.items[j].nSucc > 0 }

  predicate SubmittingAt(s: State, j: nat) { s.lock.Submit? && s.lock.j == j }

  // The executor of item i has lowered the counter of its successor, and has handed the successor on.
  predicate Released(it: Item) { (it.pc.Releasing? && it.pc.t > 0) || it.pc.Adding? || it.pc.Done? }

  predicate HandedOn(it: Item) { (it.pc.Adding? && it.pc.t > 0) || it.pc.Done? }

  ghost predicate Edges(s: State, i: nat)
    requires i < |s.items|
  {
    var it := s.items[i];
    (if !SubmittingAt(s, i + 1) then
       (i + 1 >= |s.items| ==> it.nSucc == 0) && it.nSucc <= 1 && it.succ == (if it.nSucc == 1 then [i + 1] else []) && !it.locked
     else match s.lock.at
       case Fetch => it.nSucc == 0 && it.succ == [] && !it.locked
       case Check(k) => it.nSucc == 0 && it.succ == [] && !it.locked && k == i && !Gone(it.pc)
       case LockNode(k) => it.nSucc == 0 && it.succ == [] && !it.locked && k == i && !Gone(it.pc)
       case Recheck(k) => it.nSucc == 0 && it.succ == [] && it.locked && k == i && !Gone(it.pc)
       case Insert(k) => it.nSucc == 1 && it.succ == [] && it.locked && k == i && !Gone(it.pc)
       case Count => it.nSucc == 1 && it.succ == [i + 1] && !it.locked && !Gone(it.pc)
       case Add => it.nSucc == 0 && it.succ == [] && !it.locked
       case SetLast => it.nSucc <= 1 && it.succ == (if it.nSucc == 1 then [i + 1] else []) && !it.locked)
  }

  ghost predicate Waits(s: State, i: nat)
    requires i < |s.items|
  {
    var it := s.items[i];
    var linked := i > 0 && Linked(s, i - 1);
    var counted := !SubmittingAt(s, i) || s.lock.at.SetLast?;
    it.nPred == (if linked && counted && !Released(s.items[i - 1]) then 1 else 0)
    && s.bag[i] <= 1 && (!it.pc.Idle? ==> s.bag[i] == 0)
    && (s.bag[i] > 0 || !it.pc.Idle? <==> counted && (linked ==> HandedOn(s.items[i - 1])))
    && (i > 0 && !linked && (!SubmittingAt(s, i) || s.lock.at.Add? || s.lock.at.SetLast?) ==> Gone(s.items[i - 1].pc))
  }

  ghost predicate Runs(s: State, i: nat)
    requires i < |s.items|
  {
    var it := s.items[i];
    (it.finished <==> AfterFinish(it.pc))
    && (s.lock == Dequeue(i) ==> it.pc.Returned?)
    && (Gone(it.pc) <==> i < |s.items| - s.count)
    && (!it.pc.Idle? <==> 2 * i < |s.log|)
    && (!it.pc.Idle? && !it.pc.Running? <==> 2 * i + 1 < |s.log|)
    && (it.pc.Sized? ==> it.pc.m == it.nSucc)
    && (it.pc.Releasing? ==> it.pc.m == it.nSucc && it.pc.t <= |it.succ| && it.pc.ready == it.succ[..it.pc.t])
    && (it.pc.Adding? ==> it.pc.t <= |it.succ| && it.pc.ready == it.succ)
  }

  ghost predicate ItemInv(s: State, i: nat)
    requires i < |s.items|
  {
    Edges(s, i) && Waits(s, i) && Runs(s, i)
  }

  ghost predicate LockOk(s: State) {
    (s.lock.Submit? ==> s.lock.j == |s.items| - 1 >= 0 && !Gone(s.items[s.lock.j].pc)
                         && (s.lock.j == 0 ==> s.lock.at.Fetch? || s.lock.at.Add? || s.lock.at.SetLast?))
    && (s.lock.Dequeue? ==> s.lock.i < |s.items|)
    && var tail := if s.lock.Submit? then |s.items| - 2 else |s.items| - 1;
       s.last == (if tail >= 0 && !Gone(s.items[tail].pc) then Some(tail) else None)
  }

  ghost predicate Inv(s: State) {
    LockOk(s) && 0 <= s.count <= |s.items| && |s.log| <= 2 * |s.items|
    && (forall i :: i in s.bag ==> i < |s.items|)
    && (forall k :: 0 <= k < |s.log| ==> s.log[k] == MarkAt(k))
    && (forall i {:trigger ItemInv(s, i)} :: 0 <= i < |s.items| ==> ItemInv(s, i))
  }
}
