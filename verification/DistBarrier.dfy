/** The centralised thread barrier: thread 0 waits until all others have raised their enter counters, then
    releases them one by one through leave flags that each thread puts back itself. Counters are 32 bits wide
    and wrap around. */
module DistBarrier {
  import opened Sums

  const UINT32 := 0x1_0000_0000
  const STATE_BUMP := 4
  const NOT_READY := 1
  const READY_TO_GO := 0

  datatype Pc =
    | Outside
    | Scan(i: nat, want: int)     // the master, waiting for thread i
    | Publish(want: int)          // the master, about to raise its own counter
    | Release(i: nat)             // the master, about to release thread i
    | Spin                        // another thread, waiting for its release
    | Clear                       // another thread, about to put its leave flag back

  // entered and left count a thread's barriers.
  datatype Thread = Thread(pc: Pc, entered: nat, left: nat)

  datatype State = State(enter: seq<int>, leave: seq<int>, thr: seq<Thread>)

  function Bump(x: int): int { (x + STATE_BUMP) % UINT32 }

  ghost predicate Shape(n: nat, s: State) { n > 0 && |s.enter| == |s.leave| == |s.thr| == n }

  ghost predicate Init(n: nat, s: State) {
    Shape(n, s)
    && forall t :: 0 <= t < n ==> s.enter[t] == NOT_READY && s.leave[t] == NOT_READY && s.thr[t] == Thread(Outside, 0, 0)
  }

  function Goes(s: State, t: nat, pc: Pc): State
    requires t < |s.thr|
  {
    s.(thr := s.thr[t := s.thr[t].(pc := pc)])
  }

  function Left(s: State, t: nat): State
    requires t < |s.thr|
  {
    s.(thr := s.thr[t := Thread(Outside, s.thr[t].entered, s.thr[t].left + 1)])
  }

  ghost predicate EnterStep(n: nat, s: State, s': State, t: nat) {
    Shape(n, s) && t < n && s.thr[t].pc.Outside?
    && s' == if t == 0 then s.(thr := s.thr[0 := Thread(Scan(1, Bump(s.enter[0])), s.thr[0].entered + 1, s.thr[0].left)])
             else State(s.enter[t := Bump(s.enter[t])], s.leave, s.thr[t := Thread(Spin, s.thr[t].entered + 1, s.thr[t].left)])
  }

  ghost predicate ScanTest(n: nat, s: State)
    requires Shape(n, s) && s.thr[0].pc.Scan?
  {
    s.thr[0].pc.i >= n || s.enter[s.thr[0].pc.i] == s.thr[0].pc.want
  }

  ghost predicate ScanStep(n: nat, s: State, s': State) {
    Shape(n, s) && s.thr[0].pc.Scan? && ScanTest(n, s)
    && s' == Goes(s, 0, if s.thr[0].pc.i < n then Scan(s.thr[0].pc.i + 1, s.thr[0].pc.want) else Publish(s.thr[0].pc.want))
  }

  ghost predicate PublishStep(n: nat, s: State, s': State) {
    Shape(n, s) && s.thr[0].pc.Publish?
    && s' == Goes(s.(enter := s.enter[0 := s.thr[0].pc.want]), 0, Release(1))
  }

  ghost predicate ReleaseStep(n: nat, s: State, s': State) {
    Shape(n, s) && s.thr[0].pc.Release?
    && var i := s.thr[0].pc.i;
       s' == if i < n then Goes(s.(leave := s.leave[i := READY_TO_GO]), 0, Release(i + 1)) else Left(s, 0)
  }

  ghost predicate SpinStep(n: nat, s: State, s': State, t: nat) {
    Shape(n, s) && 0 < t < n && s.thr[t].pc.Spin? && s.leave[t] == READY_TO_GO && s' == Goes(s, t, Clear)
  }

  ghost predicate ClearStep(n: nat, s: State, s': State, t: nat) {
    Shape(n, s) && 0 < t < n && s.thr[t].pc.Clear? && s' == Left(s.(leave := s.leave[t := NOT_READY]), t)
  }

  // A step inside the barrier.
  ghost predicate InnerStep(n: nat, s: State, s': State) {
    ScanStep(n, s, s') || PublishStep(n, s, s') || ReleaseStep(n, s, s')
    || exists t: nat :: SpinStep(n, s, s', t) || ClearStep(n, s, s', t)
  }

  ghost predicate Next(n: nat, s: State, s': State) {
    InnerStep(n, s, s') || exists t: nat :: EnterStep(n, s, s', t)
  }

  ghost predicate IsRun(n: nat, tr: seq<State>) {
    |tr| > 0 && Init(n, tr[0]) && forall i :: 0 <= i < |tr| - 1 ==> Next(n, tr[i], tr[i + 1])
  }

  // ----- the invariant

  // The counter after k barriers.
  function Counter(k: nat): int { (NOT_READY + STATE_BUMP * k) % UINT32 }

  lemma CounterBumps(k: nat)
    ensures Bump(Counter(k)) == Counter(k + 1) && Counter(k + 1) != Counter(k) && Counter(0) == NOT_READY
  {}

  // How often the master has released thread t.
  function Releases(s: State, t: nat): nat
    requires |s.thr| > 0
  {
    s.thr[0].left + if s.thr[0].pc.Release? && t < s.thr[0].pc.i then 1 else 0
  }

  ghost predicate MasterOk(n: nat, s: State)
    requires Shape(n, s)
  {
    var a := s.thr[0];
    !a.pc.Spin? && !a.pc.Clear?
    && a.entered == a.left + (if a.pc.Outside? then 0 else 1)
    && s.enter[0] == Counter(if a.pc.Release? then a.left + 1 else a.left)
    && (a.pc.Scan? ==> a.pc.want == Counter(a.left + 1) && 1 <= a.pc.i)
    && (a.pc.Publish? ==> a.pc.want == Counter(a.left + 1))
    && (a.pc.Release? ==> 1 <= a.pc.i)
  }

  ghost predicate ThreadOk(n: nat, s: State, t: nat)
    requires Shape(n, s) && 0 < t < n
  {
    var a, m := s.thr[t], s.thr[0];
    (a.pc.Outside? || a.pc.Spin? || a.pc.Clear?)
    && a.entered == a.left + (if a.pc.Outside? then 0 else 1) && s.enter[t] == Counter(a.entered)
    && a.left <= Releases(s, t) <= a.left + 1
    && s.leave[t] == (if Releases(s, t) > a.left then READY_TO_GO else NOT_READY)
    && (Releases(s, t) > a.left ==> !a.pc.Outside?) && (a.pc.Clear? ==> Releases(s, t) > a.left)
    && (m.pc.Scan? && t < m.pc.i ==> a.entered >= m.left + 1)
    && (m.pc.Publish? || m.pc.Release? ==> a.entered >= m.left + 1)
  }

  ghost predicate Inv(n: nat, s: State) {
    Shape(n, s) && MasterOk(n, s) && forall t {:trigger ThreadOk(n, s, t)} :: 0 < t < n ==> ThreadOk(n, s, t)
  }

  /** The master's test on a thread passes exactly when that thread has entered the master's barrier, however
      often the counters have wrapped around. */
  lemma ScanExact(n: nat, s: State)
    requires Inv(n, s) && s.thr[0].pc.Scan? && s.thr[0].pc.i < n
    ensures ScanTest(n, s) <==> s.thr[s.thr[0].pc.i].entered >= s.thr[0].entered
  {
    var t := s.thr[0].pc.i;
    assert ThreadOk(n, s, t);
    CounterBumps(s.thr[0].left);
  }

  lemma EnterInv(n: nat, s: State, s': State, t: nat)
    requires Inv(n, s) && EnterStep(n, s, s', t)
    ensures Inv(n, s')
  {
    CounterBumps(s.thr[t].entered);
    if t > 0 { assert ThreadOk(n, s, t); }
    hide Bump, Counter;
    forall u | 0 < u < n ensures ThreadOk(n, s', u) { assert ThreadOk(n, s, u); }
  }

  lemma MasterInv(n: nat, s: State, s': State)
    requires Inv(n, s) && (ScanStep(n, s, s') || PublishStep(n, s, s') || ReleaseStep(n, s, s'))
    ensures Inv(n, s')
  {
    if s.thr[0].pc.Scan? && s.thr[0].pc.i < n { ScanExact(n, s); }
    hide Bump, Counter;
    forall u | 0 < u < n ensures ThreadOk(n, s', u) { assert ThreadOk(n, s, u); }
  }

  lemma ThreadInv(n: nat, s: State, s': State, t: nat)
    requires Inv(n, s) && (SpinStep(n, s, s', t) || ClearStep(n, s, s', t))
    ensures Inv(n, s')
  {
    hide Bump, Counter;
    assert ThreadOk(n, s, t);
    forall u | 0 < u < n ensures ThreadOk(n, s', u) { assert ThreadOk(n, s, u); }
  }

  lemma {:induction false} RunInv(n: nat, tr: seq<State>, i: nat)
    requires IsRun(n, tr) && i < |tr|
    ensures Inv(n, tr[i])
  {
    if i == 0 {
      CounterBumps(0);
    } else {
      RunInv(n, tr, i - 1);
      var s, s' := tr[i - 1], tr[i];
      hide Inv, ScanStep, PublishStep, ReleaseStep, SpinStep, ClearStep, EnterStep;
      assert Next(n, s, s');
      if ScanStep(n, s, s') || PublishStep(n, s, s') || ReleaseStep(n, s, s') {
        MasterInv(n, s, s');
      } else if exists t: nat :: EnterStep(n, s, s', t) {
        var t: nat :| EnterStep(n, s, s', t);
        EnterInv(n, s, s', t);
      } else {
        var t: nat :| SpinStep(n, s, s', t) || ClearStep(n, s, s', t);
        ThreadInv(n, s, s', t);
      }
    }
  }

  /** No thread leaves a barrier before all have entered it. */
  lemma IsABarrier(n: nat, tr: seq<State>, i: nat, t: nat, u: nat)
    requires IsRun(n, tr) && i < |tr| && t < n && u < n
    ensures Shape(n, tr[i]) && tr[i].thr[t].left <= tr[i].thr[u].entered
  {
    RunInv(n, tr, i);
    if t > 0 { assert ThreadOk(n, tr[i], t); }
    if u > 0 { assert ThreadOk(n, tr[i], u); }
  }

  /** No release is lost: when the master is about to release a thread, that thread has put its flag back after
      the release before and waits for this one. */
  lemma NoReleaseIsLost(n: nat, tr: seq<State>, i: nat, t: nat)
    requires IsRun(n, tr) && i < |tr| && 0 < t < n
    ensures Shape(n, tr[i])
    ensures tr[i].thr[0].pc == Release(t) ==> tr[i].leave[t] == NOT_READY && tr[i].thr[t].pc == Spin && tr[i].thr[t].entered == tr[i].thr[0].entered
    ensures tr[i].thr[t].pc.Clear? ==> tr[i].leave[t] == READY_TO_GO
  {
    RunInv(n, tr, i);
    assert ThreadOk(n, tr[i], t);
  }

  /** No reachable state is stuck: if every thread outside has made all its barriers, and some thread is still
      inside, then some thread inside can take a step. */
  lemma NeverStuck(n: nat, tr: seq<State>, i: nat, rounds: nat, t: nat)
    requires IsRun(n, tr) && i < |tr| && t < n && Shape(n, tr[i]) && !tr[i].thr[t].pc.Outside?
    requires forall u :: 0 <= u < n ==> if tr[i].thr[u].pc.Outside? then tr[i].thr[u].left == rounds else tr[i].thr[u].left < rounds
    ensures exists s' :: InnerStep(n, tr[i], s')
  {
    RunInv(n, tr, i);
    var s := tr[i];
    var m := s.thr[0];
    var u := if m.pc.Outside? then t else if m.pc.Scan? && m.pc.i < n then m.pc.i else 0;
    if u > 0 { assert ThreadOk(n, s, u); }
    if m.pc.Scan? && m.pc.i < n { ScanExact(n, s); }
    hide Bump, Counter;
    if !m.pc.Outside? && !(m.pc.Scan? && !ScanTest(n, s)) {
      var s' := match m.pc
        case Scan(j, want) => Goes(s, 0, if j < n then Scan(j + 1, want) else Publish(want))
        case Publish(want) => Goes(s.(enter := s.enter[0 := want]), 0, Release(1))
        case Release(j) => if j < n then Goes(s.(leave := s.leave[j := READY_TO_GO]), 0, Release(j + 1)) else Left(s, 0)
        case _ => s;
      assert InnerStep(n, s, s');
    } else {
      var s' := if s.thr[u].pc.Spin? then Goes(s, u, Clear) else Left(s.(leave := s.leave[u := NOT_READY]), u);
      assert SpinStep(n, s, s', u) || ClearStep(n, s, s', u);
      assert InnerStep(n, s, s');
    }
  }

  // ----- any number of barriers comes to its end

  // The steps a thread has still to take in its barrier.
  function Rest(n: nat, pc: Pc): nat {
    match pc
    case Outside => 0
    case Scan(i, _) => n + 5 + (if i < n then n - i else 0)
    case Publish(_) => n + 4
    case Release(i) => 3 + (if i < n then n - i else 0)
    case Spin => 2
    case Clear => 1
  }

  function ToGo(n: nat, rounds: nat, a: Thread): nat {
    if a.left >= rounds then 0
    else (if a.pc.Outside? then rounds - a.left else rounds - a.left - 1) * (2 * n + 6) + Rest(n, a.pc)
  }

  function Weights(n: nat, rounds: nat, s: State): (w: seq<nat>)
    ensures |w| == |s.thr| && forall t :: 0 <= t < |w| ==> w[t] == ToGo(n, rounds, s.thr[t])
  {
    seq(|s.thr|, t requires 0 <= t < |s.thr| => ToGo(n, rounds, s.thr[t]))
  }

  // Nobody is beyond the first rounds barriers.
  ghost predicate Within(n: nat, s: State, rounds: nat) {
    |s.thr| == n && forall t {:trigger s.thr[t]} :: 0 <= t < n ==> s.thr[t].left < rounds || (s.thr[t].left == rounds && s.thr[t].pc.Outside?)
  }

  ghost predicate AllLeft(n: nat, s: State, rounds: nat) {
    |s.thr| == n && forall t {:trigger s.thr[t]} :: 0 <= t < n ==> s.thr[t].left == rounds && s.thr[t].pc.Outside?
  }

  // b is later in the same barrier than a, or has just left it, or entered it.
  predicate Further(n: nat, a: Thread, b: Thread) {
    if a.pc.Outside? then b.left == a.left && !b.pc.Outside?
    else if b.pc.Outside? then b.left == a.left + 1
    else b.left == a.left && Rest(n, b.pc) < Rest(n, a.pc)
  }

  /** A step inside the barrier takes one thread further, and no other. */
  lemma InnerAdvances(n: nat, s: State, s': State) returns (t: nat)
    requires Inv(n, s) && InnerStep(n, s, s')
    ensures t < n == |s.thr| && s'.thr == s.thr[t := s'.thr[t]] && !s.thr[t].pc.Outside? && Further(n, s.thr[t], s'.thr[t])
  {
    hide Bump, Counter, ThreadOk;
    if ScanStep(n, s, s') || PublishStep(n, s, s') || ReleaseStep(n, s, s') {
      t := 0;
    } else {
      t :| SpinStep(n, s, s', t) || ClearStep(n, s, s', t);
    }
  }

  lemma FurtherLowers(n: nat, rounds: nat, a: Thread, b: Thread)
    requires Further(n, a, b) && a.left < rounds && Rest(n, b.pc) < 2 * n + 6
    ensures ToGo(n, rounds, b) < ToGo(n, rounds, a) && (b.left < rounds || (b.left == rounds && b.pc.Outside?))
  {
    var k, r := rounds - a.left, 2 * n + 6;
    assert k * r == (k - 1) * r + r;
    hide Rest;
    assert !a.pc.Outside? ==> Rest(n, a.pc) > 0 by { RestPositive(n, a.pc); }
  }

  lemma RestPositive(n: nat, pc: Pc)
    ensures Rest(n, pc) == 0 <==> pc.Outside?
  {}

  lemma MoveLowers(n: nat, rounds: nat, s: State, s': State, t: nat)
    requires Within(n, s, rounds) && t < n && |s'.thr| == n && s'.thr == s.thr[t := s'.thr[t]]
    requires Further(n, s.thr[t], s'.thr[t]) && s.thr[t].left < rounds && Rest(n, s'.thr[t].pc) < 2 * n + 6
    ensures Within(n, s', rounds) && Sum(Weights(n, rounds, s')) < Sum(Weights(n, rounds, s))
  {
    FurtherLowers(n, rounds, s.thr[t], s'.thr[t]);
    hide ToGo, Further, Rest;
    SumLess(Weights(n, rounds, s), Weights(n, rounds, s'), t);
  }

  ghost predicate Extends(tr: seq<State>, tr': seq<State>) { 0 < |tr| <= |tr'| && tr'[..|tr|] == tr }

  // Somebody gets further: whoever is outside may enter.
  lemma Progress(n: nat, tr: seq<State>, rounds: nat) returns (more: seq<State>)
    requires IsRun(n, tr) && Within(n, tr[|tr| - 1], rounds) && !AllLeft(n, tr[|tr| - 1], rounds)
    ensures IsRun(n, more) && Extends(tr, more) && Within(n, more[|more| - 1], rounds)
    ensures Sum(Weights(n, rounds, more[|more| - 1])) < Sum(Weights(n, rounds, tr[|tr| - 1]))
  {
    var s := tr[|tr| - 1];
    RunInv(n, tr, |tr| - 1);
    hide IsRun, Inv, InnerStep, EnterStep, ToGo, Rest, Further;
    var s', t;
    if u: nat :| u < n && s.thr[u].pc.Outside? && s.thr[u].left < rounds {
      t := u;
      s' := MayEnter(n, s, u);
    } else {
      var u: nat :| u < n && !(s.thr[u].left == rounds && s.thr[u].pc.Outside?);
      s' := SomeInner(n, tr, rounds, u);
      t := InnerAdvances(n, s, s');
      RestBound(n, s'.thr[t].pc);
    }
    MoveLowers(n, rounds, s, s', t);
    more := Longer(n, tr, s');
  }

  lemma RestBound(n: nat, pc: Pc)
    ensures Rest(n, pc) < 2 * n + 6
  {}

  // A thread that is outside can enter at any time.
  lemma MayEnter(n: nat, s: State, t: nat) returns (s': State)
    requires Inv(n, s) && t < n && s.thr[t].pc.Outside?
    ensures Next(n, s, s') && s'.thr == s.thr[t := s'.thr[t]] && Further(n, s.thr[t], s'.thr[t]) && Rest(n, s'.thr[t].pc) < 2 * n + 6
  {
    s' := if t == 0 then s.(thr := s.thr[0 := Thread(Scan(1, Bump(s.enter[0])), s.thr[0].entered + 1, s.thr[0].left)])
          else State(s.enter[t := Bump(s.enter[t])], s.leave, s.thr[t := Thread(Spin, s.thr[t].entered + 1, s.thr[t].left)]);
    assert EnterStep(n, s, s', t);
  }

  lemma SomeInner(n: nat, tr: seq<State>, rounds: nat, t: nat) returns (s': State)
    requires IsRun(n, tr) && Within(n, tr[|tr| - 1], rounds) && t < n && !tr[|tr| - 1].thr[t].pc.Outside?
    requires forall u {:trigger tr[|tr| - 1].thr[u]} :: 0 <= u < n && tr[|tr| - 1].thr[u].pc.Outside? ==> tr[|tr| - 1].thr[u].left >= rounds
    ensures InnerStep(n, tr[|tr| - 1], s') && Next(n, tr[|tr| - 1], s')
  {
    RunInv(n, tr, |tr| - 1);
    hide IsRun, InnerStep;
    NeverStuck(n, tr, |tr| - 1, rounds, t);
    s' :| InnerStep(n, tr[|tr| - 1], s');
  }

  lemma Longer(n: nat, tr: seq<State>, s': State) returns (more: seq<State>)
    requires IsRun(n, tr) && Next(n, tr[|tr| - 1], s')
    ensures IsRun(n, more) && Extends(tr, more) && more[|more| - 1] == s'
  {
    more := tr + [s'];
    hide Next, Init;
    forall i | 0 <= i < |more| - 1 ensures Next(n, more[i], more[i + 1]) { assert i < |tr| - 1 ==> Next(n, tr[i], tr[i + 1]); }
  }

  /** From every reachable state any number of barriers comes to its end: as long as nobody has left more than rounds of
      them, the run can be continued to where every thread has left rounds barriers. */
  lemma {:induction false} Completes(n: nat, tr: seq<State>, rounds: nat) returns (tr': seq<State>)
    requires IsRun(n, tr) && Within(n, tr[|tr| - 1], rounds)
    ensures IsRun(n, tr') && Extends(tr, tr') && AllLeft(n, tr'[|tr'| - 1], rounds)
    decreases Sum(Weights(n, rounds, tr[|tr| - 1]))
  {
    if AllLeft(n, tr[|tr| - 1], rounds) {
      tr' := tr;
    } else {
      hide IsRun, AllLeft, Within;
      var more := Progress(n, tr, rounds);
      tr' := Completes(n, more, rounds);
      assert tr'[..|tr|] == tr'[..|more|][..|tr|];
    }
  }
}
