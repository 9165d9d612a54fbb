/** The static task graph: building it, and running it any number of times. Building is sequential. A run is
    any interleaving of the caller, which seeds the source nodes and waits for the task counter to be zero, and
    of the executors, which run what the scheduler's bag hands out. */
module StaticGraph {
  import opened Edges

  // Nodes are numbered in the order they were added; succ lists successors, the latest dependency first.
  datatype Graph = Graph(succ: seq<seq<nat>>, hard: seq<nat>, src: set<nat>)

  ghost predicate WellBuilt(g: Graph) {
    |g.hard| == |g.succ|
    && (forall i, t :: 0 <= i < |g.succ| && 0 <= t < |g.succ[i]| ==> g.succ[i][t] < |g.succ|)
    && (forall j :: 0 <= j < |g.succ| ==> g.hard[j] == InDegree(g.succ, j, |g.succ|))
    && (forall j :: j in g.src <==> 0 <= j < |g.succ| && g.hard[j] == 0)
  }

  // rank grows along every dependency.
  ghost predicate Acyclic(g: Graph, rank: seq<nat>) {
    |rank| == |g.succ|
    && (forall i, t :: 0 <= i < |g.succ| && 0 <= t < |g.succ[i]| && g.succ[i][t] < |rank| ==> rank[i] < rank[g.succ[i][t]])
  }

  // A node handle names the graph it was made for.
  datatype Handle = Null | Handle(graph: nat, id: nat)

  class SGraph {
    const name: nat
    var succ: seq<seq<nat>>       // successors of each node
    var hard: seq<nat>            // n_hard_predecessors
    var pred: seq<nat>            // n_predecessors
    var src: set<nat>             // src_nodes

    ghost predicate Valid()
      reads this
    {
      WellBuilt(Graph(succ, hard, src)) && pred == hard
    }

    constructor (name: nat)
      ensures Valid() && succ == [] && this.name == name
    {
      this.name := name;
      succ, hard, pred, src := [], [], [], {};
    }

    /** A new node has no neighbours and is a source. */
    method AddNode() returns (h: Handle)
      requires Valid()
      modifies this
      ensures Valid() && h == Handle(name, |old(succ)|)
      ensures succ == old(succ) + [[]] && hard == old(hard) + [0] && src == old(src) + {|old(succ)|}
    {
      ghost var succ0 := succ;
      var id := |succ|;
      NoEdgesYet(succ, id);
      succ, hard, pred := succ + [[]], hard + [0], pred + [0];
      src := src + {id};
      forall j | 0 <= j < |succ| ensures hard[j] == InDegree(succ, j, |succ|) {
        SamePrefix(succ0, succ, j, |succ0|);
      }
      return Handle(name, id);
    }

    /** A dependency adds one edge, one predecessor, and takes the later node out of the sources. */
    method AddDep(precede: Handle, succeed: Handle) returns (ok: bool)
      requires Valid()
      requires precede.Handle? && precede.graph == name ==> precede.id < |succ|
      requires succeed.Handle? && succeed.graph == name ==> succeed.id < |succ|
      requires precede.Handle? && succeed.Handle? && precede.graph == succeed.graph ==> precede.graph == name
      modifies this
      ensures Valid()
      ensures ok <==> precede.Handle? && succeed.Handle? && precede.graph == succeed.graph
      ensures !ok ==> succ == old(succ) && hard == old(hard) && src == old(src)
      ensures ok ==> succ == old(succ)[precede.id := [succeed.id] + old(succ)[precede.id]]
                     && hard == old(hard)[succeed.id := old(hard)[succeed.id] + 1] && src == old(src) - {succeed.id}
    {
      if precede.Null? || succeed.Null? { return false; }
      if precede.graph != succeed.graph { return false; }
      var p, s := precede.id, succeed.id;
      ghost var succ0 := succ;
      succ := succ[p := [s] + succ[p]];
      hard := hard[s := hard[s] + 1];
      pred := pred[s := pred[s] + 1];
      src := src - {s};
      forall j | 0 <= j < |succ| ensures hard[j] == InDegree(succ, j, |succ|) {
        OneEdgeMore(succ0, p, s, j, |succ|);
      }
      return true;
    }
  }

  lemma NoEdgesYet(succ: seq<seq<nat>>, j: nat)
    requires forall i, t :: 0 <= i < |succ| && 0 <= t < |succ[i]| ==> succ[i][t] < |succ|
    requires j == |succ|
    ensures InDegree(succ + [[]], j, |succ + [[]]|) == 0
  {
    NoEdgesTo(succ + [[]], j, |succ + [[]]|);
  }

  // ----- running

  // Who has a node in its ready list: the caller, or the executor of a predecessor.
  datatype Holder = Caller | Node(i: nat)

  datatype Pc =
    | Idle                                            // not all predecessors are done
    | Ready(holder: Holder)                               // in the ready list of holder
    | Counted(holder: Holder)                             // counted, about to be put into the bag
    | Queued
    | Running
    | Returned
    | Releasing(t: nat, ready: seq<nat>)
    | Adding(ready: seq<nat>, t: nat, half: bool)     // half: ready[t] has been counted
    | Rest                                            // done for this run

  datatype Body = Out | Seeding(rest: set<nat>, half: set<nat>) | Waiting

  datatype State = State(pc: seq<Pc>, pred: seq<int>, bag: multiset<nat>, count: int, body: Body, runs: seq<nat>, rounds: nat)

  ghost predicate Shape(g: Graph, s: State) {
    WellBuilt(g) && |s.pc| == |s.pred| == |s.runs| == |g.succ|
  }

  ghost predicate Init(g: Graph, s: State) {
    WellBuilt(g)
    && s == State(seq(|g.succ|, _ => Rest), g.hard, multiset{}, 0, Out, seq(|g.succ|, _ => 0), 0)
  }

  function Goes(s: State, i: nat, pc: Pc): State
    requires i < |s.pc|
  {
    s.(pc := s.pc[i := pc])
  }

  // The caller starts a run.
  ghost predicate BeginStep(g: Graph, s: State, s': State) {
    Shape(g, s) && s.body.Out?
    && s' == s.(body := Seeding(g.src, {}), pc := seq(|s.pc|, i requires 0 <= i => if i in g.src then Ready(Caller) else Idle))
  }

  ghost predicate SeedCountStep(g: Graph, s: State, s': State, j: nat) {
    Shape(g, s) && j < |s.pc| && s.body.Seeding? && s.body.half == {} && j in s.body.rest
    && s' == Goes(s, j, Counted(Caller)).(count := s.count + 1, body := Seeding(s.body.rest - {j}, {j}))
  }

  ghost predicate SeedAddStep(g: Graph, s: State, s': State, j: nat) {
    Shape(g, s) && j < |s.pc| && s.body.Seeding? && j in s.body.half
    && s' == Goes(s, j, Queued).(bag := s.bag + multiset{j}, body := Seeding(s.body.rest, s.body.half - {j}))
  }

  ghost predicate SeededStep(g: Graph, s: State, s': State) {
    Shape(g, s) && s.body.Seeding? && s.body.rest == {} && s.body.half == {} && s' == s.(body := Waiting)
  }

  // The caller returns once it has read a task counter of zero.
  ghost predicate LeaveStep(g: Graph, s: State, s': State) {
    Shape(g, s) && s.body.Waiting? && s.count == 0 && s' == s.(body := Out, rounds := s.rounds + 1)
  }

  ghost predicate TakeStep(g: Graph, s: State, s': State, i: nat) {
    Shape(g, s) && i < |s.pc| && i in s.bag
    && s' == Goes(s, i, Running).(bag := s.bag - multiset{i}, runs := s.runs[i := s.runs[i] + 1])
  }

  ghost predicate ReturnStep(g: Graph, s: State, s': State, i: nat) {
    Shape(g, s) && i < |s.pc| && s.pc[i].Running? && s' == Goes(s, i, Returned)
  }

  ghost predicate ResetStep(g: Graph, s: State, s': State, i: nat) {
    Shape(g, s) && i < |s.pc| && s.pc[i].Returned? && s' == Goes(s, i, Releasing(0, [])).(pred := s.pred[i := g.hard[i]])
  }

  ghost predicate ReleaseStep(g: Graph, s: State, s': State, i: nat) {
    Shape(g, s) && i < |s.pc| && s.pc[i].Releasing? && s.pc[i].t < |g.succ[i]|
    && var t, ready := s.pc[i].t, s.pc[i].ready;
       var j := g.succ[i][t];
       j != i
       && s' == (if s.pred[j] == 1 then Goes(Goes(s, i, Releasing(t + 1, ready + [j])), j, Ready(Node(i)))
                 else Goes(s, i, Releasing(t + 1, ready))).(pred := s.pred[j := s.pred[j] - 1])
  }

  ghost predicate ReleasedStep(g: Graph, s: State, s': State, i: nat) {
    Shape(g, s) && i < |s.pc| && s.pc[i].Releasing? && s.pc[i].t >= |g.succ[i]|
    && s' == Goes(s, i, Adding(s.pc[i].ready, 0, false))
  }

  ghost predicate HandCountStep(g: Graph, s: State, s': State, i: nat) {
    Shape(g, s) && i < |s.pc| && s.pc[i].Adding? && !s.pc[i].half && s.pc[i].t < |s.pc[i].ready|
    && var t, ready := s.pc[i].t, s.pc[i].ready;
       ready[t] < |s.pc| && ready[t] != i
       && s' == Goes(Goes(s, i, Adding(ready, t, true)), ready[t], Counted(Node(i))).(count := s.count + 1)
  }

  ghost predicate HandAddStep(g: Graph, s: State, s': State, i: nat) {
    Shape(g, s) && i < |s.pc| && s.pc[i].Adding? && s.pc[i].half && s.pc[i].t < |s.pc[i].ready|
    && var t, ready := s.pc[i].t, s.pc[i].ready;
       ready[t] < |s.pc| && ready[t] != i
       && s' == Goes(Goes(s, i, Adding(ready, t + 1, false)), ready[t], Queued).(bag := s.bag + multiset{ready[t]})
  }

  ghost predicate DoneStep(g: Graph, s: State, s': State, i: nat) {
    Shape(g, s) && i < |s.pc| && s.pc[i].Adding? && !s.pc[i].half && s.pc[i].t >= |s.pc[i].ready|
    && s' == Goes(s, i, Rest).(count := s.count - 1)
  }

  ghost predicate NodeStep(g: Graph, s: State, s': State, i: nat) {
    TakeStep(g, s, s', i) || ReturnStep(g, s, s', i) || ResetStep(g, s, s', i) || ReleaseStep(g, s, s', i)
    || ReleasedStep(g, s, s', i) || HandCountStep(g, s, s', i) || HandAddStep(g, s, s', i) || DoneStep(g, s, s', i)
  }

  ghost predicate CallerStep(g: Graph, s: State, s': State, j: nat) {
    SeedCountStep(g, s, s', j) || SeedAddStep(g, s, s', j) || SeededStep(g, s, s') || LeaveStep(g, s, s')
  }

  ghost predicate Next(g: Graph, s: State, s': State) {
    BeginStep(g, s, s') || exists i: nat :: CallerStep(g, s, s', i) || NodeStep(g, s, s', i)
  }

  ghost predicate IsRun(g: Graph, tr: seq<State>) {
    |tr| > 0 && Init(g, tr[0]) && forall i :: 0 <= i < |tr| - 1 ==> Next(g, tr[i], tr[i + 1])
  }

  // ----- the invariant

  // How many of its successors a node has released in this run.
  function Rel(pc: Pc, n: nat): (r: nat)
    ensures r <= n
  {
    match pc
    case Releasing(t, _) => if t <= n then t else n
    case Adding(_, _, _) => n
    case Rest => n
    case _ => 0
  }

  // The edges into j, from nodes below n, that have not been released in this run.
  function Pending(succ: seq<seq<nat>>, pc: seq<Pc>, j: nat, n: nat): nat
    requires n <= |succ| == |pc|
  {
    if n == 0 then 0 else Pending(succ, pc, j, n - 1) + Occ(succ[n - 1][Rel(pc[n - 1], |succ[n - 1]|)..], j)
  }

  // The task counter counts these.
  predicate Active(pc: Pc) { !pc.Idle? && !pc.Ready? && !pc.Rest? }

  function ActiveCount(pc: seq<Pc>, n: nat): nat
    requires n <= |pc|
  {
    if n == 0 then 0 else ActiveCount(pc, n - 1) + (if Active(pc[n - 1]) then 1 else 0)
  }

  predicate ResetDone(pc: Pc) { pc.Releasing? || pc.Adding? || pc.Rest? }

  predicate HasRun(pc: Pc) { pc.Running? || pc.Returned? || ResetDone(pc) }

  // Node i's executor still has j to hand on.
  predicate InHand(pc: Pc, j: nat) {
    match pc
    case Releasing(_, ready) => j in ready
    case Adding(ready, t, half) => t <= |ready| && (if half then t < |ready| && j in ready[t + 1..] else j in ready[t..])
    case _ => false
  }

  predicate HalfHanded(pc: Pc, j: nat) { pc.Adding? && pc.half && pc.t < |pc.ready| && pc.ready[pc.t] == j }

  ghost predicate Distinct(l: seq<nat>) { forall a, b :: 0 <= a < b < |l| ==> l[a] != l[b] }

  ghost predicate Counters(g: Graph, s: State, j: nat)
    requires Shape(g, s) && j < |s.pc|
  {
    var n, pc := |s.pc|, s.pc[j];
    (pc.Idle? <==> Pending(g.succ, s.pc, j, n) > 0)
    && s.pred[j] == (if ResetDone(pc) then g.hard[j] else Pending(g.succ, s.pc, j, n))
    && s.bag[j] == (if pc.Queued? then 1 else 0)
    && s.runs[j] == s.rounds + (if HasRun(pc) && !s.body.Out? then 1 else 0)
    && (s.body.Out? ==> pc.Rest?)
  }

  ghost predicate Lists(g: Graph, s: State, j: nat)
    requires Shape(g, s) && j < |s.pc|
  {
    var pc := s.pc[j];
    (pc.Releasing? ==> pc.t <= |g.succ[j]| && Distinct(pc.ready))
    && (pc.Adding? ==> pc.t <= |pc.ready| && Distinct(pc.ready))
    && (pc.Adding? && pc.half ==> pc.t < |pc.ready| && pc.ready[pc.t] < |s.pc|)
    && (pc.Ready? && pc.holder.Node? ==> pc.holder.i < |s.pc|)
    && (pc.Counted? && pc.holder.Node? ==> pc.holder.i < |s.pc|)
    && (s.body.Seeding? && j in s.body.rest <==> pc == Ready(Caller))
    && (s.body.Seeding? && j in s.body.half <==> pc == Counted(Caller))
  }

  // The ready list of node i holds just the nodes that are marked as i's.
  ghost predicate Holds(s: State, i: nat, j: nat)
    requires i < |s.pc| && j < |s.pc|
  {
    (InHand(s.pc[i], j) <==> s.pc[j] == Ready(Node(i)))
    && (HalfHanded(s.pc[i], j) <==> s.pc[j] == Counted(Node(i)))
  }

  ghost predicate NodeInv(g: Graph, s: State, j: nat)
    requires Shape(g, s) && j < |s.pc|
  {
    Counters(g, s, j) && Lists(g, s, j)
  }

  ghost predicate Inv(g: Graph, s: State) {
    Shape(g, s) && s.count == ActiveCount(s.pc, |s.pc|)
    && (s.body.Seeding? ==> (forall j :: j in s.body.rest || j in s.body.half ==> j < |s.pc|)
                            && forall a, b :: a in s.body.half && b in s.body.half ==> a == b)
    && (forall j :: j in s.bag ==> j < |s.pc|)
    && (forall i: nat, k: nat {:trigger InHand(s.pc[i], k)} :: i < |s.pc| && InHand(s.pc[i], k) ==> k < |s.pc|)
    && (forall j {:trigger NodeInv(g, s, j)} :: 0 <= j < |s.pc| ==> NodeInv(g, s, j))
    && (forall i, j {:trigger Holds(s, i, j)} :: 0 <= i < |s.pc| && 0 <= j < |s.pc| ==> Holds(s, i, j))
  }
}
