/** The ring broadcast keeps its invariant; what ranks get to see follows from it. */
module RingBcastProof {
  import opened Division
  import opened RingBcast

  // Once a rank handles a chunk of run k, every rank is ready for run k.
  lemma AllReady(c: Config, s: State, p: nat, q: nat)
    requires Inv(c, s) && p < c.size && q < c.size && (Sending(s.proc[p]) || (s.proc[p].stage.Await? && s.proc[p].stage.c > 0))
    ensures ReadyFor(s.proc[q], s.proc[p].run)
  {
    assert RankInv(c, s, p) && RankInv(c, s, q) && RankInv(c, s, c.root);
  }

  // Rank p takes its run, its counters and nobody else's forward.
  ghost predicate Local(c: Config, s: State, s': State, p: nat) {
    Shape(c, s) && Shape(c, s') && p < c.size && s'.proc == s.proc[p := s'.proc[p]]
    && (forall q :: 0 <= q < c.size && q != p ==> s'.nr[q] == s.nr[q])
    && (forall w, q :: 0 <= w < c.size && 0 <= q < c.size && q != p ==> s'.no[w][q] == s.no[w][q])
  }

  lemma OthersCounts(c: Config, s: State, s': State, p: nat, q: nat)
    requires Inv(c, s) && Local(c, s, s', p) && q < c.size && q != p
    ensures StageOk(c, s', q) && Counts(c, s', q)
  {
    hide Buffers, Order;
    assert RankInv(c, s, q);
  }

  /** The test of a rank that waits for a chunk passes exactly when the rank before it has announced that chunk
      of the same run. */
  lemma AwaitExact(c: Config, s: State, p: nat)
    requires Inv(c, s) && p < c.size && s.proc[p].stage.Await?
    ensures AwaitTest(c, s, p) <==> Announced(s.proc[c.Prev(p)], s.proc[p].run, s.proc[p].stage.c)
  {
    hide Buffers;
    var q := c.Prev(p);
    assert RankInv(c, s, p) && RankInv(c, s, q);
    var k := if q == c.root then c.chunks + 1 else c.chunks;
    RunsApart(s.proc[p].run, s.proc[q].run, k);
    RunsApart(s.proc[q].run, s.proc[p].run, k);
  }

  lemma RunsApart(r: nat, t: nat, k: nat)
    ensures r < t ==> k * r + k <= k * t
  {
    MulOrder(r, t, k);
    assert r * k == k * r && t * k == k * t;
  }

  // ----- the rank that moves

  lemma NextRun(r: nat, k: nat)
    ensures k * (r + 1) == k * r + k
  {}

  ghost predicate OwnOk(c: Config, s: State, s': State, p: nat)
    requires Shape(c, s) && p < c.size
  {
    Local(c, s, s', p) && StageOk(c, s', p) && Counts(c, s', p)
  }

  lemma UserOwn(c: Config, s: State, s': State, p: nat, row: seq<Cell>)
    requires Inv(c, s) && UserStep(c, s, s', p, row)
    ensures OwnOk(c, s, s', p)
  {
    hide Buffers, Order, Config.Prev, Config.Succ;
    assert RankInv(c, s, p);
  }

  lemma EnterOwn(c: Config, s: State, s': State, p: nat)
    requires Inv(c, s) && EnterStep(c, s, s', p)
    ensures OwnOk(c, s, s', p)
  {
    hide Buffers, Order, Config.Prev, Config.Succ;
    assert RankInv(c, s, p);
  }

  lemma StartOwn(c: Config, s: State, s': State, p: nat)
    requires Inv(c, s) && StartStep(c, s, s', p)
    ensures OwnOk(c, s, s', p)
  {
    hide Buffers, Order;
    assert RankInv(c, s, p);
  }

  lemma ReadyOwn(c: Config, s: State, s': State, p: nat)
    requires Inv(c, s) && ReadyStep(c, s, s', p)
    ensures OwnOk(c, s, s', p)
  {
    hide Buffers, Order, Config.Prev, Config.Succ;
    assert RankInv(c, s, p);
  }

  lemma ScanOwn(c: Config, s: State, s': State, p: nat)
    requires Inv(c, s) && ScanStep(c, s, s', p)
    ensures OwnOk(c, s, s', p)
  {
    hide Buffers, Order, Config.Prev, Config.Succ;
    assert RankInv(c, s, p);
  }

  lemma AwaitOwn(c: Config, s: State, s': State, p: nat)
    requires Inv(c, s) && AwaitStep(c, s, s', p)
    ensures OwnOk(c, s, s', p)
  {
    hide Buffers, Order;
    assert RankInv(c, s, p);
    NextRun(s.proc[p].run, c.chunks);
    NextRun(s.proc[p].run, c.chunks + 1);
  }

  lemma SendOwn(c: Config, s: State, s': State, p: nat)
    requires Inv(c, s) && SendStep(c, s, s', p)
    ensures OwnOk(c, s, s', p)
  {
    hide Buffers, Order, Config.Prev;
    assert RankInv(c, s, p);
  }

  lemma CopyOwn(c: Config, s: State, s': State, p: nat)
    requires Inv(c, s) && CopyStep(c, s, s', p)
    ensures OwnOk(c, s, s', p)
  {
    hide Buffers, Order, Config.Prev;
    assert RankInv(c, s, p);
  }

  lemma NotifyOwn(c: Config, s: State, s': State, p: nat)
    requires Inv(c, s) && NotifyStep(c, s, s', p)
    ensures OwnOk(c, s, s', p)
  {
    hide Buffers, Order;
    assert RankInv(c, s, p);
    NextRun(s.proc[p].run, c.chunks);
    NextRun(s.proc[p].run, c.chunks + 1);
  }

  // ----- how far ranks are apart

  lemma IdleOrder(c: Config, s: State, s': State, p: nat, row: seq<Cell>, q: nat)
    requires Inv(c, s) && Shape(c, s') && q < c.size
    requires UserStep(c, s, s', p, row) || EnterStep(c, s, s', p) || StartStep(c, s, s', p)
    ensures Order(c, s', q)
  {
    hide Buffers, Counts;
    assert RankInv(c, s, p) && RankInv(c, s, q) && RankInv(c, s, c.root);
  }

  lemma CopyOrder(c: Config, s: State, s': State, p: nat, q: nat)
    requires Inv(c, s) && Shape(c, s') && q < c.size && (SendStep(c, s, s', p) || CopyStep(c, s, s', p))
    ensures Order(c, s', q)
  {
    hide Buffers, Counts;
    assert RankInv(c, s, p) && RankInv(c, s, q) && RankInv(c, s, c.root);
  }

  lemma ReadyOrder(c: Config, s: State, s': State, p: nat, q: nat)
    requires Inv(c, s) && Shape(c, s') && q < c.size && ReadyStep(c, s, s', p)
    ensures Order(c, s', q)
  {
    hide Buffers, Counts;
    assert RankInv(c, s, p) && RankInv(c, s, q) && RankInv(c, s, c.root);
  }

  lemma ScanOrder(c: Config, s: State, s': State, p: nat, q: nat)
    requires Inv(c, s) && Shape(c, s') && q < c.size && ScanStep(c, s, s', p)
    ensures Order(c, s', q)
  {
    hide Buffers;
    assert RankInv(c, s, p) && RankInv(c, s, q);
  }

  lemma AwaitOrder(c: Config, s: State, s': State, p: nat, q: nat)
    requires Inv(c, s) && Shape(c, s') && q < c.size && q != p && AwaitStep(c, s, s', p)
    ensures Order(c, s', q)
  {
    hide Buffers, Counts;
    assert RankInv(c, s, p) && RankInv(c, s, q) && RankInv(c, s, c.root);
  }

  lemma AwaitOwnOrder(c: Config, s: State, s': State, p: nat)
    requires Inv(c, s) && Shape(c, s') && AwaitStep(c, s, s', p)
    ensures Order(c, s', p)
  {
    AwaitExact(c, s, p);
    hide Buffers, Counts;
    assert RankInv(c, s, p) && RankInv(c, s, c.root) && RankInv(c, s, c.Prev(p));
  }

  lemma NotifyOrder(c: Config, s: State, s': State, p: nat, q: nat)
    requires Inv(c, s) && Shape(c, s') && q < c.size && NotifyStep(c, s, s', p)
    ensures Order(c, s', q)
  {
    hide Buffers, Counts;
    assert RankInv(c, s, p) && RankInv(c, s, q) && RankInv(c, s, c.root) && RankInv(c, s, c.Prev(p));
  }

  // ----- what is in the buffers

  // Nothing is under way to a rank that has not entered the run.
  lemma NothingUnderWay(c: Config, s: State, p: nat, i: nat)
    requires Inv(c, s) && p < c.size && i < c.chunks && (s.proc[p].stage.Outside? || s.proc[p].stage.Start?)
    ensures p != c.root ==> !Announced(s.proc[c.Prev(p)], s.proc[p].run, i) && !Sending(s.proc[c.Prev(p)])
  {
    hide Buffers, Counts;
    var q := c.Prev(p);
    assert RankInv(c, s, p) && RankInv(c, s, q) && RankInv(c, s, c.root);
  }

  // A rank that sends chunk i sends it to a rank in the same run, which has not been told of that chunk yet.
  lemma SendsAhead(c: Config, s: State, p: nat)
    requires Inv(c, s) && p < c.size && Sending(s.proc[p]) && c.Succ(p) != p
    ensures var q, i := c.Succ(p), s.proc[p].stage.c;
            q != c.root && c.Prev(q) == p && i < c.chunks && s.proc[q].run == s.proc[p].run && Readied(s.proc[q]) == 1
            && (Sending(s.proc[q]) ==> s.proc[q].stage.c < i)
  {
    hide Buffers, Counts;
    AllReady(c, s, p, c.Succ(p));
    assert RankInv(c, s, p) && RankInv(c, s, c.Succ(p));
  }

  lemma SrcHolds(c: Config, s: State, p: nat)
    requires Inv(c, s) && p < c.size && Sending(s.proc[p])
    ensures s.proc[p].stage.c < c.chunks && Holds(c, s, p, s.proc[p].stage.c)
  {
    hide Counts;
    assert RankInv(c, s, p);
    assert Delivered(c, s, p, s.proc[p].stage.c);
  }

  // The cells of q after a step.
  ghost predicate CellOk(c: Config, s: State, q: nat, i: nat)
    requires Shape(c, s) && q < c.size && i < c.chunks
  {
    Delivered(c, s, q, i) ==> Holds(c, s, q, i)
  }

  ghost predicate CopyOk(c: Config, s: State, q: nat)
    requires Shape(c, s) && q < c.size
  {
    var a := s.proc[q];
    (a.stage.Copying? && a.stage.c < c.chunks ==> a.stage.src == Val(c.data(a.run, a.stage.c)))
    && (a.stage.Notify? && a.stage.c < c.chunks ==> s.buf[c.Succ(q)][a.stage.c] == Val(c.data(a.run, a.stage.c)))
  }

  lemma BuffersParts(c: Config, s: State, q: nat)
    requires Shape(c, s) && q < c.size
    ensures Buffers(c, s, q) <==> CopyOk(c, s, q) && forall i :: 0 <= i < c.chunks ==> CellOk(c, s, q, i)
  {
    if Buffers(c, s, q) {
      forall i | 0 <= i < c.chunks ensures CellOk(c, s, q, i) { assert Delivered(c, s, q, i) ==> Holds(c, s, q, i); }
    }
    if forall i :: 0 <= i < c.chunks ==> CellOk(c, s, q, i) {
      forall i | 0 <= i < c.chunks && Delivered(c, s, q, i) ensures Holds(c, s, q, i) { assert CellOk(c, s, q, i); }
    }
  }

  lemma UserCell(c: Config, s: State, s': State, p: nat, row: seq<Cell>, q: nat, i: nat)
    requires Inv(c, s) && Shape(c, s') && q < c.size && i < c.chunks && UserStep(c, s, s', p, row)
    ensures CellOk(c, s', q, i) && CopyOk(c, s', q)
  {
    NothingUnderWay(c, s, p, i);
    assert RankInv(c, s, q) by { hide Buffers, Order, Counts, StageOk; }
    hide Counts, Order;
    BuffersParts(c, s, q);
    hide Buffers;
    assert CellOk(c, s, q, i);
  }

  lemma EnterCell(c: Config, s: State, s': State, p: nat, q: nat, i: nat)
    requires Inv(c, s) && Shape(c, s') && q < c.size && i < c.chunks && EnterStep(c, s, s', p)
    ensures CellOk(c, s', q, i) && CopyOk(c, s', q)
  {
    assert RankInv(c, s, q) by { hide Buffers, Order, Counts, StageOk; }
    hide Counts, Order;
    BuffersParts(c, s, q);
    hide Buffers;
    assert CellOk(c, s, q, i);
  }

  // Steps that touch neither buffers nor what has been announced.
  lemma HandshakeCell(c: Config, s: State, s': State, p: nat, q: nat, i: nat)
    requires Inv(c, s) && Shape(c, s') && q < c.size && i < c.chunks
    requires StartStep(c, s, s', p) || ReadyStep(c, s, s', p) || ScanStep(c, s, s', p)
    ensures CellOk(c, s', q, i) && CopyOk(c, s', q)
  {
    assert RankInv(c, s, q) by { hide Buffers, Order, Counts, StageOk; }
    hide Counts, Order;
    BuffersParts(c, s, q);
    hide Buffers;
    assert CellOk(c, s, q, i);
  }

  lemma AwaitCell(c: Config, s: State, s': State, p: nat, q: nat, i: nat)
    requires Inv(c, s) && Shape(c, s') && q < c.size && i < c.chunks && AwaitStep(c, s, s', p)
    ensures CellOk(c, s', q, i) && CopyOk(c, s', q)
  {
    assert RankInv(c, s, q) && RankInv(c, s, p) by { hide Buffers, Order, Counts, StageOk; }
    assert StageOk(c, s, p);
    NextRunEmpty(c, s, p, i);
    hide Counts, Order;
    BuffersParts(c, s, q);
    hide Buffers;
    assert CellOk(c, s, q, i);
  }

  // While a rank is in a run, nothing of the next run has been announced to it.
  lemma NextRunEmpty(c: Config, s: State, p: nat, i: nat)
    requires Inv(c, s) && p < c.size && i < c.chunks && p != c.root
    ensures !Announced(s.proc[c.Prev(p)], s.proc[p].run + 1, i)
  {
    hide Buffers, Counts;
    assert RankInv(c, s, p) && RankInv(c, s, c.Prev(p)) && RankInv(c, s, c.root);
  }

  lemma SendCell(c: Config, s: State, s': State, p: nat, q: nat, i: nat)
    requires Inv(c, s) && Shape(c, s') && q < c.size && i < c.chunks && SendStep(c, s, s', p)
    ensures CellOk(c, s', q, i) && CopyOk(c, s', q)
  {
    SrcHolds(c, s, p);
    if c.Succ(p) != p { SendsAhead(c, s, p); }
    assert RankInv(c, s, q) && RankInv(c, s, p) by { hide Buffers, Order, Counts, StageOk; }
    hide Counts, Order;
    BuffersParts(c, s, q);
    hide Buffers;
    assert CellOk(c, s, q, i);
  }

  lemma CopyCell(c: Config, s: State, s': State, p: nat, q: nat, i: nat)
    requires Inv(c, s) && Shape(c, s') && q < c.size && i < c.chunks && CopyStep(c, s, s', p)
    ensures CellOk(c, s', q, i) && CopyOk(c, s', q)
  {
    SrcHolds(c, s, p);
    if c.Succ(p) != p { SendsAhead(c, s, p); }
    assert RankInv(c, s, q) && RankInv(c, s, p) by { hide Buffers, Order, Counts, StageOk; }
    hide Counts, Order;
    BuffersParts(c, s, q);
    BuffersParts(c, s, p);
    hide Buffers;
    assert CellOk(c, s, q, i);
  }

  lemma NotifyCell(c: Config, s: State, s': State, p: nat, q: nat, i: nat)
    requires Inv(c, s) && Shape(c, s') && q < c.size && i < c.chunks && NotifyStep(c, s, s', p)
    ensures CellOk(c, s', q, i) && CopyOk(c, s', q)
  {
    if c.Succ(p) != p { SendsAhead(c, s, p); }
    if p != c.root { NextRunEmpty(c, s, p, i); }
    assert RankInv(c, s, q) && RankInv(c, s, p) by { hide Buffers, Order, Counts, StageOk; }
    hide Counts, Order;
    BuffersParts(c, s, q);
    BuffersParts(c, s, p);
    hide Buffers;
    assert CellOk(c, s, q, i);
  }

  // ----- whole runs

  lemma StepOwn(c: Config, s: State, s': State, p: nat, row: seq<Cell>)
    requires Inv(c, s) && Step(c, s, s', p, row)
    ensures Shape(c, s) && p < c.size && OwnOk(c, s, s', p)
  {
    hide Inv, OwnOk, Shape;
    if UserStep(c, s, s', p, row) { UserOwn(c, s, s', p, row); }
    else if EnterStep(c, s, s', p) { EnterOwn(c, s, s', p); }
    else if StartStep(c, s, s', p) { StartOwn(c, s, s', p); }
    else if ReadyStep(c, s, s', p) { ReadyOwn(c, s, s', p); }
    else if ScanStep(c, s, s', p) { ScanOwn(c, s, s', p); }
    else if AwaitStep(c, s, s', p) { AwaitOwn(c, s, s', p); }
    else if SendStep(c, s, s', p) { SendOwn(c, s, s', p); }
    else if CopyStep(c, s, s', p) { CopyOwn(c, s, s', p); }
    else { NotifyOwn(c, s, s', p); }
  }

  lemma StepOrder(c: Config, s: State, s': State, p: nat, row: seq<Cell>, q: nat)
    requires Inv(c, s) && Step(c, s, s', p, row) && Shape(c, s') && q < c.size
    ensures Order(c, s', q)
  {
    hide Inv, Order, Shape, UserStep, EnterStep, StartStep, ReadyStep, ScanStep, AwaitStep, SendStep, CopyStep, NotifyStep;
    if ReadyStep(c, s, s', p) { ReadyOrder(c, s, s', p, q); }
    else if ScanStep(c, s, s', p) { ScanOrder(c, s, s', p, q); }
    else if AwaitStep(c, s, s', p) { if q == p { AwaitOwnOrder(c, s, s', p); } else { AwaitOrder(c, s, s', p, q); } }
    else if NotifyStep(c, s, s', p) { NotifyOrder(c, s, s', p, q); }
    else if SendStep(c, s, s', p) || CopyStep(c, s, s', p) { CopyOrder(c, s, s', p, q); }
    else { IdleOrder(c, s, s', p, row, q); }
  }

  lemma StepCell(c: Config, s: State, s': State, p: nat, row: seq<Cell>, q: nat, i: nat)
    requires Inv(c, s) && Step(c, s, s', p, row) && Shape(c, s') && q < c.size && i < c.chunks
    ensures CellOk(c, s', q, i) && CopyOk(c, s', q)
  {
    hide Inv, CellOk, CopyOk, Shape, UserStep, EnterStep, StartStep, ReadyStep, ScanStep, AwaitStep, SendStep, CopyStep, NotifyStep;
    if UserStep(c, s, s', p, row) { UserCell(c, s, s', p, row, q, i); }
    else if EnterStep(c, s, s', p) { EnterCell(c, s, s', p, q, i); }
    else if AwaitStep(c, s, s', p) { AwaitCell(c, s, s', p, q, i); }
    else if SendStep(c, s, s', p) { SendCell(c, s, s', p, q, i); }
    else if CopyStep(c, s, s', p) { CopyCell(c, s, s', p, q, i); }
    else if NotifyStep(c, s, s', p) { NotifyCell(c, s, s', p, q, i); }
    else { HandshakeCell(c, s, s', p, q, i); }
  }

  lemma StepRank(c: Config, s: State, s': State, p: nat, row: seq<Cell>, q: nat)
    requires Inv(c, s) && Step(c, s, s', p, row) && p < c.size && q < c.size && c.chunks > 0
    requires Local(c, s, s', p) && StageOk(c, s', p) && Counts(c, s', p)
    ensures RankInv(c, s', q)
  {
    hide Inv, Step, Shape, StageOk, Counts, Order, Buffers, CellOk, CopyOk;
    if q != p { OthersCounts(c, s, s', p, q); }
    StepOrder(c, s, s', p, row, q);
    forall i | 0 <= i < c.chunks ensures CellOk(c, s', q, i) { StepCell(c, s, s', p, row, q, i); }
    StepCell(c, s, s', p, row, q, 0);
    BuffersParts(c, s', q);
  }

  lemma StepInv(c: Config, s: State, s': State, p: nat, row: seq<Cell>)
    requires Inv(c, s) && Step(c, s, s', p, row)
    ensures Inv(c, s')
  {
    StepOwn(c, s, s', p, row);
    hide Step, StageOk, Counts, RankInv;
    forall q | 0 <= q < c.size ensures RankInv(c, s', q) { StepRank(c, s, s', p, row, q); }
  }

  lemma InitInv(c: Config, s: State)
    requires Init(c, s)
    ensures Inv(c, s)
  {}

  lemma {:induction false} RunInv(c: Config, tr: seq<State>, i: nat)
    requires IsRun(c, tr) && i < |tr|
    ensures Inv(c, tr[i])
  {
    if i == 0 {
      InitInv(c, tr[0]);
    } else {
      RunInv(c, tr, i - 1);
      hide Inv, Step;
      assert Next(c, tr[i - 1], tr[i]);
      var p: nat, row :| Step(c, tr[i - 1], tr[i], p, row);
      StepInv(c, tr[i - 1], tr[i], p, row);
    }
  }

  // ----- the theorems

  /** Whatever chunks of its current run a rank has been told of are in its buffer, and stay there for as long
      as it is in that run. */
  lemma ChunksArrive(c: Config, tr: seq<State>, i: nat, p: nat, j: nat)
    requires IsRun(c, tr) && i < |tr| && p < c.size && j < c.chunks
    ensures Shape(c, tr[i])
    ensures p != c.root && j < Got(tr[i].proc[p]) ==> Holds(c, tr[i], p, j)
    ensures p == c.root && !tr[i].proc[p].stage.Outside? ==> Holds(c, tr[i], p, j)
  {
    RunInv(c, tr, i);
    assert RankInv(c, tr[i], p);
    assert Delivered(c, tr[i], p, j) ==> Holds(c, tr[i], p, j);
  }

  /** A rank that returns from the broadcast holds everything the root broadcast in that run. */
  lemma ReturnsWithTheData(c: Config, tr: seq<State>, i: nat, p: nat)
    requires IsRun(c, tr) && i + 1 < |tr| && p < c.size
    ensures Shape(c, tr[i]) && Shape(c, tr[i + 1])
    ensures tr[i + 1].proc[p].run == tr[i].proc[p].run || tr[i + 1].proc[p].run == tr[i].proc[p].run + 1
    ensures tr[i + 1].proc[p].run > tr[i].proc[p].run ==>
              forall j :: 0 <= j < c.chunks ==> tr[i + 1].buf[p][j] == Val(c.data(tr[i].proc[p].run, j))
  {
    RunInv(c, tr, i);
    RunInv(c, tr, i + 1);
    var s, s' := tr[i], tr[i + 1];
    hide Inv, Step;
    assert Next(c, s, s');
    var q: nat, row :| Step(c, s, s', q, row);
    FinishHolds(c, s, s', q, row, p);
    if s'.proc[p].run > s.proc[p].run {
      forall j | 0 <= j < c.chunks ensures s'.buf[p][j] == Val(c.data(s.proc[p].run, j)) { assert Holds(c, s, p, j); }
    }
  }

  lemma FinishHolds(c: Config, s: State, s': State, q: nat, row: seq<Cell>, p: nat)
    requires Inv(c, s) && Step(c, s, s', q, row) && Shape(c, s') && p < c.size
    ensures s'.proc[p].run == s.proc[p].run || s'.proc[p].run == s.proc[p].run + 1
    ensures s'.proc[p].run > s.proc[p].run ==> p == q && s'.buf == s.buf
    ensures s'.proc[p].run > s.proc[p].run ==> forall j :: 0 <= j < c.chunks ==> Holds(c, s, p, j)
  {
    hide Buffers, Counts, RankInv, Holds;
    if s'.proc[p].run > s.proc[p].run {
      forall j | 0 <= j < c.chunks ensures Holds(c, s, p, j) { LastHolds(c, s, s', p, j); }
    }
  }

  lemma LastHolds(c: Config, s: State, s': State, p: nat, j: nat)
    requires Inv(c, s) && p < c.size && j < c.chunks
    requires AwaitStep(c, s, s', p) || NotifyStep(c, s, s', p)
    requires s'.proc[p].run > s.proc[p].run
    ensures Holds(c, s, p, j)
  {
    if AwaitStep(c, s, s', p) { AwaitExact(c, s, p); }
    hide Counts;
    assert RankInv(c, s, p);
    assert Delivered(c, s, p, j) ==> Holds(c, s, p, j);
  }

  /** Nobody touches a chunk that is being copied: the rank it goes to is in the same run, has not been told of
      it, and sends only earlier chunks, and the rank it comes from keeps its own copy. */
  lemma CopiesAreAlone(c: Config, tr: seq<State>, i: nat, p: nat)
    requires IsRun(c, tr) && i < |tr| && p < c.size && c.size > 1
    ensures Shape(c, tr[i])
    ensures tr[i].proc[p].stage.Copying? ==>
              var a, b := tr[i].proc[p], tr[i].proc[c.Succ(p)];
              b.run == a.run && (b.stage.Scan? || b.stage.Await? || Sending(b)) && Got(b) <= a.stage.c < c.chunks
              && c.Succ(p) != c.root && tr[i].buf[p][a.stage.c] == a.stage.src
  {
    RunInv(c, tr, i);
    var s := tr[i];
    assert RankInv(c, s, p) && RankInv(c, s, c.Succ(p));
    if s.proc[p].stage.Copying? {
      SendsAhead(c, s, p);
      SrcHolds(c, s, p);
    }
  }

  // ----- progress

  // Rank p can take a step inside the broadcast.
  ghost predicate CanStep(c: Config, s: State, p: nat) { exists s' :: InnerStep(c, s, s', p) }

  ghost predicate ScanTest(c: Config, s: State, p: nat)
    requires Shape(c, s) && p < c.size && s.proc[p].stage.Scan?
  {
    var i := s.proc[p].stage.i;
    i >= c.size || i == p || s.nr[p] <= s.nr[i]
  }

  lemma FreeToStep(c: Config, s: State, p: nat)
    requires Inv(c, s) && p < c.size
    requires Sending(s.proc[p]) || s.proc[p].stage.Ready? || (s.proc[p].stage.Await? && AwaitTest(c, s, p))
             || (s.proc[p].stage.Scan? && ScanTest(c, s, p))
             || (s.proc[p].stage.Start? && (p == c.root || s.no[c.root][c.root] > s.no[c.root][p]))
    ensures CanStep(c, s, p)
  {
    hide Buffers, Counts, Order;
    assert RankInv(c, s, p);
    var s' := match s.proc[p].stage
      case Outside => s
      case Start => Go(Bump(s, c.root, p), p, Ready)
      case Ready => Go(s.(nr := s.nr[p := s.nr[p] + 1]), p, if p == c.root then Scan(0) else Await(0))
      case Scan(i) => Go(s, p, if i < c.size then Scan(i + 1) else Send(0))
      case Await(i) =>
        var t := Bump(s, c.Prev(p), p);
        if c.Sends(p) then Go(t, p, Send(i)) else After(c, t, p, i)
      case Send(i) => Go(if c.Succ(p) == p then s else SetCell(s, c.Succ(p), i, Torn), p, Copying(i, s.buf[p][i]))
      case Copying(i, src) => Go(SetCell(s, c.Succ(p), i, if s.buf[p][i] == src then src else Torn), p, Notify(i))
      case Notify(i) => After(c, Bump(s, p, p), p, i);
    assert InnerStep(c, s, s', p);
  }

  // The distance of p from the root along the ring.
  function FromRoot(c: Config, p: nat): (d: nat)
    requires c.Ok() && p < c.size
    ensures d == 0 <==> p == c.root
    ensures p != c.root ==> c.Prev(p) < c.size
  {
    if p >= c.root then p - c.root else p + c.size - c.root
  }

  /** A rank that waits for a chunk can get it, or a rank between it and the root can take a step, unless the
      root has not come to that run yet. */
  lemma {:induction false} ChainMoves(c: Config, s: State, p: nat) returns (q: nat)
    requires Inv(c, s) && p < c.size && s.proc[p].stage.Await?
    requires s.proc[c.root].run > s.proc[p].run || Sending(s.proc[c.root])
    requires forall r :: 0 <= r < c.size && s.proc[r].run <= s.proc[p].run ==> !s.proc[r].stage.Outside?
    ensures q < c.size && CanStep(c, s, q)
    decreases FromRoot(c, p)
  {
    AwaitExact(c, s, p);
    if AwaitTest(c, s, p) {
      FreeToStep(c, s, p);
      q := p;
    } else {
      var o := c.Prev(p);
      assert RankInv(c, s, p) && RankInv(c, s, o) && RankInv(c, s, c.root);
      if Sending(s.proc[o]) {
        FreeToStep(c, s, o);
        q := o;
      } else {
        q := ChainMoves(c, s, o);
      }
    }
  }

  /** No reachable state is stuck: if every rank outside the broadcast has made all its runs, and some rank is
      still inside, then some rank can take a step. */
  lemma NeverStuck(c: Config, tr: seq<State>, i: nat, runs: nat, p: nat)
    requires IsRun(c, tr) && i < |tr| && p < c.size && Shape(c, tr[i])
    requires forall q :: 0 <= q < c.size ==> if tr[i].proc[q].stage.Outside? then tr[i].proc[q].run == runs else tr[i].proc[q].run < runs
    requires !tr[i].proc[p].stage.Outside?
    ensures exists q: nat, s' :: InnerStep(c, tr[i], s', q)
  {
    RunInv(c, tr, i);
    var q := SomeoneMoves(c, tr[i], runs, p);
    var s' :| InnerStep(c, tr[i], s', q);
  }

  lemma SomeoneMoves(c: Config, s: State, runs: nat, p: nat) returns (q: nat)
    requires Inv(c, s) && p < c.size && !s.proc[p].stage.Outside?
    requires forall q :: 0 <= q < c.size ==> if s.proc[q].stage.Outside? then s.proc[q].run == runs else s.proc[q].run < runs
    ensures q < c.size && CanStep(c, s, q)
  {
    var r := s.proc[c.root];
    assert RankInv(c, s, c.root) && RankInv(c, s, p);
    if Sending(r) || r.stage.Start? || r.stage.Ready? {
      FreeToStep(c, s, c.root);
      q := c.root;
    } else if r.stage.Outside? {
      q := InsideMoves(c, s, p);
    } else {
      var i := r.stage.i;
      if ScanTest(c, s, c.root) {
        FreeToStep(c, s, c.root);
        q := c.root;
      } else {
        assert RankInv(c, s, i);
        q := InsideMoves(c, s, i);
      }
    }
  }

  // Rank p is what the root waits for, or what is left behind when the root has returned.
  lemma InsideMoves(c: Config, s: State, p: nat) returns (q: nat)
    requires Inv(c, s) && p < c.size && p != c.root && !s.proc[p].stage.Outside?
    requires var r := s.proc[c.root];
             (r.stage.Outside? && s.proc[p].run < r.run) || (r.stage.Scan? && !ReadyFor(s.proc[p], r.run))
    requires forall q :: 0 <= q < c.size && s.proc[q].run < s.proc[c.root].run ==> !s.proc[q].stage.Outside?
    ensures q < c.size && CanStep(c, s, q)
  {
    assert RankInv(c, s, p) && RankInv(c, s, c.root);
    var a := s.proc[p];
    if a.stage.Await? {
      q := ChainMoves(c, s, p);
    } else {
      RunsApart(a.run, s.proc[c.root].run, c.chunks + 1);
      FreeToStep(c, s, p);
      q := p;
    }
  }
}
