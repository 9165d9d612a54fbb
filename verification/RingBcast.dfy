/** The ring-pipelined broadcast. The root announces a start, waits until every rank has announced itself
    ready, and passes its chunks to the next rank; every rank but the last passes each chunk on. All
    handshakes are counters that only grow: in the window of rank w, counter i is advanced by rank i alone.
    The root's start-up and its chunks advance one and the same counter, so from the second run on other
    ranks may get through the start-up early; the ready counters make that harmless.

    A chunk is one cell. Copying it takes two transitions, between which the target is torn, and a source
    that changes meanwhile leaves the target torn for good. */
module RingBcast {
  import opened Division

  // data(k, i) is chunk i of what the root broadcasts in its run k.
  datatype Config = Config(size: nat, root: nat, chunks: nat, data: (nat, nat) -> int) {
    // A broadcast of no bytes is refused before it begins.
    predicate Ok() { root < size && chunks > 0 }

    function Succ(p: nat): (r: nat)
      requires p < size
      ensures r == if p + 1 == size then 0 else p + 1
    {
      DivModUnique(p + 1, size, if p + 1 == size then 1 else 0, if p + 1 == size then 0 else p + 1);
      (p + 1) % size
    }

    function Prev(p: nat): (r: nat)
      requires p < size
      ensures r == if p == 0 then size - 1 else p - 1
    {
      DivModUnique(p - 1 + size, size, if p == 0 then 0 else 1, if p == 0 then size - 1 else p - 1);
      (p - 1 + size) % size
    }

    // The last rank of the ring keeps its chunks to itself.
    predicate Sends(p: nat)
      requires Ok() && p < size
    {
      p == root || p != Prev(root)
    }
  }

  datatype Cell = Torn | Val(v: int)

  datatype Stage =
    | Outside
    | Start                        // about to pass the start-up
    | Ready                        // about to announce itself ready
    | Scan(i: nat)                 // the root, waiting for rank i to be ready
    | Await(c: nat)                // waiting for chunk c
    | Send(c: nat)                 // about to copy chunk c to the next rank
    | Copying(c: nat, src: Cell)   // in the middle of it
    | Notify(c: nat)               // about to announce chunk c

  // run counts the broadcasts a rank has returned from.
  datatype Proc = Proc(run: nat, stage: Stage)

  datatype State = State(proc: seq<Proc>, no: seq<seq<int>>, nr: seq<int>, buf: seq<seq<Cell>>)

  ghost predicate Shape(c: Config, s: State) {
    c.Ok() && |s.proc| == |s.no| == |s.nr| == |s.buf| == c.size
    && (forall w :: 0 <= w < c.size ==> |s.no[w]| == c.size)
    && (forall w :: 0 <= w < c.size ==> |s.buf[w]| == c.chunks)
  }

  ghost predicate Init(c: Config, s: State) {
    Shape(c, s)
    && (forall p :: 0 <= p < c.size ==> s.proc[p] == Proc(0, Outside) && s.nr[p] == 0)
    && (forall w, i :: 0 <= w < c.size && 0 <= i < c.size ==> s.no[w][i] == 0)
  }

  // Rank p moves on to stage g.
  function Go(s: State, p: nat, g: Stage): State
    requires p < |s.proc|
  {
    s.(proc := s.proc[p := s.proc[p].(stage := g)])
  }

  // Rank p advances its counter in the window of rank w.
  function Bump(s: State, w: nat, p: nat): State
    requires w < |s.no| && p < |s.no[w]|
  {
    s.(no := s.no[w := s.no[w][p := s.no[w][p] + 1]])
  }

  function SetCell(s: State, p: nat, i: nat, v: Cell): State
    requires p < |s.buf| && i < |s.buf[p]|
  {
    s.(buf := s.buf[p := s.buf[p][i := v]])
  }

  // What follows chunk i in the loop of rank p.
  function After(c: Config, s: State, p: nat, i: nat): State
    requires p < |s.proc|
  {
    if i + 1 < c.chunks then Go(s, p, if p == c.root then Send(i + 1) else Await(i + 1))
    else s.(proc := s.proc[p := Proc(s.proc[p].run + 1, Outside)])
  }

  // The user of a rank may do as it likes with its buffer between two broadcasts.
  ghost predicate UserStep(c: Config, s: State, s': State, p: nat, row: seq<Cell>) {
    Shape(c, s) && p < c.size && s.proc[p].stage.Outside? && |row| == c.chunks
    && s' == s.(buf := s.buf[p := row])
  }

  // The root's user has put the data of this run into the buffer.
  ghost predicate EnterStep(c: Config, s: State, s': State, p: nat) {
    Shape(c, s) && p < c.size && s.proc[p].stage.Outside?
    && (p == c.root ==> forall i :: 0 <= i < c.chunks ==> s.buf[p][i] == Val(c.data(s.proc[p].run, i)))
    && s' == Go(s, p, Start)
  }

  ghost predicate StartStep(c: Config, s: State, s': State, p: nat) {
    Shape(c, s) && p < c.size && s.proc[p].stage.Start?
    && (p != c.root ==> s.no[c.root][c.root] > s.no[c.root][p])
    && s' == Go(Bump(s, c.root, p), p, Ready)
  }

  ghost predicate ReadyStep(c: Config, s: State, s': State, p: nat) {
    Shape(c, s) && p < c.size && s.proc[p].stage.Ready?
    && s' == Go(s.(nr := s.nr[p := s.nr[p] + 1]), p, if p == c.root then Scan(0) else Await(0))
  }

  ghost predicate ScanStep(c: Config, s: State, s': State, p: nat) {
    Shape(c, s) && p < c.size && s.proc[p].stage.Scan?
    && var i := s.proc[p].stage.i;
       if i < c.size then (i == p || s.nr[p] <= s.nr[i]) && s' == Go(s, p, Scan(i + 1))
       else s' == Go(s, p, Send(0))
  }

  ghost predicate AwaitTest(c: Config, s: State, p: nat)
    requires Shape(c, s) && p < c.size
  {
    s.no[c.Prev(p)][c.Prev(p)] > s.no[c.Prev(p)][p]
  }

  ghost predicate AwaitStep(c: Config, s: State, s': State, p: nat) {
    Shape(c, s) && p < c.size && s.proc[p].stage.Await? && AwaitTest(c, s, p)
    && var t := Bump(s, c.Prev(p), p);
       s' == if c.Sends(p) then Go(t, p, Send(s.proc[p].stage.c)) else After(c, t, p, s.proc[p].stage.c)
  }

  // A ring of one rank copies the buffer onto itself.
  ghost predicate SendStep(c: Config, s: State, s': State, p: nat) {
    Shape(c, s) && p < c.size && s.proc[p].stage.Send? && s.proc[p].stage.c < c.chunks
    && var i, q := s.proc[p].stage.c, c.Succ(p);
       s' == Go(if q == p then s else SetCell(s, q, i, Torn), p, Copying(i, s.buf[p][i]))
  }

  ghost predicate CopyStep(c: Config, s: State, s': State, p: nat) {
    Shape(c, s) && p < c.size && s.proc[p].stage.Copying? && s.proc[p].stage.c < c.chunks
    && var i, src := s.proc[p].stage.c, s.proc[p].stage.src;
       s' == Go(SetCell(s, c.Succ(p), i, if s.buf[p][i] == src then src else Torn), p, Notify(i))
  }

  ghost predicate NotifyStep(c: Config, s: State, s': State, p: nat) {
    Shape(c, s) && p < c.size && s.proc[p].stage.Notify?
    && s' == After(c, Bump(s, p, p), p, s.proc[p].stage.c)
  }

  // A transition inside the broadcast.
  ghost predicate InnerStep(c: Config, s: State, s': State, p: nat) {
    StartStep(c, s, s', p) || ReadyStep(c, s, s', p) || ScanStep(c, s, s', p) || AwaitStep(c, s, s', p)
    || SendStep(c, s, s', p) || CopyStep(c, s, s', p) || NotifyStep(c, s, s', p)
  }

  ghost predicate Step(c: Config, s: State, s': State, p: nat, row: seq<Cell>) {
    UserStep(c, s, s', p, row) || EnterStep(c, s, s', p) || InnerStep(c, s, s', p)
  }

  ghost predicate Next(c: Config, s: State, s': State) {
    exists p: nat, row: seq<Cell> :: Step(c, s, s', p, row)
  }

  ghost predicate IsRun(c: Config, tr: seq<State>) {
    |tr| > 0 && Init(c, tr[0]) && forall i :: 0 <= i < |tr| - 1 ==> Next(c, tr[i], tr[i + 1])
  }

  // ----- what a rank has done of its current run

  function Started(a: Proc): nat { if a.stage.Outside? || a.stage.Start? then 0 else 1 }

  function Readied(a: Proc): nat { if a.stage.Outside? || a.stage.Start? || a.stage.Ready? then 0 else 1 }

  predicate Sending(a: Proc) { a.stage.Send? || a.stage.Copying? || a.stage.Notify? }

  // Chunks announced to the next rank, for a rank that sends.
  function Sent(a: Proc): nat { if Sending(a) || a.stage.Await? then a.stage.c else 0 }

  // Chunks received, for a rank that is not the root.
  function Got(a: Proc): nat { if Sending(a) then a.stage.c + 1 else if a.stage.Await? then a.stage.c else 0 }

  // Chunk i of run k has been announced by rank a.
  predicate Announced(a: Proc, k: nat, i: nat) { k < a.run || (k == a.run && i < Sent(a)) }

  // What q has received, rank p has announced.
  predicate Behind(q: Proc, p: Proc) { q.run < p.run || (q.run == p.run && Got(q) <= Sent(p)) }

  // ----- the invariant

  ghost predicate StageOk(c: Config, s: State, p: nat)
    requires Shape(c, s) && p < c.size
  {
    var a := s.proc[p];
    (a.stage.Scan? ==> p == c.root && a.stage.i <= c.size)
    && (a.stage.Await? ==> p != c.root && a.stage.c < c.chunks)
    && (Sending(a) ==> c.Sends(p) && a.stage.c < c.chunks)
  }

  ghost predicate Counts(c: Config, s: State, p: nat)
    requires Shape(c, s) && p < c.size
  {
    var a := s.proc[p];
    s.nr[p] == a.run + Readied(a)
    && (if p == c.root then
          s.no[p][p] == (c.chunks + 1) * a.run + Started(a) + Sent(a)
        else
          (c.Sends(p) ==> s.no[p][p] == c.chunks * a.run + Sent(a))
          && (if c.Prev(p) == c.root then s.no[c.root][p] == (c.chunks + 1) * a.run + Started(a) + Got(a)
              else s.no[c.root][p] == a.run + Started(a) && s.no[c.Prev(p)][p] == c.chunks * a.run + Got(a)))
  }

  // Rank p is ready for run k, or past it.
  predicate ReadyFor(a: Proc, k: nat) { a.run + Readied(a) >= k + 1 }

  ghost predicate Order(c: Config, s: State, p: nat)
    requires Shape(c, s) && p < c.size
  {
    var a, r := s.proc[p], s.proc[c.root];
    (p != c.root ==> Behind(a, s.proc[c.Prev(p)]) && Behind(a, r))
    && a.run + Readied(a) >= r.run
    && (Sending(r) ==> ReadyFor(a, r.run))
    && (r.stage.Scan? && p < r.stage.i ==> ReadyFor(a, r.run))
  }

  ghost predicate Holds(c: Config, s: State, p: nat, i: nat)
    requires Shape(c, s) && p < c.size && i < c.chunks
  {
    s.buf[p][i] == Val(c.data(s.proc[p].run, i))
  }

  // Chunk i of p's current run is in p's buffer for good.
  ghost predicate Delivered(c: Config, s: State, p: nat, i: nat)
    requires Shape(c, s) && p < c.size
  {
    if p == c.root then !s.proc[p].stage.Outside? else Announced(s.proc[c.Prev(p)], s.proc[p].run, i)
  }

  ghost predicate Buffers(c: Config, s: State, p: nat)
    requires Shape(c, s) && p < c.size
  {
    var a := s.proc[p];
    (forall i {:trigger Holds(c, s, p, i)} :: 0 <= i < c.chunks && Delivered(c, s, p, i) ==> Holds(c, s, p, i))
    && (a.stage.Copying? && a.stage.c < c.chunks ==> a.stage.src == Val(c.data(a.run, a.stage.c)))
    && (a.stage.Notify? && a.stage.c < c.chunks ==> s.buf[c.Succ(p)][a.stage.c] == Val(c.data(a.run, a.stage.c)))
  }

  ghost predicate RankInv(c: Config, s: State, p: nat)
    requires Shape(c, s) && p < c.size
  {
    StageOk(c, s, p) && Counts(c, s, p) && Order(c, s, p) && Buffers(c, s, p)
  }

  ghost predicate Inv(c: Config, s: State) {
    Shape(c, s) && forall p {:trigger RankInv(c, s, p)} :: 0 <= p < c.size ==> RankInv(c, s, p)
  }

  // ----- the chunks of a buffer of count bytes

  const CHUNK_SIZE := 8192

  function NumChunks(count: nat): nat { CeilDiv(count, CHUNK_SIZE) }

  function ChunkLen(count: nat, i: nat): int {
    if i == NumChunks(count) - 1 then count - i * CHUNK_SIZE else CHUNK_SIZE
  }

  /** Every broadcast that is not refused has chunks. */
  lemma SomeChunks(count: nat)
    ensures NumChunks(count) > 0 <==> count > 0
  {
    CeilDivBounds(count, CHUNK_SIZE);
  }

  /** The chunks tile the buffer: each holds at least one byte and at most a chunk's worth, and a byte lies in
      chunk i exactly when i is its position divided by the chunk size. */
  lemma ChunksTile(count: nat, i: nat, b: nat)
    requires i < NumChunks(count)
    ensures 0 < ChunkLen(count, i) <= CHUNK_SIZE && i * CHUNK_SIZE + ChunkLen(count, i) <= count
    ensures b < count ==> b / CHUNK_SIZE < NumChunks(count)
                          && (i * CHUNK_SIZE <= b < i * CHUNK_SIZE + ChunkLen(count, i) <==> i == b / CHUNK_SIZE)
  {
    CeilDivBounds(count, CHUNK_SIZE);
    DivBounds(b, CHUNK_SIZE);
  }
}
