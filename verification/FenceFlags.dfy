/** Where a rank's fence flags lie in its window: three slots of one flag per rank for the peer fences, and
    behind them three slots of a single flag for the fence between all ranks. Every flag has a cache line of
    its own. */
module FenceFlags {
  import opened Division

  const SLOTS := 3

  // The byte offset of a flag in a window of a communicator of size ranks.
  function Offset(size: nat, line: nat, comm: bool, rank: nat, idx: nat): nat {
    if comm then line * SLOTS * size + (idx * line * 1 + rank * line) else idx * line * size + rank * line
  }

  function WindowSize(size: nat, line: nat): nat { line * SLOTS * (size + 1) }

  // The flags that the fences use: the fence between all ranks always passes rank 0.
  predicate Used(size: nat, comm: bool, rank: nat, idx: nat) { idx < SLOTS && (if comm then rank == 0 else rank < size) }

  // The number of the cache line of a flag.
  function Line(size: nat, comm: bool, rank: nat, idx: nat): nat {
    if comm then SLOTS * size + idx + rank else idx * size + rank
  }

  lemma OffsetIsLine(size: nat, line: nat, comm: bool, rank: nat, idx: nat)
    ensures Offset(size, line, comm, rank, idx) == Line(size, comm, rank, idx) * line
  {
    if comm {
      assert (SLOTS * size + idx + rank) * line == SLOTS * size * line + idx * line + rank * line;
      assert line * SLOTS * size == SLOTS * size * line;
    } else {
      assert (idx * size + rank) * line == idx * size * line + rank * line;
      assert idx * line * size == idx * size * line;
    }
  }

  lemma LinesDiffer(size: nat, comm: bool, rank: nat, idx: nat, comm': bool, rank': nat, idx': nat)
    requires Used(size, comm, rank, idx) && Used(size, comm', rank', idx')
    requires Line(size, comm, rank, idx) == Line(size, comm', rank', idx')
    ensures comm == comm' && rank == rank' && idx == idx'
  {
    if !comm { MulOrder(idx + 1, SLOTS, size); assert (idx + 1) * size == idx * size + size; }
    if !comm' { MulOrder(idx' + 1, SLOTS, size); assert (idx' + 1) * size == idx' * size + size; }
    if !comm && !comm' { QuotUnique(size, idx, rank, idx', rank'); }
  }

  /** The flags in use lie in the window. */
  lemma FlagInside(size: nat, line: nat, comm: bool, rank: nat, idx: nat)
    requires Used(size, comm, rank, idx)
    ensures Offset(size, line, comm, rank, idx) + line <= WindowSize(size, line)
  {
    OffsetIsLine(size, line, comm, rank, idx);
    LineBound(size, comm, rank, idx);
    hide Offset, Line;
    MulOrder(Line(size, comm, rank, idx), SLOTS * (size + 1), line);
    assert SLOTS * (size + 1) * line == WindowSize(size, line);
  }

  /** Each flag in use has a cache line of its own. */
  lemma FlagsApart(size: nat, line: nat, comm: bool, rank: nat, idx: nat, comm': bool, rank': nat, idx': nat)
    requires Used(size, comm, rank, idx) && Used(size, comm', rank', idx') && (comm, rank, idx) != (comm', rank', idx')
    ensures Offset(size, line, comm, rank, idx) + line <= Offset(size, line, comm', rank', idx')
            || Offset(size, line, comm', rank', idx') + line <= Offset(size, line, comm, rank, idx)
  {
    OffsetIsLine(size, line, comm, rank, idx);
    OffsetIsLine(size, line, comm', rank', idx');
    hide Offset, Line;
    var a, b := Line(size, comm, rank, idx), Line(size, comm', rank', idx');
    if a == b { LinesDiffer(size, comm, rank, idx, comm', rank', idx'); }
    MulOrder(a, b, line);
    MulOrder(b, a, line);
  }

  lemma LineBound(size: nat, comm: bool, rank: nat, idx: nat)
    requires Used(size, comm, rank, idx)
    ensures Line(size, comm, rank, idx) < SLOTS * (size + 1)
  {
    if !comm { MulOrder(idx + 1, SLOTS, size); assert (idx + 1) * size == idx * size + size; }
  }

  /** In the fence between all ranks, flag idx of rank r lies where slot idx + r of rank 0 lies: behind the window, or
      if idx + r is below 3 on a flag that rank 0 uses. So only one rank's flags have room there. */
  lemma OneFlagPerSlot(size: nat, line: nat, rank: nat, idx: nat)
    requires line > 0
    ensures Offset(size, line, true, rank, idx) == Offset(size, line, true, 0, idx + rank)
    ensures Offset(size, line, true, rank, idx) + line <= WindowSize(size, line) <==> idx + rank < SLOTS
  {
    OffsetIsLine(size, line, true, rank, idx);
    OffsetIsLine(size, line, true, 0, idx + rank);
    var a := Line(size, true, rank, idx);
    hide Offset;
    MulOrder(a, SLOTS * (size + 1), line);
    MulOrder(SLOTS * (size + 1), a, line);
    assert SLOTS * (size + 1) * line == WindowSize(size, line);
  }

  /** One rank's window, zeroed when it is made. */
  class Window {
    const size: nat
    const line: nat
    var words: map<nat, int>    // the words of the window, by byte offset; those never written are zero

    ghost predicate Valid() { size > 0 && line > 0 }

    constructor (size: nat, line: nat)
      requires size > 0 && line > 0
      ensures Valid() && this.size == size && this.line == line
      ensures forall comm, rank: nat, idx: nat {:trigger Used(size, comm, rank, idx)} :: Used(size, comm, rank, idx) ==> Flag(comm, rank, idx) == 0
    {
      this.size, this.line := size, line;
      words := map[];
    }

    function Word(offset: nat): int
      reads this
    {
      if offset in words then words[offset] else 0
    }

    ghost function Flag(comm: bool, rank: nat, idx: nat): int
      reads this
    {
      Word(Offset(size, line, comm, rank, idx))
    }

    /** Setting a flag changes that flag and no other in use. */
    method SetFlag(comm: bool, rank: nat, idx: nat, val: int)
      requires Valid() && Used(size, comm, rank, idx)
      modifies this
      ensures Flag(comm, rank, idx) == val
      ensures forall c, r: nat, i: nat {:trigger Flag(c, r, i)} ::
                Used(size, c, r, i) && (c, r, i) != (comm, rank, idx) ==> Flag(c, r, i) == old(Flag(c, r, i))
    {
      var base := if comm then line * SLOTS * size else 0;
      var factor := if comm then 1 else size;
      var flag := base + idx * line * factor + rank * line;
      assert flag == Offset(size, line, comm, rank, idx);
      words := words[flag := val];
      forall c, r: nat, i: nat {:trigger Flag(c, r, i)} | Used(size, c, r, i) && (c, r, i) != (comm, rank, idx)
        ensures Offset(size, line, c, r, i) != flag
      {
        FlagsApart(size, line, comm, rank, idx, c, r, i);
      }
      hide Offset;
    }

    method GetFlag(comm: bool, rank: nat, idx: nat) returns (val: int)
      requires Valid() && Used(size, comm, rank, idx)
      ensures val == Flag(comm, rank, idx)
    {
      var base := if comm then line * SLOTS * size else 0;
      var factor := if comm then 1 else size;
      val := Word(base + idx * line * factor + rank * line);
    }
  }
}
