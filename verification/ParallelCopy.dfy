/** The parallel copies. A 2D copy is cut into shares of bytes that are then moved to cache-line boundaries of
    the source, so neighbouring threads may copy some bytes twice; together they do what the copy row by row does. */
module ParallelCopy {
  import opened Division

  type Byte = bv8

  // Rows of width bytes, spitch apart in the source and dpitch apart in the destination; src is an address.
  datatype Rect = Rect(width: nat, height: nat, spitch: nat, dpitch: nat, src: nat, line: nat) {
    predicate Ok() { 0 < width <= spitch && width <= dpitch && line > 0 }

    function Total(): nat { width * height }
  }

  // Byte b of the rectangle, counted row by row, in the source and in the destination.
  function SrcPos(p: Rect, b: nat): nat
    requires p.Ok()
  {
    Quot(b, p.width) * p.spitch + Rem(b, p.width)
  }

  function DstPos(p: Rect, b: nat): nat
    requires p.Ok()
  {
    Quot(b, p.width) * p.dpitch + Rem(b, p.width)
  }

  // The buffers are long enough for the rectangle.
  ghost predicate Fits(p: Rect, src: seq<Byte>, dst: seq<Byte>)
    requires p.Ok()
  {
    forall b: nat {:trigger SrcPos(p, b)} {:trigger DstPos(p, b)} :: b < p.Total() ==> SrcPos(p, b) < |src| && DstPos(p, b) < |dst|
  }

  lemma RowPos(p: Rect, r: nat, c: nat, b: nat)
    requires p.Ok() && c < p.width && b == r * p.width + c
    ensures SrcPos(p, b) == r * p.spitch + c && DstPos(p, b) == r * p.dpitch + c
  {
    QuotIs(b, p.width, r, c);
    hide Quot, Rem;
  }

  lemma RowIn(p: Rect, r: nat, c: nat, b: nat)
    requires p.Ok() && r < p.height && c < p.width && b == r * p.width + c
    ensures b < p.Total()
  {
    MulOrder(r, p.height, p.width);
  }

  /** The rectangle fits exactly into buffers that hold all rows; they need no room for padding behind the last. */
  lemma FitsExact(p: Rect, src: seq<Byte>, dst: seq<Byte>)
    requires p.Ok()
    ensures Fits(p, src, dst) <==>
            (p.height > 0 ==> (p.height - 1) * p.spitch + p.width <= |src| && (p.height - 1) * p.dpitch + p.width <= |dst|)
  {
    hide Fits;
    if p.height > 0 && Fits(p, src, dst) { LastFits(p, src, dst); }
    if p.height > 0 ==> (p.height - 1) * p.spitch + p.width <= |src| && (p.height - 1) * p.dpitch + p.width <= |dst| {
      AllFit(p, src, dst);
    }
  }

  lemma LastFits(p: Rect, src: seq<Byte>, dst: seq<Byte>)
    requires p.Ok() && p.height > 0 && Fits(p, src, dst)
    ensures (p.height - 1) * p.spitch + p.width <= |src| && (p.height - 1) * p.dpitch + p.width <= |dst|
  {
    var last := p.Total() - 1;
    assert last == (p.height - 1) * p.width + (p.width - 1) by { Commutes(p.height, p.width); }
    RowPos(p, p.height - 1, p.width - 1, last);
    assert SrcPos(p, last) < |src| && DstPos(p, last) < |dst|;
  }

  lemma AllFit(p: Rect, src: seq<Byte>, dst: seq<Byte>)
    requires p.Ok()
    requires p.height > 0 ==> (p.height - 1) * p.spitch + p.width <= |src| && (p.height - 1) * p.dpitch + p.width <= |dst|
    ensures Fits(p, src, dst)
  {
    hide Quot, Rem;
    forall b: nat | b < p.Total() ensures SrcPos(p, b) < |src| && DstPos(p, b) < |dst| {
      QuotRem(b, p.width);
      MulOrder(p.height, Quot(b, p.width), p.width);
      MulOrder(Quot(b, p.width), p.height - 1, p.spitch);
      MulOrder(Quot(b, p.width), p.height - 1, p.dpitch);
    }
  }

  // Different bytes go to different places.
  lemma DstDistinct(p: Rect, a: nat, b: nat)
    requires p.Ok() && DstPos(p, a) == DstPos(p, b)
    ensures a == b
  {
    QuotRem(a, p.width);
    QuotRem(b, p.width);
    hide Quot, Rem;
    QuotUnique(p.dpitch, Quot(a, p.width), Rem(a, p.width), Quot(b, p.width), Rem(b, p.width));
  }

  // ----- what a copy of some bytes does

  ghost predicate Hit(p: Rect, bytes: iset<nat>, k: nat)
    requires p.Ok()
  {
    exists b :: HitBy(p, bytes, k, b)
  }

  ghost predicate HitBy(p: Rect, bytes: iset<nat>, k: nat, b: nat)
    requires p.Ok()
  {
    b in bytes && b < p.Total() && DstPos(p, b) == k
  }

  /** dst is before, except that the given bytes of the rectangle have been copied. */
  ghost predicate Copied(p: Rect, src: seq<Byte>, before: seq<Byte>, dst: seq<Byte>, bytes: iset<nat>)
    requires p.Ok() && Fits(p, src, before)
  {
    |dst| == |before|
    && (forall b: nat {:trigger DstPos(p, b)} :: b in bytes && b < p.Total() ==> dst[DstPos(p, b)] == src[SrcPos(p, b)])
    && (forall k {:trigger dst[k]} :: 0 <= k < |dst| && !Hit(p, bytes, k) ==> dst[k] == before[k])
  }

  // The copied bytes determine the result.
  lemma CopiedUnique(p: Rect, src: seq<Byte>, before: seq<Byte>, d: seq<Byte>, e: seq<Byte>, bytes: iset<nat>, more: iset<nat>)
    requires p.Ok() && Fits(p, src, before) && Copied(p, src, before, d, bytes) && Copied(p, src, before, e, more)
    requires forall b: nat :: b < p.Total() ==> (b in bytes <==> b in more)
    ensures d == e
  {
    forall k | 0 <= k < |d| ensures d[k] == e[k] {
      if Hit(p, bytes, k) {
        var b :| HitBy(p, bytes, k, b);
        assert HitBy(p, more, k, b);
      } else {
        if Hit(p, more, k) {
          var b :| HitBy(p, more, k, b);
          assert HitBy(p, bytes, k, b);
        }
      }
    }
  }

  predicate Within(lo: nat, hi: nat, b: nat) { lo <= b < hi }

  ghost function Between(lo: nat, hi: nat): iset<nat> { iset b: nat | Within(lo, hi, b) }

  lemma CopyMore(p: Rect, src: seq<Byte>, before: seq<Byte>, d: seq<Byte>, e: seq<Byte>, bytes: iset<nat>, more: iset<nat>)
    requires p.Ok() && Fits(p, src, before) && Fits(p, src, d) && Copied(p, src, before, d, bytes) && Copied(p, src, d, e, more)
    ensures Copied(p, src, before, e, bytes + more)
  {
    forall b: nat | b in bytes + more && b < p.Total() ensures e[DstPos(p, b)] == src[SrcPos(p, b)] {
      if b !in more && Hit(p, more, DstPos(p, b)) {
        var x :| HitBy(p, more, DstPos(p, b), x);
        DstDistinct(p, b, x);
      }
    }
    forall k | 0 <= k < |e| && !Hit(p, bytes + more, k) ensures e[k] == before[k] {
      if Hit(p, bytes, k) { var x :| HitBy(p, bytes, k, x); assert HitBy(p, bytes + more, k, x); }
      if Hit(p, more, k) { var x :| HitBy(p, more, k, x); assert HitBy(p, bytes + more, k, x); }
    }
  }

  lemma CopyByte(p: Rect, src: seq<Byte>, d: seq<Byte>, b: nat)
    requires p.Ok() && Fits(p, src, d) && b < p.Total()
    ensures SrcPos(p, b) < |src| && DstPos(p, b) < |d|
    ensures Copied(p, src, d, d[DstPos(p, b) := src[SrcPos(p, b)]], Between(b, b + 1))
  {
    var e := d[DstPos(p, b) := src[SrcPos(p, b)]];
    forall k | 0 <= k < |e| && !Hit(p, Between(b, b + 1), k) ensures e[k] == d[k] {
      assert k == DstPos(p, b) ==> HitBy(p, Between(b, b + 1), k, b);
    }
  }

  lemma CopyNext(p: Rect, src: seq<Byte>, before: seq<Byte>, d: seq<Byte>, e: seq<Byte>, lo: nat, mid: nat, hi: nat)
    requires p.Ok() && Fits(p, src, before) && Fits(p, src, d) && lo <= mid <= hi
    requires Copied(p, src, before, d, Between(lo, mid)) && Copied(p, src, d, e, Between(mid, hi))
    ensures Copied(p, src, before, e, Between(lo, hi))
  {
    CopyMore(p, src, before, d, e, Between(lo, mid), Between(mid, hi));
    assert Between(lo, mid) + Between(mid, hi) == Between(lo, hi);
  }

  lemma CopyNothing(p: Rect, src: seq<Byte>, d: seq<Byte>, lo: nat)
    requires p.Ok() && Fits(p, src, d)
    ensures Copied(p, src, d, d, Between(lo, lo))
  {}

  // Byte b, in column c of one row.
  method CopyOne(p: Rect, src: seq<Byte>, dst: array<Byte>, row: nat, c: nat, ghost b: nat)
    requires p.Ok() && Fits(p, src, dst[..]) && row < p.height && c < p.width && b == row * p.width + c
    modifies dst
    ensures Copied(p, src, old(dst[..]), dst[..], Between(b, b + 1))
  {
    hide Copied, SrcPos, DstPos, Rect.Total;
    RowPos(p, row, c, b);
    RowIn(p, row, c, b);
    CopyByte(p, src, dst[..], b);
    dst[row * p.dpitch + c] := src[row * p.spitch + c];
    assert dst[..] == old(dst[..])[row * p.dpitch + c := src[row * p.spitch + c]];
  }

  // Columns first to last, last excluded, of one row, whose bytes begin with number base.
  method CopyRow(p: Rect, src: seq<Byte>, dst: array<Byte>, row: nat, first: nat, last: nat, ghost base: nat)
    requires p.Ok() && Fits(p, src, dst[..]) && row < p.height && first <= last <= p.width && base == row * p.width
    modifies dst
    ensures Copied(p, src, old(dst[..]), dst[..], Between(base + first, base + last))
  {
    CopyNothing(p, src, dst[..], base + first);
    hide Copied, Fits, Between;
    for c := first to last
      invariant dst.Length == |old(dst[..])| && Copied(p, src, old(dst[..]), dst[..], Between(base + first, base + c))
    {
      ghost var d := dst[..];
      FitsSame(p, src, old(dst[..]), d);
      CopyOne(p, src, dst, row, c, base + c);
      CopyNext(p, src, old(dst[..]), d, dst[..], base + first, base + c, base + c + 1);
    }
  }

  /** The copy row by row. */
  method CopyByRows(p: Rect, src: seq<Byte>, dst: array<Byte>)
    requires p.Ok() && Fits(p, src, dst[..])
    modifies dst
    ensures Copied(p, src, old(dst[..]), dst[..], Between(0, p.Total()))
  {
    CopyNothing(p, src, dst[..], 0);
    hide Copied, Fits;
    for i := 0 to p.height
      invariant Copied(p, src, old(dst[..]), dst[..], Between(0, i * p.width)) && dst.Length == |old(dst[..])|
    {
      ghost var d := dst[..];
      FitsSame(p, src, old(dst[..]), d);
      CopyRow(p, src, dst, i, 0, p.width, i * p.width);
      assert (i + 1) * p.width == i * p.width + p.width;
      CopyNext(p, src, old(dst[..]), d, dst[..], 0, i * p.width, (i + 1) * p.width);
    }
    assert p.height * p.width == p.Total();
  }

  lemma FitsSame(p: Rect, src: seq<Byte>, d: seq<Byte>, e: seq<Byte>)
    requires p.Ok() && Fits(p, src, d) && |e| == |d|
    ensures Fits(p, src, e)
  {}

  // ----- the shares

  // The start of the row of byte b in memory, and the cache-line boundary at or below byte b.
  function RowStart(p: Rect, b: nat): nat
    requires p.Ok()
  {
    p.src + Quot(b, p.width) * p.spitch
  }

  function LineStart(p: Rect, b: nat): nat
    requires p.Ok()
  {
    Quot(RowStart(p, b) + Rem(b, p.width), p.line) * p.line
  }

  // Byte b moved down to a cache-line boundary, but not out of its row.
  function Adjust(p: Rect, b: nat): nat
    requires p.Ok()
  {
    Quot(b, p.width) * p.width + (if LineStart(p, b) < RowStart(p, b) then 0 else LineStart(p, b) - RowStart(p, b))
  }

  lemma AdjustFacts(p: Rect, b: nat)
    requires p.Ok()
    ensures Quot(b, p.width) * p.width <= Adjust(p, b) <= b
    ensures Rem(b, p.width) == 0 ==> Adjust(p, b) == b
  {
    QuotRem(b, p.width);
    QuotRem(RowStart(p, b) + Rem(b, p.width), p.line);
  }

  lemma AdjustMono(p: Rect, a: nat, b: nat)
    requires p.Ok() && a <= b
    ensures Adjust(p, a) <= Adjust(p, b)
  {
    AdjustFacts(p, a);
    AdjustFacts(p, b);
    QuotRem(a, p.width);
    QuotRem(b, p.width);
    QuotMono(a, b, p.width);
    hide Quot, Rem;
    if Quot(a, p.width) == Quot(b, p.width) {
      var x, y := RowStart(p, a) + Rem(a, p.width), RowStart(p, b) + Rem(b, p.width);
      QuotMono(x, y, p.line);
      MulOrder(Quot(x, p.line), Quot(y, p.line), p.line);
    } else {
      MulOrder(Quot(a, p.width), Quot(b, p.width), p.width);
    }
  }

  // The share of thread t, before adjustment an equal part of all bytes, is from Start to End; an end that falls into the last column is left where it is.
  function Start(p: Rect, threads: nat, t: nat): nat
    requires p.Ok() && threads > 0
  {
    Adjust(p, ShareStart(p.Total(), threads, t))
  }

  function End(p: Rect, threads: nat, t: nat): nat
    requires p.Ok() && threads > 0
  {
    var raw := ShareStart(p.Total(), threads, t + 1);
    if Rem(raw, p.width) != p.width - 1 then Adjust(p, raw) else raw
  }

  // A byte at the start of a row is not moved.
  lemma RowStartStays(p: Rect, r: nat)
    requires p.Ok()
    ensures Adjust(p, r * p.width) == r * p.width
  {
    QuotIs(r * p.width, p.width, r, 0);
    AdjustFacts(p, r * p.width);
  }

  // Moving byte b back: to where the cache line of its source byte begins, or its row if that is later.
  lemma AdjustLine(p: Rect, b: nat)
    requires p.Ok()
    ensures var a := Adjust(p, b);
            a <= b < a + p.line && Quot(a, p.width) == Quot(b, p.width)
            && (Rem(a, p.width) == 0 || Rem(p.src + SrcPos(p, a), p.line) == 0)
  {
    var q, r, row, first := Quot(b, p.width), Rem(b, p.width), RowStart(p, b), LineStart(p, b);
    QuotRem(b, p.width);
    QuotRem(row + r, p.line);
    var off := if first < row then 0 else first - row;
    var a := Adjust(p, b);
    assert a == q * p.width + off && first <= row + r < first + p.line;
    QuotIs(a, p.width, q, off);
    if first >= row { QuotIs(first, p.line, Quot(row + r, p.line), 0); }
    assert p.src + SrcPos(p, a) == row + off;
  }

  /** A thread's share begins less than a cache line before its even share of the bytes, in the same row, and there
      either the row or a cache line of the source begins. */
  lemma SharesBeginAtLines(p: Rect, threads: nat, t: nat)
    requires p.Ok() && t < threads
    ensures var a, raw := Start(p, threads, t), ShareStart(p.Total(), threads, t);
            a <= raw < a + p.line && Quot(a, p.width) == Quot(raw, p.width)
            && (Rem(a, p.width) == 0 || Rem(p.src + SrcPos(p, a), p.line) == 0)
  {
    AdjustLine(p, ShareStart(p.Total(), threads, t));
  }

  lemma EndBounds(p: Rect, threads: nat, t: nat)
    requires p.Ok() && threads > 0
    ensures var raw := ShareStart(p.Total(), threads, t + 1); Adjust(p, raw) <= End(p, threads, t) <= raw
    ensures var raw := ShareStart(p.Total(), threads, t + 1); Adjust(p, raw) == raw ==> End(p, threads, t) == raw
  {
    hide Adjust, ShareStart;
    AdjustFacts(p, ShareStart(p.Total(), threads, t + 1));
  }

  lemma Commutes(a: nat, b: nat)
    ensures a * b == b * a
  {}

  /** The shares begin at the first byte, end behind the last, and leave no gap; they may overlap. */
  lemma SharesFollow(p: Rect, threads: nat, t: nat)
    requires p.Ok() && t < threads
    ensures Start(p, threads, 0) == 0 && End(p, threads, threads - 1) == p.Total()
    ensures Start(p, threads, t) <= End(p, threads, t) <= p.Total() && Start(p, threads, t + 1) <= End(p, threads, t)
  {
    var total := p.Total();
    var raw, next := ShareStart(total, threads, t), ShareStart(total, threads, t + 1);
    assert Start(p, threads, t) == Adjust(p, raw) && Start(p, threads, t + 1) == Adjust(p, next) && Start(p, threads, 0) == Adjust(p, ShareStart(total, threads, 0));
    assert 0 * p.width == 0 && p.height * p.width == total by { Commutes(p.height, p.width); }
    hide *;
    ShareFacts(total, threads, t);
    ShareMono(total, threads, t, t + 1);
    ShareMono(total, threads, t + 1, threads);
    RowStartStays(p, p.height);
    RowStartStays(p, 0);
    EndBounds(p, threads, t);
    EndBounds(p, threads, threads - 1);
    AdjustMono(p, raw, next);
  }

  /** Every byte is in some thread's share. */
  lemma {:induction false} SharesCover(p: Rect, threads: nat, b: nat, n: nat) returns (t: nat)
    requires p.Ok() && 0 < n <= threads && b < End(p, threads, n - 1)
    ensures t < n && Start(p, threads, t) <= b < End(p, threads, t)
  {
    SharesFollow(p, threads, 0);
    if b >= Start(p, threads, n - 1) {
      t := n - 1;
    } else {
      SharesFollow(p, threads, n - 2);
      t := SharesCover(p, threads, b, n - 1);
    }
  }

  // A byte moved down to a cache-line boundary, as the program computes it.
  method AlignByte(p: Rect, b: nat) returns (r: nat)
    requires p.Ok()
    ensures r == Adjust(p, b)
  {
    var row, col := DivRem(b, p.width);
    var lineNumber, rest := DivRem(p.src + row * p.spitch + col, p.line);
    var addr := lineNumber * p.line;
    if addr < p.src + row * p.spitch {
      r := row * p.width;
    } else {
      r := addr - p.src - row * p.spitch + row * p.width;
    }
  }

  // The bytes of a share before adjustment, as the program computes them.
  method RawBounds(total: nat, t: nat, threads: nat) returns (start: nat, end: nat)
    requires t < threads
    ensures start == ShareStart(total, threads, t) && end == ShareStart(total, threads, t + 1)
  {
    ShareFacts(total, threads, t);
    var each, remainder := DivRem(total, threads);
    hide Quot, Rem;
    start := t * each + Min(t, remainder);
    end := start + each + if t < remainder then 1 else 0;
  }

  // The bounds of a share, as the program computes them.
  method ShareBounds(p: Rect, t: nat, threads: nat) returns (start: nat, end: nat)
    requires p.Ok() && t < threads
    ensures start == Start(p, threads, t) && end == End(p, threads, t)
  {
    hide Adjust, Quot, Rem, ShareStart;
    start, end := RawBounds(p.width * p.height, t, threads);
    start := AlignByte(p, start);
    var row, col := DivRem(end, p.width);
    if col != p.width - 1 {
      end := AlignByte(p, end);
    }
  }

  /** One thread's part of the parallel copy. */
  method CopyShare(p: Rect, src: seq<Byte>, dst: array<Byte>, t: nat, threads: nat)
    requires p.Ok() && Fits(p, src, dst[..]) && t < threads
    modifies dst
    ensures Copied(p, src, old(dst[..]), dst[..], Between(Start(p, threads, t), End(p, threads, t)))
  {
    hide Copied, Fits, Start, End, SrcPos, DstPos, Quot, Rem;
    var start, end := ShareBounds(p, t, threads);
    SharesFollow(p, threads, t);
    var startRow, startCol := DivRem(start, p.width);
    var endRow, endCol := DivRem(end, p.width);
    QuotRem(start, p.width);
    QuotRem(end, p.width);
    QuotMono(start, end, p.width);
    CopyNothing(p, src, dst[..], start);
    ghost var done: nat := start;
    for row := startRow to endRow + 1
      invariant Copied(p, src, old(dst[..]), dst[..], Between(start, done)) && dst.Length == |old(dst[..])|
      invariant done == RowEdge(p, start, end, startRow, endRow, row)
    {
      var colStart := if row == startRow then startCol else 0;
      var colEnd := if row == endRow then endCol else p.width;
      RowStep(p, start, end, startRow, endRow, row, colStart, colEnd);
      FitsSame(p, src, old(dst[..]), dst[..]);
      if colEnd > colStart {
        ghost var d := dst[..];
        CopyRow(p, src, dst, row, colStart, colEnd, row * p.width);
        CopyNext(p, src, old(dst[..]), d, dst[..], start, row * p.width + colStart, row * p.width + colEnd);
      }
      done := row * p.width + colEnd;
    }
  }

  // Where the copy of a share stands before it comes to a row.
  ghost function RowEdge(p: Rect, start: nat, end: nat, startRow: nat, endRow: nat, row: nat): nat {
    if row == startRow then start else if row == endRow + 1 then end else row * p.width
  }

  lemma RowNumbers(w: nat, h: nat, start: nat, end: nat, first: nat, r: nat, last: nat, q: nat, row: nat)
    requires start == first * w + r && r < w && end == last * w + q && q < w && start <= end <= h * w && first <= row <= last
    ensures row > first ==> row * w >= start
    ensures row == first == last ==> r <= q
    ensures row < last ==> (row + 1) * w == row * w + w
    ensures row < last || q > 0 ==> row < h
  {
    MulOrder(first, row, w);
    MulOrder(h, row, w);
    MulOrder(row, last, w);
    assert (row + 1) * w == row * w + w;
  }

  lemma RowStep(p: Rect, start: nat, end: nat, startRow: nat, endRow: nat, row: nat, colStart: nat, colEnd: nat)
    requires p.Ok() && start <= end <= p.Total() && startRow <= row <= endRow
    requires startRow == Quot(start, p.width) && endRow == Quot(end, p.width)
    requires colStart == if row == startRow then Rem(start, p.width) else 0
    requires colEnd == if row == endRow then Rem(end, p.width) else p.width
    ensures RowEdge(p, start, end, startRow, endRow, row) == row * p.width + colStart >= start
    ensures RowEdge(p, start, end, startRow, endRow, row + 1) == row * p.width + colEnd
    ensures colStart <= colEnd <= p.width && (colStart < colEnd ==> row < p.height)
  {
    QuotRem(start, p.width);
    QuotRem(end, p.width);
    assert p.Total() == p.height * p.width by { Commutes(p.height, p.width); }
    RowNumbers(p.width, p.height, start, end, startRow, Rem(start, p.width), endRow, Rem(end, p.width), row);
    hide Quot, Rem;
  }

  // ----- all threads together

  ghost function Elements(ws: seq<nat>): iset<nat> { iset w: nat | w in ws }

  ghost predicate AllBelow(ws: seq<nat>, n: nat) { forall i :: 0 <= i < |ws| ==> ws[i] < n }

  // The writes of single bytes, in some order.
  ghost function Apply(p: Rect, src: seq<Byte>, d: seq<Byte>, ws: seq<nat>): (e: seq<Byte>)
    requires p.Ok() && Fits(p, src, d) && AllBelow(ws, p.Total())
    ensures |e| == |d|
    decreases |ws|
  {
    if ws == [] then d
    else
      var w := ws[|ws| - 1];
      Apply(p, src, d, ws[..|ws| - 1])[DstPos(p, w) := src[SrcPos(p, w)]]
  }

  lemma ElementsSnoc(ws: seq<nat>)
    requires ws != []
    ensures Elements(ws[..|ws| - 1]) + Between(ws[|ws| - 1], ws[|ws| - 1] + 1) == Elements(ws)
  {
    var n := |ws| - 1;
    assert ws == ws[..n] + [ws[n]];
  }

  // One more write.
  lemma WriteOne(p: Rect, src: seq<Byte>, d: seq<Byte>, e: seq<Byte>, done: iset<nat>, b: nat)
    requires p.Ok() && Fits(p, src, d) && Copied(p, src, d, e, done) && b < p.Total()
    ensures SrcPos(p, b) < |src| && DstPos(p, b) < |e|
    ensures Copied(p, src, d, e[DstPos(p, b) := src[SrcPos(p, b)]], done + Between(b, b + 1))
  {
    FitsSame(p, src, d, e);
    hide SrcPos, DstPos, Between;
    CopyByte(p, src, e, b);
    CopyMore(p, src, d, e, e[DstPos(p, b) := src[SrcPos(p, b)]], done, Between(b, b + 1));
  }

  lemma {:induction false} ApplyCopies(p: Rect, src: seq<Byte>, d: seq<Byte>, ws: seq<nat>)
    requires p.Ok() && Fits(p, src, d) && AllBelow(ws, p.Total())
    ensures Copied(p, src, d, Apply(p, src, d, ws), Elements(ws))
    decreases |ws|
  {
    hide SrcPos, DstPos, Between, Fits, Rect.Total;
    if ws == [] {
      assert forall k :: 0 <= k < |d| ==> !Hit(p, Elements(ws), k);
    } else {
      var n := |ws| - 1;
      ApplyCopies(p, src, d, ws[..n]);
      ElementsSnoc(ws);
      hide Copied, Elements;
      WriteOne(p, src, d, Apply(p, src, d, ws[..n]), Elements(ws[..n]), ws[n]);
    }
  }

  ghost predicate InSomeShare(p: Rect, threads: nat, b: nat)
    requires p.Ok() && threads > 0
  {
    exists t: nat :: t < threads && Within(Start(p, threads, t), End(p, threads, t), b)
  }

  /** Whatever the number of threads, the alignment of the source, and the order in which the threads' byte
      writes happen: once every thread has copied its share the destination is what the copy row by row makes
      of it, padding included. */
  lemma AnyInterleaving(p: Rect, src: seq<Byte>, before: seq<Byte>, byRows: seq<Byte>, threads: nat, ws: seq<nat>)
    requires p.Ok() && Fits(p, src, before) && threads > 0
    requires Copied(p, src, before, byRows, Between(0, p.Total()))
    requires forall i :: 0 <= i < |ws| ==> InSomeShare(p, threads, ws[i])
    requires forall t: nat, b: nat {:trigger Within(Start(p, threads, t), End(p, threads, t), b)} ::
               t < threads && Within(Start(p, threads, t), End(p, threads, t), b) ==> b in ws
    ensures AllBelow(ws, p.Total()) && Apply(p, src, before, ws) == byRows
  {
    forall i | 0 <= i < |ws| ensures ws[i] < p.Total() {
      assert InSomeShare(p, threads, ws[i]);
      var t: nat :| t < threads && Within(Start(p, threads, t), End(p, threads, t), ws[i]);
      SharesFollow(p, threads, t);
    }
    SharesFollow(p, threads, threads - 1);
    hide Start, End;
    forall b: nat | b < p.Total() ensures b in ws {
      var t := SharesCover(p, threads, b, threads);
      assert Within(Start(p, threads, t), End(p, threads, t), b);
    }
    ApplyCopies(p, src, before, ws);
    CopiedUnique(p, src, before, Apply(p, src, before, ws), byRows, Elements(ws), Between(0, p.Total()));
  }

  /** What lies between the rows of the destination is never touched. */
  lemma PaddingUntouched(p: Rect, src: seq<Byte>, before: seq<Byte>, after: seq<Byte>, bytes: iset<nat>, row: nat, col: nat)
    requires p.Ok() && Fits(p, src, before) && Copied(p, src, before, after, bytes)
    requires p.width <= col < p.dpitch && row * p.dpitch + col < |after|
    ensures after[row * p.dpitch + col] == before[row * p.dpitch + col]
  {
    var k := row * p.dpitch + col;
    if Hit(p, bytes, k) {
      var b :| HitBy(p, bytes, k, b);
      QuotRem(b, p.width);
      QuotUnique(p.dpitch, row, col, Quot(b, p.width), Rem(b, p.width));
    }
  }

  // ----- the copy of one stretch of memory, in whole cache lines

  function Offset(count: nat, line: nat, threads: nat, t: nat): nat
    requires line > 0 && threads > 0
  {
    ShareStart(CeilDiv(count, line), threads, t) * line
  }

  lemma Distributes(a: nat, n: nat, line: nat)
    ensures (a + n) * line == a * line + n * line
  {}

  lemma LineFacts(count: nat, line: nat, threads: nat, t: nat)
    requires line > 0 && t < threads
    ensures var lines := (count + line - 1) / line;
            var each, remain := Quot(lines, threads), Rem(lines, threads);
            lines == CeilDiv(count, line) && Offset(count, line, threads, t) == (t * each + Min(t, remain)) * line
            && Offset(count, line, threads, t + 1) == Offset(count, line, threads, t) + (each + if t < remain then 1 else 0) * line
    ensures Offset(count, line, threads, 0) == 0 && Offset(count, line, threads, threads) >= count
  {
    var lines := CeilDiv(count, line);
    ShareFacts(lines, threads, t);
    CeilDivBounds(count, line);
    var a, n := ShareStart(lines, threads, t), Quot(lines, threads) + if t < Rem(lines, threads) then 1 else 0;
    assert ShareStart(lines, threads, t + 1) == a + n;
    hide CeilDiv, Quot, Rem, ShareStart;
    Distributes(a, n, line);
  }

  /** The offset and the length of thread t, as the program computes them: together the threads copy every byte
      exactly once, thread t from its offset to the next thread's, cut off at the end of the buffer. */
  method LineShare(count: nat, line: nat, threads: nat, t: nat) returns (offset: nat, len: nat)
    requires line > 0 && t < threads
    ensures offset == Offset(count, line, threads, t)
    ensures Min(offset, count) + len == Min(Offset(count, line, threads, t + 1), count)
    ensures Offset(count, line, threads, 0) == 0 && Offset(count, line, threads, threads) >= count
  {
    var lines := (count + line - 1) / line;
    LineFacts(count, line, threads, t);
    hide CeilDiv, Quot, Rem, ShareStart, Offset;
    var each, remain := DivRem(lines, threads);
    offset := (t * each + Min(t, remain)) * line;
    var n := each + if t < remain then 1 else 0;
    len := n * line;
    if count > offset { len := Min(len, count - offset); } else { len := 0; }
  }
}
