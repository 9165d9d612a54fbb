/** The address ranges that the operating system has mapped for single buffers, by start and length. A buffer's
    header keeps the length in 32 bits, and that is how much is unmapped when the buffer is released. */
module Mappings {
  const INT32_MAX := 0x7FFF_FFFF
  const TWO32 := 0x1_0000_0000

  type Ranges = map<int, nat>

  ghost predicate Apart(m: Ranges, a: int, b: int)
    requires a in m && b in m
  {
    m[a] > 0 && m[b] > 0 && (a == b || a + m[a] <= b || b + m[b] <= a)
  }

  ghost predicate RangesOk(m: Ranges) { forall a, b {:trigger Apart(m, a, b)} :: a in m && b in m ==> Apart(m, a, b) }

  lemma RangesMore(m: Ranges, a: int, len: nat)
    requires RangesOk(m) && len > 0 && forall d :: d in m ==> a + len <= d || d + m[d] <= a
    ensures a !in m && RangesOk(m[a := len])
  {
    assert a in m ==> Apart(m, a, a);
    var m' := m[a := len];
    forall b, d | b in m' && d in m' ensures Apart(m', b, d) {
      if b != a { assert Apart(m, b, b); }
      if d != a { assert Apart(m, d, d); }
      if b != a && d != a { assert Apart(m, b, d); }
    }
  }

  // The cast of a length to int.
  function ToInt32(x: nat): int {
    var low := x % TWO32;
    if low <= INT32_MAX then low else low - TWO32
  }

  // Unmapping len bytes from the start of a range. As an unsigned length a negative one is more than there are
  // addresses; that and zero are refused.
  function Munmap(m: Ranges, a: int, len: int): Ranges
    requires a in m
  {
    if len <= 0 then m
    else if len >= m[a] then m - {a}
    else (m - {a})[a + len := m[a] - len]
  }

  lemma MunmapOk(m: Ranges, a: int, len: int)
    requires RangesOk(m) && a in m
    ensures RangesOk(Munmap(m, a, len)) && forall b :: b in m && b != a ==> b in Munmap(m, a, len) && Munmap(m, a, len)[b] == m[b]
    ensures forall b :: b in Munmap(m, a, len) ==>
              (b in m && Munmap(m, a, len)[b] == m[b]) || (a < b && b + Munmap(m, a, len)[b] == a + m[a])
  {
    assert Apart(m, a, a);
    if 0 < len < m[a] { InnerIsNoStart(m, a, len); }
    var m' := Munmap(m, a, len);
    forall b, d | b in m' && d in m' ensures Apart(m', b, d) {
      var b0, d0 := if b in m then b else a, if d in m then d else a;
      assert Apart(m, b0, d0) && Apart(m, b0, a) && Apart(m, d0, a);
    }
  }

  lemma InnerIsNoStart(m: Ranges, a: int, k: nat)
    requires RangesOk(m) && a in m && 0 < k < m[a]
    ensures a + k !in m
  {
    var x := a + k;
    assert x in m ==> Apart(m, a, x);
  }

  lemma Truncated(x: nat)
    ensures ToInt32(x) <= x && (ToInt32(x) == x <==> x <= INT32_MAX)
  {}

  /** Unmapping by the length in the header leaves nothing of the range, and everything else, exactly if the range
      is shorter than 2^31 bytes. */
  lemma UnmapsAll(m: Ranges, a: int)
    requires RangesOk(m) && a in m
    ensures Munmap(m, a, ToInt32(m[a])) == m - {a} <==> m[a] <= INT32_MAX
  {
    var len := ToInt32(m[a]);
    assert Apart(m, a, a);
    Truncated(m[a]);
    if 0 < len < m[a] {
      InnerIsNoStart(m, a, len);
      assert a + len in Munmap(m, a, len);
    }
  }
}
