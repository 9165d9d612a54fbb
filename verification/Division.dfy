/** Division by a positive number, in the few facts that the layouts and the partitionings need. */
module Division {

  lemma DivMod(v: nat, p: nat)
    requires p > 0
    ensures v == (v / p) * p + v % p
    ensures v / p >= 1 ==> v >= p
  {}

  lemma DivNonNegative(v: nat, p: nat)
    requires p > 0
    ensures v / p >= 0
  {
    NegativeProduct(v / p, p);
  }

  lemma NegativeProduct(q: int, p: nat)
    ensures q <= -1 ==> q * p <= -(p as int)
  {}

  lemma DivModUnique(v: nat, p: nat, q: nat, r: nat)
    requires r < p && v == q * p + r
    ensures v / p == q && v % p == r
  {
    DivMod(v, p);
    var d := v / p - q;
    assert d * p == r - v % p;
    assert d >= 1 ==> d * p >= p;
    assert d <= -1 ==> d * p <= -(p as int);
  }

  // v lies in the q-th of the stretches of length p.
  lemma DivBounds(v: nat, p: nat)
    requires p > 0
    ensures v / p * p <= v < (v / p + 1) * p
  {
    DivMod(v, p);
    assert (v / p + 1) * p == v / p * p + p;
  }

  lemma MulMono(a: nat, b: nat, p: nat)
    requires a <= b
    ensures a * p <= b * p
  {}

  lemma MulOrder(a: nat, b: nat, p: nat)
    ensures a <= b ==> a * p <= b * p
    ensures a < b ==> a * p + p <= b * p
  {
    if a < b {
      MulMono(a + 1, b, p);
      assert (a + 1) * p == a * p + p;
    }
  }

  lemma DivMono(v: nat, w: nat, p: nat)
    requires p > 0 && v <= w
    ensures v / p <= w / p
  {
    DivBounds(v, p);
    DivBounds(w, p);
    if v / p > w / p { MulMono(w / p + 1, v / p, p); }
  }

  lemma DivShift(v: nat, k: nat, p: nat)
    requires p > 0
    ensures (v + k * p) / p == v / p + k && (v + k * p) % p == v % p
  {
    DivMod(v, p);
    assert (v / p + k) * p == v / p * p + k * p;
    DivModUnique(v + k * p, p, v / p + k, v % p);
  }

  function CeilDiv(a: nat, b: nat): nat
    requires b > 0
  {
    (a + b - 1) / b
  }

  lemma CeilDivBounds(a: nat, b: nat)
    requires b > 0
    ensures a <= CeilDiv(a, b) * b < a + b
    ensures CeilDiv(a, b) == 0 <==> a == 0
  {
    DivBounds(a + b - 1, b);
    assert (CeilDiv(a, b) + 1) * b == CeilDiv(a, b) * b + b;
  }

  // Quotient and remainder by counting down.
  function Quot(c: nat, x: nat): nat
    requires x > 0
  {
    if c < x then 0 else Quot(c - x, x) + 1
  }

  function Rem(c: nat, x: nat): nat
    requires x > 0
  {
    if c < x then c else Rem(c - x, x)
  }

  lemma {:induction false} QuotRem(c: nat, x: nat)
    requires x > 0
    ensures c == Quot(c, x) * x + Rem(c, x) && Rem(c, x) < x
  {
    if c >= x {
      QuotRem(c - x, x);
      assert Quot(c, x) * x == Quot(c - x, x) * x + x;
    }
  }

  lemma QuotUnique(x: nat, q: nat, r: nat, q': nat, r': nat)
    requires r < x && r' < x && q * x + r == q' * x + r'
    ensures q == q' && r == r'
  {
    MulOrder(q, q', x);
    MulOrder(q', q, x);
  }

  method DivRem(c: nat, x: nat) returns (q: nat, r: nat)
    requires x > 0
    ensures q == Quot(c, x) && r == Rem(c, x)
  {
    QuotRem(c, x);
    DivModUnique(c, x, Quot(c, x), Rem(c, x));
    q, r := c / x, c % x;
  }

  lemma QuotIs(v: nat, x: nat, q: nat, r: nat)
    requires r < x && v == q * x + r
    ensures Quot(v, x) == q && Rem(v, x) == r
  {
    QuotRem(v, x);
    QuotUnique(x, q, r, Quot(v, x), Rem(v, x));
  }

  lemma QuotMono(v: nat, w: nat, x: nat)
    requires x > 0 && v <= w
    ensures Quot(v, x) <= Quot(w, x)
  {
    QuotRem(v, x);
    QuotRem(w, x);
    MulOrder(Quot(w, x), Quot(v, x), x);
  }

  function Min(a: int, b: int): int { if a < b then a else b }

  function Max(a: int, b: int): int { if a > b then a else b }

  // Where the t-th of n equal shares of total items starts; the first total % n shares get one item more.
  function ShareStart(total: nat, n: nat, t: nat): nat
    requires n > 0
  {
    t * Quot(total, n) + Min(t, Rem(total, n))
  }

  lemma ShareFacts(total: nat, n: nat, t: nat)
    requires t < n
    ensures ShareStart(total, n, 0) == 0 && ShareStart(total, n, n) == total
    ensures ShareStart(total, n, t + 1) == ShareStart(total, n, t) + Quot(total, n) + (if t < Rem(total, n) then 1 else 0)
  {
    QuotRem(total, n);
    assert (t + 1) * Quot(total, n) == t * Quot(total, n) + Quot(total, n);
  }

  lemma ShareMono(total: nat, n: nat, t: nat, u: nat)
    requires n > 0 && t <= u
    ensures ShareStart(total, n, t) <= ShareStart(total, n, u)
  {
    MulOrder(t, u, Quot(total, n));
  }
}
