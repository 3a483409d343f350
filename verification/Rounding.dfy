/** Powers of two and divisions that round up. */
module Rounding {

  function Pow2(n: nat): (p: nat)
    ensures p > 0
  {
    if n == 0 then 1 else 2 * Pow2(n - 1)
  }

  lemma {:induction false} Pow2Add(m: nat, n: nat)
    ensures Pow2(m + n) == Pow2(m) * Pow2(n)
  {
    if m > 0 {
      Pow2Add(m - 1, n);
    }
  }

  lemma {:induction false} Pow2Grows(m: nat, n: nat)
    requires m <= n
    ensures Pow2(m) <= Pow2(n)
  {
    if m < n {
      Pow2Grows(m, n - 1);
    }
  }

  /** n / d rounded down. */
  function FloorDiv(n: nat, d: nat): nat
    requires d > 0
  {
    n / d
  }

  /** n / d rounded up. */
  function CeilDiv(n: nat, d: nat): nat
    requires d > 0
  {
    FloorDiv(n + d - 1, d)
  }

  lemma DivBounds(n: int, d: int)
    requires d > 0
    ensures n / d * d <= n < n / d * d + d
  {
  }

  lemma MulMono(a: int, b: int, c: int)
    requires a <= b && 0 <= c
    ensures a * c <= b * c
  {
  }

  /** Rounding down stays above q exactly when q times the divisor fits. */
  lemma FloorAtLeast(n: nat, d: nat, q: nat)
    requires d > 0
    ensures q <= FloorDiv(n, d) <==> q * d <= n
  {
    DivBounds(n, d);
    var f := n / d;
    if q <= f {
      MulMono(q, f, d);
    } else {
      MulMono(f + 1, q, d);
      assert (f + 1) * d == f * d + d;
    }
  }

  /** Rounding up stays within q exactly when q times the divisor is enough. */
  lemma CeilAtMost(n: nat, d: nat, q: nat)
    requires d > 0
    ensures CeilDiv(n, d) <= q <==> n <= q * d
  {
    DivBounds(n + d - 1, d);
    var c := CeilDiv(n, d);
    if c <= q {
      MulMono(c, q, d);
    } else {
      MulMono(q + 1, c, d);
      assert (q + 1) * d == q * d + d;
    }
  }

  /** Rounding up covers the number, by less than one divisor. */
  lemma CeilBounds(n: nat, d: nat)
    requires d > 0
    ensures n <= CeilDiv(n, d) * d < n + d
  {
    DivBounds(n + d - 1, d);
  }

  /** Rounding up is rounding down and one more if something is left. */
  lemma CeilIsFloorPlus(n: nat, d: nat)
    requires d > 0
    ensures CeilDiv(n, d) == FloorDiv(n, d) + if n % d != 0 then 1 else 0
  {
    var f, m := n / d, n % d;
    assert n == f * d + m;
    CeilAtMost(n, d, f);
    CeilAtMost(n, d, f + 1);
    assert (f + 1) * d == f * d + d;
    if f > 0 {
      CeilAtMost(n, d, f - 1);
      assert (f - 1) * d == f * d - d;
    }
  }

  /** Rounding up never falls when the number grows. */
  lemma CeilGrows(m: nat, n: nat, d: nat)
    requires d > 0 && m <= n
    ensures CeilDiv(m, d) <= CeilDiv(n, d)
  {
    CeilBounds(n, d);
    CeilAtMost(m, d, CeilDiv(n, d));
  }

  lemma FloorGrows(m: nat, n: nat, d: nat)
    requires d > 0 && m <= n
    ensures FloorDiv(m, d) <= FloorDiv(n, d)
  {
    FloorAtLeast(n, d, FloorDiv(m, d));
    DivBounds(m, d);
  }

  lemma SmallQuotient(n: nat, d: nat)
    requires n < d
    ensures FloorDiv(n, d) == 0
  {
  }

  lemma HalveTwice(x: nat, p: nat)
    requires p > 0
    ensures x / 2 / p == x / (2 * p)
  {
    var q, r := x / 2 / p, x / 2 % p;
    assert x / 2 == q * p + r;
    assert x == 2 * (x / 2) + x % 2;
    var rest := 2 * r + x % 2;
    assert x == q * (2 * p) + rest && rest < 2 * p;
    QuotientIs(x, 2 * p, q, rest);
  }

  lemma QuotientIs(x: nat, d: nat, q: nat, r: nat)
    requires d > 0 && x == q * d + r && r < d
    ensures x / d == q
  {
    FloorAtLeast(x, d, q);
    FloorAtLeast(x, d, q + 1);
    assert (q + 1) * d == q * d + d;
  }
}
