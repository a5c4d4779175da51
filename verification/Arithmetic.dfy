/** Rounding a quotient to the nearest integer, in terms of multiples. */
module Arithmetic {
  import opened Basics

  /** If f is the quotient c / p to the nearest integer, f * p is the multiple of p nearest to c. */
  lemma {:induction false} NearestMultiple(f: int, p: int, c: int)
    requires p > 0 && f as real - 0.5 <= c as real / p as real < f as real + 0.5
    ensures -p <= 2 * (f * p - c) <= p
  {
    assert (f * p) as real == f as real * p as real;
    QuotientTimes(c as real, p as real);
    NearestOf(f, p, c, c as real / p as real, f * p);
  }

  lemma {:induction false} NearestOf(f: int, p: int, c: int, q: real, x: int)
    requires p > 0 && f as real - 0.5 <= q < f as real + 0.5
    requires c as real == q * p as real && x as real == f as real * p as real
    ensures -p <= 2 * (x - c) <= p
  {
    var off := q - f as real;
    WithinHalf(f as real, p as real, q, off, x as real, c as real, off * p as real);
  }

  lemma {:induction false} WithinHalf(f: real, p: real, q: real, off: real, fp: real, qp: real, offp: real)
    requires p > 0.0 && -0.5 <= off <= 0.5 && off == q - f
    requires fp == f * p && qp == q * p && offp == off * p
    ensures fp - 0.5 * p <= qp <= fp + 0.5 * p
  {
    Distribute(f, p, q, off);
    assert offp == qp - fp;
    MulMonotone(-0.5, off, p);
    MulMonotone(off, 0.5, p);
    assert offp <= 0.5 * p;
    assert offp >= -0.5 * p;
  }

  lemma {:induction false} Distribute(f: real, p: real, q: real, off: real)
    requires off == q - f
    ensures off * p == q * p - f * p
  {
  }

  lemma {:induction false} QuotientTimes(a: real, p: real)
    requires p > 0.0
    ensures a == a / p * p
  {
  }

  lemma {:induction false} MulMonotone(a: real, b: real, p: real)
    requires a <= b && p > 0.0
    ensures a * p <= b * p
  {
  }

  lemma {:induction false} HalfOrMore(c: int, p: int)
    requires p > 0
    ensures 2 * c >= p <==> c as real / p as real >= 0.5
  {
    QuotientTimes(c as real, p as real);
    HalfOrMoreOf(c as real, p as real, c as real / p as real);
  }

  lemma {:induction false} HalfOrMoreOf(c: real, p: real, q: real)
    requires p > 0.0 && c == q * p
    ensures 2.0 * c >= p <==> q >= 0.5
  {
    if q >= 0.5 {
      MulMonotone(0.5, q, p);
    } else {
      MulStrict(q, 0.5, p);
    }
  }

  lemma {:induction false} MulStrict(a: real, b: real, p: real)
    requires a < b && p > 0.0
    ensures a * p < b * p
  {
  }

  /** A quotient against a bound. */
  lemma {:induction false} QuotientBound(c: int, p: int, k: int)
    requires p > 0
    ensures c as real / p as real < k as real <==> c < k * p
  {
    QuotientTimes(c as real, p as real);
    assert (k * p) as real == k as real * p as real;
    QuotientBoundOf(c as real, p as real, k as real, c as real / p as real, (k * p) as real);
  }

  lemma {:induction false} QuotientBoundOf(c: real, p: real, k: real, q: real, kp: real)
    requires p > 0.0 && c == q * p && kp == k * p
    ensures q < k <==> c < kp
  {
    if q < k {
      MulStrict(q, k, p);
    } else {
      MulMonotone(k, q, p);
    }
  }

  /** Rounding a quotient is dividing, and one more if the remainder is half the divisor or more. */
  lemma {:induction false} RoundQuotient(c: int, p: int)
    requires p > 0
    ensures Round(c as real / p as real) == c / p + if 2 * (c % p) >= p then 1 else 0
  {
    var q, r := c / p, c % p;
    var f := q + if 2 * r >= p then 1 else 0;
    assert c == q * p + r;
    TwiceBound(c, p, 2 * f - 1);
    TwiceBound(c, p, 2 * f + 1);
    OddMultiples(f, q, p);
  }

  lemma {:induction false} OddMultiples(f: int, q: int, p: int)
    ensures (2 * f - 1) * p == 2 * (f * p) - p && (2 * f + 1) * p == 2 * (f * p) + p
    ensures f == q + 1 ==> f * p == q * p + p
  {
  }

  lemma {:induction false} TwiceBound(c: int, p: int, k: int)
    requires p > 0
    ensures 2.0 * (c as real / p as real) < k as real <==> 2 * c < k * p
  {
    QuotientBound(2 * c, p, k);
    TwiceQuotient(c as real, p as real);
  }

  lemma {:induction false} TwiceQuotient(c: real, p: real)
    requires p > 0.0
    ensures 2.0 * c / p == 2.0 * (c / p)
  {
  }
}
