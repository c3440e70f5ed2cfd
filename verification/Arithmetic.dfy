/** Multiplication and division facts, proved one step at a time. */
module Arithmetic {

  lemma MulAtLeast(x: int, y: int)
    requires x >= 1 && y >= 0
    ensures x * y >= y
  {
  }

  lemma MulMonotone(x: int, a: int, b: int)
    requires x >= 0 && a <= b
    ensures x * a <= x * b
  {
  }

  // One more factor outweighs a remainder.
  lemma MulGap(a: int, b: int, p: int)
    requires a < b && p > 0
    ensures a * p + p <= b * p
  {
    MulMonotone(p, a + 1, b);
  }

  lemma DivUnique(n: int, m: int, q: int, rem: int)
    requires m > 0 && n == q * m + rem && 0 <= rem < m
    ensures n / m == q && n % m == rem
  {
    var q', rem' := n / m, n % m;
    assert n == q' * m + rem';
    if q < q' {
      MulGap(q, q', m);
    } else if q' < q {
      MulGap(q', q, m);
    }
  }

  lemma Nest(q: int, b: int, r2: int, a: int, r1: int)
    ensures (q * b + r2) * a + r1 == q * (a * b) + (r2 * a + r1)
  {
    assert (q * b + r2) * a == q * b * a + r2 * a;
    assert q * b * a == q * (a * b);
  }

  lemma DivRest(n: int, m: int)
    requires m > 0
    ensures n == (n / m) * m + n % m
  {
  }

  lemma RestBelow(r1: nat, r2: nat, a: nat, b: nat)
    requires r1 < a && r2 < b
    ensures 0 <= r2 * a + r1 < a * b
  {
    MulGap(r2, b, a);
    MulMonotone(a, 0, r2);
  }

  lemma DivDiv(n: nat, a: nat, b: nat)
    requires a > 0 && b > 0
    ensures a * b > 0 && n / a / b == n / (a * b)
  {
    var x, r1 := n / a, n % a;
    var q, r2 := x / b, x % b;
    DivRest(n, a);
    DivRest(x, b);
    Nest(q, b, r2, a, r1);
    RestBelow(r1, r2, a, b);
    MulAtLeast(a, b);
    DivUnique(n, a * b, q, r2 * a + r1);
  }

  // Dividing by a multiple of what the low part stays below ignores the low part.
  lemma DivIgnoresLow(high: nat, low: nat, unit: nat, m: nat)
    requires unit > 0 && m > 0 && low < unit
    ensures unit * m > 0 && (high * unit + low) / (unit * m) == high / m
  {
    DivUnique(high * unit + low, unit, high, low);
    DivDiv(high * unit + low, unit, m);
  }

  // Dividing by a divisor of the unit scales the high part.
  lemma DivScales(high: nat, low: nat, unit: nat, m: nat, k: nat)
    requires m > 0 && unit == k * m
    ensures (high * unit + low) / m == high * k + low / m
  {
    var q, rem := low / m, low % m;
    assert high * unit == high * k * m;
    assert high * unit + low == (high * k + q) * m + rem by {
      assert (high * k + q) * m == high * k * m + q * m;
    }
    DivUnique(high * unit + low, m, high * k + q, rem);
  }
}
