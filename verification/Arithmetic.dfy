/** Division facts the solver needs spelled out. */
module Arithmetic {

  lemma Scaled(d: nat, e: int)
    requires d != 0
    ensures e >= 1 ==> d * e >= d
    ensures e <= 0 ==> d * e <= 0
    ensures e <= -1 ==> d * e <= 0 - d
  {
    if e >= 1 {
      assert d * e == d * (e - 1) + d;
    } else if e <= -1 {
      assert d * e == d * (e + 1) - d;
    }
  }

  /** The quotient of a division is determined by any split with a small rest. */
  lemma QuotientIs(n: int, d: nat, q: int, r: nat)
    requires r < d && n == d * q + r
    ensures n / d == q && n % d == r
  {
    assert d * (n / d - q) == r - n % d;
    Scaled(d, n / d - q);
  }

  lemma ProductDivides(d: nat, q: int)
    requires d != 0
    ensures (d * q) % d == 0
  {
    QuotientIs(d * q, d, q, 0);
  }

  lemma MultipleOfMultiple(v: int, m: nat, d: nat)
    requires m != 0 && d != 0 && v % m == 0 && m % d == 0
    ensures v % d == 0
  {
    var a, b := v / m, m / d;
    assert v == m * a && m == d * b;
    assert v == d * (b * a);
    ProductDivides(d, b * a);
  }

  /** Two neighbours are multiples of a number only if it is 1. */
  lemma NeighboursDivide(n: int, d: nat)
    requires d != 0 && n % d == 0 && (n + 1) % d == 0
    ensures d == 1
  {
    assert d * ((n + 1) / d - n / d) == 1;
    Scaled(d, (n + 1) / d - n / d);
  }

  lemma Distribute(a: nat, b: nat, q: nat, r: nat)
    ensures a * (b * q + r) == (a * b) * q + a * r
  {
  }

  lemma Below(a: nat, b: nat, r: nat, s: nat)
    requires r < b && s < a
    ensures a * r + s < a * b
  {
    assert a * b == a * r + a * (b - r);
    Scaled(a, b - r);
  }

  lemma TwoDivisions(n: nat, a: nat, b: nat, m: nat, s: nat, q: nat, r: nat)
    requires s < a && r < b && n == a * m + s && m == b * q + r
    ensures n == (a * b) * q + (a * r + s) && a * r + s < a * b
  {
    Distribute(a, b, q, r);
    Below(a, b, r, s);
  }

  lemma DivDiv(n: nat, a: nat, b: nat)
    requires a > 0 && b > 0
    ensures a * b > 0 && (n / a) / b == n / (a * b)
  {
    var m := n / a;
    TwoDivisions(n, a, b, m, n % a, m / b, m % b);
    QuotientIs(n, a * b, m / b, a * (m % b) + n % a);
  }
}
