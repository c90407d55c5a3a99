/** Greatest common divisors, as `std::gcd` computes them, and reduced fractions. */
module Gcds {

  function Gcd(a: nat, b: nat): (g: nat)
    requires a > 0 || b > 0
    ensures g > 0
    decreases b
  {
    if b == 0 then a else Gcd(b, a % b)
  }

  predicate Divides(d: nat, n: nat)
    requires d > 0
  {
    n % d == 0
  }

  lemma DividesByFactor(d: nat, k: nat, n: nat)
    requires d > 0 && n == d * k
    ensures Divides(d, n) && n / d == k
  {
    QuotientUnique(n, d, k, 0);
  }

  lemma MulLess(a: int, b: int, k: int)
    requires a < b && k > 0
    ensures a * k < b * k
  {
    assert (b - a) * k > 0;
  }

  lemma MulAtMost(a: int, b: int, k: int)
    requires a <= b && k >= 0
    ensures a * k <= b * k
  {
    assert (b - a) * k >= 0;
  }

  lemma MulCancel(a: int, b: int, k: int)
    requires a * k == b * k && k > 0
    ensures a == b
  {
    if a < b { MulLess(a, b, k); } else if b < a { MulLess(b, a, k); }
  }

  /** Division with remainder is unique. */
  lemma QuotientUnique(n: nat, d: nat, q: nat, r: nat)
    requires d > 0 && r < d && n == d * q + r
    ensures n / d == q && n % d == r
  {
    var q', r' := n / d, n % d;
    assert (q - q') * d == r' - r;
    if q' < q {
      MulAtLeast(q - q', d);
    } else if q' > q {
      MulAtLeast(q' - q, d);
    }
  }

  lemma MulCommutes(a: int, b: int)
    ensures a * b == b * a
  {
  }

  lemma MulAtLeast(k: int, d: int)
    requires k >= 1 && d >= 0
    ensures k * d >= d
  {
    assert (k - 1) * d >= 0;
  }

  lemma DividesFactor(d: nat, n: nat)
    requires d > 0 && Divides(d, n)
    ensures n == (n / d) * d
    ensures n > 0 ==> n / d > 0
  {
  }

  lemma DividesCombination(d: nat, a: nat, b: nat, q: nat, r: nat)
    requires d > 0 && a == q * b + r
    requires Divides(d, b) && Divides(d, r)
    ensures Divides(d, a)
  {
    var k, m := b / d, r / d;
    assert b == d * k && r == d * m;
    assert q * b == d * (q * k) by { assert q * (d * k) == d * (q * k); }
    assert a == d * (q * k + m) by { assert d * (q * k + m) == d * (q * k) + d * m; }
    DividesByFactor(d, q * k + m, a);
  }

  lemma {:induction false} GcdDivides(a: nat, b: nat)
    requires a > 0 || b > 0
    ensures Divides(Gcd(a, b), a) && Divides(Gcd(a, b), b)
    decreases b
  {
    if b == 0 {
      DividesByFactor(a, 1, a);
      DividesByFactor(a, 0, 0);
    } else {
      GcdDivides(b, a % b);
      DividesCombination(Gcd(a, b), a, b, a / b, a % b);
    }
  }

  lemma ScaledDivision(b: nat, q: nat, r: nat, k: nat)
    requires r < b && k > 0
    ensures b * k > 0 && r * k < b * k
    ensures (b * q + r) * k == (b * k) * q + r * k
  {
    assert b * k == r * k + (b - r) * k;
    assert (b * q + r) * k == (b * q) * k + r * k;
    assert (b * q) * k == (b * k) * q;
  }

  /** Scaling both arguments scales the divisor: the fact behind every reduction argument below. */
  lemma {:induction false} GcdScales(a: nat, b: nat, k: nat)
    requires (a > 0 || b > 0) && k > 0
    ensures a * k > 0 || b * k > 0
    ensures Gcd(a * k, b * k) == Gcd(a, b) * k
    decreases b
  {
    if b > 0 {
      ScaledDivision(b, a / b, a % b, k);
      QuotientUnique(a * k, b * k, a / b, (a % b) * k);
      GcdScales(b, a % b, k);
    }
  }

  /** Dividing by the greatest common divisor leaves coprime numbers. */
  lemma ReducedIsCoprime(a: nat, b: nat)
    requires b > 0
    ensures var g := Gcd(a, b); b / g > 0 && Gcd(a / g, b / g) == 1
  {
    var g := Gcd(a, b);
    GcdDivides(a, b);
    var p, q := a / g, b / g;
    DividesFactor(g, a);
    DividesFactor(g, b);
    GcdScales(p, q, g);
    MulCancel(Gcd(p, q), 1, g);
  }

  lemma GcdGreatest(d: nat, a: nat, b: nat)
    requires (a > 0 || b > 0) && d > 0 && Divides(d, a) && Divides(d, b)
    ensures Divides(d, Gcd(a, b))
  {
    var p, q := a / d, b / d;
    DividesFactor(d, a);
    DividesFactor(d, b);
    GcdScales(p, q, d);
    MulCommutes(d, Gcd(p, q));
    DividesByFactor(d, Gcd(p, q), Gcd(a, b));
  }

  /** Euclid's lemma. */
  lemma CoprimeDivides(a: nat, b: nat, n: nat)
    requires b > 0 && n > 0 && Gcd(a, b) == 1
    requires Divides(b, a * n)
    ensures Divides(b, n)
  {
    GcdScales(a, b, n);
    DividesByFactor(b, n, b * n);
    GcdGreatest(b, a * n, b * n);
  }

  lemma DividesBound(d: nat, n: nat)
    requires d > 0 && n > 0 && Divides(d, n)
    ensures d <= n
  {
    DividesFactor(d, n);
    MulAtLeast(n / d, d);
  }

  /** A reduced fraction is determined by its value. */
  lemma ReducedFractionsUnique(a: nat, b: nat, c: nat, d: nat)
    requires b > 0 && d > 0 && Gcd(a, b) == 1 && Gcd(c, d) == 1
    requires a * d == c * b
    ensures a == c && b == d
  {
    hide Gcd;
    MulCommutes(c, b);
    MulCommutes(a, d);
    DividesByFactor(b, c, a * d);
    CoprimeDivides(a, b, d);
    DividesByFactor(d, a, c * b);
    CoprimeDivides(c, d, b);
    DividesBound(b, d);
    DividesBound(d, b);
    assert a * b == c * b;
    MulCancel(a, c, b);
  }
}
