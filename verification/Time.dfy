/**
 Exact, nonnegative time: reduced fractions of 64-bit integers (`src/core/time.cpp`).
 The meaning of a time is the real number `Seconds()`; every other module compares times by it.
 */
module RationalTimes {
  import opened Wrappers
  import opened Gcds

  const MAX: int := 0x7fff_ffff_ffff_ffff

  type int64 = x: int | -MAX - 1 <= x <= MAX

  datatype RationalTime = RationalTime(value: int, rate: int) {
    predicate Reduced() {
      0 <= value <= MAX && 0 < rate <= MAX && Gcd(value, rate) == 1
    }

    function Seconds(): real
      requires rate > 0
    {
      value as real / rate as real
    }
  }

  type Time = t: RationalTime | t.Reduced() witness RationalTime(0, 1)

  const Zero: Time := RationalTime(0, 1)

  lemma ZeroSeconds()
    ensures Zero.Seconds() == 0.0
  {
  }

  datatype Order = Less | Equal | Greater

  // ----- fractions as reals

  lemma QuotientLess(a: int, b: int, c: int, d: int)
    requires b > 0 && d > 0
    ensures a as real / b as real < c as real / d as real <==> a * d < c * b
    ensures a as real / b as real == c as real / d as real <==> a * d == c * b
  {
    var x, y := a as real / b as real, c as real / d as real;
    var n := b as real * d as real;
    assert n > 0.0;
    assert x * n == (a * d) as real by { assert x * b as real == a as real; }
    assert y * n == (c * b) as real by { assert y * d as real == c as real; }
    RealScaleOrder(x, y, n);
  }

  lemma RealScaleOrder(x: real, y: real, n: real)
    requires n > 0.0
    ensures x < y <==> x * n < y * n
    ensures x == y <==> x * n == y * n
  {
    if x < y { assert (y - x) * n > 0.0; }
    if y < x { assert (x - y) * n > 0.0; }
  }

  lemma CancelFactor(p: nat, q: nat, g: nat, a: nat, b: nat)
    requires g > 0 && q > 0 && a == p * g && b == q * g
    ensures b > 0 && p <= a && q <= b && p as real / q as real == a as real / b as real
  {
    MulAtLeast(g, p);
    MulAtLeast(g, q);
    MulCommutes(g, p);
    MulCommutes(g, q);
    MoveFactor(p, q, g);
    QuotientLess(p, q, a, b);
  }

  lemma MoveFactor(p: int, q: int, g: int)
    ensures p * (q * g) == (p * g) * q
  {
  }

  lemma QuotientOrder(k: real, x: real, f: real)
    requires f > 0.0
    ensures k < x / f <==> k * f < x
    ensures k == x / f <==> k * f == x
  {
    assert (x / f) * f == x;
    RealScaleOrder(k, x / f, f);
  }

  lemma RealMulAtMost(x: real, y: real, k: real)
    requires x <= y && k >= 0.0
    ensures x * k <= y * k
  {
    assert (y - x) * k >= 0.0;
  }

  /** `std::gcd` reduction keeps the value. */
  lemma ReductionKeepsValue(value: nat, rate: nat)
    requires rate > 0
    ensures var g := Gcd(value, rate);
            rate / g > 0 && Gcd(value / g, rate / g) == 1 && value / g <= value && rate / g <= rate &&
            (value / g) as real / (rate / g) as real == value as real / rate as real
  {
    var g := Gcd(value, rate);
    ReducedIsCoprime(value, rate);
    GcdDivides(value, rate);
    DividesFactor(g, value);
    DividesFactor(g, rate);
    CancelFactor(value / g, rate / g, g, value, rate);
  }

  // ----- construction

  /** Division of both parts by `std::gcd`. */
  function Reduce(value: nat, rate: nat): (t: Time)
    requires value <= MAX && 0 < rate <= MAX
    ensures t.Seconds() == value as real / rate as real
  {
    hide *;
    ReducedParts(value, rate);
    RationalTime(Part(value, value, rate), Part(rate, value, rate))
  }

  /** `n` without the factor common to `a` and `b`. */
  function Part(n: nat, a: nat, b: nat): nat
    requires b > 0
  {
    n / Gcd(a, b)
  }

  lemma ReducedParts(value: nat, rate: nat)
    requires value <= MAX && 0 < rate <= MAX
    ensures var t := RationalTime(Part(value, value, rate), Part(rate, value, rate));
            t.Reduced() && t.Seconds() == value as real / rate as real
  {
    hide Gcd;
    ReductionKeepsValue(value, rate);
  }

  /** The constructor: a negative value or a rate that is not positive is refused. */
  function Make(value: int64, rate: int64): (r: Option<Time>)
    ensures r.None? <==> value < 0 || rate <= 0
    ensures r.Some? ==> r.value.Seconds() == value as real / rate as real
  {
    if value < 0 || rate <= 0 then None else Some(Reduce(value, rate))
  }

  lemma MakeReduced(t: Time)
    ensures Make(t.value, t.rate) == Some(t)
  {
    assert t.value / 1 == t.value && t.rate / 1 == t.rate;
  }

  /** Reduced fractions represent each instant once, so field equality is equality in time. */
  lemma EqualIffSameInstant(x: Time, y: Time)
    ensures x == y <==> x.Seconds() == y.Seconds()
  {
    QuotientLess(x.value, x.rate, y.value, y.rate);
    if x.Seconds() == y.Seconds() {
      ReducedFractionsUnique(x.value, x.rate, y.value, y.rate);
    }
  }

  // ----- comparison

  function OrderOf(x: real, y: real): Order {
    if x < y then Less else if x == y then Equal else Greater
  }

  /** The cross difference of two fractions: its sign is their order. */
  ghost function Cross(a: int, b: int, c: int, d: int): int {
    a * d - c * b
  }

  lemma CrossDecides(x: Time, y: Time)
    ensures Cross(x.value, x.rate, y.value, y.rate) < 0 <==> x.Seconds() < y.Seconds()
    ensures Cross(x.value, x.rate, y.value, y.rate) == 0 <==> x.Seconds() == y.Seconds()
  {
    QuotientLess(x.value, x.rate, y.value, y.rate);
  }

  lemma DifferentQuotients(a: int, b: int, c: int, d: int)
    requires a >= 0 && b > 0 && c >= 0 && d > 0
    ensures a / b < c / d ==> Cross(a, b, c, d) < 0
    ensures a / b > c / d ==> Cross(a, b, c, d) > 0
  {
    DivisionBounds(a, b);
    DivisionBounds(c, d);
    if a / b < c / d {
      CrossBound(a, b, c, d, a / b, c / d);
    } else if c / d < a / b {
      CrossBound(c, d, a, b, c / d, a / b);
    }
  }

  lemma DivisionBounds(a: int, b: int)
    requires a >= 0 && b > 0
    ensures (a / b) * b <= a < (a / b + 1) * b
  {
  }

  lemma CrossBound(a: int, b: int, c: int, d: int, p: int, q: int)
    requires b > 0 && d > 0 && p < q && a < (p + 1) * b && q * d <= c
    ensures a * d < c * b
  {
    MulLess(a, (p + 1) * b, d);
    MulAtMost(p + 1, q, b);
    MulAtMost((p + 1) * b, q * b, d);
    Rearrange(q, b, d);
    MulAtMost(q * d, c, b);
  }

  lemma Rearrange(q: int, b: int, d: int)
    ensures (q * b) * d == (q * d) * b
  {
  }

  /** With equal quotients, the inverted remainders have the opposite cross difference. */
  lemma NextStep(a: int, b: int, c: int, d: int)
    requires a >= 0 && b > 0 && c >= 0 && d > 0 && a / b == c / d
    ensures Cross(b, a % b, d, c % d) == -Cross(a, b, c, d)
    ensures a % b == 0 && c % d > 0 ==> Cross(a, b, c, d) < 0
    ensures a % b > 0 && c % d == 0 ==> Cross(a, b, c, d) > 0
    ensures a % b == 0 && c % d == 0 ==> Cross(a, b, c, d) == 0
  {
    var q, r1, r2 := a / b, a % b, c % d;
    RemainderProduct(a, b, d, q, r1);
    RemainderProduct(c, d, b, q, r2);
    Rearrange(q, b, d);
    MulCommutes(b, r2);
    MulCommutes(d, r1);
    if r1 == 0 && r2 > 0 { MulAtLeast(r2, b); }
    if r2 == 0 && r1 > 0 { MulAtLeast(r1, d); }
  }

  lemma RemainderProduct(a: int, b: int, d: int, q: int, r: int)
    requires a == q * b + r
    ensures a * d == (q * b) * d + r * d
  {
  }

  /**
   Comparison by continued fractions. Every variable keeps a type that fits in 64 bits, so no
   product is ever formed; the answer is nevertheless that of the cross products.
   */
  method Compare(x: Time, y: Time) returns (order: Order)
    ensures order == OrderOf(x.Seconds(), y.Seconds())
    ensures order == Equal <==> x == y
  {
    hide Gcd, Cross, RationalTime.Seconds;
    EqualIffSameInstant(x, y);
    CrossDecides(x, y);
    ghost var cross := Cross(x.value, x.rate, y.value, y.rate);
    var a: int64, b: int64 := x.value, x.rate;
    var c: int64, d: int64 := y.value, y.rate;
    var reversed := false;
    while true
      invariant a >= 0 && b > 0 && c >= 0 && d > 0
      invariant Cross(a, b, c, d) == if reversed then -cross else cross
      decreases b
    {
      var left: int64 := a / b;
      var right: int64 := c / d;
      if left != right {
        DifferentQuotients(a, b, c, d);
        var less := (left < right) != reversed;
        return if less then Less else Greater;
      }
      var r1: int64, r2: int64 := a % b, c % d;
      NextStep(a, b, c, d);
      if r1 == 0 || r2 == 0 {
        if r1 == r2 {
          return Equal;
        }
        var less := (r1 == 0) != reversed;
        return if less then Less else Greater;
      }
      a, b, c, d := b, r1, d, r2;
      reversed := !reversed;
    }
  }

  // ----- checked arithmetic

  lemma ProductExceeds(a: nat, b: nat)
    requires b > 0 && a > MAX / b
    ensures a * b > MAX
  {
    MulAtLeast(a - MAX / b, b);
    assert MAX < (MAX / b + 1) * b;
  }

  lemma ProductFits(a: nat, b: nat)
    requires b > 0 && a <= MAX / b
    ensures 0 <= a * b <= MAX
  {
    MulAtMost(a, MAX / b, b);
    assert (MAX / b) * b <= MAX;
  }

  /** The helper `multiply`: the exact product, or a refusal when it leaves 64 bits. */
  function Multiply(a: int64, b: int64): (r: Option<int64>)
    requires a >= 0 && b >= 0
    ensures r == if a * b <= MAX then Some(a * b) else None
  {
    if a != 0 && b > MAX / a then
      ProductExceeds(b, a);
      MulCommutes(a, b);
      None
    else
      assert 0 <= a * b <= MAX by {
        if a != 0 {
          ProductFits(b, a);
          MulCommutes(a, b);
        }
      }
      Some(a * b)
  }

  /** The factor that brings `x` to the least common multiple of the two rates. */
  function Scale(x: Time, y: Time): int {
    y.rate / Gcd(x.rate, y.rate)
  }

  function Scaled(x: Time, y: Time): int {
    x.value * Scale(x, y)
  }

  function CommonRate(x: Time, y: Time): int {
    x.rate * Scale(x, y)
  }

  lemma GcdSymmetric(a: nat, b: nat)
    requires a > 0 && b > 0
    ensures Gcd(a, b) == Gcd(b, a)
  {
    GcdDivides(a, b);
    GcdDivides(b, a);
    GcdGreatest(Gcd(a, b), b, a);
    GcdGreatest(Gcd(b, a), a, b);
    DividesBound(Gcd(a, b), Gcd(b, a));
    DividesBound(Gcd(b, a), Gcd(a, b));
  }

  lemma ScaleInRange(x: Time, y: Time)
    ensures 0 < Scale(x, y) <= MAX && 0 <= Scaled(x, y) && 0 < CommonRate(x, y)
    ensures Scaled(x, y) as real / CommonRate(x, y) as real == x.Seconds()
  {
    var g := Gcd(x.rate, y.rate);
    GcdDivides(x.rate, y.rate);
    DividesFactor(g, y.rate);
    MulAtLeast(g, Scale(x, y));
    MulCommutes(g, Scale(x, y));
    MulCommutes(x.value, Scale(x, y));
    MulAtLeast(Scale(x, y), x.value);
    MulAtLeast(Scale(x, y), x.rate);
    CancelFactor(x.value, x.rate, Scale(x, y), Scaled(x, y), CommonRate(x, y));
  }

  lemma CommonRateIsCommon(x: Time, y: Time)
    ensures CommonRate(x, y) == CommonRate(y, x)
  {
    var g := Gcd(x.rate, y.rate);
    GcdDivides(x.rate, y.rate);
    GcdSymmetric(x.rate, y.rate);
    DividesFactor(g, x.rate);
    DividesFactor(g, y.rate);
    MoveFactor(x.rate / g, y.rate / g, g);
    MulCommutes(y.rate, x.rate / g);
    MulCommutes(x.rate / g, y.rate);
  }

  lemma SumOfQuotients(a: int, b: int, n: int)
    requires n > 0
    ensures a as real / n as real + b as real / n as real == (a + b) as real / n as real
    ensures a as real / n as real - b as real / n as real == (a - b) as real / n as real
  {
  }

  lemma SumIsExact(x: Time, y: Time)
    ensures CommonRate(x, y) > 0
    ensures (Scaled(x, y) + Scaled(y, x)) as real / CommonRate(x, y) as real == x.Seconds() + y.Seconds()
    ensures (Scaled(x, y) - Scaled(y, x)) as real / CommonRate(x, y) as real == x.Seconds() - y.Seconds()
    ensures Scaled(x, y) >= Scaled(y, x) <==> x.Seconds() >= y.Seconds()
  {
    ScaleInRange(x, y);
    ScaleInRange(y, x);
    CommonRateIsCommon(x, y);
    SumOfQuotients(Scaled(x, y), Scaled(y, x), CommonRate(x, y));
    ScaledOrder(Scaled(x, y), Scaled(y, x), CommonRate(x, y));
  }

  lemma ScaledOrder(a: int, b: int, n: int)
    requires n > 0
    ensures a >= b <==> a as real / n as real >= b as real / n as real
  {
    QuotientLess(a, n, b, n);
    if a < b { MulLess(a, b, n); } else if b < a { MulLess(b, a, n); }
  }

  /**
   Addition returns the exact reduced sum, or refuses. It refuses exactly when a numerator over the
   common rate, their sum or the common rate itself leaves 64 bits.
   */
  function Plus(x: Time, y: Time): (r: Option<Time>)
    ensures r.Some? ==> r.value.Seconds() == x.Seconds() + y.Seconds()
    ensures r.Some? <==> Scaled(x, y) + Scaled(y, x) <= MAX && CommonRate(x, y) <= MAX
  {
    ScaleInRange(x, y);
    ScaleInRange(y, x);
    SumIsExact(x, y);
    GcdSymmetric(x.rate, y.rate);
    var left := Multiply(x.value, Scale(x, y));
    var right := Multiply(y.value, Scale(y, x));
    if left.None? || right.None? || right.value > MAX - left.value then
      None
    else
      var rate := Multiply(x.rate, Scale(x, y));
      if rate.None? then None else Make(left.value + right.value, rate.value)
  }

  /** Subtraction refuses a negative result; otherwise it is exact, or refuses like addition. */
  function Minus(x: Time, y: Time): (r: Option<Time>)
    ensures r.Some? ==> r.value.Seconds() == x.Seconds() - y.Seconds()
    ensures r.Some? <==> x.Seconds() >= y.Seconds() && Scaled(x, y) <= MAX && CommonRate(x, y) <= MAX
  {
    ScaleInRange(x, y);
    ScaleInRange(y, x);
    SumIsExact(x, y);
    if x.Seconds() < y.Seconds() then
      None
    else
      var left := Multiply(x.value, Scale(x, y));
      var right := Multiply(y.value, Scale(y, x));
      if left.None? || right.None? then
        None
      else
        var rate := Multiply(x.rate, Scale(x, y));
        if rate.None? then None else Make(left.value - right.value, rate.value)
  }

  // ----- rounding a scaled time

  lemma FloorOfQuotient(a: int, b: int)
    requires b > 0
    ensures (a / b) as real <= a as real / b as real < (a / b + 1) as real
  {
    var q := a / b;
    assert q * b <= a < (q + 1) * b;
    QuotientLess(q, 1, a, b);
    QuotientLess(a, b, q + 1, 1);
    WholeQuotient(q);
    WholeQuotient(q + 1);
  }

  lemma WholeQuotient(q: int)
    ensures q as real / 1 as real == q as real
  {
  }

  lemma ScaledSeconds(time: Time, k: int)
    ensures (time.value * k) as real / time.rate as real == time.Seconds() * k as real
  {
    var v, r, n := time.value as real, time.rate as real, k as real;
    assert (time.value * k) as real == v * n;
    assert (v * n) / r == (v / r) * n;
  }
}
