/** Signed source timestamps (`src/core/source_time.cpp`) and the decoder's use of them. */
module SourceTimes {
  import opened Wrappers
  import opened Gcds
  import opened RationalTimes

  datatype SignedTime = SignedTime(magnitude: Time, negative: bool) {
    /** The instant as a signed number of seconds. */
    function At(): real {
      if negative then -magnitude.Seconds() else magnitude.Seconds()
    }
  }

  /** Zero is never negative: every constructor keeps one representation of each instant. */
  type SourceTime = t: SignedTime | t.negative ==> t.magnitude.value > 0
    witness SignedTime(Zero, false)

  function MakeSource(value: int64, rate: int64): (r: Option<SourceTime>)
    ensures r.None? <==> value == -MAX - 1 || rate <= 0
    ensures r.Some? ==> r.value.At() == value as real / rate as real
  {
    if value == -MAX - 1 then
      None
    else
      var magnitude := Make(if value < 0 then -value else value, rate);
      if magnitude.None? then
        None
      else
        NonzeroQuotient(if value < 0 then -value else value, rate, magnitude.value);
        Some(SignedTime(magnitude.value, value < 0))
  }

  lemma NonzeroQuotient(value: int, rate: int, t: Time)
    requires rate > 0 && t.Seconds() == value as real / rate as real
    ensures t.value == 0 <==> value == 0
  {
    QuotientLess(value, rate, t.value, t.rate);
    if t.value > 0 && value == 0 { MulAtLeast(t.value, rate); }
    if t.value == 0 && value > 0 { MulAtLeast(value, t.rate); }
    if t.value == 0 && value < 0 { MulAtLeast(-value, t.rate); }
  }

  function Magnitude(ticks: int): nat {
    if ticks < 0 then -ticks else ticks
  }

  /** The tick count and the base rate after the factor common to both is removed. */
  function ReducedTicks(ticks: int64, base: Time): int {
    Magnitude(ticks) / Gcd(Magnitude(ticks), base.rate)
  }

  function ReducedRate(ticks: int64, base: Time): int {
    base.rate / Gcd(Magnitude(ticks), base.rate)
  }

  function SignedTicks(ticks: int64, base: Time): int {
    if ticks < 0 then -(ReducedTicks(ticks, base) * base.value) else ReducedTicks(ticks, base) * base.value
  }

  /** Scaling a tick count by a time base is exact, or refused when the reduced product leaves 64 bits. */
  function FromTicks(ticks: int64, base: Time): (r: Option<SourceTime>)
    ensures r.Some? ==> r.value.At() == ticks as real * base.Seconds()
    ensures r.Some? <==>
            ticks != -MAX - 1 && base.value != 0 && ReducedTicks(ticks, base) * base.value <= MAX
  {
    if ticks == -MAX - 1 then
      None
    else
      TicksAreExact(ticks, base);
      var reduced := ReducedTicks(ticks, base);
      if base.value == 0 || reduced > MAX / base.value then
        if base.value != 0 then ProductExceeds(reduced, base.value); None else None
      else
        ProductFits(reduced, base.value);
        var numerator: int64 := reduced * base.value;
        MakeSource(if ticks < 0 then -numerator else numerator, ReducedRate(ticks, base))
  }

  lemma ReducedTicksInRange(ticks: int64, base: Time)
    requires ticks != -MAX - 1
    ensures 0 <= ReducedTicks(ticks, base) <= MAX && 0 < ReducedRate(ticks, base) <= MAX
    ensures ReducedTicks(ticks, base) as real / ReducedRate(ticks, base) as real
            == Magnitude(ticks) as real / base.rate as real
  {
    ReductionKeepsValue(Magnitude(ticks), base.rate);
  }

  lemma TicksAreExact(ticks: int64, base: Time)
    requires ticks != -MAX - 1
    ensures 0 <= ReducedTicks(ticks, base) <= MAX && 0 < ReducedRate(ticks, base) <= MAX
    ensures SignedTicks(ticks, base) as real / ReducedRate(ticks, base) as real == ticks as real * base.Seconds()
  {
    ReducedTicksInRange(ticks, base);
    ExactProduct(ticks, Magnitude(ticks), ReducedTicks(ticks, base), ReducedRate(ticks, base), base);
  }

  lemma ExactProduct(ticks: int, m: nat, p: int, q: int, base: Time)
    requires q > 0 && m == Magnitude(ticks) && p as real / q as real == m as real / base.rate as real
    ensures (if ticks < 0 then -(p * base.value) else p * base.value) as real / q as real
            == ticks as real * base.Seconds()
  {
    ScaledQuotient(p, q, m, base.rate, base.value);
    SignedQuotient(ticks, m, p * base.value, q, base.Seconds());
  }

  lemma SignedQuotient(ticks: int, m: nat, n: int, q: int, s: real)
    requires q > 0 && m == Magnitude(ticks) && n as real / q as real == m as real * s
    ensures (if ticks < 0 then -n else n) as real / q as real == ticks as real * s
  {
    NegatedQuotient(n, q);
    NegatedProduct(m as real, s);
  }

  lemma NegatedProduct(a: real, b: real)
    ensures (-a) * b == -(a * b)
  {
  }

  lemma ScaledQuotient(p: int, q: int, a: int, b: int, k: int)
    requires q > 0 && b > 0 && p as real / q as real == a as real / b as real
    ensures (p * k) as real / q as real == a as real * (k as real / b as real)
  {
    assert (p * k) as real / q as real == (p as real / q as real) * k as real;
    assert a as real * (k as real / b as real) == (a as real / b as real) * k as real;
  }

  lemma NegatedQuotient(a: int, b: int)
    requires b > 0
    ensures (-a) as real / b as real == -(a as real / b as real)
  {
  }

  // ----- order

  /** Different signs decide; equal signs compare magnitudes, the other way round below zero. */
  method Compare(x: SourceTime, y: SourceTime) returns (order: Order)
    ensures order == OrderOf(x.At(), y.At())
    ensures order == Equal <==> x == y
  {
    SignOfMagnitude(x.magnitude);
    SignOfMagnitude(y.magnitude);
    if x.negative != y.negative {
      return if x.negative then Less else Greater;
    }
    if x.negative {
      order := RationalTimes.Compare(y.magnitude, x.magnitude);
    } else {
      order := RationalTimes.Compare(x.magnitude, y.magnitude);
    }
  }

  lemma SignOfMagnitude(t: Time)
    ensures t.Seconds() >= 0.0 && (t.Seconds() == 0.0 <==> t.value == 0) && (t.value == 0 <==> t == Zero)
  {
    QuotientLess(0, 1, t.value, t.rate);
    EqualIffSameInstant(t, Zero);
    QuotientLess(t.value, t.rate, 0, 1);
  }

  lemma EqualIffSameStamp(x: SourceTime, y: SourceTime)
    ensures x == y <==> x.At() == y.At()
  {
    SignOfMagnitude(x.magnitude);
    SignOfMagnitude(y.magnitude);
    EqualIffSameInstant(x.magnitude, y.magnitude);
  }

  /** Sums and differences of two times fit 64 bits over their common rate. */
  predicate Comparable(x: Time, y: Time) {
    CommonRate(x, y) <= MAX && RationalTimes.Scaled(x, y) + RationalTimes.Scaled(y, x) <= MAX
  }

  /** Either difference of two times fits 64 bits over their common rate. */
  predicate Subtractable(x: Time, y: Time) {
    CommonRate(x, y) <= MAX && RationalTimes.Scaled(x, y) <= MAX && RationalTimes.Scaled(y, x) <= MAX
  }

  /** Elapsed time since an origin: refused exactly before the origin, or when a sum or difference of magnitudes leaves
      64 bits. */
  function Since(t: SourceTime, origin: SourceTime): (r: Option<Time>)
    ensures r.Some? ==> r.value.Seconds() == t.At() - origin.At()
    ensures r.Some? <==>
            && t.At() >= origin.At()
            && (if t.negative != origin.negative then Comparable(t.magnitude, origin.magnitude)
                else Subtractable(t.magnitude, origin.magnitude))
  {
    SumIsExact(t.magnitude, origin.magnitude);
    SumIsExact(origin.magnitude, t.magnitude);
    CommonRateIsCommon(t.magnitude, origin.magnitude);
    SignOfMagnitude(t.magnitude);
    SignOfMagnitude(origin.magnitude);
    if t.At() < origin.At() then
      None
    else if t.negative != origin.negative then
      Plus(t.magnitude, origin.magnitude)
    else if t.negative then
      Minus(origin.magnitude, t.magnitude)
    else
      Minus(t.magnitude, origin.magnitude)
  }

  /** The decoder's `absolute`: a nonnegative offset measured from a signed origin. */
  function Absolute(origin: SourceTime, relative: Time): (r: Option<SourceTime>)
    ensures r.Some? ==> r.value.At() == origin.At() + relative.Seconds()
    ensures r.Some? <==> if origin.negative then Subtractable(origin.magnitude, relative)
                         else Comparable(origin.magnitude, relative)
  {
    SumIsExact(relative, origin.magnitude);
    SumIsExact(origin.magnitude, relative);
    CommonRateIsCommon(relative, origin.magnitude);
    if !origin.negative then
      var t := Plus(origin.magnitude, relative);
      if t.None? then None else MakeSource(t.value.value, t.value.rate)
    else if relative.Seconds() >= origin.magnitude.Seconds() then
      var t := Minus(relative, origin.magnitude);
      if t.None? then None else MakeSource(t.value.value, t.value.rate)
    else
      var t := Minus(origin.magnitude, relative);
      if t.None? then None else
        NegatedQuotient(t.value.value, t.value.rate);
        MakeSource(-t.value.value, t.value.rate)
  }

  /** `Since` undoes `Absolute`, and `Absolute` undoes `Since`, whenever neither overflows. */
  lemma AbsoluteRoundTrip(origin: SourceTime, relative: Time)
    requires Absolute(origin, relative).Some?
    requires Since(Absolute(origin, relative).value, origin).Some?
    ensures Since(Absolute(origin, relative).value, origin).value == relative
  {
    EqualIffSameInstant(Since(Absolute(origin, relative).value, origin).value, relative);
  }

  lemma SinceRoundTrip(t: SourceTime, origin: SourceTime)
    requires Since(t, origin).Some?
    requires Absolute(origin, Since(t, origin).value).Some?
    ensures Absolute(origin, Since(t, origin).value).value == t
  {
    EqualIffSameStamp(Absolute(origin, Since(t, origin).value).value, t);
  }
}
