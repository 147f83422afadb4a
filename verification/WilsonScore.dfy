/** What the Wilson interval is, without its formula: the proportions a score test does not reject. */
module WilsonScore {
  import opened Prelude
  import opened Reals
  import opened Wilson

  /** `x` is within `z` standard errors of the observed proportion, the error being that of `x` itself. */
  predicate NotRejected(p: real, n: real, z: real, x: real)
    requires 0.0 < n
  {
    (p - x) * (p - x) <= z * z * (x * (1.0 - x)) / n
  }

  // ----- the quadratic, with t = z²/n ------------------------------------------------------------

  // Products under names of their own, so that proofs can hide what they do not multiply out.
  function Times(a: real, b: real): real { a * b }

  function Sq(a: real): real { a * a }

  /** The variance of `x`, scaled by t. */
  function Var(t: real, x: real): real { t * (x * (1.0 - x)) }

  /** The offset of `x` from the centre, before division by 1 + t. */
  function Offset(p: real, x: real, t: real): real { (1.0 + t) * x - p - t / 2.0 }

  lemma ScoreIdentity(p: real, x: real, t: real)
    ensures Sq(Offset(p, x, t)) - (Var(t, p) + Sq(t) / 4.0) == Times(1.0 + t, Sq(p - x) - Var(t, x))
  {
    var e := x - p;
    var f := t * (x - 0.5);
    assert Offset(p, x, t) == e + f;
    SquareOfSum(e, f);
    SquareOfScaled(t, x);
    Residue(p, x, t);
  }

  lemma SquareOfSum(e: real, f: real)
    ensures (e + f) * (e + f) == e * e + 2.0 * (e * f) + f * f
  {}

  lemma SquareOfScaled(t: real, x: real)
    ensures var f := t * (x - 0.5); f * f == t * t * (0.25 - x * (1.0 - x))
  {
    var g := x - 0.5;
    assert g * g == 0.25 - x * (1.0 - x);
    assert (t * g) * (t * g) == t * t * (g * g);
  }

  lemma Residue(p: real, x: real, t: real)
    ensures var e := x - p; var f := t * (x - 0.5);
            2.0 * (e * f) - t * (p * (1.0 - p)) == t * (e * e) - t * (x * (1.0 - x))
  {
    var e := x - p;
    assert 2.0 * (e * (x - 0.5)) - p * (1.0 - p) == e * e - x * (1.0 - x);
    assert e * (t * (x - 0.5)) == t * (e * (x - 0.5));
    assert t * (2.0 * (e * (x - 0.5)) - p * (1.0 - p)) == t * (e * e - x * (1.0 - x));
  }

  lemma WithinIff(y: real, m: real)
    requires 0.0 <= m
    ensures -m <= y <= m <==> Sq(y) <= Sq(m)
  {
    NegatedSquare(y);
    if y * y <= m * m {
      SquareOrder(y, m);
      SquareOrder(-y, m);
    } else {
      if 0.0 <= y <= m { ProductMonotone(y, m, y); ProductMonotone(y, m, m); }
      if -m <= y <= 0.0 { ProductMonotone(-y, m, -y); ProductMonotone(-y, m, m); }
    }
  }

  lemma NegatedSquare(y: real)
    ensures (-y) * (-y) == y * y
  {}

  /** The half-width, scaled: (z s)² = t p(1-p) + t²/4. */
  lemma HalfSquared(sqrt: real -> real, p: real, n: real, z: real, t: real)
    requires IsSqrt(sqrt) && 0.0 <= p <= 1.0 && 0.0 < n && 0.0 <= z && t == z * z / n
    ensures var m := z * sqrt(Radicand(p, n, z)); 0.0 <= m && Sq(m) == Var(t, p) + Sq(t) / 4.0
    ensures 0.0 <= t && z * z / (2.0 * n) == t / 2.0
  {
    hide Radicand, IsSqrt;
    var w := 1.0 / n;
    var h := z * w / 2.0;
    RootOf(sqrt, p, n, z, w, h);
    ShiftForm(n, z, w, h);
    var s := sqrt(Radicand(p, n, z));
    ProductNonNegative(z, s);
    ProductNonNegative(z, h);
    Scaled(z, s, p * (1.0 - p), w, h, t);
  }

  lemma Scaled(z: real, s: real, v: real, w: real, h: real, t: real)
    requires s * s == v * w + h * h && z * w == 2.0 * h && t == 2.0 * (z * h)
    ensures (z * s) * (z * s) == t * v + t * t / 4.0
  {
    var zz := z * z;
    assert (z * s) * (z * s) == zz * (s * s);
    assert zz * (v * w + h * h) == zz * (v * w) + zz * (h * h);
    assert zz * (v * w) == v * (z * (z * w));
    assert z * (2.0 * h) == t;
    assert zz * (h * h) == (z * h) * (z * h);
    assert (z * h) * (z * h) == t / 2.0 * (t / 2.0);
  }

  lemma CancelPositive(d: real, a: real)
    requires 0.0 < d
    ensures Times(d, a) <= 0.0 <==> a <= 0.0
  {
    if a > 0.0 { ProductStrict(0.0, d, a); }
    if a <= 0.0 { ProductMonotone(a, 0.0, d); }
  }

  /** Comparing with x is comparing with x d after multiplying by d > 0. */
  lemma Scales(q: real, x: real, d: real)
    requires 0.0 < d
    ensures q <= x <==> Times(q, d) <= Times(x, d)
    ensures x <= q <==> Times(x, d) <= Times(q, d)
  {
    if q < x { ProductStrict(q, x, d); }
    if x < q { ProductStrict(x, q, d); }
  }

  lemma OffsetForm(p: real, x: real, t: real)
    ensures Offset(p, x, t) == Times(x, 1.0 + t) - (p + t / 2.0)
  {}

  /** Between two quotients over 1 + t, in terms of the quadratic. */
  lemma BetweenIff(p: real, x: real, t: real, m: real, low: real, high: real)
    requires 0.0 <= t && 0.0 <= m && Sq(m) == Var(t, p) + Sq(t) / 4.0
    requires Times(low, 1.0 + t) == p + t / 2.0 - m && Times(high, 1.0 + t) == p + t / 2.0 + m
    ensures low <= x <= high <==> Sq(p - x) <= Var(t, x)
  {
    hide *;
    Scales(low, x, 1.0 + t);
    Scales(high, x, 1.0 + t);
    OffsetForm(p, x, t);
    WithinIff(Offset(p, x, t), m);
    ScoreIdentity(p, x, t);
    CancelPositive(1.0 + t, Sq(p - x) - Var(t, x));
  }

  lemma RejectionForm(p: real, n: real, z: real, x: real, t: real)
    requires 0.0 < n && t == z * z / n
    ensures NotRejected(p, n, z, x) <==> Sq(p - x) <= Var(t, x)
  {
    DivideProduct(z * z, x * (1.0 - x), n);
  }

  lemma QuotientTimes(a: real, d: real, q: real)
    requires d != 0.0 && q == a / d
    ensures Times(q, d) == a
  {
    DivideTimes(a, d);
  }

  /** Between the raw ends are exactly the proportions that are not rejected. */
  lemma RawIsScoreTest(sqrt: real -> real, p: real, n: real, z: real, x: real)
    requires IsSqrt(sqrt) && 0.0 <= p <= 1.0 && 0.0 < n && 0.0 <= z
    ensures Low(sqrt, p, n, z) <= x <= High(sqrt, p, n, z) <==> NotRejected(p, n, z, x)
  {
    hide *;
    var t, m := z * z / n, z * sqrt(Radicand(p, n, z));
    HalfSquared(sqrt, p, n, z, t);
    EndsAt(sqrt, p, n, z, t / 2.0, 1.0 + t, m);
    RejectionForm(p, n, z, x, t);
    QuotientTimes(p + t / 2.0 - m, 1.0 + t, Low(sqrt, p, n, z));
    QuotientTimes(p + t / 2.0 + m, 1.0 + t, High(sqrt, p, n, z));
    BetweenIff(p, x, t, m, Low(sqrt, p, n, z), High(sqrt, p, n, z));
  }

  /** The interval is the score test turned round: a proportion is inside it if and only if its distance
      from the observed one is at most z of its own standard errors. This fixes both ends, so how wide
      the interval is. */
  lemma IntervalIsScoreTest(sqrt: real -> real, k: int, n: int, z: real, x: real)
    requires IsSqrt(sqrt) && 0.0 <= z && 0 <= k <= n && 0 < n && 0.0 <= x <= 1.0
    ensures Interval(sqrt, k, n, z).0 <= x <= Interval(sqrt, k, n, z).1
            <==> NotRejected(k as real / n as real, n as real, z, x)
  {
    hide NotRejected;
    Proportion(k, n);
    RawIsScoreTest(sqrt, k as real / n as real, n as real, z, x);
  }

  /** Both ends are themselves not rejected: the interval is closed at proportions that are just kept. */
  lemma EndsAreKept(sqrt: real -> real, k: int, n: int, z: real)
    requires IsSqrt(sqrt) && 0.0 <= z && 0 <= k <= n && 0 < n
    ensures var (low, high) := Interval(sqrt, k, n, z);
            NotRejected(k as real / n as real, n as real, z, low)
            && NotRejected(k as real / n as real, n as real, z, high)
  {
    hide NotRejected, Interval;
    IntervalBrackets(sqrt, k, n, z);
    IntervalIsScoreTest(sqrt, k, n, z, Interval(sqrt, k, n, z).0);
    IntervalIsScoreTest(sqrt, k, n, z, Interval(sqrt, k, n, z).1);
  }
}
