/** The Wilson score interval over the reals, for any square-root function. */
module Wilson {
  import opened Prelude
  import opened Reals

  /** `sqrt` is the square root of every non-negative real. */
  ghost predicate IsSqrt(sqrt: real -> real) {
    forall x: real :: 0.0 <= x ==> 0.0 <= sqrt(x) && sqrt(x) * sqrt(x) == x
  }

  /** The square of the half-width, before it is scaled: p(1-p)/n + z²/4n². */
  function Radicand(p: real, n: real, z: real): real
    requires 0.0 < n
  {
    p * (1.0 - p) / n + z * z / (4.0 * n * n)
  }

  function Center(p: real, n: real, z: real): real
    requires 0.0 < n
  {
    (p + z * z / (2.0 * n)) / (1.0 + z * z / n)
  }

  function Half(sqrt: real -> real, p: real, n: real, z: real): real
    requires 0.0 < n
  {
    z / (1.0 + z * z / n) * sqrt(Radicand(p, n, z))
  }

  /** The interval of `k` in `n`; the whole unit interval for an empty sample. */
  function Interval(sqrt: real -> real, k: int, n: int, z: real): (real, real) {
    if n <= 0 then (0.0, 1.0)
    else
      var p := k as real / n as real;
      var center, half := Center(p, n as real, z), Half(sqrt, p, n as real, z);
      (RMax(0.0, center - half), RMin(1.0, center + half))
  }

  // ----- the inequalities behind the interval, with w = 1/n and h = z/2n -------------------------

  /** The half-width is at least h times the distance of p from one half, doubled. */
  lemma HalfWidthDominates(p: real, s: real, w: real, h: real)
    requires 0.0 <= p <= 1.0 && 0.0 < w && 0.0 <= h && Root(s, p, w, h)
    ensures 0.0 <= s
    ensures h * (1.0 - 2.0 * p) <= s && -(h * (1.0 - 2.0 * p)) <= s
  {
    var v := p * (1.0 - p);
    ProductNonNegative(p, 1.0 - p);
    ProductNonNegative(v, w);
    ProductNonNegative(h, h);
    ProductNonNegative(h * h, v);
    var x := 1.0 - 2.0 * p;
    var d := h * x;
    SquareOfProduct(h, x);
    CenteredSquare(p);
    assert d * d == (h * h) * (1.0 - 4.0 * v);
    Distribute(h * h, v);
    assert d * d <= s * s;
    SquareOrder(d, s);
    assert (-d) * (-d) == d * d;
    SquareOrder(-d, s);
  }
  lemma SquareOfProduct(h: real, x: real) ensures (h * x) * (h * x) == (h * h) * (x * x) {}
  lemma CenteredSquare(p: real) ensures (1.0 - 2.0 * p) * (1.0 - 2.0 * p) == 1.0 - 4.0 * (p * (1.0 - p)) {}
  lemma Distribute(a: real, v: real) ensures a * (1.0 - 4.0 * v) == a - 4.0 * (a * v) {}

  /** Both ends move with the proportion: the half-widths differ by no more than the proportions do. */
  lemma SpreadBound(d: real, t: real, e: real, q: real, w: real, h: real, z: real)
    requires d * t == e * q * w && z * w == 2.0 * h && 0.0 <= e
    requires -t <= d <= t && -t <= 2.0 * h * q <= t
    ensures -e <= z * d <= e
  {
    Regroup(z, d, t, e, q, w, h);
    if t == 0.0 { ZeroProduct(z, d); }
    Slope(z * d, t, e, 2.0 * h * q);
  }

  /** The half-width of p: s with s² = p(1-p)w + h². */
  predicate Root(s: real, p: real, w: real, h: real) { 0.0 <= s && s * s == p * (1.0 - p) * w + h * h }

  lemma RootsApart(p1: real, p2: real, s1: real, s2: real, w: real, h: real)
    returns (d: real, t: real, e: real, q: real)
    requires 0.0 <= p1 <= p2 <= 1.0 && 0.0 < w && 0.0 <= h
    requires Root(s1, p1, w, h) && Root(s2, p2, w, h)
    ensures d == s2 - s1 && t == s1 + s2 && e == p2 - p1
    ensures d * t == e * q * w && -t <= 2.0 * h * q <= t && -t <= d <= t
  {
    hide Root;
    RootDifference(p1, p2, s1, s2, w, h);
    HalfWidthDominates(p1, s1, w, h);
    HalfWidthDominates(p2, s2, w, h);
    Halves(h, p1, p2);
    d, t, e, q := s2 - s1, s1 + s2, p2 - p1, 1.0 - p1 - p2;
  }

  lemma Spread(z: real, s1: real, s2: real) ensures z * (s2 - s1) == z * s2 - z * s1 {}
  lemma RootDifference(p1: real, p2: real, s1: real, s2: real, w: real, h: real)
    requires Root(s1, p1, w, h) && Root(s2, p2, w, h)
    ensures (s2 - s1) * (s1 + s2) == (p2 - p1) * (1.0 - p1 - p2) * w
  {
    DifferenceOfSquares(s2, s1);
    VarianceDifference(p1, p2, w);
  }
  lemma VarianceDifference(p1: real, p2: real, w: real)
    ensures p2 * (1.0 - p2) * w - p1 * (1.0 - p1) * w == (p2 - p1) * (1.0 - p1 - p2) * w
  {
    assert p2 * (1.0 - p2) - p1 * (1.0 - p1) == (p2 - p1) * (1.0 - p1 - p2);
  }
  lemma Halves(h: real, p1: real, p2: real)
    ensures h * (1.0 - 2.0 * p1) + h * (1.0 - 2.0 * p2) == 2.0 * h * (1.0 - p1 - p2)
  {}
  lemma Regroup(z: real, d: real, t: real, e: real, q: real, w: real, h: real)
    requires d * t == e * q * w && z * w == 2.0 * h
    ensures z * d * t == e * (2.0 * h * q)
  {
    Associate(z, d, t);
    assert z * (e * q * w) == e * q * (z * w);
  }

  /** From x t = e b, |b| <= t and |x| = 0 when t = 0: |x| <= e. */
  lemma Slope(x: real, t: real, e: real, b: real)
    requires 0.0 <= e && -t <= b <= t && x * t == e * b
    requires t == 0.0 ==> x == 0.0
    ensures -e <= x <= e
  {
    var p, q := x * t, e * t;
    ProductMonotone(b, t, e);
    ProductMonotone(-t, b, e);
    NegateProduct(e, t);
    assert -q <= p <= q;
    if t > 0.0 { SlopeBound(x, t, e, p, q); }
  }

  lemma NegateProduct(e: real, b: real) ensures e * (-b) == -(e * b) {}

  lemma ZeroProduct(z: real, d: real)
    requires d == 0.0
    ensures z * d == 0.0
  {}

  lemma SlopeBound(x: real, t: real, e: real, p: real, q: real)
    requires 0.0 < t && p == x * t && q == e * t && -q <= p <= q
    ensures -e <= x <= e
  {
    if x > e { ProductStrict(e, x, t); }
    if x < -e {
      ProductStrict(x, -e, t);
      NegateProduct(t, e);
    }
  }

  lemma EndsMonotone(p1: real, p2: real, s1: real, s2: real, w: real, h: real, z: real)
    requires 0.0 <= p1 <= p2 <= 1.0 && 0.0 < w && 0.0 <= h && z * w == 2.0 * h
    requires Root(s1, p1, w, h) && Root(s2, p2, w, h)
    ensures -(p2 - p1) <= z * (s2 - s1) <= p2 - p1
  {
    hide Root;
    var d, t, e, q := RootsApart(p1, p2, s1, s2, w, h);
    SpreadBound(d, t, e, q, w, h, z);
  }

  // ----- the interval in those terms -------------------------------------------------------------

  lemma RadicandForm(p: real, n: real, z: real, w: real, h: real)
    requires 0.0 < n && w == 1.0 / n && h == z * w / 2.0
    ensures Radicand(p, n, z) == p * (1.0 - p) * w + h * h
    ensures 0.0 < w && z * w == 2.0 * h
  {
    var v := p * (1.0 - p);
    DivideProduct(1.0, v, n);
    assert v / n == v * w;
    DivideByProduct(z * z, 4.0 * n, n);
    DivideByProduct(z * z, 4.0, n);
    assert z * z / (4.0 * n * n) == h * h;
  }

  lemma ShiftForm(n: real, z: real, w: real, h: real)
    requires 0.0 < n && w == 1.0 / n && h == z * w / 2.0
    ensures z * z / (2.0 * n) == z * h && z * z / n == 2.0 * (z * h)
  {
    DivideProduct(1.0, z * z, n);
    assert z * z / n == z * z * w;
    DivideByProduct(z * z, 2.0, n);
    assert z * h == z * (z * w) / 2.0;
    Associate(z, z, w);
  }

  lemma QuotientOfProduct(z: real, s: real, d: real)
    requires d != 0.0
    ensures z / d * s == z * s / d
  {
    DivideProduct(z, s, d);
  }

  /** Both ends as one quotient. */
  lemma EndsForm(p: real, n: real, z: real, s: real)
    requires 0.0 < n && 0.0 < 1.0 + z * z / n
    ensures var d := 1.0 + z * z / n; var c := p + z * z / (2.0 * n);
            c / d - z / d * s == (c - z * s) / d && c / d + z / d * s == (c + z * s) / d
  {
    var d, c := 1.0 + z * z / n, p + z * z / (2.0 * n);
    QuotientOfProduct(z, s, d);
    DivideSum(c, z * s, d);
  }

  lemma PositiveDenominator(n: real, z: real)
    requires 0.0 < n
    ensures 0.0 < 1.0 + z * z / n
  {
    SquareNonNegative(z);
    DivideMonotone(0.0, z * z, n);
  }

  lemma RootOf(sqrt: real -> real, p: real, n: real, z: real, w: real, h: real)
    requires IsSqrt(sqrt) && 0.0 <= p <= 1.0 && 0.0 < n && 0.0 <= z && w == 1.0 / n && h == z * w / 2.0
    ensures Root(sqrt(Radicand(p, n, z)), p, w, h) && 0.0 < w && 0.0 <= h && z * w == 2.0 * h
  {
    RadicandForm(p, n, z, w, h);
    ProductNonNegative(z, w);
    ProductNonNegative(p, 1.0 - p);
    ProductNonNegative(p * (1.0 - p), w);
    ProductNonNegative(h, h);
    assert 0.0 <= Radicand(p, n, z);
  }

  /** Raw ends of the interval at proportion p, before they are clipped to [0, 1]. */
  function Low(sqrt: real -> real, p: real, n: real, z: real): real
    requires 0.0 < n
  {
    Center(p, n, z) - Half(sqrt, p, n, z)
  }

  function High(sqrt: real -> real, p: real, n: real, z: real): real
    requires 0.0 < n
  {
    Center(p, n, z) + Half(sqrt, p, n, z)
  }

  lemma LowHighForm(sqrt: real -> real, p: real, n: real, z: real)
    requires 0.0 < n
    ensures 0.0 < 1.0 + z * z / n
    ensures var d := 1.0 + z * z / n; var c := p + z * z / (2.0 * n); var s := sqrt(Radicand(p, n, z));
            Low(sqrt, p, n, z) == (c - z * s) / d && High(sqrt, p, n, z) == (c + z * s) / d
  {
    hide Radicand;
    PositiveDenominator(n, z);
    EndsForm(p, n, z, sqrt(Radicand(p, n, z)));
  }

  /** Both ends rise with the proportion. */
  lemma RawMonotone(sqrt: real -> real, p1: real, p2: real, n: real, z: real)
    requires IsSqrt(sqrt) && 0.0 <= p1 <= p2 <= 1.0 && 0.0 < n && 0.0 <= z
    ensures Low(sqrt, p1, n, z) <= Low(sqrt, p2, n, z) && High(sqrt, p1, n, z) <= High(sqrt, p2, n, z)
  {
    hide Root, Low, High, Radicand, IsSqrt;
    var w := 1.0 / n;
    var h := z * w / 2.0;
    RootOf(sqrt, p1, n, z, w, h);
    RootOf(sqrt, p2, n, z, w, h);
    var s1, s2 := sqrt(Radicand(p1, n, z)), sqrt(Radicand(p2, n, z));
    EndsMonotone(p1, p2, s1, s2, w, h, z);
    LowHighForm(sqrt, p1, n, z);
    LowHighForm(sqrt, p2, n, z);
    RawStep(p1, p2, z * z / (2.0 * n), z, s1, s2, 1.0 + z * z / n);
  }

  lemma RawStep(p1: real, p2: real, c: real, z: real, s1: real, s2: real, d: real)
    requires 0.0 < d && -(p2 - p1) <= z * (s2 - s1) <= p2 - p1
    ensures (p1 + c - z * s1) / d <= (p2 + c - z * s2) / d && (p1 + c + z * s1) / d <= (p2 + c + z * s2) / d
  {
    Spread(z, s1, s2);
    DivideMonotone(p1 + c - z * s1, p2 + c - z * s2, d);
    DivideMonotone(p1 + c + z * s1, p2 + c + z * s2, d);
  }

  /** Both ends over named parts, for callers that keep the products to themselves. */
  lemma EndsAt(sqrt: real -> real, p: real, n: real, z: real, c: real, d: real, zs: real)
    requires 0.0 < n && c == z * z / (2.0 * n) && d == 1.0 + z * z / n && zs == z * sqrt(Radicand(p, n, z))
    ensures 0.0 < d && Low(sqrt, p, n, z) == (p + c - zs) / d && High(sqrt, p, n, z) == (p + c + zs) / d
  {
    hide Low, High, Radicand;
    LowHighForm(sqrt, p, n, z);
  }

  /** The interval brackets the proportion. */
  lemma RawBrackets(sqrt: real -> real, p: real, n: real, z: real)
    requires IsSqrt(sqrt) && 0.0 <= p <= 1.0 && 0.0 < n && 0.0 <= z
    ensures Low(sqrt, p, n, z) <= p <= High(sqrt, p, n, z)
  {
    hide *;
    RawBracketsAt(sqrt, p, n, z, z * z / (2.0 * n), 1.0 + z * z / n, z * sqrt(Radicand(p, n, z)));
  }

  lemma RawBracketsAt(sqrt: real -> real, p: real, n: real, z: real, c: real, d: real, zs: real)
    requires IsSqrt(sqrt) && 0.0 <= p <= 1.0 && 0.0 < n && 0.0 <= z
    requires c == z * z / (2.0 * n) && d == 1.0 + z * z / n && zs == z * sqrt(Radicand(p, n, z))
    ensures Low(sqrt, p, n, z) <= p <= High(sqrt, p, n, z)
  {
    hide *;
    HalfWidthCovers(sqrt, p, n, z, c, d);
    EndsAt(sqrt, p, n, z, c, d, zs);
    BracketStep(p, c, zs, d);
  }

  lemma HalfWidthCovers(sqrt: real -> real, p: real, n: real, z: real, c: real, d: real)
    requires IsSqrt(sqrt) && 0.0 <= p <= 1.0 && 0.0 < n && 0.0 <= z
    requires c == z * z / (2.0 * n) && d == 1.0 + z * z / n
    ensures d == 1.0 + 2.0 * c
    ensures -(z * sqrt(Radicand(p, n, z))) <= c * (1.0 - 2.0 * p) <= z * sqrt(Radicand(p, n, z))
  {
    hide Radicand, IsSqrt, Root;
    var w := 1.0 / n;
    var h := z * w / 2.0;
    RootOf(sqrt, p, n, z, w, h);
    HalfWidthDominates(p, sqrt(Radicand(p, n, z)), w, h);
    ShiftForm(n, z, w, h);
    ScaleBound(z, h, 1.0 - 2.0 * p, sqrt(Radicand(p, n, z)));
  }

  lemma ScaleBound(z: real, h: real, x: real, s: real)
    requires 0.0 <= z && h * x <= s && -(h * x) <= s
    ensures -(z * s) <= (z * h) * x <= z * s
  {
    ProductMonotone(h * x, s, z);
    ProductMonotone(-s, h * x, z);
    Associate(z, h, x);
    NegateProduct(z, s);
  }

  lemma BracketStep(p: real, c: real, zs: real, d: real)
    requires d == 1.0 + 2.0 * c && 0.0 < d && -zs <= c * (1.0 - 2.0 * p) <= zs
    ensures (p + c - zs) / d <= p <= (p + c + zs) / d
  {
    BracketAlgebra(p, c, d);
    DivideMonotone(p + c - zs, p * d, d);
    DivideMonotone(p * d, p + c + zs, d);
  }

  lemma BracketAlgebra(p: real, c: real, d: real)
    requires d == 1.0 + 2.0 * c
    ensures p * d == p + c - c * (1.0 - 2.0 * p) && (d != 0.0 ==> p * d / d == p)
  {}

  // ----- what the tripwire relies on -------------------------------------------------------------

  lemma Proportion(k: int, n: int)
    requires 0 <= k <= n && 0 < n
    ensures 0.0 <= k as real / n as real <= 1.0
  {
    QuotientBounds(k as real, n as real, 0.0, 1.0);
  }

  /** For a fixed sample size both ends of the interval rise with the number of failures. */
  lemma IntervalMonotone(sqrt: real -> real, k1: int, k2: int, n: int, z: real)
    requires IsSqrt(sqrt) && 0.0 <= z && 0 <= k1 <= k2 <= n
    ensures Interval(sqrt, k1, n, z).0 <= Interval(sqrt, k2, n, z).0
    ensures Interval(sqrt, k1, n, z).1 <= Interval(sqrt, k2, n, z).1
  {
    if 0 < n {
      Proportion(k1, n);
      Proportion(k2, n);
      DivideMonotone(k1 as real, k2 as real, n as real);
      RawMonotone(sqrt, k1 as real / n as real, k2 as real / n as real, n as real, z);
    }
  }

  /** The interval is inside [0, 1] and contains the observed proportion. */
  lemma IntervalBrackets(sqrt: real -> real, k: int, n: int, z: real)
    requires IsSqrt(sqrt) && 0.0 <= z && 0 <= k <= n
    ensures 0.0 <= Interval(sqrt, k, n, z).0 <= Interval(sqrt, k, n, z).1 <= 1.0
    ensures 0 < n ==> Interval(sqrt, k, n, z).0 <= k as real / n as real <= Interval(sqrt, k, n, z).1
  {
    if 0 < n {
      Proportion(k, n);
      RawBrackets(sqrt, k as real / n as real, n as real, z);
    }
  }
}
