/** Judge calibration: rank correlation, regression of judge on human, and the advisory verdict. */
module Calibration {
  import opened Prelude
  import opened Reals
  import opened Wilson
  import opened Ranks

  // ----- moments -------------------------------------------------------------------------------

  function Square(a: real): real { a * a }

  function Product(a: real, b: real): real { a * b }

  function Mean(s: seq<real>): real { if s == [] then 0.0 else Sum(s) / |s| as real }

  /** Each element minus `m`. */
  function Centered(s: seq<real>, m: real): (r: seq<real>)
    ensures |r| == |s|
  {
    seq(|s|, i requires 0 <= i < |s| => s[i] - m)
  }

  function Dot(xs: seq<real>, ys: seq<real>): real
    requires |xs| == |ys|
  {
    if xs == [] then 0.0 else xs[0] * ys[0] + Dot(xs[1..], ys[1..])
  }

  function Cov(xs: seq<real>, ys: seq<real>): real
    requires |xs| == |ys|
  {
    Dot(Centered(xs, Mean(xs)), Centered(ys, Mean(ys)))
  }

  function Pearson(sqrt: real -> real, xs: seq<real>, ys: seq<real>): real
    requires |xs| == |ys|
  {
    var denom := sqrt(Product(Cov(xs, xs), Cov(ys, ys)));
    if denom != 0.0 then Cov(xs, ys) / denom else 0.0
  }

  function Spearman(sqrt: real -> real, xs: seq<real>, ys: seq<real>): real
    requires |xs| == |ys|
  {
    if |xs| < 2 then 0.0 else Pearson(sqrt, RanksOf(xs), RanksOf(ys))
  }

  // ----- Cauchy-Schwarz ------------------------------------------------------------------------

  lemma {:induction false} DotSelfNonNegative(xs: seq<real>)
    ensures 0.0 <= Dot(xs, xs)
  {
    if xs != [] {
      SquareNonNegative(xs[0]);
      DotSelfNonNegative(xs[1..]);
    }
  }

  /** One more coordinate: from S² <= AB, also (S + ab)² <= (A + a²)(B + b²). */
  lemma OneMoreCoordinate(s: real, a: real, b: real, x: real, y: real, s1: real, a1: real, b1: real)
    requires Square(s) <= Product(a, b) && 0.0 <= a && 0.0 <= b
    requires s1 == x * y + s && a1 == x * x + a && b1 == y * y + b
    ensures Square(s1) <= Product(a1, b1)
  {
    SquareNonNegative(x);
    SquareNonNegative(y);
    ProductNonNegative(a, y * y);
    ProductNonNegative(b, x * x);
    CrossTerm(s, a, b, x, y, a * (y * y), b * (x * x));
    Expansion(s, a, b, x, y);
    SquareForm(x * y + s, s1);
    ProductForm(x * x + a, y * y + b, a1, b1);
  }

  lemma SquareForm(a: real, b: real)
    requires a == b
    ensures Square(b) == a * a
  {}

  lemma ProductForm(a: real, b: real, c: real, d: real)
    requires a == c && b == d
    ensures Product(c, d) == a * b
  {}

  lemma Expansion(s: real, a: real, b: real, x: real, y: real)
    ensures (x * x + a) * (y * y + b) - (x * y + s) * (x * y + s)
         == (a * b - s * s) + (a * (y * y) + b * (x * x) - 2.0 * (s * (x * y)))
  {}

  lemma CrossTerm(s: real, a: real, b: real, x: real, y: real, u: real, v: real)
    requires s * s <= a * b && 0.0 <= u && 0.0 <= v && u == a * (y * y) && v == b * (x * x)
    ensures 2.0 * (s * (x * y)) <= u + v
  {
    var c := s * (x * y);
    var g := (x * y) * (x * y);
    SquareNonNegative(x * y);
    ProductMonotone(s * s, a * b, g);
    SquareOfCross(s, x * y, c);
    ProductsRegroup(a, b, x, y, u, v, g);
    SquareNonNegative(u - v);
    SumSquare(u, v);
    SquareOrder(2.0 * c, u + v);
  }

  lemma SquareOfCross(s: real, p: real, c: real)
    requires c == s * p
    ensures (2.0 * c) * (2.0 * c) == 4.0 * ((s * s) * (p * p))
  {}

  lemma ProductsRegroup(a: real, b: real, x: real, y: real, u: real, v: real, g: real)
    requires u == a * (y * y) && v == b * (x * x) && g == (x * y) * (x * y)
    ensures u * v == (a * b) * g
  {}

  lemma SumSquare(u: real, v: real)
    ensures (u + v) * (u + v) == (u - v) * (u - v) + 4.0 * (u * v)
  {}

  lemma {:induction false} CauchySchwarz(xs: seq<real>, ys: seq<real>)
    requires |xs| == |ys|
    ensures Square(Dot(xs, ys)) <= Product(Dot(xs, xs), Dot(ys, ys))
  {
    hide Square, Product;
    if xs == [] {
      EmptyProducts();
    } else {
      CauchySchwarz(xs[1..], ys[1..]);
      DotSelfNonNegative(xs[1..]);
      DotSelfNonNegative(ys[1..]);
      OneMoreCoordinate(Dot(xs[1..], ys[1..]), Dot(xs[1..], xs[1..]), Dot(ys[1..], ys[1..]), xs[0], ys[0],
                        Dot(xs, ys), Dot(xs, xs), Dot(ys, ys));
    }
  }

  lemma EmptyProducts()
    ensures Square(0.0) <= Product(0.0, 0.0)
  {}

  lemma RatioInUnit(c: real, p: real, d: real)
    requires Square(c) <= p && Square(d) == p && 0.0 < d
    ensures -1.0 <= c / d <= 1.0
  {
    SquareOrder(c, d);
    assert (-c) * (-c) == c * c;
    SquareOrder(-c, d);
    QuotientBounds(c, d, -1.0, 1.0);
  }

  lemma RootOfProduct(sqrt: real -> real, a: real, b: real)
    requires IsSqrt(sqrt) && 0.0 <= a && 0.0 <= b
    ensures 0.0 <= sqrt(Product(a, b)) && Square(sqrt(Product(a, b))) == Product(a, b)
  {
    ProductNonNegative(a, b);
  }

  /** Correlation is a correlation: for any two score lists Pearson's coefficient, and Spearman's on
      the average-tie ranks, lie in [-1, 1]. */
  lemma PearsonInUnit(sqrt: real -> real, xs: seq<real>, ys: seq<real>)
    requires IsSqrt(sqrt) && |xs| == |ys|
    ensures -1.0 <= Pearson(sqrt, xs, ys) <= 1.0
  {
    hide Square, Product, IsSqrt, Mean;
    var cx, cy := Centered(xs, Mean(xs)), Centered(ys, Mean(ys));
    CauchySchwarz(cx, cy);
    DotSelfNonNegative(cx);
    DotSelfNonNegative(cy);
    RootOfProduct(sqrt, Cov(xs, xs), Cov(ys, ys));
    var d := sqrt(Product(Cov(xs, xs), Cov(ys, ys)));
    if d != 0.0 { RatioInUnit(Cov(xs, ys), Product(Cov(xs, xs), Cov(ys, ys)), d); }
  }

  lemma SpearmanInUnit(sqrt: real -> real, xs: seq<real>, ys: seq<real>)
    requires IsSqrt(sqrt) && |xs| == |ys|
    ensures -1.0 <= Spearman(sqrt, xs, ys) <= 1.0
  {
    if |xs| >= 2 { PearsonInUnit(sqrt, RanksOf(xs), RanksOf(ys)); }
  }

  /** A strictly increasing rescaling of the judge's scores leaves the rank correlation unchanged. */
  lemma SpearmanIgnoresScale(sqrt: real -> real, xs: seq<real>, xs': seq<real>, ys: seq<real>)
    requires |xs| == |ys| && SameOrder(xs, xs')
    ensures Spearman(sqrt, xs', ys) == Spearman(sqrt, xs, ys)
  {
    RanksDependOnOrderOnly(xs, xs');
  }

  // ----- regression ----------------------------------------------------------------------------

  /** (slope, intercept) of ys on xs. */
  function Regression(xs: seq<real>, ys: seq<real>): (real, real)
    requires |xs| == |ys|
  {
    if |xs| < 2 then (1.0, 0.0)
    else if Cov(xs, xs) == 0.0 then (1.0, Mean(ys) - Mean(xs))
    else
      var slope := Cov(xs, ys) / Cov(xs, xs);
      (slope, Mean(ys) - Product(slope, Mean(xs)))
  }

  ghost predicate Linear(xs: seq<real>, ys: seq<real>, slope: real, shift: real) {
    |xs| == |ys| && forall i :: 0 <= i < |xs| ==> ys[i] == slope * xs[i] + shift
  }

  lemma {:induction false} LinearSum(xs: seq<real>, ys: seq<real>, slope: real, shift: real)
    requires Linear(xs, ys, slope, shift)
    ensures Sum(ys) == slope * Sum(xs) + shift * |xs| as real
  {
    if xs != [] {
      LinearSum(xs[1..], ys[1..], slope, shift);
      SumAlgebra(slope, shift, xs[0], Sum(xs[1..]), |xs[1..]| as real);
      assert ys[0] == slope * xs[0] + shift;
    }
  }

  lemma SumAlgebra(slope: real, shift: real, x: real, rest: real, n: real)
    ensures (slope * x + shift) + (slope * rest + shift * n) == slope * (x + rest) + shift * (n + 1.0)
  {}

  lemma LinearMean(xs: seq<real>, ys: seq<real>, slope: real, shift: real)
    requires Linear(xs, ys, slope, shift) && xs != []
    ensures Mean(ys) == Product(slope, Mean(xs)) + shift
  {
    hide Sum;
    LinearSum(xs, ys, slope, shift);
    MeanAlgebra(Sum(xs), slope, shift, |xs| as real);
  }

  lemma MeanAlgebra(total: real, slope: real, shift: real, n: real)
    requires n != 0.0
    ensures (slope * total + shift * n) / n == slope * (total / n) + shift
  {
    DivideSum(slope * total, shift * n, n);
    DivideProduct(total, slope, n);
    DivideProduct(n, shift, n);
  }

  lemma {:induction false} DotScaled(xs: seq<real>, zs: seq<real>, slope: real)
    requires |xs| == |zs| && forall i :: 0 <= i < |xs| ==> zs[i] == slope * xs[i]
    ensures Dot(xs, zs) == slope * Dot(xs, xs)
  {
    if xs != [] {
      DotScaled(xs[1..], zs[1..], slope);
      ScaleTerm(slope, xs[0], Dot(xs[1..], xs[1..]));
    }
  }

  lemma ScaleTerm(slope: real, x: real, rest: real)
    ensures x * (slope * x) + slope * rest == slope * (x * x + rest)
  {}

  lemma LinearAt(xs: seq<real>, ys: seq<real>, slope: real, shift: real)
    requires Linear(xs, ys, slope, shift)
    ensures |xs| == |ys| && forall i :: 0 <= i < |xs| ==> ys[i] == slope * xs[i] + shift
  {}

  lemma CovScales(human: seq<real>, judge: seq<real>, slope: real, bias: real)
    requires Linear(human, judge, slope, bias) && human != []
    ensures Cov(human, judge) == slope * Cov(human, human)
  {
    hide Mean, Linear, Dot;
    LinearMean(human, judge, slope, bias);
    var ch, cj := Centered(human, Mean(human)), Centered(judge, Mean(judge));
    assert |human| == |judge| by { LinearAt(human, judge, slope, bias); }
    forall i | 0 <= i < |human| ensures cj[i] == slope * ch[i] {
      LinearAt(human, judge, slope, bias);
      Spread(slope, Mean(human), human[i]);
    }
    DotScaled(ch, cj, slope);
  }

  lemma CancelFactor(x: real, slope: real, v: real)
    requires v != 0.0 && x == slope * v
    ensures x / v == slope
  {}

  /** The diagnostic measures what it claims to: a judge whose differences are exactly the human ones,
      scaled and shifted, is reported with exactly that compression and exactly that bias at parity,
      unless the human labels have no spread. */
  lemma RegressionRecoversJudge(human: seq<real>, judge: seq<real>, slope: real, bias: real)
    requires Linear(human, judge, slope, bias) && 2 <= |human| && Cov(human, human) != 0.0
    ensures Regression(human, judge) == (slope, bias)
  {
    hide Mean, Cov, Product;
    LinearMean(human, judge, slope, bias);
    CovScales(human, judge, slope, bias);
    CancelFactor(Cov(human, judge), slope, Cov(human, human));
  }

  // ----- agreement and the verdict ---------------------------------------------------------------

  datatype Verdict = Insufficient | Misaligned | Aligned

  const WILSON_Z := 1.645

  predicate SameSign(a: real, b: real) { (a > 0.0 && b > 0.0) || (a < 0.0 && b < 0.0) }

  /** Pairs on which the human has a preference, and those among them on which the judge agrees. */
  function Directional(judge: seq<real>, human: seq<real>): nat
    requires |judge| == |human|
  {
    if judge == [] then 0 else (if human[0] != 0.0 then 1 else 0) + Directional(judge[1..], human[1..])
  }

  function Agreements(judge: seq<real>, human: seq<real>): nat
    requires |judge| == |human|
  {
    if judge == [] then 0
    else (if human[0] != 0.0 && SameSign(judge[0], human[0]) then 1 else 0) + Agreements(judge[1..], human[1..])
  }

  /** The one-sided lower bound; the same lower end as the two-sided interval, without clipping. */
  function WilsonLower(sqrt: real -> real, k: nat, n: nat, z: real): real {
    if n == 0 then 0.0
    else LowerEnd(sqrt, k as real / n as real, n as real, z)
  }

  function LowerEnd(sqrt: real -> real, p: real, n: real, z: real): real
    requires 0.0 < n
  {
    PositiveDenominator(n, z);
    (p + z * z / (2.0 * n) - z * sqrt(Radicand(p, n, z))) / (1.0 + z * z / n)
  }

  function VerdictOf(directional: nat, lower: real, bias: real, slope: real,
                     biasLimit: real, minDirectional: int): Verdict {
    if directional < minDirectional then Insufficient
    else if lower <= 0.5 || bias > biasLimit || slope < 0.5 then Misaligned
    else Aligned
  }

  function Calibrate(sqrt: real -> real, judge: seq<real>, human: seq<real>,
                     biasLimit: real, minDirectional: int): Verdict
    requires |judge| == |human|
  {
    var n := Directional(judge, human);
    var (slope, bias) := Regression(human, judge);
    VerdictOf(n, WilsonLower(sqrt, Agreements(judge, human), n, WILSON_Z), bias, slope, biasLimit, minDirectional)
  }

  lemma {:induction false} AgreementsAmongDirectional(judge: seq<real>, human: seq<real>)
    requires |judge| == |human|
    ensures Agreements(judge, human) <= Directional(judge, human)
  {
    if judge != [] { AgreementsAmongDirectional(judge[1..], human[1..]); }
  }

  lemma LowerEndIsLow(sqrt: real -> real, p: real, n: real, z: real)
    requires 0.0 < n
    ensures LowerEnd(sqrt, p, n, z) == Low(sqrt, p, n, z)
  {
    hide Low, High, Radicand;
    LowHighForm(sqrt, p, n, z);
  }

  /** The one-sided bound is the lower end of the tripwire's interval, and never above the rate. */
  lemma WilsonLowerBelowRate(sqrt: real -> real, k: nat, n: nat, z: real)
    requires IsSqrt(sqrt) && 0.0 <= z && k <= n && 0 < n
    ensures WilsonLower(sqrt, k, n, z) == Low(sqrt, k as real / n as real, n as real, z)
    ensures WilsonLower(sqrt, k, n, z) <= k as real / n as real
  {
    hide Low, High, IsSqrt, Radicand, LowerEnd;
    Proportion(k, n);
    RawBrackets(sqrt, k as real / n as real, n as real, z);
    LowerEndIsLow(sqrt, k as real / n as real, n as real, z);
  }

  /** An aligned verdict is evidence: enough directional pairs, more than half of them won by the
      human's winner, gaps not compressed below half, and no more bias at parity than allowed. */
  lemma AlignedMeans(sqrt: real -> real, judge: seq<real>, human: seq<real>, biasLimit: real, minDirectional: int)
    requires IsSqrt(sqrt) && |judge| == |human|
    requires Calibrate(sqrt, judge, human, biasLimit, minDirectional).Aligned?
    ensures minDirectional <= Directional(judge, human)
    ensures 2 * Agreements(judge, human) > Directional(judge, human) > 0
    ensures Regression(human, judge).0 >= 0.5 && Regression(human, judge).1 <= biasLimit
  {
    var k, n := Agreements(judge, human), Directional(judge, human);
    AgreementsAmongDirectional(judge, human);
    hide IsSqrt, LowerEnd, Low, Regression;
    if n > 0 {
      WilsonLowerBelowRate(sqrt, k, n, WILSON_Z);
      HalfOf(k, n);
    }
  }

  lemma HalfOf(k: nat, n: nat)
    requires 0 < n && 0.5 < k as real / n as real
    ensures 2 * k > n
  {
    if 2 * k <= n { QuotientBounds(k as real, n as real, 0.0, 0.5); }
  }
}
