/** What fixes the calibration's figures: the order of ranks, perfect correlations, least squares, and when
    a judge counts as aligned. */
module CalibrationLaws {
  import opened Prelude
  import opened Reals
  import opened Ranks
  import opened Wilson
  import opened WilsonScore
  import opened Calibration

  // ----- ranks -----------------------------------------------------------------------------------

  lemma {:induction false} CountsBelow(s: seq<real>, v: real, w: real)
    requires v < w
    ensures Less(s, v) + Equal(s, v) <= Less(s, w)
  {
    if s != [] { CountsBelow(s[1..], v, w); }
  }

  lemma {:induction false} CountsItself(s: seq<real>, i: nat)
    requires i < |s|
    ensures 1 <= Equal(s, s[i])
  {
    if i > 0 { CountsItself(s[1..], i - 1); }
  }

  /** Larger values have larger ranks, and ties share theirs. */
  lemma RanksFollowValues(s: seq<real>, i: nat, j: nat)
    requires i < |s| && j < |s|
    ensures RanksOf(s)[i] < RanksOf(s)[j] <==> s[i] < s[j]
    ensures RanksOf(s)[i] == RanksOf(s)[j] <==> s[i] == s[j]
  {
    CountsItself(s, i);
    CountsItself(s, j);
    if s[i] < s[j] { CountsBelow(s, s[i], s[j]); }
    if s[j] < s[i] { CountsBelow(s, s[j], s[i]); }
  }

  // ----- perfect correlation ---------------------------------------------------------------------

  lemma {:induction false} DotOfScaled(xs: seq<real>, zs: seq<real>, slope: real)
    requires |xs| == |zs| && forall i :: 0 <= i < |xs| ==> zs[i] == slope * xs[i]
    ensures Dot(zs, zs) == Product(Square(slope), Dot(xs, xs))
  {
    if xs != [] {
      DotOfScaled(xs[1..], zs[1..], slope);
      OneTerm(slope, xs[0], Dot(xs[1..], xs[1..]));
    }
  }

  lemma OneTerm(slope: real, x: real, rest: real)
    ensures (slope * x) * (slope * x) + Product(Square(slope), rest) == Product(Square(slope), x * x + rest)
  {
    var q := slope * slope;
    assert (slope * x) * (slope * x) == q * (x * x);
  }

  lemma ScaledSpread(human: seq<real>, judge: seq<real>, slope: real, bias: real)
    requires Linear(human, judge, slope, bias) && human != []
    ensures Cov(judge, judge) == Product(Square(slope), Cov(human, human))
  {
    hide Mean, Linear, Dot, Product, Square;
    LinearMean(human, judge, slope, bias);
    var ch, cj := Centered(human, Mean(human)), Centered(judge, Mean(judge));
    assert |human| == |judge| by { LinearAt(human, judge, slope, bias); }
    forall i | 0 <= i < |human| ensures cj[i] == slope * ch[i] {
      LinearAt(human, judge, slope, bias);
      CentredTerm(slope, bias, Mean(human), human[i], Mean(judge), judge[i]);
    }
    DotOfScaled(ch, cj, slope);
  }

  lemma CentredTerm(slope: real, bias: real, mx: real, x: real, my: real, y: real)
    requires y == slope * x + bias && my == Product(slope, mx) + bias
    ensures y - my == slope * (x - mx)
  {}

  lemma RootOfSquares(sqrt: real -> real, slope: real, v: real)
    requires IsSqrt(sqrt) && 0.0 <= v
    ensures sqrt(Product(v, Product(Square(slope), v))) == (if 0.0 <= slope then slope * v else -slope * v)
  {
    var m := if 0.0 <= slope then slope * v else -slope * v;
    if 0.0 <= slope { ProductNonNegative(slope, v); } else { ProductNonNegative(-slope, v); }
    assert m * m == (slope * slope) * (v * v);
    assert Product(v, Product(Square(slope), v)) == (slope * slope) * (v * v) == m * m;
    SquareNonNegative(m);
    UniqueRoot(sqrt(m * m), m);
  }

  lemma UniqueRoot(r: real, m: real)
    requires 0.0 <= r && 0.0 <= m && r * r == m * m
    ensures r == m
  {
    SquareOrder(r, m);
    SquareOrder(m, r);
  }

  /** Pearson's coefficient of a linear relation is 1 when it rises and -1 when it falls. */
  lemma PerfectCorrelation(sqrt: real -> real, xs: seq<real>, ys: seq<real>, slope: real, shift: real)
    requires IsSqrt(sqrt) && Linear(xs, ys, slope, shift) && xs != [] && Cov(xs, xs) != 0.0 && slope != 0.0
    ensures Pearson(sqrt, xs, ys) == if 0.0 < slope then 1.0 else -1.0
  {
    hide Linear, Mean, Dot, Centered, Square, Product, IsSqrt, Cov;
    assert |xs| == |ys| by { LinearAt(xs, ys, slope, shift); }
    CovScales(xs, ys, slope, shift);
    ScaledSpread(xs, ys, slope, shift);
    SpreadNonNegative(xs);
    var v := Cov(xs, xs);
    RootOfSquares(sqrt, slope, v);
    RatioOfSelf(slope, v, Cov(xs, ys), sqrt(Product(v, Cov(ys, ys))));
  }

  lemma SpreadNonNegative(xs: seq<real>)
    ensures 0.0 <= Cov(xs, xs)
  {
    DotSelfNonNegative(Centered(xs, Mean(xs)));
  }

  lemma RatioOfSelf(slope: real, v: real, c: real, d: real)
    requires 0.0 < v && slope != 0.0 && c == slope * v && d == (if 0.0 <= slope then slope * v else -slope * v)
    ensures d != 0.0 && c / d == if 0.0 < slope then 1.0 else -1.0
  {
    if 0.0 < slope {
      PositiveProduct(slope, v, d);
    } else {
      PositiveProduct(-slope, v, d);
      assert c == -d;
    }
  }

  /** Two score lists that order everything alike have rank correlation 1. */
  lemma SameOrderCorrelates(sqrt: real -> real, xs: seq<real>, ys: seq<real>)
    requires IsSqrt(sqrt) && SameOrder(xs, ys) && 2 <= |xs| && Cov(RanksOf(xs), RanksOf(xs)) != 0.0
    ensures |xs| == |ys| && Spearman(sqrt, xs, ys) == 1.0
  {
    hide Pearson, Cov, IsSqrt;
    RanksDependOnOrderOnly(xs, ys);
    var r := RanksOf(xs);
    assert Linear(r, r, 1.0, 0.0);
    PerfectCorrelation(sqrt, r, r, 1.0, 0.0);
  }

  // ----- least squares ---------------------------------------------------------------------------

  /** What a line leaves over. */
  function Residuals(xs: seq<real>, ys: seq<real>, slope: real, shift: real): (r: seq<real>)
    requires |xs| == |ys|
    ensures |r| == |xs|
  {
    seq(|xs|, i requires 0 <= i < |xs| => ys[i] - (Product(slope, xs[i]) + shift))
  }

  lemma {:induction false} DotOfDifference(cx: seq<real>, cy: seq<real>, r: seq<real>, slope: real)
    requires |cx| == |cy| == |r| && forall i :: 0 <= i < |r| ==> r[i] == cy[i] - Product(slope, cx[i])
    ensures Dot(cx, r) == Dot(cx, cy) - Product(slope, Dot(cx, cx))
  {
    if cx != [] {
      DotOfDifference(cx[1..], cy[1..], r[1..], slope);
      DifferenceTerm(cx[0], cy[0], slope, Dot(cx[1..], cy[1..]), Dot(cx[1..], cx[1..]));
    }
  }

  lemma DifferenceTerm(x: real, y: real, slope: real, a: real, b: real)
    ensures x * (y - Product(slope, x)) + (a - Product(slope, b)) == (x * y + a) - Product(slope, x * x + b)
  {
    assert x * (slope * x) == slope * (x * x);
  }

  /** The reported line is the least-squares line, for any scores: it passes through the two means, and
      what it leaves over is uncorrelated with the human differences. */
  lemma RegressionIsLeastSquares(human: seq<real>, judge: seq<real>)
    requires |human| == |judge| && 2 <= |human| && Cov(human, human) != 0.0
    ensures var (slope, bias) := Regression(human, judge);
            && Mean(judge) == Product(slope, Mean(human)) + bias
            && Dot(Centered(human, Mean(human)), Residuals(human, judge, slope, bias)) == 0.0
  {
    hide Mean, Dot, Square;
    var (slope, bias) := Regression(human, judge);
    var cx, cy := Centered(human, Mean(human)), Centered(judge, Mean(judge));
    var r := Residuals(human, judge, slope, bias);
    forall i | 0 <= i < |human| ensures r[i] == cy[i] - Product(slope, cx[i]) {
      ResidualTerm(slope, human[i], Mean(human));
    }
    DotOfDifference(cx, cy, r, slope);
    QuotientTimes(Cov(human, judge), Cov(human, human), slope);
  }

  lemma ResidualTerm(slope: real, x: real, m: real)
    ensures Product(slope, x) - Product(slope, m) == Product(slope, x - m)
  {}

  lemma QuotientTimes(a: real, d: real, q: real)
    requires d != 0.0 && q == a / d
    ensures Product(q, d) == a
  {
    DivideTimes(a, d);
  }

  /** Whatever the spread, the line passes through the two means; without any spread in the human
      differences it has slope 1, and fewer than two pairs give the neutral line. */
  lemma LineWithoutSpread(human: seq<real>, judge: seq<real>)
    requires |human| == |judge|
    ensures var (slope, bias) := Regression(human, judge);
            && (|human| < 2 ==> slope == 1.0 && bias == 0.0)
            && (2 <= |human| && Cov(human, human) == 0.0 ==> slope == 1.0 && Mean(judge) == Mean(human) + bias)
  {}

  // ----- the directional pairs -------------------------------------------------------------------

  /** The pairs on which the human prefers one side, and those on which both prefer the same side. */
  function Preferring(human: seq<real>): set<int> { set i | 0 <= i < |human| && human[i] != 0.0 }

  predicate Agree(judge: real, human: real) { judge != 0.0 && human != 0.0 && (0.0 < judge <==> 0.0 < human) }

  function Agreeing(judge: seq<real>, human: seq<real>): set<int>
    requires |judge| == |human|
  {
    set i | 0 <= i < |human| && Agree(judge[i], human[i])
  }

  lemma {:induction false} LastPair(judge: seq<real>, human: seq<real>, n: nat)
    requires |judge| == |human| == n + 1
    ensures Directional(judge, human)
            == Directional(judge[..n], human[..n]) + if human[n] != 0.0 then 1 else 0
    ensures Agreements(judge, human)
            == Agreements(judge[..n], human[..n])
               + if human[n] != 0.0 && SameSign(judge[n], human[n]) then 1 else 0
  {
    if n > 0 {
      assert judge[1..][..n - 1] == judge[..n][1..] && human[1..][..n - 1] == human[..n][1..];
      LastPair(judge[1..], human[1..], n - 1);
    }
  }

  lemma PreferringStep(human: seq<real>, n: nat)
    requires |human| == n + 1
    ensures |Preferring(human)| == |Preferring(human[..n])| + if human[n] != 0.0 then 1 else 0
  {
    if human[n] != 0.0 {
      assert Preferring(human) == Preferring(human[..n]) + {n};
    } else {
      assert Preferring(human) == Preferring(human[..n]);
    }
  }

  lemma AgreeingStep(judge: seq<real>, human: seq<real>, n: nat)
    requires |judge| == |human| == n + 1
    ensures |Agreeing(judge, human)|
            == |Agreeing(judge[..n], human[..n])| + if human[n] != 0.0 && SameSign(judge[n], human[n]) then 1 else 0
  {
    assert Agree(judge[n], human[n]) <==> human[n] != 0.0 && SameSign(judge[n], human[n]);
    hide Agree, SameSign;
    if Agree(judge[n], human[n]) {
      assert Agreeing(judge, human) == Agreeing(judge[..n], human[..n]) + {n};
    } else {
      assert Agreeing(judge, human) == Agreeing(judge[..n], human[..n]);
    }
  }

  /** The counts behind the verdict are the numbers of those pairs. */
  lemma {:induction false} PairsAreCounted(judge: seq<real>, human: seq<real>)
    requires |judge| == |human|
    ensures Directional(judge, human) == |Preferring(human)| && Agreements(judge, human) == |Agreeing(judge, human)|
  {
    if human != [] {
      var n := |human| - 1;
      LastPair(judge, human, n);
      PairsAreCounted(judge[..n], human[..n]);
      PreferringStep(human, n);
      AgreeingStep(judge, human, n);
      hide Directional, Agreements, Preferring, Agreeing, SameSign;
    }
  }

  // ----- the verdict -----------------------------------------------------------------------------

  /** The judge sides with the human so often that chance is rejected: the excess of agreements over
      disagreements, squared, is more than z² times the number of directional pairs. */
  predicate BeatsChance(k: nat, n: nat, z: real) {
    n < 2 * k && z * z * n as real < (2 * k - n) as real * (2 * k - n) as real
  }

  lemma HalfRejected(k: nat, n: nat, z: real)
    requires 0 < n
    ensures var p := k as real / n as real;
            NotRejected(p, n as real, z, 0.5) <==> (2 * k - n) as real * (2 * k - n) as real <= z * z * n as real
  {
    var nr, e := n as real, (2 * k - n) as real;
    var p := k as real / nr;
    DivideTimes(k as real, nr);
    assert (p - 0.5) * nr == e / 2.0;
    HalfForm(p - 0.5, nr, e, z * z);
  }

  lemma HalfForm(d: real, n: real, e: real, zz: real)
    requires 0.0 < n && d * n == e / 2.0
    ensures d * d <= zz * (0.5 * (1.0 - 0.5)) / n <==> e * e <= zz * n
  {
    var rhs, nn := zz * 0.25 / n, n * n;
    DivideTimes(zz * 0.25, n);
    PositiveProduct(n, n, nn);
    SquaresAgree(d, n, e, nn);
    ThirdFactor(rhs, n, zz * 0.25, nn);
    Scales(d * d, rhs, nn);
  }

  lemma PositiveProduct(a: real, b: real, c: real)
    requires 0.0 < a && 0.0 < b && c == a * b
    ensures 0.0 < c
  {}

  lemma SquaresAgree(d: real, n: real, e: real, nn: real)
    requires d * n == e / 2.0 && nn == n * n
    ensures Times(d * d, nn) == e * e / 4.0
  {
    assert (d * n) * (d * n) == (d * d) * nn;
    assert (e / 2.0) * (e / 2.0) == e * e / 4.0;
  }

  lemma ThirdFactor(rhs: real, n: real, a: real, nn: real)
    requires rhs * n == a && nn == n * n
    ensures Times(rhs, nn) == a * n
  {}

  lemma AboveHalfIff(k: nat, n: nat)
    requires 0 < n
    ensures 0.5 < k as real / n as real <==> n < 2 * k
  {
    var p := k as real / n as real;
    DivideTimes(k as real, n as real);
    Scales(p, 0.5, n as real);
    CompareHalf(p, n as real, k as real);
  }

  lemma CompareHalf(p: real, n: real, k: real)
    requires p * n == k
    ensures Times(p, n) <= Times(0.5, n) <==> 2.0 * k <= n
  {}

  lemma BoundAboveHalfIff(sqrt: real -> real, k: nat, n: nat, z: real)
    requires IsSqrt(sqrt) && 0.0 <= z && k <= n && 0 < n
    ensures 0.5 < WilsonLower(sqrt, k, n, z) <==> BeatsChance(k, n, z)
  {
    hide WilsonLower, IsSqrt, NotRejected, Low, High;
    var p := k as real / n as real;
    Proportion(k, n);
    WilsonLowerBelowRate(sqrt, k, n, z);
    RawBrackets(sqrt, p, n as real, z);
    RawIsScoreTest(sqrt, p, n as real, z, 0.5);
    HalfRejected(k, n, z);
    AboveHalfIff(k, n);
  }

  /** When each verdict is given, exactly: insufficient below the required number of directional pairs;
      aligned when the judge's agreement beats chance, gaps are not compressed below half and the bias
      at parity is within its limit; misaligned otherwise. */
  lemma VerdictIff(sqrt: real -> real, judge: seq<real>, human: seq<real>, biasLimit: real, minDirectional: int)
    requires IsSqrt(sqrt) && |judge| == |human|
    ensures var v := Calibrate(sqrt, judge, human, biasLimit, minDirectional);
            var n, line := Directional(judge, human), Regression(human, judge);
            && (v.Insufficient? <==> n < minDirectional)
            && (v.Aligned? <==> && minDirectional <= n && BeatsChance(Agreements(judge, human), n, WILSON_Z)
                                && 0.5 <= line.0 && line.1 <= biasLimit)
  {
    hide IsSqrt, WilsonLower, BeatsChance, Regression;
    var k, n := Agreements(judge, human), Directional(judge, human);
    AgreementsAmongDirectional(judge, human);
    if n > 0 { BoundAboveHalfIff(sqrt, k, n, WILSON_Z); } else { NoPairs(sqrt, k); }
  }

  lemma NoPairs(sqrt: real -> real, k: nat)
    requires k == 0
    ensures WilsonLower(sqrt, k, 0, WILSON_Z) == 0.0 && !BeatsChance(k, 0, WILSON_Z)
  {}
}
