/** Where the lower bound lies among the resampled means, and which way its corrections move it. */
module LowerQuantile {
  import opened Prelude
  import opened Reals
  import opened Ranks
  import opened Wilson
  import opened NonInferiority

  // ----- counts in a sorted list -----------------------------------------------------------------

  lemma SortCounts(s: seq<real>, v: real)
    ensures Less(SortReals(s), v) == Less(s, v) && Equal(SortReals(s), v) == Equal(s, v)
  {
    SortedPermutation(s);
    CountPermuted(SortReals(s), s, v);
  }

  lemma {:induction false} NoneLess(s: seq<real>, v: real)
    requires forall i :: 0 <= i < |s| ==> v <= s[i]
    ensures Less(s, v) == 0
  {
    if s != [] { NoneLess(s[1..], v); }
  }

  lemma {:induction false} CountsAtMost(s: seq<real>, v: real)
    ensures Less(s, v) <= |s|
    ensures (forall i :: 0 <= i < |s| ==> s[i] <= v) ==> Less(s, v) + Equal(s, v) == |s|
  {
    if s != [] { CountsAtMost(s[1..], v); }
  }

  lemma BelowPlace(s: seq<real>, i: nat, v: real)
    requires i < |s| && forall j :: i <= j < |s| ==> v <= s[j]
    ensures Less(s, v) <= i
  {
    hide Less;
    assert s == s[..i] + s[i..];
    CountAppend(s[..i], s[i..], v);
    NoneLess(s[i..], v);
    CountsAtMost(s[..i], v);
  }

  lemma NotAbovePlace(s: seq<real>, i: nat, v: real)
    requires i < |s| && forall j :: 0 <= j <= i ==> s[j] <= v
    ensures i < Less(s, v) + Equal(s, v)
  {
    hide Less, Equal;
    assert s == s[..i + 1] + s[i + 1..];
    CountAppend(s[..i + 1], s[i + 1..], v);
    CountsAtMost(s[..i + 1], v);
  }

  /** At most i elements of a sorted list are below its i-th, and more than i are not above it. */
  lemma SortedPlace(s: seq<real>, i: nat)
    requires Sorted(s) && i < |s|
    ensures Less(s, s[i]) <= i < Less(s, s[i]) + Equal(s, s[i])
  {
    hide Less, Equal;
    BelowPlace(s, i, s[i]);
    NotAbovePlace(s, i, s[i]);
  }

  // ----- the uncorrected bound is a quantile -----------------------------------------------------

  /** With no bias and no acceleration to correct, the bound is the alpha quantile of the resampled
      means: at most that share of them is below it, and more than that share is not above it. */
  lemma LowerIsQuantile(o: Oracle, units: seq<seq<real>>, observed: real, alpha: real, n: nat)
    requires ValidOracle(o) && 0 < n && 0.0 < alpha < 1.0 && o.cdf(o.invCdf(alpha)) == alpha
    requires Bias(o, Less(BootMeans(o, units, n), observed), n) == 0.0
    requires Acceleration(o, Deviations(Jackknife(units), JackMean(units))) == 0.0
    ensures var boot, lower := BootMeans(o, units, n), BcaLower(o, units, observed, alpha, n);
            Less(boot, lower) as real <= alpha * n as real < (Less(boot, lower) + Equal(boot, lower)) as real
  {
    hide BootMeans, Bias, Acceleration, Jackknife, JackMean, Deviations;
    var boot := BootMeans(o, units, n);
    PlainIndex(alpha, n);
    SortedPermutation(boot);
    var i := BootIndex(alpha, n);
    assert IndexFor(o, Less(boot, observed), n, Deviations(Jackknife(units), JackMean(units)), alpha) == i;
    SortedPlace(SortReals(boot), i);
    SortCounts(boot, SortReals(boot)[i]);
  }

  lemma PlainIndex(alpha: real, n: nat)
    requires 0 < n && 0.0 <= alpha < 1.0
    ensures BootIndex(alpha, n) as real <= alpha * n as real < BootIndex(alpha, n) as real + 1.0
  {
    ProductNonNegative(alpha, n as real);
    ProductStrict(alpha, 1.0, n as real);
    FloorWithin(alpha * n as real, n);
  }

  lemma FloorWithin(x: real, n: nat)
    requires 0.0 <= x < n as real
    ensures Min(Max(x.Floor, 0), n - 1) as real <= x < Min(Max(x.Floor, 0), n - 1) as real + 1.0
  {
  }

  /** The test takes the lower end: at confidence c the bound is the 1 - c quantile. */
  lemma BoundIsLowerQuantile<L>(o: Oracle, diffs: seq<real>, labels: Option<seq<L>>, confidence: real, nBoot: nat)
    requires ValidOracle(o) && (labels.Some? ==> |labels.value| == |diffs|)
    requires 0.0 < confidence < 1.0 && o.cdf(o.invCdf(1.0 - confidence)) == 1.0 - confidence
    requires LowerBound(o, diffs, labels, confidence, nBoot).Some?
    requires Bias(o, Less(BootMeans(o, UnitsOf(diffs, labels), nBoot), Average(diffs)), nBoot) == 0.0
    requires var units := UnitsOf(diffs, labels);
             Acceleration(o, Deviations(Jackknife(units), JackMean(units))) == 0.0
    ensures var boot, lower := BootMeans(o, UnitsOf(diffs, labels), nBoot),
                               LowerBound(o, diffs, labels, confidence, nBoot).value;
            && Less(boot, lower) as real <= (1.0 - confidence) * nBoot as real
            && (1.0 - confidence) * nBoot as real < (Less(boot, lower) + Equal(boot, lower)) as real
  {
    hide UnitsOf, BcaLower, BootMeans, Bias, Acceleration, Jackknife, JackMean, Deviations, Average;
    LowerIsQuantile(o, UnitsOf(diffs, labels), Average(diffs), 1.0 - confidence, nBoot);
  }

  // ----- the corrected bound ---------------------------------------------------------------------

  /** The corrected quantile: what the bound is a quantile at, whatever there is to correct. */
  function Corrected(o: Oracle, units: seq<seq<real>>, observed: real, alpha: real, n: nat): real
    requires ValidOracle(o)
  {
    o.cdf(Adjusted(Bias(o, Less(BootMeans(o, units, n), observed), n),
                   Acceleration(o, Deviations(Jackknife(units), JackMean(units))), o.invCdf(alpha)))
  }

  /** The value is the list's quantile: at most the share p of the list is below it, and more than that
      share is not above it. */
  predicate AtQuantile(s: seq<real>, value: real, p: real) {
    Less(s, value) as real <= p * |s| as real < (Less(s, value) + Equal(s, value)) as real
  }

  lemma Bracketed(i: int, less: int, equal: int, x: real)
    requires less <= i < less + equal && i as real <= x < i as real + 1.0
    ensures less as real <= x < (less + equal) as real
  {}

  lemma PlaceInSorted(boot: seq<real>, i: nat, x: real)
    requires i < |boot| && i as real <= x < i as real + 1.0
    ensures |SortReals(boot)| == |boot|
    ensures var v := SortReals(boot)[i]; Less(boot, v) as real <= x < (Less(boot, v) + Equal(boot, v)) as real
  {
    hide Less, Equal, SortReals, Ranks.Sorted;
    SortedPermutation(boot);
    var v := SortReals(boot)[i];
    SortedPlace(SortReals(boot), i);
    SortCounts(boot, v);
    Bracketed(i, Less(boot, v), Equal(boot, v), x);
  }

  lemma IndexAtQuantile(boot: seq<real>, p: real)
    requires boot != [] && 0.0 <= p < 1.0
    ensures |SortReals(boot)| == |boot| && AtQuantile(boot, SortReals(boot)[BootIndex(p, |boot|)], p)
  {
    hide Less, Equal, SortReals, BootIndex;
    PlainIndex(p, |boot|);
    PlaceInSorted(boot, BootIndex(p, |boot|), p * |boot| as real);
  }

  lemma LowerIsCorrected(o: Oracle, units: seq<seq<real>>, observed: real, alpha: real, n: nat, p: real)
    requires ValidOracle(o) && 0 < n && p == Corrected(o, units, observed, alpha, n) < 1.0
    ensures AtQuantile(BootMeans(o, units, n), BcaLower(o, units, observed, alpha, n), p)
  {
    hide BootMeans, Bias, Acceleration, Jackknife, JackMean, Deviations, Adjusted, AtQuantile, BootIndex;
    assert 0.0 <= p;
    IndexAtQuantile(BootMeans(o, units, n), p);
  }

  /** In general the bound is the resampled means' quantile at the corrected 1 - confidence. */
  lemma BoundIsCorrectedQuantile<L>(o: Oracle, diffs: seq<real>, labels: Option<seq<L>>, confidence: real, nBoot: nat,
                                    p: real)
    requires ValidOracle(o) && (labels.Some? ==> |labels.value| == |diffs|)
    requires LowerBound(o, diffs, labels, confidence, nBoot).Some?
    requires p == Corrected(o, UnitsOf(diffs, labels), Average(diffs), 1.0 - confidence, nBoot) < 1.0
    ensures AtQuantile(BootMeans(o, UnitsOf(diffs, labels), nBoot),
                       LowerBound(o, diffs, labels, confidence, nBoot).value, p)
  {
    hide UnitsOf, BcaLower, BootMeans, Average, Corrected, AtQuantile, ValidOracle;
    LowerIsCorrected(o, UnitsOf(diffs, labels), Average(diffs), 1.0 - confidence, nBoot, p);
  }

  /** The bias is the normal quantile of the share of resampled means below the observed one, where that
      is a quantile at all. */
  lemma BiasIs(o: Oracle, below: nat, n: nat)
    requires below <= n && 0 < n
    ensures below == 0 || below == n ==> Bias(o, below, n) == 0.0
    ensures 0 < below < n && o.cdf(o.invCdf(below as real / n as real)) == below as real / n as real ==>
              o.cdf(Bias(o, below, n)) * n as real == below as real
  {
    DivideTimes(below as real, n as real);
  }

  /** The correction solves the equation of the bias-corrected accelerated bootstrap. */
  lemma AdjustedSolves(z0: real, a: real, z: real)
    ensures 1.0 - a * (z0 + z) != 0.0 ==> (Adjusted(z0, a, z) - z0) * (1.0 - a * (z0 + z)) == z0 + z
    ensures 1.0 - a * (z0 + z) == 0.0 ==> Adjusted(z0, a, z) == z0 + z
  {
    if 1.0 - a * (z0 + z) != 0.0 { DivideTimes(z0 + z, 1.0 - a * (z0 + z)); }
  }

  /** What the powers of the deviations are: each list's is the sum of its parts', down to one number's. */
  lemma {:induction false} PowersAdd(s: seq<real>, t: seq<real>, x: real)
    ensures Cubes(s + t) == Cubes(s) + Cubes(t) && Cubes([x]) == x * x * x && Cubes([]) == 0.0
    ensures Squares(s + t) == Squares(s) + Squares(t) && Squares([x]) == x * x && Squares([]) == 0.0
  {
    if s == [] {
      assert s + t == t;
    } else {
      assert (s + t)[1..] == s[1..] + t;
      PowersAdd(s[1..], t, x);
    }
  }

  /** How large the acceleration is: six times it, times the 1.5th power of the squares, is the cubes. */
  lemma AccelerationIs(o: Oracle, dev: seq<real>)
    requires IsSqrt(o.sqrt) && Squares(dev) != 0.0
    ensures var root := o.sqrt(Squares(dev));
            && 0.0 <= root && root * root == Squares(dev)
            && Acceleration(o, dev) * (6.0 * (Squares(dev) * root)) == Cubes(dev)
  {
    SquaresNonNegative(dev);
    hide Cubes, Squares;
    var v := Squares(dev);
    PositiveRoot(o.sqrt(v), v);
    ProductStrict(0.0, v, o.sqrt(v));
    DivideTimes(Cubes(dev), 6.0 * (v * o.sqrt(v)));
  }

  // ----- the corrections -------------------------------------------------------------------------

  /** The corrected quantile is well defined and on the increasing branch. */
  predicate Tame(z0: real, a: real, z: real) { 0.0 < 1.0 - a * (z0 + z) }

  ghost predicate Increasing(f: real -> real) { forall x, y :: x <= y ==> f(x) <= f(y) }

  /** w / (1 - aw) rises with w. */
  lemma RatioRises(w1: real, w2: real, a: real)
    requires w1 <= w2 && 0.0 < 1.0 - a * w1 && 0.0 < 1.0 - a * w2
    ensures w1 / (1.0 - a * w1) <= w2 / (1.0 - a * w2)
  {
    var d1, d2 := 1.0 - a * w1, 1.0 - a * w2;
    assert w2 * d1 - w1 * d2 == w2 - w1 by { Cross(w1, w2, a); }
    QuotientsOrdered(w1, d1, w2, d2);
  }

  lemma Cross(w1: real, w2: real, a: real)
    ensures w2 * (1.0 - a * w1) - w1 * (1.0 - a * w2) == w2 - w1
  {
    assert w2 * (a * w1) == w1 * (a * w2);
  }

  lemma QuotientsOrdered(p: real, c: real, q: real, d: real)
    requires 0.0 < c && 0.0 < d && p * d <= q * c
    ensures p / c <= q / d
  {
    var x, y := p / c, q / d;
    DivideTimes(p, c);
    DivideTimes(q, d);
    Rearrange(x, y, c, d);
    if x > y {
      ProductStrict(y, x, c);
      ProductStrict(y * c, x * c, d);
    }
  }

  lemma Rearrange(x: real, y: real, c: real, d: real)
    ensures x * c * d == (x * c) * d && y * c * d == (y * d) * c
  {}

  lemma AdjustedForm(z0: real, a: real, w: real)
    requires Tame(z0, a, w - z0)
    ensures 0.0 < 1.0 - a * w && Adjusted(z0, a, w - z0) == z0 + w / (1.0 - a * w)
  {}

  /** The corrected quantile rises with the asked one and with the bias. */
  lemma AdjustedRises(z0: real, z1: real, a: real, x: real, y: real)
    requires z0 <= z1 && x <= y && Tame(z0, a, x) && Tame(z1, a, y)
    ensures Adjusted(z0, a, x) <= Adjusted(z1, a, y)
  {
    hide Tame, Adjusted;
    var w, v := z0 + x, z1 + y;
    assert w - z0 == x && v - z1 == y;
    AdjustedForm(z0, a, w);
    AdjustedForm(z1, a, v);
    RatioRises(w, v, a);
  }

  /** And with the acceleration. */
  lemma AdjustedRisesWithAcceleration(z0: real, a: real, b: real, x: real)
    requires a <= b && Tame(z0, a, x) && Tame(z0, b, x)
    ensures Adjusted(z0, a, x) <= Adjusted(z0, b, x)
  {
    hide Tame, Adjusted;
    var w := z0 + x;
    assert w - z0 == x;
    AdjustedForm(z0, a, w);
    AdjustedForm(z0, b, w);
    SquareNonNegative(w);
    ProductMonotone(a, b, w * w);
    LessOne(w, a);
    LessOne(w, b);
    QuotientsOrdered(w, 1.0 - a * w, w, 1.0 - b * w);
  }

  lemma LessOne(w: real, a: real)
    ensures w * (1.0 - a * w) == w - a * (w * w)
  {}

  lemma IndexRises(p: real, q: real, n: nat)
    requires p <= q && 0 < n
    ensures BootIndex(p, n) <= BootIndex(q, n)
  {
    ProductMonotone(p, q, n as real);
  }

  function Z(o: Oracle, alpha: real): real { o.invCdf(alpha) }

  /** The index falls as more confidence is asked for, and does not fall as more resampled means lie
      below the observed one. */
  lemma IndexFollows(o: Oracle, below: nat, more: nat, n: nat, dev: seq<real>, alpha: real, beta: real)
    requires ValidOracle(o) && Increasing(o.cdf) && Increasing(o.invCdf)
    requires 0 < below <= more < n && alpha <= beta
    requires Tame(Bias(o, below, n), Acceleration(o, dev), Z(o, alpha))
    requires Tame(Bias(o, more, n), Acceleration(o, dev), Z(o, beta))
    ensures IndexFor(o, below, n, dev, alpha) <= IndexFor(o, more, n, dev, beta)
  {
    hide Acceleration, BootIndex, Adjusted;
    DivideMonotone(below as real, more as real, n as real);
    assert Bias(o, below, n) <= Bias(o, more, n);
    assert Z(o, alpha) <= Z(o, beta);
    var a := Acceleration(o, dev);
    AdjustedRises(Bias(o, below, n), Bias(o, more, n), a, Z(o, alpha), Z(o, beta));
    var p, q := Adjusted(Bias(o, below, n), a, Z(o, alpha)), Adjusted(Bias(o, more, n), a, Z(o, beta));
    IndexRises(o.cdf(p), o.cdf(q), n);
  }

  lemma SortedAt(s: seq<real>, i: nat, j: nat)
    requires i <= j < |s|
    ensures SortReals(s)[i] <= SortReals(s)[j]
  {
    SortedPermutation(s);
  }

  /** More confidence never raises the bound. */
  lemma MoreConfidenceLowersBound(o: Oracle, units: seq<seq<real>>, observed: real, alpha: real, beta: real, n: nat)
    requires ValidOracle(o) && Increasing(o.cdf) && Increasing(o.invCdf) && 0 < n && alpha <= beta
    requires var below := Less(BootMeans(o, units, n), observed);
             var a := Acceleration(o, Deviations(Jackknife(units), JackMean(units)));
             0 < below < n && Tame(Bias(o, below, n), a, Z(o, alpha)) && Tame(Bias(o, below, n), a, Z(o, beta))
    ensures BcaLower(o, units, observed, alpha, n) <= BcaLower(o, units, observed, beta, n)
  {
    hide BootMeans, Bias, Acceleration, Jackknife, JackMean, Deviations, IndexFor, SortReals, Tame, Increasing;
    var boot, dev := BootMeans(o, units, n), Deviations(Jackknife(units), JackMean(units));
    var below := Less(boot, observed);
    IndexFollows(o, below, below, n, dev, alpha, beta);
    SortedAt(boot, IndexFor(o, below, n, dev, alpha), IndexFor(o, below, n, dev, beta));
  }

  // ----- the acceleration is the data's skewness -------------------------------------------------

  lemma {:induction false} SquaresNonNegative(s: seq<real>)
    ensures 0.0 <= Squares(s)
    ensures Squares(s) == 0.0 ==> Cubes(s) == 0.0
  {
    if s != [] {
      SquareNonNegative(s[0]);
      SquaresNonNegative(s[1..]);
      if s[0] != 0.0 { PositiveSquare(s[0]); }
    }
  }

  lemma PositiveSquare(x: real)
    requires x != 0.0
    ensures 0.0 < x * x
  {
    if x > 0.0 { ProductStrict(0.0, x, x); } else { ProductStrict(0.0, -x, -x); assert (-x) * (-x) == x * x; }
  }

  predicate SameSign(a: real, b: real) { (0.0 < a <==> 0.0 < b) && (a < 0.0 <==> b < 0.0) }

  lemma QuotientSign(a: real, d: real)
    requires 0.0 < d
    ensures SameSign(a / d, a)
  {
    var q := a / d;
    DivideTimes(a, d);
    if q > 0.0 { ProductStrict(0.0, q, d); }
    if q < 0.0 { ProductStrict(q, 0.0, d); }
  }

  /** The acceleration has the sign of the summed cubes of the deviations. */
  lemma AccelerationSign(o: Oracle, dev: seq<real>)
    requires IsSqrt(o.sqrt)
    ensures SameSign(Acceleration(o, dev), Cubes(dev))
  {
    hide Cubes, Squares;
    SquaresNonNegative(dev);
    var v := Squares(dev);
    var r := o.sqrt(v);
    ProductNonNegative(v, r);
    if v == 0.0 {
      assert v * r == 0.0;
    } else {
      PositiveRoot(r, v);
      ProductStrict(0.0, v, r);
      QuotientSign(Cubes(dev), 6.0 * (v * r));
    }
  }

  lemma PositiveRoot(r: real, v: real)
    requires 0.0 <= r && r * r == v && 0.0 < v
    ensures 0.0 < r
  {
    if r == 0.0 { ZeroProduct(r, r); }
  }

  function Singles(xs: seq<real>): (r: seq<seq<real>>)
    ensures |r| == |xs|
  {
    seq(|xs|, i requires 0 <= i < |xs| => [xs[i]])
  }

  lemma SumWithout(xs: seq<real>, i: nat)
    requires i < |xs|
    ensures Sum(xs[..i] + xs[i + 1..]) == Sum(xs) - xs[i]
  {
    var a, x, c := xs[..i], xs[i], xs[i + 1..];
    assert xs == a + ([x] + c) && ([x] + c)[1..] == c;
    SumAppend(a, [x] + c);
    SumAppend(a, c);
    assert Sum([x] + c) == x + Sum(c);
    hide Sum;
  }

  lemma SinglesWithout(xs: seq<real>, i: nat)
    requires i < |xs|
    ensures Flatten(Singles(xs)[..i] + Singles(xs)[i + 1..]) == xs[..i] + xs[i + 1..]
  {
    var rest := xs[..i] + xs[i + 1..];
    assert Singles(xs)[..i] + Singles(xs)[i + 1..] == Singles(rest);
    FlattenSingletons(rest);
  }

  lemma LeaveOneOut(xs: seq<real>, i: nat)
    requires 2 <= |xs| && i < |xs|
    ensures Jackknife(Singles(xs))[i] == (Sum(xs) - xs[i]) / (|xs| - 1) as real
  {
    hide *;
    JackAt(Singles(xs), i);
    SinglesWithout(xs, i);
    SumWithout(xs, i);
    AverageIs(Singles(xs)[..i] + Singles(xs)[i + 1..], xs[..i] + xs[i + 1..]);
    assert |xs[..i] + xs[i + 1..]| == |xs| - 1;
  }

  lemma JackAt(units: seq<seq<real>>, i: nat)
    requires i < |units|
    ensures Jackknife(units)[i] == MeanOf(units[..i] + units[i + 1..])
  {
    hide MeanOf;
  }

  lemma AverageIs(units: seq<seq<real>>, values: seq<real>)
    requires Flatten(units) == values && values != []
    ensures MeanOf(units) == Sum(values) / |values| as real
  {
    hide Flatten, Sum;
  }

  lemma {:induction false} SumOfLeft(s: seq<real>, xs: seq<real>, total: real, m: real)
    requires |s| == |xs| && m != 0.0 && forall i :: 0 <= i < |s| ==> s[i] == (total - xs[i]) / m
    ensures Sum(s) * m == total * |s| as real - Sum(xs)
  {
    if s != [] {
      SumOfLeft(s[1..], xs[1..], total, m);
      DivideTimes(total - xs[0], m);
      assert (s[0] + Sum(s[1..])) * m == s[0] * m + Sum(s[1..]) * m;
      OneMore(total, |s[1..]| as real);
    }
  }

  /** The mean of the leave-one-out means is the mean. */
  lemma JackMeanIsMean(xs: seq<real>)
    requires 2 <= |xs|
    ensures JackMean(Singles(xs)) == Average(xs)
  {
    hide Sum, Jackknife;
    var jack, n := Jackknife(Singles(xs)), |xs| as real;
    forall i | 0 <= i < |xs| ensures jack[i] == (Sum(xs) - xs[i]) / (n - 1.0) { LeaveOneOut(xs, i); }
    SumOfLeft(jack, xs, Sum(xs), n - 1.0);
    SameSum(Sum(jack), Sum(xs), n);
  }

  lemma SameSum(a: real, b: real, n: real)
    requires 1.0 < n && a * (n - 1.0) == b * n - b
    ensures a == b
  {
    ZeroFactor(a - b, n - 1.0, a * (n - 1.0), b * n - b);
  }

  lemma ZeroFactor(e: real, m: real, x: real, y: real)
    requires 0.0 < m && x == y && e * m == x - y
    ensures e == 0.0
  {
    if e > 0.0 { ProductStrict(0.0, e, m); }
    if e < 0.0 { ProductStrict(e, 0.0, m); }
  }

  function Centred(xs: seq<real>, mean: real): (r: seq<real>)
    ensures |r| == |xs|
  {
    seq(|xs|, i requires 0 <= i < |xs| => xs[i] - mean)
  }

  /** Each deviation of the jackknife is the datum's own distance from the mean, divided by n - 1. */
  lemma DeviationIs(xs: seq<real>, i: nat)
    requires 2 <= |xs| && i < |xs|
    ensures Deviations(Jackknife(Singles(xs)), JackMean(Singles(xs)))[i] * (|xs| - 1) as real == xs[i] - Average(xs)
  {
    hide Sum, Jackknife, JackMean;
    LeaveOneOut(xs, i);
    JackMeanIsMean(xs);
    var n, total := |xs| as real, Sum(xs);
    DivideTimes(total, n);
    DivideTimes(total - xs[i], n - 1.0);
    DistanceAlgebra(total / n, (total - xs[i]) / (n - 1.0), n, total, xs[i]);
  }

  lemma DistanceAlgebra(mean: real, left: real, n: real, total: real, x: real)
    requires mean * n == total && left * (n - 1.0) == total - x
    ensures (mean - left) * (n - 1.0) == x - mean
  {
    assert (mean - left) * (n - 1.0) == mean * n - mean - left * (n - 1.0);
  }

  lemma {:induction false} CubesScale(dev: seq<real>, ys: seq<real>, m: real)
    requires |dev| == |ys| && forall i :: 0 <= i < |dev| ==> dev[i] * m == ys[i]
    ensures Cubes(ys) == Cubes(dev) * Cube(m)
  {
    hide Cube;
    if dev != [] {
      CubesScale(dev[1..], ys[1..], m);
      CubeOfProduct(dev[0], m, ys[0], dev[0] * dev[0] * dev[0], ys[0] * ys[0] * ys[0]);
      AddTimes(dev[0] * dev[0] * dev[0], Cubes(dev[1..]), Cube(m));
    }
  }

  lemma AddTimes(a: real, b: real, c: real)
    ensures (a + b) * c == a * c + b * c
  {}

  lemma CubeOfProduct(d: real, m: real, y: real, ddd: real, yyy: real)
    requires d * m == y && ddd == d * d * d && yyy == y * y * y
    ensures yyy == ddd * Cube(m)
  {
    assert y * y == (d * d) * (m * m);
    assert y * y * y == (d * d) * (m * m) * (d * m);
  }

  /** For independent differences the correction follows the skew of the data: the acceleration is
      positive exactly when the summed cubes of the distances from the mean are, and negative likewise. */
  lemma AccelerationFollowsSkew(o: Oracle, xs: seq<real>)
    requires IsSqrt(o.sqrt) && 2 <= |xs|
    ensures SameSign(Acceleration(o, Deviations(Jackknife(Singles(xs)), JackMean(Singles(xs)))),
                     Cubes(Centred(xs, Average(xs))))
  {
    hide Acceleration, Jackknife, JackMean, Average, Cubes, IsSqrt, Cube;
    var dev := Deviations(Jackknife(Singles(xs)), JackMean(Singles(xs)));
    var ys, m := Centred(xs, Average(xs)), (|xs| - 1) as real;
    forall i | 0 <= i < |xs| ensures dev[i] * m == ys[i] { DeviationIs(xs, i); }
    CubesScale(dev, ys, m);
    PositiveCube(m);
    ProductSign(Cubes(dev), Cube(m));
    AccelerationSign(o, dev);
  }

  function Cube(m: real): real { m * m * m }

  lemma PositiveCube(m: real)
    requires 0.0 < m
    ensures 0.0 < Cube(m)
  {
    var square := m * m;
    PositiveProduct(m, m, square);
    PositiveProduct(square, m, Cube(m));
  }

  lemma PositiveProduct(a: real, b: real, c: real)
    requires 0.0 < a && 0.0 < b && c == a * b
    ensures 0.0 < c
  {}

  lemma ProductSign(a: real, d: real)
    requires 0.0 < d
    ensures SameSign(a * d, a)
  {
    if a > 0.0 { ProductStrict(0.0, a, d); }
    if a < 0.0 { ProductStrict(a, 0.0, d); }
  }
}
