/** The paired non-inferiority test: grouping into units, resampled means, and the BCa lower bound. */
module NonInferiority {
  import opened Prelude
  import opened Reals
  import opened Ranks

  const MIN_UNITS := 20

  // ----- units ---------------------------------------------------------------------------------

  function Flatten(units: seq<seq<real>>): seq<real> {
    if units == [] then [] else units[0] + Flatten(units[1..])
  }

  ghost predicate NoneEmpty(units: seq<seq<real>>) { forall i :: 0 <= i < |units| ==> units[i] != [] }

  /** The labels without repetition, in order of first appearance. */
  function FirstLabels<L(==)>(labels: seq<L>): seq<L> {
    if labels == [] then []
    else
      var before := FirstLabels(labels[..|labels| - 1]);
      if labels[|labels| - 1] in before then before else before + [labels[|labels| - 1]]
  }

  /** The values carrying one label, in their original order. */
  function Labelled<L(==)>(labels: seq<L>, values: seq<real>, tag: L): seq<real>
    requires |labels| == |values|
  {
    if labels == [] then []
    else
      Labelled(labels[..|labels| - 1], values[..|labels| - 1], tag)
      + if labels[|labels| - 1] == tag then [values[|labels| - 1]] else []
  }

  /** One unit per label, in order of first appearance. */
  function Units<L(==)>(labels: seq<L>, values: seq<real>): (r: seq<seq<real>>)
    requires |labels| == |values|
    ensures |r| == |FirstLabels(labels)|
  {
    var keys := FirstLabels(labels);
    seq(|keys|, i requires 0 <= i < |keys| => Labelled(labels, values, keys[i]))
  }

  /** The insertion-ordered dictionary `setdefault(label, []).append(value)` builds. */
  method GroupUnits<L(==)>(labels: seq<L>, values: seq<real>) returns (units: seq<seq<real>>)
    requires |labels| == |values|
    ensures units == Units(labels, values)
  {
    var keys: seq<L> := [];
    var grouped: map<L, seq<real>> := map[];
    for n := 0 to |labels|
      invariant keys == FirstLabels(labels[..n])
      invariant forall l :: l in grouped <==> l in keys
      invariant forall l <- grouped :: grouped[l] == Labelled(labels[..n], values[..n], l)
    {
      assert labels[..n + 1][..n] == labels[..n] && values[..n + 1][..n] == values[..n];
      var tag := labels[n];
      if tag !in grouped {
        AbsentLabel(labels[..n], values[..n], tag);
        grouped := grouped[tag := []];
        keys := keys + [tag];
      }
      grouped := grouped[tag := grouped[tag] + [values[n]]];
    }
    assert labels[..|labels|] == labels && values[..|labels|] == values;
    units := seq(|keys|, i requires 0 <= i < |keys| && keys[i] in grouped => grouped[keys[i]]);
  }

  lemma {:induction false} AbsentLabel<L>(labels: seq<L>, values: seq<real>, tag: L)
    requires |labels| == |values| && tag !in FirstLabels(labels)
    ensures Labelled(labels, values, tag) == []
  {
    if labels != [] { AbsentLabel(labels[..|labels| - 1], values[..|labels| - 1], tag); }
  }

  lemma {:induction false} PresentLabel<L>(labels: seq<L>, values: seq<real>, tag: L)
    requires |labels| == |values| && tag in FirstLabels(labels)
    ensures Labelled(labels, values, tag) != []
  {
    var n := |labels| - 1;
    if labels[n] != tag { PresentLabel(labels[..n], values[..n], tag); }
  }

  lemma {:induction false} FlattenAppend(a: seq<seq<real>>, b: seq<seq<real>>)
    ensures Flatten(a + b) == Flatten(a) + Flatten(b)
  {
    if a == [] {
      assert a + b == b;
    } else {
      assert (a + b)[1..] == a[1..] + b;
      FlattenAppend(a[1..], b);
    }
  }

  lemma FlattenSplit(units: seq<seq<real>>, i: nat)
    requires i < |units|
    ensures Flatten(units) == Flatten(units[..i]) + units[i] + Flatten(units[i + 1..])
  {
    assert units == units[..i] + units[i..];
    FlattenAppend(units[..i], units[i..]);
    assert units[i..][1..] == units[i + 1..];
  }

  lemma {:induction false} LabelsDistinct<L>(labels: seq<L>)
    ensures forall i, j :: 0 <= i < j < |FirstLabels(labels)| ==> FirstLabels(labels)[i] != FirstLabels(labels)[j]
  {
    if labels != [] { LabelsDistinct(labels[..|labels| - 1]); }
  }

  /** Adding one value to one unit adds exactly that value. */
  lemma GrowOne(units: seq<seq<real>>, i: nat, v: real)
    requires i < |units|
    ensures multiset(Flatten(units[i := units[i] + [v]])) == multiset(Flatten(units)) + multiset{v}
  {
    var grown := units[i := units[i] + [v]];
    FlattenSplit(units, i);
    FlattenSplit(grown, i);
    assert grown[..i] == units[..i] && grown[i + 1..] == units[i + 1..];
    var a, b, c := Flatten(units[..i]), units[i], Flatten(units[i + 1..]);
    assert multiset(a + b + c) == multiset(a) + multiset(b) + multiset(c);
    assert multiset(a + (b + [v]) + c) == multiset(a) + multiset(b) + multiset{v} + multiset(c);
  }

  /** One more labelled value grows its own unit, or opens a new one at the end. */
  lemma UnitsGrow<L>(labels: seq<L>, values: seq<real>)
    requires |labels| == |values| && labels != []
    ensures var n := |labels| - 1; var keys := FirstLabels(labels[..n]);
            var before, after := Units(labels[..n], values[..n]), Units(labels, values);
            if labels[n] in keys
            then forall i :: 0 <= i < |keys| && keys[i] == labels[n] ==> after == before[i := before[i] + [values[n]]]
            else after == before + [[values[n]]]
  {
    var n := |labels| - 1;
    var l0, v0, last := labels[..n], values[..n], labels[n];
    var keys := FirstLabels(l0);
    LabelsDistinct(l0);
    forall key ensures Labelled(labels, values, key)
                    == if key == last then Labelled(l0, v0, key) + [values[n]] else Labelled(l0, v0, key)
    {
      assert Labelled(l0, v0, key) + [] == Labelled(l0, v0, key);
    }
    if last !in keys {
      AbsentLabel(l0, v0, last);
      assert FirstLabels(labels) == keys + [last];
      var before, after := Units(l0, v0), Units(labels, values);
      assert after[|keys|] == [] + [values[n]] == [values[n]];
      forall i | 0 <= i < |keys| ensures after[i] == before[i] {
        assert keys[i] in keys && keys[i] != last;
      }
    } else {
      var before, after := Units(l0, v0), Units(labels, values);
      assert FirstLabels(labels) == keys;
      forall i | 0 <= i < |keys| && keys[i] == last
        ensures after == before[i := before[i] + [values[n]]]
      {
        var grown := before[i := before[i] + [values[n]]];
        forall j | 0 <= j < |keys| ensures after[j] == grown[j] {
          assert j != i ==> keys[j] != last;
        }
      }
    }
  }

  lemma UnitsNotEmpty<L>(labels: seq<L>, values: seq<real>)
    requires |labels| == |values|
    ensures NoneEmpty(Units(labels, values))
  {
    var units := Units(labels, values);
    forall i | 0 <= i < |units| ensures units[i] != [] {
      PresentLabel(labels, values, FirstLabels(labels)[i]);
    }
  }

  /** Grouping loses and copies nothing: the units hold exactly the given differences, each once. */
  lemma {:induction false} GroupingPreserves<L>(labels: seq<L>, values: seq<real>)
    requires |labels| == |values|
    ensures multiset(Flatten(Units(labels, values))) == multiset(values)
  {
    if labels != [] {
      var n := |labels| - 1;
      GroupingPreserves(labels[..n], values[..n]);
      GrowthPreserves(labels, values);
    }
  }

  lemma GrowthPreserves<L>(labels: seq<L>, values: seq<real>)
    requires |labels| == |values| && labels != []
    requires var n := |labels| - 1; multiset(Flatten(Units(labels[..n], values[..n]))) == multiset(values[..n])
    ensures multiset(Flatten(Units(labels, values))) == multiset(values)
  {
    var n := |labels| - 1;
    var keys, before := FirstLabels(labels[..n]), Units(labels[..n], values[..n]);
    UnitsGrow(labels, values);
    assert values == values[..n] + [values[n]];
    if labels[n] in keys {
      var i :| 0 <= i < |keys| && keys[i] == labels[n];
      GrowOne(before, i, values[n]);
    } else {
      FlattenAppend(before, [[values[n]]]);
      assert Flatten([[values[n]]]) == [values[n]] + Flatten([]) == [values[n]];
    }
  }

  // ----- means -----------------------------------------------------------------------------------

  function Average(s: seq<real>): real { if s == [] then 0.0 else Sum(s) / |s| as real }

  function MeanOf(units: seq<seq<real>>): real { Average(Flatten(units)) }

  lemma {:induction false} SumAppend(a: seq<real>, b: seq<real>)
    ensures Sum(a + b) == Sum(a) + Sum(b)
  {
    if a == [] {
      assert a + b == b;
    } else {
      assert (a + b)[1..] == a[1..] + b;
      SumAppend(a[1..], b);
    }
  }

  /** The running total and count give the mean of all the values in the units. */
  method MeanOfUnits(units: seq<seq<real>>) returns (mean: real)
    ensures mean == MeanOf(units)
  {
    var total, count := 0.0, 0;
    for i := 0 to |units|
      invariant total == Sum(Flatten(units[..i])) && count == |Flatten(units[..i])|
    {
      assert units[..i + 1] == units[..i] + [units[i]];
      FlattenAppend(units[..i], [units[i]]);
      assert Flatten([units[i]]) == units[i] + Flatten([]) == units[i];
      SumAppend(Flatten(units[..i]), units[i]);
      total := total + Sum(units[i]);
      count := count + |units[i]|;
    }
    assert units[..|units|] == units;
    mean := if count != 0 then total / count as real else 0.0;
  }

  ghost predicate AllIn(units: seq<seq<real>>, lo: real, hi: real) {
    forall i, j :: 0 <= i < |units| && 0 <= j < |units[i]| ==> lo <= units[i][j] <= hi
  }

  lemma {:induction false} SumBounds(s: seq<real>, lo: real, hi: real)
    requires forall j :: 0 <= j < |s| ==> lo <= s[j] <= hi
    ensures lo * |s| as real <= Sum(s) <= hi * |s| as real
  {
    if s != [] {
      SumBounds(s[1..], lo, hi);
      OneMore(lo, |s[1..]| as real);
      OneMore(hi, |s[1..]| as real);
    }
  }

  lemma OneMore(x: real, n: real)
    ensures x * (n + 1.0) == x + x * n
  {}

  lemma {:induction false} FlattenBounds(units: seq<seq<real>>, lo: real, hi: real)
    requires AllIn(units, lo, hi)
    ensures forall j :: 0 <= j < |Flatten(units)| ==> lo <= Flatten(units)[j] <= hi
  {
    if units != [] {
      assert AllIn(units[1..], lo, hi);
      FlattenBounds(units[1..], lo, hi);
    }
  }

  lemma MeanBounds(units: seq<seq<real>>, lo: real, hi: real)
    requires AllIn(units, lo, hi) && units != [] && NoneEmpty(units)
    ensures lo <= MeanOf(units) <= hi
  {
    FlattenBounds(units, lo, hi);
    assert units[0] <= Flatten(units) && units[0] != [];
    SumBounds(Flatten(units), lo, hi);
    QuotientBounds(Sum(Flatten(units)), |Flatten(units)| as real, lo, hi);
  }

  // ----- the bootstrap -------------------------------------------------------------------------

  /** The resample choices of a seeded generator, and the normal distribution's functions. */
  datatype Oracle = Oracle(pick: (nat, nat, nat) -> nat, cdf: real -> real, invCdf: real -> real, sqrt: real -> real)

  /** A choice among k is below k, and a probability is a probability. */
  ghost predicate ValidOracle(o: Oracle) {
    && (forall k, b, i :: 0 < k ==> o.pick(k, b, i) < k)
    && (forall x :: 0.0 <= o.cdf(x) <= 1.0)
  }

  function Resample(o: Oracle, units: seq<seq<real>>, b: nat): (r: seq<seq<real>>)
    requires ValidOracle(o)
    ensures |r| == |units|
  {
    seq(|units|, i requires 0 <= i < |units| => units[o.pick(|units|, b, i)])
  }

  function BootMeans(o: Oracle, units: seq<seq<real>>, n: nat): (r: seq<real>)
    requires ValidOracle(o)
    ensures |r| == n
  {
    seq(n, b requires 0 <= b < n => MeanOf(Resample(o, units, b)))
  }

  /** Leave-one-unit-out means. */
  function Jackknife(units: seq<seq<real>>): (r: seq<real>)
    ensures |r| == |units|
  {
    seq(|units|, i requires 0 <= i < |units| => MeanOf(units[..i] + units[i + 1..]))
  }

  function Deviations(s: seq<real>, mean: real): (r: seq<real>)
    ensures |r| == |s|
  {
    seq(|s|, i requires 0 <= i < |s| => mean - s[i])
  }

  function Cubes(s: seq<real>): real { if s == [] then 0.0 else s[0] * s[0] * s[0] + Cubes(s[1..]) }

  function Squares(s: seq<real>): real { if s == [] then 0.0 else s[0] * s[0] + Squares(s[1..]) }

  /** The acceleration; v^1.5 is v times its root. */
  function Acceleration(o: Oracle, dev: seq<real>): real {
    var v := Squares(dev);
    var den := 6.0 * (v * o.sqrt(v));
    if den != 0.0 then Cubes(dev) / den else 0.0
  }

  function Bias(o: Oracle, below: nat, n: nat): real {
    if below == 0 || below == n || n == 0 then 0.0 else o.invCdf(below as real / n as real)
  }

  function Adjusted(z0: real, a: real, zAlpha: real): real {
    var denom := 1.0 - a * (z0 + zAlpha);
    if denom != 0.0 then z0 + (z0 + zAlpha) / denom else z0 + zAlpha
  }

  /** `min(max(int(p * n), 0), n - 1)`; the product is never negative, so truncation is the floor. */
  function BootIndex(p: real, n: nat): (i: int)
    requires 0 < n
    ensures 0 <= i < n
  {
    Min(Max((p * n as real).Floor, 0), n - 1)
  }

  function JackMean(units: seq<seq<real>>): real { Average(Jackknife(units)) }

  function IndexFor(o: Oracle, below: nat, n: nat, dev: seq<real>, alpha: real): (i: int)
    requires 0 < n
    ensures 0 <= i < n
  {
    BootIndex(o.cdf(Adjusted(Bias(o, below, n), Acceleration(o, dev), o.invCdf(alpha))), n)
  }

  // ----- sorting -------------------------------------------------------------------------------

  function Insert(s: seq<real>, x: real): (r: seq<real>)
    ensures |r| == |s| + 1
  {
    if s == [] || x < s[0] then [x] + s else [s[0]] + Insert(s[1..], x)
  }

  function SortReals(s: seq<real>): (r: seq<real>)
    ensures |r| == |s|
  {
    if s == [] then [] else Insert(SortReals(s[1..]), s[0])
  }

  lemma {:induction false} InsertKeeps(s: seq<real>, x: real)
    ensures multiset(Insert(s, x)) == multiset(s) + multiset{x}
  {
    if s != [] && !(x < s[0]) {
      InsertKeeps(s[1..], x);
      assert s == [s[0]] + s[1..];
    }
  }

  lemma {:induction false} InsertAtLeast(s: seq<real>, x: real, lo: real)
    requires lo <= x && forall q :: 0 <= q < |s| ==> lo <= s[q]
    ensures forall q :: 0 <= q < |Insert(s, x)| ==> lo <= Insert(s, x)[q]
  {
    if s != [] && !(x < s[0]) { InsertAtLeast(s[1..], x, lo); }
  }

  lemma {:induction false} InsertSorted(s: seq<real>, x: real)
    requires Sorted(s)
    ensures Sorted(Insert(s, x))
  {
    if s != [] && !(x < s[0]) {
      InsertSorted(s[1..], x);
      InsertAtLeast(s[1..], x, s[0]);
    }
  }

  lemma {:induction false} SortedPermutation(s: seq<real>)
    ensures multiset(SortReals(s)) == multiset(s) && Sorted(SortReals(s))
  {
    if s != [] {
      SortedPermutation(s[1..]);
      InsertKeeps(SortReals(s[1..]), s[0]);
      InsertSorted(SortReals(s[1..]), s[0]);
      assert s == [s[0]] + s[1..];
    }
  }

  lemma SortedElement(s: seq<real>, i: nat)
    requires i < |s|
    ensures exists b :: 0 <= b < |s| && s[b] == SortReals(s)[i]
  {
    SortedPermutation(s);
    assert SortReals(s)[i] in multiset(s);
    assert SortReals(s)[i] in s;
  }

  // ----- the lower bound -------------------------------------------------------------------------

  function BcaLower(o: Oracle, units: seq<seq<real>>, observed: real, alpha: real, n: nat): real
    requires ValidOracle(o) && 0 < n
  {
    var boot := BootMeans(o, units, n);
    var dev := Deviations(Jackknife(units), JackMean(units));
    SortReals(boot)[IndexFor(o, Less(boot, observed), n, dev, alpha)]
  }

  /** The resampling loop, then the sorted means indexed by the adjusted quantile. */
  method ComputeBcaLower(o: Oracle, units: seq<seq<real>>, observed: real, alpha: real, n: nat) returns (lower: real)
    requires ValidOracle(o) && 0 < n
    ensures lower == BcaLower(o, units, observed, alpha, n)
  {
    var boot: seq<real> := [];
    for b := 0 to n
      invariant boot == BootMeans(o, units, b)
    {
      var mean := MeanOfUnits(Resample(o, units, b));
      boot := boot + [mean];
    }
    var jack := Jackknife(units);
    var jbar := Average(jack);
    lower := SortReals(boot)[IndexFor(o, Less(boot, observed), n, Deviations(jack, jbar), alpha)];
  }

  datatype NiResult = NiResult(
    nonInferior: bool, mean: real, lower: Option<real>, n: nat, nUnits: nat, underpowered: bool)

  datatype Refusal = MarginNotPositive | BadConfidence | TooFewResamples | MisalignedClusters

  /** Without labels every difference is its own unit. */
  function UnitsOf<L(==)>(diffs: seq<real>, labels: Option<seq<L>>): seq<seq<real>>
    requires labels.Some? ==> |labels.value| == |diffs|
  {
    if labels.None? then seq(|diffs|, i requires 0 <= i < |diffs| => [diffs[i]]) else Units(labels.value, diffs)
  }

  /** A lower bound of None stands for minus infinity. */
  function PairedNi<L(==)>(o: Oracle, diffs: seq<real>, labels: Option<seq<L>>, margin: real,
                           confidence: real, nBoot: nat): Result<NiResult, Refusal>
    requires ValidOracle(o)
  {
    if margin <= 0.0 then Err(MarginNotPositive)
    else if !(0.0 < confidence < 1.0) then Err(BadConfidence)
    else if nBoot as real * (1.0 - confidence) < 100.0 then Err(TooFewResamples)
    else if labels.Some? && |labels.value| != |diffs| then Err(MisalignedClusters)
    else
      var n, lower := |UnitsOf(diffs, labels)|, LowerBound(o, diffs, labels, confidence, nBoot);
      Ok(NiResult(lower.Some? && lower.value > -margin, Average(diffs), lower, |diffs|, n, n < MIN_UNITS))
  }

  /** The bound, or none when there are too few units to conclude anything. */
  function LowerBound<L(==)>(o: Oracle, diffs: seq<real>, labels: Option<seq<L>>, confidence: real, nBoot: nat)
    : Option<real>
    requires ValidOracle(o) && (labels.Some? ==> |labels.value| == |diffs|)
  {
    var units := UnitsOf(diffs, labels);
    if |units| < MIN_UNITS || nBoot == 0 then None
    else Some(BcaLower(o, units, Average(diffs), 1.0 - confidence, nBoot))
  }

  // ----- what the test guarantees ----------------------------------------------------------------

  lemma UnitsWithin<L>(diffs: seq<real>, labels: Option<seq<L>>, lo: real, hi: real)
    requires labels.Some? ==> |labels.value| == |diffs|
    requires forall d <- diffs :: lo <= d <= hi
    ensures AllIn(UnitsOf(diffs, labels), lo, hi) && NoneEmpty(UnitsOf(diffs, labels))
    ensures multiset(Flatten(UnitsOf(diffs, labels))) == multiset(diffs)
  {
    var units := UnitsOf(diffs, labels);
    if labels.Some? {
      GroupingPreserves(labels.value, diffs);
      UnitsNotEmpty(labels.value, diffs);
    } else {
      FlattenSingletons(diffs);
    }
    forall i, j | 0 <= i < |units| && 0 <= j < |units[i]| ensures lo <= units[i][j] <= hi {
      UnitElement(units, i, j);
      assert units[i][j] in multiset(diffs);
      assert units[i][j] in diffs;
    }
  }

  lemma UnitElement(units: seq<seq<real>>, i: nat, j: nat)
    requires i < |units| && j < |units[i]|
    ensures units[i][j] in multiset(Flatten(units))
  {
    FlattenSplit(units, i);
    var k := |Flatten(units[..i])| + j;
    assert Flatten(units)[k] == units[i][j];
  }

  lemma {:induction false} FlattenSingletons(diffs: seq<real>)
    ensures Flatten(seq(|diffs|, i requires 0 <= i < |diffs| => [diffs[i]])) == diffs
  {
    var units := seq(|diffs|, i requires 0 <= i < |diffs| => [diffs[i]]);
    if diffs != [] {
      assert units[1..] == seq(|diffs[1..]|, i requires 0 <= i < |diffs[1..]| => [diffs[1..][i]]);
      FlattenSingletons(diffs[1..]);
    }
  }

  /** Whatever the seed, the resample choices and the normal tables say, the reported lower bound is one
      of the resampled means, and so lies between the smallest and the largest difference. */
  lemma LowerBoundWithinDiffs<L>(o: Oracle, diffs: seq<real>, labels: Option<seq<L>>, margin: real,
                                 confidence: real, nBoot: nat, lo: real, hi: real)
    requires ValidOracle(o) && PairedNi(o, diffs, labels, margin, confidence, nBoot).Ok?
    requires forall d <- diffs :: lo <= d <= hi
    ensures var r := PairedNi(o, diffs, labels, margin, confidence, nBoot).value;
            && (r.lower.Some? <==> MIN_UNITS <= r.nUnits)
            && (r.lower.Some? ==> lo <= r.lower.value <= hi)
  {
    var units := UnitsOf(diffs, labels);
    if |units| >= MIN_UNITS {
      UnitsWithin(diffs, labels, lo, hi);
      BootMeansBounds(o, units, nBoot, lo, hi);
      var boot := BootMeans(o, units, nBoot);
      var dev := Deviations(Jackknife(units), JackMean(units));
      SortedElement(boot, IndexFor(o, Less(boot, Average(diffs)), nBoot, dev, 1.0 - confidence));
    }
  }

  lemma BootMeansBounds(o: Oracle, units: seq<seq<real>>, n: nat, lo: real, hi: real)
    requires ValidOracle(o) && AllIn(units, lo, hi) && units != [] && NoneEmpty(units)
    ensures forall b :: 0 <= b < n ==> lo <= BootMeans(o, units, n)[b] <= hi
  {
    forall b | 0 <= b < n ensures lo <= BootMeans(o, units, n)[b] <= hi {
      MeanBounds(Resample(o, units, b), lo, hi);
    }
  }

  lemma {:induction false} Extremes(s: seq<real>) returns (lo: real, hi: real)
    requires s != []
    ensures lo in s && hi in s && forall j :: 0 <= j < |s| ==> lo <= s[j] <= hi
  {
    lo, hi := s[0], s[0];
    if |s| > 1 {
      var lo1, hi1 := Extremes(s[1..]);
      lo, hi := RMin(lo1, s[0]), RMax(hi1, s[0]);
    }
  }

  /** Unanimous evidence decides: with enough independent units, if every difference is above the
      negated margin the candidate is non-inferior, and if none is it is not, for every seed. */
  lemma UnanimousEvidenceDecides<L>(o: Oracle, diffs: seq<real>, labels: Option<seq<L>>, margin: real,
                                    confidence: real, nBoot: nat)
    requires ValidOracle(o) && PairedNi(o, diffs, labels, margin, confidence, nBoot).Ok? && diffs != []
    ensures var r := PairedNi(o, diffs, labels, margin, confidence, nBoot).value;
            && ((forall d <- diffs :: d > -margin) && MIN_UNITS <= r.nUnits ==> r.nonInferior)
            && ((forall d <- diffs :: d <= -margin) ==> !r.nonInferior)
            && (r.nUnits < MIN_UNITS ==> !r.nonInferior && r.underpowered)
  {
    var lo, hi := Extremes(diffs);
    LowerBoundWithinDiffs(o, diffs, labels, margin, confidence, nBoot, lo, hi);
  }

  // ----- moving every difference moves the bound -------------------------------------------------

  function Shift(s: seq<real>, c: real): (r: seq<real>)
    ensures |r| == |s|
  {
    seq(|s|, i requires 0 <= i < |s| => s[i] + c)
  }

  function ShiftUnits(units: seq<seq<real>>, c: real): (r: seq<seq<real>>)
    ensures |r| == |units|
  {
    seq(|units|, i requires 0 <= i < |units| => Shift(units[i], c))
  }

  lemma ShiftAppend(a: seq<real>, b: seq<real>, c: real)
    ensures Shift(a + b, c) == Shift(a, c) + Shift(b, c)
  {}

  lemma {:induction false} ShiftSum(s: seq<real>, c: real)
    ensures Sum(Shift(s, c)) == Sum(s) + c * |s| as real
  {
    if s != [] {
      assert Shift(s, c)[1..] == Shift(s[1..], c);
      ShiftSum(s[1..], c);
      OneMore(c, |s[1..]| as real);
    }
  }

  lemma {:induction false} ShiftFlatten(units: seq<seq<real>>, c: real)
    ensures Flatten(ShiftUnits(units, c)) == Shift(Flatten(units), c)
  {
    if units != [] {
      assert ShiftUnits(units, c)[1..] == ShiftUnits(units[1..], c);
      ShiftFlatten(units[1..], c);
      ShiftAppend(units[0], Flatten(units[1..]), c);
    }
  }

  lemma QuotientShift(a: real, c: real, n: real)
    requires 0.0 < n
    ensures (a + c * n) / n == a / n + c
  {
    DivideSum(a, c * n, n);
  }

  lemma ShiftAverage(s: seq<real>, c: real)
    requires s != []
    ensures Average(Shift(s, c)) == Average(s) + c
  {
    ShiftSum(s, c);
    QuotientShift(Sum(s), c, |s| as real);
  }

  lemma ShiftMean(units: seq<seq<real>>, c: real)
    requires units != [] && NoneEmpty(units)
    ensures MeanOf(ShiftUnits(units, c)) == MeanOf(units) + c
  {
    hide Average;
    ShiftFlatten(units, c);
    assert units[0] <= Flatten(units) && units[0] != [];
    ShiftAverage(Flatten(units), c);
  }

  lemma ShiftBoot(o: Oracle, units: seq<seq<real>>, n: nat, c: real)
    requires ValidOracle(o) && units != [] && NoneEmpty(units)
    ensures BootMeans(o, ShiftUnits(units, c), n) == Shift(BootMeans(o, units, n), c)
  {
    forall b | 0 <= b < n
      ensures BootMeans(o, ShiftUnits(units, c), n)[b] == BootMeans(o, units, n)[b] + c
    {
      assert Resample(o, ShiftUnits(units, c), b) == ShiftUnits(Resample(o, units, b), c);
      ShiftMean(Resample(o, units, b), c);
    }
  }

  lemma ShiftLeaveOut(units: seq<seq<real>>, c: real, i: nat)
    requires 2 <= |units| && NoneEmpty(units) && i < |units|
    ensures Jackknife(ShiftUnits(units, c))[i] == Jackknife(units)[i] + c
  {
    hide MeanOf;
    var rest := units[..i] + units[i + 1..];
    assert ShiftUnits(units, c)[..i] + ShiftUnits(units, c)[i + 1..] == ShiftUnits(rest, c);
    assert NoneEmpty(rest);
    ShiftMean(rest, c);
  }

  lemma ShiftJack(units: seq<seq<real>>, c: real)
    requires 2 <= |units| && NoneEmpty(units)
    ensures Jackknife(ShiftUnits(units, c)) == Shift(Jackknife(units), c)
    ensures JackMean(ShiftUnits(units, c)) == JackMean(units) + c
  {
    hide MeanOf, Average, Jackknife;
    forall i | 0 <= i < |units|
      ensures Jackknife(ShiftUnits(units, c))[i] == Jackknife(units)[i] + c
    {
      ShiftLeaveOut(units, c, i);
    }
    assert Jackknife(ShiftUnits(units, c)) == Shift(Jackknife(units), c);
    ShiftAverage(Jackknife(units), c);
  }

  lemma {:induction false} ShiftInsert(s: seq<real>, x: real, c: real)
    ensures Insert(Shift(s, c), x + c) == Shift(Insert(s, x), c)
  {
    if s != [] {
      assert Shift(s, c)[1..] == Shift(s[1..], c);
      ShiftInsert(s[1..], x, c);
    }
  }

  lemma {:induction false} ShiftSort(s: seq<real>, c: real)
    ensures SortReals(Shift(s, c)) == Shift(SortReals(s), c)
  {
    if s != [] {
      assert Shift(s, c)[1..] == Shift(s[1..], c);
      ShiftSort(s[1..], c);
      ShiftInsert(SortReals(s[1..]), s[0], c);
    }
  }

  lemma {:induction false} ShiftLess(s: seq<real>, v: real, c: real)
    ensures Less(Shift(s, c), v + c) == Less(s, v)
  {
    if s != [] {
      assert Shift(s, c)[1..] == Shift(s[1..], c);
      ShiftLess(s[1..], v, c);
    }
  }

  lemma ShiftBca(o: Oracle, units: seq<seq<real>>, observed: real, alpha: real, n: nat, c: real)
    requires ValidOracle(o) && 0 < n && 2 <= |units| && NoneEmpty(units)
    ensures BcaLower(o, ShiftUnits(units, c), observed + c, alpha, n) == BcaLower(o, units, observed, alpha, n) + c
  {
    hide IndexFor, MeanOf, Jackknife, SortReals;
    ShiftBoot(o, units, n, c);
    ShiftJack(units, c);
    var boot := BootMeans(o, units, n);
    ShiftSort(boot, c);
    ShiftLess(boot, observed, c);
    assert Deviations(Jackknife(ShiftUnits(units, c)), JackMean(ShiftUnits(units, c)))
        == Deviations(Jackknife(units), JackMean(units));
  }

  lemma {:induction false} ShiftLabelled<L>(labels: seq<L>, values: seq<real>, tag: L, c: real)
    requires |labels| == |values|
    ensures Labelled(labels, Shift(values, c), tag) == Shift(Labelled(labels, values, tag), c)
  {
    if labels != [] {
      var n := |labels| - 1;
      assert Shift(values, c)[..n] == Shift(values[..n], c);
      ShiftLabelled(labels[..n], values[..n], tag, c);
    }
  }

  lemma ShiftUnitsOf<L>(diffs: seq<real>, labels: Option<seq<L>>, c: real)
    requires labels.Some? ==> |labels.value| == |diffs|
    ensures UnitsOf(Shift(diffs, c), labels) == ShiftUnits(UnitsOf(diffs, labels), c)
  {
    if labels.Some? {
      var keys := FirstLabels(labels.value);
      forall i | 0 <= i < |keys|
        ensures Units(labels.value, Shift(diffs, c))[i] == ShiftUnits(Units(labels.value, diffs), c)[i]
      {
        ShiftLabelled(labels.value, diffs, keys[i], c);
      }
    } else {
      forall i | 0 <= i < |diffs| ensures UnitsOf(Shift(diffs, c), labels)[i] == Shift([diffs[i]], c) {}
    }
  }

  lemma ShiftLowerBound<L>(o: Oracle, diffs: seq<real>, labels: Option<seq<L>>, confidence: real, nBoot: nat, c: real)
    requires ValidOracle(o) && diffs != [] && (labels.Some? ==> |labels.value| == |diffs|)
    ensures var original, moved := LowerBound(o, diffs, labels, confidence, nBoot),
                                   LowerBound(o, Shift(diffs, c), labels, confidence, nBoot);
            && (original.None? <==> moved.None?)
            && (original.Some? ==> moved.value == original.value + c)
  {
    hide BcaLower, Average;
    var units := UnitsOf(diffs, labels);
    ShiftUnitsOf(diffs, labels, c);
    ShiftAverage(diffs, c);
    if MIN_UNITS <= |units| && 0 < nBoot {
      var lo, hi := Extremes(diffs);
      UnitsWithin(diffs, labels, lo, hi);
      ShiftBca(o, units, Average(diffs), 1.0 - confidence, nBoot, c);
    }
  }

  /** The margin is in score units, exactly: adding c to every difference moves the mean and the lower
      bound by exactly c, so the verdict at margin m is the original verdict at margin m + c. */
  lemma VerdictIsTranslationInvariant<L>(o: Oracle, diffs: seq<real>, labels: Option<seq<L>>, margin: real,
                                         confidence: real, nBoot: nat, c: real)
    requires ValidOracle(o) && diffs != [] && 0.0 < margin && 0.0 < margin + c
    requires PairedNi(o, diffs, labels, margin + c, confidence, nBoot).Ok?
    ensures PairedNi(o, Shift(diffs, c), labels, margin, confidence, nBoot).Ok?
    ensures var moved := PairedNi(o, Shift(diffs, c), labels, margin, confidence, nBoot).value;
            var original := PairedNi(o, diffs, labels, margin + c, confidence, nBoot).value;
            && moved.nonInferior == original.nonInferior
            && moved.mean == original.mean + c
            && (original.lower.None? <==> moved.lower.None?)
            && (original.lower.Some? ==> moved.lower.value == original.lower.value + c)
  {
    hide LowerBound, Average;
    ShiftUnitsOf(diffs, labels, c);
    ShiftAverage(diffs, c);
    ShiftLowerBound(o, diffs, labels, confidence, nBoot, c);
  }
}
