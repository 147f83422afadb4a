/** What the paired test takes for a unit, what it may draw, and when it answers what. */
module PairedTest {
  import opened Prelude
  import opened Ranks
  import opened NonInferiority

  // ----- units are labels ------------------------------------------------------------------------

  function Members<L(==)>(s: seq<L>): set<L> { set l | l in s }

  /** Values next to their labels. */
  function Zip<L>(labels: seq<L>, values: seq<real>): (r: seq<(L, real)>)
    requires |labels| == |values|
    ensures |r| == |labels|
  {
    seq(|labels|, i requires 0 <= i < |labels| => (labels[i], values[i]))
  }

  lemma ZipStep<L>(labels: seq<L>, values: seq<real>, n: nat)
    requires |labels| == |values| == n + 1
    ensures Zip(labels, values) == Zip(labels[..n], values[..n]) + [(labels[n], values[n])]
  {
  }

  /** The unit of a label holds each value as often as it stands next to that label. */
  lemma {:induction false} LabelledCounts<L>(labels: seq<L>, values: seq<real>, tag: L, v: real)
    requires |labels| == |values|
    ensures multiset(Labelled(labels, values, tag))[v] == multiset(Zip(labels, values))[(tag, v)]
  {
    if labels != [] {
      var n := |labels| - 1;
      LabelledCounts(labels[..n], values[..n], tag, v);
      ZipStep(labels, values, n);
      hide Zip;
      assert Labelled(labels[..n], values[..n], tag) + [] == Labelled(labels[..n], values[..n], tag);
    }
  }

  lemma {:induction false} SameLabels<L>(labels: seq<L>)
    ensures forall l :: l in FirstLabels(labels) <==> l in labels
  {
    if labels != [] {
      SameLabels(labels[..|labels| - 1]);
      assert labels == labels[..|labels| - 1] + [labels[|labels| - 1]];
    }
  }

  /** The resampled units are the labels: one unit for each label that occurs, no label has two, and a
      unit is made of exactly the differences that carry its label. */
  lemma UnitsAreLabels<L>(labels: seq<L>, values: seq<real>)
    requires |labels| == |values|
    ensures |Units(labels, values)| == |Members(labels)|
    ensures forall i, v :: 0 <= i < |Units(labels, values)| ==>
              multiset(Units(labels, values)[i])[v] == multiset(Zip(labels, values))[(FirstLabels(labels)[i], v)]
    ensures forall l :: l in FirstLabels(labels) <==> l in labels
  {
    var keys := FirstLabels(labels);
    SameLabels(labels);
    LabelsDistinct(labels);
    SizeOfDistinct(keys);
    assert Members(labels) == Members(keys);
    forall i, v | 0 <= i < |keys|
      ensures multiset(Units(labels, values)[i])[v] == multiset(Zip(labels, values))[(keys[i], v)]
    {
      LabelledCounts(labels, values, keys[i], v);
    }
  }

  lemma {:induction false} SizeOfDistinct<L>(s: seq<L>)
    requires forall i, j :: 0 <= i < j < |s| ==> s[i] != s[j]
    ensures |Members(s)| == |s|
  {
    if s != [] {
      SizeOfDistinct(s[1..]);
      assert Members(s) == {s[0]} + Members(s[1..]);
    }
  }

  // ----- what can be drawn -----------------------------------------------------------------------

  /** Every draw with replacement can be made: for any choice of as many units as there are, some
      generator resamples exactly those. */
  lemma AnyDrawIsPossible(o: Oracle, units: seq<seq<real>>, choice: seq<nat>, b: nat) returns (drawn: Oracle)
    requires ValidOracle(o) && |choice| == |units| && forall i :: 0 <= i < |choice| ==> choice[i] < |units|
    ensures ValidOracle(drawn) && forall i :: 0 <= i < |units| ==> Resample(drawn, units, b)[i] == units[choice[i]]
  {
    drawn := o.(pick := (k: nat, c: nat, i: nat) => if k == |units| && c == b && i < |choice| then choice[i] else 0);
  }

  /** And nothing else: a draw is as many of the units as there are, each one of them. */
  lemma DrawsAreUnits(o: Oracle, units: seq<seq<real>>, b: nat)
    requires ValidOracle(o)
    ensures |Resample(o, units, b)| == |units| && forall u <- Resample(o, units, b) :: u in units
  {}

  // ----- the answer ------------------------------------------------------------------------------

  lemma NumberOfUnits<L>(diffs: seq<real>, labels: Option<seq<L>>)
    requires labels.Some? ==> |labels.value| == |diffs|
    ensures |UnitsOf(diffs, labels)| == if labels.None? then |diffs| else |Members(labels.value)|
  {
    if labels.Some? { UnitsAreLabels(labels.value, diffs); }
  }

  lemma BoundIff<L>(o: Oracle, diffs: seq<real>, labels: Option<seq<L>>, confidence: real, nBoot: nat)
    requires ValidOracle(o) && (labels.Some? ==> |labels.value| == |diffs|) && 0 < nBoot
    ensures LowerBound(o, diffs, labels, confidence, nBoot).Some? <==> 20 <= |UnitsOf(diffs, labels)|
  {
    hide UnitsOf, BcaLower, Average;
  }

  lemma SomeResamples(nBoot: nat, rest: real)
    requires 100.0 <= nBoot as real * rest
    ensures 0 < nBoot
  {}

  lemma AverageTimes(s: seq<real>)
    ensures Average(s) * |s| as real == Sum(s)
  {
    if s != [] { QuotientTimes(Sum(s), |s| as real); }
  }

  lemma QuotientTimes(total: real, n: real)
    requires n != 0.0
    ensures total / n * n == total
  {}

  /** When the test refuses. */
  lemma TestRunsIff<L>(o: Oracle, diffs: seq<real>, labels: Option<seq<L>>, margin: real, confidence: real, nBoot: nat)
    requires ValidOracle(o)
    ensures PairedNi(o, diffs, labels, margin, confidence, nBoot).Ok?
            <==> && 0.0 < margin && 0.0 < confidence < 1.0 && 100.0 <= nBoot as real * (1.0 - confidence)
                 && (labels.Some? ==> |labels.value| == |diffs|)
  {
    hide LowerBound, UnitsOf, Average, ValidOracle;
  }

  /** With which refusal: the margin is looked at first, then the confidence, the number of resamples and
      the labels. */
  lemma RefusalIs<L>(o: Oracle, diffs: seq<real>, labels: Option<seq<L>>, margin: real, confidence: real, nBoot: nat)
    requires ValidOracle(o) && PairedNi(o, diffs, labels, margin, confidence, nBoot).Err?
    ensures var e := PairedNi(o, diffs, labels, margin, confidence, nBoot).error;
            && (e.MarginNotPositive? <==> margin <= 0.0)
            && (e.BadConfidence? <==> 0.0 < margin && (confidence <= 0.0 || 1.0 <= confidence))
            && (e.MisalignedClusters? ==> labels.Some? && |labels.value| != |diffs|)
            && (e.TooFewResamples? ==> nBoot as real * (1.0 - confidence) < 100.0)
  {
    hide LowerBound, UnitsOf, Average, ValidOracle;
  }

  /** What it answers otherwise: the mean of all differences, how many units they make, too little power
      below twenty of them, and a positive verdict exactly when there is a lower bound and it is above
      the negated margin. */
  lemma TestIs<L>(o: Oracle, diffs: seq<real>, labels: Option<seq<L>>, margin: real, confidence: real, nBoot: nat)
    requires ValidOracle(o) && PairedNi(o, diffs, labels, margin, confidence, nBoot).Ok?
    ensures var r := PairedNi(o, diffs, labels, margin, confidence, nBoot).value;
            && r.n == |diffs| && r.mean * |diffs| as real == Sum(diffs)
            && r.nUnits == (if labels.None? then |diffs| else |Members(labels.value)|)
            && (r.underpowered <==> r.nUnits < 20)
            && (r.lower.Some? <==> 20 <= r.nUnits)
            && (r.nonInferior <==> r.lower.Some? && -margin < r.lower.value)
  {
    hide PairedNi, LowerBound, UnitsOf, Average, ValidOracle, Members, Sum;
    ResultForm(o, diffs, labels, margin, confidence, nBoot);
    NumberOfUnits(diffs, labels);
    BoundIff(o, diffs, labels, confidence, nBoot);
    AverageTimes(diffs);
  }

  lemma ResultForm<L>(o: Oracle, diffs: seq<real>, labels: Option<seq<L>>, margin: real, confidence: real, nBoot: nat)
    requires ValidOracle(o) && PairedNi(o, diffs, labels, margin, confidence, nBoot).Ok?
    ensures (labels.Some? ==> |labels.value| == |diffs|) && 0 < nBoot
    ensures var r := PairedNi(o, diffs, labels, margin, confidence, nBoot).value;
            && r.n == |diffs| && r.mean == Average(diffs) && r.nUnits == |UnitsOf(diffs, labels)|
            && r.lower == LowerBound(o, diffs, labels, confidence, nBoot)
            && (r.underpowered <==> r.nUnits < 20)
            && (r.nonInferior <==> r.lower.Some? && -margin < r.lower.value)
  {
    hide LowerBound, UnitsOf, Average, ValidOracle;
    SomeResamples(nBoot, 1.0 - confidence);
  }
}
