/** The replay batch: replay both arms, judge the pairs, count what was unusable, run the paired test. */
module Replay {
  import opened Prelude
  import opened Reals
  import opened NonInferiority
  import opened Judge

  const MAX_FAILURE_REASONS := 5

  /** One recorded call; `cluster` None means the sample is independent of all others. */
  datatype Sample = Sample(body: string, cluster: Option<string>, hint: string)

  /** The arms' replay: the produced text, or the reason the call raised. */
  type ReplayFn = (string, string) -> Result<string, string>

  /** What replaying one sample came to. */
  datatype Outcome = Failed(reason: string) | Blank | Scored(diff: real)

  /** A unit tag: the sample's cluster, or a sentinel of its own. */
  datatype Tag = Cluster(name: string) | Own(index: nat)

  /** `hasText` decides whether an output says anything; `summary` derives a task description. */
  datatype Batch = Batch(
    samples: seq<Sample>, baseline: string, candidate: string, replay: ReplayFn, judge: JudgeFn,
    hasText: string -> bool, summary: string -> string, describe: JudgeError -> string, replicates: int)

  function OutcomeOf(b: Batch, s: Sample): Outcome {
    var x := b.replay(s.body, b.baseline);
    if x.Err? then Failed(x.error)
    else
      var y := b.replay(s.body, b.candidate);
      if y.Err? then Failed(y.error)
      else if !b.hasText(x.value) && !b.hasText(y.value) then Blank
      else
        var task := if s.hint != "" then s.hint else b.summary(s.body);
        match Score(b.judge, Pairing(task, x.value, y.value), b.replicates)
        case Ok(score) => Scored(score.Diff())
        case Err(e) => Failed(b.describe(e))
  }

  function TagOf(s: Sample, index: nat): Tag { if s.cluster.Some? then Cluster(s.cluster.value) else Own(index) }

  datatype Tallies = Tallies(diffs: seq<real>, tags: seq<Tag>, failed: nat, blank: nat, reasons: seq<string>)

  function Note(reasons: seq<string>, reason: string): seq<string> {
    if reason !in reasons && |reasons| < MAX_FAILURE_REASONS then reasons + [reason] else reasons
  }

  function Count(b: Batch, n: nat): (t: Tallies)
    requires n <= |b.samples|
    ensures |t.diffs| == |t.tags|
  {
    if n == 0 then Tallies([], [], 0, 0, [])
    else
      var before := Count(b, n - 1);
      match OutcomeOf(b, b.samples[n - 1])
      case Failed(reason) => before.(failed := before.failed + 1, reasons := Note(before.reasons, reason))
      case Blank => before.(blank := before.blank + 1)
      case Scored(diff) =>
        before.(diffs := before.diffs + [diff], tags := before.tags + [TagOf(b.samples[n - 1], n - 1)])
  }

  /** The batch loop. */
  method RunSamples(b: Batch) returns (t: Tallies)
    ensures t == Count(b, |b.samples|)
  {
    hide Score;
    var diffs: seq<real>, tags: seq<Tag>, reasons: seq<string> := [], [], [];
    var failed: nat, blank: nat := 0, 0;
    for i := 0 to |b.samples|
      invariant |diffs| == |tags| && Tallies(diffs, tags, failed, blank, reasons) == Count(b, i)
    {
      var sample := b.samples[i];
      var x := b.replay(sample.body, b.baseline);
      var y := b.replay(sample.body, b.candidate);
      if x.Err? || y.Err? {
        var reason := if x.Err? then x.error else y.error;
        failed := failed + 1;
        if reason !in reasons && |reasons| < MAX_FAILURE_REASONS {
          reasons := reasons + [reason];
        }
      } else if !b.hasText(x.value) && !b.hasText(y.value) {
        blank := blank + 1;
      } else {
        var task := if sample.hint != "" then sample.hint else b.summary(sample.body);
        var score := JudgePairing(b.judge, Pairing(task, x.value, y.value), b.replicates);
        match score {
          case Ok(s) =>
            diffs := diffs + [s.Diff()];
            tags := tags + [TagOf(sample, i)];
          case Err(e) =>
            failed := failed + 1;
            if b.describe(e) !in reasons && |reasons| < MAX_FAILURE_REASONS {
              reasons := reasons + [b.describe(e)];
            }
        }
      }
    }
    t := Tallies(diffs, tags, failed, blank, reasons);
  }

  // ----- the verdict ---------------------------------------------------------------------------

  const RESAMPLES: nat := 5000

  /** More than a fifth of the batch unusable. */
  predicate TooDegraded(t: Tallies, total: nat) { total > 0 && (t.failed + t.blank) as real / total as real > 0.2 }

  datatype Report = Report(test: NiResult, pairings: nat, failed: nat, blank: nat, reasons: seq<string>)

  function Inconclusive(t: Tallies): NiResult {
    NiResult(false, Average(t.diffs), None, |t.diffs|, 0, true)
  }

  /** Refuses before spending a call when the replicates are bad, and after the batch when the margin or
      the confidence is. */
  function RunReplay(o: Oracle, b: Batch, margin: real, confidence: real): Option<Report>
    requires ValidOracle(o)
  {
    if b.replicates < 2 || b.replicates % 2 != 0 then None
    else
      var t := Count(b, |b.samples|);
      if t.diffs == [] || TooDegraded(t, |b.samples|)
      then Some(Report(Inconclusive(t), |t.diffs|, t.failed, t.blank, t.reasons))
      else match PairedNi(o, t.diffs, Some(t.tags), margin, confidence, RESAMPLES)
        case Err(_) => None
        case Ok(r) => Some(Report(r, |t.diffs|, t.failed, t.blank, t.reasons))
  }

  /** The whole batch and its verdict. */
  method ReplayBatch(o: Oracle, b: Batch, margin: real, confidence: real) returns (r: Option<Report>)
    requires ValidOracle(o)
    ensures r == RunReplay(o, b, margin, confidence)
  {
    hide Count, ValidOracle, PairedNi;
    if b.replicates < 2 || b.replicates % 2 != 0 { return None; }
    var t := RunSamples(b);
    if t.diffs == [] || TooDegraded(t, |b.samples|) {
      return Some(Report(Inconclusive(t), |t.diffs|, t.failed, t.blank, t.reasons));
    }
    var test := PairedNi(o, t.diffs, Some(t.tags), margin, confidence, RESAMPLES);
    if test.Err? { return None; }
    r := Some(Report(test.value, |t.diffs|, t.failed, t.blank, t.reasons));
  }

  // ----- what a batch guarantees -----------------------------------------------------------------

  /** What becomes of a sample: it fails if either arm's replay raises or the pair cannot be judged, is
      blank if both arms ran and said nothing, and is scored otherwise. */
  lemma OutcomeIs(b: Batch, s: Sample)
    ensures var x, y := b.replay(s.body, b.baseline), b.replay(s.body, b.candidate);
            && (OutcomeOf(b, s).Blank? <==> x.Ok? && y.Ok? && !b.hasText(x.value) && !b.hasText(y.value))
            && (x.Err? || y.Err? ==> OutcomeOf(b, s).Failed?)
            && (OutcomeOf(b, s).Scored? ==>
                  && x.Ok? && y.Ok? && (b.hasText(x.value) || b.hasText(y.value))
                  && 2 <= b.replicates && b.replicates % 2 == 0)
  {}

  /** The quality gap of a sample, candidate over baseline. */
  function QualityGap(b: Batch, quality: (string, string) -> real, s: Sample): real
    requires b.replay(s.body, b.baseline).Ok? && b.replay(s.body, b.candidate).Ok?
  {
    var task := if s.hint != "" then s.hint else b.summary(s.body);
    quality(task, b.replay(s.body, b.candidate).value) - quality(task, b.replay(s.body, b.baseline).value)
  }

  /** A batch measures what the candidate model gains over the baseline model: with a judge that measures
      quality, every difference is the gap between the two models' outputs for one of its samples. */
  lemma {:induction false} DiffsAreQualityGaps(b: Batch, quality: (string, string) -> real, n: nat, k: nat)
    requires Measures(b.judge, quality) && n <= |b.samples| && k < |Count(b, n).diffs|
    ensures exists i ::
              && 0 <= i < n && b.replay(b.samples[i].body, b.baseline).Ok?
              && b.replay(b.samples[i].body, b.candidate).Ok?
              && Count(b, n).diffs[k] == QualityGap(b, quality, b.samples[i])
              && Count(b, n).tags[k] == TagOf(b.samples[i], i)
  {
    var s, before := b.samples[n - 1], Count(b, n - 1);
    if k < |before.diffs| {
      DiffsAreQualityGaps(b, quality, n - 1, k);
    } else {
      ScoredIsQualityGap(b, quality, s);
    }
  }

  lemma ScoredIsQualityGap(b: Batch, quality: (string, string) -> real, s: Sample)
    requires Measures(b.judge, quality) && OutcomeOf(b, s).Scored?
    ensures b.replay(s.body, b.baseline).Ok? && b.replay(s.body, b.candidate).Ok?
    ensures OutcomeOf(b, s).diff == QualityGap(b, quality, s)
  {
    hide Score;
    var task := if s.hint != "" then s.hint else b.summary(s.body);
    var p := Pairing(task, b.replay(s.body, b.baseline).value, b.replay(s.body, b.candidate).value);
    QualityIsReported(b.judge, quality, p, b.replicates);
  }

  /** Every sample is accounted for exactly once. */
  lemma {:induction false} SamplesAccountedFor(b: Batch, n: nat)
    requires n <= |b.samples|
    ensures var t := Count(b, n); |t.diffs| + t.failed + t.blank == n
  {
    if n > 0 { SamplesAccountedFor(b, n - 1); }
  }

  /** The failure reasons listed are distinct, at most five, and there is one exactly when something failed. */
  lemma {:induction false} ReasonsFacts(b: Batch, n: nat)
    requires n <= |b.samples|
    ensures var t := Count(b, n);
            && |t.reasons| <= MAX_FAILURE_REASONS && (t.reasons == [] <==> t.failed == 0)
            && forall i, j :: 0 <= i < j < |t.reasons| ==> t.reasons[i] != t.reasons[j]
  {
    if n > 0 { ReasonsFacts(b, n - 1); }
  }

  lemma FifthOfReal(bad: real, total: real, q: real)
    requires 0.0 < total && q == bad / total && q <= 0.2
    ensures 5.0 * bad <= total
  {
    DivideTimes(bad, total);
    ProductMonotone(q, 0.2, total);
    var product := q * total;
    assert product == bad && product <= 0.2 * total;
  }

  lemma FifthOf(bad: nat, total: nat)
    requires 0 < total && bad as real / total as real <= 0.2
    ensures 5 * bad <= total
  {
    FifthOfReal(bad as real, total as real, bad as real / total as real);
    assert (5 * bad) as real == 5.0 * bad as real;
  }

  /** What a positive verdict is worth: at most a fifth of the batch was unusable, the bound rests on at
      least twenty independent units, all pairings are accounted for, and it clears the margin. */
  lemma NonInferiorIsEarned(o: Oracle, b: Batch, margin: real, confidence: real)
    requires ValidOracle(o) && RunReplay(o, b, margin, confidence).Some?
    requires RunReplay(o, b, margin, confidence).value.test.nonInferior
    ensures var r := RunReplay(o, b, margin, confidence).value;
            && 5 * (r.failed + r.blank) <= |b.samples|
            && r.pairings + r.failed + r.blank == |b.samples|
            && MIN_UNITS <= r.test.nUnits <= r.pairings
            && r.test.lower.Some? && -margin < r.test.lower.value
  {
    hide Count, PairedNi, ValidOracle, Average;
    var t := Count(b, |b.samples|);
    SamplesAccountedFor(b, |b.samples|);
    FifthOf(t.failed + t.blank, |b.samples|);
    PositiveTest(o, t.diffs, t.tags, margin, confidence);
  }

  lemma DegradedIff(t: Tallies, total: nat)
    ensures TooDegraded(t, total) <==> total > 0 && 5 * (t.failed + t.blank) > total
  {
    if total > 0 {
      var bad := t.failed + t.blank;
      var q := bad as real / total as real;
      DivideTimes(bad as real, total as real);
      if q <= 0.2 { FifthOf(bad, total); } else { ProductStrict(0.2, q, total as real); }
    }
  }

  /** When a batch gives a positive verdict, exactly: some pair was scored, at most a fifth of the samples
      was unusable, and the paired test of the scored differences, grouped by cluster, has a lower bound
      above the negated margin. */
  lemma NonInferiorIff(o: Oracle, b: Batch, margin: real, confidence: real)
    requires ValidOracle(o) && RunReplay(o, b, margin, confidence).Some?
    ensures var t := Count(b, |b.samples|); var r := RunReplay(o, b, margin, confidence).value;
            && (r.test.nonInferior <==>
                  && t.diffs != [] && 5 * (t.failed + t.blank) <= |b.samples|
                  && PairedNi(o, t.diffs, Some(t.tags), margin, confidence, RESAMPLES).Ok?
                  && LowerBound(o, t.diffs, Some(t.tags), confidence, RESAMPLES).Some?
                  && -margin < LowerBound(o, t.diffs, Some(t.tags), confidence, RESAMPLES).value)
            && r.pairings == |t.diffs| && r.failed == t.failed && r.blank == t.blank && r.reasons == t.reasons
  {
    hide Count, LowerBound, ValidOracle, Average, UnitsOf;
    SamplesAccountedFor(b, |b.samples|);
    DegradedIff(Count(b, |b.samples|), |b.samples|);
  }

  /** When a batch is reported at all, and what a report that refuses to conclude says: it has too little
      power, no bound, and the mean of what could be scored. */
  lemma ReportedIff(o: Oracle, b: Batch, margin: real, confidence: real)
    requires ValidOracle(o)
    ensures var t := Count(b, |b.samples|); var r := RunReplay(o, b, margin, confidence);
            var refused := t.diffs == [] || 5 * (t.failed + t.blank) > |b.samples|;
            && (r.Some? <==>
                  && 2 <= b.replicates && b.replicates % 2 == 0
                  && (refused || (0.0 < margin && 0.0 < confidence <= 0.98)))
            && (r.Some? && refused ==>
                  && r.value.test.underpowered && r.value.test.lower.None? && r.value.test.n == |t.diffs|
                  && r.value.test.nUnits == 0 && r.value.test.mean == Average(t.diffs))
  {
    hide Count, LowerBound, ValidOracle, Average, UnitsOf;
    SamplesAccountedFor(b, |b.samples|);
    DegradedIff(Count(b, |b.samples|), |b.samples|);
  }

  /** A positive test has a bound that clears the margin, from enough units and no more than pairings. */
  lemma PositiveTest(o: Oracle, diffs: seq<real>, tags: seq<Tag>, margin: real, confidence: real)
    requires ValidOracle(o) && |tags| == |diffs|
    requires PairedNi(o, diffs, Some(tags), margin, confidence, RESAMPLES).Ok?
    requires PairedNi(o, diffs, Some(tags), margin, confidence, RESAMPLES).value.nonInferior
    ensures var r := PairedNi(o, diffs, Some(tags), margin, confidence, RESAMPLES).value;
            MIN_UNITS <= r.nUnits <= |diffs| && r.lower.Some? && -margin < r.lower.value
  {
    hide BcaLower, ValidOracle, FirstLabels, Average;
    LabelsBounded(tags);
  }

  lemma {:induction false} LabelsBounded(tags: seq<Tag>)
    ensures |FirstLabels(tags)| <= |tags|
  {
    if tags != [] { LabelsBounded(tags[..|tags| - 1]); }
  }

  ghost predicate OwnTagsFresh(tags: seq<Tag>, n: nat) {
    && (forall i :: 0 <= i < |tags| && tags[i].Own? ==> tags[i].index < n)
    && (forall i, j :: 0 <= i < j < |tags| && tags[i].Own? ==> tags[i] != tags[j])
  }

  lemma AddTag(tags: seq<Tag>, n: nat, added: Tag)
    requires OwnTagsFresh(tags, n) && (added.Own? ==> added.index == n)
    ensures OwnTagsFresh(tags, n + 1) && OwnTagsFresh(tags + [added], n + 1)
  {
    var more := tags + [added];
    forall i, j | 0 <= i < j < |more| && more[i].Own? ensures more[i] != more[j] {
      if j == |tags| && added.Own? { assert tags[i].index < n; }
    }
  }

  /** Samples without a cluster are never fused: each contributes a unit of its own. */
  lemma {:induction false} OwnTagsAreFresh(b: Batch, n: nat)
    requires n <= |b.samples|
    ensures OwnTagsFresh(Count(b, n).tags, n)
  {
    if n > 0 {
      OwnTagsAreFresh(b, n - 1);
      AddTag(Count(b, n - 1).tags, n - 1, TagOf(b.samples[n - 1], n - 1));
    }
  }
}
