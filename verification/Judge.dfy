/** Blinded pairwise judging with alternating positions, so that position bias cancels. */
module Judge {
  import opened Prelude
  import opened Reals
  import opened Ranks
  import opened NonInferiority

  const MIN_SCORE := 0.0
  const MAX_SCORE := 10.0

  /** A deterministic judge: the raw scores of the outputs shown as A and as B for a prompt, or None
      when the reply carries no pair of numbers. */
  type JudgeFn = (string, string, string) -> Option<(real, real)>

  datatype Pairing = Pairing(task: string, baseline: string, candidate: string)

  datatype PairScore = PairScore(baseline: real, candidate: real, replicates: nat) {
    function Diff(): real { candidate - baseline }
  }

  datatype JudgeError = BadReplicates | BadReply

  predicate InScale(x: real) { MIN_SCORE <= x <= MAX_SCORE }

  /** Scores off the scale are refused, never clipped. */
  function ParseScores(raw: Option<(real, real)>): Option<(real, real)> {
    if raw.Some? && InScale(raw.value.0) && InScale(raw.value.1) then raw else None
  }

  function Ask(judge: JudgeFn, task: string, a: string, b: string): Option<(real, real)> {
    ParseScores(judge(task, a, b))
  }

  /** The score of one pairing in closed form: each arm's mean over being shown first and second. */
  function Score(judge: JudgeFn, p: Pairing, replicates: int): Result<PairScore, JudgeError> {
    if replicates < 2 || replicates % 2 != 0 then Err(BadReplicates)
    else
      var shown, swapped := Ask(judge, p.task, p.baseline, p.candidate), Ask(judge, p.task, p.candidate, p.baseline);
      if shown.None? || swapped.None? then Err(BadReply)
      else Ok(PairScore((shown.value.0 + swapped.value.1) / 2.0, (shown.value.1 + swapped.value.0) / 2.0, replicates))
  }

  /** The list after `n` alternating calls: `even` for every even call, `odd` for every odd one. */
  function Alternating(even: real, odd: real, n: nat): (r: seq<real>)
    ensures |r| == n
  {
    seq(n, i => if i % 2 == 0 then even else odd)
  }

  lemma {:induction false} AlternatingSum(even: real, odd: real, n: nat)
    requires n % 2 == 0
    ensures Sum(Alternating(even, odd, n)) == (even + odd) * (n as real / 2.0)
  {
    if n == 0 {
    } else {
      AlternatingSum(even, odd, n - 2);
      var rest := Alternating(even, odd, n - 2);
      assert Alternating(even, odd, n) == rest + [even, odd];
      SumAppend(rest, [even, odd]);
      assert Sum([even, odd]) == even + Sum([odd]) == even + odd by {
        assert [even, odd][1..] == [odd];
        assert [odd][1..] == [];
      }
      OneMoreHalf(even + odd, n as real);
    }
  }

  lemma OneMoreHalf(x: real, n: real)
    ensures x * ((n - 2.0) / 2.0) + x == x * (n / 2.0)
  {
    assert (n - 2.0) / 2.0 == n / 2.0 - 1.0;
    OneMore(x, n / 2.0 - 1.0);
  }

  lemma AlternatingAverage(even: real, odd: real, n: nat)
    requires n % 2 == 0 && 0 < n
    ensures Average(Alternating(even, odd, n)) == (even + odd) / 2.0
  {
    AlternatingSum(even, odd, n);
    HalfOfProduct(even + odd, n as real);
  }

  lemma HalfOfProduct(x: real, n: real)
    requires 0.0 < n
    ensures x * (n / 2.0) / n == x / 2.0
  {
    assert x * (n / 2.0) == x / 2.0 * n;
    DivideTimes(x / 2.0 * n, n);
    assert x / 2.0 * n / n == x / 2.0;
  }

  /** The replicate loop. */
  method JudgePairing(judge: JudgeFn, p: Pairing, replicates: int) returns (r: Result<PairScore, JudgeError>)
    ensures r == Score(judge, p, replicates)
  {
    if replicates < 2 || replicates % 2 != 0 {
      return Err(BadReplicates);
    }
    var baseline: seq<real>, candidate: seq<real> := [], [];
    ghost var shown, swapped := Ask(judge, p.task, p.baseline, p.candidate),
                                Ask(judge, p.task, p.candidate, p.baseline);
    for i := 0 to replicates
      invariant 0 < i ==> shown.Some?
      invariant 1 < i ==> swapped.Some?
      invariant i == 0 ==> baseline == [] && candidate == []
      invariant i == 1 ==> baseline == [shown.value.0] && candidate == [shown.value.1]
      invariant 1 < i ==> baseline == Alternating(shown.value.0, swapped.value.1, i)
      invariant 1 < i ==> candidate == Alternating(shown.value.1, swapped.value.0, i)
    {
      var candidateIsA := i % 2 == 1;
      var scores := if candidateIsA then Ask(judge, p.task, p.candidate, p.baseline)
                    else Ask(judge, p.task, p.baseline, p.candidate);
      if scores.None? {
        return Err(BadReply);
      }
      if candidateIsA {
        candidate := candidate + [scores.value.0];
        baseline := baseline + [scores.value.1];
      } else {
        baseline := baseline + [scores.value.0];
        candidate := candidate + [scores.value.1];
      }
    }
    AlternatingAverage(shown.value.0, swapped.value.1, replicates);
    AlternatingAverage(shown.value.1, swapped.value.0, replicates);
    r := Ok(PairScore(Sum(baseline) / |baseline| as real, Sum(candidate) / |candidate| as real, replicates));
  }

  // ----- what judging guarantees -----------------------------------------------------------------

  function Swapped(p: Pairing): Pairing { Pairing(p.task, p.candidate, p.baseline) }

  /** Neither arm is privileged: exchanging baseline and candidate negates the difference, for every
      judge and every even number of replicates, and one side is refused exactly when the other is. */
  lemma SwappingArmsNegates(judge: JudgeFn, p: Pairing, replicates: int)
    ensures Score(judge, p, replicates).Ok? <==> Score(judge, Swapped(p), replicates).Ok?
    ensures Score(judge, p, replicates).Ok? ==>
            Score(judge, Swapped(p), replicates).value.Diff() == -Score(judge, p, replicates).value.Diff()
  {}

  /** `biased` gives whatever is shown as A `bonus` points more than `judge` does. */
  ghost predicate FavoursA(judge: JudgeFn, biased: JudgeFn, bonus: real) {
    forall task, a, b :: judge(task, a, b).Some? ==>
      biased(task, a, b) == Some((judge(task, a, b).value.0 + bonus, judge(task, a, b).value.1))
  }

  /** Position bias cancels: a judge that always favours the first position, by any constant, reports
      the difference an unbiased judge would. */
  lemma PositionBiasCancels(judge: JudgeFn, biased: JudgeFn, bonus: real, p: Pairing, replicates: int)
    requires FavoursA(judge, biased, bonus)
    requires Score(judge, p, replicates).Ok? && Score(biased, p, replicates).Ok?
    ensures Score(biased, p, replicates).value.Diff() == Score(judge, p, replicates).value.Diff()
  {}

  /** Every accepted score is on the scale, so every difference is within its width, and identical
      outputs always tie. */
  lemma ScoresOnScale(judge: JudgeFn, p: Pairing, replicates: int)
    requires Score(judge, p, replicates).Ok?
    ensures var s := Score(judge, p, replicates).value;
            && InScale(s.baseline) && InScale(s.candidate) && -10.0 <= s.Diff() <= 10.0
            && (p.baseline == p.candidate ==> s.Diff() == 0.0)
  {}

  /** A pairing is scored exactly when the replicates pair up and both orders get replies on the scale. */
  lemma ScoredIff(judge: JudgeFn, p: Pairing, replicates: int)
    ensures Score(judge, p, replicates).Ok?
            <==> && 2 <= replicates && replicates % 2 == 0
                 && OnScale(judge(p.task, p.baseline, p.candidate)) && OnScale(judge(p.task, p.candidate, p.baseline))
    ensures Score(judge, p, replicates).Ok? ==> Score(judge, p, replicates).value.replicates == replicates
  {}

  predicate OnScale(reply: Option<(real, real)>) {
    reply.Some? && 0.0 <= reply.value.0 <= 10.0 && 0.0 <= reply.value.1 <= 10.0
  }

  /** A judge that scores what it is shown, wherever it is shown. */
  ghost predicate Measures(judge: JudgeFn, quality: (string, string) -> real) {
    forall task, a, b :: judge(task, a, b) == Some((quality(task, a), quality(task, b)))
  }

  /** Each arm gets its own score: from a judge that measures quality, the quality of its own output. */
  lemma QualityIsReported(judge: JudgeFn, quality: (string, string) -> real, p: Pairing, replicates: int)
    requires Measures(judge, quality) && Score(judge, p, replicates).Ok?
    ensures var s := Score(judge, p, replicates).value;
            s.baseline == quality(p.task, p.baseline) && s.candidate == quality(p.task, p.candidate)
  {}

  /** The difference points to the arm that is preferred: a judge that scores the candidate above the
      baseline in both orders yields a positive one, whatever its position bias, and conversely. */
  lemma PreferenceHasSign(judge: JudgeFn, p: Pairing, replicates: int)
    requires Score(judge, p, replicates).Ok?
    ensures var first, second := judge(p.task, p.baseline, p.candidate).value,
                                 judge(p.task, p.candidate, p.baseline).value;
            var diff := Score(judge, p, replicates).value.Diff();
            && (first.0 < first.1 && second.1 < second.0 ==> 0.0 < diff)
            && (first.1 < first.0 && second.0 < second.1 ==> diff < 0.0)
  {}
}
