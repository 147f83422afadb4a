/** What the tripwire's tallies count, row by row, and when exactly it gives each verdict. */
module TripwireVerdicts {
  import opened Prelude
  import opened Wilson
  import opened Tripwire

  // ----- rows ----------------------------------------------------------------------------------

  /** One arm, one experiment and identity, nothing missing. */
  predicate Clean(row: Row) {
    && row.arms == 1 && row.experiments <= 1 && row.identities == 1 && row.missing <= 0
    && (row.arm.Baseline? || row.arm.Candidate?)
  }

  /** Cut off at the ceiling, reported as a failure, or scored under the threshold. */
  predicate Fails(row: Row, failBelow: Option<real>) {
    Clean(row) &&
    (row.ceilings > 0 || row.success == Some(false)
     || (row.success.None? && row.score.Some? && failBelow.Some? && row.score.value < failBelow.value))
  }

  /** Not cut off, and reported as a success or scored at or over the threshold. */
  predicate Succeeds(row: Row, failBelow: Option<real>) {
    Clean(row) && row.ceilings <= 0 &&
    (row.success == Some(true)
     || (row.success.None? && row.score.Some? && failBelow.Some? && failBelow.value <= row.score.value))
  }

  predicate Silent(row: Row, failBelow: Option<real>) {
    Clean(row) && row.ceilings <= 0 && row.success.None? && (row.score.None? || failBelow.None?)
  }

  predicate Idle(row: Row, now: real, idle: real) { row.lastTs + idle <= now }

  /** Every row has exactly one class, decided by what was reported and, if nothing was, by its age. */
  lemma ClassIs(row: Row, now: real, idle: real, failBelow: Option<real>)
    ensures var r := Classify(row, now, idle, failBelow);
            && r.arm == row.arm && r.servedModel == row.servedModel
            && (r.status.Contaminated? <==> !Clean(row))
            && (r.status.Failure? <==> Fails(row, failBelow))
            && (r.status.Success? <==> Succeeds(row, failBelow))
            && (r.status.Unreported? <==> Silent(row, failBelow) && Idle(row, now, idle))
            && (r.status.Open? <==> Silent(row, failBelow) && !Idle(row, now, idle))
  {}

  function Records(rows: seq<Row>, now: real, idle: real, failBelow: Option<real>): (r: seq<TaskRecord>)
    ensures |r| == |rows|
  {
    seq(|rows|, i requires 0 <= i < |rows| => Classify(rows[i], now, idle, failBelow))
  }

  function CountRows(rows: seq<Row>, arm: Arm, of: Row -> bool): nat {
    if rows == [] then 0 else (if rows[0].arm == arm && of(rows[0]) then 1 else 0) + CountRows(rows[1..], arm, of)
  }

  /** The tallies of an arm count its rows of each kind. */
  lemma {:induction false} TalliesCountRows(rows: seq<Row>, arm: Arm, now: real, idle: real, failBelow: Option<real>)
    ensures var a := StatsOf(Records(rows, now, idle, failBelow), arm);
            && a.failure == CountRows(rows, arm, row => Fails(row, failBelow))
            && a.success == CountRows(rows, arm, row => Succeeds(row, failBelow))
            && a.unreported == CountRows(rows, arm, row => Silent(row, failBelow) && Idle(row, now, idle))
            && a.open == CountRows(rows, arm, row => Silent(row, failBelow) && !Idle(row, now, idle))
  {
    if rows != [] {
      hide Classify, Fails, Succeeds, Silent, Idle, Clean;
      var records := Records(rows, now, idle, failBelow);
      assert records[1..] == Records(rows[1..], now, idle, failBelow);
      ClassIs(rows[0], now, idle, failBelow);
      TalliesCountRows(rows[1..], arm, now, idle, failBelow);
    }
  }

  // ----- verdicts --------------------------------------------------------------------------------

  predicate SeenIn(b: ArmStats, c: ArmStats) { 0 < b.Total() || 0 < c.Total() }

  /** The candidate was really tried: it has tasks, and was not served by just the baseline's models. */
  predicate Tried(b: ArmStats, c: ArmStats) { 0 < c.Total() && !(b.served == c.served && b.served != {}) }

  predicate Enough(b: ArmStats, c: ArmStats, minTasks: int) { minTasks <= b.Reported() && minTasks <= c.Reported() }

  /** Whatever the unreported tasks were, the gap's low end is above the margin. */
  ghost predicate AlwaysAbove(sqrt: real -> real, records: seq<TaskRecord>, z: real, margin: real, minTasks: int) {
    forall full :: Completes(records, full) ==> margin < Analyze(sqrt, full, z, margin, minTasks).diffLow
  }

  ghost predicate AlwaysWithin(sqrt: real -> real, records: seq<TaskRecord>, z: real, margin: real, minTasks: int) {
    forall full :: Completes(records, full) ==> Analyze(sqrt, full, z, margin, minTasks).diffHigh <= margin
  }

  lemma AboveIff(sqrt: real -> real, records: seq<TaskRecord>, z: real, margin: real, minTasks: int)
    requires IsSqrt(sqrt) && 0.0 <= z
    ensures AlwaysAbove(sqrt, records, z, margin, minTasks)
            <==> margin < Analyze(sqrt, records, z, margin, minTasks).diffLow
    ensures AlwaysWithin(sqrt, records, z, margin, minTasks)
            <==> Analyze(sqrt, records, z, margin, minTasks).diffHigh <= margin
  {
    hide Analyze, Favour, Completes, IsSqrt;
    BoundsAreAttained(sqrt, records, z, margin, minTasks);
    forall full | Completes(records, full)
      ensures Analyze(sqrt, records, z, margin, minTasks).diffLow <= Analyze(sqrt, full, z, margin, minTasks).diffLow
      ensures Analyze(sqrt, full, z, margin, minTasks).diffHigh <= Analyze(sqrt, records, z, margin, minTasks).diffHigh
    {
      DiffsEnclose(sqrt, records, full, z, margin, minTasks);
    }
  }

  lemma LowBelowHigh(sqrt: real -> real, records: seq<TaskRecord>, z: real, margin: real, minTasks: int)
    requires IsSqrt(sqrt) && 0.0 <= z
    ensures var r := Analyze(sqrt, records, z, margin, minTasks); r.diffLow <= r.diffHigh
  {
    hide Analyze, Favour, Completes, IsSqrt;
    BoundsAreAttained(sqrt, records, z, margin, minTasks);
    DiffsEnclose(sqrt, records, Favour(records, Candidate), z, margin, minTasks);
  }

  /** When each verdict is given, exactly. With enough reported tasks in a tried candidate, the tripwire
      calls a gross regression if and only if every completion of the missing outcomes puts the gap's
      interval above the margin, calls it clean if and only if every completion keeps the interval within
      the margin, and is inconclusive otherwise. */
  lemma VerdictIff(sqrt: real -> real, records: seq<TaskRecord>, z: real, margin: real, minTasks: int)
    requires IsSqrt(sqrt) && 0.0 <= z
    ensures var r := Analyze(sqrt, records, z, margin, minTasks);
            var decides := Tried(r.baseline, r.candidate) && Enough(r.baseline, r.candidate, minTasks);
            && (r.verdict.NoData? <==> !SeenIn(r.baseline, r.candidate))
            && (r.verdict.NotExercised? <==> SeenIn(r.baseline, r.candidate) && !Tried(r.baseline, r.candidate))
            && (r.verdict.Underpowered? <==>
                  Tried(r.baseline, r.candidate) && !Enough(r.baseline, r.candidate, minTasks))
            && (r.verdict.GrossRegression? <==> decides && AlwaysAbove(sqrt, records, z, margin, minTasks))
            && (r.verdict.NoGrossRegression? <==> decides && AlwaysWithin(sqrt, records, z, margin, minTasks))
  {
    hide IsSqrt, FailBounds, AlwaysAbove, AlwaysWithin, StatsOf;
    AboveIff(sqrt, records, z, margin, minTasks);
    LowBelowHigh(sqrt, records, z, margin, minTasks);
  }
}
