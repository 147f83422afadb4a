/** The live tripwire: task classification, per-arm tallies, worst-case failure bounds and the verdict. */
module Tripwire {
  import opened Prelude
  import opened Reals
  import opened Wilson

  datatype Arm = Baseline | Candidate | OtherArm

  datatype Status = Success | Failure | Unreported | Open | Contaminated

  /** One per-task aggregate row; `arms`, `experiments`, `identities`, `missing` and `ceilings` are counts. */
  datatype Row = Row(
    arms: int, experiments: int, identities: int, missing: int, arm: Arm, ceilings: int,
    success: Option<bool>, score: Option<real>, lastTs: real, servedModel: Option<string>)

  datatype TaskRecord = TaskRecord(arm: Arm, status: Status, servedModel: Option<string>)

  predicate IsContaminated(row: Row) {
    row.arms != 1 || row.experiments > 1 || row.identities != 1 || row.missing > 0 || row.arm.OtherArm?
  }

  function Classify(row: Row, now: real, idle: real, failBelow: Option<real>): TaskRecord {
    var closed := now - row.lastTs >= idle;
    var status :=
      if IsContaminated(row) then Contaminated
      else if row.ceilings > 0 then Failure
      else if row.success.Some? then (if row.success.value then Success else Failure)
      else if row.score.Some? && failBelow.Some? then (if row.score.value < failBelow.value then Failure else Success)
      else if closed then Unreported else Open;
    TaskRecord(row.arm, status, row.servedModel)
  }

  // ----- tallies -------------------------------------------------------------------------------

  function Tally(records: seq<TaskRecord>, arm: Arm, status: Status): nat {
    if records == [] then 0
    else (if records[0].arm == arm && records[0].status == status then 1 else 0) + Tally(records[1..], arm, status)
  }

  datatype ArmStats = ArmStats(success: nat, failure: nat, unreported: nat, open: nat, served: set<string>) {
    function Reported(): nat { success + failure }
    function Closed(): nat { success + failure + unreported }
    function Total(): nat { Closed() + open }
  }

  function Served(records: seq<TaskRecord>, arm: Arm): set<string> {
    set r <- records | r.arm == arm && !r.status.Contaminated? && r.servedModel.Some? :: r.servedModel.value
  }

  function StatsOf(records: seq<TaskRecord>, arm: Arm): ArmStats {
    ArmStats(Tally(records, arm, Success), Tally(records, arm, Failure),
             Tally(records, arm, Unreported), Tally(records, arm, Open), Served(records, arm))
  }

  /** Fewest failures at the low end, most failures at the high end. */
  function FailBounds(sqrt: real -> real, a: ArmStats, z: real): (real, real) {
    (Interval(sqrt, a.failure, a.Closed(), z).0, Interval(sqrt, a.failure + a.unreported, a.Closed(), z).1)
  }

  // ----- the verdict ---------------------------------------------------------------------------

  datatype Verdict = NoData | NotExercised | Underpowered | GrossRegression | NoGrossRegression | Inconclusive

  datatype Report = Report(verdict: Verdict, baseline: ArmStats, candidate: ArmStats, diffLow: real, diffHigh: real)

  predicate NoOpSwap(b: ArmStats, c: ArmStats) { b.served != {} && c.served != {} && b.served == c.served }

  function VerdictOf(b: ArmStats, c: ArmStats, diffLow: real, diffHigh: real, margin: real, minTasks: int): Verdict {
    if c.Total() == 0 && b.Total() == 0 then NoData
    else if NoOpSwap(b, c) || c.Total() == 0 then NotExercised
    else if c.Reported() < minTasks || b.Reported() < minTasks then Underpowered
    else if diffLow > margin then GrossRegression
    else if diffHigh <= margin then NoGrossRegression
    else Inconclusive
  }

  function Analyze(sqrt: real -> real, records: seq<TaskRecord>, z: real, margin: real, minTasks: int): Report {
    var b, c := StatsOf(records, Baseline), StatsOf(records, Candidate);
    var low := FailBounds(sqrt, c, z).0 - FailBounds(sqrt, b, z).1;
    var high := FailBounds(sqrt, c, z).1 - FailBounds(sqrt, b, z).0;
    Report(VerdictOf(b, c, low, high, margin, minTasks), b, c, low, high)
  }

  // ----- completions: what the unreported tasks might have been ----------------------------------

  /** `full` is `records` with every unreported task replaced by a success or a failure. */
  ghost predicate Completes(records: seq<TaskRecord>, full: seq<TaskRecord>) {
    && |records| == |full|
    && forall i :: 0 <= i < |records| ==>
         if records[i].status.Unreported?
         then full[i] == records[i].(status := Success) || full[i] == records[i].(status := Failure)
         else full[i] == records[i]
  }

  function Gap(records: seq<TaskRecord>): real
    requires StatsOf(records, Candidate).Closed() > 0 && StatsOf(records, Baseline).Closed() > 0
  {
    StatsOf(records, Candidate).failure as real / StatsOf(records, Candidate).Closed() as real
    - StatsOf(records, Baseline).failure as real / StatsOf(records, Baseline).Closed() as real
  }

  /** A completion leaves nothing unreported, keeps what was reported, and splits the unreported tasks
      of each arm into successes and failures. */
  lemma {:induction false} CompletionTallies(records: seq<TaskRecord>, full: seq<TaskRecord>, arm: Arm)
    requires Completes(records, full)
    ensures Tally(full, arm, Unreported) == 0 && Tally(full, arm, Open) == Tally(records, arm, Open)
    ensures Tally(records, arm, Failure) <= Tally(full, arm, Failure)
         <= Tally(records, arm, Failure) + Tally(records, arm, Unreported)
    ensures Tally(records, arm, Success) <= Tally(full, arm, Success)
    ensures Tally(full, arm, Success) + Tally(full, arm, Failure)
         == Tally(records, arm, Success) + Tally(records, arm, Failure) + Tally(records, arm, Unreported)
  {
    if records != [] {
      assert Completes(records[1..], full[1..]);
      CompletionTallies(records[1..], full[1..], arm);
    }
  }

  lemma CompletionServed(records: seq<TaskRecord>, full: seq<TaskRecord>, arm: Arm)
    requires Completes(records, full)
    ensures Served(full, arm) == Served(records, arm)
  {
    forall m | m in Served(full, arm) ensures m in Served(records, arm) {
      var r :| r in full && r.arm == arm && !r.status.Contaminated? && r.servedModel == Some(m);
      var i :| 0 <= i < |full| && full[i] == r;
      assert records[i] in records;
    }
    forall m | m in Served(records, arm) ensures m in Served(full, arm) {
      var r :| r in records && r.arm == arm && !r.status.Contaminated? && r.servedModel == Some(m);
      var i :| 0 <= i < |records| && records[i] == r;
      assert full[i] in full;
    }
  }

  /** The bounds of an arm enclose the bounds of every completion of it. */
  lemma BoundsEnclose(sqrt: real -> real, records: seq<TaskRecord>, full: seq<TaskRecord>, arm: Arm, z: real)
    requires IsSqrt(sqrt) && 0.0 <= z && Completes(records, full)
    ensures StatsOf(full, arm).Closed() == StatsOf(records, arm).Closed()
    ensures var wide, narrow := FailBounds(sqrt, StatsOf(records, arm), z), FailBounds(sqrt, StatsOf(full, arm), z);
            wide.0 <= narrow.0 <= narrow.1 <= wide.1
    ensures var a := StatsOf(full, arm); var narrow := FailBounds(sqrt, a, z);
            a.Closed() > 0 ==> narrow.0 <= a.failure as real / a.Closed() as real <= narrow.1
  {
    hide Interval, IsSqrt;
    CompletionTallies(records, full, arm);
    var a, f := StatsOf(records, arm), StatsOf(full, arm);
    IntervalMonotone(sqrt, a.failure, f.failure, a.Closed(), z);
    IntervalMonotone(sqrt, f.failure, a.failure + a.unreported, a.Closed(), z);
    IntervalBrackets(sqrt, f.failure, f.Closed(), z);
  }

  lemma DiffsEnclose(sqrt: real -> real, records: seq<TaskRecord>, full: seq<TaskRecord>,
                     z: real, margin: real, minTasks: int)
    requires IsSqrt(sqrt) && 0.0 <= z && Completes(records, full)
    ensures var r, f := Analyze(sqrt, records, z, margin, minTasks), Analyze(sqrt, full, z, margin, minTasks);
            r.diffLow <= f.diffLow <= f.diffHigh <= r.diffHigh
  {
    hide FailBounds, IsSqrt;
    BoundsEnclose(sqrt, records, full, Candidate, z);
    BoundsEnclose(sqrt, records, full, Baseline, z);
  }

  /** Worst-case soundness: whatever the unreported tasks really were, in both arms at once, the
      failure-rate gap lies within the reported bounds. So a gross regression means a gap above the
      margin under every imputation, and a clean verdict means a gap within it under every one. */
  lemma VerdictSoundUnderEveryImputation(sqrt: real -> real, records: seq<TaskRecord>, full: seq<TaskRecord>,
                                         z: real, margin: real, minTasks: int)
    requires IsSqrt(sqrt) && 0.0 <= z && Completes(records, full)
    requires StatsOf(full, Candidate).Closed() > 0 && StatsOf(full, Baseline).Closed() > 0
    ensures var r := Analyze(sqrt, records, z, margin, minTasks);
            && r.diffLow <= Gap(full) <= r.diffHigh
            && (r.verdict.GrossRegression? ==> margin < Gap(full))
            && (r.verdict.NoGrossRegression? ==> Gap(full) <= margin)
  {
    hide FailBounds, IsSqrt;
    BoundsEnclose(sqrt, records, full, Candidate, z);
    BoundsEnclose(sqrt, records, full, Baseline, z);
  }

  /** Late outcomes never overturn a verdict: once the tripwire has called a gross regression, or the
      absence of one, reporting the unreported tasks in any way at all gives the same verdict again. */
  lemma VerdictStableUnderLateOutcomes(sqrt: real -> real, records: seq<TaskRecord>, full: seq<TaskRecord>,
                                       z: real, margin: real, minTasks: int)
    requires IsSqrt(sqrt) && 0.0 <= z && Completes(records, full)
    requires Analyze(sqrt, records, z, margin, minTasks).verdict in {GrossRegression, NoGrossRegression}
    ensures Analyze(sqrt, full, z, margin, minTasks).verdict == Analyze(sqrt, records, z, margin, minTasks).verdict
  {
    hide FailBounds, IsSqrt;
    DiffsEnclose(sqrt, records, full, z, margin, minTasks);
    CompletionTallies(records, full, Candidate);
    CompletionTallies(records, full, Baseline);
    CompletionServed(records, full, Candidate);
    CompletionServed(records, full, Baseline);
  }

  // ----- the bounds are the tightest ones --------------------------------------------------------

  /** The completion that favours one arm: its unreported tasks succeed and the other arm's fail. */
  function Favour(records: seq<TaskRecord>, arm: Arm): seq<TaskRecord> {
    seq(|records|, i requires 0 <= i < |records| =>
      if records[i].status.Unreported?
      then records[i].(status := if records[i].arm == arm then Success else Failure)
      else records[i])
  }

  lemma {:induction false} FavourTallies(records: seq<TaskRecord>, arm: Arm, of: Arm)
    ensures Completes(records, Favour(records, arm))
    ensures Tally(Favour(records, arm), of, Failure)
         == Tally(records, of, Failure) + if of == arm then 0 else Tally(records, of, Unreported)
  {
    if records != [] {
      assert Favour(records, arm)[1..] == Favour(records[1..], arm);
      FavourTallies(records[1..], arm, of);
    }
  }

  lemma FavourStats(records: seq<TaskRecord>, arm: Arm, of: Arm)
    ensures Completes(records, Favour(records, arm))
    ensures var a, f := StatsOf(records, of), StatsOf(Favour(records, arm), of);
            && f.Closed() == a.Closed() && f.unreported == 0
            && f.failure == a.failure + if of == arm then 0 else a.unreported
  {
    FavourTallies(records, arm, of);
    CompletionTallies(records, Favour(records, arm), of);
  }

  /** Each bound is attained: the low end of the gap by the completion that favours the candidate, the
      high end by the one that favours the baseline. Narrower bounds would leave out the interval that
      one of those completions itself reports. */
  lemma BoundsAreAttained(sqrt: real -> real, records: seq<TaskRecord>, z: real, margin: real, minTasks: int)
    ensures Completes(records, Favour(records, Candidate)) && Completes(records, Favour(records, Baseline))
    ensures Analyze(sqrt, Favour(records, Candidate), z, margin, minTasks).diffLow
         == Analyze(sqrt, records, z, margin, minTasks).diffLow
    ensures Analyze(sqrt, Favour(records, Baseline), z, margin, minTasks).diffHigh
         == Analyze(sqrt, records, z, margin, minTasks).diffHigh
  {
    hide Interval, StatsOf, Favour, Completes;
    FavourStats(records, Candidate, Candidate);
    FavourStats(records, Candidate, Baseline);
    FavourStats(records, Baseline, Candidate);
    FavourStats(records, Baseline, Baseline);
  }

  // ----- classification ------------------------------------------------------------------------

  /** Time only ever closes tasks: as the clock advances a row's class stays what it is, except that an
      open task may become unreported. A ceiling cut-off counts as a failure even when the application
      reports success, and contamination beats everything. */
  lemma ClassificationOverTime(row: Row, now: real, later: real, idle: real, failBelow: Option<real>)
    requires now <= later
    ensures var a, b := Classify(row, now, idle, failBelow), Classify(row, later, idle, failBelow);
            && (a == b || (a.status.Open? && b == a.(status := Unreported)))
            && (a.status.Contaminated? <==> IsContaminated(row))
            && (a.status.Open? || a.status.Unreported? <==>
                !IsContaminated(row) && row.ceilings <= 0 && row.success.None? && (row.score.None? || failBelow.None?))
            && (!IsContaminated(row) && row.ceilings > 0 ==> a.status.Failure?)
  {}
}
