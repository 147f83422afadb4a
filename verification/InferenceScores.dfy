/** What counts as a producer, how edges are confirmed, and what the ambiguity figure counts. */
module InferenceScores {
  import opened Prelude
  import opened Inference

  // ----- producers -------------------------------------------------------------------------------

  /** A trace that could have produced the tool id for the target: of the same task and workflow version,
      from another step run, earlier, with the id among those it produced. */
  predicate Produces(c: Trace, target: Trace, tool: string) {
    && Placed(c) && Placed(target) && c.task == target.task && tool in c.produced
    && c.id < target.id && c.run != target.run && c.workflow == target.workflow && c.version == target.version
  }

  lemma {:induction false} ProducersCount(traces: seq<Trace>, task: string, tool: string, c: Trace)
    ensures multiset(Producers(traces, task, tool))[c]
            == if Placed(c) && c.task.value == task && tool in c.produced then multiset(traces)[c] else 0
  {
    if traces != [] {
      var init, last := traces[..|traces| - 1], traces[|traces| - 1];
      ProducersCount(init, task, tool, c);
      assert traces == init + [last];
      var before := Producers(init, task, tool);
      if Placed(last) && last.task.value == task && tool in last.produced {
        assert Producers(traces, task, tool) == before + [last];
      } else {
        assert Producers(traces, task, tool) == before;
      }
      hide Producers;
    }
  }

  lemma {:induction false} KeepCount(rows: seq<Trace>, target: Trace, c: Trace)
    ensures multiset(Keep(rows, target))[c] == if Eligible(c, target) then multiset(rows)[c] else 0
  {
    if rows != [] {
      KeepCount(rows[1..], target, c);
      assert rows == [rows[0]] + rows[1..];
    }
  }

  /** The candidates of a use are exactly the traces that could have produced the id, as often as they
      occur: none is overlooked and none is invented. */
  lemma CandidatesAre(traces: seq<Trace>, target: Trace, tool: string, c: Trace)
    requires Placed(target)
    ensures multiset(Candidates(traces, target, tool))[c]
            == if Produces(c, target, tool) then multiset(traces)[c] else 0
  {
    ProducersCount(traces, target.task.value, tool, c);
    KeepCount(Producers(traces, target.task.value, tool), target, c);
  }

  // ----- confirmation ----------------------------------------------------------------------------

  /** An edge is confirmed when the application declared that dependency, contradicted when it declared
      facts about the target's run but not that one, and unverified when it declared none. */
  lemma ConfirmationIs(f: Facts, e: Edge)
    requires e in Infer(f).edges
    ensures Placed(e.source) && Placed(e.target)
    ensures var declared := Dependency(e.target.task.value, e.source.run.value, e.target.run.value) in f.dependencies;
            var known := StepRun(e.target.task.value, e.target.run.value) in f.explicitRuns;
            && (e.confirmation.Confirmed? <==> declared)
            && (e.confirmation.Contradicted? <==> !declared && known)
            && (e.confirmation.Unverified? <==> !declared && !known)
  {
    hide Infer, Candidates;
    EdgesUniquelyAttributed(f);
    assert Attributed(f, e);
  }

  /** Declared runs are those given, or those that a declared dependency leads to when none are given. */
  lemma DefaultRuns(dependencies: set<Dependency>, given: set<StepRun>, run: StepRun)
    ensures run in ExplicitRuns(dependencies, given) <==>
            if given == {} then exists d <- dependencies :: run == StepRun(d.task, d.target) else run in given
  {}

  // ----- the scores ------------------------------------------------------------------------------

  /** The edge is evidence for the dependency. */
  predicate Links(e: Edge, d: Dependency) {
    Some(d.task) == e.target.task && Some(d.source) == e.source.run && Some(d.target) == e.target.run
  }

  /** Some edge found the dependency, and its target is a run with declared facts. */
  predicate FoundIn(f: Facts, edges: seq<Edge>, d: Dependency) {
    StepRun(d.task, d.target) in f.explicitRuns && exists e <- edges :: Links(e, d)
  }

  function LinkOf(e: Edge): Dependency
    requires Placed(e.source) && Placed(e.target)
  {
    Dependency(e.target.task.value, e.source.run.value, e.target.run.value)
  }

  lemma InferredAre(f: Facts, edges: seq<Edge>, d: Dependency)
    requires forall e <- edges :: Placed(e.source) && Placed(e.target)
    ensures d in InferredExplicit(f, edges) <==> FoundIn(f, edges, d)
  {
    if d in InferredExplicit(f, edges) {
      var e :| e in edges && Placed(e.source) && Placed(e.target)
               && StepRun(e.target.task.value, e.target.run.value) in f.explicitRuns
               && Dependency(e.target.task.value, e.source.run.value, e.target.run.value) == d;
      assert Links(e, d);
    }
    if FoundIn(f, edges, d) {
      var e :| e in edges && Links(e, d);
      assert LinkOf(e) == d;
    }
  }

  /** True positives are the declared dependencies that were found, false negatives those that were not,
      and false positives the different dependencies that contradicted edges stand for. */
  lemma ScoresAre(f: Facts)
    ensures forall e <- Infer(f).edges :: Placed(e.source) && Placed(e.target)
    ensures var r := Infer(f);
            && r.truePositive == |set d <- f.dependencies | FoundIn(f, r.edges, d)|
            && r.falseNegative == |set d <- f.dependencies | !FoundIn(f, r.edges, d)|
            && r.falsePositive == |set e <- r.edges | e.confirmation.Contradicted? :: LinkOf(e)|
  {
    var edges := Infer(f).edges;
    forall e | e in edges ensures Placed(e.source) && Placed(e.target) { ConfirmationIs(f, e); }
    var inferred := InferredExplicit(f, edges);
    forall d ensures d in inferred <==> FoundIn(f, edges, d) { InferredAre(f, edges, d); }
    assert inferred * f.dependencies == set d <- f.dependencies | FoundIn(f, edges, d);
    assert f.dependencies - inferred == set d <- f.dependencies | !FoundIn(f, edges, d);
    ContradictedAre(f, edges, inferred);
  }

  lemma ContradictedAre(f: Facts, edges: seq<Edge>, inferred: set<Dependency>)
    requires edges == Infer(f).edges && forall e <- edges :: Placed(e.source) && Placed(e.target)
    requires forall d :: d in inferred <==> FoundIn(f, edges, d)
    ensures inferred - f.dependencies == set e <- edges | e.confirmation.Contradicted? :: LinkOf(e)
  {
    var contradicted := set e <- edges | e.confirmation.Contradicted? :: LinkOf(e);
    forall d | d in inferred && d !in f.dependencies ensures d in contradicted {
      var e :| e in edges && Links(e, d);
      ConfirmationIs(f, e);
      assert LinkOf(e) == d;
    }
    forall d | d in contradicted ensures d in inferred && d !in f.dependencies {
      var e :| e in edges && e.confirmation.Contradicted? && LinkOf(e) == d;
      ConfirmationIs(f, e);
      assert Links(e, d);
    }
  }

  // ----- ambiguity -------------------------------------------------------------------------------

  /** Of the first `k` tool ids that trace `i` uses: how many are first uses in their task with more than
      one possible producer. */
  ghost function AmbiguousIn(f: Facts, i: nat, k: nat): nat
    requires i < |f.traces| && k <= |f.traces[i].consumed| && Placed(f.traces[i])
  {
    if k == 0 then 0
    else
      var t, tool := f.traces[i], f.traces[i].consumed[k - 1];
      AmbiguousIn(f, i, k - 1)
      + if !UsedBefore(f.traces, i, t.task.value, tool) && 1 < |Candidates(f.traces, t, tool)| then 1 else 0
  }

  ghost function AmbiguousUpTo(f: Facts, n: nat): nat
    requires n <= |f.traces|
  {
    if n == 0 then 0
    else
      AmbiguousUpTo(f, n - 1)
      + if Placed(f.traces[n - 1]) then AmbiguousIn(f, n - 1, |f.traces[n - 1].consumed|) else 0
  }

  lemma UseCounts(f: Facts, s: Scan, target: Trace, tool: string)
    requires Placed(target)
    ensures Use(f, s, target, tool).ambiguous
            == s.ambiguous
               + if (target.task.value, tool) !in s.consumed && 1 < |Candidates(f.traces, target, tool)| then 1 else 0
  {
    hide Candidates;
  }

  lemma {:induction false} UseAllCounts(f: Facts, i: nat, k: nat)
    requires i < |f.traces| && Placed(f.traces[i]) && k <= |f.traces[i].consumed| && NoRepeats(f.traces[i].consumed)
    ensures UseAll(f, ScanUpTo(f, i), f.traces[i], f.traces[i].consumed[..k]).ambiguous
            == ScanUpTo(f, i).ambiguous + AmbiguousIn(f, i, k)
  {
    hide Use, Candidates, ScanUpTo;
    var t, s := f.traces[i], ScanUpTo(f, i);
    if k == 0 {
      assert t.consumed[..0] == [];
    } else {
      UseAllCounts(f, i, k - 1);
      assert t.consumed[..k][..k - 1] == t.consumed[..k - 1];
      var before := UseAll(f, s, t, t.consumed[..k - 1]);
      UsedSoFar(f, i, k - 1);
      UseCounts(f, before, t, t.consumed[k - 1]);
    }
  }

  lemma UsedSoFar(f: Facts, i: nat, k: nat)
    requires i < |f.traces| && Placed(f.traces[i]) && k < |f.traces[i].consumed| && NoRepeats(f.traces[i].consumed)
    ensures var t := f.traces[i];
            (t.task.value, t.consumed[k]) in UseAll(f, ScanUpTo(f, i), t, t.consumed[..k]).consumed
            <==> UsedBefore(f.traces, i, t.task.value, t.consumed[k])
  {
    hide UseAll, ScanUpTo, UsedBefore, KeysReported;
    var t := f.traces[i];
    ScanGrows(f, i);
    NextTool(t.consumed, k);
    UseAllGrows(f, ScanUpTo(f, i), t, t.consumed[..k]);
  }

  /** The ambiguity figure counts exactly the first uses of a tool id in a task that more than one trace
      could have produced: no edge is guessed for those. */
  lemma {:induction false} AmbiguousExact(f: Facts, n: nat)
    requires n <= |f.traces| && forall i :: 0 <= i < |f.traces| ==> NoRepeats(f.traces[i].consumed)
    ensures ScanUpTo(f, n).ambiguous == AmbiguousUpTo(f, n)
    ensures n == |f.traces| ==> Infer(f).ambiguous == AmbiguousUpTo(f, n)
  {
    hide UseAll, AmbiguousIn;
    if n > 0 {
      AmbiguousExact(f, n - 1);
      var t := f.traces[n - 1];
      if Placed(t) {
        UseAllCounts(f, n - 1, |t.consumed|);
        assert t.consumed[..|t.consumed|] == t.consumed;
      }
    }
  }
}
