/** Evidence-only reconstruction of data-flow edges from tool-call ids, and its scores. */
module Inference {
  import opened Prelude

  /** One trace; the tool ids a body mentions are listed in the order they are visited, each once. */
  datatype Trace = Trace(
    id: int, task: Option<string>, run: Option<string>, workflow: Option<string>, version: Option<string>,
    produced: seq<string>, consumed: seq<string>)

  datatype Confirmation = Confirmed | Contradicted | Unverified

  /** An inferred edge, by the two traces it joins and the tool id that is its evidence; the reported
      row is a projection of these. */
  datatype Edge = Edge(source: Trace, target: Trace, tool: string, confirmation: Confirmation)

  datatype Dependency = Dependency(task: string, source: string, target: string)

  datatype StepRun = StepRun(task: string, run: string)

  datatype Report = Report(edges: seq<Edge>, ambiguous: nat, explicit: nat,
                           truePositive: nat, falsePositive: nat, falseNegative: nat)

  /** Whether a trace carries a task and a step run (an empty header counts as absent). */
  predicate Placed(t: Trace) { t.task.Some? && t.run.Some? && t.task.value != "" && t.run.value != "" }

  /** The placed traces of a task that produced a tool id, in trace order. */
  function Producers(traces: seq<Trace>, task: string, tool: string): seq<Trace> {
    if traces == [] then []
    else
      var init, last := traces[..|traces| - 1], traces[|traces| - 1];
      Producers(init, task, tool)
      + if Placed(last) && last.task.value == task && tool in last.produced then [last] else []
  }

  predicate Eligible(source: Trace, target: Trace) {
    source.id < target.id && source.run != target.run && source.workflow == target.workflow
    && source.version == target.version
  }

  function Keep(rows: seq<Trace>, target: Trace): seq<Trace> {
    if rows == [] then [] else (if Eligible(rows[0], target) then [rows[0]] else []) + Keep(rows[1..], target)
  }

  function Candidates(traces: seq<Trace>, target: Trace, tool: string): seq<Trace>
    requires Placed(target)
  {
    Keep(Producers(traces, target.task.value, tool), target)
  }

  // ----- the scan as a function ------------------------------------------------------------------

  /** What the scan remembers: the edges, the ambiguous uses, the (task, tool) pairs already used up,
      and the (task, source run, target run, evidence hash) keys already reported. */
  datatype Scan = Scan(edges: seq<Edge>, ambiguous: nat, consumed: set<(string, string)>,
                       seen: set<(string, string, string, string)>)

  const START := Scan([], 0, {}, {})

  /** The injected facts: all traces, the explicit dependencies, the runs that have explicit facts, and
      the evidence hash. */
  datatype Facts = Facts(traces: seq<Trace>, dependencies: set<Dependency>, explicitRuns: set<StepRun>,
                         hash: string -> string)

  function Confirm(f: Facts, source: Trace, target: Trace): Confirmation
    requires Placed(source) && Placed(target)
  {
    if Dependency(target.task.value, source.run.value, target.run.value) in f.dependencies then Confirmed
    else if StepRun(target.task.value, target.run.value) in f.explicitRuns then Contradicted
    else Unverified
  }

  function KeyOf(f: Facts, source: Trace, target: Trace, tool: string): (string, string, string, string)
    requires Placed(source) && Placed(target)
  {
    (target.task.value, source.run.value, target.run.value, f.hash(tool))
  }

  /** One use of one tool id. */
  function Use(f: Facts, s: Scan, target: Trace, tool: string): Scan
    requires Placed(target)
  {
    var key := (target.task.value, tool);
    if key in s.consumed then s
    else
      var s1 := s.(consumed := s.consumed + {key});
      var candidates := Candidates(f.traces, target, tool);
      if |candidates| != 1 then s1.(ambiguous := s1.ambiguous + if candidates == [] then 0 else 1)
      else
        CandidatesPlaced(f.traces, target, tool);
        var source := candidates[0];
        var edge := KeyOf(f, source, target, tool);
        if edge in s1.seen then s1
        else s1.(seen := s1.seen + {edge}, edges := s1.edges + [Edge(source, target, tool, Confirm(f, source, target))])
  }

  function UseAll(f: Facts, s: Scan, target: Trace, tools: seq<string>): Scan
    requires Placed(target)
  {
    if tools == [] then s else Use(f, UseAll(f, s, target, tools[..|tools| - 1]), target, tools[|tools| - 1])
  }

  function ScanUpTo(f: Facts, n: nat): Scan
    requires n <= |f.traces|
  {
    if n == 0 then START
    else
      var s, t := ScanUpTo(f, n - 1), f.traces[n - 1];
      if Placed(t) then UseAll(f, s, t, t.consumed) else s
  }

  function InferredExplicit(f: Facts, edges: seq<Edge>): set<Dependency> {
    set e <- edges | Placed(e.source) && Placed(e.target)
                     && StepRun(e.target.task.value, e.target.run.value) in f.explicitRuns
      :: Dependency(e.target.task.value, e.source.run.value, e.target.run.value)
  }

  function Infer(f: Facts): Report {
    var s := ScanUpTo(f, |f.traces|);
    var inferred := InferredExplicit(f, s.edges);
    Report(s.edges, s.ambiguous, |f.dependencies|, |inferred * f.dependencies|,
           |inferred - f.dependencies|, |f.dependencies - inferred|)
  }

  /** Explicit runs default to the targets of the explicit dependencies when none are given. */
  function ExplicitRuns(dependencies: set<Dependency>, given: set<StepRun>): set<StepRun> {
    if given != {} then given else set d <- dependencies :: StepRun(d.task, d.target)
  }

  lemma {:induction false} ProducersExact(traces: seq<Trace>, task: string, tool: string)
    ensures forall p <- Producers(traces, task, tool) ::
              p in traces && Placed(p) && p.task.value == task && tool in p.produced
  {
    if traces != [] {
      var init, last := traces[..|traces| - 1], traces[|traces| - 1];
      ProducersExact(init, task, tool);
      assert traces == init + [last];
    }
  }

  lemma {:induction false} KeepExact(rows: seq<Trace>, target: Trace)
    ensures forall r <- Keep(rows, target) :: r in rows && Eligible(r, target)
  {
    if rows != [] { KeepExact(rows[1..], target); }
  }

  lemma CandidatesPlaced(traces: seq<Trace>, target: Trace, tool: string)
    requires Placed(target)
    ensures forall c <- Candidates(traces, target, tool) ::
              c in traces && Placed(c) && c.task == target.task && tool in c.produced && Eligible(c, target)
  {
    ProducersExact(traces, target.task.value, tool);
    KeepExact(Producers(traces, target.task.value, tool), target);
  }

  // ----- the loops -------------------------------------------------------------------------------

  type Index = map<(string, string), seq<Trace>>

  ghost predicate Indexed(m: Index, traces: seq<Trace>) {
    forall task, tool :: Listed(m, task, tool) == Producers(traces, task, tool)
  }

  function Listed(m: Index, task: string, tool: string): seq<Trace> { Get(m, (task, tool), []) }

  /** `m` lists one more trace than `before` under each of its first `k` tool ids. */
  ghost predicate Extends(m: Index, before: Index, t: Trace, k: nat)
    requires Placed(t) && k <= |t.produced|
  {
    forall task, tool ::
      Listed(m, task, tool)
      == Listed(before, task, tool) + if task == t.task.value && tool in t.produced[..k] then [t] else []
  }

  ghost predicate NoRepeats(tools: seq<string>) { forall i, j :: 0 <= i < j < |tools| ==> tools[i] != tools[j] }

  lemma NextTool(tools: seq<string>, k: nat)
    requires k < |tools| && NoRepeats(tools)
    ensures tools[k] !in tools[..k]
    ensures forall tool :: tool in tools[..k + 1] <==> tool in tools[..k] || tool == tools[k]
  {
    assert tools[..k + 1] == tools[..k] + [tools[k]];
  }

  lemma ExtendOne(m: Index, before: Index, t: Trace, k: nat)
    requires Placed(t) && k < |t.produced| && NoRepeats(t.produced) && Extends(m, before, t, k)
    ensures var key := (t.task.value, t.produced[k]);
            Extends(m[key := Get(m, key, []) + [t]], before, t, k + 1)
  {
    NextTool(t.produced, k);
    var key := (t.task.value, t.produced[k]);
    var next := m[key := Get(m, key, []) + [t]];
    forall task, tool ensures Listed(next, task, tool)
                           == Listed(before, task, tool) + if task == t.task.value && tool in t.produced[..k + 1]
                                                           then [t] else []
    {
      assert Listed(next, task, tool) == Listed(m, task, tool) + if (task, tool) == key then [t] else [];
      assert Listed(before, task, tool) + [] == Listed(before, task, tool);
    }
  }

  /** `setdefault((task, tool), []).append(trace)` for every tool id the trace produced. */
  method AddProducer(before: Index, t: Trace) returns (m: Index)
    requires Placed(t) && NoRepeats(t.produced)
    ensures Extends(m, before, t, |t.produced|)
  {
    m := before;
    assert forall task, tool :: Listed(before, task, tool) + [] == Listed(before, task, tool);
    for k := 0 to |t.produced|
      invariant Extends(m, before, t, k)
    {
      ExtendOne(m, before, t, k);
      var key := (t.task.value, t.produced[k]);
      m := m[key := Get(m, key, []) + [t]];
    }
  }

  lemma IndexedNext(m: Index, next: Index, traces: seq<Trace>, n: nat)
    requires n < |traces| && Indexed(m, traces[..n])
    requires if Placed(traces[n]) then Extends(next, m, traces[n], |traces[n].produced|) else next == m
    ensures Indexed(next, traces[..n + 1])
  {
    var t := traces[n];
    assert traces[..n + 1][..n] == traces[..n];
    assert t.produced[..|t.produced|] == t.produced;
    forall task, tool ensures Listed(next, task, tool) == Producers(traces[..n + 1], task, tool) {
      assert Get(m, (task, tool), []) == Producers(traces[..n], task, tool);
      assert traces[..n + 1][n] == t;
      assert Producers(traces[..n], task, tool) + [] == Producers(traces[..n], task, tool);
    }
  }

  /** Build the producer index. */
  method IndexProducers(traces: seq<Trace>) returns (m: Index)
    requires forall i :: 0 <= i < |traces| ==> NoRepeats(traces[i].produced)
    ensures Indexed(m, traces)
  {
    m := map[];
    for n := 0 to |traces|
      invariant Indexed(m, traces[..n])
    {
      ghost var before := m;
      if Placed(traces[n]) {
        m := AddProducer(m, traces[n]);
      }
      IndexedNext(before, m, traces, n);
    }
    assert traces[..|traces|] == traces;
  }

  /** One use, with the producers looked up in the index. */
  method UseTool(f: Facts, producers: Index, before: Scan, target: Trace, tool: string) returns (s: Scan)
    requires Placed(target) && Indexed(producers, f.traces)
    ensures s == Use(f, before, target, tool)
  {
    hide Producers, Keep, Eligible;
    var evidence := (target.task.value, tool);
    if evidence in before.consumed { return before; }
    s := before.(consumed := before.consumed + {evidence});
    assert Listed(producers, target.task.value, tool) == Producers(f.traces, target.task.value, tool);
    var candidates := Keep(Get(producers, evidence, []), target);
    assert candidates == Candidates(f.traces, target, tool);
    if |candidates| != 1 {
      s := s.(ambiguous := s.ambiguous + if candidates != [] then 1 else 0);
    } else {
      CandidatesPlaced(f.traces, target, tool);
      var source := candidates[0];
      var key := (target.task.value, source.run.value, target.run.value, f.hash(tool));
      if key !in s.seen {
        s := s.(seen := s.seen + {key}, edges := s.edges + [Edge(source, target, tool, Confirm(f, source, target))]);
      }
    }
  }

  /** The inner loop over one trace's consumed tool ids. */
  method UseTools(f: Facts, producers: Index, before: Scan, target: Trace) returns (s: Scan)
    requires Placed(target) && Indexed(producers, f.traces)
    ensures s == UseAll(f, before, target, target.consumed)
  {
    hide Use, Indexed;
    s := before;
    for k := 0 to |target.consumed|
      invariant s == UseAll(f, before, target, target.consumed[..k])
    {
      assert target.consumed[..k + 1][..k] == target.consumed[..k];
      s := UseTool(f, producers, s, target, target.consumed[k]);
    }
    assert target.consumed[..|target.consumed|] == target.consumed;
  }

  /** Inference from the caller's arguments: explicit runs default to the dependencies' targets. */
  method InferEdges(traces: seq<Trace>, dependencies: set<Dependency>, given: set<StepRun>, hash: string -> string)
    returns (r: Report)
    requires forall i :: 0 <= i < |traces| ==> NoRepeats(traces[i].produced)
    ensures r == Infer(Facts(traces, dependencies, ExplicitRuns(dependencies, given), hash))
  {
    var f := Facts(traces, dependencies, ExplicitRuns(dependencies, given), hash);
    var producers := IndexProducers(f.traces);
    var s := START;
    for n := 0 to |f.traces|
      invariant s == ScanUpTo(f, n)
    {
      if Placed(f.traces[n]) {
        s := UseTools(f, producers, s, f.traces[n]);
      }
    }
    var inferred := InferredExplicit(f, s.edges);
    r := Report(s.edges, s.ambiguous, |f.dependencies|, |inferred * f.dependencies|,
                |inferred - f.dependencies|, |f.dependencies - inferred|);
  }

  // ----- what an edge means ----------------------------------------------------------------------

  /** An edge joins two different runs of one task and one workflow version, from a strictly earlier
      trace that produced the tool id to a trace that consumed it, and that producer was the only
      eligible one. */
  ghost predicate Attributed(f: Facts, e: Edge) {
    && e.source in f.traces && e.target in f.traces && Placed(e.source) && Placed(e.target)
    && e.source.task == e.target.task && e.source.run != e.target.run
    && e.source.workflow == e.target.workflow && e.source.version == e.target.version
    && e.source.id < e.target.id
    && e.tool in e.source.produced && e.tool in e.target.consumed
    && Candidates(f.traces, e.target, e.tool) == [e.source]
    && e.confirmation == Confirm(f, e.source, e.target)
  }

  ghost predicate EvidenceUnique(edges: seq<Edge>) {
    forall i, j :: 0 <= i < j < |edges| ==>
      edges[i].tool != edges[j].tool || edges[i].target.task != edges[j].target.task
  }

  ghost predicate ScanInv(f: Facts, s: Scan) {
    && (forall i :: 0 <= i < |s.edges| ==> Attributed(f, s.edges[i]))
    && EvidenceUnique(s.edges)
    && (forall i :: 0 <= i < |s.edges| && Placed(s.edges[i].target) ==>
          (s.edges[i].target.task.value, s.edges[i].tool) in s.consumed)
  }

  lemma UseKeepsInv(f: Facts, s: Scan, target: Trace, tool: string)
    requires ScanInv(f, s) && Placed(target) && target in f.traces && tool in target.consumed
    ensures ScanInv(f, Use(f, s, target, tool))
  {
    CandidatesPlaced(f.traces, target, tool);
    var s1 := Use(f, s, target, tool);
    if |s1.edges| > |s.edges| {
      var candidates := Candidates(f.traces, target, tool);
      assert candidates == [candidates[0]];
      assert Attributed(f, s1.edges[|s.edges|]);
    }
  }

  lemma {:induction false} UseAllKeepsInv(f: Facts, s: Scan, target: Trace, tools: seq<string>)
    requires ScanInv(f, s) && Placed(target) && target in f.traces
    requires forall i :: 0 <= i < |tools| ==> tools[i] in target.consumed
    ensures ScanInv(f, UseAll(f, s, target, tools))
  {
    if tools != [] {
      UseAllKeepsInv(f, s, target, tools[..|tools| - 1]);
      UseKeepsInv(f, UseAll(f, s, target, tools[..|tools| - 1]), target, tools[|tools| - 1]);
    }
  }

  lemma {:induction false} ScanKeepsInv(f: Facts, n: nat)
    requires n <= |f.traces|
    ensures ScanInv(f, ScanUpTo(f, n))
  {
    if n > 0 {
      ScanKeepsInv(f, n - 1);
      if Placed(f.traces[n - 1]) { UseAllKeepsInv(f, ScanUpTo(f, n - 1), f.traces[n - 1], f.traces[n - 1].consumed); }
    }
  }

  /** Every inferred edge is uniquely attributed, and each (task, tool id) is the evidence of at most
      one edge, whatever the traces. */
  lemma EdgesUniquelyAttributed(f: Facts)
    ensures forall i :: 0 <= i < |Infer(f).edges| ==> Attributed(f, Infer(f).edges[i])
    ensures EvidenceUnique(Infer(f).edges)
  {
    ScanKeepsInv(f, |f.traces|);
  }

  // ----- no evidence is overlooked ---------------------------------------------------------------

  ghost predicate Injective(hash: string -> string) { forall x, y :: hash(x) == hash(y) ==> x == y }

  /** Reported keys stand for reported edges. */
  ghost predicate KeysReported(f: Facts, s: Scan) {
    forall key <- s.seen :: exists i :: 0 <= i < |s.edges| && Placed(s.edges[i].source) && Placed(s.edges[i].target)
                                        && key == KeyOf(f, s.edges[i].source, s.edges[i].target, s.edges[i].tool)
  }

  lemma UseGrows(f: Facts, s: Scan, target: Trace, tool: string)
    requires Placed(target) && KeysReported(f, s)
    ensures s.edges <= Use(f, s, target, tool).edges && KeysReported(f, Use(f, s, target, tool))
    ensures Use(f, s, target, tool).consumed == s.consumed + {(target.task.value, tool)}
  {
    CandidatesPlaced(f.traces, target, tool);
    var s1 := Use(f, s, target, tool);
    forall key | key in s1.seen
      ensures exists i :: 0 <= i < |s1.edges| && Placed(s1.edges[i].source) && Placed(s1.edges[i].target)
                          && key == KeyOf(f, s1.edges[i].source, s1.edges[i].target, s1.edges[i].tool)
    {
      if key in s.seen {
        var i :| 0 <= i < |s.edges| && Placed(s.edges[i].source) && Placed(s.edges[i].target)
                 && key == KeyOf(f, s.edges[i].source, s.edges[i].target, s.edges[i].tool);
        assert s1.edges[i] == s.edges[i];
      } else {
        var e := s1.edges[|s.edges|];
        assert key == KeyOf(f, e.source, e.target, e.tool);
      }
    }
  }

  lemma {:induction false} UseAllGrows(f: Facts, s: Scan, target: Trace, tools: seq<string>)
    requires Placed(target) && KeysReported(f, s)
    ensures var s1 := UseAll(f, s, target, tools);
            && s.edges <= s1.edges && KeysReported(f, s1)
            && s1.consumed == s.consumed + set tool <- tools :: (target.task.value, tool)
  {
    if tools != [] {
      var init := tools[..|tools| - 1];
      UseAllGrows(f, s, target, init);
      UseGrows(f, UseAll(f, s, target, init), target, tools[|tools| - 1]);
      assert tools == init + [tools[|tools| - 1]];
    }
  }

  /** Some placed trace among the first `n` uses this tool id in this task. */
  ghost predicate UsedBefore(traces: seq<Trace>, n: nat, task: string, tool: string)
    requires n <= |traces|
  {
    exists i :: 0 <= i < n && Placed(traces[i]) && traces[i].task.value == task && tool in traces[i].consumed
  }

  lemma {:induction false} ScanGrows(f: Facts, n: nat)
    requires n <= |f.traces|
    ensures KeysReported(f, ScanUpTo(f, n))
    ensures forall task, tool :: (task, tool) in ScanUpTo(f, n).consumed <==> UsedBefore(f.traces, n, task, tool)
  {
    if n > 0 {
      ScanGrows(f, n - 1);
      var t := f.traces[n - 1];
      if Placed(t) { UseAllGrows(f, ScanUpTo(f, n - 1), t, t.consumed); }
      forall task, tool
        ensures (task, tool) in ScanUpTo(f, n).consumed <==> UsedBefore(f.traces, n, task, tool)
      {
        assert (task, tool) in ScanUpTo(f, n - 1).consumed <==> UsedBefore(f.traces, n - 1, task, tool);
        if Placed(t) {
          assert (task, tool) in (set x <- t.consumed :: (t.task.value, x))
                 <==> task == t.task.value && tool in t.consumed;
        }
      }
    }
  }

  lemma {:induction false} EdgesGrow(f: Facts, m: nat, n: nat)
    requires m <= n <= |f.traces|
    ensures ScanUpTo(f, m).edges <= ScanUpTo(f, n).edges
    decreases n
  {
    if m < n {
      EdgesGrow(f, m, n - 1);
      ScanGrows(f, n - 1);
      if Placed(f.traces[n - 1]) { UseAllGrows(f, ScanUpTo(f, n - 1), f.traces[n - 1], f.traces[n - 1].consumed); }
    }
  }

  lemma FreshUseReports(f: Facts, s: Scan, target: Trace, tool: string)
    requires Injective(f.hash) && Placed(target) && ScanInv(f, s) && KeysReported(f, s)
    requires (target.task.value, tool) !in s.consumed && |Candidates(f.traces, target, tool)| == 1
    ensures var e := Use(f, s, target, tool).edges;
            e != [] && e[|e| - 1].target == target && e[|e| - 1].tool == tool
  {
    CandidatesPlaced(f.traces, target, tool);
  }

  /** No usable evidence is overlooked: if a trace is the first of its task to use a tool id, and exactly
      one eligible trace produced that id, the edge is reported. */
  lemma FirstUseIsReported(f: Facts, i: nat, k: nat)
    requires Injective(f.hash) && i < |f.traces| && Placed(f.traces[i])
    requires k < |f.traces[i].consumed| && NoRepeats(f.traces[i].consumed)
    requires var t, tool := f.traces[i], f.traces[i].consumed[k];
             !UsedBefore(f.traces, i, t.task.value, tool) && |Candidates(f.traces, t, tool)| == 1
    ensures exists e <- Infer(f).edges :: e.target == f.traces[i] && e.tool == f.traces[i].consumed[k]
  {
    FirstUseReports(f, i, k);
    LaterEdgesKeep(f, i, k);
    var now := UseAll(f, ScanUpTo(f, i), f.traces[i], f.traces[i].consumed[..k + 1]).edges;
    assert Infer(f).edges[|now| - 1] == now[|now| - 1];
  }

  lemma FirstUseReports(f: Facts, i: nat, k: nat)
    requires Injective(f.hash) && i < |f.traces| && Placed(f.traces[i])
    requires k < |f.traces[i].consumed| && NoRepeats(f.traces[i].consumed)
    requires var t, tool := f.traces[i], f.traces[i].consumed[k];
             !UsedBefore(f.traces, i, t.task.value, tool) && |Candidates(f.traces, t, tool)| == 1
    ensures var t := f.traces[i]; var e := UseAll(f, ScanUpTo(f, i), t, t.consumed[..k + 1]).edges;
            e != [] && e[|e| - 1].target == t && e[|e| - 1].tool == t.consumed[k]
  {
    var t := f.traces[i];
    var s0 := ScanUpTo(f, i);
    ScanKeepsInv(f, i);
    ScanGrows(f, i);
    NextTool(t.consumed, k);
    UseAllKeepsInv(f, s0, t, t.consumed[..k]);
    UseAllGrows(f, s0, t, t.consumed[..k]);
    assert t.consumed[..k + 1][..k] == t.consumed[..k];
    FreshUseReports(f, UseAll(f, s0, t, t.consumed[..k]), t, t.consumed[k]);
  }

  lemma LaterEdgesKeep(f: Facts, i: nat, k: nat)
    requires i < |f.traces| && Placed(f.traces[i]) && k < |f.traces[i].consumed|
    ensures UseAll(f, ScanUpTo(f, i), f.traces[i], f.traces[i].consumed[..k + 1]).edges <= Infer(f).edges
  {
    ScanGrows(f, i);
    UseAllPrefix(f, ScanUpTo(f, i), f.traces[i], f.traces[i].consumed, k + 1);
    EdgesGrow(f, i + 1, |f.traces|);
  }

  lemma {:induction false} UseAllPrefix(f: Facts, s: Scan, target: Trace, tools: seq<string>, k: nat)
    requires Placed(target) && KeysReported(f, s) && k <= |tools|
    ensures UseAll(f, s, target, tools[..k]).edges <= UseAll(f, s, target, tools).edges
    decreases |tools|
  {
    if k == |tools| {
      assert tools[..k] == tools;
    } else {
      var init := tools[..|tools| - 1];
      assert init[..k] == tools[..k];
      UseAllPrefix(f, s, target, init, k);
      UseAllGrows(f, s, target, init);
      UseGrows(f, UseAll(f, s, target, init), target, tools[|tools| - 1]);
    }
  }

  // ----- acyclicity ------------------------------------------------------------------------------

  /** A chain of edges, each leaving the trace the one before it reached. */
  ghost predicate TraceChain(edges: seq<Edge>, chain: seq<Edge>) {
    && (forall i :: 0 <= i < |chain| ==> chain[i] in edges)
    && forall i :: 0 <= i < |chain| - 1 ==> chain[i].target == chain[i + 1].source
  }

  lemma {:induction false} ChainAscends(f: Facts, chain: seq<Edge>)
    requires chain != [] && TraceChain(Infer(f).edges, chain)
    ensures chain[0].source.id < chain[|chain| - 1].target.id
  {
    EdgesUniquelyAttributed(f);
    assert chain[0] in Infer(f).edges;
    if |chain| > 1 {
      assert TraceChain(Infer(f).edges, chain[1..]);
      ChainAscends(f, chain[1..]);
    }
  }

  /** Between traces the inferred edges are acyclic: no chain of edges returns to where it started. */
  lemma TracesAcyclic(f: Facts, chain: seq<Edge>)
    requires chain != [] && TraceChain(Infer(f).edges, chain)
    ensures chain[0].source != chain[|chain| - 1].target
  {
    ChainAscends(f, chain);
  }

  /** A chain of edges between step runs, each leaving the run the one before it reached. */
  ghost predicate RunChain(edges: seq<Edge>, chain: seq<Edge>) {
    && (forall i :: 0 <= i < |chain| ==> chain[i] in edges)
    && forall i :: 0 <= i < |chain| - 1 ==>
         chain[i].target.task == chain[i + 1].source.task && chain[i].target.run == chain[i + 1].source.run
  }

  predicate SameRun(a: Trace, b: Trace) { a.task == b.task && a.run == b.run }

  /** Every trace of the first run precedes every trace of the second. */
  ghost predicate Precedes(traces: seq<Trace>, first: Trace, second: Trace) {
    forall c <- traces, d <- traces :: (SameRun(c, first) && SameRun(d, second)) ==> c.id < d.id
  }

  /** The runs of each task do not interleave: if some trace of one run precedes some trace of another,
      then all of them do. */
  ghost predicate Sequential(traces: seq<Trace>) {
    forall a <- traces, b <- traces ::
      (a.task == b.task && !SameRun(a, b) && a.id < b.id) ==> Precedes(traces, a, b)
  }

  lemma PrecedesTransitive(traces: seq<Trace>, a: Trace, b: Trace, b2: Trace, c: Trace)
    requires Precedes(traces, a, b) && Precedes(traces, b2, c) && SameRun(b, b2) && b in traces
    ensures Precedes(traces, a, c)
  {
    forall x <- traces, y <- traces | SameRun(x, a) && SameRun(y, c) ensures x.id < y.id {
      assert x.id < b.id && b.id < y.id;
    }
  }

  lemma {:induction false} SequentialRunsAscend(f: Facts, chain: seq<Edge>)
    requires Sequential(f.traces) && chain != [] && RunChain(Infer(f).edges, chain)
    ensures chain[0].source in f.traces && Precedes(f.traces, chain[0].source, chain[|chain| - 1].target)
  {
    hide Infer, Precedes;
    EdgesUniquelyAttributed(f);
    var e := chain[0];
    assert e in Infer(f).edges;
    assert Attributed(f, e);
    assert Precedes(f.traces, e.source, e.target);
    if |chain| > 1 {
      assert RunChain(Infer(f).edges, chain[1..]);
      SequentialRunsAscend(f, chain[1..]);
      PrecedesTransitive(f.traces, e.source, e.target, chain[1].source, chain[|chain| - 1].target);
    }
  }

  /** Between step runs the edges are acyclic as long as runs do not interleave. */
  lemma RunsAcyclicIfSequential(f: Facts, chain: seq<Edge>)
    requires Sequential(f.traces) && chain != [] && RunChain(Infer(f).edges, chain)
    ensures !SameRun(chain[0].source, chain[|chain| - 1].target)
  {
    SequentialRunsAscend(f, chain);
  }

  /** Runs that do interleave can depend on each other in a circle: run A calls a tool, run B uses its
      result and calls another, and a later trace of run A uses that one. */
  lemma InterleavedRunsMayCycle(hash: string -> string, task: string, a: string, b: string, x: string, y: string)
    requires task != "" && a != "" && b != "" && a != b && x != y && hash(x) != hash(y)
    ensures var t1 := Trace(1, Some(task), Some(a), None, None, [x], []);
            var t2 := Trace(2, Some(task), Some(b), None, None, [y], [x]);
            var t3 := Trace(3, Some(task), Some(a), None, None, [], [y]);
            var f := Facts([t1, t2, t3], {}, {}, hash);
            var chain := [Edge(t1, t2, x, Unverified), Edge(t2, t3, y, Unverified)];
            Infer(f).edges == chain && RunChain(chain, chain) && SameRun(chain[0].source, chain[1].target)
  {
    var t1 := Trace(1, Some(task), Some(a), None, None, [x], []);
    var t2 := Trace(2, Some(task), Some(b), None, None, [y], [x]);
    var t3 := Trace(3, Some(task), Some(a), None, None, [], [y]);
    var f := Facts([t1, t2, t3], {}, {}, hash);
    CycleCandidates(task, t1, t2, t3, x, y);
    CycleScan(f, t1, t2, t3, x, y);
    assert Edge(t1, t2, x, Unverified) in Infer(f).edges;
  }

  lemma ProducersThree(task: string, t1: Trace, t2: Trace, t3: Trace, tool: string)
    ensures Producers([t1, t2, t3], task, tool)
         == Producers([t1], task, tool) + Producers([t2], task, tool) + Producers([t3], task, tool)
  {
    assert [t1, t2, t3][..2] == [t1, t2] && [t1, t2][..1] == [t1]
           && [t1][..0] == [] && [t2][..0] == [] && [t3][..0] == [];
  }

  lemma CycleCandidates(task: string, t1: Trace, t2: Trace, t3: Trace, x: string, y: string)
    requires Placed(t1) && Placed(t2) && Placed(t3) && t1.task == t2.task == t3.task == Some(task)
    requires t1.produced == [x] && t2.produced == [y] && t3.produced == [] && x != y
    requires Eligible(t1, t2) && Eligible(t2, t3)
    ensures Candidates([t1, t2, t3], t2, x) == [t1] && Candidates([t1, t2, t3], t3, y) == [t2]
  {
    ProducersThree(task, t1, t2, t3, x);
    ProducersThree(task, t1, t2, t3, y);
    assert [t1][..0] == [] && [t2][..0] == [] && [t3][..0] == [];
    assert Producers([t1, t2, t3], task, x) == [t1] && Producers([t1, t2, t3], task, y) == [t2];
    KeepOne(t1, t2);
    KeepOne(t2, t3);
  }

  lemma KeepOne(source: Trace, target: Trace)
    ensures Keep([source], target) == if Eligible(source, target) then [source] else []
  {
    assert [source][1..] == [];
  }

  lemma UseAllOne(f: Facts, s: Scan, target: Trace, tool: string)
    requires Placed(target)
    ensures UseAll(f, s, target, [tool]) == Use(f, s, target, tool)
  {
    assert [tool][..0] == [];
  }

  lemma CycleScan(f: Facts, t1: Trace, t2: Trace, t3: Trace, x: string, y: string)
    requires f.traces == [t1, t2, t3] && Placed(t1) && Placed(t2) && Placed(t3) && t2.task == t3.task
    requires t1.consumed == [] && t2.consumed == [x] && t3.consumed == [y] && x != y && f.hash(x) != f.hash(y)
    requires Candidates(f.traces, t2, x) == [t1] && Candidates(f.traces, t3, y) == [t2]
    ensures Infer(f).edges == [Edge(t1, t2, x, Confirm(f, t1, t2)), Edge(t2, t3, y, Confirm(f, t2, t3))]
  {
    UseAllOne(f, START, t2, x);
    assert ScanUpTo(f, 1) == START;
    assert ScanUpTo(f, 2) == Use(f, START, t2, x);
    UseAllOne(f, ScanUpTo(f, 2), t3, y);
    assert ScanUpTo(f, 3) == Use(f, ScanUpTo(f, 2), t3, y);
  }

  // ----- scores ----------------------------------------------------------------------------------

  lemma SplitSet<T>(a: set<T>, b: set<T>)
    ensures |a * b| + |a - b| == |a|
  {
    assert a == (a * b) + (a - b);
  }

  lemma NothingOutside<T>(a: set<T>, b: set<T>)
    ensures |a - b| == 0 <==> a <= b
  {
    if a <= b {
      assert a - b == {};
    } else {
      var x :| x in a && x !in b;
      assert x in a - b;
    }
  }

  /** The scores partition their ground truth: true positives and false negatives are exactly the explicit
      dependencies, and true and false positives exactly the distinct inferred pairs whose target has
      explicit facts. A confirmed edge whose target is listed is a true positive. */
  lemma ScoresPartition(f: Facts)
    ensures var r := Infer(f);
            && r.truePositive + r.falseNegative == r.explicit
            && r.truePositive + r.falsePositive == |InferredExplicit(f, r.edges)|
            && (r.falsePositive == 0 <==> InferredExplicit(f, r.edges) <= f.dependencies)
            && (r.falseNegative == 0 <==> f.dependencies <= InferredExplicit(f, r.edges))
  {
    var inferred := InferredExplicit(f, Infer(f).edges);
    SplitSet(inferred, f.dependencies);
    SplitSet(f.dependencies, inferred);
    assert f.dependencies * inferred == inferred * f.dependencies;
    NothingOutside(inferred, f.dependencies);
    NothingOutside(f.dependencies, inferred);
  }
}
