/** When inferred edges can make step runs depend on each other in a circle: exactly when runs interleave. */
module InferenceCycles {
  import opened Prelude
  import opened Inference
  import Text

  // ----- traces without their tool ids -----------------------------------------------------------

  /** The same traces up to the tool ids they produce and consume. */
  ghost predicate SameSkeleton(ts: seq<Trace>, us: seq<Trace>) {
    |us| == |ts|
    && forall i :: 0 <= i < |ts| ==> us[i] == ts[i].(produced := us[i].produced, consumed := us[i].consumed)
  }

  /** A chain of edges between step runs that returns to the run it started from. */
  ghost predicate RunCycle(edges: seq<Edge>) {
    exists chain: seq<Edge> ::
      chain != [] && RunChain(edges, chain) && SameRun(chain[0].source, chain[|chain| - 1].target)
  }

  /** Two traces, by position, between which tool ids could make an edge. */
  datatype Link = Link(source: nat, target: nat)

  predicate Possible(ts: seq<Trace>, l: Link) {
    && l.source < |ts| && l.target < |ts| && Placed(ts[l.source]) && Placed(ts[l.target])
    && ts[l.source].task == ts[l.target].task && Eligible(ts[l.source], ts[l.target])
  }

  ghost predicate LinkPath(ts: seq<Trace>, links: seq<Link>) {
    && links != [] && (forall k :: 0 <= k < |links| ==> Possible(ts, links[k]))
    && forall k :: 0 <= k < |links| - 1 ==> SameRun(ts[links[k].target], ts[links[k + 1].source])
  }

  ghost predicate LinkCycle(ts: seq<Trace>, links: seq<Link>) {
    LinkPath(ts, links) && SameRun(ts[links[|links| - 1].target], ts[links[0].source])
  }

  // ----- from edges to links ---------------------------------------------------------------------

  ghost function IndexOf(ts: seq<Trace>, t: Trace): (i: nat)
    requires t in ts
    ensures i < |ts| && ts[i] == t
  {
    var i :| 0 <= i < |ts| && ts[i] == t;
    i
  }

  ghost function LinkOf(us: seq<Trace>, e: Edge): Link
    requires e.source in us && e.target in us
  {
    Link(IndexOf(us, e.source), IndexOf(us, e.target))
  }

  lemma EdgeIsPossible(ts: seq<Trace>, f: Facts, e: Edge)
    requires SameSkeleton(ts, f.traces) && e in Infer(f).edges
    ensures e.source in f.traces && e.target in f.traces && Possible(ts, LinkOf(f.traces, e))
  {
    EdgesUniquelyAttributed(f);
    hide Infer;
    var l := LinkOf(f.traces, e);
    assert f.traces[l.source] == e.source && f.traces[l.target] == e.target;
  }

  lemma CycleHasLinks(ts: seq<Trace>, f: Facts, chain: seq<Edge>) returns (links: seq<Link>)
    requires SameSkeleton(ts, f.traces) && chain != [] && RunChain(Infer(f).edges, chain)
    requires SameRun(chain[0].source, chain[|chain| - 1].target)
    ensures LinkCycle(ts, links)
  {
    hide Infer, Possible;
    var edges, us := Infer(f).edges, f.traces;
    forall k | 0 <= k < |chain|
      ensures chain[k].source in us && chain[k].target in us && Possible(ts, LinkOf(us, chain[k])) {
      assert chain[k] in edges;
      EdgeIsPossible(ts, f, chain[k]);
    }
    links := seq(|chain|, k requires 0 <= k < |chain| => LinkOf(us, chain[k]));
    forall k | 0 <= k < |links|
      ensures Possible(ts, links[k]) && links[k].source < |ts| && links[k].target < |ts|
      ensures us[links[k].source] == chain[k].source && us[links[k].target] == chain[k].target
    {}
  }

  // ----- from links to edges ---------------------------------------------------------------------

  /** The numbers of the links among the first `n` that leave, or reach, position `i`. */
  function Numbered(links: seq<Link>, i: nat, leaving: bool, n: nat): seq<string>
    requires n <= |links|
  {
    if n == 0 then []
    else Numbered(links, i, leaving, n - 1)
         + if (if leaving then links[n - 1].source else links[n - 1].target) == i then [Text.Decimal(n - 1)] else []
  }

  lemma {:induction false} NumberedExact(links: seq<Link>, i: nat, leaving: bool, n: nat, k: nat)
    requires n <= |links| && k < |links|
    ensures Text.Decimal(k) in Numbered(links, i, leaving, n)
            <==> k < n && (if leaving then links[k].source else links[k].target) == i
  {
    if n > 0 {
      NumberedExact(links, i, leaving, n - 1, k);
      if Text.Decimal(k) == Text.Decimal(n - 1) { Text.DecimalInjective(k, n - 1); }
    }
  }

  lemma {:induction false} NumberedOnce(links: seq<Link>, i: nat, leaving: bool, n: nat)
    requires n <= |links|
    ensures NoRepeats(Numbered(links, i, leaving, n))
  {
    if n > 0 {
      NumberedOnce(links, i, leaving, n - 1);
      NumberedExact(links, i, leaving, n - 1, n - 1);
    }
  }

  /** Each link gets a tool id of its own: produced where it starts, consumed where it ends. */
  function Assigned(ts: seq<Trace>, links: seq<Link>): (us: seq<Trace>)
    ensures |us| == |ts|
    ensures forall i :: 0 <= i < |ts| ==> us[i] == ts[i].(produced := Numbered(links, i, true, |links|),
                                                          consumed := Numbered(links, i, false, |links|))
  {
    seq(|ts|, i requires 0 <= i < |ts| => ts[i].(produced := Numbered(links, i, true, |links|),
                                                 consumed := Numbered(links, i, false, |links|)))
  }

  lemma {:induction false} OnlyProducer(us: seq<Trace>, task: string, tool: string, i: nat, n: nat)
    requires i < |us| && n <= |us| && Placed(us[i]) && us[i].task == Some(task)
    requires forall m :: 0 <= m < |us| ==> (tool in us[m].produced <==> m == i)
    ensures Producers(us[..n], task, tool) == if i < n then [us[i]] else []
  {
    hide Placed;
    if n > 0 {
      var some := us[..n];
      assert some[..n - 1] == us[..n - 1] && some[n - 1] == us[n - 1];
      OnlyProducer(us, task, tool, i, n - 1);
    }
  }

  lemma AssignedCandidates(ts: seq<Trace>, links: seq<Link>, k: nat)
    requires k < |links| && Possible(ts, links[k])
    ensures var us := Assigned(ts, links);
            Candidates(us, us[links[k].target], Text.Decimal(k)) == [us[links[k].source]]
  {
    hide Numbered;
    var us, tool, i, j := Assigned(ts, links), Text.Decimal(k), links[k].source, links[k].target;
    forall m | 0 <= m < |us| ensures tool in us[m].produced <==> m == i {
      NumberedExact(links, m, true, |links|, k);
    }
    OnlyProducer(us, us[j].task.value, tool, i, |us|);
    assert us[..|us|] == us;
    KeepOne(us[i], us[j]);
  }

  /** The edge of a link is reported. */
  lemma LinkIsReported(ts: seq<Trace>, links: seq<Link>, k: nat, f: Facts) returns (e: Edge)
    requires k < |links| && Possible(ts, links[k]) && f.traces == Assigned(ts, links) && Injective(f.hash)
    ensures e in Infer(f).edges
    ensures e.source == f.traces[links[k].source] && e.target == f.traces[links[k].target]
  {
    var us, tool, j := f.traces, Text.Decimal(k), links[k].target;
    NumberedExact(links, j, false, |links|, k);
    NumberedOnce(links, j, false, |links|);
    AssignedCandidates(ts, links, k);
    hide Numbered;
    var p :| 0 <= p < |us[j].consumed| && us[j].consumed[p] == tool;
    forall m | 0 <= m < j ensures tool !in us[m].consumed { NumberedExact(links, m, false, |links|, k); }
    assert !UsedBefore(us, j, us[j].task.value, tool);
    hide Candidates;
    FirstUseIsReported(f, j, p);
    EdgesUniquelyAttributed(f);
    hide Infer;
    e :| e in Infer(f).edges && e.target == us[j] && e.tool == tool;
    assert Attributed(f, e);
  }

  predicate InRange(links: seq<Link>, size: nat) {
    forall k :: 0 <= k < |links| ==> links[k].source < size && links[k].target < size
  }

  /** The chain holds one reported edge per link, between the link's traces. */
  ghost predicate Realises(f: Facts, links: seq<Link>, chain: seq<Edge>)
    requires InRange(links, |f.traces|) && |chain| <= |links|
  {
    forall k :: 0 <= k < |chain| ==>
                  chain[k] in Infer(f).edges && chain[k].source == f.traces[links[k].source]
                  && chain[k].target == f.traces[links[k].target]
  }

  lemma {:induction false} EdgesOfLinks(ts: seq<Trace>, links: seq<Link>, n: nat, f: Facts) returns (chain: seq<Edge>)
    requires n <= |links| && (forall k :: 0 <= k < |links| ==> Possible(ts, links[k]))
    requires f.traces == Assigned(ts, links) && Injective(f.hash) && InRange(links, |f.traces|)
    ensures |chain| == n && Realises(f, links, chain)
  {
    hide Infer, Numbered, Possible, Injective;
    chain := [];
    if n > 0 {
      chain := EdgesOfLinks(ts, links, n - 1, f);
      var e := LinkIsReported(ts, links, n - 1, f);
      chain := chain + [e];
    }
  }

  lemma LinksMakeCycle(ts: seq<Trace>, links: seq<Link>, f: Facts)
    requires LinkCycle(ts, links) && f.traces == Assigned(ts, links) && Injective(f.hash)
    ensures RunCycle(Infer(f).edges)
  {
    hide Infer, Numbered, Injective, Possible;
    forall k | 0 <= k < |links| ensures links[k].source < |ts| && links[k].target < |ts| {
      PossibleInRange(ts, links[k]);
    }
    assert InRange(links, |f.traces|);
    var chain := EdgesOfLinks(ts, links, |links|, f);
    RealisedChain(ts, links, f, chain);
  }

  lemma RealisedChain(ts: seq<Trace>, links: seq<Link>, f: Facts, chain: seq<Edge>)
    requires LinkCycle(ts, links) && f.traces == Assigned(ts, links) && InRange(links, |f.traces|)
    requires |chain| == |links| && Realises(f, links, chain)
    ensures RunCycle(Infer(f).edges)
  {
    hide Infer, Numbered, Possible;
    var us, edges := f.traces, Infer(f).edges;
    forall m | 0 <= m < |us| ensures us[m].task == ts[m].task && us[m].run == ts[m].run {}
    hide Assigned;
    forall k | 0 <= k < |chain| - 1
      ensures chain[k].target.task == chain[k + 1].source.task && chain[k].target.run == chain[k + 1].source.run
    {
      assert SameRun(ts[links[k].target], ts[links[k + 1].source]);
    }
    assert RunChain(edges, chain);
  }

  lemma PossibleInRange(ts: seq<Trace>, l: Link)
    requires Possible(ts, l)
    ensures l.source < |ts| && l.target < |ts|
  {}

  /** Some tool ids in these traces make the reported edges run in a circle. */
  ghost predicate CanCycle(ts: seq<Trace>, dependencies: set<Dependency>, runs: set<StepRun>, hash: string -> string) {
    exists us :: SameSkeleton(ts, us) && RunCycle(Infer(Facts(us, dependencies, runs, hash)).edges)
  }

  ghost predicate HasLinkCycle(ts: seq<Trace>) { exists links :: LinkCycle(ts, links) }

  /** Exactly which logs can yield a cycle of step runs, for some tool ids in them: those whose eligible
      pairs of traces already form one. */
  lemma RunsMayCycleIff(ts: seq<Trace>, dependencies: set<Dependency>, runs: set<StepRun>, hash: string -> string)
    requires Injective(hash)
    ensures CanCycle(ts, dependencies, runs, hash) <==> HasLinkCycle(ts)
  {
    if CanCycle(ts, dependencies, runs, hash) {
      var us :| SameSkeleton(ts, us) && RunCycle(Infer(Facts(us, dependencies, runs, hash)).edges);
      var f := Facts(us, dependencies, runs, hash);
      hide Infer, LinkCycle;
      var chain: seq<Edge> :| chain != [] && RunChain(Infer(f).edges, chain)
                              && SameRun(chain[0].source, chain[|chain| - 1].target);
      var links := CycleHasLinks(ts, f, chain);
    }
    if links :| LinkCycle(ts, links) {
      var us := Assigned(ts, links);
      LinksMakeCycle(ts, links, Facts(us, dependencies, runs, hash));
      assert SameSkeleton(ts, us);
    }
  }

  // ----- runs of one version ---------------------------------------------------------------------

  /** Every step run stays within one workflow version. */
  ghost predicate OneVersionPerRun(ts: seq<Trace>) {
    forall i, j :: 0 <= i < |ts| && 0 <= j < |ts| && SameRun(ts[i], ts[j]) ==>
                     ts[i].workflow == ts[j].workflow && ts[i].version == ts[j].version
  }

  /** Two runs between which edges are possible in both directions. */
  ghost predicate Interleaved(ts: seq<Trace>) {
    exists l: Link, m: Link :: Crossing(ts, l, m)
  }

  predicate Crossing(ts: seq<Trace>, l: Link, m: Link) {
    && Possible(ts, l) && Possible(ts, m)
    && SameRun(ts[l.source], ts[m.target]) && SameRun(ts[l.target], ts[m.source])
  }

  ghost predicate Ascends(ts: seq<Trace>, a: Trace, b: Trace) {
    forall i, j :: 0 <= i < |ts| && 0 <= j < |ts| && SameRun(ts[i], a) && SameRun(ts[j], b) ==> ts[i].id <= ts[j].id
  }

  lemma LinkAscends(ts: seq<Trace>, l: Link)
    requires Possible(ts, l) && OneVersionPerRun(ts) && !Interleaved(ts)
    ensures Ascends(ts, ts[l.source], ts[l.target])
  {
    forall i, j | 0 <= i < |ts| && 0 <= j < |ts| && SameRun(ts[i], ts[l.source]) && SameRun(ts[j], ts[l.target])
      ensures ts[i].id <= ts[j].id
    {
      if ts[j].id < ts[i].id {
        assert ts[i].workflow == ts[l.source].workflow && ts[j].workflow == ts[l.target].workflow;
        assert Crossing(ts, l, Link(j, i));
      }
    }
  }

  lemma {:induction false} PathAscends(ts: seq<Trace>, links: seq<Link>)
    requires LinkPath(ts, links) && OneVersionPerRun(ts) && !Interleaved(ts)
    ensures Ascends(ts, ts[links[0].source], ts[links[|links| - 1].target])
  {
    var last := |links| - 1;
    assert Possible(ts, links[0]) && Possible(ts, links[last]);
    LinkAscends(ts, links[0]);
    hide Interleaved;
    if last > 0 {
      var rest := links[1..];
      assert LinkPath(ts, rest);
      PathAscends(ts, rest);
      var a, b, c := ts[links[0].source], links[0].target, ts[links[last].target];
      forall i, j | 0 <= i < |ts| && 0 <= j < |ts| && SameRun(ts[i], a) && SameRun(ts[j], c)
        ensures ts[i].id <= ts[j].id {
        assert SameRun(ts[b], ts[rest[0].source]);
        assert ts[i].id <= ts[b].id <= ts[j].id;
      }
    }
  }

  lemma CycleNeedsInterleaving(ts: seq<Trace>, links: seq<Link>)
    requires LinkCycle(ts, links) && OneVersionPerRun(ts)
    ensures Interleaved(ts)
  {
    assert Possible(ts, links[0]);
    if !Interleaved(ts) {
      var rest := links[1..];
      if rest != [] {
        assert LinkPath(ts, rest);
        PathAscends(ts, rest);
      }
    }
  }

  lemma LinkCycleIffInterleaved(ts: seq<Trace>)
    requires OneVersionPerRun(ts)
    ensures HasLinkCycle(ts) <==> Interleaved(ts)
  {
    if Interleaved(ts) {
      var l: Link, m: Link :| Crossing(ts, l, m);
      assert LinkCycle(ts, [l, m]);
    }
    if links :| LinkCycle(ts, links) { CycleNeedsInterleaving(ts, links); }
  }

  /** Step runs that each keep to one workflow version can never be inferred to depend on each other in a
      circle, whatever tool ids their traces carry, if and only if no two of them interleave. */
  lemma RunsAcyclicIff(ts: seq<Trace>, dependencies: set<Dependency>, runs: set<StepRun>, hash: string -> string)
    requires Injective(hash) && OneVersionPerRun(ts)
    ensures (forall us :: SameSkeleton(ts, us) ==> !RunCycle(Infer(Facts(us, dependencies, runs, hash)).edges))
            <==> !Interleaved(ts)
  {
    RunsMayCycleIff(ts, dependencies, runs, hash);
    LinkCycleIffInterleaved(ts);
    hide HasLinkCycle, Interleaved, Infer, RunCycle, SameSkeleton, OneVersionPerRun;
  }
}
