/** Rendering a well-formed configuration and loading the document gives the configuration back, sorted
    and without timestamps; so two configurations render alike exactly when they agree up to that. */
module ControlRoundTrip {
  import opened Prelude
  import opened Sorting
  import opened ControlTree
  import opened ControlConfig
  import opened ControlRender
  import opened ControlEntries
  import opened ControlSections
  import opened ControlRoutes

  // ----- well-formed configurations --------------------------------------------------------------

  function VersionKey(d: Definition): (string, string) { (d.workflow, d.version) }

  ghost predicate WellFormed(c: Config) {
    && (forall i :: 0 <= i < |c.routes| ==> RouteOk(c.routes[i]))
    && (forall i :: 0 <= i < |c.experiments| ==>
                      ExperimentOk(c.experiments[i]) && Truthy(c.experiments[i].id) && c.experiments[i].running)
    && (forall i :: 0 <= i < |c.workflowRoutes| ==> WorkflowRouteOk(c.workflowRoutes[i]))
    && (forall i :: 0 <= i < |c.workflows| ==> DefinitionOk(c.workflows[i]))
    && DistinctBy(c.routes, RouteKey()) && DistinctBy(c.experiments, ExperimentKey())
    && DistinctBy(c.workflowRoutes, Target) && DistinctBy(c.workflows, VersionKey)
    && ScopesDeclared(c.workflows, c.experiments) && RoutesDeclared(c.workflows, c.workflowRoutes)
  }

  function UntimedRule(r: WorkflowRoute): WorkflowRoute { r.(ts := 0.0) }

  function Timeless(c: Config): Config {
    Config(Each(c.routes, UntimedRoute), Each(c.experiments, UntimedExperiment),
           Each(c.workflowRoutes, UntimedRule), c.workflows)
  }

  function Canonical(c: Config): Config { SortedConfig(Timeless(c)) }

  /** The same items without their timestamps, in whatever order. */
  predicate SameUpToOrder(c: Config, d: Config) {
    && multiset(Timeless(c).routes) == multiset(Timeless(d).routes)
    && multiset(Timeless(c).experiments) == multiset(Timeless(d).experiments)
    && multiset(Timeless(c).workflowRoutes) == multiset(Timeless(d).workflowRoutes)
    && multiset(c.workflows) == multiset(d.workflows)
  }

  lemma TimelessIsWellFormed(c: Config)
    requires WellFormed(c)
    ensures WellFormed(Timeless(c))
  {
    hide DefinitionOk;
    hide Declared;
    hide Truthy;
    var t := Timeless(c);
    forall i | 0 <= i < |t.routes| ensures RouteOk(t.routes[i]) { assert RouteOk(c.routes[i]); }
    forall i | 0 <= i < |t.experiments|
      ensures ExperimentOk(t.experiments[i]) && Truthy(t.experiments[i].id) && t.experiments[i].running
    {
      assert ExperimentOk(c.experiments[i]);
    }
    forall i | 0 <= i < |t.workflowRoutes| ensures WorkflowRouteOk(t.workflowRoutes[i]) {
      assert WorkflowRouteOk(c.workflowRoutes[i]);
    }
    forall i | 0 <= i < |t.experiments| ensures ExperimentDeclared(t.workflows, t.experiments[i]) {
      assert ExperimentDeclared(c.workflows, c.experiments[i]);
    }
    forall i | 0 <= i < |t.workflowRoutes| ensures RouteDeclared(t.workflows, t.workflowRoutes[i]) {
      assert RouteDeclared(c.workflows, c.workflowRoutes[i]);
    }
  }

  // ----- the orders ------------------------------------------------------------------------------

  lemma DefinitionLeqTransitive(a: Definition, b: Definition, c: Definition)
    requires DefinitionLeq(a, b) && DefinitionLeq(b, c)
    ensures DefinitionLeq(a, c)
  {
    hide LexLeq;
    if a.workflow == b.workflow == c.workflow {
      LexTransitive(a.version, b.version, c.version);
    } else if a.workflow != b.workflow && b.workflow != c.workflow {
      LexTransitive(a.workflow, b.workflow, c.workflow);
      if a.workflow == c.workflow { LexAntisymmetric(a.workflow, b.workflow); }
    }
  }

  lemma ByVersionIsTotal()
    ensures TotalPreorder(ByVersion())
  {
    var leq := ByVersion();
    hide LexLeq;
    forall a, b ensures leq(a, b) || leq(b, a) {
      LexTotal(a.workflow, b.workflow);
      LexTotal(a.version, b.version);
    }
    forall a, b, c | leq(a, b) && leq(b, c) ensures leq(a, c) { DefinitionLeqTransitive(a, b, c); }
  }

  /** The order within one workflow. */
  lemma TailTransitive(a: WorkflowRoute, b: WorkflowRoute, c: WorkflowRoute)
    requires a.workflow == b.workflow == c.workflow && WorkflowRouteLeq(a, b) && WorkflowRouteLeq(b, c)
    ensures WorkflowRouteLeq(a, c)
  {
    hide LexLeq;
    if a.version == b.version == c.version {
      LexTransitive(StepText(a), StepText(b), StepText(c));
    } else if a.version != b.version && b.version != c.version {
      LexTransitive(a.version, b.version, c.version);
      if a.version == c.version { LexAntisymmetric(a.version, b.version); }
    }
  }

  lemma WorkflowRouteLeqTransitive(a: WorkflowRoute, b: WorkflowRoute, c: WorkflowRoute)
    requires WorkflowRouteLeq(a, b) && WorkflowRouteLeq(b, c)
    ensures WorkflowRouteLeq(a, c)
  {
    hide LexLeq;
    if a.workflow == b.workflow == c.workflow {
      TailTransitive(a, b, c);
    } else if a.workflow != b.workflow && b.workflow != c.workflow {
      LexTransitive(a.workflow, b.workflow, c.workflow);
      if a.workflow == c.workflow { LexAntisymmetric(a.workflow, b.workflow); }
    }
  }

  lemma ByTargetIsTotal()
    ensures TotalPreorder(ByTarget())
  {
    var leq := ByTarget();
    hide LexLeq;
    forall a, b ensures leq(a, b) || leq(b, a) {
      LexTotal(a.workflow, b.workflow);
      LexTotal(a.version, b.version);
      LexTotal(StepText(a), StepText(b));
    }
    forall a, b, c | leq(a, b) && leq(b, c) ensures leq(a, c) { WorkflowRouteLeqTransitive(a, b, c); }
  }

  // ----- sorting keeps a configuration well-formed -----------------------------------------------

  lemma SortedRoutes(rs: seq<Route>)
    requires RoutesOk(rs) && DistinctBy(rs, RouteKey())
    ensures var s := Sort(rs, ByText(RouteKey())); RoutesOk(s) && DistinctBy(s, RouteKey())
  {
    hide Sort;
    hide RouteOk;
    var s := Sort(rs, ByText(RouteKey()));
    SortPermutes(rs, ByText(RouteKey()));
    DistinctByPermuted(rs, s, RouteKey());
    forall i | 0 <= i < |s| ensures RouteOk(s[i]) && s[i].ts == 0.0 { assert s[i] in rs; }
  }

  lemma SortedExperiments(es: seq<Experiment>)
    requires ExperimentsOk(es) && DistinctBy(es, ExperimentKey())
    ensures var s := Sort(es, ByText(ExperimentKey())); ExperimentsOk(s) && DistinctBy(s, ExperimentKey())
  {
    hide Sort;
    hide ExperimentOk;
    hide Truthy;
    var s := Sort(es, ByText(ExperimentKey()));
    SortPermutes(es, ByText(ExperimentKey()));
    DistinctByPermuted(es, s, ExperimentKey());
    forall i | 0 <= i < |s| ensures ExperimentOk(s[i]) && Truthy(s[i].id) && s[i].running && s[i].created == 0.0 {
      assert s[i] in es;
    }
  }

  lemma SortedRules(rs: seq<WorkflowRoute>)
    requires WorkflowRoutesOk(rs) && DistinctBy(rs, Target)
    ensures var s := Sort(rs, ByTarget()); WorkflowRoutesOk(s) && RoutesOrdered(s) && DistinctTargets(s)
  {
    hide Sort;
    hide WorkflowRouteOk;
    hide WorkflowRouteLeq;
    hide Sorted;
    var s := Sort(rs, ByTarget());
    SortPermutes(rs, ByTarget());
    ByTargetIsTotal();
    SortSorts(rs, ByTarget());
    DistinctByPermuted(rs, s, Target);
    forall i | 0 <= i < |s| ensures WorkflowRouteOk(s[i]) && s[i].ts == 0.0 { assert s[i] in rs; }
    forall i, j | 0 <= i < j < |s| ensures WorkflowRouteLeq(s[i], s[j]) && !SameTarget(s[i], s[j]) {
      SortedPair(s, ByTarget(), i, j);
      assert Target(s[i]) != Target(s[j]);
    }
  }

  lemma SortedDefinitions(ds: seq<Definition>)
    requires DistinctBy(ds, VersionKey) && forall i :: 0 <= i < |ds| ==> DefinitionOk(ds[i])
    ensures var s := Sort(ds, ByVersion());
            DefinitionsOrdered(s) && (forall i :: 0 <= i < |s| ==> DefinitionOk(s[i]))
  {
    hide Sort;
    hide DefinitionOk;
    hide DefinitionLeq;
    hide Sorted;
    var s := Sort(ds, ByVersion());
    SortPermutes(ds, ByVersion());
    ByVersionIsTotal();
    SortSorts(ds, ByVersion());
    DistinctByPermuted(ds, s, VersionKey);
    forall i | 0 <= i < |s| ensures DefinitionOk(s[i]) { assert s[i] in ds; }
    forall i, j | 0 <= i < j < |s|
      ensures DefinitionLeq(s[i], s[j]) && !(s[i].workflow == s[j].workflow && s[i].version == s[j].version)
    {
      SortedPair(s, ByVersion(), i, j);
      assert VersionKey(s[i]) != VersionKey(s[j]);
    }
  }

  lemma DeclaredPermuted(ds: seq<Definition>, s: seq<Definition>, workflow: string, version: string,
                         step: Option<string>)
    requires multiset(ds) == multiset(s) && Declared(ds, workflow, version, step)
    ensures Declared(s, workflow, version, step)
  {
    hide HasStep;
    SameMultiset(ds, s);
    var i :| 0 <= i < |ds| && ds[i].workflow == workflow && ds[i].version == version
             && (step.Some? ==> HasStep(ds[i], step.value));
    assert ds[i] in s;
    var j :| 0 <= j < |s| && s[j] == ds[i];
  }

  lemma ScopesSorted(c: Config)
    requires ScopesDeclared(c.workflows, c.experiments) && RoutesDeclared(c.workflows, c.workflowRoutes)
    ensures var s := SortedConfig(c);
            ScopesDeclared(s.workflows, s.experiments) && RoutesDeclared(s.workflows, s.workflowRoutes)
  {
    hide Sort;
    hide Declared;
    var s := SortedConfig(c);
    SortPermutes(c.workflows, ByVersion());
    SortPermutes(c.experiments, ByText(ExperimentKey()));
    SortPermutes(c.workflowRoutes, ByTarget());
    forall i | 0 <= i < |s.experiments| ensures ExperimentDeclared(s.workflows, s.experiments[i]) {
      var e := s.experiments[i];
      assert e in c.experiments;
      assert ExperimentDeclared(c.workflows, e);
      if !e.workflow.Null? && !e.version.Null? {
        DeclaredPermuted(c.workflows, s.workflows, e.workflow.s, e.version.s,
                         if e.step.Null? then None else Some(e.step.s));
      }
    }
    forall i | 0 <= i < |s.workflowRoutes| ensures RouteDeclared(s.workflows, s.workflowRoutes[i]) {
      var r := s.workflowRoutes[i];
      assert r in c.workflowRoutes;
      assert RouteDeclared(c.workflows, r);
      DeclaredPermuted(c.workflows, s.workflows, r.workflow, r.version, r.step);
    }
  }

  // ----- rendering does not see times ------------------------------------------------------------

  lemma {:induction false} RoutesUntimed(rs: seq<Route>)
    ensures RenderRoutes(Each(rs, UntimedRoute)) == RenderRoutes(rs)
  {
    hide Put;
    if rs != [] {
      var n := |rs| - 1;
      assert Each(rs, UntimedRoute)[..n] == Each(rs[..n], UntimedRoute);
      RoutesUntimed(rs[..n]);
      assert RouteNode(UntimedRoute(rs[n])) == RouteNode(rs[n]);
    }
  }

  lemma {:induction false} ExperimentsUntimed(es: seq<Experiment>)
    ensures RenderExperiments(Each(es, UntimedExperiment)) == RenderExperiments(es)
  {
    hide Put;
    if es != [] {
      var n := |es| - 1;
      assert Each(es, UntimedExperiment)[..n] == Each(es[..n], UntimedExperiment);
      ExperimentsUntimed(es[..n]);
      assert ExperimentNode(UntimedExperiment(es[n])) == ExperimentNode(es[n]);
    }
  }

  lemma RuleUntimed(tree: Entries, r: WorkflowRoute)
    ensures AddWorkflowRoute(tree, UntimedRule(r)) == AddWorkflowRoute(tree, r)
  {
    hide Put;
    hide Child;
  }

  lemma {:induction false} RulesUntimed(rs: seq<WorkflowRoute>)
    ensures RenderWorkflowRoutes(Each(rs, UntimedRule)) == RenderWorkflowRoutes(rs)
  {
    if rs != [] {
      var n := |rs| - 1;
      assert Each(rs, UntimedRule)[..n] == Each(rs[..n], UntimedRule);
      RulesUntimed(rs[..n]);
      RuleUntimed(RenderWorkflowRoutes(rs[..n]), rs[n]);
      hide AddWorkflowRoute;
    }
  }

  /** Sorting, dropping times and rendering commute. */
  lemma RenderIsCanonical(c: Config)
    ensures Render(c) == RenderSorted(Canonical(c))
  {
    RouteOrderBlind(c.routes);
    ExperimentOrderBlind(c.experiments);
    RuleOrderBlind(c.workflowRoutes);
    RoutesUntimed(Sort(c.routes, ByText(RouteKey())));
    ExperimentsUntimed(Sort(c.experiments, ByText(ExperimentKey())));
    RulesUntimed(Sort(c.workflowRoutes, ByTarget()));
  }

  lemma RouteOrderBlind(rs: seq<Route>)
    ensures Sort(Each(rs, UntimedRoute), ByText(RouteKey())) == Each(Sort(rs, ByText(RouteKey())), UntimedRoute)
  {
    hide Sort;
    SortEach(rs, ByText(RouteKey()), UntimedRoute);
  }

  lemma ExperimentOrderBlind(es: seq<Experiment>)
    ensures Sort(Each(es, UntimedExperiment), ByText(ExperimentKey()))
            == Each(Sort(es, ByText(ExperimentKey())), UntimedExperiment)
  {
    hide Sort;
    SortEach(es, ByText(ExperimentKey()), UntimedExperiment);
  }

  lemma RuleOrderBlind(rs: seq<WorkflowRoute>)
    ensures Sort(Each(rs, UntimedRule), ByTarget()) == Each(Sort(rs, ByTarget()), UntimedRule)
  {
    hide Sort;
    hide LexLeq;
    SortEach(rs, ByTarget(), UntimedRule);
  }

  // ----- the round trip --------------------------------------------------------------------------

  lemma CanonicalParts(c: Config)
    requires WellFormed(c)
    ensures var k := Canonical(c);
            && RoutesOk(k.routes) && DistinctBy(k.routes, RouteKey())
            && ExperimentsOk(k.experiments) && DistinctBy(k.experiments, ExperimentKey())
            && WorkflowRoutesOk(k.workflowRoutes) && RoutesOrdered(k.workflowRoutes)
            && DistinctTargets(k.workflowRoutes)
            && DefinitionsOrdered(k.workflows) && (forall i :: 0 <= i < |k.workflows| ==> DefinitionOk(k.workflows[i]))
            && ScopesDeclared(k.workflows, k.experiments) && RoutesDeclared(k.workflows, k.workflowRoutes)
  {
    var t := Timeless(c);
    TimelessIsWellFormed(c);
    assert RoutesOk(t.routes) && ExperimentsOk(t.experiments) && WorkflowRoutesOk(t.workflowRoutes);
    SortedRoutes(t.routes);
    SortedExperiments(t.experiments);
    SortedRules(t.workflowRoutes);
    SortedDefinitions(t.workflows);
    ScopesSorted(t);
  }

  lemma SectionsReadBack(c: Config)
    requires WellFormed(c)
    ensures var k := Canonical(c);
            LoadSections(RenderRoutes(k.routes), RenderExperiments(k.experiments),
                         RenderWorkflowRoutes(k.workflowRoutes), RenderDefinitions(k.workflows)) == Some(k)
  {
    var k := Canonical(c);
    CanonicalParts(c);
    RoutesReadBack(k.routes);
    ExperimentsReadBack(k.experiments);
    WorkflowRoutesReadBack(k.workflowRoutes);
    DefinitionsReadBack(k.workflows);
  }

  lemma DocumentField(c: Config, i: nat)
    requires i < 5
    ensures GetField(Written(DocumentPairs(c)), DocumentPairs(c)[i].0) == DocumentPairs(c)[i].1
    ensures Only(Written(DocumentPairs(c)), SECTIONS)
  {
    var pairs := DocumentPairs(c);
    assert |pairs| == 5 && DistinctFields(pairs) && Within(pairs, SECTIONS);
    LookupWritten(pairs, pairs[i].0);
    PairAtIndex(pairs, i);
    OnlyWritten(pairs, SECTIONS);
  }

  lemma DocumentLoads(k: Config)
    ensures Load(RenderSorted(k))
            == LoadSections(RenderRoutes(k.routes), RenderExperiments(k.experiments),
                            RenderWorkflowRoutes(k.workflowRoutes), RenderDefinitions(k.workflows))
  {
    hide Only;
    hide GetField;
    hide Written;
    hide LoadSections;
    hide RenderRoutes;
    hide RenderExperiments;
    hide RenderWorkflowRoutes;
    hide RenderDefinitions;
    DocumentField(k, 0);
    DocumentField(k, 1);
    DocumentField(k, 2);
    DocumentField(k, 3);
    DocumentField(k, 4);
  }

  /** Desired state survives its canonical document: loading what was rendered gives the configuration
      back, sorted and with its timestamps zeroed. */
  lemma RoundTrip(c: Config)
    requires WellFormed(c)
    ensures Load(Render(c)) == Some(Canonical(c))
  {
    hide *;
    RenderIsCanonical(c);
    DocumentLoads(Canonical(c));
    SectionsReadBack(c);
  }

  // ----- differences -----------------------------------------------------------------------------

  lemma CanonicalPermutes(c: Config)
    ensures multiset(Canonical(c).routes) == multiset(Timeless(c).routes)
    ensures multiset(Canonical(c).experiments) == multiset(Timeless(c).experiments)
    ensures multiset(Canonical(c).workflowRoutes) == multiset(Timeless(c).workflowRoutes)
    ensures multiset(Canonical(c).workflows) == multiset(c.workflows)
  {
    hide Sort;
    var t := Timeless(c);
    SortPermutes(t.routes, ByText(RouteKey()));
    SortPermutes(t.experiments, ByText(ExperimentKey()));
    SortPermutes(t.workflowRoutes, ByTarget());
    SortPermutes(t.workflows, ByVersion());
  }

  lemma RulesUntied(rs: seq<WorkflowRoute>)
    requires DistinctBy(rs, Target) && forall i :: 0 <= i < |rs| ==> WorkflowRouteOk(rs[i])
    ensures Untied(rs, ByTarget())
  {
    hide LexLeq;
    hide Truthy;
    forall x, y | x in rs && y in rs && WorkflowRouteLeq(x, y) && WorkflowRouteLeq(y, x) ensures x == y {
      var i :| 0 <= i < |rs| && rs[i] == x;
      var j :| 0 <= j < |rs| && rs[j] == y;
      if x.workflow != y.workflow { LexAntisymmetric(x.workflow, y.workflow); }
      if x.version != y.version { LexAntisymmetric(x.version, y.version); }
      LexAntisymmetric(StepText(x), StepText(y));
      assert Target(rs[i]) == Target(rs[j]);
      assert i == j || i < j || j < i;
    }
  }

  lemma DefinitionsUntied(ds: seq<Definition>)
    requires DistinctBy(ds, VersionKey)
    ensures Untied(ds, ByVersion())
  {
    hide LexLeq;
    forall x, y | x in ds && y in ds && DefinitionLeq(x, y) && DefinitionLeq(y, x) ensures x == y {
      var i :| 0 <= i < |ds| && ds[i] == x;
      var j :| 0 <= j < |ds| && ds[j] == y;
      if x.workflow != y.workflow { LexAntisymmetric(x.workflow, y.workflow); }
      LexAntisymmetric(x.version, y.version);
      assert VersionKey(ds[i]) == VersionKey(ds[j]);
      assert i == j || i < j || j < i;
    }
  }

  lemma CanonicalForgetsOrder(c: Config, d: Config)
    requires WellFormed(c) && SameUpToOrder(c, d)
    ensures Canonical(c) == Canonical(d)
  {
    var s, t := Timeless(c), Timeless(d);
    TimelessIsWellFormed(c);
    assert s.workflows == c.workflows && t.workflows == d.workflows;
    assert WellFormed(s);
    ByTextIsTotal(RouteKey());
    ByTextIsTotal(ExperimentKey());
    ByTargetIsTotal();
    ByVersionIsTotal();
    ByTextUntied(s.routes, RouteKey());
    ByTextUntied(s.experiments, ExperimentKey());
    RulesUntied(s.workflowRoutes);
    DefinitionsUntied(s.workflows);
    SortForgetsOrder(s.routes, t.routes, ByText(RouteKey()));
    SortForgetsOrder(s.experiments, t.experiments, ByText(ExperimentKey()));
    SortForgetsOrder(s.workflowRoutes, t.workflowRoutes, ByTarget());
    SortForgetsOrder(s.workflows, t.workflows, ByVersion());
  }

  /** The diff of two well-formed configurations is empty exactly when they hold the same items, up to
      order and timestamps: rendering loses nothing else. */
  lemma DiffEmptyIff(c: Config, d: Config)
    requires WellFormed(c) && WellFormed(d)
    ensures Render(c) == Render(d) <==> SameUpToOrder(c, d)
  {
    RoundTrip(c);
    RoundTrip(d);
    RenderIsCanonical(c);
    RenderIsCanonical(d);
    CanonicalPermutes(c);
    CanonicalPermutes(d);
    if SameUpToOrder(c, d) { CanonicalForgetsOrder(c, d); }
  }
}
