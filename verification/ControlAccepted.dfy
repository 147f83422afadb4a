/** Whatever the loader accepts is well-formed, so its canonical document is accepted again and means the same. */
module ControlAccepted {
  import opened Prelude
  import opened Sorting
  import opened ControlTree
  import opened ControlConfig
  import opened ControlRender
  import opened ControlEntries
  import opened ControlSections
  import opened ControlRoundTrip

  /** A loaded mapping never repeats a key, at any depth. */
  predicate WellKeyed(t: Tree) {
    match t
    case Map(entries) => UniqueKeys(entries) && forall i :: 0 <= i < |entries| ==> WellKeyed(entries[i].1)
    case _ => true
  }

  predicate EntriesWellKeyed(entries: Entries) {
    UniqueKeys(entries) && forall i :: 0 <= i < |entries| ==> WellKeyed(entries[i].1)
  }

  lemma {:induction false} LookupFound(entries: Entries, key: Tree)
    requires Lookup(entries, key).Some?
    ensures exists i :: 0 <= i < |entries| && entries[i] == (key, Lookup(entries, key).value)
  {
    if entries[0].0 == key {
      assert entries[0] == (key, Lookup(entries, key).value);
    } else {
      LookupFound(entries[1..], key);
      var i :| 0 <= i < |entries[1..]| && entries[1..][i] == (key, Lookup(entries, key).value);
      assert entries[i + 1] == (key, Lookup(entries, key).value);
    }
  }

  lemma MappingWellKeyed(entries: Entries, f: Field)
    requires EntriesWellKeyed(entries) && Mapping(GetField(entries, f)).Some?
    ensures EntriesWellKeyed(Mapping(GetField(entries, f)).value)
  {
    hide Name;
    if Lookup(entries, Str(Name(f))).Some? {
      LookupFound(entries, Str(Name(f)));
      var i :| 0 <= i < |entries| && entries[i] == (Str(Name(f)), Lookup(entries, Str(Name(f))).value);
      assert WellKeyed(entries[i].1);
    }
  }

  /** When every entry reads as one item, the items correspond to the entries position by position. */
  lemma {:induction false} GatherSingles<T>(entries: Entries, read: (Tree, Tree) -> Option<seq<T>>)
    requires Gather(entries, read).Some?
    requires forall i :: 0 <= i < |entries| && read(entries[i].0, entries[i].1).Some? ==>
                           |read(entries[i].0, entries[i].1).value| == 1
    ensures |Gather(entries, read).value| == |entries|
    ensures forall i :: 0 <= i < |entries| ==> read(entries[i].0, entries[i].1)
                                               == Some([Gather(entries, read).value[i]])
  {
    if entries != [] {
      var n := |entries| - 1;
      GatherSingles(entries[..n], read);
      var last := read(entries[n].0, entries[n].1).value;
      assert last == [last[0]] && Gather(entries, read).value[n] == last[0];
      forall i | 0 <= i < n
        ensures read(entries[i].0, entries[i].1) == Some([Gather(entries, read).value[i]])
      {
        assert entries[..n][i] == entries[i];
      }
    }
  }

  // ----- flat sections ---------------------------------------------------------------------------

  lemma RouteFromKey(key: Tree, value: Tree)
    requires ReadRoute(key, value).Some?
    ensures |ReadRoute(key, value).value| == 1
    ensures var r := ReadRoute(key, value).value[0]; RouteOk(r) && r.ts == 0.0 && key == Str(r.useCase)
  {
    hide Only;
    hide GetField;
  }

  lemma RoutesAccepted(entries: Entries)
    requires UniqueKeys(entries) && Gather(entries, ReadRoute).Some?
    ensures RoutesOk(Gather(entries, ReadRoute).value) && DistinctBy(Gather(entries, ReadRoute).value, RouteKey())
  {
    hide ReadRoute;
    hide RouteOk;
    hide Gather;
    forall i | 0 <= i < |entries| && ReadRoute(entries[i].0, entries[i].1).Some?
      ensures |ReadRoute(entries[i].0, entries[i].1).value| == 1
    {
      RouteFromKey(entries[i].0, entries[i].1);
    }
    GatherSingles(entries, ReadRoute);
    var rs := Gather(entries, ReadRoute).value;
    forall i | 0 <= i < |rs| ensures RouteOk(rs[i]) && rs[i].ts == 0.0 && entries[i].0 == Str(rs[i].useCase) {
      RouteFromKey(entries[i].0, entries[i].1);
    }
  }

  lemma ExperimentFromKey(key: Tree, value: Tree)
    requires ReadExperiment(key, value).Some?
    ensures |ReadExperiment(key, value).value| == 1
    ensures var e := ReadExperiment(key, value).value[0];
            ExperimentOk(e) && Truthy(e.id) && e.running && e.created == 0.0 && key == Str(e.useCase)
  {
    hide Only;
    hide GetField;
    hide GetOr;
    hide ExperimentOk;
    hide Truthy;
  }

  lemma ExperimentsAccepted(entries: Entries)
    requires UniqueKeys(entries) && Gather(entries, ReadExperiment).Some?
    ensures ExperimentsOk(Gather(entries, ReadExperiment).value)
    ensures DistinctBy(Gather(entries, ReadExperiment).value, ExperimentKey())
  {
    hide ReadExperiment;
    hide ExperimentOk;
    hide Truthy;
    hide Gather;
    forall i | 0 <= i < |entries| && ReadExperiment(entries[i].0, entries[i].1).Some?
      ensures |ReadExperiment(entries[i].0, entries[i].1).value| == 1
    {
      ExperimentFromKey(entries[i].0, entries[i].1);
    }
    GatherSingles(entries, ReadExperiment);
    var es := Gather(entries, ReadExperiment).value;
    forall i | 0 <= i < |es|
      ensures ExperimentOk(es[i]) && Truthy(es[i].id) && es[i].running && es[i].created == 0.0
              && entries[i].0 == Str(es[i].useCase)
    {
      ExperimentFromKey(entries[i].0, entries[i].1);
    }
  }

  // ----- workflow definitions --------------------------------------------------------------------

  lemma StepFromKey(raw: Entries, key: Tree, value: Tree)
    requires ReadStep(raw, key, value).Some?
    ensures |ReadStep(raw, key, value).value| == 1
    ensures var s := ReadStep(raw, key, value).value[0];
            StepOk(s) && key == Str(s.name)
            && forall i :: 0 <= i < |s.predecessors| ==> HasKey(raw, Str(s.predecessors[i]))
  {
    hide Only;
    hide GetField;
    hide GetOr;
    hide OrEmpty;
    hide HasKey;
    var s := ReadStep(raw, key, value).value[0];
    var items := GetOr(OrEmpty(value).entries, Predecessors, List([])).items;
    assert forall i :: 0 <= i < |s.predecessors| ==> items[i] == Str(s.predecessors[i]);
  }

  lemma StepsAccepted(raw: Entries, workflow: string, version: string)
    requires UniqueKeys(raw) && raw != [] && workflow != "" && version != "" && Gather(raw, StepReader(raw)).Some?
    ensures DefinitionOk(Definition(workflow, version, Gather(raw, StepReader(raw)).value))
  {
    hide ReadStep;
    hide StepOk;
    hide Gather;
    var read := StepReader(raw);
    forall i | 0 <= i < |raw| && read(raw[i].0, raw[i].1).Some? ensures |read(raw[i].0, raw[i].1).value| == 1 {
      StepFromKey(raw, raw[i].0, raw[i].1);
    }
    GatherSingles(raw, read);
    var steps := Gather(raw, read).value;
    forall i | 0 <= i < |steps|
      ensures StepOk(steps[i]) && raw[i].0 == Str(steps[i].name)
      ensures forall j :: 0 <= j < |steps[i].predecessors| ==> HasKey(raw, Str(steps[i].predecessors[j]))
    {
      assert read(raw[i].0, raw[i].1) == Some([steps[i]]);
      StepFromKey(raw, raw[i].0, raw[i].1);
    }
    var d := Definition(workflow, version, steps);
    forall i, j | 0 <= i < |steps| && 0 <= j < |steps[i].predecessors| ensures HasStep(d, steps[i].predecessors[j]) {
      assert HasKey(raw, Str(steps[i].predecessors[j]));
      var k :| 0 <= k < |raw| && raw[k].0 == Str(steps[i].predecessors[j]);
      assert d.steps[k].name == steps[i].predecessors[j];
    }
  }

  lemma VersionFromKey(workflow: string, key: Tree, value: Tree)
    requires workflow != "" && WellKeyed(value) && ReadVersion(workflow, key, value).Some?
    ensures |ReadVersion(workflow, key, value).value| == 1
    ensures var d := ReadVersion(workflow, key, value).value[0];
            DefinitionOk(d) && d.workflow == workflow && key == Str(d.version)
  {
    hide Only;
    hide GetField;
    hide Gather;
    hide DefinitionOk;
    var raw := Mapping(GetField(value.entries, Steps)).value;
    MappingWellKeyed(value.entries, Steps);
    StepsAccepted(raw, workflow, key.s);
  }

  lemma WorkflowFromKey(key: Tree, value: Tree)
    requires WellKeyed(value) && ReadWorkflow(key, value).Some?
    ensures var ds := ReadWorkflow(key, value).value;
            && (forall i :: 0 <= i < |ds| ==> DefinitionOk(ds[i]) && key == Str(ds[i].workflow))
            && DistinctBy(ds, VersionKey)
  {
    hide ReadVersion;
    hide DefinitionOk;
    hide Gather;
    var versions := Mapping(value).value;
    assert EntriesWellKeyed(versions);
    var read := VersionReader(key.s);
    forall i | 0 <= i < |versions| && read(versions[i].0, versions[i].1).Some?
      ensures |read(versions[i].0, versions[i].1).value| == 1
    {
      VersionFromKey(key.s, versions[i].0, versions[i].1);
    }
    GatherSingles(versions, read);
    var ds := ReadWorkflow(key, value).value;
    assert ds == Gather(versions, read).value;
    forall i | 0 <= i < |ds| ensures DefinitionOk(ds[i]) && ds[i].workflow == key.s
                             && versions[i].0 == Str(ds[i].version) {
      assert read(versions[i].0, versions[i].1) == Some([ds[i]]);
      VersionFromKey(key.s, versions[i].0, versions[i].1);
    }
  }

  lemma {:induction false} WorkflowsAccepted(entries: Entries)
    requires EntriesWellKeyed(entries) && Gather(entries, ReadWorkflow).Some?
    ensures var ds := Gather(entries, ReadWorkflow).value;
            && (forall i :: 0 <= i < |ds| ==> DefinitionOk(ds[i]) && HasKey(entries, Str(ds[i].workflow)))
            && DistinctBy(ds, VersionKey)
  {
    hide ReadWorkflow;
    hide DefinitionOk;
    hide WellKeyed;
    if entries != [] {
      var n := |entries| - 1;
      WorkflowsAccepted(entries[..n]);
      WorkflowFromKey(entries[n].0, entries[n].1);
      var before, last := Gather(entries[..n], ReadWorkflow).value, ReadWorkflow(entries[n].0, entries[n].1).value;
      var ds := before + last;
      assert ds == Gather(entries, ReadWorkflow).value;
      forall i | 0 <= i < |ds| ensures DefinitionOk(ds[i]) && HasKey(entries, Str(ds[i].workflow)) {
        if i < |before| {
          assert ds[i] == before[i] && HasKey(entries[..n], Str(before[i].workflow));
          var k :| 0 <= k < n && entries[..n][k].0 == Str(before[i].workflow);
          assert entries[k].0 == Str(ds[i].workflow);
        } else {
          assert ds[i] == last[i - |before|] && entries[n].0 == Str(ds[i].workflow);
        }
      }
      forall i, j | 0 <= i < j < |ds| ensures VersionKey(ds[i]) != VersionKey(ds[j]) {
        if i < |before| <= j {
          assert HasKey(entries[..n], Str(before[i].workflow));
          var k :| 0 <= k < n && entries[..n][k].0 == Str(before[i].workflow);
          assert entries[k].0 != entries[n].0 && entries[n].0 == Str(last[j - |before|].workflow);
        } else if j < |before| {
          assert VersionKey(before[i]) != VersionKey(before[j]);
        } else {
          assert VersionKey(last[i - |before|]) != VersionKey(last[j - |before|]);
        }
      }
    }
  }

  // ----- workflow routes -------------------------------------------------------------------------

  lemma StepRulesFit(workflow: string, version: string, steps: Entries)
    requires Gather(steps, StepRouteReader(workflow, version)).Some?
    ensures WorkflowRoutesFit(Gather(steps, StepRouteReader(workflow, version)).value)
  {
    hide ReadStepRoute;
    hide Gather;
    var rs := Gather(steps, StepRouteReader(workflow, version)).value;
    forall i | 0 <= i < |rs| ensures WorkflowRouteOk(rs[i]) && rs[i].ts == 0.0 {
      assert rs[i] in rs;
      var k := GatherMember(steps, StepRouteReader(workflow, version), rs[i]);
      StepRuleFits(workflow, version, steps[k].0, steps[k].1);
    }
  }

  predicate WorkflowRoutesFit(rs: seq<WorkflowRoute>) {
    forall i :: 0 <= i < |rs| ==> WorkflowRouteOk(rs[i]) && rs[i].ts == 0.0
  }

  lemma StepRuleFits(workflow: string, version: string, key: Tree, value: Tree)
    requires ReadStepRoute(workflow, version, key, value).Some?
    ensures forall r :: r in ReadStepRoute(workflow, version, key, value).value ==> WorkflowRouteOk(r) && r.ts == 0.0
  {
    hide Only;
    hide GetField;
  }

  lemma VersionRulesFit(workflow: string, key: Tree, value: Tree)
    requires ReadVersionRoutes(workflow, key, value).Some?
    ensures WorkflowRoutesFit(ReadVersionRoutes(workflow, key, value).value)
  {
    hide Only;
    hide GetField;
    hide Gather;
    hide WorkflowRouteOk;
    var raw := Mapping(GetField(value.entries, Steps)).value;
    StepRulesFit(workflow, key.s, raw);
  }

  lemma WorkflowRulesFit(key: Tree, value: Tree)
    requires ReadWorkflowRoutes(key, value).Some?
    ensures WorkflowRoutesFit(ReadWorkflowRoutes(key, value).value)
  {
    hide ReadVersionRoutes;
    hide WorkflowRouteOk;
    hide Gather;
    var versions := Mapping(value).value;
    var rs := Gather(versions, VersionRouteReader(key.s)).value;
    forall i | 0 <= i < |rs| ensures WorkflowRouteOk(rs[i]) && rs[i].ts == 0.0 {
      var k := GatherMember(versions, VersionRouteReader(key.s), rs[i]);
      VersionRulesFit(key.s, versions[k].0, versions[k].1);
    }
  }

  lemma RulesAccepted(entries: Entries)
    requires Gather(entries, ReadWorkflowRoutes).Some?
    ensures WorkflowRoutesFit(Gather(entries, ReadWorkflowRoutes).value)
  {
    hide ReadWorkflowRoutes;
    hide WorkflowRouteOk;
    hide Gather;
    var rs := Gather(entries, ReadWorkflowRoutes).value;
    forall i | 0 <= i < |rs| ensures WorkflowRouteOk(rs[i]) && rs[i].ts == 0.0 {
      var k := GatherMember(entries, ReadWorkflowRoutes, rs[i]);
      WorkflowRulesFit(entries[k].0, entries[k].1);
    }
  }

  // ----- the document ----------------------------------------------------------------------------

  lemma SectionsAccepted(routes: Entries, experiments: Entries, workflowRoutes: Entries, workflows: Entries)
    requires UniqueKeys(routes) && UniqueKeys(experiments) && EntriesWellKeyed(workflows)
    requires LoadSections(routes, experiments, workflowRoutes, workflows).Some?
    ensures var c := LoadSections(routes, experiments, workflowRoutes, workflows).value;
            WellFormed(c) && Timeless(c) == c
  {
    RoutesAccepted(routes);
    ExperimentsAccepted(experiments);
    WorkflowsAccepted(workflows);
    RulesAccepted(workflowRoutes);
    var c := LoadSections(routes, experiments, workflowRoutes, workflows).value;
    assert DistinctBy(c.workflowRoutes, Target);
    assert WellFormed(c);
    assert Timeless(c) == c by {
      assert Each(c.routes, UntimedRoute) == c.routes;
      assert Each(c.experiments, UntimedExperiment) == c.experiments;
      assert Each(c.workflowRoutes, UntimedRule) == c.workflowRoutes;
    }
  }

  /** Whatever document is accepted, its canonical form is accepted too and means the same configuration. */
  lemma AcceptedIsStable(document: Tree)
    requires WellKeyed(document) && Load(document).Some?
    ensures var c := Load(document).value;
            WellFormed(c) && Load(Render(c)) == Some(SortedConfig(c)) && SameUpToOrder(SortedConfig(c), c)
  {
    var c := Load(document).value;
    var f := document.entries;
    assert EntriesWellKeyed(f);
    MappingWellKeyed(f, Routes);
    MappingWellKeyed(f, Experiments);
    MappingWellKeyed(f, Workflows);
    assert UniqueKeys(Mapping(GetField(f, Routes)).value) && UniqueKeys(Mapping(GetField(f, Experiments)).value);
    SectionsAccepted(Mapping(GetField(f, Routes)).value, Mapping(GetField(f, Experiments)).value,
                     Mapping(GetField(f, WorkflowRoutes)).value, Mapping(GetField(f, Workflows)).value);
    RoundTrip(c);
    assert Canonical(c) == SortedConfig(c);
    SortedIsSame(c);
  }

  lemma SortedIsSame(c: Config)
    requires Timeless(c) == c
    ensures SameUpToOrder(SortedConfig(c), c)
  {
    hide Sort;
    RouteOrderBlind(c.routes);
    ExperimentOrderBlind(c.experiments);
    RuleOrderBlind(c.workflowRoutes);
    SortPermutes(c.routes, ByText(RouteKey()));
    SortPermutes(c.experiments, ByText(ExperimentKey()));
    SortPermutes(c.workflowRoutes, ByTarget());
    SortPermutes(c.workflows, ByVersion());
  }
}
