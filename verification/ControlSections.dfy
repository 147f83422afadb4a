/** Every section of a canonical document is read back as the sorted list it was written from. */
module ControlSections {
  import opened Prelude
  import opened Sorting
  import opened ControlTree
  import opened ControlConfig
  import opened ControlRender
  import opened ControlEntries

  // ----- flat sections ---------------------------------------------------------------------------

  predicate RoutesOk(rs: seq<Route>) { forall i :: 0 <= i < |rs| ==> RouteOk(rs[i]) && rs[i].ts == 0.0 }

  lemma {:induction false} RouteEntries(rs: seq<Route>)
    requires DistinctBy(rs, RouteKey())
    ensures |RenderRoutes(rs)| == |rs|
    ensures forall i :: 0 <= i < |rs| ==> RenderRoutes(rs)[i] == (Str(rs[i].useCase), RouteNode(rs[i]))
  {
    hide RouteNode;
    if rs != [] {
      var n := |rs| - 1;
      var before := RenderRoutes(rs[..n]);
      RouteEntries(rs[..n]);
      forall i | 0 <= i < n ensures before[i].0 != Str(rs[n].useCase) {
        assert RouteKey()(rs[i]) != RouteKey()(rs[n]);
      }
      PutFresh(before, Str(rs[n].useCase), RouteNode(rs[n]));
    }
  }

  lemma RoutesReadBack(rs: seq<Route>)
    requires RoutesOk(rs) && DistinctBy(rs, RouteKey())
    ensures Gather(RenderRoutes(rs), ReadRoute) == Some(rs)
  {
    RouteEntries(rs);
    forall i | 0 <= i < |rs| ensures ReadRoute(Str(rs[i].useCase), RouteNode(rs[i])) == Some([rs[i]]) {
      assert RouteOk(rs[i]) && UntimedRoute(rs[i]) == rs[i];
      RouteReadBack(rs[i]);
    }
    GatherEach(RenderRoutes(rs), rs, ReadRoute);
  }

  predicate ExperimentsOk(es: seq<Experiment>) {
    forall i :: 0 <= i < |es| ==> ExperimentOk(es[i]) && Truthy(es[i].id) && es[i].running && es[i].created == 0.0
  }

  lemma {:induction false} ExperimentEntries(es: seq<Experiment>)
    requires DistinctBy(es, ExperimentKey())
    ensures |RenderExperiments(es)| == |es|
    ensures forall i :: 0 <= i < |es| ==> RenderExperiments(es)[i] == (Str(es[i].useCase), ExperimentNode(es[i]))
  {
    hide ExperimentNode;
    if es != [] {
      var n := |es| - 1;
      var before := RenderExperiments(es[..n]);
      ExperimentEntries(es[..n]);
      forall i | 0 <= i < n ensures before[i].0 != Str(es[n].useCase) {
        assert ExperimentKey()(es[i]) != ExperimentKey()(es[n]);
      }
      PutFresh(before, Str(es[n].useCase), ExperimentNode(es[n]));
    }
  }

  lemma ExperimentsReadBack(es: seq<Experiment>)
    requires ExperimentsOk(es) && DistinctBy(es, ExperimentKey())
    ensures Gather(RenderExperiments(es), ReadExperiment) == Some(es)
  {
    ExperimentEntries(es);
    forall i | 0 <= i < |es| ensures ReadExperiment(Str(es[i].useCase), ExperimentNode(es[i])) == Some([es[i]]) {
      assert ExperimentOk(es[i]) && Truthy(es[i].id) && es[i].running && UntimedExperiment(es[i]) == es[i];
      ExperimentReadBack(es[i]);
    }
    GatherEach(RenderExperiments(es), es, ReadExperiment);
  }

  // ----- workflow definitions --------------------------------------------------------------------

  function StepKey(): StepDefinition -> string { (s: StepDefinition) => s.name }

  predicate DefinitionOk(d: Definition) {
    && d.workflow != "" && d.version != "" && d.steps != []
    && (forall i :: 0 <= i < |d.steps| ==> StepOk(d.steps[i]))
    && (forall i, j :: 0 <= i < j < |d.steps| ==> d.steps[i].name != d.steps[j].name)
    && (forall i, j :: 0 <= i < |d.steps| && 0 <= j < |d.steps[i].predecessors| ==>
                         HasStep(d, d.steps[i].predecessors[j]))
  }

  lemma {:induction false} StepKeys(steps: seq<StepDefinition>)
    requires forall i, j :: 0 <= i < j < |steps| ==> steps[i].name != steps[j].name
    ensures |RenderSteps(steps)| == |steps|
    ensures forall i :: 0 <= i < |steps| ==> RenderSteps(steps)[i] == (Str(steps[i].name), StepNode(steps[i]))
  {
    hide StepNode;
    if steps != [] {
      var n := |steps| - 1;
      StepKeys(steps[..n]);
      assert !HasKey(RenderSteps(steps[..n]), Str(steps[n].name));
      PutFresh(RenderSteps(steps[..n]), Str(steps[n].name), StepNode(steps[n]));
    }
  }

  lemma StepsOfDefinition(d: Definition, i: nat)
    requires DefinitionOk(d) && i < |d.steps|
    ensures ReadStep(RenderSteps(d.steps), Str(d.steps[i].name), StepNode(d.steps[i])) == Some([d.steps[i]])
  {
    var raw := RenderSteps(d.steps);
    StepKeys(d.steps);
    hide StepNode;
    hide RenderSteps;
    hide ReadStep;
    forall j | 0 <= j < |d.steps[i].predecessors| ensures HasKey(raw, Str(d.steps[i].predecessors[j])) {
      assert HasStep(d, d.steps[i].predecessors[j]);
    }
    StepReadBack(raw, d.steps[i]);
  }

  lemma StepsWritten(raw: Entries)
    ensures var f := Written([(Steps, Map(raw))]); Only(f, STEPS_FIELD) && GetField(f, Steps) == Map(raw)
  {
    hide Name;
    var pairs: Pairs := [(Steps, Map(raw))];
    OnlyWritten(pairs, STEPS_FIELD);
    LookupWritten(pairs, Steps);
    assert PairAt(pairs, Steps) == Some(Map(raw));
    hide Only;
    hide Lookup;
  }

  /** The steps of a definition are read back from their mapping. */
  lemma DefinitionSteps(d: Definition)
    requires DefinitionOk(d)
    ensures var raw := RenderSteps(d.steps); raw != [] && Gather(raw, StepReader(raw)) == Some(d.steps)
  {
    hide ReadStep;
    hide StepNode;
    hide StepOk;
    hide Gather;
    var raw := RenderSteps(d.steps);
    StepKeys(d.steps);
    hide RenderSteps;
    forall i | 0 <= i < |d.steps| ensures StepReader(raw)(raw[i].0, raw[i].1) == Some([d.steps[i]]) {
      StepsOfDefinition(d, i);
    }
    GatherEach(raw, d.steps, StepReader(raw));
  }

  lemma VersionReadBack(d: Definition)
    requires DefinitionOk(d)
    ensures ReadVersion(d.workflow, Str(d.version), VersionNode(d)) == Some([d])
  {
    hide Name;
    hide Only;
    hide Lookup;
    hide Written;
    hide GetField;
    hide Gather;
    hide RenderSteps;
    hide ReadStep;
    hide StepOk;
    hide HasStep;
    DefinitionSteps(d);
    StepsWritten(RenderSteps(d.steps));
  }

  /** Every key is a name strictly before `bound`, or at most it. */
  predicate KeysBelow(entries: Entries, bound: string) {
    forall i :: 0 <= i < |entries| ==> entries[i].0.Str? && entries[i].0.s != bound && LexLeq(entries[i].0.s, bound)
  }

  predicate KeysUpTo(entries: Entries, bound: string) {
    forall i :: 0 <= i < |entries| ==> entries[i].0.Str? && LexLeq(entries[i].0.s, bound)
  }

  lemma KeysMove(entries: Entries, bound: string, next: string)
    requires KeysUpTo(entries, bound) && LexLeq(bound, next) && bound != next
    ensures KeysBelow(entries, next) && !HasKey(entries, Str(next))
  {
    forall i | 0 <= i < |entries| ensures entries[i].0.s != next && LexLeq(entries[i].0.s, next) {
      LexTransitive(entries[i].0.s, bound, next);
      if entries[i].0.s == next { LexAntisymmetric(bound, next); }
    }
  }

  /** The tree so far ends in one workflow, whose versions are still growing. */
  predicate EndsIn(tree: Entries, before: Entries, workflow: string, versions: Entries, ds: seq<Definition>) {
    && ds != [] && ds[|ds| - 1].workflow == workflow && workflow != ""
    && tree == before + [(Str(workflow), Map(versions))]
    && KeysBelow(before, workflow) && KeysUpTo(versions, ds[|ds| - 1].version)
    && Gather(before, ReadWorkflow).Some? && Gather(versions, VersionReader(workflow)).Some?
    && ds == Gather(before, ReadWorkflow).value + Gather(versions, VersionReader(workflow)).value
  }

  lemma EndsInReads(tree: Entries, before: Entries, workflow: string, versions: Entries, ds: seq<Definition>)
    requires EndsIn(tree, before, workflow, versions, ds)
    ensures Gather(tree, ReadWorkflow) == Some(ds) && KeysUpTo(tree, workflow)
  {
    assert LexLeq(workflow, workflow) by { LexTotal(workflow, workflow); }
    assert ReadWorkflow(Str(workflow), Map(versions)) == Gather(versions, VersionReader(workflow));
    GatherAppend(before, Str(workflow), Map(versions), ReadWorkflow);
  }

  lemma SameWorkflowTree(tree: Entries, before: Entries, workflow: string, versions: Entries, d: Definition)
    requires tree == before + [(Str(workflow), Map(versions))] && d.workflow == workflow
    requires !HasKey(before, Str(workflow)) && !HasKey(versions, Str(d.version))
    ensures AddDefinition(tree, d)
            == before + [(Str(workflow), Map(versions + [(Str(d.version), VersionNode(d))]))]
  {
    var node := VersionNode(d);
    PutLast(before, Str(workflow), Map(versions), Map(versions + [(Str(d.version), node)]));
    PutFresh(versions, Str(d.version), node);
  }

  lemma NotAmong(entries: Entries, bound: string)
    requires KeysBelow(entries, bound)
    ensures !HasKey(entries, Str(bound))
  {
  }

  lemma SameWorkflowStep(tree: Entries, before: Entries, workflow: string, versions: Entries, ds: seq<Definition>,
                         d: Definition)
    requires EndsIn(tree, before, workflow, versions, ds) && DefinitionOk(d) && d.workflow == workflow
    requires LexLeq(ds[|ds| - 1].version, d.version) && ds[|ds| - 1].version != d.version
    ensures EndsIn(AddDefinition(tree, d), before, workflow, versions + [(Str(d.version), VersionNode(d))], ds + [d])
  {
    var key, node := Str(d.version), VersionNode(d);
    VersionReadBack(d);
    KeysMove(versions, ds[|ds| - 1].version, d.version);
    NotAmong(before, workflow);
    SameWorkflowTree(tree, before, workflow, versions, d);
    assert VersionReader(workflow)(key, node) == Some([d]);
    GatherAppend(versions, key, node, VersionReader(workflow));
    assert KeysUpTo(versions + [(key, node)], d.version) by { KeysGrow(versions, d.version, node); }
  }

  lemma KeysGrow(entries: Entries, name: string, value: Tree)
    requires KeysBelow(entries, name)
    ensures KeysUpTo(entries + [(Str(name), value)], name)
  {
    LexTotal(name, name);
    hide LexLeq;
  }

  lemma NewWorkflowStep(tree: Entries, ds: seq<Definition>, d: Definition)
    requires DefinitionOk(d) && Gather(tree, ReadWorkflow) == Some(ds)
    requires KeysBelow(tree, d.workflow)
    ensures EndsIn(AddDefinition(tree, d), tree, d.workflow, [(Str(d.version), VersionNode(d))], ds + [d])
  {
    var key, node := Str(d.version), VersionNode(d);
    VersionReadBack(d);
    NotAmong(tree, d.workflow);
    assert !HasKey([], key);
    PutFresh([], key, node);
    PutFresh(tree, Str(d.workflow), Map([(key, node)]));
    assert [] + [(key, node)] == [(key, node)];
    assert AddDefinition(tree, d) == tree + [(Str(d.workflow), Map([(key, node)]))];
    assert VersionReader(d.workflow)(key, node) == Some([d]);
    GatherOne(key, node, VersionReader(d.workflow));
    assert KeysUpTo([(key, node)], d.version) by {
      LexTotal(d.version, d.version);
    }
    assert d.workflow != "";
  }

  lemma GatherOne<T>(key: Tree, value: Tree, read: (Tree, Tree) -> Option<seq<T>>)
    requires read(key, value).Some?
    ensures Gather([(key, value)], read) == Some(read(key, value).value)
  {
    assert Gather<T>([], read) == Some([]);
    GatherAppend([], key, value, read);
    assert [] + [(key, value)] == [(key, value)];
    assert [] + read(key, value).value == read(key, value).value;
  }

  predicate DefinitionsOrdered(ds: seq<Definition>) {
    forall i, j :: 0 <= i < j < |ds| ==>
                     DefinitionLeq(ds[i], ds[j])
                      && !(ds[i].workflow == ds[j].workflow && ds[i].version == ds[j].version)
  }

  lemma {:induction false} DefinitionsFold(ds: seq<Definition>)
    returns (before: Entries, workflow: string, versions: Entries)
    requires ds != [] && DefinitionsOrdered(ds) && forall i :: 0 <= i < |ds| ==> DefinitionOk(ds[i])
    ensures EndsIn(RenderDefinitions(ds), before, workflow, versions, ds)
  {
    var n := |ds| - 1;
    var d, rest := ds[n], ds[..n];
    assert ds == rest + [d];
    assert RenderDefinitions(ds) == AddDefinition(RenderDefinitions(rest), d);
    if n == 0 {
      assert RenderDefinitions(rest) == [];
      assert Gather([], ReadWorkflow) == Some([]);
      assert KeysBelow([], d.workflow);
      NewWorkflowStep([], [], d);
      before, workflow, versions := [], d.workflow, [(Str(d.version), VersionNode(d))];
    } else {
      assert DefinitionsOrdered(rest);
      before, workflow, versions := DefinitionsFold(rest);
      var tree := RenderDefinitions(rest);
      assert workflow == ds[n - 1].workflow;
      assert DefinitionLeq(ds[n - 1], d) && !(ds[n - 1].workflow == d.workflow && ds[n - 1].version == d.version);
      if d.workflow == workflow {
        SameWorkflowStep(tree, before, workflow, versions, rest, d);
        versions := versions + [(Str(d.version), VersionNode(d))];
      } else {
        EndsInReads(tree, before, workflow, versions, rest);
        KeysMove(tree, workflow, d.workflow);
        NewWorkflowStep(tree, rest, d);
        before, workflow, versions := tree, d.workflow, [(Str(d.version), VersionNode(d))];
      }
    }
  }

  lemma DefinitionsReadBack(ds: seq<Definition>)
    requires DefinitionsOrdered(ds) && forall i :: 0 <= i < |ds| ==> DefinitionOk(ds[i])
    ensures Gather(RenderDefinitions(ds), ReadWorkflow) == Some(ds)
  {
    if ds != [] {
      var before, workflow, versions := DefinitionsFold(ds);
      EndsInReads(RenderDefinitions(ds), before, workflow, versions, ds);
    }
  }
}
