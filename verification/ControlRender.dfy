/** The canonical desired-state document: sorted, defaults written out, unset fields left out. */
module ControlRender {
  import opened Prelude
  import opened Sorting
  import opened ControlTree
  import opened ControlConfig

  // ----- ordered dictionaries --------------------------------------------------------------------

  /** `entries[key] = value`: an existing key keeps its place, a new one goes last. */
  function Put(entries: Entries, key: Tree, value: Tree): Entries {
    if entries == [] then [(key, value)]
    else if entries[0].0 == key then [(key, value)] + entries[1..]
    else [entries[0]] + Put(entries[1..], key, value)
  }

  /** `entries.setdefault(key, {})` */
  function Child(entries: Entries, key: Tree): Entries {
    var found := Lookup(entries, key);
    if found.Some? && found.value.Map? then found.value.entries else []
  }

  function OptText(s: Option<string>): Tree { if s.None? then Null else Str(s.value) }

  function OptFlag(b: bool): Tree { if b then Bool(true) else Null }

  // ----- one entry -------------------------------------------------------------------------------

  function RouteNode(r: Route): Tree {
    Map(Node([(Model, r.model)], [(Provider, r.provider), (PreviousModel, r.previousModel), (Note, r.note)]))
  }

  function ExperimentNode(e: Experiment): Tree {
    Map(Node([(Id, e.id), (CandidateModel, e.candidateModel), (SplitPct, e.splitPct), (MaxCalls, e.maxCalls)],
             [(Provider, e.provider), (Workflow, e.workflow), (WorkflowVersion, e.version), (Step, e.step)]))
  }

  function Names(texts: seq<string>): (items: seq<Tree>)
    ensures |items| == |texts| && forall i :: 0 <= i < |texts| ==> items[i] == Str(texts[i])
  {
    seq(|texts|, i requires 0 <= i < |texts| => Str(texts[i]))
  }

  function AllowsNode(s: StepDefinition): Tree {
    if s.fanOut || s.retry then Map(Node([], [(FanOut, OptFlag(s.fanOut)), (Retry, OptFlag(s.retry))])) else Null
  }

  function StepNode(s: StepDefinition): Tree {
    Map(Node([], [(Predecessors, if s.predecessors == [] then Null else List(Names(s.predecessors))),
                  (Allows, AllowsNode(s)), (Condition, OptText(s.condition))]))
  }

  function RenderSteps(steps: seq<StepDefinition>): Entries {
    if steps == [] then []
    else
      var n := |steps| - 1;
      Put(RenderSteps(steps[..n]), Str(steps[n].name), StepNode(steps[n]))
  }

  function VersionNode(d: Definition): Tree { Map(Written([(Steps, Map(RenderSteps(d.steps)))])) }

  // ----- folding a section -----------------------------------------------------------------------

  function RenderRoutes(routes: seq<Route>): Entries {
    if routes == [] then []
    else
      var n := |routes| - 1;
      Put(RenderRoutes(routes[..n]), Str(routes[n].useCase), RouteNode(routes[n]))
  }

  function RenderExperiments(experiments: seq<Experiment>): Entries {
    if experiments == [] then []
    else
      var n := |experiments| - 1;
      Put(RenderExperiments(experiments[..n]), Str(experiments[n].useCase), ExperimentNode(experiments[n]))
  }

  function AddDefinition(tree: Entries, d: Definition): Entries {
    var versions := Child(tree, Str(d.workflow));
    Put(tree, Str(d.workflow), Map(Put(versions, Str(d.version), VersionNode(d))))
  }

  function RenderDefinitions(definitions: seq<Definition>): Entries {
    if definitions == [] then []
    else
      var n := |definitions| - 1;
      AddDefinition(RenderDefinitions(definitions[..n]), definitions[n])
  }

  /** `target["model"] = ...`, then the provider and the note where set. */
  function PutRoute(target: Entries, r: WorkflowRoute): Entries {
    var withModel := Put(target, Str(Name(Model)), r.model);
    var withProvider := if r.provider.Null? then withModel else Put(withModel, Str(Name(Provider)), r.provider);
    if r.note.Null? then withProvider else Put(withProvider, Str(Name(Note)), r.note)
  }

  function AddToVersion(fields: Entries, r: WorkflowRoute): Entries {
    if r.step.None? then PutRoute(fields, r)
    else
      var steps := Child(fields, Str(Name(Steps)));
      var target := Child(steps, Str(r.step.value));
      Put(fields, Str(Name(Steps)), Map(Put(steps, Str(r.step.value), Map(PutRoute(target, r)))))
  }

  function AddWorkflowRoute(tree: Entries, r: WorkflowRoute): Entries {
    var versions := Child(tree, Str(r.workflow));
    var fields := Child(versions, Str(r.version));
    Put(tree, Str(r.workflow), Map(Put(versions, Str(r.version), Map(AddToVersion(fields, r)))))
  }

  function RenderWorkflowRoutes(routes: seq<WorkflowRoute>): Entries {
    if routes == [] then []
    else
      var n := |routes| - 1;
      AddWorkflowRoute(RenderWorkflowRoutes(routes[..n]), routes[n])
  }

  // ----- the whole document ----------------------------------------------------------------------

  function RouteKey(): Route -> string { (r: Route) => r.useCase }

  function ExperimentKey(): Experiment -> string { (e: Experiment) => e.useCase }

  function StepText(r: WorkflowRoute): string { if r.step.None? then "" else r.step.value }

  predicate WorkflowRouteLeq(a: WorkflowRoute, b: WorkflowRoute) {
    if a.workflow != b.workflow then LexLeq(a.workflow, b.workflow)
    else if a.version != b.version then LexLeq(a.version, b.version)
    else LexLeq(StepText(a), StepText(b))
  }

  function ByTarget(): (WorkflowRoute, WorkflowRoute) -> bool { (a, b) => WorkflowRouteLeq(a, b) }

  predicate DefinitionLeq(a: Definition, b: Definition) {
    if a.workflow != b.workflow then LexLeq(a.workflow, b.workflow) else LexLeq(a.version, b.version)
  }

  function ByVersion(): (Definition, Definition) -> bool { (a, b) => DefinitionLeq(a, b) }

  function SortedConfig(c: Config): Config {
    Config(Sort(c.routes, ByText(RouteKey())), Sort(c.experiments, ByText(ExperimentKey())),
           Sort(c.workflowRoutes, ByTarget()), Sort(c.workflows, ByVersion()))
  }

  function DocumentPairs(c: Config): Pairs {
    [(Version, Int(VERSION)), (Routes, Map(RenderRoutes(c.routes))),
     (Experiments, Map(RenderExperiments(c.experiments))),
     (WorkflowRoutes, Map(RenderWorkflowRoutes(c.workflowRoutes))),
     (Workflows, Map(RenderDefinitions(c.workflows)))]
  }

  function RenderSorted(c: Config): Tree { Map(Written(DocumentPairs(c))) }

  function Render(c: Config): Tree { RenderSorted(SortedConfig(c)) }

  method DocumentRoutes(rows: seq<Route>) returns (routes: Entries)
    ensures routes == RenderRoutes(rows)
  {
    routes := [];
    for i := 0 to |rows|
      invariant routes == RenderRoutes(rows[..i])
    {
      assert rows[..i + 1][..i] == rows[..i];
      routes := Put(routes, Str(rows[i].useCase), RouteNode(rows[i]));
    }
    assert rows[..|rows|] == rows;
  }

  method DocumentExperiments(rows: seq<Experiment>) returns (experiments: Entries)
    ensures experiments == RenderExperiments(rows)
  {
    experiments := [];
    for i := 0 to |rows|
      invariant experiments == RenderExperiments(rows[..i])
    {
      assert rows[..i + 1][..i] == rows[..i];
      experiments := Put(experiments, Str(rows[i].useCase), ExperimentNode(rows[i]));
    }
    assert rows[..|rows|] == rows;
  }

  method DocumentWorkflowRoutes(routes: seq<WorkflowRoute>) returns (tree: Entries)
    ensures tree == RenderWorkflowRoutes(routes)
  {
    tree := [];
    for i := 0 to |routes|
      invariant tree == RenderWorkflowRoutes(routes[..i])
    {
      assert routes[..i + 1][..i] == routes[..i];
      var r := routes[i];
      var versions := Child(tree, Str(r.workflow));
      var fields := Child(versions, Str(r.version));
      if r.step.None? {
        fields := PutRoute(fields, r);
      } else {
        var steps := Child(fields, Str(Name(Steps)));
        var target := PutRoute(Child(steps, Str(r.step.value)), r);
        steps := Put(steps, Str(r.step.value), Map(target));
        fields := Put(fields, Str(Name(Steps)), Map(steps));
      }
      versions := Put(versions, Str(r.version), Map(fields));
      tree := Put(tree, Str(r.workflow), Map(versions));
    }
    assert routes[..|routes|] == routes;
  }

  method DocumentDefinitions(definitions: seq<Definition>) returns (tree: Entries)
    ensures tree == RenderDefinitions(definitions)
  {
    tree := [];
    for i := 0 to |definitions|
      invariant tree == RenderDefinitions(definitions[..i])
    {
      assert definitions[..i + 1][..i] == definitions[..i];
      var d := definitions[i];
      var steps: Entries := [];
      for j := 0 to |d.steps|
        invariant steps == RenderSteps(d.steps[..j])
      {
        assert d.steps[..j + 1][..j] == d.steps[..j];
        steps := Put(steps, Str(d.steps[j].name), StepNode(d.steps[j]));
      }
      assert d.steps[..|d.steps|] == d.steps;
      var versions := Put(Child(tree, Str(d.workflow)), Str(d.version), Map(Written([(Steps, Map(steps))])));
      tree := Put(tree, Str(d.workflow), Map(versions));
    }
    assert definitions[..|definitions|] == definitions;
  }

  /** The canonical document, section by section, into one dictionary. */
  method CanonicalDocument(c: Config) returns (document: Tree)
    ensures document == Render(c)
  {
    hide Name;
    var routes := DocumentRoutes(Sort(c.routes, ByText(RouteKey())));
    var experiments := DocumentExperiments(Sort(c.experiments, ByText(ExperimentKey())));
    var workflowRoutes := DocumentWorkflowRoutes(Sort(c.workflowRoutes, ByTarget()));
    var workflows := DocumentDefinitions(Sort(c.workflows, ByVersion()));
    document := Map(Written([(Version, Int(VERSION)), (Routes, Map(routes)), (Experiments, Map(experiments)),
                             (WorkflowRoutes, Map(workflowRoutes)), (Workflows, Map(workflows))]));
  }
}
