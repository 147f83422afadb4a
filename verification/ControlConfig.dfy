/** The desired-state document: its models, and loading it from the tree it parses to. `None` stands for
    a raised error. */
module ControlConfig {
  import opened Prelude
  import opened ControlTree

  const VERSION := 1
  const DEFAULT_SPLIT := 50
  const DEFAULT_MAX_CALLS := 60

  // ----- models ----------------------------------------------------------------------------------

  /** The models do not check the types of their values, so an optional or required value is any tree;
      an absent one is `Null`. */
  datatype Route = Route(useCase: string, model: Tree, previousModel: Tree, note: Tree, provider: Tree, ts: real)

  datatype Experiment = Experiment(
    id: Tree, useCase: string, candidateModel: Tree, provider: Tree, splitPct: Tree, maxCalls: Tree,
    workflow: Tree, version: Tree, step: Tree, running: bool, created: real)

  datatype WorkflowRoute = WorkflowRoute(
    workflow: string, version: string, step: Option<string>, model: Tree, provider: Tree, note: Tree, ts: real)

  datatype StepDefinition = StepDefinition(
    name: string, predecessors: seq<string>, fanOut: bool, retry: bool, condition: Option<string>)

  datatype Definition = Definition(workflow: string, version: string, steps: seq<StepDefinition>)

  datatype Config = Config(routes: seq<Route>, experiments: seq<Experiment>,
                           workflowRoutes: seq<WorkflowRoute>, workflows: seq<Definition>)

  predicate OptionalSet(t: Tree) { t.Null? || Truthy(t) }

  predicate RouteOk(r: Route) { r.useCase != "" && Truthy(r.model) && OptionalSet(r.provider) }

  predicate WorkflowRouteOk(r: WorkflowRoute) {
    && r.workflow != "" && r.version != "" && Truthy(r.model) && (r.step.Some? ==> r.step.value != "")
    && OptionalSet(r.provider)
  }

  /** `1 <= t <= 99`, which a boolean passes as the number it is. */
  predicate InPercent(t: Tree) {
    match t
    case Int(i) => 1 <= i <= 99
    case Float(r) => 1.0 <= r <= 99.0
    case Bool(b) => b
    case _ => false
  }

  predicate AtLeastOne(t: Tree) {
    match t
    case Int(i) => i >= 1
    case Float(r) => r >= 1.0
    case Bool(b) => b
    case _ => false
  }

  predicate ExperimentOk(e: Experiment) {
    && e.useCase != "" && (e.workflow.Null? <==> e.version.Null?) && (!e.step.Null? ==> !e.workflow.Null?)
    && Truthy(e.candidateModel) && OptionalSet(e.provider) && InPercent(e.splitPct) && AtLeastOne(e.maxCalls)
  }

  // ----- entries of the document -----------------------------------------------------------------

  const ROUTE_FIELDS: set<Field> := {Model, Provider, PreviousModel, Note}
  const EXPERIMENT_FIELDS: set<Field> :=
    {Id, CandidateModel, Provider, SplitPct, MaxCalls, Workflow, WorkflowVersion, Step}
  const STEP_FIELDS: set<Field> := {Predecessors, Allows, Condition}
  const FLAG_FIELDS: set<Field> := {FanOut, Retry}
  const STEPS_FIELD: set<Field> := {Steps}
  const VERSION_ROUTE_FIELDS: set<Field> := {Model, Provider, Note, Steps}
  const STEP_ROUTE_FIELDS: set<Field> := {Model, Provider, Note}
  const SECTIONS: set<Field> := {Version, Routes, Experiments, WorkflowRoutes, Workflows}

  function ReadRoute(key: Tree, value: Tree): Option<seq<Route>> {
    if !IsName(key) || !value.Map? || !Only(value.entries, ROUTE_FIELDS) then None
    else
      var f := value.entries;
      var route := Route(key.s, GetField(f, Model), GetField(f, PreviousModel), GetField(f, Note),
                         GetField(f, Provider), 0.0);
      if RouteOk(route) then Some([route]) else None
  }

  function ReadExperiment(key: Tree, value: Tree): Option<seq<Experiment>> {
    if !IsName(key) || !value.Map? || !Only(value.entries, EXPERIMENT_FIELDS) then None
    else
      var f := value.entries;
      var e := Experiment(GetField(f, Id), key.s, GetField(f, CandidateModel), GetField(f, Provider),
                          GetOr(f, SplitPct, Int(DEFAULT_SPLIT)), GetOr(f, MaxCalls, Int(DEFAULT_MAX_CALLS)),
                          GetField(f, Workflow), GetField(f, WorkflowVersion), GetField(f, Step), true, 0.0);
      if Truthy(e.id) && ExperimentOk(e) then Some([e]) else None
  }

  function Texts(items: seq<Tree>): seq<string>
    requires forall i :: 0 <= i < |items| ==> items[i].Str?
  {
    seq(|items|, i requires 0 <= i < |items| => items[i].s)
  }

  /** `raw` is the mapping of all steps of the version: predecessors must be among its keys. */
  function ReadStep(raw: Entries, key: Tree, value: Tree): Option<seq<StepDefinition>> {
    var fields := OrEmpty(value);
    if !IsName(key) || !fields.Map? || !Only(fields.entries, STEP_FIELDS) then None
    else
      var predecessors := GetOr(fields.entries, Predecessors, List([]));
      var allows := OrEmpty(GetField(fields.entries, Allows));
      var condition := GetField(fields.entries, Condition);
      if !predecessors.List? || !(forall i :: 0 <= i < |predecessors.items| ==> IsName(predecessors.items[i])) then None
      else if !(forall i :: 0 <= i < |predecessors.items| ==> HasKey(raw, predecessors.items[i])) then None
      else if key in predecessors.items then None
      else if !allows.Map? || !Only(allows.entries, FLAG_FIELDS) then None
      else if !(forall i :: 0 <= i < |allows.entries| ==> allows.entries[i].1.Bool?) then None
      else if !condition.Null? && !IsName(condition) then None
      else
        var fanOut, retry := GetOr(allows.entries, FanOut, Bool(false)), GetOr(allows.entries, Retry, Bool(false));
        if !fanOut.Bool? || !retry.Bool? then None
        else Some([StepDefinition(key.s, Texts(predecessors.items), fanOut.b, retry.b,
                                  if condition.Null? then None else Some(condition.s))])
  }

  function StepReader(raw: Entries): (Tree, Tree) -> Option<seq<StepDefinition>> {
    (key, value) => ReadStep(raw, key, value)
  }

  function ReadVersion(workflow: string, key: Tree, value: Tree): Option<seq<Definition>> {
    if !IsName(key) || !value.Map? || !Only(value.entries, STEPS_FIELD) then None
    else
      var raw := Mapping(GetField(value.entries, Steps));
      if raw.None? || raw.value == [] then None
      else
        var steps := Gather(raw.value, StepReader(raw.value));
        if steps.None? then None else Some([Definition(workflow, key.s, steps.value)])
  }

  function VersionReader(workflow: string): (Tree, Tree) -> Option<seq<Definition>> {
    (key, value) => ReadVersion(workflow, key, value)
  }

  function ReadWorkflow(key: Tree, value: Tree): Option<seq<Definition>> {
    if !IsName(key) then None
    else
      var versions := Mapping(value);
      if versions.None? then None else Gather(versions.value, VersionReader(key.s))
  }

  function RouteOf(workflow: string, version: string, step: Option<string>, f: Entries): WorkflowRoute {
    WorkflowRoute(workflow, version, step, GetField(f, Model), GetField(f, Provider), GetField(f, Note), 0.0)
  }

  function ReadStepRoute(workflow: string, version: string, key: Tree, value: Tree): Option<seq<WorkflowRoute>> {
    if !IsName(key) || !value.Map? || !Only(value.entries, STEP_ROUTE_FIELDS) then None
    else
      var route := RouteOf(workflow, version, Some(key.s), value.entries);
      if WorkflowRouteOk(route) then Some([route]) else None
  }

  function StepRouteReader(workflow: string, version: string): (Tree, Tree) -> Option<seq<WorkflowRoute>> {
    (key, value) => ReadStepRoute(workflow, version, key, value)
  }

  /** The rule of a whole version, when it names a model. */
  function ReadOwnRoute(workflow: string, version: string, f: Entries): Option<seq<WorkflowRoute>> {
    if GetField(f, Model).Null? then Some([])
    else if WorkflowRouteOk(RouteOf(workflow, version, None, f)) then Some([RouteOf(workflow, version, None, f)])
    else None
  }

  function ReadVersionRoutes(workflow: string, key: Tree, value: Tree): Option<seq<WorkflowRoute>> {
    if !IsName(key) || !value.Map? || !Only(value.entries, VERSION_ROUTE_FIELDS) then None
    else
      var raw := Mapping(GetField(value.entries, Steps));
      if raw.None? then None
      else
        var own := ReadOwnRoute(workflow, key.s, value.entries);
        var steps := Gather(raw.value, StepRouteReader(workflow, key.s));
        if own.None? || steps.None? then None else Some(own.value + steps.value)
  }

  function VersionRouteReader(workflow: string): (Tree, Tree) -> Option<seq<WorkflowRoute>> {
    (key, value) => ReadVersionRoutes(workflow, key, value)
  }

  function ReadWorkflowRoutes(key: Tree, value: Tree): Option<seq<WorkflowRoute>> {
    if !IsName(key) then None
    else
      var versions := Mapping(value);
      if versions.None? then None else Gather(versions.value, VersionRouteReader(key.s))
  }

  // ----- scopes ----------------------------------------------------------------------------------

  predicate HasStep(d: Definition, step: string) {
    exists i :: 0 <= i < |d.steps| && d.steps[i].name == step
  }

  /** The version is declared, with the step if one is given. */
  predicate Declared(workflows: seq<Definition>, workflow: string, version: string, step: Option<string>) {
    exists i :: 0 <= i < |workflows| && workflows[i].workflow == workflow && workflows[i].version == version
                && (step.Some? ==> HasStep(workflows[i], step.value))
  }

  predicate ExperimentDeclared(workflows: seq<Definition>, e: Experiment) {
    e.workflow.Null? || e.version.Null?
    || (e.workflow.Str? && e.version.Str? && (e.step.Null? || e.step.Str?)
        && Declared(workflows, e.workflow.s, e.version.s, if e.step.Null? then None else Some(e.step.s)))
  }

  predicate RouteDeclared(workflows: seq<Definition>, r: WorkflowRoute) {
    Declared(workflows, r.workflow, r.version, r.step)
  }

  predicate SameTarget(a: WorkflowRoute, b: WorkflowRoute) {
    a.workflow == b.workflow && a.version == b.version && a.step == b.step
  }

  predicate DistinctTargets(routes: seq<WorkflowRoute>) {
    forall i, j :: 0 <= i < j < |routes| ==> !SameTarget(routes[i], routes[j])
  }

  predicate ScopesDeclared(workflows: seq<Definition>, experiments: seq<Experiment>) {
    forall i :: 0 <= i < |experiments| ==> ExperimentDeclared(workflows, experiments[i])
  }

  predicate RoutesDeclared(workflows: seq<Definition>, routes: seq<WorkflowRoute>) {
    forall i :: 0 <= i < |routes| ==> RouteDeclared(workflows, routes[i])
  }

  // ----- the document ----------------------------------------------------------------------------

  /** Equal to the number one in Python's sense. */
  predicate IsOne(t: Tree) { t == Int(VERSION) || t == Float(1.0) || t == Bool(true) }

  function LoadSections(routes: Entries, experiments: Entries, workflowRoutes: Entries, workflows: Entries)
    : Option<Config>
  {
    var r, e := Gather(routes, ReadRoute), Gather(experiments, ReadExperiment);
    var d, w := Gather(workflows, ReadWorkflow), Gather(workflowRoutes, ReadWorkflowRoutes);
    if r.None? || e.None? || d.None? || w.None? then None
    else if !ScopesDeclared(d.value, e.value) || !RoutesDeclared(d.value, w.value) then None
    else if !DistinctTargets(w.value) then None
    else Some(Config(r.value, e.value, w.value, d.value))
  }

  function Load(document: Tree): Option<Config> {
    if !document.Map? || !Only(document.entries, SECTIONS) || !IsOne(GetField(document.entries, Version)) then None
    else
      var f := document.entries;
      var routes, experiments := Mapping(GetField(f, Routes)), Mapping(GetField(f, Experiments));
      var workflowRoutes, workflows := Mapping(GetField(f, WorkflowRoutes)), Mapping(GetField(f, Workflows));
      if routes.None? || experiments.None? || workflowRoutes.None? || workflows.None? then None
      else LoadSections(routes.value, experiments.value, workflowRoutes.value, workflows.value)
  }

  // ----- the loops of the loader -----------------------------------------------------------------

  method LoadRoutes(entries: Entries) returns (routes: Option<seq<Route>>)
    ensures routes == Gather(entries, ReadRoute)
  {
    hide ReadRoute;
    var loaded: seq<Route> := [];
    for i := 0 to |entries|
      invariant Gather(entries[..i], ReadRoute) == Some(loaded)
    {
      GatherStep(entries, i, ReadRoute);
      var route := ReadRoute(entries[i].0, entries[i].1);
      if route.None? {
        GatherRefused(entries, i + 1, ReadRoute);
        return None;
      }
      loaded := loaded + route.value;
    }
    assert entries[..|entries|] == entries;
    routes := Some(loaded);
  }

  method LoadExperiments(entries: Entries) returns (experiments: Option<seq<Experiment>>)
    ensures experiments == Gather(entries, ReadExperiment)
  {
    hide ReadExperiment;
    var loaded: seq<Experiment> := [];
    for i := 0 to |entries|
      invariant Gather(entries[..i], ReadExperiment) == Some(loaded)
    {
      GatherStep(entries, i, ReadExperiment);
      var experiment := ReadExperiment(entries[i].0, entries[i].1);
      if experiment.None? {
        GatherRefused(entries, i + 1, ReadExperiment);
        return None;
      }
      loaded := loaded + experiment.value;
    }
    assert entries[..|entries|] == entries;
    experiments := Some(loaded);
  }

  method LoadSteps(raw: Entries) returns (steps: Option<seq<StepDefinition>>)
    ensures steps == Gather(raw, StepReader(raw))
  {
    hide ReadStep;
    var loaded: seq<StepDefinition> := [];
    for i := 0 to |raw|
      invariant Gather(raw[..i], StepReader(raw)) == Some(loaded)
    {
      GatherStep(raw, i, StepReader(raw));
      var step := ReadStep(raw, raw[i].0, raw[i].1);
      if step.None? {
        GatherRefused(raw, i + 1, StepReader(raw));
        return None;
      }
      loaded := loaded + step.value;
    }
    assert raw[..|raw|] == raw;
    steps := Some(loaded);
  }

  method LoadVersions(workflow: string, versions: Entries) returns (definitions: Option<seq<Definition>>)
    ensures definitions == Gather(versions, VersionReader(workflow))
  {
    hide Only;
    var loaded: seq<Definition> := [];
    for i := 0 to |versions|
      invariant Gather(versions[..i], VersionReader(workflow)) == Some(loaded)
    {
      var key, value := versions[i].0, versions[i].1;
      GatherStep(versions, i, VersionReader(workflow));
      var definition: Option<Definition> := None;
      if IsName(key) && value.Map? && Only(value.entries, STEPS_FIELD) {
        var raw := Mapping(GetField(value.entries, Steps));
        if raw.Some? && raw.value != [] {
          var steps := LoadSteps(raw.value);
          if steps.Some? { definition := Some(Definition(workflow, key.s, steps.value)); }
        }
      }
      assert ReadVersion(workflow, key, value) == if definition.None? then None else Some([definition.value]);
      if definition.None? {
        GatherRefused(versions, i + 1, VersionReader(workflow));
        return None;
      }
      loaded := loaded + [definition.value];
    }
    assert versions[..|versions|] == versions;
    definitions := Some(loaded);
  }

  method LoadWorkflows(entries: Entries) returns (definitions: Option<seq<Definition>>)
    ensures definitions == Gather(entries, ReadWorkflow)
  {
    var loaded: seq<Definition> := [];
    for i := 0 to |entries|
      invariant Gather(entries[..i], ReadWorkflow) == Some(loaded)
    {
      GatherStep(entries, i, ReadWorkflow);
      var versions := Mapping(entries[i].1);
      if !IsName(entries[i].0) || versions.None? {
        GatherRefused(entries, i + 1, ReadWorkflow);
        return None;
      }
      var some := LoadVersions(entries[i].0.s, versions.value);
      if some.None? {
        GatherRefused(entries, i + 1, ReadWorkflow);
        return None;
      }
      loaded := loaded + some.value;
    }
    assert entries[..|entries|] == entries;
    definitions := Some(loaded);
  }

  method LoadStepRoutes(workflow: string, version: string, steps: Entries) returns (routes: Option<seq<WorkflowRoute>>)
    ensures routes == Gather(steps, StepRouteReader(workflow, version))
  {
    hide ReadStepRoute;
    var loaded: seq<WorkflowRoute> := [];
    for i := 0 to |steps|
      invariant Gather(steps[..i], StepRouteReader(workflow, version)) == Some(loaded)
    {
      GatherStep(steps, i, StepRouteReader(workflow, version));
      var route := ReadStepRoute(workflow, version, steps[i].0, steps[i].1);
      if route.None? {
        GatherRefused(steps, i + 1, StepRouteReader(workflow, version));
        return None;
      }
      loaded := loaded + route.value;
    }
    assert steps[..|steps|] == steps;
    routes := Some(loaded);
  }

  method LoadVersionRoutes(workflow: string, versions: Entries) returns (routes: Option<seq<WorkflowRoute>>)
    ensures routes == Gather(versions, VersionRouteReader(workflow))
  {
    hide Only;
    hide ReadOwnRoute;
    var loaded: seq<WorkflowRoute> := [];
    for i := 0 to |versions|
      invariant Gather(versions[..i], VersionRouteReader(workflow)) == Some(loaded)
    {
      var key, value := versions[i].0, versions[i].1;
      GatherStep(versions, i, VersionRouteReader(workflow));
      var found: Option<seq<WorkflowRoute>> := None;
      if IsName(key) && value.Map? && Only(value.entries, VERSION_ROUTE_FIELDS) {
        var raw := Mapping(GetField(value.entries, Steps));
        if raw.Some? {
          var own := ReadOwnRoute(workflow, key.s, value.entries);
          var steps := LoadStepRoutes(workflow, key.s, raw.value);
          if own.Some? && steps.Some? { found := Some(own.value + steps.value); }
        }
      }
      assert ReadVersionRoutes(workflow, key, value) == found;
      if found.None? {
        GatherRefused(versions, i + 1, VersionRouteReader(workflow));
        return None;
      }
      loaded := loaded + found.value;
    }
    assert versions[..|versions|] == versions;
    routes := Some(loaded);
  }

  method LoadWorkflowRoutes(entries: Entries) returns (routes: Option<seq<WorkflowRoute>>)
    ensures routes == Gather(entries, ReadWorkflowRoutes)
  {
    var loaded: seq<WorkflowRoute> := [];
    for i := 0 to |entries|
      invariant Gather(entries[..i], ReadWorkflowRoutes) == Some(loaded)
    {
      GatherStep(entries, i, ReadWorkflowRoutes);
      var versions := Mapping(entries[i].1);
      if !IsName(entries[i].0) || versions.None? {
        GatherRefused(entries, i + 1, ReadWorkflowRoutes);
        return None;
      }
      var some := LoadVersionRoutes(entries[i].0.s, versions.value);
      if some.None? {
        GatherRefused(entries, i + 1, ReadWorkflowRoutes);
        return None;
      }
      loaded := loaded + some.value;
    }
    assert entries[..|entries|] == entries;
    routes := Some(loaded);
  }

  /** The check of duplicates and declared versions, route by route. */
  method CheckRoutes(workflows: seq<Definition>, routes: seq<WorkflowRoute>) returns (ok: bool)
    ensures ok <==> RoutesDeclared(workflows, routes) && DistinctTargets(routes)
  {
    hide RouteDeclared;
    var seen: set<(string, string, Option<string>)> := {};
    for i := 0 to |routes|
      invariant RoutesDeclared(workflows, routes[..i]) && DistinctTargets(routes[..i])
      invariant forall k :: k in seen <==> exists j :: 0 <= j < i && Target(routes[j]) == k
    {
      if !RouteDeclared(workflows, routes[i]) || Target(routes[i]) in seen { return false; }
      seen := seen + {Target(routes[i])};
    }
    assert routes[..|routes|] == routes;
    ok := true;
  }

  function Target(r: WorkflowRoute): (string, string, Option<string>) { (r.workflow, r.version, r.step) }

  /** Loading a document: every section, then the scopes. */
  method LoadDocument(document: Tree) returns (config: Option<Config>)
    ensures config == Load(document)
  {
    hide Only;
    hide ReadRoute;
    hide ReadExperiment;
    hide ReadWorkflow;
    hide ReadWorkflowRoutes;
    hide Lookup;
    hide Gather;
    if !document.Map? || !Only(document.entries, SECTIONS) || !IsOne(GetField(document.entries, Version)) {
      return None;
    }
    var f := document.entries;
    var rawRoutes, rawExperiments := Mapping(GetField(f, Routes)), Mapping(GetField(f, Experiments));
    var rawWorkflowRoutes, rawWorkflows := Mapping(GetField(f, WorkflowRoutes)), Mapping(GetField(f, Workflows));
    if rawRoutes.None? || rawExperiments.None? || rawWorkflowRoutes.None? || rawWorkflows.None? { return None; }
    var routes := LoadRoutes(rawRoutes.value);
    if routes.None? { return None; }
    var experiments := LoadExperiments(rawExperiments.value);
    if experiments.None? { return None; }
    var workflows := LoadWorkflows(rawWorkflows.value);
    if workflows.None? { return None; }
    var i := 0;
    while i < |experiments.value|
      invariant 0 <= i <= |experiments.value|
      invariant forall j :: 0 <= j < i ==> ExperimentDeclared(workflows.value, experiments.value[j])
    {
      if !ExperimentDeclared(workflows.value, experiments.value[i]) { return None; }
      i := i + 1;
    }
    var workflowRoutes := LoadWorkflowRoutes(rawWorkflowRoutes.value);
    if workflowRoutes.None? { return None; }
    var ok := CheckRoutes(workflows.value, workflowRoutes.value);
    if !ok { return None; }
    config := Some(Config(routes.value, experiments.value, workflowRoutes.value, workflows.value));
  }
}
