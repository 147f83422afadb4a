/** A rendered document never repeats a key, at any depth, so the laws about such documents apply to it. */
module ControlKeys {
  import opened Prelude
  import opened Sorting
  import opened ControlTree
  import opened ControlConfig
  import opened ControlRender
  import opened ControlAccepted

  lemma {:induction false} PutKeyed(entries: Entries, key: Tree, value: Tree)
    requires EntriesWellKeyed(entries) && WellKeyed(value)
    ensures EntriesWellKeyed(Put(entries, key, value))
    ensures forall k :: HasKey(Put(entries, key, value), k) ==> k == key || HasKey(entries, k)
  {
    hide WellKeyed;
    if entries != [] && entries[0].0 != key {
      var rest := entries[1..];
      PutKeyed(rest, key, value);
      var put := Put(rest, key, value);
      assert forall i :: 0 <= i < |rest| ==> rest[i] == entries[i + 1];
      forall k | HasKey(put, k) ensures k == key || HasKey(entries, k) {
        if k != key {
          var i :| 0 <= i < |rest| && rest[i].0 == k;
          assert entries[i + 1].0 == k;
        }
      }
      forall j | 0 <= j < |put| ensures put[j].0 != entries[0].0 {
        assert HasKey(put, put[j].0);
        if put[j].0 != key {
          var i :| 0 <= i < |rest| && rest[i].0 == put[j].0;
          assert entries[i + 1].0 != entries[0].0;
        }
      }
    }
  }

  lemma ChildKeyed(entries: Entries, key: Tree)
    requires EntriesWellKeyed(entries)
    ensures EntriesWellKeyed(Child(entries, key))
  {
    if Lookup(entries, key).Some? { LookupFound(entries, key); }
  }

  ghost predicate PairsKeyed(pairs: Pairs) {
    DistinctFields(pairs) && forall i :: 0 <= i < |pairs| ==> WellKeyed(pairs[i].1)
  }

  lemma TailKeyed(pairs: Pairs)
    requires PairsKeyed(pairs) && pairs != []
    ensures PairsKeyed(pairs[1..]) && forall p <- pairs[1..] :: p in pairs && p.0 != pairs[0].0
  {
    hide WellKeyed;
    var rest := pairs[1..];
    assert forall i :: 0 <= i < |rest| ==> rest[i] == pairs[i + 1];
  }

  lemma ConsKeyed(first: (Field, Tree), rest: Pairs)
    requires PairsKeyed(rest) && WellKeyed(first.1) && forall p <- rest :: p.0 != first.0
    ensures PairsKeyed([first] + rest)
  {
    hide WellKeyed;
    var all := [first] + rest;
    forall j | 0 < j < |all| ensures all[j].0 != first.0 { assert all[j] == rest[j - 1] && rest[j - 1] in rest; }
  }

  lemma {:induction false} NonNullKeyed(pairs: Pairs)
    requires PairsKeyed(pairs)
    ensures PairsKeyed(NonNull(pairs)) && forall p <- NonNull(pairs) :: p in pairs
  {
    if pairs != [] {
      assert WellKeyed(pairs[0].1);
      TailKeyed(pairs);
      NonNullKeyed(pairs[1..]);
      var rest := NonNull(pairs[1..]);
      hide WellKeyed, PairsKeyed;
      if !pairs[0].1.Null? { ConsKeyed(pairs[0], rest); }
      assert forall p <- rest :: p in pairs[1..];
      assert forall p <- [pairs[0]] + rest :: p == pairs[0] || p in rest;
    }
  }

  lemma WrittenKeyed(pairs: Pairs)
    requires PairsKeyed(pairs)
    ensures EntriesWellKeyed(Written(pairs))
  {
    hide WellKeyed, Name;
    var entries := Written(pairs);
    forall i, j | 0 <= i < j < |entries| ensures entries[i].0 != entries[j].0 {
      if Name(pairs[i].0) == Name(pairs[j].0) { NamesDistinct(pairs[i].0, pairs[j].0); }
    }
  }

  lemma NodeKeyed(fixed: Pairs, optional: Pairs)
    requires PairsKeyed(fixed + optional) && PairsKeyed(optional)
    ensures EntriesWellKeyed(Node(fixed, optional))
  {
    hide WellKeyed;
    NonNullKeyed(optional);
    var all, kept := fixed + optional, NonNull(optional);
    forall i, j | 0 <= i < |fixed| && 0 <= j < |kept| ensures fixed[i].0 != kept[j].0 {
      assert kept[j] in optional;
      var k :| 0 <= k < |optional| && optional[k] == kept[j];
      assert all[i] == fixed[i] && all[|fixed| + k] == optional[k];
    }
    assert forall i :: 0 <= i < |fixed| ==> all[i] == fixed[i];
    WrittenKeyed(fixed + kept);
  }

  // ----- entries ---------------------------------------------------------------------------------

  /** Every value a configuration carries as it is keeps the rule itself. */
  predicate RouteKeyed(r: Route) {
    WellKeyed(r.model) && WellKeyed(r.provider) && WellKeyed(r.previousModel) && WellKeyed(r.note)
  }

  predicate ExperimentKeyed(e: Experiment) {
    && WellKeyed(e.id) && WellKeyed(e.candidateModel) && WellKeyed(e.splitPct) && WellKeyed(e.maxCalls)
    && WellKeyed(e.provider) && WellKeyed(e.workflow) && WellKeyed(e.version) && WellKeyed(e.step)
  }

  predicate RuleKeyed(r: WorkflowRoute) { WellKeyed(r.model) && WellKeyed(r.provider) && WellKeyed(r.note) }

  ghost predicate CarriesKeyed(c: Config) {
    && (forall r <- c.routes :: RouteKeyed(r)) && (forall e <- c.experiments :: ExperimentKeyed(e))
    && (forall r <- c.workflowRoutes :: RuleKeyed(r))
  }

  lemma RouteNodeKeyed(r: Route)
    requires RouteKeyed(r)
    ensures WellKeyed(RouteNode(r))
  {
    hide Name, NonNull;
    NodeKeyed([(Model, r.model)], [(Provider, r.provider), (PreviousModel, r.previousModel), (Note, r.note)]);
  }

  lemma ExperimentNodeKeyed(e: Experiment)
    requires ExperimentKeyed(e)
    ensures WellKeyed(ExperimentNode(e))
  {
    hide Name, NonNull;
    NodeKeyed([(Id, e.id), (CandidateModel, e.candidateModel), (SplitPct, e.splitPct), (MaxCalls, e.maxCalls)],
              [(Provider, e.provider), (Workflow, e.workflow), (WorkflowVersion, e.version),
               (ControlTree.Step, e.step)]);
  }

  lemma StepNodeKeyed(s: StepDefinition)
    ensures WellKeyed(StepNode(s))
  {
    hide Name, NonNull;
    NodeKeyed([], [(FanOut, OptFlag(s.fanOut)), (Retry, OptFlag(s.retry))]);
    NodeKeyed([], [(Predecessors, if s.predecessors == [] then Null else List(Names(s.predecessors))),
                   (Allows, AllowsNode(s)), (Condition, OptText(s.condition))]);
  }

  // ----- sections --------------------------------------------------------------------------------

  lemma {:induction false} StepsKeyed(steps: seq<StepDefinition>)
    ensures EntriesWellKeyed(RenderSteps(steps))
  {
    hide EntriesWellKeyed, StepNode, Put;
    if steps == [] {
      EmptyKeyed();
    } else {
      var n := |steps| - 1;
      StepsKeyed(steps[..n]);
      StepNodeKeyed(steps[n]);
      PutKeyed(RenderSteps(steps[..n]), Str(steps[n].name), StepNode(steps[n]));
    }
  }

  lemma EmptyKeyed()
    ensures EntriesWellKeyed([])
  {}

  lemma {:induction false} RoutesKeyed(routes: seq<Route>)
    requires forall r <- routes :: RouteKeyed(r)
    ensures EntriesWellKeyed(RenderRoutes(routes))
  {
    hide EntriesWellKeyed, RouteNode, Put, RouteKeyed;
    if routes == [] {
      EmptyKeyed();
    } else {
      var n := |routes| - 1;
      RoutesKeyed(routes[..n]);
      RouteNodeKeyed(routes[n]);
      PutKeyed(RenderRoutes(routes[..n]), Str(routes[n].useCase), RouteNode(routes[n]));
    }
  }

  lemma {:induction false} ExperimentsKeyed(experiments: seq<Experiment>)
    requires forall e <- experiments :: ExperimentKeyed(e)
    ensures EntriesWellKeyed(RenderExperiments(experiments))
  {
    hide EntriesWellKeyed, ExperimentNode, Put, ExperimentKeyed;
    if experiments == [] {
      EmptyKeyed();
    } else {
      var n := |experiments| - 1;
      ExperimentsKeyed(experiments[..n]);
      ExperimentNodeKeyed(experiments[n]);
      PutKeyed(RenderExperiments(experiments[..n]), Str(experiments[n].useCase), ExperimentNode(experiments[n]));
    }
  }

  lemma VersionNodeKeyed(d: Definition)
    ensures WellKeyed(VersionNode(d))
  {
    hide Name, RenderSteps;
    StepsKeyed(d.steps);
    WrittenKeyed([(Steps, Map(RenderSteps(d.steps)))]);
  }

  lemma {:induction false} DefinitionsKeyed(definitions: seq<Definition>)
    ensures EntriesWellKeyed(RenderDefinitions(definitions))
  {
    hide EntriesWellKeyed, VersionNode, Put, Child;
    if definitions == [] {
      EmptyKeyed();
    } else {
      var n, d := |definitions| - 1, definitions[|definitions| - 1];
      var tree := RenderDefinitions(definitions[..n]);
      DefinitionsKeyed(definitions[..n]);
      VersionNodeKeyed(d);
      ChildKeyed(tree, Str(d.workflow));
      PutMapKeyed(tree, Str(d.workflow), Child(tree, Str(d.workflow)), Str(d.version), VersionNode(d));
    }
  }

  /** One level down: a value put into a child, and the child put back. */
  lemma PutMapKeyed(tree: Entries, key: Tree, child: Entries, inner: Tree, value: Tree)
    requires EntriesWellKeyed(tree) && EntriesWellKeyed(child) && WellKeyed(value)
    ensures EntriesWellKeyed(Put(tree, key, Map(Put(child, inner, value))))
  {
    hide Put;
    PutKeyed(child, inner, value);
    PutKeyed(tree, key, Map(Put(child, inner, value)));
  }

  lemma PutRouteKeyed(target: Entries, r: WorkflowRoute)
    requires EntriesWellKeyed(target) && RuleKeyed(r)
    ensures EntriesWellKeyed(PutRoute(target, r))
  {
    hide EntriesWellKeyed, Put, WellKeyed, Name;
    PutKeyed(target, Str(Name(Model)), r.model);
    var withModel := Put(target, Str(Name(Model)), r.model);
    PutKeyed(withModel, Str(Name(Provider)), r.provider);
    var withProvider := if r.provider.Null? then withModel else Put(withModel, Str(Name(Provider)), r.provider);
    PutKeyed(withProvider, Str(Name(Note)), r.note);
  }

  lemma AddToVersionKeyed(fields: Entries, r: WorkflowRoute)
    requires EntriesWellKeyed(fields) && RuleKeyed(r)
    ensures EntriesWellKeyed(AddToVersion(fields, r))
  {
    hide EntriesWellKeyed, Put, PutRoute, RuleKeyed, Child, Name;
    if r.step.None? {
      PutRouteKeyed(fields, r);
    } else {
      var steps := Child(fields, Str(Name(Steps)));
      ChildKeyed(fields, Str(Name(Steps)));
      ChildKeyed(steps, Str(r.step.value));
      var put := PutRoute(Child(steps, Str(r.step.value)), r);
      PutRouteKeyed(Child(steps, Str(r.step.value)), r);
      MapKeyed(put);
      PutMapKeyed(fields, Str(Name(Steps)), steps, Str(r.step.value), Map(put));
    }
  }

  lemma MapKeyed(entries: Entries)
    requires EntriesWellKeyed(entries)
    ensures WellKeyed(Map(entries))
  {}

  lemma {:induction false} RulesKeyed(routes: seq<WorkflowRoute>)
    requires forall r <- routes :: RuleKeyed(r)
    ensures EntriesWellKeyed(RenderWorkflowRoutes(routes))
  {
    hide EntriesWellKeyed, Put, Child, AddToVersion, RuleKeyed;
    if routes == [] {
      EmptyKeyed();
    } else {
      var n, r := |routes| - 1, routes[|routes| - 1];
      var tree := RenderWorkflowRoutes(routes[..n]);
      RulesKeyed(routes[..n]);
      var versions := Child(tree, Str(r.workflow));
      var fields := Child(versions, Str(r.version));
      ChildKeyed(tree, Str(r.workflow));
      ChildKeyed(versions, Str(r.version));
      AddToVersionKeyed(fields, r);
      MapKeyed(AddToVersion(fields, r));
      PutMapKeyed(tree, Str(r.workflow), versions, Str(r.version), Map(AddToVersion(fields, r)));
    }
  }

  // ----- the document ----------------------------------------------------------------------------

  /** The rendered document keeps the rule throughout, if the values it carries do. */
  lemma RenderedIsKeyed(c: Config)
    requires CarriesKeyed(c)
    ensures WellKeyed(Render(c))
  {
    var d := SortedConfig(c);
    SortedMembers(c);
    hide SortedConfig, RouteKeyed, ExperimentKeyed, RuleKeyed, WellKeyed, EntriesWellKeyed;
    RoutesKeyed(d.routes);
    ExperimentsKeyed(d.experiments);
    RulesKeyed(d.workflowRoutes);
    DefinitionsKeyed(d.workflows);
    SectionsKeyed(RenderRoutes(d.routes), RenderExperiments(d.experiments), RenderWorkflowRoutes(d.workflowRoutes),
                  RenderDefinitions(d.workflows));
  }

  lemma SectionsKeyed(routes: Entries, experiments: Entries, rules: Entries, workflows: Entries)
    requires EntriesWellKeyed(routes) && EntriesWellKeyed(experiments)
    requires EntriesWellKeyed(rules) && EntriesWellKeyed(workflows)
    ensures WellKeyed(Map(Written([(ControlTree.Version, Int(VERSION)), (Routes, Map(routes)),
                                   (Experiments, Map(experiments)), (WorkflowRoutes, Map(rules)),
                                   (Workflows, Map(workflows))])))
  {
    hide Name;
    WrittenKeyed([(ControlTree.Version, Int(VERSION)), (Routes, Map(routes)), (Experiments, Map(experiments)),
                  (WorkflowRoutes, Map(rules)), (Workflows, Map(workflows))]);
  }

  lemma SortedMembers(c: Config)
    requires CarriesKeyed(c)
    ensures CarriesKeyed(SortedConfig(c))
  {
    hide RouteKeyed, ExperimentKeyed, RuleKeyed, Sort;
    SortPermutes(c.routes, ByText(RouteKey()));
    SortPermutes(c.experiments, ByText(ExperimentKey()));
    SortPermutes(c.workflowRoutes, ByTarget());
    SameMultiset(c.routes, Sort(c.routes, ByText(RouteKey())));
    SameMultiset(c.experiments, Sort(c.experiments, ByText(ExperimentKey())));
    SameMultiset(c.workflowRoutes, Sort(c.workflowRoutes, ByTarget()));
  }
}
