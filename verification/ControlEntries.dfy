/** Every entry of a canonical document is read back as the item it was written from. */
module ControlEntries {
  import opened Prelude
  import opened Sorting
  import opened ControlTree
  import opened ControlConfig
  import opened ControlRender

  // ----- dictionaries ----------------------------------------------------------------------------

  lemma {:induction false} PutFresh(entries: Entries, key: Tree, value: Tree)
    requires !HasKey(entries, key)
    ensures Put(entries, key, value) == entries + [(key, value)] && Lookup(entries, key) == None
  {
    if entries != [] {
      assert entries[0].0 != key;
      forall i | 0 <= i < |entries[1..]| ensures entries[1..][i].0 != key { assert entries[i + 1].0 != key; }
      PutFresh(entries[1..], key, value);
    }
  }

  /** Writing to the last key replaces the last entry. */
  lemma {:induction false} PutLast(before: Entries, key: Tree, previous: Tree, value: Tree)
    requires !HasKey(before, key)
    ensures Put(before + [(key, previous)], key, value) == before + [(key, value)]
    ensures Lookup(before + [(key, previous)], key) == Some(previous)
  {
    var entries := before + [(key, previous)];
    if before != [] {
      assert before[0].0 != key && entries[1..] == before[1..] + [(key, previous)];
      forall i | 0 <= i < |before[1..]| ensures before[1..][i].0 != key { assert before[i + 1].0 != key; }
      PutLast(before[1..], key, previous, value);
    }
  }

  // ----- routes ----------------------------------------------------------------------------------

  function UntimedRoute(r: Route): Route { r.(ts := 0.0) }

  lemma RouteReadBack(r: Route)
    requires RouteOk(r)
    ensures ReadRoute(Str(r.useCase), RouteNode(r)) == Some([UntimedRoute(r)])
  {
    hide Name;
    hide NonNull;
    hide Truthy;
    hide Lookup;
    var fixed: Pairs := [(Model, r.model)];
    var optional: Pairs := [(Provider, r.provider), (PreviousModel, r.previousModel), (Note, r.note)];
    NodeOnly(fixed, optional, ROUTE_FIELDS);
    hide Only;
    FixedField(fixed, optional, 0);
    OptionalField(fixed, optional, 0);
    OptionalField(fixed, optional, 1);
    OptionalField(fixed, optional, 2);
    hide Node;
  }

  // ----- experiments -----------------------------------------------------------------------------

  function UntimedExperiment(e: Experiment): Experiment { e.(created := 0.0) }

  function ExperimentFixed(e: Experiment): Pairs {
    [(Id, e.id), (CandidateModel, e.candidateModel), (SplitPct, e.splitPct), (MaxCalls, e.maxCalls)]
  }

  function ExperimentOptional(e: Experiment): Pairs {
    [(Provider, e.provider), (Workflow, e.workflow), (WorkflowVersion, e.version), (Step, e.step)]
  }

  lemma ExperimentNodeForm(e: Experiment)
    ensures ExperimentNode(e) == Map(Node(ExperimentFixed(e), ExperimentOptional(e)))
    ensures Only(Node(ExperimentFixed(e), ExperimentOptional(e)), EXPERIMENT_FIELDS)
  {
    hide Name, NonNull, Lookup;
    NodeOnly(ExperimentFixed(e), ExperimentOptional(e), EXPERIMENT_FIELDS);
  }

  lemma ExperimentFixedFields(e: Experiment, f: Entries)
    requires ExperimentNode(e) == Map(f)
    ensures GetField(f, Id) == e.id && GetField(f, CandidateModel) == e.candidateModel
    ensures forall default :: GetOr(f, SplitPct, default) == e.splitPct && GetOr(f, MaxCalls, default) == e.maxCalls
  {
    hide Name, NonNull, Lookup, Node, Only;
    ExperimentNodeForm(e);
    FixedField(ExperimentFixed(e), ExperimentOptional(e), 0);
    FixedField(ExperimentFixed(e), ExperimentOptional(e), 1);
    FixedField(ExperimentFixed(e), ExperimentOptional(e), 2);
    FixedField(ExperimentFixed(e), ExperimentOptional(e), 3);
  }

  lemma ExperimentOptionalFields(e: Experiment, f: Entries)
    requires ExperimentNode(e) == Map(f)
    ensures GetField(f, Provider) == e.provider && GetField(f, Workflow) == e.workflow
    ensures GetField(f, WorkflowVersion) == e.version && GetField(f, Step) == e.step
  {
    hide Name, NonNull, Lookup, Node, Only;
    ExperimentNodeForm(e);
    OptionalField(ExperimentFixed(e), ExperimentOptional(e), 0);
    OptionalField(ExperimentFixed(e), ExperimentOptional(e), 1);
    OptionalField(ExperimentFixed(e), ExperimentOptional(e), 2);
    OptionalField(ExperimentFixed(e), ExperimentOptional(e), 3);
  }

  lemma ExperimentFields(e: Experiment, f: Entries)
    requires ExperimentNode(e) == Map(f)
    ensures Only(f, EXPERIMENT_FIELDS)
    ensures GetField(f, Id) == e.id && GetField(f, CandidateModel) == e.candidateModel
    ensures GetField(f, Provider) == e.provider && GetField(f, Workflow) == e.workflow
    ensures GetField(f, WorkflowVersion) == e.version && GetField(f, Step) == e.step
    ensures forall default :: GetOr(f, SplitPct, default) == e.splitPct && GetOr(f, MaxCalls, default) == e.maxCalls
  {
    hide *;
    ExperimentNodeForm(e);
    ExperimentFixedFields(e, f);
    ExperimentOptionalFields(e, f);
  }

  lemma ExperimentReadBack(e: Experiment)
    requires ExperimentOk(e) && Truthy(e.id) && e.running
    ensures ReadExperiment(Str(e.useCase), ExperimentNode(e)) == Some([UntimedExperiment(e)])
  {
    ExperimentFields(e, ExperimentNode(e).entries);
    hide Name;
    hide Only;
    hide ExperimentNode;
    hide GetField;
    hide GetOr;
    hide Truthy;
  }

  // ----- workflow steps --------------------------------------------------------------------------

  predicate StepOk(s: StepDefinition) {
    && s.name != "" && s.name !in s.predecessors
    && (forall i :: 0 <= i < |s.predecessors| ==> s.predecessors[i] != "")
    && (s.condition.Some? ==> s.condition.value != "")
  }

  lemma AllowsReadBack(s: StepDefinition)
    ensures var allows := OrEmpty(AllowsNode(s));
            && allows.Map? && Only(allows.entries, FLAG_FIELDS)
            && (forall i :: 0 <= i < |allows.entries| ==> allows.entries[i].1.Bool?)
            && GetOr(allows.entries, FanOut, Bool(false)) == Bool(s.fanOut)
            && GetOr(allows.entries, Retry, Bool(false)) == Bool(s.retry)
  {
    hide Name;
    if s.fanOut || s.retry {
      var optional: Pairs := [(FanOut, OptFlag(s.fanOut)), (Retry, OptFlag(s.retry))];
      NodeOnly([], optional, FLAG_FIELDS);
      OptionalField([], optional, 0);
      OptionalField([], optional, 1);
      FlagsAreBool(s);
      hide Only;
      hide Node;
      hide Lookup;
    } else {
      assert Only([], FLAG_FIELDS);
    }
  }

  lemma FlagsAreBool(s: StepDefinition)
    requires s.fanOut || s.retry
    ensures var entries := Node([], [(FanOut, OptFlag(s.fanOut)), (Retry, OptFlag(s.retry))]);
            entries != [] && forall i :: 0 <= i < |entries| ==> entries[i].1.Bool?
  {
    hide Name;
    var optional: Pairs := [(FanOut, OptFlag(s.fanOut)), (Retry, OptFlag(s.retry))];
    assert optional[1..] == [(Retry, OptFlag(s.retry))];
    assert optional[1..][1..] == [];
    assert NonNull(optional[1..]) == if s.retry then [(Retry, Bool(true))] else [];
  }

  lemma StepFields(s: StepDefinition, f: Entries)
    requires StepNode(s) == Map(f)
    ensures Only(f, STEP_FIELDS)
    ensures GetOr(f, Predecessors, List([])) == List(Names(s.predecessors))
    ensures OrEmpty(GetField(f, Allows)) == OrEmpty(AllowsNode(s)) && GetField(f, Condition) == OptText(s.condition)
  {
    hide Name;
    hide NonNull;
    hide Lookup;
    hide AllowsNode;
    var optional: Pairs := [(Predecessors, if s.predecessors == [] then Null else List(Names(s.predecessors))),
                            (Allows, AllowsNode(s)), (Condition, OptText(s.condition))];
    NodeOnly([], optional, STEP_FIELDS);
    hide Only;
    OptionalField([], optional, 0);
    OptionalField([], optional, 1);
    OptionalField([], optional, 2);
    hide Node;
    if s.predecessors == [] { assert Names(s.predecessors) == []; }
  }

  lemma TextsOfNames(texts: seq<string>)
    ensures Texts(Names(texts)) == texts
  {
  }

  lemma StepReadBack(raw: Entries, s: StepDefinition)
    requires StepOk(s) && forall i :: 0 <= i < |s.predecessors| ==> HasKey(raw, Str(s.predecessors[i]))
    ensures ReadStep(raw, Str(s.name), StepNode(s)) == Some([s])
  {
    hide Name;
    hide Only;
    hide AllowsNode;
    hide GetOr;
    hide HasKey;
    var f := StepNode(s).entries;
    StepFields(s, f);
    assert OrEmpty(StepNode(s)) == Map(f);
    hide StepNode;
    AllowsReadBack(s);
    TextsOfNames(s.predecessors);
    var items := Names(s.predecessors);
    hide Names;
    hide Texts;
    hide OrEmpty;
    assert Str(s.name) !in items;
    assert forall i :: 0 <= i < |items| ==> IsName(items[i]) && HasKey(raw, items[i]);
  }
}
