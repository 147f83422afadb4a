/** What each entry of a desired-state document must say to be accepted, in the words of the document,
    and what it then means. */
module ControlDecisions {
  import opened Prelude
  import opened ControlTree
  import opened ControlConfig
  import opened ControlAccepted

  // ----- what a mapping says ---------------------------------------------------------------------

  /** The mapping gives the name this value, or does not mention it and silence means this value. */
  predicate SaysOr(entries: Entries, name: string, silence: Tree, t: Tree) {
    || (Str(name), t) in entries
    || (t == silence && forall i :: 0 <= i < |entries| ==> entries[i].0 != Str(name))
  }

  predicate Says(entries: Entries, name: string, t: Tree) { SaysOr(entries, name, Null, t) }

  predicate Keys(entries: Entries, names: set<string>) {
    forall i :: 0 <= i < |entries| ==> entries[i].0.Str? && entries[i].0.s in names
  }

  lemma {:induction false} LookupIff(entries: Entries, key: Tree, t: Tree)
    requires UniqueKeys(entries)
    ensures Lookup(entries, key) == Some(t) <==> (key, t) in entries
    ensures Lookup(entries, key) == None <==> forall i :: 0 <= i < |entries| ==> entries[i].0 != key
  {
    if entries != [] {
      LookupIff(entries[1..], key, t);
      assert entries == [entries[0]] + entries[1..];
    }
  }

  lemma SaysIff(entries: Entries, f: Field, silence: Tree, t: Tree)
    requires UniqueKeys(entries)
    ensures SaysOr(entries, Name(f), silence, t) <==> GetOr(entries, f, silence) == t
  {
    hide Name, Lookup;
    LookupIff(entries, Str(Name(f)), t);
  }

  lemma KeysIff(entries: Entries, allowed: set<Field>)
    ensures Only(entries, allowed) <==> Keys(entries, set f | f in allowed :: Name(f))
  {
    hide Name;
    forall i | 0 <= i < |entries|
      ensures IsFieldName(entries[i].0, allowed)
              <==> entries[i].0.Str? && entries[i].0.s in (set f | f in allowed :: Name(f))
    {}
  }

  /** A value Python does not take for false. */
  predicate Set(t: Tree) { t !in [Null, Bool(false), Int(0), Float(0.0), Str(""), List([]), Map([])] }

  lemma SetIff(t: Tree)
    ensures Set(t) <==> Truthy(t)
    ensures OptionalSet(t) <==> t == Null || Set(t)
  {
  }

  /** The number a value compares as, a boolean being zero or one. */
  function Number(t: Tree): Option<real> {
    match t
    case Int(i) => Some(i as real)
    case Float(r) => Some(r)
    case Bool(b) => Some(if b then 1.0 else 0.0)
    case _ => None
  }

  predicate Between(low: real, t: Tree, high: real) {
    Number(t).Some? && low <= Number(t).value <= high
  }

  // ----- routes and experiments ------------------------------------------------------------------

  /** A route entry is accepted, as exactly this route, when its key is a name, it holds no field but the
      four, a model is set, and a provider, if given at all, is. */
  lemma RouteReadIff(useCase: Tree, f: Entries, r: Route)
    requires UniqueKeys(f)
    ensures ReadRoute(useCase, Map(f)) == Some([r]) <==>
            && useCase == Str(r.useCase) && r.useCase != ""
            && Keys(f, {"model", "provider", "previous_model", "note"})
            && Says(f, "model", r.model) && Says(f, "provider", r.provider)
            && Says(f, "previous_model", r.previousModel) && Says(f, "note", r.note)
            && Set(r.model) && (r.provider == Null || Set(r.provider)) && r.ts == 0.0
  {
    KeysIff(f, ROUTE_FIELDS);
    assert (set f | f in ROUTE_FIELDS :: Name(f)) == {"model", "provider", "previous_model", "note"};
    SaysIff(f, Model, Null, r.model);
    SaysIff(f, Provider, Null, r.provider);
    SaysIff(f, PreviousModel, Null, r.previousModel);
    SaysIff(f, Note, Null, r.note);
    SetIff(r.model);
    SetIff(r.provider);
    hide SaysOr, Keys, Only, GetOr, Set, Truthy;
  }

  lemma ExperimentFits(e: Experiment)
    ensures Truthy(e.id) && ExperimentOk(e) <==>
            && e.useCase != "" && Set(e.id) && Set(e.candidateModel) && (e.provider == Null || Set(e.provider))
            && Between(1.0, e.splitPct, 99.0) && Number(e.maxCalls).Some? && Number(e.maxCalls).value >= 1.0
            && (e.workflow == Null <==> e.version == Null) && (e.step != Null ==> e.workflow != Null)
  {
    SetIff(e.id);
    SetIff(e.candidateModel);
    SetIff(e.provider);
    hide Truthy, Set;
  }

  /** What the loader makes of an experiment, in terms of the values it looks up. */
  lemma ExperimentReadWhen(useCase: Tree, f: Entries, e: Experiment)
    ensures ReadExperiment(useCase, Map(f)) == Some([e]) <==>
            && useCase == Str(e.useCase) && Only(f, EXPERIMENT_FIELDS) && Truthy(e.id) && ExperimentOk(e)
            && GetField(f, Id) == e.id && GetField(f, CandidateModel) == e.candidateModel
            && GetField(f, Provider) == e.provider && GetOr(f, SplitPct, Int(50)) == e.splitPct
            && GetOr(f, MaxCalls, Int(60)) == e.maxCalls && GetField(f, Workflow) == e.workflow
            && GetField(f, WorkflowVersion) == e.version && GetField(f, ControlTree.Step) == e.step
            && e.running && e.created == 0.0
  {
    assert ExperimentOk(e) ==> e.useCase != "";
    hide Only, GetOr, GetField, Truthy, ExperimentOk;
    var built := Experiment(GetField(f, Id), e.useCase, GetField(f, CandidateModel), GetField(f, Provider),
                            GetOr(f, SplitPct, Int(50)), GetOr(f, MaxCalls, Int(60)), GetField(f, Workflow),
                            GetField(f, WorkflowVersion), GetField(f, ControlTree.Step), true, 0.0);
    assert [built] == [e] <==> built == e by { if [built] == [e] { assert [built][0] == [e][0]; } }
  }

  /** An experiment entry is accepted, as exactly this running experiment, when it holds no field but the
      eight; id and candidate are set; the share, 50 when not given, is between 1 and 99; the ceiling, 60
      when not given, is at least 1; and workflow and version come together and a step only with them. */
  lemma ExperimentReadIff(useCase: Tree, f: Entries, e: Experiment)
    requires UniqueKeys(f)
    ensures ReadExperiment(useCase, Map(f)) == Some([e]) <==>
            && useCase == Str(e.useCase) && e.useCase != ""
            && Keys(f, {"id", "candidate_model", "provider", "split_pct", "max_calls_per_task", "workflow",
                        "workflow_version", "step"})
            && Says(f, "id", e.id) && Says(f, "candidate_model", e.candidateModel)
            && Says(f, "provider", e.provider) && SaysOr(f, "split_pct", Int(50), e.splitPct)
            && SaysOr(f, "max_calls_per_task", Int(60), e.maxCalls)
            && Says(f, "workflow", e.workflow) && Says(f, "workflow_version", e.version) && Says(f, "step", e.step)
            && Set(e.id) && Set(e.candidateModel) && (e.provider == Null || Set(e.provider))
            && Between(1.0, e.splitPct, 99.0) && Number(e.maxCalls).Some? && Number(e.maxCalls).value >= 1.0
            && (e.workflow == Null <==> e.version == Null) && (e.step != Null ==> e.workflow != Null)
            && e.running && e.created == 0.0
  {
    hide ReadExperiment, SaysOr, Keys, Only, GetOr, GetField, Set, Truthy, ExperimentOk, UniqueKeys, Between, Number;
    ExperimentReadWhen(useCase, f, e);
    ExperimentKeys(f);
    ExperimentSays(f, e);
    ExperimentFits(e);
  }

  lemma ExperimentKeys(f: Entries)
    ensures Only(f, EXPERIMENT_FIELDS)
            <==> Keys(f, {"id", "candidate_model", "provider", "split_pct", "max_calls_per_task", "workflow",
                          "workflow_version", "step"})
  {
    KeysIff(f, EXPERIMENT_FIELDS);
    hide Keys, Only;
    assert (set f | f in EXPERIMENT_FIELDS :: Name(f))
        == {"id", "candidate_model", "provider", "split_pct", "max_calls_per_task", "workflow",
            "workflow_version", "step"};
  }

  lemma ExperimentSays(f: Entries, e: Experiment)
    requires UniqueKeys(f)
    ensures Says(f, "id", e.id) <==> GetField(f, Id) == e.id
    ensures Says(f, "candidate_model", e.candidateModel) <==> GetField(f, CandidateModel) == e.candidateModel
    ensures Says(f, "provider", e.provider) <==> GetField(f, Provider) == e.provider
    ensures SaysOr(f, "split_pct", Int(50), e.splitPct) <==> GetOr(f, SplitPct, Int(50)) == e.splitPct
    ensures SaysOr(f, "max_calls_per_task", Int(60), e.maxCalls) <==> GetOr(f, MaxCalls, Int(60)) == e.maxCalls
    ensures Says(f, "workflow", e.workflow) <==> GetField(f, Workflow) == e.workflow
    ensures Says(f, "workflow_version", e.version) <==> GetField(f, WorkflowVersion) == e.version
    ensures Says(f, "step", e.step) <==> GetField(f, ControlTree.Step) == e.step
  {
    hide SaysOr, GetOr, UniqueKeys;
    SaysIff(f, Id, Null, e.id);
    SaysIff(f, CandidateModel, Null, e.candidateModel);
    SaysIff(f, Provider, Null, e.provider);
    SaysIff(f, SplitPct, Int(50), e.splitPct);
    SaysIff(f, MaxCalls, Int(60), e.maxCalls);
    SaysIff(f, Workflow, Null, e.workflow);
    SaysIff(f, WorkflowVersion, Null, e.version);
    SaysIff(f, ControlTree.Step, Null, e.step);
  }

  // ----- steps of a workflow version -------------------------------------------------------------

  predicate NamesOf(items: seq<Tree>, names: seq<string>) {
    |items| == |names| && forall i :: 0 <= i < |items| ==> items[i] == Str(names[i])
  }

  lemma FlagsAreBooleans(flags: Entries)
    requires UniqueKeys(flags) && Keys(flags, {"fan_out", "retry"})
    ensures (forall i :: 0 <= i < |flags| ==> flags[i].1.Bool?)
            <==> GetOr(flags, FanOut, Bool(false)).Bool? && GetOr(flags, Retry, Bool(false)).Bool?
  {
    var fanOut, retry := GetOr(flags, FanOut, Bool(false)), GetOr(flags, Retry, Bool(false));
    SaysIff(flags, FanOut, Bool(false), fanOut);
    SaysIff(flags, Retry, Bool(false), retry);
    hide GetOr, Lookup;
    forall i | 0 <= i < |flags| ensures flags[i].1 == if flags[i].0 == Str("fan_out") then fanOut else retry {
      var name := flags[i].0.s;
      assert flags[i] in flags;
      SaysIff(flags, if name == "fan_out" then FanOut else Retry, Bool(false), flags[i].1);
    }
  }

  /** What the loader asks of the predecessors, given as a tree. */
  predicate PredecessorsFit(raw: Entries, key: Tree, t: Tree, names: seq<string>) {
    && t.List? && (forall i :: 0 <= i < |t.items| ==> IsName(t.items[i]))
    && (forall i :: 0 <= i < |t.items| ==> HasKey(raw, t.items[i])) && key !in t.items && Texts(t.items) == names
  }

  lemma PredecessorsSaid(f: Entries, names: seq<string>)
    requires UniqueKeys(f)
    ensures (exists items :: SaysOr(f, "predecessors", List([]), List(items)) && NamesOf(items, names))
            <==> GetOr(f, Predecessors, List([])).List? && NamesOf(GetOr(f, Predecessors, List([])).items, names)
  {
    hide SaysOr, GetOr, NamesOf, UniqueKeys;
    var t := GetOr(f, Predecessors, List([]));
    SaysIff(f, Predecessors, List([]), t);
    forall items ensures SaysOr(f, "predecessors", List([]), List(items)) <==> t == List(items) {
      SaysIff(f, Predecessors, List([]), List(items));
    }
    if t.List? { assert SaysOr(f, "predecessors", List([]), List(t.items)); }
  }

  lemma PredecessorsIff(raw: Entries, f: Entries, s: StepDefinition)
    requires UniqueKeys(f)
    ensures PredecessorsFit(raw, Str(s.name), GetOr(f, Predecessors, List([])), s.predecessors) <==>
            && (exists items :: SaysOr(f, "predecessors", List([]), List(items)) && NamesOf(items, s.predecessors))
            && (forall p :: p in s.predecessors ==> p != "" && p != s.name && HasKey(raw, Str(p)))
  {
    hide SaysOr, GetOr, HasKey, Name, UniqueKeys;
    PredecessorsSaid(f, s.predecessors);
    var t, names := GetOr(f, Predecessors, List([])), s.predecessors;
    if t.List? && NamesOf(t.items, names) { NamesFit(raw, s.name, t.items, names); }
  }

  lemma NamesFit(raw: Entries, name: string, items: seq<Tree>, names: seq<string>)
    requires NamesOf(items, names)
    ensures PredecessorsFit(raw, Str(name), List(items), names)
            <==> forall p :: p in names ==> p != "" && p != name && HasKey(raw, Str(p))
  {
    hide HasKey;
    assert forall i :: 0 <= i < |items| ==> items[i] == Str(names[i]) && names[i] in names && items[i] in items;
    if forall p :: p in names ==> p != "" && p != name && HasKey(raw, Str(p)) {
      assert forall i :: 0 <= i < |items| ==> HasKey(raw, items[i]);
    }
  }

  lemma StepKeys(f: Entries, flags: Entries)
    ensures Only(f, STEP_FIELDS) <==> Keys(f, {"predecessors", "allows", "condition"})
    ensures Only(flags, FLAG_FIELDS) <==> Keys(flags, {"fan_out", "retry"})
  {
    KeysIff(f, STEP_FIELDS);
    KeysIff(flags, FLAG_FIELDS);
    hide Keys, Only;
    assert (set f | f in STEP_FIELDS :: Name(f)) == {"predecessors", "allows", "condition"};
    assert (set f | f in FLAG_FIELDS :: Name(f)) == {"fan_out", "retry"};
  }

  /** What the loader asks of a step, in terms of the values it looks up. */
  lemma StepReadWhen(raw: Entries, key: Tree, f: Entries, flags: Entries, s: StepDefinition)
    requires OrEmpty(GetField(f, Allows)) == Map(flags)
    ensures ReadStep(raw, key, Map(f)) == Some([s]) <==>
            && key == Str(s.name) && s.name != "" && Only(f, STEP_FIELDS) && Only(flags, FLAG_FIELDS)
            && PredecessorsFit(raw, key, GetOr(f, Predecessors, List([])), s.predecessors)
            && (forall i :: 0 <= i < |flags| ==> flags[i].1.Bool?)
            && GetOr(flags, FanOut, Bool(false)) == Bool(s.fanOut) && GetOr(flags, Retry, Bool(false)) == Bool(s.retry)
            && GetField(f, Condition) == (if s.condition.None? then Null else Str(s.condition.value))
            && s.condition != Some("")
  {
    hide Only, HasKey, Lookup, Name;
    assert OrEmpty(Map(f)) == Map(f);
    hide OrEmpty;
  }

  lemma StepSays(f: Entries, flags: Entries, s: StepDefinition)
    requires UniqueKeys(f) && UniqueKeys(flags)
    ensures SaysOr(flags, "fan_out", Bool(false), Bool(s.fanOut))
            <==> GetOr(flags, FanOut, Bool(false)) == Bool(s.fanOut)
    ensures SaysOr(flags, "retry", Bool(false), Bool(s.retry)) <==> GetOr(flags, Retry, Bool(false)) == Bool(s.retry)
    ensures var condition := if s.condition.None? then Null else Str(s.condition.value);
            Says(f, "condition", condition) <==> GetField(f, Condition) == condition
  {
    hide SaysOr, GetOr, UniqueKeys;
    SaysIff(f, Condition, Null, if s.condition.None? then Null else Str(s.condition.value));
    SaysIff(flags, FanOut, Bool(false), Bool(s.fanOut));
    SaysIff(flags, Retry, Bool(false), Bool(s.retry));
  }

  /** A step entry is accepted, as exactly this step, when it holds no field but the three; its
      predecessors are a list of other steps of the same version; its flags, false when not given, are
      booleans; and its condition, if any, is a name. */
  lemma StepReadIff(raw: Entries, key: Tree, f: Entries, allows: Tree, flags: Entries, s: StepDefinition)
    requires UniqueKeys(f) && UniqueKeys(flags)
    requires Says(f, "allows", allows) && (if Set(allows) then allows == Map(flags) else flags == [])
    ensures ReadStep(raw, key, Map(f)) == Some([s]) <==>
            && key == Str(s.name) && s.name != ""
            && Keys(f, {"predecessors", "allows", "condition"}) && Keys(flags, {"fan_out", "retry"})
            && (exists items :: SaysOr(f, "predecessors", List([]), List(items)) && NamesOf(items, s.predecessors))
            && (forall p :: p in s.predecessors ==> p != "" && p != s.name && HasKey(raw, Str(p)))
            && SaysOr(flags, "fan_out", Bool(false), Bool(s.fanOut))
            && SaysOr(flags, "retry", Bool(false), Bool(s.retry))
            && Says(f, "condition", if s.condition.None? then Null else Str(s.condition.value))
            && s.condition != Some("")
  {
    hide ReadStep, PredecessorsFit, UniqueKeys, HasKey, Only, Keys, NamesOf, SaysOr, GetOr, Lookup;
    StepKeys(f, flags);
    assert OrEmpty(GetField(f, Allows)) == Map(flags) by {
      SaysIff(f, Allows, Null, allows);
      SetIff(allows);
    }
    hide OrEmpty, GetField, Set;
    StepReadWhen(raw, key, f, flags, s);
    StepSays(f, flags, s);
    if Keys(flags, {"fan_out", "retry"}) { FlagsAreBooleans(flags); }
    PredecessorsIff(raw, f, s);
  }

  // ----- rules of a workflow version -------------------------------------------------------------

  predicate RuleSays(f: Entries, r: WorkflowRoute) {
    Says(f, "model", r.model) && Says(f, "provider", r.provider) && Says(f, "note", r.note) && r.ts == 0.0
  }

  lemma RuleSaysIff(f: Entries, r: WorkflowRoute)
    requires UniqueKeys(f)
    ensures RuleSays(f, r) <==> RouteOf(r.workflow, r.version, r.step, f) == r
  {
    hide SaysOr, GetOr, UniqueKeys;
    SaysIff(f, Model, Null, r.model);
    SaysIff(f, Provider, Null, r.provider);
    SaysIff(f, Note, Null, r.note);
  }

  predicate RuleFits(r: WorkflowRoute) {
    && r.workflow != "" && r.version != "" && r.step != Some("")
    && Set(r.model) && (r.provider == Null || Set(r.provider))
  }

  lemma RuleFitsIff(r: WorkflowRoute)
    ensures WorkflowRouteOk(r) <==> RuleFits(r)
  {
    SetIff(r.model);
    SetIff(r.provider);
    hide Truthy, Set;
  }

  /** A rule for a step is accepted, as exactly this rule, when its key is the step's name, it holds no
      field but the three, and it names a model. */
  lemma StepRuleReadIff(key: Tree, f: Entries, r: WorkflowRoute)
    requires UniqueKeys(f)
    ensures ReadStepRoute(r.workflow, r.version, key, Map(f)) == Some([r]) <==>
            && r.step.Some? && key == Str(r.step.value) && Keys(f, {"model", "provider", "note"})
            && RuleSays(f, r) && RuleFits(r)
  {
    StepRuleKeys(f);
    RuleSaysIff(f, r);
    RuleFitsIff(r);
    hide RuleSays, RuleFits, Only, Keys, GetOr, UniqueKeys;
    if IsName(key) {
      var built := RouteOf(r.workflow, r.version, Some(key.s), f);
      assert [built] == [r] <==> built == r by { if [built] == [r] { assert [built][0] == [r][0]; } }
    }
  }

  lemma StepRuleKeys(f: Entries)
    ensures Only(f, STEP_ROUTE_FIELDS) <==> Keys(f, {"model", "provider", "note"})
  {
    KeysIff(f, STEP_ROUTE_FIELDS);
    hide Keys, Only;
    assert (set f | f in STEP_ROUTE_FIELDS :: Name(f)) == {"model", "provider", "note"};
  }

  /** A version without a model of its own has no rule of its own; with one it has exactly this rule. */
  lemma OwnRuleReadIff(f: Entries, r: WorkflowRoute)
    requires UniqueKeys(f) && r.step.None?
    ensures ReadOwnRoute(r.workflow, r.version, f) == Some([]) <==> Says(f, "model", Null)
    ensures ReadOwnRoute(r.workflow, r.version, f) == Some([r]) <==> RuleSays(f, r) && RuleFits(r)
  {
    SaysIff(f, Model, Null, Null);
    RuleSaysIff(f, r);
    RuleFitsIff(r);
    var built := RouteOf(r.workflow, r.version, None, f);
    assert [built] == [r] <==> built == r by { if [built] == [r] { assert [built][0] == [r][0]; } }
    assert built.model == GetField(f, Model);
    assert RuleFits(r) ==> r.model != Null;
    hide RuleSays, RuleFits, GetOr, UniqueKeys, SaysOr, WorkflowRouteOk;
  }

  // ----- what the document declares --------------------------------------------------------------

  /** The workflows section has the version, with the step among its steps if one is given. */
  ghost predicate DocumentDeclares(workflows: Entries, workflow: string, version: string, step: Option<string>) {
    exists versions, fields, steps ::
      && (Str(workflow), Map(versions)) in workflows && (Str(version), Map(fields)) in versions
      && Says(fields, "steps", Map(steps)) && (step.Some? ==> HasKey(steps, Str(step.value)))
  }

  lemma SaysSteps(fields: Entries, steps: Entries)
    requires UniqueKeys(fields)
    ensures Says(fields, "steps", Map(steps)) <==> GetField(fields, Steps) == Map(steps)
  {
    hide SaysOr, GetOr, UniqueKeys;
    SaysIff(fields, Steps, Null, Map(steps));
  }

  lemma VersionDeclares(workflow: string, key: Tree, fields: Entries, step: string)
    requires UniqueKeys(fields) && ReadVersion(workflow, key, Map(fields)).Some?
    ensures var steps := Mapping(GetField(fields, Steps)).value;
            var definitions := ReadVersion(workflow, key, Map(fields)).value;
            && Says(fields, "steps", Map(steps)) && |definitions| == 1
            && definitions[0].workflow == workflow && Str(definitions[0].version) == key
            && (HasStep(definitions[0], step) <==> HasKey(steps, Str(step)))
  {
    hide Only, GetField, SaysOr, UniqueKeys, HasKey, HasStep, Gather;
    var steps := Mapping(GetField(fields, Steps)).value;
    SaysSteps(fields, steps);
    var d := Definition(workflow, key.s, Gather(steps, StepReader(steps)).value);
    assert ReadVersion(workflow, key, Map(fields)) == Some([d]);
    hide ReadVersion;
    StepNames(steps, d, step);
  }

  lemma StepNames(raw: Entries, d: Definition, step: string)
    requires Gather(raw, StepReader(raw)) == Some(d.steps)
    ensures HasStep(d, step) <==> HasKey(raw, Str(step))
  {
    hide ReadStep, Gather;
    var read := StepReader(raw);
    forall i | 0 <= i < |raw| && read(raw[i].0, raw[i].1).Some? ensures |read(raw[i].0, raw[i].1).value| == 1 {
      StepFromKey(raw, raw[i].0, raw[i].1);
    }
    GatherSingles(raw, read);
    forall i | 0 <= i < |raw| ensures raw[i].0 == Str(d.steps[i].name) {
      assert read(raw[i].0, raw[i].1) == Some([d.steps[i]]);
      StepFromKey(raw, raw[i].0, raw[i].1);
    }
  }

  lemma SectionDeclares(workflows: Entries, d: Definition, step: Option<string>)
    requires EntriesWellKeyed(workflows) && Gather(workflows, ReadWorkflow).Some?
    requires d in Gather(workflows, ReadWorkflow).value && (step.Some? ==> HasStep(d, step.value))
    ensures DocumentDeclares(workflows, d.workflow, d.version, step)
  {
    hide ReadVersion, HasStep, HasKey, SaysOr, Gather;
    var i := GatherMember(workflows, ReadWorkflow, d);
    var key, value := workflows[i].0, workflows[i].1;
    assert WellKeyed(value);
    var versions := Mapping(value).value;
    var j := GatherMember(versions, VersionReader(key.s), d);
    assert workflows[i] == (key, Map(versions));
    assert WellKeyed(versions[j].1);
    hide EntriesWellKeyed, WellKeyed, ReadWorkflow;
    VersionSays(key.s, versions[j].0, versions[j].1, d, step);
    var fields, steps :| versions[j] == (Str(d.version), Map(fields)) && Says(fields, "steps", Map(steps))
                         && (step.Some? ==> HasKey(steps, Str(step.value)));
    assert workflows[i] == (Str(d.workflow), Map(versions));
  }

  lemma VersionSays(workflow: string, key: Tree, value: Tree, d: Definition, step: Option<string>)
    requires WellKeyed(value) && ReadVersion(workflow, key, value).Some?
    requires d in ReadVersion(workflow, key, value).value && (step.Some? ==> HasStep(d, step.value))
    ensures d.workflow == workflow
    ensures exists fields, steps ::
              && (key, value) == (Str(d.version), Map(fields)) && Says(fields, "steps", Map(steps))
              && (step.Some? ==> HasKey(steps, Str(step.value)))
  {
    hide SaysOr, Gather, HasKey, HasStep;
    var fields := value.entries;
    assert value == Map(fields) && UniqueKeys(fields);
    hide WellKeyed, ReadVersion, UniqueKeys;
    VersionDeclares(workflow, key, fields, if step.Some? then step.value else "");
    var steps := Mapping(GetField(fields, Steps)).value;
    assert (key, value) == (Str(d.version), Map(fields)) && Says(fields, "steps", Map(steps));
  }

  lemma DeclaredFromSection(workflows: Entries, i: nat, versions: Entries, j: nat, fields: Entries, steps: Entries,
                            workflow: string, version: string, step: Option<string>)
    requires EntriesWellKeyed(workflows) && Gather(workflows, ReadWorkflow).Some?
    requires i < |workflows| && workflows[i] == (Str(workflow), Map(versions))
    requires j < |versions| && versions[j] == (Str(version), Map(fields))
    requires Says(fields, "steps", Map(steps)) && (step.Some? ==> HasKey(steps, Str(step.value)))
    ensures Declared(Gather(workflows, ReadWorkflow).value, workflow, version, step)
  {
    assert WellKeyed(workflows[i].1) && WellKeyed(versions[j].1);
    assert UniqueKeys(fields);
    GatherAccepted(workflows, ReadWorkflow, i);
    GatherAccepted(versions, VersionReader(workflow), j);
    SaysIff(fields, Steps, Null, Map(steps));
    hide WellKeyed, HasStep, HasKey, SaysOr, Gather, Only, UniqueKeys;
    VersionDeclares(workflow, Str(version), fields, if step.Some? then step.value else "");
    hide ReadVersion;
    var d := VersionReader(workflow)(Str(version), Map(fields)).value[0];
    assert d in ReadWorkflow(Str(workflow), Map(versions)).value;
    assert d in Gather(workflows, ReadWorkflow).value;
  }

  /** What counts as declared is what the workflows section of the document says. */
  lemma DeclaredIff(workflows: Entries, workflow: string, version: string, step: Option<string>)
    requires EntriesWellKeyed(workflows) && Gather(workflows, ReadWorkflow).Some?
    ensures Declared(Gather(workflows, ReadWorkflow).value, workflow, version, step)
            <==> DocumentDeclares(workflows, workflow, version, step)
  {
    hide Gather, ReadWorkflow, HasStep, EntriesWellKeyed, SaysOr, HasKey;
    var definitions := Gather(workflows, ReadWorkflow).value;
    if Declared(definitions, workflow, version, step) {
      var k :| 0 <= k < |definitions| && definitions[k].workflow == workflow && definitions[k].version == version
               && (step.Some? ==> HasStep(definitions[k], step.value));
      SectionDeclares(workflows, definitions[k], step);
    }
    if DocumentDeclares(workflows, workflow, version, step) {
      var versions, fields, steps :|
        && (Str(workflow), Map(versions)) in workflows && (Str(version), Map(fields)) in versions
        && Says(fields, "steps", Map(steps)) && (step.Some? ==> HasKey(steps, Str(step.value)));
      var i :| 0 <= i < |workflows| && workflows[i] == (Str(workflow), Map(versions));
      var j :| 0 <= j < |versions| && versions[j] == (Str(version), Map(fields));
      DeclaredFromSection(workflows, i, versions, j, fields, steps, workflow, version, step);
    }
  }

  // ----- the document ----------------------------------------------------------------------------

  /** A section is a mapping, or is left out or null and stands for an empty one. */
  predicate IsSection(f: Entries, name: string, entries: Entries) {
    Says(f, name, Map(entries)) || (Says(f, name, Null) && entries == [])
  }

  lemma IsSectionIff(f: Entries, field: Field, entries: Entries)
    requires UniqueKeys(f)
    ensures IsSection(f, Name(field), entries) <==> Mapping(GetField(f, field)) == Some(entries)
  {
    hide SaysOr, GetOr, UniqueKeys, Name;
    SaysIff(f, field, Null, Map(entries));
    SaysIff(f, field, Null, Null);
  }

  lemma {:induction false} GatherIff<T>(entries: Entries, read: (Tree, Tree) -> Option<seq<T>>)
    ensures Gather(entries, read).Some?
            <==> forall i :: 0 <= i < |entries| ==> read(entries[i].0, entries[i].1).Some?
  {
    if entries != [] {
      var n := |entries| - 1;
      GatherIff(entries[..n], read);
      if Gather(entries, read).Some? {
        forall i | 0 <= i < |entries| ensures read(entries[i].0, entries[i].1).Some? {
          GatherAccepted(entries, read, i);
        }
      }
    }
  }

  /** The experiment is for no workflow, or for a version and step the workflows section has. */
  ghost predicate InDocument(workflows: Entries, e: Experiment) {
    || e.workflow == Null || e.version == Null
    || (e.workflow.Str? && e.version.Str? && (e.step == Null || e.step.Str?)
        && DocumentDeclares(workflows, e.workflow.s, e.version.s, if e.step == Null then None else Some(e.step.s)))
  }

  lemma ScopesIff(workflows: Entries, experiments: seq<Experiment>, rules: seq<WorkflowRoute>)
    requires EntriesWellKeyed(workflows) && Gather(workflows, ReadWorkflow).Some?
    ensures ScopesDeclared(Gather(workflows, ReadWorkflow).value, experiments)
            <==> forall e :: e in experiments ==> InDocument(workflows, e)
    ensures RoutesDeclared(Gather(workflows, ReadWorkflow).value, rules)
            <==> forall r :: r in rules ==> DocumentDeclares(workflows, r.workflow, r.version, r.step)
  {
    hide Gather, ReadWorkflow, EntriesWellKeyed, Declared, DocumentDeclares;
    var definitions := Gather(workflows, ReadWorkflow).value;
    forall e: Experiment ensures ExperimentDeclared(definitions, e) <==> InDocument(workflows, e) {
      if e.workflow.Str? && e.version.Str? && (e.step.Null? || e.step.Str?) {
        DeclaredIff(workflows, e.workflow.s, e.version.s, if e.step.Null? then None else Some(e.step.s));
      }
    }
    forall r: WorkflowRoute
      ensures RouteDeclared(definitions, r) <==> DocumentDeclares(workflows, r.workflow, r.version, r.step)
    {
      DeclaredIff(workflows, r.workflow, r.version, r.step);
    }
    hide ExperimentDeclared, InDocument, RouteDeclared;
  }

  lemma SectionKeys(f: Entries)
    ensures Only(f, SECTIONS) <==> Keys(f, {"version", "routes", "experiments", "workflow_routes", "workflows"})
  {
    KeysIff(f, SECTIONS);
    hide Keys, Only;
    assert (set f | f in SECTIONS :: Name(f))
        == {"version", "routes", "experiments", "workflow_routes", "workflows"};
  }

  lemma VersionIff(f: Entries)
    requires UniqueKeys(f)
    ensures IsOne(GetField(f, ControlTree.Version))
            <==> Says(f, "version", Int(1)) || Says(f, "version", Float(1.0)) || Says(f, "version", Bool(true))
  {
    hide SaysOr, UniqueKeys, GetOr;
    SaysIff(f, ControlTree.Version, Null, Int(1));
    SaysIff(f, ControlTree.Version, Null, Float(1.0));
    SaysIff(f, ControlTree.Version, Null, Bool(true));
  }

  /** A document is accepted, as exactly this configuration, when it has no key but the five and says
      version one; the four parts are what its sections' entries read as, none refused; every experiment
      for a workflow and every rule is for a version and step the workflows section has; and no two rules
      have the same target. */
  lemma LoadsIff(f: Entries, routes: Entries, experiments: Entries, rules: Entries, workflows: Entries, c: Config)
    requires EntriesWellKeyed(f) && EntriesWellKeyed(workflows)
    requires IsSection(f, "routes", routes) && IsSection(f, "experiments", experiments)
    requires IsSection(f, "workflow_routes", rules) && IsSection(f, "workflows", workflows)
    ensures Load(Map(f)) == Some(c) <==>
            && Keys(f, {"version", "routes", "experiments", "workflow_routes", "workflows"})
            && (Says(f, "version", Int(1)) || Says(f, "version", Float(1.0)) || Says(f, "version", Bool(true)))
            && Gather(routes, ReadRoute) == Some(c.routes) && Gather(experiments, ReadExperiment) == Some(c.experiments)
            && Gather(rules, ReadWorkflowRoutes) == Some(c.workflowRoutes)
            && Gather(workflows, ReadWorkflow) == Some(c.workflows)
            && (forall e :: e in c.experiments ==> InDocument(workflows, e))
            && (forall r :: r in c.workflowRoutes ==> DocumentDeclares(workflows, r.workflow, r.version, r.step))
            && DistinctTargets(c.workflowRoutes)
  {
    assert UniqueKeys(f);
    SectionKeys(f);
    VersionIff(f);
    SectionsRead(f, routes, experiments, rules, workflows);
    hide Keys, Only, SaysOr, GetOr, Gather, DistinctTargets, InDocument, DocumentDeclares, IsOne, UniqueKeys,
      EntriesWellKeyed, ScopesDeclared, RoutesDeclared;
    if Gather(workflows, ReadWorkflow).Some? { ScopesIff(workflows, c.experiments, c.workflowRoutes); }
  }

  lemma SectionsRead(f: Entries, routes: Entries, experiments: Entries, rules: Entries, workflows: Entries)
    requires UniqueKeys(f)
    requires IsSection(f, "routes", routes) && IsSection(f, "experiments", experiments)
    requires IsSection(f, "workflow_routes", rules) && IsSection(f, "workflows", workflows)
    ensures Mapping(GetField(f, Routes)) == Some(routes) && Mapping(GetField(f, Experiments)) == Some(experiments)
    ensures Mapping(GetField(f, WorkflowRoutes)) == Some(rules) && Mapping(GetField(f, Workflows)) == Some(workflows)
  {
    hide IsSection, UniqueKeys, GetField, Mapping;
    IsSectionIff(f, Routes, routes);
    IsSectionIff(f, Experiments, experiments);
    IsSectionIff(f, WorkflowRoutes, rules);
    IsSectionIff(f, Workflows, workflows);
  }

  /** Where a mapping is expected, a value of another kind is refused. Only an empty step stands for an
      empty mapping. */
  lemma OnlyMappingsRead(raw: Entries, key: Tree, value: Tree, text: string)
    requires !value.Map?
    ensures Load(value).None? && ReadRoute(key, value).None? && ReadExperiment(key, value).None?
    ensures ReadVersion(text, key, value).None? && ReadStepRoute(text, text, key, value).None?
    ensures ReadVersionRoutes(text, key, value).None?
    ensures ReadStep(raw, key, value) == if Set(value) then None else ReadStep(raw, key, Map([]))
    ensures value != Null ==> ReadWorkflow(key, value).None? && ReadWorkflowRoutes(key, value).None?
  {
    SetIff(value);
    hide Only, Set, Truthy, LoadSections, GetField, GetOr;
  }

  /** The same for the sections of a document. */
  lemma OnlyMappingSections(f: Entries, field: Field, value: Tree)
    requires UniqueKeys(f) && !value.Map? && value != Null && Says(f, Name(field), value)
    requires field in {Routes, Experiments, WorkflowRoutes, Workflows}
    ensures Load(Map(f)).None?
  {
    hide SaysOr, GetOr, Only, UniqueKeys, LoadSections, Name;
    SaysIff(f, field, Null, value);
  }
}
