/** The nested section of workflow routes is read back as the sorted list it was written from. */
module ControlRoutes {
  import opened Prelude
  import opened Sorting
  import opened ControlTree
  import opened ControlConfig
  import opened ControlRender
  import opened ControlEntries
  import opened ControlSections

  // ----- the fields of one rule ------------------------------------------------------------------

  lemma OtherName(f: Field, g: Field)
    requires f != g
    ensures Str(Name(f)) != Str(Name(g))
  {
    if Name(f) == Name(g) { NamesDistinct(f, g); }
    hide Name;
  }

  lemma PutOther(pairs: Pairs, f: Field, value: Tree)
    requires forall i :: 0 <= i < |pairs| ==> pairs[i].0 != f
    ensures Put(Written(pairs), Str(Name(f)), value) == Written(pairs + [(f, value)])
    ensures Lookup(Written(pairs), Str(Name(f))) == None && !HasKey(Written(pairs), Str(Name(f)))
  {
    hide Name;
    hide Put;
    var entries := Written(pairs);
    forall i | 0 <= i < |entries| ensures entries[i].0 != Str(Name(f)) { OtherName(pairs[i].0, f); }
    PutFresh(entries, Str(Name(f)), value);
  }

  function RuleFields(r: WorkflowRoute): Pairs {
    [(Model, r.model)] + NonNull([(Provider, r.provider), (Note, r.note)])
  }

  lemma RuleOptional(r: WorkflowRoute)
    ensures NonNull([(Provider, r.provider), (Note, r.note)])
            == (if r.provider.Null? then [] else [(Provider, r.provider)])
               + (if r.note.Null? then [] else [(Note, r.note)])
  {
    var pairs: Pairs := [(Provider, r.provider), (Note, r.note)];
    assert pairs[1..] == [(Note, r.note)];
    assert pairs[1..][1..] == [];
    assert NonNull(pairs[1..]) == if r.note.Null? then [] else [(Note, r.note)];
  }

  lemma PutRouteWrites(r: WorkflowRoute)
    ensures PutRoute([], r) == Written(RuleFields(r))
  {
    hide Name, NonNull, Put, Written;
    RuleOptional(r);
    var model: Pairs := [(Model, r.model)];
    WrittenNothing();
    PutOther([], Model, r.model);
    assert [] + model == model;
    PutOther(model, Provider, r.provider);
    var named := if r.provider.Null? then model else model + [(Provider, r.provider)];
    PutOther(named, Note, r.note);
    assert RuleFields(r) == if r.note.Null? then named else named + [(Note, r.note)];
  }

  lemma WrittenNothing()
    ensures Written([]) == []
  {}

  // ----- the fields of one version ---------------------------------------------------------------

  function StepsTree(steps: seq<WorkflowRoute>): Entries {
    seq(|steps|, i requires 0 <= i < |steps| => (Str(StepText(steps[i])), Map(PutRoute([], steps[i]))))
  }

  function VersionFixed(own: Option<WorkflowRoute>): Pairs { if own.None? then [] else [(Model, own.value.model)] }

  function VersionOptional(own: Option<WorkflowRoute>, steps: Tree): Pairs {
    if own.None? then [(Steps, steps)]
    else [(Provider, own.value.provider), (Note, own.value.note), (Steps, steps)]
  }

  function StepsOrNull(steps: seq<WorkflowRoute>): Tree { if steps == [] then Null else Map(StepsTree(steps)) }

  /** What a version's mapping holds: its own rule, then the rules of its steps. */
  function VersionFields(own: Option<WorkflowRoute>, steps: seq<WorkflowRoute>): Entries {
    Node(VersionFixed(own), VersionOptional(own, StepsOrNull(steps)))
  }

  function OwnList(own: Option<WorkflowRoute>): seq<WorkflowRoute> { if own.None? then [] else [own.value] }

  predicate RouteFits(workflow: string, version: string, r: WorkflowRoute) {
    WorkflowRouteOk(r) && r.workflow == workflow && r.version == version && r.ts == 0.0
  }

  predicate RoutesFit(workflow: string, version: string, own: Option<WorkflowRoute>, steps: seq<WorkflowRoute>) {
    && (own.Some? ==> RouteFits(workflow, version, own.value) && own.value.step.None?)
    && (forall i :: 0 <= i < |steps| ==> RouteFits(workflow, version, steps[i]) && steps[i].step.Some?)
  }

  lemma StepRouteReadBack(workflow: string, version: string, r: WorkflowRoute)
    requires RouteFits(workflow, version, r) && r.step.Some?
    ensures ReadStepRoute(workflow, version, Str(r.step.value), Map(PutRoute([], r))) == Some([r])
  {
    var fixed: Pairs := [(Model, r.model)];
    var optional: Pairs := [(Provider, r.provider), (Note, r.note)];
    PutRouteWrites(r);
    assert PutRoute([], r) == Node(fixed, optional);
    assert Within(fixed, STEP_ROUTE_FIELDS) && Within(optional, STEP_ROUTE_FIELDS);
    NodeOnly(fixed, optional, STEP_ROUTE_FIELDS);
    assert DistinctFields(fixed) && DistinctFields(optional);
    FixedField(fixed, optional, 0);
    OptionalField(fixed, optional, 0);
    OptionalField(fixed, optional, 1);
  }

  lemma VersionRead(own: Option<WorkflowRoute>, steps: seq<WorkflowRoute>)
    ensures var f := VersionFields(own, steps);
            && Only(f, VERSION_ROUTE_FIELDS) && GetField(f, Steps) == StepsOrNull(steps)
            && (own.None? ==> GetField(f, Model) == Null)
            && (own.Some? ==> GetField(f, Model) == own.value.model && GetField(f, Provider) == own.value.provider
                              && GetField(f, Note) == own.value.note)
  {
    var fixed, optional := VersionFixed(own), VersionOptional(own, StepsOrNull(steps));
    assert Within(fixed, VERSION_ROUTE_FIELDS) && Within(optional, VERSION_ROUTE_FIELDS);
    NodeOnly(fixed, optional, VERSION_ROUTE_FIELDS);
    assert DistinctFields(fixed) && DistinctFields(optional);
    assert VersionFields(own, steps) == Node(fixed, optional);
    if own.Some? {
      FixedField(fixed, optional, 0);
      OptionalField(fixed, optional, 0);
      OptionalField(fixed, optional, 1);
      OptionalField(fixed, optional, 2);
    } else {
      OptionalField(fixed, optional, 0);
      NoModel(StepsOrNull(steps));
    }
  }

  lemma NoModel(steps: Tree)
    ensures Lookup(Node([], [(Steps, steps)]), Str(Name(Model))) == None
  {
    hide Name, Lookup, Written, NonNull, PairAt;
    var optional: Pairs := [(Steps, steps)];
    LookupWritten([] + NonNull(optional), Model);
    assert [] + NonNull(optional) == NonNull(optional);
    PairAtMissing(optional, Model);
  }

  lemma StepsReadBack(workflow: string, version: string, steps: seq<WorkflowRoute>)
    requires RoutesFit(workflow, version, None, steps)
    ensures Gather(StepsTree(steps), StepRouteReader(workflow, version)) == Some(steps)
  {
    var tree := StepsTree(steps);
    assert |tree| == |steps|;
    forall i | 0 <= i < |steps|
      ensures StepRouteReader(workflow, version)(tree[i].0, tree[i].1) == Some([steps[i]])
    {
      assert RouteFits(workflow, version, steps[i]) && steps[i].step.Some?;
      assert tree[i] == (Str(steps[i].step.value), Map(PutRoute([], steps[i])));
      StepRouteReadBack(workflow, version, steps[i]);
      StepRouteReads(workflow, version, tree[i].0, tree[i].1);
    }
    GatherEach(tree, steps, StepRouteReader(workflow, version));
  }

  lemma StepRouteReads(workflow: string, version: string, key: Tree, value: Tree)
    ensures StepRouteReader(workflow, version)(key, value) == ReadStepRoute(workflow, version, key, value)
  {
  }

  lemma VersionRouteReads(workflow: string, key: Tree, value: Tree)
    ensures VersionRouteReader(workflow)(key, value) == ReadVersionRoutes(workflow, key, value)
  {
  }

  /** A version's mapping is read back as its own rule followed by the rules of its steps. */
  lemma VersionRoutesReadBack(workflow: string, version: string, own: Option<WorkflowRoute>, steps: seq<WorkflowRoute>)
    requires version != "" && RoutesFit(workflow, version, own, steps)
    ensures ReadVersionRoutes(workflow, Str(version), Map(VersionFields(own, steps))) == Some(OwnList(own) + steps)
  {
    var f := VersionFields(own, steps);
    VersionRead(own, steps);
    assert RoutesFit(workflow, version, None, steps);
    StepsReadBack(workflow, version, steps);
    assert ReadOwnRoute(workflow, version, f) == Some(OwnList(own));
    assert Mapping(StepsOrNull(steps)) == Some(StepsTree(steps)) by {
      if steps == [] { assert StepsTree(steps) == []; }
    }
  }

  // ----- growing one version ---------------------------------------------------------------------

  /** The mapping of a version without its steps, and with them. */
  lemma {:induction false} NonNullAppend(pairs: Pairs, f: Field, value: Tree)
    ensures NonNull(pairs + [(f, value)]) == NonNull(pairs) + if value.Null? then [] else [(f, value)]
  {
    if pairs == [] {
      assert pairs + [(f, value)] == [(f, value)];
      assert [(f, value)][1..] == [];
    } else {
      assert (pairs + [(f, value)])[1..] == pairs[1..] + [(f, value)];
      NonNullAppend(pairs[1..], f, value);
    }
  }

  function OwnPairs(own: Option<WorkflowRoute>): Pairs {
    if own.None? then [] else RuleFields(own.value)
  }

  lemma VersionFieldsSplit(own: Option<WorkflowRoute>, steps: Tree)
    ensures Node(VersionFixed(own), VersionOptional(own, steps))
            == Written(OwnPairs(own)) + if steps.Null? then [] else [(Str(Name(Steps)), steps)]
    ensures forall i :: 0 <= i < |OwnPairs(own)| ==> OwnPairs(own)[i].0 != Steps
  {
    hide Name;
    if own.Some? {
      var optional: Pairs := [(Provider, own.value.provider), (Note, own.value.note)];
      NonNullAppend(optional, Steps, steps);
      assert VersionOptional(own, steps) == optional + [(Steps, steps)];
      RuleOptional(own.value);
      hide NonNull;
    } else {
      NonNullAppend([], Steps, steps);
      assert VersionOptional(own, steps) == [] + [(Steps, steps)];
    }
  }

  lemma StepsTreeGrows(steps: seq<WorkflowRoute>, r: WorkflowRoute)
    requires r.step.Some? && forall i :: 0 <= i < |steps| ==> StepText(steps[i]) != r.step.value
    ensures Child(StepsTree(steps), Str(r.step.value)) == []
    ensures Put(StepsTree(steps), Str(r.step.value), Map(PutRoute([], r))) == StepsTree(steps + [r])
  {
    hide PutRoute;
    PutFresh(StepsTree(steps), Str(r.step.value), Map(PutRoute([], r)));
  }

  lemma AddStep(own: Option<WorkflowRoute>, steps: seq<WorkflowRoute>, r: WorkflowRoute)
    requires r.step.Some? && forall i :: 0 <= i < |steps| ==> StepText(steps[i]) != r.step.value
    ensures AddToVersion(VersionFields(own, steps), r) == VersionFields(own, steps + [r])
  {
    var key := Str(Name(Steps));
    var base, fields := Written(OwnPairs(own)), VersionFields(own, steps);
    VersionFieldsSplit(own, StepsOrNull(steps));
    VersionFieldsSplit(own, StepsOrNull(steps + [r]));
    assert StepsOrNull(steps + [r]) == Map(StepsTree(steps + [r]));
    PutOther(OwnPairs(own), Steps, Map(StepsTree(steps + [r])));
    StepsTreeGrows(steps, r);
    PutFresh(base, key, Map(StepsTree(steps + [r])));
    if steps == [] {
      assert StepsOrNull(steps) == Null && StepsTree(steps) == [];
      assert fields == base;
    } else {
      assert StepsOrNull(steps) == Map(StepsTree(steps));
      PutLast(base, key, Map(StepsTree(steps)), Map(StepsTree(steps + [r])));
    }
  }

  function FirstOwn(r: WorkflowRoute): Option<WorkflowRoute> { if r.step.None? then Some(r) else None }

  function FirstSteps(r: WorkflowRoute): seq<WorkflowRoute> { if r.step.None? then [] else [r] }

  lemma AddFirst(r: WorkflowRoute)
    ensures AddToVersion([], r) == VersionFields(FirstOwn(r), FirstSteps(r))
  {
    VersionFieldsSplit(None, Null);
    assert VersionFields(None, []) == [];
    if r.step.None? {
      VersionFieldsSplit(Some(r), Null);
      PutRouteWrites(r);
      assert PutRoute([], r) + [] == PutRoute([], r);
    } else {
      AddStep(None, [], r);
      assert [] + [r] == [r];
    }
  }

  // ----- folding the section ---------------------------------------------------------------------

  /** The tree so far ends in one version of one workflow, which is still growing. */
  datatype Cursor = Cursor(before: Entries, workflow: string, versions: Entries, version: string,
                           own: Option<WorkflowRoute>, steps: seq<WorkflowRoute>)

  function CursorTree(c: Cursor): Entries {
    c.before + [(Str(c.workflow), Map(c.versions + [(Str(c.version), Map(VersionFields(c.own, c.steps)))]))]
  }

  predicate CursorOk(c: Cursor) {
    && c.workflow != "" && c.version != ""
    && KeysBelow(c.before, c.workflow) && KeysBelow(c.versions, c.version)
    && RoutesFit(c.workflow, c.version, c.own, c.steps) && OwnList(c.own) + c.steps != []
    && Gather(c.before, ReadWorkflowRoutes).Some? && Gather(c.versions, VersionRouteReader(c.workflow)).Some?
  }

  function CursorRoutes(c: Cursor): seq<WorkflowRoute>
    requires CursorOk(c)
  {
    Gather(c.before, ReadWorkflowRoutes).value
    + (Gather(c.versions, VersionRouteReader(c.workflow)).value + (OwnList(c.own) + c.steps))
  }

  lemma {:induction false} CursorVersions(c: Cursor)
    requires CursorOk(c)
    ensures var versions := c.versions + [(Str(c.version), Map(VersionFields(c.own, c.steps)))];
            && Gather(versions, VersionRouteReader(c.workflow))
               == Some(Gather(c.versions, VersionRouteReader(c.workflow)).value + (OwnList(c.own) + c.steps))
            && KeysUpTo(versions, c.version)
  {
    var key, value := Str(c.version), Map(VersionFields(c.own, c.steps));
    VersionRoutesReadBack(c.workflow, c.version, c.own, c.steps);
    VersionRouteReads(c.workflow, key, value);
    GatherAppend(c.versions, key, value, VersionRouteReader(c.workflow));
    KeysGrow(c.versions, c.version, value);
  }

  lemma {:induction false} CursorReads(c: Cursor)
    requires CursorOk(c)
    ensures Gather(CursorTree(c), ReadWorkflowRoutes) == Some(CursorRoutes(c))
    ensures KeysUpTo(CursorTree(c), c.workflow)
  {
    CursorVersions(c);
    var versions := c.versions + [(Str(c.version), Map(VersionFields(c.own, c.steps)))];
    assert ReadWorkflowRoutes(Str(c.workflow), Map(versions)) == Gather(versions, VersionRouteReader(c.workflow));
    GatherAppend(c.before, Str(c.workflow), Map(versions), ReadWorkflowRoutes);
    KeysGrow(c.before, c.workflow, Map(versions));
  }

  lemma GrowVersion(c: Cursor, r: WorkflowRoute)
    requires CursorOk(c) && RouteFits(c.workflow, c.version, r)
    requires r.step.Some? && forall i :: 0 <= i < |c.steps| ==> StepText(c.steps[i]) != r.step.value
    ensures var d := c.(steps := c.steps + [r]);
            CursorOk(d) && CursorTree(d) == AddWorkflowRoute(CursorTree(c), r)
            && CursorRoutes(d) == CursorRoutes(c) + [r]
  {
    var d := c.(steps := c.steps + [r]);
    assert RoutesFit(d.workflow, d.version, d.own, d.steps);
    AddStep(c.own, c.steps, r);
    var previous, next := Map(VersionFields(c.own, c.steps)), Map(VersionFields(d.own, d.steps));
    NotAmong(c.before, c.workflow);
    NotAmong(c.versions, c.version);
    PutLast(c.versions, Str(c.version), previous, next);
    PutLast(c.before, Str(c.workflow), Map(c.versions + [(Str(c.version), previous)]),
            Map(c.versions + [(Str(c.version), next)]));
    assert CursorTree(d) == AddWorkflowRoute(CursorTree(c), r);
    Regroup(Gather(c.before, ReadWorkflowRoutes).value, Gather(c.versions, VersionRouteReader(c.workflow)).value,
            OwnList(c.own), c.steps, r);
  }

  lemma Regroup(a: seq<WorkflowRoute>, b: seq<WorkflowRoute>, own: seq<WorkflowRoute>,
                steps: seq<WorkflowRoute>, r: WorkflowRoute)
    ensures a + (b + (own + (steps + [r]))) == a + (b + (own + steps)) + [r]
  {
  }

  lemma FirstFits(workflow: string, version: string, r: WorkflowRoute)
    requires RouteFits(workflow, version, r)
    ensures RoutesFit(workflow, version, FirstOwn(r), FirstSteps(r)) && OwnList(FirstOwn(r)) + FirstSteps(r) == [r]
  {
  }

  lemma NewVersion(c: Cursor, r: WorkflowRoute)
    requires CursorOk(c) && RouteFits(c.workflow, r.version, r) && r.version != "" && r.version != c.version
    requires LexLeq(c.version, r.version)
    ensures var d := Cursor(c.before, c.workflow, c.versions + [(Str(c.version), Map(VersionFields(c.own, c.steps)))],
                            r.version, FirstOwn(r), FirstSteps(r));
            CursorOk(d) && CursorTree(d) == AddWorkflowRoute(CursorTree(c), r)
            && CursorRoutes(d) == CursorRoutes(c) + [r]
  {
    hide Put;
    hide Lookup;
    hide LexLeq;
    hide Gather;
    hide VersionFields;
    hide AddToVersion;
    hide RoutesFit;
    hide KeysUpTo;
    hide WorkflowRouteOk;
    var versions := c.versions + [(Str(c.version), Map(VersionFields(c.own, c.steps)))];
    var d := Cursor(c.before, c.workflow, versions, r.version, FirstOwn(r), FirstSteps(r));
    CursorVersions(c);
    KeysMove(versions, c.version, r.version);
    FirstFits(c.workflow, r.version, r);
    AddFirst(r);
    var node := Map(AddToVersion([], r));
    NotAmong(c.before, c.workflow);
    PutFresh(versions, Str(r.version), node);
    PutLast(c.before, Str(c.workflow), Map(versions), Map(versions + [(Str(r.version), node)]));
    assert CursorTree(d) == AddWorkflowRoute(CursorTree(c), r);
  }

  lemma NewWorkflow(tree: Entries, routes: seq<WorkflowRoute>, r: WorkflowRoute)
    requires Gather(tree, ReadWorkflowRoutes) == Some(routes) && KeysBelow(tree, r.workflow)
    requires WorkflowRouteOk(r) && r.ts == 0.0
    ensures var d := Cursor(tree, r.workflow, [], r.version, FirstOwn(r), FirstSteps(r));
            CursorOk(d) && CursorTree(d) == AddWorkflowRoute(tree, r) && CursorRoutes(d) == routes + [r]
  {
    var d := Cursor(tree, r.workflow, [], r.version, FirstOwn(r), FirstSteps(r));
    assert RouteFits(r.workflow, r.version, r) && r.workflow != "" && r.version != "";
    FirstFits(r.workflow, r.version, r);
    AddFirst(r);
    assert KeysBelow([], r.version);
    assert Gather([], VersionRouteReader(r.workflow)) == Some([]);
    var node := Map(AddToVersion([], r));
    assert !HasKey([], Str(r.version));
    PutFresh([], Str(r.version), node);
    NotAmong(tree, r.workflow);
    PutFresh(tree, Str(r.workflow), Map([] + [(Str(r.version), node)]));
    assert CursorTree(d) == AddWorkflowRoute(tree, r);
  }

  predicate RoutesOrdered(rs: seq<WorkflowRoute>) {
    forall i, j :: 0 <= i < j < |rs| ==> WorkflowRouteLeq(rs[i], rs[j]) && !SameTarget(rs[i], rs[j])
  }

  predicate WorkflowRoutesOk(rs: seq<WorkflowRoute>) {
    forall i :: 0 <= i < |rs| ==> WorkflowRouteOk(rs[i]) && rs[i].ts == 0.0
  }

  lemma CursorLast(c: Cursor)
    requires CursorOk(c)
    ensures var routes := CursorRoutes(c);
            && routes != [] && routes[|routes| - 1].workflow == c.workflow && routes[|routes| - 1].version == c.version
            && (c.steps == [] ==> routes[|routes| - 1].step.None?)
            && (c.steps != [] ==> routes[|routes| - 1].step.Some? && StepText(routes[|routes| - 1]) != "")
            && (forall i :: 0 <= i < |c.steps| ==> c.steps[i] in routes)
  {
    hide Gather;
    hide KeysBelow;
    var routes, n := CursorRoutes(c), |CursorRoutes(c)|;
    if c.steps != [] {
      assert routes[n - 1] == c.steps[|c.steps| - 1];
    } else {
      assert routes[n - 1] == c.own.value;
    }
  }

  lemma NextStep(c: Cursor, routes: seq<WorkflowRoute>, r: WorkflowRoute)
    requires CursorOk(c) && CursorRoutes(c) == routes && RoutesOrdered(routes + [r]) && WorkflowRouteOk(r)
    requires r.workflow == c.workflow && r.version == c.version
    ensures r.step.Some? && forall i :: 0 <= i < |c.steps| ==> StepText(c.steps[i]) != r.step.value
  {
    CursorLast(c);
    var all, n := routes + [r], |routes|;
    assert all[n - 1] == routes[n - 1] && all[n] == r;
    hide CursorRoutes;
    assert RoutesFit(c.workflow, c.version, c.own, c.steps);
    hide CursorOk;
    assert WorkflowRouteLeq(all[n - 1], all[n]) && !SameTarget(all[n - 1], all[n]);
    forall i | 0 <= i < |c.steps| ensures StepText(c.steps[i]) != r.step.value {
      assert c.steps[i] in routes;
      var k :| 0 <= k < n && routes[k] == c.steps[i];
      assert !SameTarget(all[k], all[n]);
    }
  }

  lemma {:induction false} RoutesFold(rs: seq<WorkflowRoute>) returns (c: Cursor)
    requires rs != [] && RoutesOrdered(rs) && WorkflowRoutesOk(rs)
    ensures CursorOk(c) && CursorTree(c) == RenderWorkflowRoutes(rs) && CursorRoutes(c) == rs
  {
    var n := |rs| - 1;
    var r, rest := rs[n], rs[..n];
    assert rs == rest + [r];
    assert WorkflowRouteOk(r) && r.ts == 0.0;
    assert RenderWorkflowRoutes(rs) == AddWorkflowRoute(RenderWorkflowRoutes(rest), r);
    if n == 0 {
      assert RenderWorkflowRoutes(rest) == [];
      assert Gather([], ReadWorkflowRoutes) == Some([]);
      assert KeysBelow([], r.workflow);
      NewWorkflow([], [], r);
      c := Cursor([], r.workflow, [], r.version, FirstOwn(r), FirstSteps(r));
    } else {
      assert RoutesOrdered(rest);
      assert WorkflowRoutesOk(rest);
      c := RoutesFold(rest);
      CursorLast(c);
      assert WorkflowRouteLeq(rs[n - 1], r);
      assert RouteFits(r.workflow, r.version, r) && r.version != "";
      if r.workflow != c.workflow {
        var tree := CursorTree(c);
        CursorReads(c);
        KeysMove(tree, c.workflow, r.workflow);
        NewWorkflow(tree, rest, r);
        c := Cursor(tree, r.workflow, [], r.version, FirstOwn(r), FirstSteps(r));
      } else if r.version != c.version {
        NewVersion(c, r);
        c := Cursor(c.before, c.workflow, c.versions + [(Str(c.version), Map(VersionFields(c.own, c.steps)))],
                    r.version, FirstOwn(r), FirstSteps(r));
      } else {
        NextStep(c, rest, r);
        GrowVersion(c, r);
        c := c.(steps := c.steps + [r]);
      }
    }
  }

  lemma WorkflowRoutesReadBack(rs: seq<WorkflowRoute>)
    requires RoutesOrdered(rs) && WorkflowRoutesOk(rs)
    ensures Gather(RenderWorkflowRoutes(rs), ReadWorkflowRoutes) == Some(rs)
  {
    if rs != [] {
      var c := RoutesFold(rs);
      CursorReads(c);
    }
  }
}
