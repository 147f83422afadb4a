/** The fragment a proposal carries is one the control parser accepts. */
module ProposalSafety {
  import opened Prelude
  import opened Sorting
  import opened ControlTree
  import opened ControlConfig
  import opened ControlRender
  import opened ControlEntries
  import opened ControlSections
  import opened Proposal
  import Identity
  import Text

  // ----- the characters of step names ------------------------------------------------------------

  predicate Clean(s: string) { forall i :: 0 <= i < |s| ==> Text.IsIdentifierChar(s[i]) && !('A' <= s[i] <= 'Z') }

  predicate Allowed(s: string) { forall i :: 0 <= i < |s| ==> Text.IsIdentifierChar(s[i]) }

  lemma {:induction false} CollapseAllowed(s: string, inRun: bool)
    ensures Allowed(Collapse(s, inRun))
  {
    if s != "" { CollapseAllowed(s[1..], !Text.IsIdentifierChar(s[0])); }
  }

  lemma {:induction false} StripLeftAllowed(s: string)
    requires Allowed(s)
    ensures Allowed(StripLeft(s))
  {
    if s != "" && s[0] == '-' { StripLeftAllowed(s[1..]); }
  }

  lemma {:induction false} StripRightAllowed(s: string)
    requires Allowed(s)
    ensures Allowed(StripRight(s))
  {
    if s != "" && s[|s| - 1] == '-' { StripRightAllowed(s[..|s| - 1]); }
  }

  lemma BaseNameClean(title: string)
    ensures Clean(BaseName(title))
  {
    var collapsed := Collapse(DropTag(BeforeBracket(title)), false);
    CollapseAllowed(DropTag(BeforeBracket(title)), false);
    StripLeftAllowed(collapsed);
    StripRightAllowed(StripLeft(collapsed));
    hide Collapse;
    hide StripLeft;
    hide StripRight;
    hide BeforeBracket;
  }

  /** How long the `j`th candidate is: the base, and from the second on a dash and the number. */
  function CandidateLength(base: string, j: nat): nat { |base| + if j == 1 then 0 else 1 + |Text.Decimal(j)| }

  /** A proposed step name is lower-case text of identifier characters. An application can report it as
      its step exactly when its base starts with a letter or digit and is short enough, together with the
      suffix of the first free candidate if names before it took the base. */
  lemma NameIsIdentifierIff(title: string, used: set<string>)
    ensures Clean(NameFor(title, used))
    ensures var base := BaseName(title);
            Identity.IsIdentifier(NameFor(title, used))
            <==> Text.IsAlnum(base[0]) && CandidateLength(base, FirstFree(base, used, 1)) <= Identity.MAX_ID_BYTES
    ensures BaseName(title) !in used ==>
              (Identity.IsIdentifier(NameFor(title, used))
               <==> Text.IsAlnum(BaseName(title)[0]) && |BaseName(title)| <= Identity.MAX_ID_BYTES)
  {
    BaseNameClean(title);
    var base, name := BaseName(title), NameFor(title, used);
    hide BaseName;
    var j := FirstFree(base, used, 1);
    assert name == Candidate(base, j) && |name| == CandidateLength(base, j);
    assert name[0] == base[0];
  }

  /** A label that starts with a dot yields a step name no application can report. */
  lemma SomeNamesAreUnreportable()
    ensures NameFor(".x", {}) == ".x" && !Identity.IsIdentifier(NameFor(".x", {}))
  {
    assert BeforeBracket(".x") == ".x";
    assert Collapse(".x", false) == ".x";
    assert StripLeft(".x") == ".x" && StripRight(".x") == ".x";
    assert Lower(".x") == ".x";
  }

  // ----- writing a key twice ---------------------------------------------------------------------

  function StepEntries(steps: seq<StepDefinition>): (entries: Entries)
    ensures |entries| == |steps|
    ensures forall i :: 0 <= i < |steps| ==> entries[i] == (Str(steps[i].name), StepNode(steps[i]))
  {
    seq(|steps|, i requires 0 <= i < |steps| => (Str(steps[i].name), StepNode(steps[i])))
  }

  lemma {:induction false} PutOverwrites(steps: seq<StepDefinition>, s: StepDefinition)
    ensures Put(StepEntries(steps), Str(s.name), StepNode(s)) == StepEntries(Overwrite(steps, s))
  {
    hide StepNode;
    if steps != [] {
      assert StepEntries(steps)[1..] == StepEntries(steps[1..]);
      if steps[0].name != s.name { PutOverwrites(steps[1..], s); }
    }
  }

  lemma {:induction false} RenderedOnce(steps: seq<StepDefinition>)
    ensures RenderSteps(steps) == StepEntries(LastOfEach(steps))
  {
    hide StepNode;
    hide Put;
    if steps != [] {
      var n := |steps| - 1;
      RenderedOnce(steps[..n]);
      PutOverwrites(LastOfEach(steps[..n]), steps[n]);
    }
  }

  ghost predicate NamesOnce(steps: seq<StepDefinition>) {
    forall i, j :: 0 <= i < j < |steps| ==> steps[i].name != steps[j].name
  }

  ghost function NameSet(steps: seq<StepDefinition>): set<string> { set s | s in steps :: s.name }

  lemma NameSetSplit(steps: seq<StepDefinition>, rest: seq<StepDefinition>)
    ensures NameSet(steps + rest) == NameSet(steps) + NameSet(rest)
  {
  }

  lemma NotNamed(steps: seq<StepDefinition>, name: string)
    requires name !in NameSet(steps)
    ensures forall j :: 0 <= j < |steps| ==> steps[j].name != name
  {
    forall j | 0 <= j < |steps| ensures steps[j].name != name { assert steps[j] in steps; }
  }

  lemma NamedOnce(head: StepDefinition, rest: seq<StepDefinition>)
    ensures NamesOnce([head] + rest) <==> NamesOnce(rest) && head.name !in NameSet(rest)
  {
    var all := [head] + rest;
    assert forall i :: 0 <= i < |rest| ==> all[i + 1] == rest[i];
    if NamesOnce(all) {
      forall i, j | 0 <= i < j < |rest| ensures rest[i].name != rest[j].name {
        assert all[i + 1].name != all[j + 1].name;
      }
      forall s | s in rest ensures s.name != head.name {
        var i :| 0 <= i < |rest| && rest[i] == s;
        assert all[0].name != all[i + 1].name;
      }
    }
    if head.name !in NameSet(rest) { NotNamed(rest, head.name); }
  }

  /** Overwriting adds the name, keeps it unique, and brings in nothing but the new step. */
  lemma {:induction false} OverwriteFacts(steps: seq<StepDefinition>, s: StepDefinition)
    requires NamesOnce(steps)
    ensures NamesOnce(Overwrite(steps, s)) && NameSet(Overwrite(steps, s)) == NameSet(steps) + {s.name}
    ensures forall x :: x in Overwrite(steps, s) ==> x == s || x in steps
  {
    if steps == [] {
      assert [s] == [s] + [];
    } else {
      var head, tail := steps[0], steps[1..];
      assert steps == [head] + tail;
      hide NamesOnce;
      NamedOnce(head, tail);
      NameSetSplit([head], tail);
      assert NameSet([head]) == {head.name} && NameSet([s]) == {s.name};
      if head.name == s.name {
        NamedOnce(s, tail);
        NameSetSplit([s], tail);
      } else {
        OverwriteFacts(tail, s);
        NamedOnce(head, Overwrite(tail, s));
        NameSetSplit([head], Overwrite(tail, s));
      }
    }
  }

  /** After all writes each name is there once, and nothing else is. */
  lemma {:induction false} LastOfEachFacts(steps: seq<StepDefinition>)
    ensures NamesOnce(LastOfEach(steps)) && NameSet(LastOfEach(steps)) == NameSet(steps)
    ensures forall x :: x in LastOfEach(steps) ==> x in steps
  {
    if steps != [] {
      var rest, last := steps[..|steps| - 1], steps[|steps| - 1];
      assert LastOfEach(steps) == Overwrite(LastOfEach(rest), last);
      LastOfEachFacts(rest);
      OverwriteFacts(LastOfEach(rest), last);
      assert steps == rest + [last];
      NameSetSplit(rest, [last]);
      assert NameSet([last]) == {last.name};
    }
  }

  lemma LastOfEachNonEmpty(steps: seq<StepDefinition>)
    requires steps != []
    ensures LastOfEach(steps) != []
  {
    LastOfEachFacts(steps);
    assert steps[0].name in NameSet(steps);
    assert NameSet([]) == {};
  }

  // ----- the definition is one the parser accepts ------------------------------------------------

  lemma StepIsOk(nodes: seq<FamilyNode>, edges: seq<FamilyEdge>, node: FamilyNode)
    requires Closed(NameNodes(nodes).names, edges) && node.title in NameNodes(nodes).names
    ensures var names := NameNodes(nodes).names;
            var s := StepFor(names, edges, node);
            && StepOk(s)
            && forall i :: 0 <= i < |s.predecessors| ==>
                             exists m :: 0 <= m < |nodes| && nodes[m].title in names
                                         && StepFor(names, edges, nodes[m]).name == s.predecessors[i]
  {
    NamesInjective(nodes);
    var naming := NameNodes(nodes);
    var names := naming.names;
    var s := StepFor(names, edges, node);
    var listed := PredecessorsOf(names, edges, s.name);
    SortPermutes(listed, ByText(Same()));
    assert s.name != "" && s.name == names[node.title];
    hide NameNodes;
    hide PredecessorsOf;
    hide Sort;
    forall i | 0 <= i < |s.predecessors|
      ensures s.predecessors[i] != "" && s.predecessors[i] != s.name
      ensures exists m :: 0 <= m < |nodes| && nodes[m].title in names
                          && StepFor(names, edges, nodes[m]).name == s.predecessors[i]
    {
      var p := s.predecessors[i];
      assert p in s.predecessors && p in listed;
      PredecessorsExact(names, edges, s.name, p);
      var e :| 0 <= e < |edges| && names[edges[e].source] == p && names[edges[e].target] == s.name;
      NamedInFamily(nodes, edges[e].source);
      var m :| 0 <= m < |nodes| && nodes[m].title == edges[e].source;
      assert StepFor(names, edges, nodes[m]).name == p;
    }
  }

  lemma StepOfFamily(nodes: seq<FamilyNode>, edges: seq<FamilyEdge>, s: StepDefinition)
    requires Closed(NameNodes(nodes).names, edges) && s in FamilySteps(nodes, edges)
    ensures StepOk(s)
    ensures forall j :: 0 <= j < |s.predecessors| ==> s.predecessors[j] in NameSet(FamilySteps(nodes, edges))
  {
    NamesInjective(nodes);
    var names, all := NameNodes(nodes).names, FamilySteps(nodes, edges);
    assert all == StepsFor(names, edges, nodes);
    var k :| 0 <= k < |all| && all[k] == s;
    assert nodes[k].title in names;
    StepIsOk(nodes, edges, nodes[k]);
    forall j | 0 <= j < |s.predecessors| ensures s.predecessors[j] in NameSet(all) {
      var m :| 0 <= m < |nodes| && nodes[m].title in names
               && StepFor(names, edges, nodes[m]).name == s.predecessors[j];
      assert all[m] in all;
    }
  }

  lemma DefinitionIsOk(nodes: seq<FamilyNode>, edges: seq<FamilyEdge>, workflow: string, version: string)
    requires Closed(NameNodes(nodes).names, edges) && nodes != [] && workflow != "" && version != ""
    ensures DefinitionOk(DefinitionFor(nodes, edges, workflow, version))
  {
    var all, d := FamilySteps(nodes, edges), DefinitionFor(nodes, edges, workflow, version);
    assert d == Definition(workflow, version, LastOfEach(all));
    assert |all| == |nodes|;
    LastOfEachFacts(all);
    LastOfEachNonEmpty(all);
    forall i | 0 <= i < |d.steps|
      ensures StepOk(d.steps[i])
      ensures forall j :: 0 <= j < |d.steps[i].predecessors| ==> HasStep(d, d.steps[i].predecessors[j])
    {
      assert d.steps[i] in d.steps;
      StepOfFamily(nodes, edges, d.steps[i]);
      forall j | 0 <= j < |d.steps[i].predecessors| ensures HasStep(d, d.steps[i].predecessors[j]) {
        NamedStep(d, d.steps[i].predecessors[j]);
      }
    }
  }

  lemma NamedStep(d: Definition, name: string)
    requires name in NameSet(d.steps)
    ensures HasStep(d, name)
  {
    var s :| s in d.steps && s.name == name;
    var i :| 0 <= i < |d.steps| && d.steps[i] == s;
  }

  // ----- the fragment loads ----------------------------------------------------------------------

  /** The fragment as a document of its own: the version and the proposed workflows. */
  function FragmentDocument(workflows: Entries): Tree {
    Map(Written([(Version, Int(VERSION)), (Workflows, Map(workflows))]))
  }

  lemma FragmentSections(workflows: Entries)
    ensures Load(FragmentDocument(workflows)) == LoadSections([], [], [], workflows)
  {
    var pairs: Pairs := [(Version, Int(VERSION)), (Workflows, Map(workflows))];
    var f := Written(pairs);
    assert DistinctFields(pairs) && Within(pairs, SECTIONS);
    OnlyWritten(pairs, SECTIONS);
    LookupWritten(pairs, Version);
    LookupWritten(pairs, Workflows);
    LookupWritten(pairs, Routes);
    LookupWritten(pairs, Experiments);
    LookupWritten(pairs, WorkflowRoutes);
    PairAtIndex(pairs, 0);
    PairAtIndex(pairs, 1);
    PairAtAbsent(pairs, Routes);
    PairAtAbsent(pairs, Experiments);
    PairAtAbsent(pairs, WorkflowRoutes);
    assert FragmentDocument(workflows) == Map(f);
  }

  /** The workflows of the fragment, as `BuildFragment` writes them. */
  function FragmentOf(nodes: seq<FamilyNode>, edges: seq<FamilyEdge>, workflow: string, version: string): Entries
    requires Closed(NameNodes(nodes).names, edges)
  {
    [(Str(workflow), Map([(Str(version), Map(Written([(Steps, Map(RenderSteps(FamilySteps(nodes, edges))))])))]))]
  }

  lemma FragmentIsRendered(nodes: seq<FamilyNode>, edges: seq<FamilyEdge>, workflow: string, version: string)
    requires Closed(NameNodes(nodes).names, edges)
    ensures FragmentOf(nodes, edges, workflow, version)
            == RenderDefinitions([DefinitionFor(nodes, edges, workflow, version)])
  {
    var d := DefinitionFor(nodes, edges, workflow, version);
    var all := FamilySteps(nodes, edges);
    assert d == Definition(workflow, version, LastOfEach(all));
    RenderedOnce(all);
    LastOfEachFacts(all);
    StepKeys(LastOfEach(all));
    assert RenderSteps(d.steps) == StepEntries(d.steps);
    assert FragmentOf(nodes, edges, workflow, version) == [(Str(workflow), Map([(Str(version), VersionNode(d))]))];
    RenderOne(d);
  }

  lemma RenderOne(d: Definition)
    ensures RenderDefinitions([d]) == [(Str(d.workflow), Map([(Str(d.version), VersionNode(d))]))]
  {
    hide VersionNode;
    assert [d][..0] == [];
    assert RenderDefinitions([]) == [];
  }

  lemma EmptyFamilyRefused(nodes: seq<FamilyNode>, edges: seq<FamilyEdge>, workflow: string, version: string)
    requires Closed(NameNodes(nodes).names, edges) && nodes == []
    ensures Gather(FragmentOf(nodes, edges, workflow, version), ReadWorkflow).None?
  {
    hide Name;
    assert FamilySteps(nodes, edges) == [];
    StepsWritten([]);
    var versions := [(Str(version), Map(Written([(Steps, Map([]))])))];
    hide Only;
    hide GetField;
    hide Written;
    assert versions[..0] == [];
    assert ReadVersion(workflow, versions[0].0, versions[0].1).None?;
    assert Gather(versions, VersionReader(workflow)).None?;
    var fragment := FragmentOf(nodes, edges, workflow, version);
    assert ReadWorkflow(fragment[0].0, fragment[0].1).None?;
  }

  /** The proposed fragment passes every check of the control parser, and loads as exactly the proposed
      definition, precisely when the family has a node. */
  lemma FragmentLoadsIff(nodes: seq<FamilyNode>, edges: seq<FamilyEdge>, workflow: string, version: string)
    requires Closed(NameNodes(nodes).names, edges) && IsIdentifier(workflow) && IsIdentifier(version)
    ensures var loaded := Load(FragmentDocument(FragmentOf(nodes, edges, workflow, version)));
            && (loaded.Some? <==> nodes != [])
            && (nodes != [] ==>
                  loaded.value == Config([], [], [], [DefinitionFor(nodes, edges, workflow, version)]))
  {
    assert workflow != "" && version != "";
    var workflows := FragmentOf(nodes, edges, workflow, version);
    FragmentSections(workflows);
    if nodes == [] {
      EmptyFamilyRefused(nodes, edges, workflow, version);
    } else {
      var d := DefinitionFor(nodes, edges, workflow, version);
      FragmentIsRendered(nodes, edges, workflow, version);
      DefinitionIsOk(nodes, edges, workflow, version);
      DefinitionsReadBack([d]);
      NothingElse([d]);
    }
  }

  lemma NothingElse(ds: seq<Definition>)
    ensures Gather([], ReadRoute) == Some([]) && Gather([], ReadExperiment) == Some([])
    ensures Gather([], ReadWorkflowRoutes) == Some([])
    ensures ScopesDeclared(ds, []) && RoutesDeclared(ds, []) && DistinctTargets([])
  {
  }
}
