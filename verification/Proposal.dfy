/** Proposals derived from a discovered workflow family: step names, predecessors, and the fragment of
    control configuration they make. */
module Proposal {
  import opened Prelude
  import opened Sorting
  import opened ControlTree
  import opened ControlConfig
  import opened ControlRender
  import opened ControlEntries
  import opened ControlSections
  import Text

  datatype FamilyNode = FamilyNode(title: string, tasks: int, runs: int)

  datatype FamilyEdge = FamilyEdge(source: string, target: string)

  // ----- step names ------------------------------------------------------------------------------

  /** `label.split("[", 1)[0]` */
  function BeforeBracket(s: string): string {
    if s == "" || s[0] == '[' then "" else [s[0]] + BeforeBracket(s[1..])
  }

  function DropTag(s: string): string { if |s| >= 4 && s[..4] == "tag:" then s[4..] else s }

  /** Every run of other characters becomes one dash; `inRun` says the character before was in one. */
  function Collapse(s: string, inRun: bool): string {
    if s == "" then ""
    else if Text.IsIdentifierChar(s[0]) then [s[0]] + Collapse(s[1..], false)
    else (if inRun then "" else "-") + Collapse(s[1..], true)
  }

  function StripLeft(s: string): string { if s != "" && s[0] == '-' then StripLeft(s[1..]) else s }

  function StripRight(s: string): string { if s != "" && s[|s| - 1] == '-' then StripRight(s[..|s| - 1]) else s }

  function LowerChar(c: char): char { if 'A' <= c <= 'Z' then ((c as int) + 32) as char else c }

  function Lower(s: string): (t: string)
    ensures |t| == |s|
  {
    seq(|s|, i requires 0 <= i < |s| => LowerChar(s[i]))
  }

  function BaseName(title: string): (base: string)
    ensures base != ""
  {
    var base := Lower(StripRight(StripLeft(Collapse(DropTag(BeforeBracket(title)), false))));
    if base == "" then "observed-step" else base
  }

  /** The candidates in the order they are tried: the base, then the base with 2, 3 and so on. */
  function Candidate(base: string, k: nat): string
    requires k >= 1
  {
    if k == 1 then base else base + "-" + Text.Decimal(k)
  }

  lemma CandidatesDistinct(base: string, j: nat, k: nat)
    requires j >= 1 && k >= 1 && Candidate(base, j) == Candidate(base, k)
    ensures j == k
  {
    if j > 1 && k > 1 {
      var s, t := Candidate(base, j), Candidate(base, k);
      assert s[|base| + 1..] == Text.Decimal(j) && t[|base| + 1..] == Text.Decimal(k);
      Text.DecimalInjective(j, k);
    } else {
      assert |Candidate(base, j)| == |Candidate(base, k)|;
    }
  }

  ghost function Tried(base: string, k: nat): set<string>
    requires k >= 1
  {
    set j: nat | 1 <= j < k :: Candidate(base, j)
  }

  lemma TriedGrows(base: string, used: set<string>, k: nat)
    requires k >= 1 && Candidate(base, k) in used
    ensures |used - Tried(base, k + 1)| < |used - Tried(base, k)|
  {
    var c := Candidate(base, k);
    if c in Tried(base, k) {
      var j: nat :| 1 <= j < k && Candidate(base, j) == c;
      CandidatesDistinct(base, j, k);
    }
    assert Tried(base, k + 1) == Tried(base, k) + {c};
    assert used - Tried(base, k + 1) == (used - Tried(base, k)) - {c};
  }

  /** The number of the first free candidate from the `k`th on. There is one, because the candidates
      never repeat and only finitely many names are used. */
  function FirstFree(base: string, used: set<string>, k: nat): (j: nat)
    requires k >= 1
    ensures j >= k && Candidate(base, j) !in used
    ensures forall i: nat :: k <= i < j ==> Candidate(base, i) in used
    decreases |used - Tried(base, k)|
  {
    if Candidate(base, k) !in used then k
    else
      TriedGrows(base, used, k);
      FirstFree(base, used, k + 1)
  }

  function FreeName(base: string, used: set<string>, k: nat): (name: string)
    requires k >= 1
    ensures name !in used
  {
    Candidate(base, FirstFree(base, used, k))
  }

  function NameFor(title: string, used: set<string>): string { FreeName(BaseName(title), used, 1) }

  /** The naming loop stops, at the first free candidate. */
  method StepName(title: string, used: set<string>) returns (name: string, nowUsed: set<string>)
    ensures name == NameFor(title, used) && nowUsed == used + {name} && name !in used
  {
    var base := BaseName(title);
    name := base;
    var suffix := 2;
    while name in used
      invariant suffix >= 2 && name == Candidate(base, suffix - 1)
      invariant FreeName(base, used, suffix - 1) == FreeName(base, used, 1)
      decreases |used - Tried(base, suffix - 1)|
    {
      TriedGrows(base, used, suffix - 1);
      name := base + "-" + Text.Decimal(suffix);
      suffix := suffix + 1;
    }
    nowUsed := used + {name};
  }

  lemma NameNonEmpty(title: string, used: set<string>)
    ensures NameFor(title, used) != ""
  {
    assert Candidate(BaseName(title), FirstFree(BaseName(title), used, 1)) != "";
  }

  /** The names given to the nodes so far, and all names used so far. */
  datatype Naming = Naming(names: map<string, string>, used: set<string>)

  function NameNodes(nodes: seq<FamilyNode>): Naming {
    if nodes == [] then Naming(map[], {})
    else
      var n := |nodes| - 1;
      var before := NameNodes(nodes[..n]);
      var name := NameFor(nodes[n].title, before.used);
      Naming(before.names[nodes[n].title := name], before.used + {name})
  }

  predicate Labelled(names: map<string, string>, nodes: seq<FamilyNode>) {
    forall i :: 0 <= i < |nodes| ==> nodes[i].title in names
  }

  /** Non-empty names, all recorded as used, and never one name for two labels. */
  predicate Injective(naming: Naming) {
    && (forall l :: l in naming.names ==> naming.names[l] in naming.used && naming.names[l] != "")
    && (forall l, m :: l in naming.names && m in naming.names && l != m ==> naming.names[l] != naming.names[m])
  }

  lemma InjectiveGrows(before: Naming, title: string, name: string)
    requires Injective(before) && name != "" && name !in before.used
    ensures Injective(Naming(before.names[title := name], before.used + {name}))
  {
  }

  lemma NamesStep(nodes: seq<FamilyNode>)
    requires nodes != []
    ensures var n := |nodes| - 1;
            var before := NameNodes(nodes[..n]);
            var name := NameFor(nodes[n].title, before.used);
            NameNodes(nodes) == Naming(before.names[nodes[n].title := name], before.used + {name})
            && name != "" && name !in before.used
  {
    NameNonEmpty(nodes[|nodes| - 1].title, NameNodes(nodes[..|nodes| - 1]).used);
  }

  lemma LabelledGrows(names: map<string, string>, nodes: seq<FamilyNode>, node: FamilyNode, name: string)
    requires Labelled(names, nodes)
    ensures Labelled(names[node.title := name], nodes + [node])
  {
  }

  /** Every label gets a non-empty name, and different labels get different names. */
  lemma {:induction false} NamesInjective(nodes: seq<FamilyNode>)
    ensures Injective(NameNodes(nodes)) && Labelled(NameNodes(nodes).names, nodes)
  {
    if nodes == [] {
      assert NameNodes(nodes) == Naming(map[], {});
    } else {
      hide *;
      var rest, node := nodes[..|nodes| - 1], nodes[|nodes| - 1];
      var before := NameNodes(rest);
      NamesInjective(rest);
      NamesStep(nodes);
      InjectiveGrows(before, node.title, NameFor(node.title, before.used));
      LabelledGrows(before.names, rest, node, NameFor(node.title, before.used));
      assert nodes == rest + [node];
    }
  }

  /** Only labels of the family are named. */
  lemma {:induction false} NamedInFamily(nodes: seq<FamilyNode>, title: string)
    requires title in NameNodes(nodes).names
    ensures exists i :: 0 <= i < |nodes| && nodes[i].title == title
  {
    hide NameFor;
    var n := |nodes| - 1;
    if title != nodes[n].title {
      NamedInFamily(nodes[..n], title);
      var i :| 0 <= i < n && nodes[..n][i].title == title;
      assert nodes[i].title == title;
    }
  }

  // ----- predecessors ----------------------------------------------------------------------------

  predicate Closed(names: map<string, string>, edges: seq<FamilyEdge>) {
    forall i :: 0 <= i < |edges| ==> edges[i].source in names && edges[i].target in names
  }

  /** A set that is only ever sorted, kept as a list without repetition. */
  function Include(names: seq<string>, name: string): seq<string> { if name in names then names else names + [name] }

  function PredecessorsOf(names: map<string, string>, edges: seq<FamilyEdge>, step: string): seq<string>
    requires Closed(names, edges)
  {
    if edges == [] then []
    else
      var n := |edges| - 1;
      var before := PredecessorsOf(names, edges[..n], step);
      var source, target := names[edges[n].source], names[edges[n].target];
      if source != target && target == step then Include(before, source) else before
  }

  /** A step's predecessors are exactly the steps an edge leads in from, itself excepted. */
  lemma {:induction false} PredecessorsExact(names: map<string, string>, edges: seq<FamilyEdge>,
                                           step: string, p: string)
    requires Closed(names, edges)
    ensures p in PredecessorsOf(names, edges, step)
            <==> p != step
                 && exists i :: 0 <= i < |edges| && names[edges[i].source] == p && names[edges[i].target] == step
  {
    if edges != [] {
      var n := |edges| - 1;
      PredecessorsExact(names, edges[..n], step, p);
      if p != step && exists i :: 0 <= i < |edges| && names[edges[i].source] == p && names[edges[i].target] == step {
        var i :| 0 <= i < |edges| && names[edges[i].source] == p && names[edges[i].target] == step;
        assert i < n ==> edges[..n][i] == edges[i];
      }
    }
  }

  function Same(): string -> string { (s: string) => s }

  /** One step of the fragment, named `names[label]`. */
  function StepFor(names: map<string, string>, edges: seq<FamilyEdge>, node: FamilyNode): StepDefinition
    requires Closed(names, edges) && node.title in names
  {
    var name := names[node.title];
    StepDefinition(name, Sort(PredecessorsOf(names, edges, name), ByText(Same())), false, node.runs > node.tasks, None)
  }

  function StepsFor(names: map<string, string>, edges: seq<FamilyEdge>, nodes: seq<FamilyNode>)
    : (steps: seq<StepDefinition>)
    requires Closed(names, edges) && Labelled(names, nodes)
    ensures |steps| == |nodes| && forall i :: 0 <= i < |nodes| ==> steps[i] == StepFor(names, edges, nodes[i])
  {
    seq(|nodes|, i requires 0 <= i < |nodes| => StepFor(names, edges, nodes[i]))
  }

  /** `steps[name] = definition`, once per node: a repeated label keeps its place and its last definition. */
  function Overwrite(steps: seq<StepDefinition>, s: StepDefinition): seq<StepDefinition> {
    if steps == [] then [s]
    else if steps[0].name == s.name then [s] + steps[1..]
    else [steps[0]] + Overwrite(steps[1..], s)
  }

  function LastOfEach(steps: seq<StepDefinition>): seq<StepDefinition> {
    if steps == [] then []
    else
      var n := |steps| - 1;
      Overwrite(LastOfEach(steps[..n]), steps[n])
  }

  predicate IsIdentifier(s: string) {
    s != "" && Text.IsAlnum(s[0]) && forall i :: 0 <= i < |s| ==> Text.IsIdentifierChar(s[i])
  }

  function FamilySteps(nodes: seq<FamilyNode>, edges: seq<FamilyEdge>): seq<StepDefinition>
    requires Closed(NameNodes(nodes).names, edges)
  {
    NamesInjective(nodes);
    StepsFor(NameNodes(nodes).names, edges, nodes)
  }

  /** The workflow definition a family amounts to. */
  function DefinitionFor(nodes: seq<FamilyNode>, edges: seq<FamilyEdge>, workflow: string, version: string): Definition
    requires Closed(NameNodes(nodes).names, edges)
  {
    Definition(workflow, version, LastOfEach(FamilySteps(nodes, edges)))
  }

  /** Building a proposal: name the nodes, collect the predecessors, write the steps. Refused without
      stable identifiers, and for an edge that leaves the family. */
  method BuildFragment(nodes: seq<FamilyNode>, edges: seq<FamilyEdge>, workflow: string, version: string)
    returns (workflows: Option<Entries>)
    ensures workflows.Some?
            <==> IsIdentifier(workflow) && IsIdentifier(version) && Closed(NameNodes(nodes).names, edges)
    ensures workflows.Some? ==>
              workflows.value
              == [(Str(workflow), Map([(Str(version),
                   Map(Written([(Steps, Map(RenderSteps(FamilySteps(nodes, edges))))])))]))]
  {
    NamesInjective(nodes);
    if !IsIdentifier(workflow) || !IsIdentifier(version) { return None; }
    var names := NameAll(nodes);
    var predecessors := CollectPredecessors(names, edges);
    if predecessors.None? { return None; }
    var steps := WriteSteps(names, edges, predecessors.value, nodes);
    workflows := Some([(Str(workflow), Map([(Str(version), Map(Written([(Steps, Map(steps))])))]))]);
  }

  method NameAll(nodes: seq<FamilyNode>) returns (names: map<string, string>)
    ensures names == NameNodes(nodes).names
  {
    hide NameFor;
    names := map[];
    var used: set<string> := {};
    for i := 0 to |nodes|
      invariant NameNodes(nodes[..i]) == Naming(names, used)
    {
      assert nodes[..i + 1][..i] == nodes[..i];
      var name;
      name, used := StepName(nodes[i].title, used);
      names := names[nodes[i].title := name];
    }
    assert nodes[..|nodes|] == nodes;
  }

  method CollectPredecessors(names: map<string, string>, edges: seq<FamilyEdge>)
    returns (predecessors: Option<map<string, seq<string>>>)
    ensures predecessors.Some? <==> Closed(names, edges)
    ensures predecessors.Some? ==> forall step :: step in names.Values ==>
                                     step in predecessors.value
                                     && predecessors.value[step] == PredecessorsOf(names, edges, step)
  {
    var found: map<string, seq<string>> := map step | step in names.Values :: [];
    for i := 0 to |edges|
      invariant Closed(names, edges[..i])
      invariant forall step :: step in names.Values ==>
                                 step in found && found[step] == PredecessorsOf(names, edges[..i], step)
    {
      if edges[i].source !in names || edges[i].target !in names { return None; }
      assert edges[..i + 1][..i] == edges[..i];
      var source, target := names[edges[i].source], names[edges[i].target];
      if source != target { found := found[target := Include(found[target], source)]; }
    }
    assert edges[..|edges|] == edges;
    predecessors := Some(found);
  }

  method WriteSteps(names: map<string, string>, edges: seq<FamilyEdge>, predecessors: map<string, seq<string>>,
                    nodes: seq<FamilyNode>)
    returns (steps: Entries)
    requires Closed(names, edges) && Labelled(names, nodes)
    requires forall step :: step in names.Values ==>
                              step in predecessors && predecessors[step] == PredecessorsOf(names, edges, step)
    ensures steps == RenderSteps(StepsFor(names, edges, nodes))
  {
    hide PredecessorsOf;
    hide Put;
    hide StepNode;
    hide Sort;
    steps := [];
    for i := 0 to |nodes|
      invariant steps == RenderSteps(StepsFor(names, edges, nodes)[..i])
    {
      ghost var all := StepsFor(names, edges, nodes);
      assert all[..i + 1][..i] == all[..i];
      var name := names[nodes[i].title];
      assert name in names.Values;
      var step := StepDefinition(name, Sort(predecessors[name], ByText(Same())), false,
                                 nodes[i].runs > nodes[i].tasks, None);
      steps := Put(steps, Str(name), StepNode(step));
    }
    assert StepsFor(names, edges, nodes)[..|nodes|] == StepsFor(names, edges, nodes);
  }
}
