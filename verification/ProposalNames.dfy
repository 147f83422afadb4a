/** What a step is called and what it carries, in terms of the label and the family it comes from. */
module ProposalNames {
  import opened Prelude
  import opened Sorting
  import opened ControlTree
  import opened ControlConfig
  import opened ControlRender
  import opened ControlEntries
  import opened ControlSections
  import opened Proposal
  import Text

  // ----- names -----------------------------------------------------------------------------------

  predicate Allowed(s: string) { forall i :: 0 <= i < |s| ==> Text.IsIdentifierChar(s[i]) }

  predicate NoBracket(s: string) { forall i :: 0 <= i < |s| ==> s[i] != '[' }

  /** One or more identifier characters, no dash at either end, and no tag in front. */
  predicate Word(s: string) {
    s != "" && Allowed(s) && s[0] != '-' && s[|s| - 1] != '-' && DropTag(s) == s
  }

  predicate Separator(s: string) {
    s != "" && forall i :: 0 <= i < |s| ==> !Text.IsIdentifierChar(s[i]) && s[i] != '['
  }

  lemma {:induction false} NothingToCut(s: string)
    requires NoBracket(s)
    ensures BeforeBracket(s) == s
  {
    if s != "" { NothingToCut(s[1..]); }
  }

  lemma {:induction false} CutAtBracket(s: string, t: string)
    requires NoBracket(s) && t != "" && t[0] == '['
    ensures BeforeBracket(s + t) == s
  {
    if s == "" {
      assert s + t == t;
    } else {
      assert (s + t)[1..] == s[1..] + t;
      CutAtBracket(s[1..], t);
    }
  }

  lemma {:induction false} CollapseAllowed(s: string, t: string, inRun: bool)
    requires Allowed(s)
    ensures Collapse(s + t, inRun) == s + Collapse(t, if s == "" then inRun else false)
  {
    if s == "" {
      assert s + t == t && s + Collapse(t, inRun) == Collapse(t, inRun);
    } else {
      assert (s + t)[1..] == s[1..] + t;
      CollapseAllowed(s[1..], t, false);
      assert s == [s[0]] + s[1..];
    }
  }

  lemma {:induction false} CollapseSeparator(s: string, t: string)
    requires Separator(s) && Allowed(t)
    ensures Collapse(s + t, true) == t && Collapse(s + t, false) == "-" + t
  {
    assert (s + t)[1..] == s[1..] + t;
    if |s| == 1 {
      assert s[1..] + t == t;
      CollapseAllowed(t, "", true);
      assert t + "" == t;
    } else {
      CollapseSeparator(s[1..], t);
    }
  }

  lemma AllowedHasNoBracket(s: string)
    requires Allowed(s)
    ensures NoBracket(s)
  {
    forall i | 0 <= i < |s| ensures s[i] != '[' { assert Text.IsIdentifierChar(s[i]); }
  }

  lemma CollapseWord(s: string)
    requires Allowed(s)
    ensures Collapse(s, false) == s
  {
    CollapseAllowed(s, "", false);
    assert s + "" == s && Collapse("", false) == "";
  }

  /** What is left of a label, once collapsed, is stripped of outer dashes and lower-cased. */
  lemma NameOf(title: string, kept: string)
    requires Collapse(DropTag(BeforeBracket(title)), false) == kept
    requires kept != "" && kept[0] != '-' && kept[|kept| - 1] != '-'
    ensures BaseName(title) == Lower(kept)
  {
    hide Collapse, BeforeBracket, DropTag;
    assert StripLeft(kept) == kept && StripRight(kept) == kept;
  }

  /** A label that is one word keeps it, in lower case. */
  lemma WordIsKept(s: string)
    requires Word(s)
    ensures BaseName(s) == Lower(s)
  {
    AllowedHasNoBracket(s);
    NothingToCut(s);
    CollapseWord(s);
    hide Collapse, BeforeBracket, DropTag, BaseName;
    NameOf(s, s);
  }

  /** A tag in front, and everything from the first bracket on, are dropped. */
  lemma TagAndBracketAreDropped(s: string, rest: string)
    requires Word(s)
    ensures BaseName("tag:" + s + "[" + rest) == BaseName(s + "[" + rest) == BaseName("tag:" + s) == Lower(s)
  {
    var tagged := "tag:" + s;
    AllowedHasNoBracket(s);
    assert Allowed(tagged);
    AllowedHasNoBracket(tagged);
    assert DropTag(tagged) == s;
    NothingToCut(tagged);
    CutAtBracket(tagged, "[" + rest);
    CutAtBracket(s, "[" + rest);
    assert tagged + ("[" + rest) == tagged + "[" + rest && s + ("[" + rest) == s + "[" + rest;
    CollapseWord(s);
    hide Collapse, BeforeBracket, DropTag, BaseName;
    NameOf(tagged, s);
    NameOf(tagged + "[" + rest, s);
    NameOf(s + "[" + rest, s);
  }

  lemma JoinedCollapses(a: string, between: string, b: string)
    requires Allowed(a) && a != "" && Separator(between) && Allowed(b)
    ensures Collapse(a + between + b, false) == a + "-" + b
  {
    hide Separator, Allowed;
    assert a + between + b == a + (between + b) && a + ("-" + b) == a + "-" + b;
    CollapseAllowed(a, between + b, false);
    CollapseSeparator(between, b);
  }

  lemma JoinedHasNoBracket(a: string, between: string, b: string)
    requires Allowed(a) && Separator(between) && Allowed(b)
    ensures NoBracket(a + between + b)
  {
    AllowedHasNoBracket(a);
    AllowedHasNoBracket(b);
    hide Allowed;
  }

  /** Whatever stands between two words becomes one dash. */
  lemma WordsAreJoined(a: string, between: string, b: string)
    requires Word(a) && Word(b) && Separator(between) && DropTag(a + between + b) == a + between + b
    ensures BaseName(a + between + b) == Lower(a + "-" + b)
  {
    hide Collapse, BeforeBracket, DropTag, BaseName, Allowed, Separator, NoBracket;
    JoinedHasNoBracket(a, between, b);
    NothingToCut(a + between + b);
    JoinedCollapses(a, between, b);
    NameOf(a + between + b, a + "-" + b);
  }

  /** A label without any word is an observed step. */
  lemma NoWordIsObserved(s: string)
    requires s == "" || Separator(s)
    ensures BaseName(s) == "observed-step"
  {
    NothingToCut(s);
    if s != "" {
      CollapseSeparator(s, "");
      assert s + "" == s && "-" + "" == "-";
      assert DropTag(s) == s;
      assert StripLeft("-") == "";
    }
  }

  // ----- steps -----------------------------------------------------------------------------------

  /** What a step of the proposal carries: its node's name; as predecessors, in order and once each, the
      names of the steps an edge leads in from; a retry flag exactly when some task ran it again; and
      neither fan-out nor condition. */
  lemma StepIs(names: map<string, string>, edges: seq<FamilyEdge>, node: FamilyNode, p: string)
    requires Closed(names, edges) && node.title in names
    ensures var step := StepFor(names, edges, node);
            && step.name == names[node.title] && !step.fanOut && step.condition.None?
            && (step.retry <==> node.tasks < node.runs)
            && (p in step.predecessors <==>
                  && p != step.name
                  && exists i :: 0 <= i < |edges| && names[edges[i].source] == p && names[edges[i].target] == step.name)
            && Sorted(step.predecessors, ByText(Same()))
  {
    var name := names[node.title];
    var found := PredecessorsOf(names, edges, name);
    PredecessorsExact(names, edges, name, p);
    ByTextIsTotal(Same());
    SortPermutes(found, ByText(Same()));
    SortSorts(found, ByText(Same()));
    assert p in Sort(found, ByText(Same())) <==> p in multiset(found);
  }
}
