/** The tree a desired-state document loads to, its field names, and reading a mapping entry by entry. */
module ControlTree {
  import opened Prelude

  /** A loaded YAML value; a mapping keeps the order of its entries, and its keys may be any value. */
  datatype Tree =
    | Null
    | Bool(b: bool)
    | Int(i: int)
    | Float(r: real)
    | Str(s: string)
    | List(items: seq<Tree>)
    | Map(entries: seq<(Tree, Tree)>)

  type Entries = seq<(Tree, Tree)>

  datatype Field =
    | Version | Routes | Experiments | WorkflowRoutes | Workflows
    | Model | Provider | PreviousModel | Note
    | Id | CandidateModel | SplitPct | MaxCalls | Workflow | WorkflowVersion | Step
    | Steps | Predecessors | Allows | Condition | FanOut | Retry

  function Name(f: Field): string {
    match f
    case Version => "version"
    case Routes => "routes"
    case Experiments => "experiments"
    case WorkflowRoutes => "workflow_routes"
    case Workflows => "workflows"
    case Model => "model"
    case Provider => "provider"
    case PreviousModel => "previous_model"
    case Note => "note"
    case Id => "id"
    case CandidateModel => "candidate_model"
    case SplitPct => "split_pct"
    case MaxCalls => "max_calls_per_task"
    case Workflow => "workflow"
    case WorkflowVersion => "workflow_version"
    case Step => "step"
    case Steps => "steps"
    case Predecessors => "predecessors"
    case Allows => "allows"
    case Condition => "condition"
    case FanOut => "fan_out"
    case Retry => "retry"
  }

  /** Length and first letter tell the names apart. */
  function Shape(f: Field): (int, char) {
    match f
    case Version => (7, 'v')
    case Routes => (6, 'r')
    case Experiments => (11, 'e')
    case WorkflowRoutes => (15, 'w')
    case Workflows => (9, 'w')
    case Model => (5, 'm')
    case Provider => (8, 'p')
    case PreviousModel => (14, 'p')
    case Note => (4, 'n')
    case Id => (2, 'i')
    case CandidateModel => (15, 'c')
    case SplitPct => (9, 's')
    case MaxCalls => (18, 'm')
    case Workflow => (8, 'w')
    case WorkflowVersion => (16, 'w')
    case Step => (4, 's')
    case Steps => (5, 's')
    case Predecessors => (12, 'p')
    case Allows => (6, 'a')
    case Condition => (9, 'c')
    case FanOut => (7, 'f')
    case Retry => (5, 'r')
  }

  lemma NameShape(f: Field)
    ensures Name(f) != "" && Shape(f) == (|Name(f)|, Name(f)[0])
  {
  }

  lemma NamesDistinct(f: Field, g: Field)
    requires Name(f) == Name(g)
    ensures f == g
  {
    NameShape(f);
    NameShape(g);
    hide Name;
  }

  // ----- mappings --------------------------------------------------------------------------------

  function Truthy(t: Tree): bool {
    match t
    case Null => false
    case Bool(b) => b
    case Int(i) => i != 0
    case Float(r) => r != 0.0
    case Str(s) => s != ""
    case List(items) => items != []
    case Map(entries) => entries != []
  }

  /** `value or {}` */
  function OrEmpty(t: Tree): Tree { if Truthy(t) then t else Map([]) }

  /** The `_mapping` helper: nothing counts as an empty mapping, anything but a mapping is refused. */
  function Mapping(t: Tree): Option<Entries> {
    if t.Null? then Some([]) else if t.Map? then Some(t.entries) else None
  }

  function Lookup(entries: Entries, key: Tree): Option<Tree> {
    if entries == [] then None
    else if entries[0].0 == key then Some(entries[0].1)
    else Lookup(entries[1..], key)
  }

  function GetOr(entries: Entries, f: Field, default: Tree): Tree {
    var found := Lookup(entries, Str(Name(f)));
    if found.None? then default else found.value
  }

  function GetField(entries: Entries, f: Field): Tree { GetOr(entries, f, Null) }

  predicate HasKey(entries: Entries, key: Tree) { exists i :: 0 <= i < |entries| && entries[i].0 == key }

  predicate UniqueKeys(entries: Entries) { forall i, j :: 0 <= i < j < |entries| ==> entries[i].0 != entries[j].0 }

  /** The `_fields` helper's check: no key outside the allowed fields. */
  predicate Only(entries: Entries, allowed: set<Field>) {
    forall i :: 0 <= i < |entries| ==> IsFieldName(entries[i].0, allowed)
  }

  predicate IsFieldName(key: Tree, allowed: set<Field>) { exists f :: f in allowed && key == Str(Name(f)) }

  predicate IsName(t: Tree) { t.Str? && t.s != "" }

  // ----- mappings written from fields ------------------------------------------------------------

  type Pairs = seq<(Field, Tree)>

  function Written(pairs: Pairs): (entries: Entries)
    ensures |entries| == |pairs|
    ensures forall i :: 0 <= i < |pairs| ==> entries[i] == (Str(Name(pairs[i].0)), pairs[i].1)
  {
    seq(|pairs|, i requires 0 <= i < |pairs| => (Str(Name(pairs[i].0)), pairs[i].1))
  }

  /** Only the fields that are set are written. */
  function NonNull(pairs: Pairs): Pairs {
    if pairs == [] then []
    else if pairs[0].1.Null? then NonNull(pairs[1..])
    else [pairs[0]] + NonNull(pairs[1..])
  }

  function PairAt(pairs: Pairs, f: Field): Option<Tree> {
    if pairs == [] then None else if pairs[0].0 == f then Some(pairs[0].1) else PairAt(pairs[1..], f)
  }

  function OrNull(t: Option<Tree>): Tree { if t.None? then Null else t.value }

  lemma {:induction false} LookupWritten(pairs: Pairs, f: Field)
    ensures Lookup(Written(pairs), Str(Name(f))) == PairAt(pairs, f)
  {
    if pairs != [] {
      hide Name;
      if Name(pairs[0].0) == Name(f) { NamesDistinct(pairs[0].0, f); }
      LookupWritten(pairs[1..], f);
      assert Written(pairs)[1..] == Written(pairs[1..]);
    }
  }

  lemma OnlyWritten(pairs: Pairs, allowed: set<Field>)
    requires forall i :: 0 <= i < |pairs| ==> pairs[i].0 in allowed
    ensures Only(Written(pairs), allowed)
  {
    hide Name;
    var entries := Written(pairs);
    forall i | 0 <= i < |entries| ensures IsFieldName(entries[i].0, allowed) {
      assert pairs[i].0 in allowed && entries[i].0 == Str(Name(pairs[i].0));
    }
  }

  ghost predicate Within(pairs: Pairs, allowed: set<Field>) { forall i :: 0 <= i < |pairs| ==> pairs[i].0 in allowed }

  lemma {:induction false} NonNullWithin(pairs: Pairs, allowed: set<Field>)
    requires Within(pairs, allowed)
    ensures Within(NonNull(pairs), allowed)
  {
    if pairs != [] {
      assert pairs[0].0 in allowed;
      NonNullWithin(pairs[1..], allowed);
    }
  }

  ghost predicate DistinctFields(pairs: Pairs) { forall i, j :: 0 <= i < j < |pairs| ==> pairs[i].0 != pairs[j].0 }

  lemma {:induction false} PairAtMissing(pairs: Pairs, f: Field)
    requires forall i :: 0 <= i < |pairs| ==> pairs[i].0 != f
    ensures PairAt(NonNull(pairs), f) == None
  {
    if pairs != [] {
      PairAtMissing(pairs[1..], f);
      if !pairs[0].1.Null? { assert ([pairs[0]] + NonNull(pairs[1..]))[1..] == NonNull(pairs[1..]); }
    }
  }

  /** Leaving unset fields out reads back as leaving them out. */
  lemma {:induction false} PairAtNonNull(pairs: Pairs, f: Field)
    requires DistinctFields(pairs)
    ensures PairAt(NonNull(pairs), f) == if OrNull(PairAt(pairs, f)).Null? then None else PairAt(pairs, f)
  {
    if pairs != [] {
      if pairs[0].0 == f && pairs[0].1.Null? {
        PairAtMissing(pairs[1..], f);
      } else {
        PairAtNonNull(pairs[1..], f);
        if !pairs[0].1.Null? { assert ([pairs[0]] + NonNull(pairs[1..]))[1..] == NonNull(pairs[1..]); }
      }
    }
  }

  lemma {:induction false} PairAtConcat(a: Pairs, b: Pairs, f: Field)
    ensures PairAt(a + b, f) == if PairAt(a, f).Some? then PairAt(a, f) else PairAt(b, f)
  {
    if a == [] {
      assert a + b == b;
    } else {
      assert (a + b)[1..] == a[1..] + b;
      PairAtConcat(a[1..], b, f);
    }
  }

  /** The fields of a mapping that always writes `fixed` and writes `optional` where set. */
  function Node(fixed: Pairs, optional: Pairs): Entries { Written(fixed + NonNull(optional)) }

  lemma {:induction false} PairAtIndex(pairs: Pairs, i: nat)
    requires DistinctFields(pairs) && i < |pairs|
    ensures PairAt(pairs, pairs[i].0) == Some(pairs[i].1)
  {
    if i > 0 {
      assert pairs[0].0 != pairs[i].0 && pairs[1..][i - 1] == pairs[i];
      PairAtIndex(pairs[1..], i - 1);
    }
  }

  lemma {:induction false} PairAtAbsent(pairs: Pairs, f: Field)
    requires forall i :: 0 <= i < |pairs| ==> pairs[i].0 != f
    ensures PairAt(pairs, f) == None
  {
    if pairs != [] { PairAtAbsent(pairs[1..], f); }
  }

  lemma FixedField(fixed: Pairs, optional: Pairs, i: nat)
    requires DistinctFields(fixed) && i < |fixed|
    ensures Lookup(Node(fixed, optional), Str(Name(fixed[i].0))) == Some(fixed[i].1)
  {
    hide Name;
    LookupWritten(fixed + NonNull(optional), fixed[i].0);
    PairAtConcat(fixed, NonNull(optional), fixed[i].0);
    PairAtIndex(fixed, i);
  }

  lemma OptionalField(fixed: Pairs, optional: Pairs, i: nat)
    requires DistinctFields(optional) && i < |optional|
    requires forall j :: 0 <= j < |fixed| ==> fixed[j].0 != optional[i].0
    ensures Lookup(Node(fixed, optional), Str(Name(optional[i].0)))
            == if optional[i].1.Null? then None else Some(optional[i].1)
  {
    hide Name;
    LookupWritten(fixed + NonNull(optional), optional[i].0);
    PairAtConcat(fixed, NonNull(optional), optional[i].0);
    PairAtAbsent(fixed, optional[i].0);
    PairAtNonNull(optional, optional[i].0);
    PairAtIndex(optional, i);
  }

  lemma NodeOnly(fixed: Pairs, optional: Pairs, allowed: set<Field>)
    requires Within(fixed, allowed) && Within(optional, allowed)
    ensures Only(Node(fixed, optional), allowed)
  {
    NonNullWithin(optional, allowed);
    OnlyWritten(fixed + NonNull(optional), allowed);
  }

  // ----- reading a mapping entry by entry --------------------------------------------------------

  /** What a loop over the entries collects, or nothing when one entry is refused. */
  function Gather<T>(entries: Entries, read: (Tree, Tree) -> Option<seq<T>>): Option<seq<T>> {
    if entries == [] then Some([])
    else
      var n := |entries| - 1;
      var before, last := Gather(entries[..n], read), read(entries[n].0, entries[n].1);
      if before.None? || last.None? then None else Some(before.value + last.value)
  }

  lemma GatherStep<T>(entries: Entries, i: nat, read: (Tree, Tree) -> Option<seq<T>>)
    requires i < |entries|
    ensures var before, last := Gather(entries[..i], read), read(entries[i].0, entries[i].1);
            Gather(entries[..i + 1], read)
            == if before.None? || last.None? then None else Some(before.value + last.value)
  {
    assert entries[..i + 1][..i] == entries[..i];
  }

  lemma {:induction false} GatherRefused<T>(entries: Entries, i: nat, read: (Tree, Tree) -> Option<seq<T>>)
    requires i <= |entries| && Gather(entries[..i], read).None?
    ensures Gather(entries, read).None?
  {
    if i < |entries| {
      assert entries[..|entries| - 1][..i] == entries[..i];
      GatherRefused(entries[..|entries| - 1], i, read);
    } else {
      assert entries[..i] == entries;
    }
  }

  lemma GatherAppend<T>(entries: Entries, key: Tree, value: Tree, read: (Tree, Tree) -> Option<seq<T>>)
    requires Gather(entries, read).Some? && read(key, value).Some?
    ensures Gather(entries + [(key, value)], read) == Some(Gather(entries, read).value + read(key, value).value)
  {
    var all := entries + [(key, value)];
    assert all[..|entries|] == entries;
  }

  /** When every entry reads as one item, the loop collects exactly those items. */
  lemma {:induction false} GatherEach<T>(entries: Entries, items: seq<T>, read: (Tree, Tree) -> Option<seq<T>>)
    requires |entries| == |items|
    requires forall i :: 0 <= i < |items| ==> read(entries[i].0, entries[i].1) == Some([items[i]])
    ensures Gather(entries, read) == Some(items)
  {
    if items != [] {
      var n := |items| - 1;
      GatherEach(entries[..n], items[..n], read);
      assert items == items[..n] + [items[n]];
    }
  }

  /** Everything collected was read from some entry. */
  lemma {:induction false} GatherMember<T>(entries: Entries, read: (Tree, Tree) -> Option<seq<T>>, x: T)
    returns (i: nat)
    requires Gather(entries, read).Some? && x in Gather(entries, read).value
    ensures i < |entries| && read(entries[i].0, entries[i].1).Some? && x in read(entries[i].0, entries[i].1).value
  {
    var n := |entries| - 1;
    if x in read(entries[n].0, entries[n].1).value {
      i := n;
    } else {
      i := GatherMember(entries[..n], read, x);
    }
  }

  /** An accepted mapping had every entry accepted. */
  lemma {:induction false} GatherAccepted<T>(entries: Entries, read: (Tree, Tree) -> Option<seq<T>>, i: nat)
    requires Gather(entries, read).Some? && i < |entries|
    ensures read(entries[i].0, entries[i].1).Some?
    ensures forall x :: x in read(entries[i].0, entries[i].1).value ==> x in Gather(entries, read).value
  {
    var n := |entries| - 1;
    if i < n { GatherAccepted(entries[..n], read, i); }
  }
}
