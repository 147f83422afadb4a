/** Dataset lineage manifests: freezing traces into leakage-safe splits, and the rules of acceptance. */
module Manifest {
  import opened Prelude
  import opened Sorting
  import opened Text

  const VERSION := 1
  const KIND := "offline_dataset_lineage_no_payloads"
  const PURPOSE := "local_model_experiment_lineage_only"
  const ALGORITHM := "cluster_sha256_rank_v1"

  datatype Timestamp = Aware(instant: int) | Naive

  /** A live trace. The id is `None` when it is not an integer, a body when it was pruned. */
  datatype Row = Row(id: Option<int>, taskId: Option<string>, request: Option<string>, response: Option<string>)

  datatype Split = Train | Evaluation

  datatype Entry = Entry(traceId: int, cluster: string, split: Split, request: string, response: string)

  datatype Scope = Scope(workflow: string, version: string, step: string)

  datatype Counts = Counts(traces: int, clusters: int, trainTraces: int, evaluationTraces: int,
                           trainClusters: int, evaluationClusters: int)

  datatype Core = Core(version: int, kind: string, purpose: string, createdAt: string, useCase: string,
                       scope: Option<Scope>, algorithm: string, trainPercent: int, salt: string,
                       counts: Counts, entries: seq<Entry>)

  datatype Manifest = Manifest(core: Core, digest: string)

  datatype Args = Args(useCase: string, trainPercent: int, salt: string, workflow: Option<string>,
                       version: Option<string>, step: Option<string>, created: Timestamp)

  /** What the model does not compute: SHA-256 in hex, the digest of the canonical JSON of a core, and
      the printing and reading of an instant. */
  datatype World = World(sha: string -> string, seal: Core -> string,
                         format: int -> string, parse: string -> Option<Timestamp>)

  predicate IsSha(s: string) {
    |s| == 64 && forall i :: 0 <= i < |s| ==> '0' <= s[i] <= '9' || 'a' <= s[i] <= 'f'
  }

  ghost predicate Sound(w: World) {
    (forall s :: IsSha(w.sha(s))) && (forall t :: w.parse(w.format(t)) == Some(Aware(t)))
  }

  // ----- rows and clusters -----------------------------------------------------------------------

  predicate IsLabel(s: string) { StripRight(StripLeft(s)) != "" && |s| <= 200 }

  function IdOf(row: Row): int { if row.id.Some? then row.id.value else 0 }

  function Body(body: Option<string>): string { if body.Some? then body.value else "" }

  /** The task groups traces; a trace without one is its own group. */
  function ClusterSource(row: Row): string {
    if row.taskId.Some? then "task:" + row.taskId.value else "trace:" + Printed(IdOf(row))
  }

  function ClusterOf(w: World, row: Row): string { w.sha(ClusterSource(row)) }

  predicate Usable(row: Row) { row.id.Some? && row.id.value >= 1 && row.request.Some? && row.response.Some? }

  predicate RowsUsable(rows: seq<Row>) {
    && (forall i :: 0 <= i < |rows| ==> Usable(rows[i]))
    && (forall i, j :: 0 <= i < j < |rows| ==> rows[i].id != rows[j].id)
  }

  /** The keys of a dictionary filled in this order. */
  function AddKey(keys: seq<string>, key: string): seq<string> { if key in keys then keys else keys + [key] }

  function FirstSeen(names: seq<string>): seq<string> {
    if names == [] then [] else AddKey(FirstSeen(names[..|names| - 1]), names[|names| - 1])
  }

  function RowClusters(w: World, rows: seq<Row>): (names: seq<string>)
    ensures |names| == |rows|
  {
    seq(|rows|, i requires 0 <= i < |rows| => ClusterOf(w, rows[i]))
  }

  function EntryClusters(entries: seq<Entry>): (names: seq<string>)
    ensures |names| == |entries|
  {
    seq(|entries|, i requires 0 <= i < |entries| => entries[i].cluster)
  }

  function Clusters(w: World, rows: seq<Row>): seq<string> { FirstSeen(RowClusters(w, rows)) }

  lemma {:induction false} FirstSeenFacts(names: seq<string>)
    ensures NoDuplicates(FirstSeen(names)) && forall x :: x in FirstSeen(names) <==> x in names
  {
    if names != [] {
      FirstSeenFacts(names[..|names| - 1]);
      assert names == names[..|names| - 1] + [names[|names| - 1]];
    }
  }

  lemma ClustersFacts(w: World, rows: seq<Row>)
    ensures NoDuplicates(Clusters(w, rows))
    ensures forall x :: x in Clusters(w, rows) <==> x in RowClusters(w, rows)
  {
    hide FirstSeen;
    hide RowClusters;
    FirstSeenFacts(RowClusters(w, rows));
  }

  // ----- the partition ---------------------------------------------------------------------------

  function Salted(w: World, salt: string): string -> string { cluster => w.sha(salt + ":" + cluster) }

  function Ranked(w: World, salt: string, clusters: seq<string>): seq<string> {
    Sort(clusters, ByText(Salted(w, salt)))
  }

  function TrainCount(clusters: int, percent: int): int {
    Max(1, Min(clusters - 1, clusters * percent / 100))
  }

  function TrainSet(w: World, salt: string, percent: int, clusters: seq<string>): set<string> {
    var ranked := Ranked(w, salt, clusters);
    set i | 0 <= i < |ranked| && i < TrainCount(|ranked|, percent) :: ranked[i]
  }

  /** No two clusters tie in the ranking. */
  ghost predicate DistinctRanks(w: World, salt: string, clusters: seq<string>) {
    forall c, d :: c in clusters && d in clusters && c != d ==> Salted(w, salt)(c) != Salted(w, salt)(d)
  }

  lemma RankedFacts(w: World, salt: string, clusters: seq<string>)
    requires NoDuplicates(clusters)
    ensures NoDuplicates(Ranked(w, salt, clusters)) && |Ranked(w, salt, clusters)| == |clusters|
    ensures forall x :: x in Ranked(w, salt, clusters) <==> x in clusters
    ensures Sorted(Ranked(w, salt, clusters), ByText(Salted(w, salt)))
  {
    ByTextIsTotal(Salted(w, salt));
    SortPermutes(clusters, ByText(Salted(w, salt)));
    SortSorts(clusters, ByText(Salted(w, salt)));
    PermutedNoDuplicates(clusters, Ranked(w, salt, clusters));
  }

  /** The partition depends on the set of clusters only, not on the order they were met in. */
  lemma TrainSetForgetsOrder(w: World, salt: string, percent: int, c: seq<string>, d: seq<string>)
    requires NoDuplicates(c) && NoDuplicates(d) && (forall x :: x in c <==> x in d)
    requires DistinctRanks(w, salt, c)
    ensures TrainSet(w, salt, percent, c) == TrainSet(w, salt, percent, d) && |c| == |d|
  {
    SameSetPermutes(c, d);
    SameMultiset(c, d);
    ByTextIsTotal(Salted(w, salt));
    ByTextUntied(c, Salted(w, salt));
    SortForgetsOrder(c, d, ByText(Salted(w, salt)));
  }

  /** Both splits get at least one cluster, and the training split gets exactly its count. */
  lemma BothSplitsUsed(w: World, salt: string, percent: int, clusters: seq<string>)
    requires NoDuplicates(clusters) && |clusters| >= 2 && 1 <= percent <= 99
    ensures var train := TrainSet(w, salt, percent, clusters);
            && (forall x :: x in train ==> x in clusters)
            && (exists x :: x in clusters && x in train) && (exists x :: x in clusters && x !in train)
  {
    RankedFacts(w, salt, clusters);
    var ranked, train := Ranked(w, salt, clusters), TrainSet(w, salt, percent, clusters);
    assert 1 <= TrainCount(|ranked|, percent) < |ranked|;
    assert ranked[0] in train && ranked[0] in clusters;
    assert ranked[|ranked| - 1] in clusters && ranked[|ranked| - 1] !in train;
  }

  // ----- creation --------------------------------------------------------------------------------

  function EntryOf(w: World, train: set<string>, row: Row): Entry {
    Entry(IdOf(row), ClusterOf(w, row), if ClusterOf(w, row) in train then Train else Evaluation,
          w.sha(Body(row.request)), w.sha(Body(row.response)))
  }

  function EntriesOf(w: World, train: set<string>, rows: seq<Row>): (entries: seq<Entry>)
    ensures |entries| == |rows|
    ensures forall i :: 0 <= i < |rows| ==> entries[i] == EntryOf(w, train, rows[i])
  {
    seq(|rows|, i requires 0 <= i < |rows| => EntryOf(w, train, rows[i]))
  }

  function CountSplit(entries: seq<Entry>, split: Split): nat {
    if entries == [] then 0
    else CountSplit(entries[..|entries| - 1], split) + if entries[|entries| - 1].split == split then 1 else 0
  }

  function CountsOf(entries: seq<Entry>, clusters: int, percent: int): Counts {
    var k := TrainCount(clusters, percent);
    Counts(|entries|, clusters, CountSplit(entries, Train), CountSplit(entries, Evaluation), k, clusters - k)
  }

  function ById(): (Row, Row) -> bool { (a, b) => IdOf(a) <= IdOf(b) }

  predicate ScopeOk(a: Args) {
    || (a.workflow.None? && a.version.None? && a.step.None?)
    || (a.workflow.Some? && a.version.Some? && a.step.Some?
        && a.workflow.value != "" && a.version.value != "" && a.step.value != "")
  }

  function ScopeOf(a: Args): Option<Scope>
    requires ScopeOk(a)
  {
    if a.workflow.None? then None else Some(Scope(a.workflow.value, a.version.value, a.step.value))
  }

  /** When creation succeeds. */
  predicate Creatable(w: World, rows: seq<Row>, a: Args) {
    && IsLabel(a.useCase) && IsLabel(a.salt) && 1 <= a.trainPercent <= 99 && ScopeOk(a)
    && RowsUsable(rows) && |Clusters(w, rows)| >= 2 && a.created.Aware?
  }

  /** The entries it then freezes, in the order of the trace ids. */
  function FrozenEntries(w: World, rows: seq<Row>, a: Args): seq<Entry> {
    EntriesOf(w, TrainSet(w, a.salt, a.trainPercent, Clusters(w, rows)), Sort(rows, ById()))
  }

  function Build(w: World, rows: seq<Row>, a: Args): Manifest
    requires Creatable(w, rows, a)
  {
    var entries := FrozenEntries(w, rows, a);
    var core := Core(VERSION, KIND, PURPOSE, w.format(a.created.instant), a.useCase, ScopeOf(a), ALGORITHM,
                     a.trainPercent, a.salt, CountsOf(entries, |Clusters(w, rows)|, a.trainPercent), entries);
    Manifest(core, w.seal(core))
  }

  lemma BuildFields(w: World, rows: seq<Row>, a: Args)
    requires Creatable(w, rows, a)
    ensures var core := Build(w, rows, a).core;
            && core.entries == FrozenEntries(w, rows, a) && core.salt == a.salt && core.useCase == a.useCase
            && core.trainPercent == a.trainPercent && core.scope == ScopeOf(a)
            && core.createdAt == w.format(a.created.instant)
            && core.counts == CountsOf(core.entries, |Clusters(w, rows)|, a.trainPercent)
  {
  }

  lemma ClustersStep(w: World, rows: seq<Row>, i: nat)
    requires i < |rows|
    ensures Clusters(w, rows[..i + 1]) == AddKey(Clusters(w, rows[..i]), ClusterOf(w, rows[i]))
  {
    var names := RowClusters(w, rows[..i + 1]);
    assert names[..i] == RowClusters(w, rows[..i]);
  }

  function RowIds(rows: seq<Row>): set<Option<int>> { set row | row in rows :: row.id }

  lemma RowsUsableStep(rows: seq<Row>, i: nat)
    requires i < |rows|
    ensures RowsUsable(rows[..i + 1])
            <==> RowsUsable(rows[..i]) && Usable(rows[i]) && rows[i].id !in RowIds(rows[..i])
    ensures RowsUsable(rows) ==> RowsUsable(rows[..i + 1])
    ensures RowIds(rows[..i + 1]) == RowIds(rows[..i]) + {rows[i].id}
  {
    hide Usable;
    var before, after := rows[..i], rows[..i + 1];
    assert after == before + [rows[i]];
    if RowsUsable(after) {
      assert forall j :: 0 <= j < i ==> before[j] == after[j];
      forall row | row in before ensures row.id != rows[i].id {
        var j :| 0 <= j < i && before[j] == row;
        assert after[j].id != after[i].id;
      }
    }
    if RowsUsable(before) && Usable(rows[i]) && rows[i].id !in RowIds(before) {
      forall j | 0 <= j < i ensures before[j].id != rows[i].id { assert before[j] in before; }
    }
  }

  lemma NoRows(w: World)
    ensures RowsUsable([]) && RowIds([]) == {} && Clusters(w, []) == []
  {
  }

  /** The row loop of creation: unique positive ids, unpruned bodies, clusters in order of appearance. */
  method ScanRows(w: World, rows: seq<Row>) returns (ok: bool, clusters: seq<string>)
    ensures ok <==> RowsUsable(rows)
    ensures ok ==> clusters == Clusters(w, rows)
  {
    hide RowsUsable;
    hide RowIds;
    hide Clusters;
    hide ClusterOf;
    clusters := [];
    var seen: set<Option<int>> := {};
    NoRows(w);
    for i := 0 to |rows|
      invariant RowsUsable(rows[..i])
      invariant clusters == Clusters(w, rows[..i])
      invariant seen == RowIds(rows[..i])
    {
      var row := rows[i];
      RowsUsableStep(rows, i);
      if row.id.None? || row.id.value < 1 || row.id in seen || row.request.None? || row.response.None? {
        return false, [];
      }
      seen := seen + {row.id};
      ClustersStep(w, rows, i);
      var cluster := ClusterOf(w, row);
      if cluster !in clusters { clusters := clusters + [cluster]; }
    }
    ok := true;
    assert rows[..|rows|] == rows;
  }

  /** The entry loop of creation. */
  method FreezeRows(w: World, train: set<string>, rows: seq<Row>) returns (entries: seq<Entry>)
    ensures entries == EntriesOf(w, train, rows)
  {
    hide EntryOf;
    entries := [];
    for i := 0 to |rows|
      invariant entries == EntriesOf(w, train, rows[..i])
    {
      entries := entries + [EntryOf(w, train, rows[i])];
    }
    assert rows[..|rows|] == rows;
  }

  /** Creation succeeds exactly when it may, and then freezes exactly what it should. */
  method Create(w: World, rows: seq<Row>, a: Args) returns (m: Option<Manifest>)
    ensures m.Some? <==> Creatable(w, rows, a)
    ensures m.Some? ==> m.value == Build(w, rows, a)
  {
    hide IsLabel;
    hide RowsUsable;
    hide Clusters;
    hide KIND;
    hide PURPOSE;
    hide ALGORITHM;
    if !IsLabel(a.useCase) || !IsLabel(a.salt) || !(1 <= a.trainPercent <= 99) { return None; }
    if !ScopeOk(a) { return None; }
    if rows == [] {
      NoRows(w);
      return None;
    }
    var ok, clusters := ScanRows(w, rows);
    if !ok || |clusters| < 2 { return None; }
    var train := TrainSet(w, a.salt, a.trainPercent, clusters);
    var entries := FreezeRows(w, train, Sort(rows, ById()));
    if a.created.Naive? { return None; }
    hide TrainSet;
    hide EntriesOf;
    hide CountsOf;
    hide Sort;
    var core := Core(VERSION, KIND, PURPOSE, w.format(a.created.instant), a.useCase, ScopeOf(a), ALGORITHM,
                     a.trainPercent, a.salt, CountsOf(entries, |clusters|, a.trainPercent), entries);
    m := Some(Manifest(core, w.seal(core)));
  }

  lemma ByIdIsTotal()
    ensures TotalPreorder(ById())
  {
  }

  lemma UsablePermuted(rows: seq<Row>, other: seq<Row>)
    requires RowsUsable(rows) && multiset(rows) == multiset(other)
    ensures RowsUsable(other)
    ensures Untied(rows, ById())
  {
    SameMultiset(rows, other);
    forall i, j | 0 <= i < j < |rows| ensures rows[i] != rows[j] { assert rows[i].id != rows[j].id; }
    PermutedNoDuplicates(rows, other);
    forall x, y | x in rows && y in rows && x.id == y.id ensures x == y {
      var i :| 0 <= i < |rows| && rows[i] == x;
      var j :| 0 <= j < |rows| && rows[j] == y;
      assert i == j || i < j || j < i;
    }
    forall i | 0 <= i < |other| ensures Usable(other[i]) { assert other[i] in rows; }
    forall i, j | 0 <= i < j < |other| ensures other[i].id != other[j].id {
      assert other[i] in rows && other[j] in rows;
    }
  }

  lemma SameRowsSameClusters(w: World, rows: seq<Row>, other: seq<Row>)
    requires multiset(rows) == multiset(other)
    ensures forall x :: x in Clusters(w, rows) <==> x in Clusters(w, other)
  {
    SameMultiset(rows, other);
    ClustersFacts(w, rows);
    ClustersFacts(w, other);
    hide Clusters;
    forall x ensures x in RowClusters(w, rows) <==> x in RowClusters(w, other) {
      if x in RowClusters(w, rows) {
        var i :| 0 <= i < |rows| && RowClusters(w, rows)[i] == x;
        assert rows[i] in other;
        var j :| 0 <= j < |other| && other[j] == rows[i];
        assert RowClusters(w, other)[j] == x;
      }
      if x in RowClusters(w, other) {
        var i :| 0 <= i < |other| && RowClusters(w, other)[i] == x;
        assert other[i] in rows;
        var j :| 0 <= j < |rows| && rows[j] == other[i];
        assert RowClusters(w, rows)[j] == x;
      }
    }
  }

  /** The manifest does not depend on the order of the rows. */
  lemma CreateForgetsOrder(w: World, rows: seq<Row>, other: seq<Row>, a: Args)
    requires Creatable(w, rows, a) && multiset(rows) == multiset(other)
    requires DistinctRanks(w, a.salt, Clusters(w, rows))
    ensures Creatable(w, other, a) && Build(w, other, a) == Build(w, rows, a)
  {
    UsablePermuted(rows, other);
    SameRowsSameClusters(w, rows, other);
    ClustersFacts(w, rows);
    ClustersFacts(w, other);
    TrainSetForgetsOrder(w, a.salt, a.trainPercent, Clusters(w, rows), Clusters(w, other));
    ByIdIsTotal();
    SortForgetsOrder(rows, other, ById());
  }

  // ----- acceptance ------------------------------------------------------------------------------

  predicate ScopeAccepted(scope: Option<Scope>) {
    scope.Some? ==> scope.value.workflow != "" && scope.value.version != "" && scope.value.step != ""
  }

  predicate EntryShape(e: Entry) { e.traceId >= 1 && IsSha(e.cluster) && IsSha(e.request) && IsSha(e.response) }

  predicate HeaderAccepted(w: World, m: Manifest) {
    && m.digest == w.seal(m.core)
    && m.core.version == VERSION && m.core.kind == KIND && m.core.purpose == PURPOSE
    && IsLabel(m.core.useCase) && w.parse(m.core.createdAt).Some? && w.parse(m.core.createdAt).value.Aware?
    && m.core.algorithm == ALGORITHM && 1 <= m.core.trainPercent <= 99 && IsLabel(m.core.salt)
    && ScopeAccepted(m.core.scope)
  }

  /** Distinct well-formed entries that keep every cluster in one split. */
  predicate EntriesAccepted(entries: seq<Entry>) {
    && (forall i :: 0 <= i < |entries| ==> EntryShape(entries[i]))
    && (forall i, j :: 0 <= i < j < |entries| ==> entries[i].traceId != entries[j].traceId)
    && (forall i, j :: 0 <= i < j < |entries| && entries[i].cluster == entries[j].cluster
          ==> entries[i].split == entries[j].split)
  }

  predicate BothSplits(entries: seq<Entry>) {
    && (exists i :: 0 <= i < |entries| && entries[i].split == Train)
    && (exists i :: 0 <= i < |entries| && entries[i].split == Evaluation)
  }

  /** The entries in the training split are exactly those of the first clusters by rank. */
  predicate PartitionAccepted(w: World, core: Core) {
    var train := TrainSet(w, core.salt, core.trainPercent, FirstSeen(EntryClusters(core.entries)));
    forall i :: 0 <= i < |core.entries| ==> (core.entries[i].split == Train <==> core.entries[i].cluster in train)
  }

  /** When a manifest alone is accepted. */
  predicate Accepts(w: World, m: Manifest) {
    && HeaderAccepted(w, m) && EntriesAccepted(m.core.entries) && BothSplits(m.core.entries)
    && PartitionAccepted(w, m.core)
    && m.core.counts == CountsOf(m.core.entries, |FirstSeen(EntryClusters(m.core.entries))|, m.core.trainPercent)
  }

  /** The row a dictionary keyed by id holds: the last one with that id. */
  function LiveRow(rows: seq<Row>, id: int): Option<Row> {
    if rows == [] then None
    else if rows[|rows| - 1].id == Some(id) then Some(rows[|rows| - 1])
    else LiveRow(rows[..|rows| - 1], id)
  }

  /** The live trace behind an entry is there, unpruned, and unchanged. */
  predicate Bound(w: World, e: Entry, rows: seq<Row>) {
    var row := LiveRow(rows, e.traceId);
    && row.Some? && row.value.request.Some? && row.value.response.Some?
    && w.sha(row.value.request.value) == e.request && w.sha(row.value.response.value) == e.response
    && ClusterOf(w, row.value) == e.cluster
  }

  predicate AllBound(w: World, entries: seq<Entry>, rows: seq<Row>) {
    forall i :: 0 <= i < |entries| ==> Bound(w, entries[i], rows)
  }

  predicate Listed(entries: seq<Entry>, rows: seq<Row>) {
    forall i :: 0 <= i < |entries| ==> LiveRow(rows, entries[i].traceId).Some?
  }

  /** The live rows behind the entries, in the order of the entries. */
  function Rebuilt(entries: seq<Entry>, rows: seq<Row>): (rebuilt: seq<Row>)
    requires Listed(entries, rows)
    ensures |rebuilt| == |entries|
    ensures forall i :: 0 <= i < |entries| ==> Some(rebuilt[i]) == LiveRow(rows, entries[i].traceId)
  {
    seq(|entries|, i requires 0 <= i < |entries| => LiveRow(rows, entries[i].traceId).value)
  }

  function ArgsOf(w: World, core: Core): Args {
    var created := w.parse(core.createdAt);
    Args(core.useCase, core.trainPercent, core.salt,
         if core.scope.None? then None else Some(core.scope.value.workflow),
         if core.scope.None? then None else Some(core.scope.value.version),
         if core.scope.None? then None else Some(core.scope.value.step),
         if created.None? then Naive else created.value)
  }

  /** The manifest is, to the letter, what creation makes of the live rows it lists. */
  predicate Recreated(w: World, m: Manifest, rows: seq<Row>) {
    && Listed(m.core.entries, rows)
    && var rebuilt := Rebuilt(m.core.entries, rows);
       var a := ArgsOf(w, m.core);
       Creatable(w, rebuilt, a) && Build(w, rebuilt, a) == m
  }

  /** When a manifest is accepted against live rows. */
  predicate AcceptsLive(w: World, m: Manifest, rows: seq<Row>) {
    Accepts(w, m) && AllBound(w, m.core.entries, rows) && Recreated(w, m, rows)
  }

  lemma EntryClustersStep(entries: seq<Entry>, i: nat)
    requires i < |entries|
    ensures FirstSeen(EntryClusters(entries[..i + 1]))
            == AddKey(FirstSeen(EntryClusters(entries[..i])), entries[i].cluster)
  {
    var names := EntryClusters(entries[..i + 1]);
    assert names[..i] == EntryClusters(entries[..i]);
  }

  /** The table of splits records exactly the clusters of the entries, each with its entries' split. */
  ghost predicate SplitTable(entries: seq<Entry>, splits: map<string, Split>) {
    && (forall i :: 0 <= i < |entries| ==>
                      entries[i].cluster in splits && splits[entries[i].cluster] == entries[i].split)
    && (forall c :: c in splits ==> exists i :: 0 <= i < |entries| && entries[i].cluster == c)
  }

  lemma SplitTableStep(entries: seq<Entry>, i: nat, splits: map<string, Split>)
    requires i < |entries| && SplitTable(entries[..i], splits)
    ensures entries[i].cluster in splits && splits[entries[i].cluster] == entries[i].split ==>
              SplitTable(entries[..i + 1], splits)
    ensures entries[i].cluster !in splits ==>
              SplitTable(entries[..i + 1], splits[entries[i].cluster := entries[i].split])
  {
    var before, after := entries[..i], entries[..i + 1];
    assert forall j :: 0 <= j < i ==> after[j] == before[j];
    forall c | c in splits ensures exists j :: 0 <= j < |after| && after[j].cluster == c {
      var j :| 0 <= j < |before| && before[j].cluster == c;
      assert after[j].cluster == c;
    }
    assert after[i] == entries[i];
  }

  function TraceIds(entries: seq<Entry>): set<int> { set e | e in entries :: e.traceId }

  lemma EntriesAcceptedStep(entries: seq<Entry>, i: nat, splits: map<string, Split>)
    requires i < |entries| && SplitTable(entries[..i], splits) && EntriesAccepted(entries[..i])
    ensures EntriesAccepted(entries[..i + 1])
            <==> (EntryShape(entries[i]) && entries[i].traceId !in TraceIds(entries[..i])
                  && (entries[i].cluster in splits ==> splits[entries[i].cluster] == entries[i].split))
    ensures TraceIds(entries[..i + 1]) == TraceIds(entries[..i]) + {entries[i].traceId}
  {
    hide EntryShape;
    var before, after, e := entries[..i], entries[..i + 1], entries[i];
    assert after == before + [e];
    assert forall j :: 0 <= j < i ==> after[j] == before[j];
    assert after[i] == e;
    if EntriesAccepted(after) {
      forall x | x in before ensures x.traceId != e.traceId {
        var j :| 0 <= j < i && before[j] == x;
        assert after[j].traceId != after[i].traceId;
      }
      if e.cluster in splits {
        var j :| 0 <= j < |before| && before[j].cluster == e.cluster;
        assert after[j].cluster == after[i].cluster && splits[e.cluster] == after[j].split;
      }
    }
    if EntryShape(e) && e.traceId !in TraceIds(before) {
      forall j | 0 <= j < i ensures before[j].traceId != e.traceId { assert before[j] in before; }
      if e.cluster in splits ==> splits[e.cluster] == e.split {
        EntriesExtended(before, e, splits);
      }
    }
  }

  lemma EntriesExtended(before: seq<Entry>, e: Entry, splits: map<string, Split>)
    requires EntriesAccepted(before) && SplitTable(before, splits) && EntryShape(e)
    requires forall j :: 0 <= j < |before| ==> before[j].traceId != e.traceId
    requires e.cluster in splits ==> splits[e.cluster] == e.split
    ensures EntriesAccepted(before + [e])
  {
    hide EntryShape;
    forall j | 0 <= j < |before| && before[j].cluster == e.cluster ensures before[j].split == e.split {}
  }

  lemma AllBoundStep(w: World, entries: seq<Entry>, i: nat, rows: seq<Row>)
    requires i < |entries|
    ensures AllBound(w, entries[..i + 1], rows) <==> AllBound(w, entries[..i], rows) && Bound(w, entries[i], rows)
    ensures AllBound(w, entries, rows) ==> AllBound(w, entries[..i + 1], rows)
  {
    hide Bound;
    assert entries[..i + 1] == entries[..i] + [entries[i]];
  }

  lemma EntriesAcceptedPrefix(entries: seq<Entry>, i: nat)
    requires i <= |entries| && EntriesAccepted(entries)
    ensures EntriesAccepted(entries[..i])
  {
  }

  lemma NoEntries(w: World, live: Option<seq<Row>>)
    ensures FirstSeen(EntryClusters([])) == [] && TraceIds([]) == {} && EntriesAccepted([]) && SplitTable([], map[])
    ensures live.Some? ==> AllBound(w, [], live.value)
  {
  }

  /** The entry loop of verification: shapes, unique ids, one split per cluster, and live bindings. */
  method ScanEntries(w: World, entries: seq<Entry>, live: Option<seq<Row>>)
    returns (ok: bool, clusters: seq<string>, splits: map<string, Split>)
    ensures ok <==> EntriesAccepted(entries) && (live.Some? ==> AllBound(w, entries, live.value))
    ensures ok ==> clusters == FirstSeen(EntryClusters(entries)) && SplitTable(entries, splits)
    ensures ok ==> forall c :: c in splits <==> c in clusters
  {
    hide EntryShape;
    hide FirstSeen;
    hide Bound;
    hide TraceIds;
    clusters, splits := [], map[];
    var seen: set<int> := {};
    hide EntriesAccepted;
    hide SplitTable;
    hide AllBound;
    NoEntries(w, live);
    for i := 0 to |entries|
      invariant EntriesAccepted(entries[..i]) && SplitTable(entries[..i], splits)
      invariant live.Some? ==> AllBound(w, entries[..i], live.value)
      invariant clusters == FirstSeen(EntryClusters(entries[..i])) && (forall c :: c in splits <==> c in clusters)
      invariant seen == TraceIds(entries[..i])
    {
      var entry := entries[i];
      EntriesAcceptedStep(entries, i, splits);
      if live.Some? { AllBoundStep(w, entries, i, live.value); }
      if EntriesAccepted(entries) { EntriesAcceptedPrefix(entries, i + 1); }
      if !EntryShape(entry) || entry.traceId in seen { return false, [], map[]; }
      seen := seen + {entry.traceId};
      EntryClustersStep(entries, i);
      SplitTableStep(entries, i, splits);
      if entry.cluster in splits {
        if splits[entry.cluster] != entry.split { return false, [], map[]; }
      } else {
        splits := splits[entry.cluster := entry.split];
        clusters := clusters + [entry.cluster];
      }
      if live.Some? && !Bound(w, entry, live.value) { return false, [], map[]; }
    }
    ok := true;
    assert entries[..|entries|] == entries;
  }

  /** Verification accepts exactly the acceptable manifests, with or without live rows. */
  method Verify(w: World, m: Manifest, live: Option<seq<Row>>) returns (ok: bool)
    ensures live.None? ==> (ok <==> Accepts(w, m))
    ensures live.Some? ==> (ok <==> AcceptsLive(w, m, live.value))
  {
    hide HeaderAccepted;
    hide EntriesAccepted;
    hide CountsOf;
    hide Creatable;
    hide Build;
    hide AllBound;
    hide Listed;
    hide BothSplits;
    hide PartitionAccepted;
    hide SplitTable;
    hide TrainSet;
    hide FirstSeen;
    hide EntryClusters;
    hide ArgsOf;
    if !HeaderAccepted(w, m) { return false; }
    var entries := m.core.entries;
    var scanned, clusters, splits := ScanEntries(w, entries, live);
    if !scanned { return false; }
    SplitValues(entries, clusters, splits);
    if |clusters| < 2 || splits.Values != {Train, Evaluation} { return false; }
    PartitionChecked(w, m.core, splits);
    var train := TrainSet(w, m.core.salt, m.core.trainPercent, clusters);
    if (set c | c in splits && splits[c] == Train) != train { return false; }
    if m.core.counts != CountsOf(entries, |clusters|, m.core.trainPercent) { return false; }
    if live.Some? {
      AllBoundListed(w, entries, live.value);
      var rebuilt := Create(w, Rebuilt(entries, live.value), ArgsOf(w, m.core));
      return rebuilt == Some(m);
    }
    ok := true;
  }

  lemma AllBoundListed(w: World, entries: seq<Entry>, rows: seq<Row>)
    requires AllBound(w, entries, rows)
    ensures Listed(entries, rows)
  {
    forall i | 0 <= i < |entries| ensures LiveRow(rows, entries[i].traceId).Some? {
      assert Bound(w, entries[i], rows);
    }
  }

  lemma TrainSetWithin(w: World, salt: string, percent: int, entries: seq<Entry>)
    ensures forall c :: c in TrainSet(w, salt, percent, FirstSeen(EntryClusters(entries))) ==>
                          c in FirstSeen(EntryClusters(entries))
  {
    FirstSeenFacts(EntryClusters(entries));
    RankedFacts(w, salt, FirstSeen(EntryClusters(entries)));
  }

  /** Comparing the clusters marked for training with a set is comparing the entries with it. */
  lemma SplitsAgree(entries: seq<Entry>, splits: map<string, Split>, train: set<string>)
    requires SplitTable(entries, splits) && train <= splits.Keys
    ensures (set c | c in splits && splits[c] == Train) == train
            <==> forall i :: 0 <= i < |entries| ==> (entries[i].split == Train <==> entries[i].cluster in train)
  {
    if forall i :: 0 <= i < |entries| ==> (entries[i].split == Train <==> entries[i].cluster in train) {
      forall c | c in splits ensures splits[c] == Train <==> c in train {
        var i :| 0 <= i < |entries| && entries[i].cluster == c;
      }
    }
    if (set c | c in splits && splits[c] == Train) == train {
      forall i | 0 <= i < |entries| ensures entries[i].split == Train <==> entries[i].cluster in train {
        assert entries[i].cluster in splits && splits[entries[i].cluster] == entries[i].split;
      }
    }
  }

  lemma PartitionChecked(w: World, core: Core, splits: map<string, Split>)
    requires SplitTable(core.entries, splits)
    requires forall c :: c in splits <==> c in FirstSeen(EntryClusters(core.entries))
    ensures (set c | c in splits && splits[c] == Train)
            == TrainSet(w, core.salt, core.trainPercent, FirstSeen(EntryClusters(core.entries)))
            <==> PartitionAccepted(w, core)
  {
    TrainSetWithin(w, core.salt, core.trainPercent, core.entries);
    hide SplitTable;
    hide TrainSet;
    SplitsAgree(core.entries, splits,
                TrainSet(w, core.salt, core.trainPercent, FirstSeen(EntryClusters(core.entries))));
  }

  lemma SplitMet(entries: seq<Entry>, splits: map<string, Split>, split: Split)
    requires SplitTable(entries, splits) && split in splits.Values
    ensures exists i :: 0 <= i < |entries| && entries[i].split == split
  {
    var c :| c in splits && splits[c] == split;
    var i :| 0 <= i < |entries| && entries[i].cluster == c;
    assert entries[i].split == split;
  }

  /** The table shows both splits exactly when the entries do. */
  lemma SplitValues(entries: seq<Entry>, clusters: seq<string>, splits: map<string, Split>)
    requires SplitTable(entries, splits) && forall c :: c in splits <==> c in clusters
    ensures |clusters| >= 2 && splits.Values == {Train, Evaluation} <==> BothSplits(entries)
  {
    if BothSplits(entries) {
      var i :| 0 <= i < |entries| && entries[i].split == Train;
      var j :| 0 <= j < |entries| && entries[j].split == Evaluation;
      var c, d := entries[i].cluster, entries[j].cluster;
      assert c != d && c in clusters && d in clusters;
      assert splits[c] in splits.Values && splits[d] in splits.Values;
      assert splits.Values == {Train, Evaluation};
    }
    if splits.Values == {Train, Evaluation} {
      SplitMet(entries, splits, Train);
      SplitMet(entries, splits, Evaluation);
    }
  }

  predicate IdsUnique(rows: seq<Row>) { forall i, j :: 0 <= i < j < |rows| ==> rows[i].id != rows[j].id }

  /** Selected entries are bound to live payloads; a repeated id among the rows is refused. */
  method VerifyBindings(w: World, entries: seq<Entry>, rows: seq<Row>) returns (ok: bool)
    ensures ok <==> entries != [] && IdsUnique(rows) && AllBound(w, entries, rows)
  {
    if entries == [] { return false; }
    var ids: set<Option<int>> := {};
    var unique := true;
    for i := 0 to |rows|
      invariant forall k :: k in ids <==> exists j :: 0 <= j < i && rows[j].id == k
      invariant unique <==> IdsUnique(rows[..i])
    {
      unique := unique && rows[i].id !in ids;
      ids := ids + {rows[i].id};
    }
    assert rows[..|rows|] == rows;
    if !unique { return false; }
    for i := 0 to |entries|
      invariant AllBound(w, entries[..i], rows)
    {
      if !Bound(w, entries[i], rows) { return false; }
    }
    ok := true;
  }
}
