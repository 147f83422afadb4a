/** What a manifest says about the traces behind it: their groups, their payloads, and its counts. */
module ManifestLaws {
  import opened Prelude
  import opened Sorting
  import opened Manifest
  import opened ManifestSafety
  import Text

  // ----- groups ----------------------------------------------------------------------------------

  lemma PrintedInjective(a: int, b: int)
    requires Text.Printed(a) == Text.Printed(b)
    ensures a == b
  {
    Text.ParsePrinted(a);
    Text.ParsePrinted(b);
  }

  /** Short of a digest collision two traces are in the same group exactly when they belong to the same
      task, or are one and the same trace without a task. */
  lemma SameGroupIff(w: World, x: Row, y: Row)
    requires w.sha(ClusterSource(x)) == w.sha(ClusterSource(y)) ==> ClusterSource(x) == ClusterSource(y)
    ensures ClusterOf(w, x) == ClusterOf(w, y)
            <==> x.taskId == y.taskId && (x.taskId.None? ==> IdOf(x) == IdOf(y))
  {
    var a, b := ClusterSource(x), ClusterSource(y);
    if a == b {
      assert a[1] == b[1];
      assert x.taskId.Some? <==> y.taskId.Some?;
      if x.taskId.Some? {
        assert x.taskId.value == a[5..] && y.taskId.value == b[5..];
      } else {
        assert Text.Printed(IdOf(x)) == a[6..] && Text.Printed(IdOf(y)) == b[6..];
        PrintedInjective(IdOf(x), IdOf(y));
      }
    }
  }

  lemma EntryGroup(w: World, m: Manifest, rows: seq<Row>, i: nat)
    requires AllBound(w, m.core.entries, rows) && i < |m.core.entries|
    ensures LiveRow(rows, m.core.entries[i].traceId).Some?
    ensures m.core.entries[i].cluster == ClusterOf(w, LiveRow(rows, m.core.entries[i].traceId).value)
  {
    hide LiveRow, ClusterOf;
    assert Bound(w, m.core.entries[i], rows);
  }

  lemma SameGroupSameSplit(entries: seq<Entry>, i: nat, j: nat)
    requires EntriesAccepted(entries) && i < |entries| && j < |entries| && entries[i].cluster == entries[j].cluster
    ensures entries[i].split == entries[j].split
  {
    hide EntryShape;
    assert i == j || i < j || j < i;
  }

  lemma LiveParts(w: World, m: Manifest, rows: seq<Row>)
    requires AcceptsLive(w, m, rows)
    ensures AllBound(w, m.core.entries, rows) && EntriesAccepted(m.core.entries)
  {
    hide HeaderAccepted, BothSplits, PartitionAccepted, CountsOf, Recreated, AllBound, EntriesAccepted;
  }

  /** The live traces behind the two entries belong to one task. */
  predicate SameTask(rows: seq<Row>, a: Entry, b: Entry) {
    var x, y := LiveRow(rows, a.traceId), LiveRow(rows, b.traceId);
    x.Some? && y.Some? && x.value.taskId.Some? && x.value.taskId == y.value.taskId
  }

  /** No task is in both splits: live traces of one task behind an accepted manifest share their split. */
  lemma NoTaskStraddles(w: World, m: Manifest, rows: seq<Row>, i: nat, j: nat)
    requires i < |m.core.entries| && j < |m.core.entries|
    requires SameTask(rows, m.core.entries[i], m.core.entries[j]) && AcceptsLive(w, m, rows)
    ensures m.core.entries[i].split == m.core.entries[j].split
  {
    hide AcceptsLive, AllBound, EntriesAccepted, LiveRow;
    LiveParts(w, m, rows);
    EntryGroup(w, m, rows, i);
    EntryGroup(w, m, rows, j);
    SameGroupSameSplit(m.core.entries, i, j);
  }

  // ----- rows ------------------------------------------------------------------------------------

  /** A dictionary keyed by id holds the last row with that id. */
  lemma {:induction false} LiveRowIsLast(rows: seq<Row>, id: int, i: nat)
    requires i < |rows|
    ensures rows[i].id == Some(id) && (forall j :: i < j < |rows| ==> rows[j].id != Some(id)) ==>
              LiveRow(rows, id) == Some(rows[i])
    ensures LiveRow(rows, id) == None ==> rows[i].id != Some(id)
  {
    if i < |rows| - 1 { LiveRowIsLast(rows[..|rows| - 1], id, i); }
  }

  /** The entry holds the digests of this trace's two bodies, and its group. */
  predicate Freezes(w: World, e: Entry, row: Row) {
    && Some(e.traceId) == row.id && e.cluster == ClusterOf(w, row)
    && row.request.Some? && e.request == w.sha(row.request.value)
    && row.response.Some? && e.response == w.sha(row.response.value)
  }

  predicate Ascending(entries: seq<Entry>) {
    forall i, j :: 0 <= i < j < |entries| ==> entries[i].traceId < entries[j].traceId
  }

  lemma RowsAscend(rows: seq<Row>, i: nat, j: nat)
    requires RowsUsable(rows) && Sorted(rows, ById()) && i < j < |rows|
    ensures IdOf(rows[i]) < IdOf(rows[j])
  {
    SortedPair(rows, ById(), i, j);
    assert ById()(rows[i], rows[j]);
    hide Sorted;
    assert Usable(rows[i]) && Usable(rows[j]) && rows[i].id != rows[j].id;
  }

  lemma EntriesFreeze(w: World, train: set<string>, rows: seq<Row>)
    requires RowsUsable(rows)
    ensures forall i :: 0 <= i < |rows| ==> Freezes(w, EntriesOf(w, train, rows)[i], rows[i])
  {
    hide ClusterOf;
    forall i | 0 <= i < |rows| ensures Freezes(w, EntriesOf(w, train, rows)[i], rows[i]) { assert Usable(rows[i]); }
  }

  lemma SortedById(rows: seq<Row>)
    requires RowsUsable(rows)
    ensures RowsUsable(Sort(rows, ById())) && Sorted(Sort(rows, ById()), ById()) && |Sort(rows, ById())| == |rows|
    ensures forall row :: row in rows ==> row in Sort(rows, ById())
  {
    hide RowsUsable, Sorted, Sort;
    SortedRows(rows);
    ByIdIsTotal();
    SortSorts(rows, ById());
    SameMultiset(rows, Sort(rows, ById()));
    hide ById;
  }

  lemma OneEntryEach(w: World, train: set<string>, sorted: seq<Row>)
    requires RowsUsable(sorted) && Sorted(sorted, ById())
    ensures Ascending(EntriesOf(w, train, sorted))
    ensures forall row :: row in sorted ==> exists e :: e in EntriesOf(w, train, sorted) && Freezes(w, e, row)
  {
    var entries := EntriesOf(w, train, sorted);
    EntriesFreeze(w, train, sorted);
    hide Sorted, RowsUsable, Freezes;
    forall i, j | 0 <= i < j < |entries| ensures entries[i].traceId < entries[j].traceId {
      RowsAscend(sorted, i, j);
    }
    forall row | row in sorted ensures exists e :: e in entries && Freezes(w, e, row) {
      var i :| 0 <= i < |sorted| && sorted[i] == row;
      assert entries[i] in entries && Freezes(w, entries[i], row);
    }
  }

  /** Each trace is frozen in its own entry; there are no other entries, and they ascend by trace id. */
  lemma RowsAreFrozen(w: World, rows: seq<Row>, a: Args)
    requires Creatable(w, rows, a)
    ensures var entries := Build(w, rows, a).core.entries;
            && |entries| == |rows| && Ascending(entries)
            && forall row :: row in rows ==> exists e :: e in entries && Freezes(w, e, row)
  {
    assert RowsUsable(rows);
    hide Creatable, Build, RowsUsable, Sort, Sorted, TrainSet, Clusters, Freezes, Ascending, ById;
    BuildFields(w, rows, a);
    var train := TrainSet(w, a.salt, a.trainPercent, Clusters(w, rows));
    assert Build(w, rows, a).core.entries == EntriesOf(w, train, Sort(rows, ById()));
    SortedById(rows);
    OneEntryEach(w, train, Sort(rows, ById()));
  }

  // ----- counts ----------------------------------------------------------------------------------

  function InSplit(entries: seq<Entry>, split: Split): set<int> {
    set i | 0 <= i < |entries| && entries[i].split == split
  }

  function GroupsIn(entries: seq<Entry>, split: Split): set<string> {
    set i | 0 <= i < |entries| && entries[i].split == split :: entries[i].cluster
  }

  lemma {:induction false} CountIsSize(entries: seq<Entry>, split: Split)
    ensures CountSplit(entries, split) == |InSplit(entries, split)|
  {
    if entries != [] {
      var n := |entries| - 1;
      CountIsSize(entries[..n], split);
      var before, after := InSplit(entries[..n], split), InSplit(entries, split);
      if entries[n].split == split { assert after == before + {n}; } else { assert after == before; }
    }
  }

  /** How many of `n` groups train: the floor of the share, but at least one and not all. */
  lemma TrainCountIs(n: int, percent: int)
    requires n >= 2 && 1 <= percent <= 99
    ensures var k := TrainCount(n, percent);
            && 1 <= k < n && (k > 1 ==> 100 * k <= n * percent) && (k < n - 1 ==> n * percent < 100 * (k + 1))
  {
  }

  lemma TrainSetSize(w: World, salt: string, percent: int, clusters: seq<string>)
    requires NoDuplicates(clusters) && |clusters| >= 2 && 1 <= percent <= 99
    ensures |TrainSet(w, salt, percent, clusters)| == TrainCount(|clusters|, percent)
  {
    RankedFacts(w, salt, clusters);
    TrainCountIs(|clusters|, percent);
    hide Ranked, TrainCount;
    var ranked, k := Ranked(w, salt, clusters), TrainCount(|clusters|, percent);
    SizeOfPrefix(ranked, k, TrainSet(w, salt, percent, clusters));
  }

  lemma GroupsAre(entries: seq<Entry>, keys: seq<string>, train: set<string>)
    requires forall c :: c in keys <==> exists i :: 0 <= i < |entries| && entries[i].cluster == c
    requires forall i :: 0 <= i < |entries| ==> (entries[i].split == Train <==> entries[i].cluster in train)
    requires forall c :: c in train ==> c in keys
    ensures GroupsIn(entries, Train) == train
    ensures GroupsIn(entries, Evaluation) == (set c | c in keys) - train
  {
    forall c ensures c in GroupsIn(entries, Train) <==> c in train {
      if c in train { var i :| 0 <= i < |entries| && entries[i].cluster == c; }
    }
    forall c ensures c in GroupsIn(entries, Evaluation) <==> c in keys && c !in train {
      if c in keys && c !in train { var i :| 0 <= i < |entries| && entries[i].cluster == c; }
    }
  }

  /** Two groups at least, since entries of different splits are in different groups. */
  lemma TwoGroups(entries: seq<Entry>, keys: seq<string>)
    requires EntriesAccepted(entries) && BothSplits(entries) && NoDuplicates(keys)
    requires forall i :: 0 <= i < |entries| ==> entries[i].cluster in keys
    ensures |keys| >= 2
  {
    hide EntryShape;
    var i :| 0 <= i < |entries| && entries[i].split == Train;
    var j :| 0 <= j < |entries| && entries[j].split == Evaluation;
    assert entries[i].cluster != entries[j].cluster by { assert i < j || j < i; }
    assert entries[i].cluster in keys && entries[j].cluster in keys;
  }

  lemma KeysAre(entries: seq<Entry>)
    ensures NoDuplicates(FirstSeen(EntryClusters(entries)))
    ensures forall c :: c in FirstSeen(EntryClusters(entries))
                        <==> exists i :: 0 <= i < |entries| && entries[i].cluster == c
    ensures forall i :: 0 <= i < |entries| ==> entries[i].cluster in FirstSeen(EntryClusters(entries))
  {
    FirstSeenFacts(EntryClusters(entries));
    hide FirstSeen, NoDuplicates;
    forall i | 0 <= i < |entries| ensures entries[i].cluster in EntryClusters(entries) {
      assert EntryClusters(entries)[i] == entries[i].cluster;
    }
  }

  lemma SizesOf(keys: seq<string>, train: set<string>, rest: set<string>)
    requires NoDuplicates(keys) && (forall c :: c in train ==> c in keys) && rest == (set c | c in keys) - train
    ensures |train| + |rest| == |keys| == |train + rest| && train !! rest
  {
    PrefixSize(keys);
    hide NoDuplicates;
    assert train + rest == set c | c in keys;
  }

  lemma TrainsByCluster(w: World, core: Core, keys: seq<string>, train: set<string>)
    requires keys == FirstSeen(EntryClusters(core.entries)) && PartitionAccepted(w, core)
    requires train == TrainSet(w, core.salt, core.trainPercent, keys)
    ensures forall i :: 0 <= i < |core.entries| ==>
              (core.entries[i].split == Train <==> core.entries[i].cluster in train)
  {
    hide TrainSet, FirstSeen, EntryClusters;
  }

  lemma GroupSizes(w: World, core: Core, keys: seq<string>)
    requires keys == FirstSeen(EntryClusters(core.entries)) && 1 <= core.trainPercent <= 99
    requires EntriesAccepted(core.entries) && BothSplits(core.entries) && PartitionAccepted(w, core)
    ensures var train, rest := GroupsIn(core.entries, Train), GroupsIn(core.entries, Evaluation);
            && |train| == TrainCount(|keys|, core.trainPercent) && |rest| == |keys| - |train|
            && |train + rest| == |keys| && train !! rest
  {
    var entries := core.entries;
    var train := TrainSet(w, core.salt, core.trainPercent, keys);
    hide EntriesAccepted, BothSplits, FirstSeen, TrainSet, NoDuplicates, TrainCount, EntryClusters, GroupsIn,
      PartitionAccepted;
    TrainsByCluster(w, core, keys, train);
    KeysAre(entries);
    TwoGroups(entries, keys);
    TrainSetSize(w, core.salt, core.trainPercent, keys);
    TrainSetWithin(w, core.salt, core.trainPercent, entries);
    GroupsAre(entries, keys, train);
    SizesOf(keys, train, GroupsIn(entries, Evaluation));
  }

  /** The counts of an accepted manifest are the numbers of its traces and groups, in all and by split. */
  lemma CountsAre(w: World, m: Manifest)
    requires Accepts(w, m)
    ensures var entries, counts := m.core.entries, m.core.counts;
            && counts.traces == |entries|
            && counts.clusters == |GroupsIn(entries, Train) + GroupsIn(entries, Evaluation)|
            && GroupsIn(entries, Train) !! GroupsIn(entries, Evaluation)
            && counts.trainTraces == |InSplit(entries, Train)| && counts.trainClusters == |GroupsIn(entries, Train)|
            && counts.evaluationTraces == |InSplit(entries, Evaluation)|
            && counts.evaluationClusters == |GroupsIn(entries, Evaluation)|
  {
    hide EntriesAccepted, BothSplits, PartitionAccepted, FirstSeen, TrainCount, CountSplit, EntryClusters, InSplit,
      GroupsIn, IsLabel, ScopeAccepted;
    CountIsSize(m.core.entries, Train);
    CountIsSize(m.core.entries, Evaluation);
    GroupSizes(w, m.core, FirstSeen(EntryClusters(m.core.entries)));
  }

  /** No two groups of the entries share a salted digest. */
  ghost predicate DistinctDigests(w: World, salt: string, entries: seq<Entry>) {
    forall i, j :: 0 <= i < |entries| && 0 <= j < |entries| && entries[i].cluster != entries[j].cluster ==>
                     w.sha(salt + ":" + entries[i].cluster) != w.sha(salt + ":" + entries[j].cluster)
  }

  lemma DigestsAreRanks(w: World, salt: string, entries: seq<Entry>)
    requires DistinctDigests(w, salt, entries)
    ensures DistinctRanks(w, salt, FirstSeen(EntryClusters(entries)))
  {
    var keys := FirstSeen(EntryClusters(entries));
    KeysAre(entries);
    hide FirstSeen, EntryClusters, NoDuplicates;
    forall c, d | c in keys && d in keys && c != d ensures Salted(w, salt)(c) != Salted(w, salt)(d) {
      var i :| 0 <= i < |entries| && entries[i].cluster == c;
      var j :| 0 <= j < |entries| && entries[j].cluster == d;
    }
  }

  /** The groups whose salted digest comes before this one's. */
  function Smaller(w: World, salt: string, groups: set<string>, own: string): set<string> {
    set c | c in groups && w.sha(salt + ":" + c) != w.sha(salt + ":" + own)
            && LexLeq(w.sha(salt + ":" + c), w.sha(salt + ":" + own))
  }

  /** Which groups train, by nothing but their digests: those with fewer smaller ones than groups train. */
  lemma SmallestDigestsTrain(w: World, m: Manifest, i: nat)
    requires Accepts(w, m) && i < |m.core.entries| && DistinctDigests(w, m.core.salt, m.core.entries)
    ensures var groups := set j | 0 <= j < |m.core.entries| :: m.core.entries[j].cluster;
            m.core.entries[i].split == Train
            <==> |Smaller(w, m.core.salt, groups, m.core.entries[i].cluster)|
                 < TrainCount(|groups|, m.core.trainPercent)
  {
    DigestsAreRanks(w, m.core.salt, m.core.entries);
    hide Accepts, FirstSeen, EntryClusters, TrainCount, LexLeq, DistinctDigests, DistinctRanks;
    AcceptedSplitIsByRank(w, m, i);
    var groups := set j | 0 <= j < |m.core.entries| :: m.core.entries[j].cluster;
    BeforeIs(w, m.core.salt, groups, m.core.entries[i].cluster);
  }

  lemma BeforeIs(w: World, salt: string, groups: set<string>, own: string)
    ensures Before(w, salt, groups, own) == Smaller(w, salt, groups, own)
  {
    hide LexLeq;
  }

  // ----- the seal and the labels -----------------------------------------------------------------

  /** A manifest cannot be altered under its digest: short of a collision, two accepted manifests with one
      digest are the same manifest. */
  lemma SealBinds(w: World, m: Manifest, n: Manifest)
    requires Accepts(w, m) && Accepts(w, n) && m.digest == n.digest
    requires w.seal(m.core) == w.seal(n.core) ==> m.core == n.core
    ensures m == n
  {
    hide EntriesAccepted, BothSplits, PartitionAccepted, CountsOf;
  }

  lemma {:induction false} BlankLeft(s: string)
    ensures Text.StripLeft(s) == "" <==> forall i :: 0 <= i < |s| ==> Text.IsSpace(s[i])
    ensures Text.StripLeft(s) != "" ==> !Text.IsSpace(Text.StripLeft(s)[0])
  {
    if s != "" && Text.IsSpace(s[0]) {
      BlankLeft(s[1..]);
      assert s == [s[0]] + s[1..];
    }
  }

  lemma {:induction false} KeepsHead(s: string)
    requires s != "" && !Text.IsSpace(s[0])
    ensures Text.StripRight(s) != ""
  {
    if Text.IsSpace(s[|s| - 1]) { KeepsHead(s[..|s| - 1]); }
  }

  /** A label is any text of at most 200 characters that are not all blank. */
  lemma LabelIff(s: string)
    ensures IsLabel(s) <==> |s| <= 200 && exists i :: 0 <= i < |s| && !Text.IsSpace(s[i])
  {
    BlankLeft(s);
    hide Text.StripLeft, Text.IsSpace;
    if Text.StripLeft(s) != "" { KeepsHead(Text.StripLeft(s)); }
  }
}
