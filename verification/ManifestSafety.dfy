/** What creation and verification of dataset manifests guarantee together. */
module ManifestSafety {
  import opened Prelude
  import opened Sorting
  import opened Manifest

  // ----- what creation freezes is accepted -------------------------------------------------------

  lemma {:induction false} LiveRowUnique(rows: seq<Row>, row: Row)
    requires RowsUsable(rows) && row in rows
    ensures LiveRow(rows, IdOf(row)) == Some(row)
  {
    var n := |rows| - 1;
    if rows[n].id == row.id {
      var i :| 0 <= i < |rows| && rows[i] == row;
      assert i == n || i < n;
    } else {
      assert rows == rows[..n] + [rows[n]];
      LiveRowUnique(rows[..n], row);
    }
  }

  lemma EntryClustersOfRows(w: World, train: set<string>, rows: seq<Row>)
    ensures EntryClusters(EntriesOf(w, train, rows)) == RowClusters(w, rows)
  {
  }

  /** Every cluster shows up among the entries, in the split the training set gives it. */
  lemma ClusterInEntries(w: World, train: set<string>, rows: seq<Row>, c: string)
    requires c in Clusters(w, rows)
    ensures exists i :: 0 <= i < |rows|
                    && EntriesOf(w, train, rows)[i].split == if c in train then Train else Evaluation
  {
    ClustersFacts(w, rows);
    var i :| 0 <= i < |rows| && RowClusters(w, rows)[i] == c;
    assert EntriesOf(w, train, rows)[i] == EntryOf(w, train, rows[i]);
  }

  lemma FrozenEntriesAccepted(w: World, train: set<string>, rows: seq<Row>)
    requires Sound(w) && RowsUsable(rows)
    ensures EntriesAccepted(EntriesOf(w, train, rows))
  {
    hide IsSha;
    var entries := EntriesOf(w, train, rows);
    forall i | 0 <= i < |entries| ensures EntryShape(entries[i]) { assert Usable(rows[i]); }
    forall i, j | 0 <= i < j < |entries| ensures entries[i].traceId != entries[j].traceId {
      assert Usable(rows[i]) && Usable(rows[j]) && rows[i].id != rows[j].id;
    }
  }

  lemma BothMet(w: World, train: set<string>, rows: seq<Row>, c: string, d: string)
    requires c in Clusters(w, rows) && c in train && d in Clusters(w, rows) && d !in train
    ensures BothSplits(EntriesOf(w, train, rows))
  {
    ClusterInEntries(w, train, rows, c);
    ClusterInEntries(w, train, rows, d);
    hide EntriesOf;
    hide Clusters;
  }

  lemma FrozenBothSplits(w: World, salt: string, percent: int, rows: seq<Row>)
    requires |Clusters(w, rows)| >= 2 && 1 <= percent <= 99
    ensures BothSplits(EntriesOf(w, TrainSet(w, salt, percent, Clusters(w, rows)), rows))
  {
    var clusters := Clusters(w, rows);
    var train := TrainSet(w, salt, percent, clusters);
    hide *;
    ClustersFacts(w, rows);
    BothSplitsUsed(w, salt, percent, clusters);
    var c :| c in clusters && c in train;
    var d :| d in clusters && d !in train;
    BothMet(w, train, rows, c, d);
  }

  lemma ArgsRecovered(w: World, rows: seq<Row>, a: Args)
    requires Sound(w) && Creatable(w, rows, a)
    ensures ArgsOf(w, Build(w, rows, a).core) == a
  {
    BuildFields(w, rows, a);
    hide Build;
    hide RowsUsable;
    hide Clusters;
    assert w.parse(w.format(a.created.instant)) == Some(Aware(a.created.instant));
  }

  lemma FrozenHeaderAccepted(w: World, rows: seq<Row>, a: Args)
    requires Sound(w) && Creatable(w, rows, a)
    ensures HeaderAccepted(w, Build(w, rows, a))
  {
    hide IsLabel;
    hide RowsUsable;
    hide Clusters;
    hide FrozenEntries;
    hide CountsOf;
    hide IsSha;
    assert w.parse(w.format(a.created.instant)) == Some(Aware(a.created.instant));
  }

  lemma FrozenPartitionAccepted(w: World, core: Core, rows: seq<Row>)
    requires core.entries
             == EntriesOf(w, TrainSet(w, core.salt, core.trainPercent, Clusters(w, rows)), rows)
    ensures PartitionAccepted(w, core) && |FirstSeen(EntryClusters(core.entries))| == |Clusters(w, rows)|
  {
    hide TrainSet;
    EntryClustersOfRows(w, TrainSet(w, core.salt, core.trainPercent, Clusters(w, rows)), rows);
    hide FirstSeen;
    hide EntryClusters;
    hide RowClusters;
  }

  /** A manifest frozen from rows already in the order of their ids is accepted on its own. */
  lemma FrozenInOrderAccepted(w: World, rows: seq<Row>, a: Args)
    requires Sound(w) && Creatable(w, rows, a) && Sort(rows, ById()) == rows
    ensures Accepts(w, Build(w, rows, a))
  {
    var m := Build(w, rows, a);
    BuildFields(w, rows, a);
    FrozenHeaderAccepted(w, rows, a);
    hide Build;
    hide HeaderAccepted;
    FrozenEntriesAccepted(w, TrainSet(w, a.salt, a.trainPercent, Clusters(w, rows)), rows);
    FrozenBothSplits(w, a.salt, a.trainPercent, rows);
    FrozenPartitionAccepted(w, m.core, rows);
    hide EntriesAccepted;
    hide BothSplits;
    hide PartitionAccepted;
    hide CountsOf;
    hide EntriesOf;
    hide TrainSet;
    hide Clusters;
    hide Sound;
    hide RowsUsable;
    hide Sort;
  }

  lemma SortedRows(rows: seq<Row>)
    requires RowsUsable(rows)
    ensures RowsUsable(Sort(rows, ById())) && multiset(Sort(rows, ById())) == multiset(rows)
    ensures Sort(Sort(rows, ById()), ById()) == Sort(rows, ById())
  {
    ByIdIsTotal();
    SortPermutes(rows, ById());
    SortSorts(rows, ById());
    SortKeeps(Sort(rows, ById()), ById());
    UsablePermuted(rows, Sort(rows, ById()));
  }

  /** Whatever creation freezes, verification accepts, provided no two clusters tie in the ranking. */
  lemma CreatedIsAccepted(w: World, rows: seq<Row>, a: Args)
    requires Sound(w) && Creatable(w, rows, a) && DistinctRanks(w, a.salt, Clusters(w, rows))
    ensures Accepts(w, Build(w, rows, a))
  {
    SortedRows(rows);
    CreateForgetsOrder(w, rows, Sort(rows, ById()), a);
    FrozenInOrderAccepted(w, Sort(rows, ById()), a);
  }

  /** Against the rows it was made from, a manifest is found again row by row and recreated to the letter. */
  lemma CreatedIsRecreated(w: World, rows: seq<Row>, a: Args)
    requires Sound(w) && Creatable(w, rows, a) && DistinctRanks(w, a.salt, Clusters(w, rows))
    ensures AllBound(w, Build(w, rows, a).core.entries, rows) && Recreated(w, Build(w, rows, a), rows)
  {
    hide *;
    var m, sorted := Build(w, rows, a), Sort(rows, ById());
    FrozenShape(w, rows, a);
    SortedRows(rows);
    SameMultiset(rows, sorted);
    CreateForgetsOrder(w, rows, sorted, a);
    ArgsRecovered(w, rows, a);
    BuildFields(w, rows, a);
    FrozenAreBound(w, TrainSet(w, a.salt, a.trainPercent, Clusters(w, rows)), sorted, rows);
    RecreatedFrom(w, m, rows, sorted, a);
  }

  lemma FrozenShape(w: World, rows: seq<Row>, a: Args)
    requires Creatable(w, rows, a)
    ensures RowsUsable(rows)
    ensures FrozenEntries(w, rows, a)
            == EntriesOf(w, TrainSet(w, a.salt, a.trainPercent, Clusters(w, rows)), Sort(rows, ById()))
  {
  }

  lemma RecreatedFrom(w: World, m: Manifest, rows: seq<Row>, rebuilt: seq<Row>, a: Args)
    requires Listed(m.core.entries, rows) && Rebuilt(m.core.entries, rows) == rebuilt && ArgsOf(w, m.core) == a
    requires Creatable(w, rebuilt, a) && Build(w, rebuilt, a) == m
    ensures Recreated(w, m, rows)
  {
    hide Build;
    hide Creatable;
    hide ArgsOf;
  }

  lemma FrozenAreBound(w: World, train: set<string>, some: seq<Row>, rows: seq<Row>)
    requires RowsUsable(rows) && forall i :: 0 <= i < |some| ==> some[i] in rows
    ensures var entries := EntriesOf(w, train, some);
            AllBound(w, entries, rows) && Listed(entries, rows) && Rebuilt(entries, rows) == some
  {
    var entries := EntriesOf(w, train, some);
    forall i | 0 <= i < |some|
      ensures LiveRow(rows, entries[i].traceId) == Some(some[i]) && Bound(w, entries[i], rows)
    {
      LiveRowUnique(rows, some[i]);
      UsableMember(rows, some[i]);
      hide RowsUsable;
    }
  }

  lemma UsableMember(rows: seq<Row>, row: Row)
    requires RowsUsable(rows) && row in rows
    ensures Usable(row)
  {
  }

  /** Verification of what was created accepts, both alone and against the live rows. */
  lemma CreatedVerifies(w: World, rows: seq<Row>, a: Args)
    requires Sound(w) && Creatable(w, rows, a) && DistinctRanks(w, a.salt, Clusters(w, rows))
    ensures Accepts(w, Build(w, rows, a)) && AcceptsLive(w, Build(w, rows, a), rows)
  {
    CreatedIsAccepted(w, rows, a);
    CreatedIsRecreated(w, rows, a);
  }

  // ----- live acceptance is re-creation ----------------------------------------------------------

  lemma RebuiltInOrder(w: World, m: Manifest, rows: seq<Row>)
    requires Recreated(w, m, rows)
    ensures var rebuilt := Rebuilt(m.core.entries, rows); Sort(rebuilt, ById()) == rebuilt
  {
    var rebuilt, a := Rebuilt(m.core.entries, rows), ArgsOf(w, m.core);
    BuildFields(w, rebuilt, a);
    hide Build;
    hide TrainSet;
    hide ArgsOf;
    hide Clusters;
    SameIdsInOrder(w, TrainSet(w, a.salt, a.trainPercent, Clusters(w, rebuilt)), rebuilt, m.core.entries, rows);
  }

  lemma SameIdsInOrder(w: World, train: set<string>, rebuilt: seq<Row>, entries: seq<Entry>, rows: seq<Row>)
    requires RowsUsable(rebuilt) && Listed(entries, rows) && rebuilt == Rebuilt(entries, rows)
    requires entries == EntriesOf(w, train, Sort(rebuilt, ById()))
    ensures Sort(rebuilt, ById()) == rebuilt
  {
    var sorted := Sort(rebuilt, ById());
    SortedRows(rebuilt);
    SameMultiset(rebuilt, sorted);
    UsablePermuted(rebuilt, sorted);
    hide Sort;
    hide RowsUsable;
    forall i | 0 <= i < |rebuilt| ensures sorted[i] == rebuilt[i] {
      LiveRowHasId(rows, entries[i].traceId);
      assert entries[i] == EntryOf(w, train, sorted[i]);
      assert ById()(sorted[i], rebuilt[i]) && ById()(rebuilt[i], sorted[i]);
      assert sorted[i] in rebuilt && rebuilt[i] in rebuilt;
    }
  }

  lemma {:induction false} LiveRowHasId(rows: seq<Row>, id: int)
    requires LiveRow(rows, id).Some?
    ensures LiveRow(rows, id).value.id == Some(id) && LiveRow(rows, id).value in rows
  {
    if rows[|rows| - 1].id != Some(id) { LiveRowHasId(rows[..|rows| - 1], id); }
  }

  /** Acceptance against live rows is nothing but re-creation: every other check follows from it. */
  lemma LiveAcceptedIff(w: World, m: Manifest, rows: seq<Row>)
    requires Sound(w)
    ensures AcceptsLive(w, m, rows) <==> Recreated(w, m, rows)
  {
    if Recreated(w, m, rows) {
      var rebuilt, a := Rebuilt(m.core.entries, rows), ArgsOf(w, m.core);
      RebuiltInOrder(w, m, rows);
      FrozenInOrderAccepted(w, rebuilt, a);
      BuildFields(w, rebuilt, a);
      hide Accepts;
      hide Build;
      hide ArgsOf;
      RebuiltBound(w, TrainSet(w, a.salt, a.trainPercent, Clusters(w, rebuilt)), m.core.entries, rows);
    }
  }

  lemma RebuiltBound(w: World, train: set<string>, entries: seq<Entry>, rows: seq<Row>)
    requires Listed(entries, rows) && RowsUsable(Rebuilt(entries, rows))
    requires entries == EntriesOf(w, train, Rebuilt(entries, rows))
    ensures AllBound(w, entries, rows)
  {
    var rebuilt := Rebuilt(entries, rows);
    forall i | 0 <= i < |entries| ensures Bound(w, entries[i], rows) {
      assert Usable(rebuilt[i]) && Some(rebuilt[i]) == LiveRow(rows, entries[i].traceId);
      assert entries[i] == EntryOf(w, train, rebuilt[i]);
    }
  }

  // ----- what acceptance protects ----------------------------------------------------------------

  /** The texts a manifest keeps digests of do not collide between these two rows. */
  ghost predicate NoCollision(w: World, x: Row, y: Row) {
    && (w.sha(Body(x.request)) == w.sha(Body(y.request)) ==> Body(x.request) == Body(y.request))
    && (w.sha(Body(x.response)) == w.sha(Body(y.response)) ==> Body(x.response) == Body(y.response))
    && (w.sha(ClusterSource(x)) == w.sha(ClusterSource(y)) ==> ClusterSource(x) == ClusterSource(y))
  }

  /** Accepting a manifest against two sets of live rows means its traces carry the same payloads and
      tasks in both: no listed trace can change and still verify, short of a digest collision. */
  lemma PayloadsFrozen(w: World, m: Manifest, rows: seq<Row>, later: seq<Row>, i: nat)
    requires AcceptsLive(w, m, rows) && AcceptsLive(w, m, later) && i < |m.core.entries|
    ensures var before, after := LiveRow(rows, m.core.entries[i].traceId), LiveRow(later, m.core.entries[i].traceId);
            && before.Some? && after.Some?
            && (NoCollision(w, before.value, after.value) ==> before == after)
  {
    hide Accepts;
    hide Recreated;
    var e := m.core.entries[i];
    assert Bound(w, e, rows) && Bound(w, e, later);
    LiveRowHasId(rows, e.traceId);
    LiveRowHasId(later, e.traceId);
    var before, after := LiveRow(rows, e.traceId).value, LiveRow(later, e.traceId).value;
    if NoCollision(w, before, after) { SameSource(before, after); }
  }

  lemma SameSource(x: Row, y: Row)
    requires ClusterSource(x) == ClusterSource(y) && x.id == y.id
    ensures x.taskId == y.taskId
  {
    var p, q := ClusterSource(x), ClusterSource(y);
    assert p[1] == q[1];
    if x.taskId.Some? && y.taskId.Some? {
      assert p[5..] == x.taskId.value && q[5..] == y.taskId.value;
    }
  }

  /** Selected entries of a manifest accepted against rows with unique ids are bound. */
  lemma AcceptedEntriesBind(w: World, m: Manifest, rows: seq<Row>, selected: seq<Entry>)
    requires AcceptsLive(w, m, rows) && forall i :: 0 <= i < |selected| ==> selected[i] in m.core.entries
    ensures AllBound(w, selected, rows)
  {
    hide Accepts;
    hide Recreated;
    forall i | 0 <= i < |selected| ensures Bound(w, selected[i], rows) {
      assert selected[i] in m.core.entries;
      var j :| 0 <= j < |m.core.entries| && m.core.entries[j] == selected[i];
    }
  }

  /** How many clusters rank before this one. */
  function Before(w: World, salt: string, clusters: set<string>, c: string): set<string> {
    set d | d in clusters && Salted(w, salt)(d) != Salted(w, salt)(c) && LexLeq(Salted(w, salt)(d), Salted(w, salt)(c))
  }

  lemma {:induction false} PrefixSize(s: seq<string>)
    requires NoDuplicates(s)
    ensures |set x | x in s| == |s|
  {
    if s != [] {
      var n := |s| - 1;
      PrefixSize(s[..n]);
      assert s == s[..n] + [s[n]];
      assert (set x | x in s) == (set x | x in s[..n]) + {s[n]};
      assert s[n] !in s[..n];
    }
  }

  lemma ByTextPair(key: string -> string, a: string, b: string)
    ensures ByText(key)(a, b) == LexLeq(key(a), key(b))
  {
    hide LexLeq;
  }

  /** In a list sorted by distinct keys, earlier means a smaller key. */
  lemma SortedRank(s: seq<string>, key: string -> string, i: nat, j: nat)
    requires Sorted(s, ByText(key)) && i < |s| && j < |s|
    requires i != j ==> key(s[i]) != key(s[j])
    ensures j < i <==> key(s[j]) != key(s[i]) && LexLeq(key(s[j]), key(s[i]))
  {
    hide *;
    if j < i {
      SortedPair(s, ByText(key), j, i);
      ByTextPair(key, s[j], s[i]);
    } else if i < j {
      SortedPair(s, ByText(key), i, j);
      ByTextPair(key, s[i], s[j]);
      if LexLeq(key(s[j]), key(s[i])) { LexAntisymmetric(key(s[i]), key(s[j])); }
    }
  }

  lemma DistinctRanked(w: World, salt: string, clusters: seq<string>, i: nat, j: nat)
    requires NoDuplicates(clusters) && DistinctRanks(w, salt, clusters) && i != j
    requires i < |Ranked(w, salt, clusters)| && j < |Ranked(w, salt, clusters)|
    ensures Salted(w, salt)(Ranked(w, salt, clusters)[i]) != Salted(w, salt)(Ranked(w, salt, clusters)[j])
  {
    RankedFacts(w, salt, clusters);
    hide Ranked, Salted;
    var ranked := Ranked(w, salt, clusters);
    assert ranked[i] in clusters && ranked[j] in clusters;
    assert i < j || j < i;
  }

  lemma RanksBefore(w: World, salt: string, clusters: seq<string>, i: nat, j: nat)
    requires NoDuplicates(clusters) && DistinctRanks(w, salt, clusters)
    requires i < |Ranked(w, salt, clusters)| && j < |Ranked(w, salt, clusters)|
    ensures var ranked := Ranked(w, salt, clusters);
            j < i <==> (Salted(w, salt)(ranked[j]) != Salted(w, salt)(ranked[i])
                        && LexLeq(Salted(w, salt)(ranked[j]), Salted(w, salt)(ranked[i])))
  {
    hide *;
    RankedFacts(w, salt, clusters);
    if i != j { DistinctRanked(w, salt, clusters, i, j); }
    SortedRank(Ranked(w, salt, clusters), Salted(w, salt), i, j);
  }

  /** The position of a cluster in the ranking is the number of clusters with a smaller salted digest. */
  lemma PositionIsRank(w: World, salt: string, clusters: seq<string>, i: nat)
    requires NoDuplicates(clusters) && DistinctRanks(w, salt, clusters) && i < |Ranked(w, salt, clusters)|
    ensures |Before(w, salt, (set x | x in clusters), Ranked(w, salt, clusters)[i])| == i
  {
    hide *;
    RankedFacts(w, salt, clusters);
    var ranked := Ranked(w, salt, clusters);
    var before := Before(w, salt, (set x | x in clusters), ranked[i]);
    forall d ensures d in before <==> d in ranked[..i] { BeforeMember(w, salt, clusters, i, d); }
    SizeOfPrefix(ranked, i, before);
  }

  lemma SizeOfPrefix(s: seq<string>, i: nat, members: set<string>)
    requires NoDuplicates(s) && i <= |s| && forall d :: d in members <==> d in s[..i]
    ensures |members| == i
  {
    assert members == set x | x in s[..i];
    PrefixSize(s[..i]);
  }

  lemma BeforeMember(w: World, salt: string, clusters: seq<string>, i: nat, d: string)
    requires NoDuplicates(clusters) && DistinctRanks(w, salt, clusters) && i < |Ranked(w, salt, clusters)|
    ensures d in Before(w, salt, (set x | x in clusters), Ranked(w, salt, clusters)[i])
            <==> d in Ranked(w, salt, clusters)[..i]
  {
    RankedFacts(w, salt, clusters);
    var ranked := Ranked(w, salt, clusters);
    if d in ranked {
      var j :| 0 <= j < |ranked| && ranked[j] == d;
      RanksBefore(w, salt, clusters, i, j);
      InPrefix(ranked, i, j);
      hide NoDuplicates;
      hide Ranked;
      hide DistinctRanks;
      hide Salted;
    } else {
      assert d !in clusters;
    }
  }

  lemma InPrefix(s: seq<string>, i: nat, j: nat)
    requires NoDuplicates(s) && i < |s| && j < |s|
    ensures s[j] in s[..i] <==> j < i
  {
    if s[j] in s[..i] {
      var k :| 0 <= k < i && s[..i][k] == s[j];
      assert s[k] == s[j];
    }
    if j < i { assert s[..i][j] == s[j]; }
  }

  lemma InTrainSet(w: World, salt: string, percent: int, clusters: seq<string>, k: nat)
    requires NoDuplicates(clusters) && k < |Ranked(w, salt, clusters)|
    ensures Ranked(w, salt, clusters)[k] in TrainSet(w, salt, percent, clusters)
            <==> k < TrainCount(|Ranked(w, salt, clusters)|, percent)
  {
    RankedFacts(w, salt, clusters);
    hide Ranked;
    var ranked := Ranked(w, salt, clusters);
    if ranked[k] in TrainSet(w, salt, percent, clusters) {
      var l :| 0 <= l < |ranked| && l < TrainCount(|ranked|, percent) && ranked[l] == ranked[k];
      assert l == k;
    }
  }

  /** Every accepted manifest keeps each cluster in one split, and trains on exactly the first
      `max(1, min(n - 1, floor(n * p / 100)))` of its `n` clusters by salted digest. */
  lemma AcceptedSplitIsByRank(w: World, m: Manifest, i: nat)
    requires Accepts(w, m) && i < |m.core.entries|
    requires DistinctRanks(w, m.core.salt, FirstSeen(EntryClusters(m.core.entries)))
    ensures var clusters := set j | 0 <= j < |m.core.entries| :: m.core.entries[j].cluster;
            m.core.entries[i].split == Train
            <==> |Before(w, m.core.salt, clusters, m.core.entries[i].cluster)|
                 < TrainCount(|clusters|, m.core.trainPercent)
  {
    hide HeaderAccepted;
    hide EntriesAccepted;
    hide BothSplits;
    hide CountsOf;
    var entries, names := m.core.entries, EntryClusters(m.core.entries);
    var keys, c := FirstSeen(names), m.core.entries[i].cluster;
    FirstSeenFacts(names);
    RankedFacts(w, m.core.salt, keys);
    ClusterSet(entries);
    PrefixSize(keys);
    assert names[i] == c && c in keys;
    var ranked := Ranked(w, m.core.salt, keys);
    var k :| 0 <= k < |ranked| && ranked[k] == c;
    PositionIsRank(w, m.core.salt, keys, k);
    InTrainSet(w, m.core.salt, m.core.trainPercent, keys, k);
    hide TrainSet;
    hide Ranked;
    hide Before;
    hide TrainCount;
  }

  lemma ClusterSet(entries: seq<Entry>)
    ensures (set j | 0 <= j < |entries| :: entries[j].cluster) == set x | x in FirstSeen(EntryClusters(entries))
  {
    FirstSeenFacts(EntryClusters(entries));
    assert forall j :: 0 <= j < |entries| ==> EntryClusters(entries)[j] == entries[j].cluster;
  }
}
