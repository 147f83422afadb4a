/** Average-tie ranks: the in-place ranking loop, and what its result means. */
module Ranks {

  // ----- counting ------------------------------------------------------------------------------

  function Less(s: seq<real>, v: real): nat {
    if s == [] then 0 else (if s[0] < v then 1 else 0) + Less(s[1..], v)
  }

  function Equal(s: seq<real>, v: real): nat {
    if s == [] then 0 else (if s[0] == v then 1 else 0) + Equal(s[1..], v)
  }

  function Greater(s: seq<real>, v: real): nat {
    if s == [] then 0 else (if s[0] > v then 1 else 0) + Greater(s[1..], v)
  }

  /** The average of the places the ties of `v` occupy: everything smaller comes first. */
  function RankOf(s: seq<real>, v: real): real { Less(s, v) as real + (Equal(s, v) as real + 1.0) / 2.0 }

  function RanksOf(s: seq<real>): (r: seq<real>)
    ensures |r| == |s|
  {
    seq(|s|, i requires 0 <= i < |s| => RankOf(s, s[i]))
  }

  lemma {:induction false} CountAppend(a: seq<real>, b: seq<real>, v: real)
    ensures Less(a + b, v) == Less(a, v) + Less(b, v) && Equal(a + b, v) == Equal(a, v) + Equal(b, v)
  {
    if a == [] {
      assert a + b == b;
    } else {
      assert (a + b)[1..] == a[1..] + b;
      CountAppend(a[1..], b, v);
    }
  }

  lemma TakeOut(t: seq<real>, i: nat, v: real)
    requires i < |t|
    ensures multiset(t) == multiset(t[..i] + t[i + 1..]) + multiset{t[i]}
    ensures Less(t, v) == Less(t[..i] + t[i + 1..], v) + (if t[i] < v then 1 else 0)
    ensures Equal(t, v) == Equal(t[..i] + t[i + 1..], v) + (if t[i] == v then 1 else 0)
  {
    assert t == t[..i] + ([t[i]] + t[i + 1..]);
    CountAppend(t[..i], [t[i]] + t[i + 1..], v);
    CountAppend([t[i]], t[i + 1..], v);
    CountAppend(t[..i], t[i + 1..], v);
  }

  lemma CancelOne(a: multiset<real>, b: multiset<real>, x: real)
    requires a + multiset{x} == b + multiset{x}
    ensures a == b
  {
    assert a == (a + multiset{x}) - multiset{x};
  }

  lemma RestPermuted(s: seq<real>, t: seq<real>, i: nat)
    requires s != [] && i < |t| && t[i] == s[0] && multiset(s) == multiset(t)
    ensures multiset(s[1..]) == multiset(t[..i] + t[i + 1..])
  {
    TakeOut(t, i, 0.0);
    assert s == [s[0]] + s[1..];
    CancelOne(multiset(s[1..]), multiset(t[..i] + t[i + 1..]), s[0]);
  }

  /** Counts do not depend on the order of the list. */
  lemma {:induction false} CountPermuted(s: seq<real>, t: seq<real>, v: real)
    requires multiset(s) == multiset(t)
    ensures Less(s, v) == Less(t, v) && Equal(s, v) == Equal(t, v)
  {
    if s == [] {
      assert |multiset(t)| == 0;
    } else {
      assert s[0] in multiset(t);
      var i :| 0 <= i < |t| && t[i] == s[0];
      TakeOut(t, i, v);
      RestPermuted(s, t, i);
      CountPermuted(s[1..], t[..i] + t[i + 1..], v);
    }
  }

  // ----- sorting the indices ---------------------------------------------------------------------

  predicate InRange(order: seq<nat>, n: nat) { forall p :: 0 <= p < |order| ==> order[p] < n }

  function Values(s: seq<real>, order: seq<nat>): (r: seq<real>)
    requires InRange(order, |s|)
    ensures |r| == |order|
  {
    seq(|order|, p requires 0 <= p < |order| => s[order[p]])
  }

  ghost predicate Sorted(s: seq<real>) { forall p, q :: 0 <= p < q < |s| ==> s[p] <= s[q] }

  /** Insert index `k` behind every index whose value is not larger: a stable insertion. */
  function InsertIndex(s: seq<real>, order: seq<nat>, k: nat): (r: seq<nat>)
    requires k < |s| && InRange(order, |s|)
    ensures InRange(r, |s|) && |r| == |order| + 1
  {
    if order == [] || s[order[|order| - 1]] <= s[k] then order + [k]
    else InsertIndex(s, order[..|order| - 1], k) + [order[|order| - 1]]
  }

  /** The first `n` indices, stably sorted by value. */
  function SortIndices(s: seq<real>, n: nat): (order: seq<nat>)
    requires n <= |s|
    ensures InRange(order, |s|) && |order| == n
  {
    if n == 0 then [] else InsertIndex(s, SortIndices(s, n - 1), n - 1)
  }

  lemma {:induction false} InsertKeepsValues(s: seq<real>, order: seq<nat>, k: nat)
    requires k < |s| && InRange(order, |s|)
    ensures multiset(Values(s, InsertIndex(s, order, k))) == multiset(Values(s, order)) + multiset{s[k]}
  {
    var r := InsertIndex(s, order, k);
    if order == [] || s[order[|order| - 1]] <= s[k] {
      assert Values(s, r) == Values(s, order) + [s[k]];
    } else {
      var init, last := order[..|order| - 1], order[|order| - 1];
      InsertKeepsValues(s, init, k);
      assert Values(s, order) == Values(s, init) + [s[last]];
      assert Values(s, r) == Values(s, InsertIndex(s, init, k)) + [s[last]];
    }
  }

  lemma AtMost(all: seq<real>, some: seq<real>, x: real, bound: real)
    requires multiset(all) == multiset(some) + multiset{x} && x <= bound
    requires forall q :: 0 <= q < |some| ==> some[q] <= bound
    ensures forall p :: 0 <= p < |all| ==> all[p] <= bound
  {
    forall p | 0 <= p < |all| ensures all[p] <= bound {
      assert all[p] in multiset(all);
      if all[p] != x { assert all[p] in some; }
    }
  }

  lemma {:induction false} InsertSorts(s: seq<real>, order: seq<nat>, k: nat)
    requires k < |s| && InRange(order, |s|) && Sorted(Values(s, order))
    ensures Sorted(Values(s, InsertIndex(s, order, k)))
  {
    var r := InsertIndex(s, order, k);
    if order == [] || s[order[|order| - 1]] <= s[k] {
      assert Values(s, r) == Values(s, order) + [s[k]];
      if order != [] { assert forall p :: 0 <= p < |order| ==> Values(s, order)[p] <= Values(s, order)[|order| - 1]; }
    } else {
      var init, last := order[..|order| - 1], order[|order| - 1];
      assert Values(s, init) == Values(s, order)[..|init|];
      InsertSorts(s, init, k);
      var below := InsertIndex(s, init, k);
      InsertKeepsValues(s, init, k);
      assert forall q :: 0 <= q < |init| ==> Values(s, order)[q] <= Values(s, order)[|init|];
      AtMost(Values(s, below), Values(s, init), s[k], s[last]);
      assert Values(s, r) == Values(s, below) + [s[last]];
    }
  }

  lemma {:induction false} InsertCovers(s: seq<real>, order: seq<nat>, k: nat, x: nat)
    requires k < |s| && InRange(order, |s|)
    ensures x == k || (exists p :: 0 <= p < |order| && order[p] == x)
            ==> exists p :: 0 <= p < |InsertIndex(s, order, k)| && InsertIndex(s, order, k)[p] == x
  {
    var r := InsertIndex(s, order, k);
    if order == [] || s[order[|order| - 1]] <= s[k] {
      assert r[|order|] == k;
      if p :| 0 <= p < |order| && order[p] == x { assert r[p] == x; }
    } else {
      var init, last := order[..|order| - 1], order[|order| - 1];
      InsertCovers(s, init, k, x);
      if x == k || exists p :: 0 <= p < |init| && init[p] == x {
        var p :| 0 <= p < |InsertIndex(s, init, k)| && InsertIndex(s, init, k)[p] == x;
        assert r[p] == x;
      } else if p :| 0 <= p < |order| && order[p] == x {
        assert p == |init|;
        assert r[|r| - 1] == x;
      }
    }
  }

  lemma {:induction false} SortIndicesFacts(s: seq<real>, n: nat)
    requires n <= |s|
    ensures Sorted(Values(s, SortIndices(s, n)))
    ensures multiset(Values(s, SortIndices(s, n))) == multiset(s[..n])
  {
    if n > 0 {
      SortIndicesFacts(s, n - 1);
      SortStep(s, SortIndices(s, n - 1), n - 1);
    }
  }

  lemma SortStep(s: seq<real>, before: seq<nat>, k: nat)
    requires k < |s| && InRange(before, |s|)
    requires Sorted(Values(s, before)) && multiset(Values(s, before)) == multiset(s[..k])
    ensures Sorted(Values(s, InsertIndex(s, before, k)))
    ensures multiset(Values(s, InsertIndex(s, before, k))) == multiset(s[..k + 1])
  {
    InsertSorts(s, before, k);
    InsertKeepsValues(s, before, k);
    assert s[..k + 1] == s[..k] + [s[k]];
  }

  lemma {:induction false} SortIndicesCovers(s: seq<real>, n: nat, x: nat)
    requires x < n <= |s|
    ensures exists p :: 0 <= p < n && SortIndices(s, n)[p] == x
  {
    var before := SortIndices(s, n - 1);
    if x < n - 1 {
      SortIndicesCovers(s, n - 1, x);
      var q :| 0 <= q < n - 1 && before[q] == x;
      assert 0 <= q < |before| && before[q] == x;
    }
    InsertCovers(s, before, n - 1, x);
    var p :| 0 <= p < |InsertIndex(s, before, n - 1)| && InsertIndex(s, before, n - 1)[p] == x;
    assert SortIndices(s, n)[p] == x;
  }

  // ----- the ranking loop ----------------------------------------------------------------------

  /** In a sorted list, a maximal block of ties from `i` to `j` has `i` smaller elements and `j - i` equal ones. */
  lemma BlockCounts(t: seq<real>, i: nat, j: nat)
    requires Sorted(t) && i < j <= |t|
    requires forall p :: i <= p < j ==> t[p] == t[i]
    requires (i == 0 || t[i - 1] < t[i]) && (j == |t| || t[j] != t[i])
    ensures Less(t, t[i]) == i && Equal(t, t[i]) == j - i
  {
    var v := t[i];
    forall p | 0 <= p < i ensures t[..i][p] < v { assert t[p] <= t[i - 1]; }
    forall p | 0 <= p < |t| - j ensures t[j..][p] > v { assert t[j] >= t[i] && t[j] <= t[j + p]; }
    AllLess(t[..i], v);
    AllEqual(t[i..j], v);
    AllGreater(t[j..], v);
    Split(t, i, j, v);
  }

  lemma Split(t: seq<real>, i: nat, j: nat, v: real)
    requires i <= j <= |t|
    ensures Less(t, v) == Less(t[..i], v) + Less(t[i..j], v) + Less(t[j..], v)
    ensures Equal(t, v) == Equal(t[..i], v) + Equal(t[i..j], v) + Equal(t[j..], v)
  {
    assert t == t[..i] + (t[i..j] + t[j..]);
    CountAppend(t[..i], t[i..j] + t[j..], v);
    CountAppend(t[i..j], t[j..], v);
  }

  lemma {:induction false} AllLess(s: seq<real>, v: real)
    requires forall p :: 0 <= p < |s| ==> s[p] < v
    ensures Less(s, v) == |s| && Equal(s, v) == 0
  {
    if s != [] { AllLess(s[1..], v); }
  }

  lemma {:induction false} AllEqual(s: seq<real>, v: real)
    requires forall p :: 0 <= p < |s| ==> s[p] == v
    ensures Less(s, v) == 0 && Equal(s, v) == |s|
  {
    if s != [] { AllEqual(s[1..], v); }
  }

  lemma {:induction false} AllGreater(s: seq<real>, v: real)
    requires forall p :: 0 <= p < |s| ==> s[p] > v
    ensures Less(s, v) == 0 && Equal(s, v) == 0
  {
    if s != [] { AllGreater(s[1..], v); }
  }

  /** The first `n` sorted places have their ranks. */
  ghost predicate Ranked(ranks: seq<real>, values: seq<real>, order: seq<nat>, n: nat) {
    && |ranks| == |values| && InRange(order, |values|) && n <= |order|
    && forall p :: 0 <= p < n ==> ranks[order[p]] == RankOf(values, values[order[p]])
  }

  /** The inner loop: one block of ties. */
  method AssignTies(values: seq<real>, order: seq<nat>, ranks: array<real>, i: nat, j: nat, average: real)
    requires i <= j <= |order| && Ranked(ranks[..], values, order, i)
    requires forall p :: i <= p < j ==> average == RankOf(values, values[order[p]])
    modifies ranks
    ensures Ranked(ranks[..], values, order, j)
  {
    for k := i to j
      invariant Ranked(ranks[..], values, order, k)
    {
      ranks[order[k]] := average;
    }
  }

  /** The end of the block of ties that starts at `i`. */
  method BlockEnd(values: seq<real>, order: seq<nat>, i: nat) returns (j: nat)
    requires InRange(order, |values|) && i < |order|
    ensures i < j <= |order| && (forall p :: i <= p < j ==> Values(values, order)[p] == Values(values, order)[i])
    ensures j < |order| ==> Values(values, order)[j] != Values(values, order)[i]
  {
    j := i;
    while j < |order| && values[order[j]] == values[order[i]]
      invariant i <= j <= |order|
      invariant forall p :: i <= p < j ==> Values(values, order)[p] == Values(values, order)[i]
    {
      j := j + 1;
    }
  }

  lemma AllRanked(ranks: seq<real>, values: seq<real>, order: seq<nat>)
    requires order == SortIndices(values, |values|) && Ranked(ranks, values, order, |values|)
    ensures ranks == RanksOf(values)
  {
    hide RankOf, SortIndices;
    forall x | 0 <= x < |values| ensures ranks[x] == RankOf(values, values[x]) {
      SortIndicesCovers(values, |values|, x);
    }
  }

  /** The nested loops terminate and assign every element its average-tie rank. */
  method AverageRanks(values: seq<real>) returns (r: seq<real>)
    ensures r == RanksOf(values)
  {
    hide RankOf, SortIndices, RanksOf;
    var order := SortIndices(values, |values|);
    var ranks := new real[|values|](_ => 0.0);
    SortIndicesFacts(values, |values|);
    ghost var sorted := Values(values, order);
    assert values[..|values|] == values;
    var i := 0;
    while i < |order|
      invariant 0 <= i <= |order|
      invariant 0 < i < |order| ==> sorted[i - 1] < sorted[i]
      invariant Ranked(ranks[..], values, order, i)
    {
      var j := BlockEnd(values, order, i);
      var average := (i + j - 1) as real / 2.0 + 1.0;
      BlockRank(values, sorted, i, j);
      assert forall p :: i <= p < j ==> sorted[p] == values[order[p]];
      AssignTies(values, order, ranks, i, j, average);
      i := j;
    }
    r := ranks[..];
    AllRanked(r, values, order);
  }

  lemma BlockRank(s: seq<real>, t: seq<real>, i: nat, j: nat)
    requires multiset(s) == multiset(t) && Sorted(t) && i < j <= |t|
    requires forall p :: i <= p < j ==> t[p] == t[i]
    requires (i == 0 || t[i - 1] < t[i]) && (j == |t| || t[j] != t[i])
    ensures RankOf(s, t[i]) == (i + j - 1) as real / 2.0 + 1.0
  {
    BlockCounts(t, i, j);
    CountPermuted(s, t, t[i]);
  }

  // ----- what the ranks mean -------------------------------------------------------------------

  function Sum(s: seq<real>): real {
    if s == [] then 0.0 else s[0] + Sum(s[1..])
  }

  /** Twice the smaller plus the equal elements of `t`, added up over `s`. */
  function Places(s: seq<real>, t: seq<real>): nat {
    if s == [] then 0 else 2 * Less(t, s[0]) + Equal(t, s[0]) + Places(s[1..], t)
  }

  lemma {:induction false} PlacesAppend(a: seq<real>, b: seq<real>, t: seq<real>)
    ensures Places(a + b, t) == Places(a, t) + Places(b, t)
  {
    if a == [] {
      assert a + b == b;
    } else {
      assert (a + b)[1..] == a[1..] + b;
      PlacesAppend(a[1..], b, t);
    }
  }

  lemma {:induction false} PlacesOfOneMore(s: seq<real>, t: seq<real>, x: real)
    ensures Places(s, t + [x]) == Places(s, t) + 2 * Greater(s, x) + Equal(s, x)
  {
    if s != [] {
      CountAppend(t, [x], s[0]);
      PlacesOfOneMore(s[1..], t, x);
    }
  }

  lemma {:induction false} CountsPartition(s: seq<real>, v: real)
    ensures Less(s, v) + Equal(s, v) + Greater(s, v) == |s|
  {
    if s != [] { CountsPartition(s[1..], v); }
  }

  /** A new element takes part in two pairs with each element before it, and one with itself. */
  lemma PlacesGrow(s: seq<real>, x: real)
    ensures Places(s + [x], s + [x]) == Places(s, s) + 2 * |s| + 1
  {
    var more := s + [x];
    PlacesAppend(s, [x], more);
    PlacesOfOneMore(s, s, x);
    CountAppend(s, [x], x);
    CountsPartition(s, x);
    assert [x][1..] == [];
    assert Less([x], x) == 0 && Equal([x], x) == 1;
    assert Places([x], more) == 2 * Less(more, x) + Equal(more, x);
    hide Less, Equal, Greater, Places;
  }

  lemma NextSquare(n: nat)
    ensures n * n + 2 * n + 1 == (n + 1) * (n + 1)
  {}

  /** Every ordered pair is counted once, so the places of a list add up to the square of its length. */
  lemma {:induction false} PlacesSquare(s: seq<real>)
    ensures Places(s, s) == |s| * |s|
  {
    if s != [] {
      hide Places;
      var init, x := s[..|s| - 1], s[|s| - 1];
      PlacesSquare(init);
      PlacesGrow(init, x);
      assert s == init + [x];
      NextSquare(|init|);
    }
  }

  function RanksWithin(s: seq<real>, t: seq<real>): (r: seq<real>)
    ensures |r| == |s|
  {
    seq(|s|, i requires 0 <= i < |s| => RankOf(t, s[i]))
  }

  lemma {:induction false} RanksFromPlaces(s: seq<real>, t: seq<real>)
    ensures Sum(RanksWithin(s, t)) == (Places(s, t) + |s|) as real / 2.0
  {
    if s != [] {
      assert RanksWithin(s, t)[1..] == RanksWithin(s[1..], t);
      RanksFromPlaces(s[1..], t);
    }
  }

  /** Ties or not, the ranks of n elements add up to n(n+1)/2. */
  lemma RanksAddUp(s: seq<real>)
    ensures Sum(RanksOf(s)) == (|s| * (|s| + 1)) as real / 2.0
  {
    assert RanksOf(s) == RanksWithin(s, s);
    RanksFromPlaces(s, s);
    PlacesSquare(s);
    assert |s| * |s| + |s| == |s| * (|s| + 1);
  }

  ghost predicate SameOrder(s: seq<real>, t: seq<real>) {
    |s| == |t| && forall i, j :: 0 <= i < |s| && 0 <= j < |s| ==> (s[i] < s[j] <==> t[i] < t[j])
  }

  lemma {:induction false} CountsOfSameOrder(s: seq<real>, t: seq<real>, v: real, w: real)
    requires |s| == |t| && forall j :: 0 <= j < |s| ==> (s[j] < v <==> t[j] < w) && (s[j] == v <==> t[j] == w)
    ensures Less(s, v) == Less(t, w) && Equal(s, v) == Equal(t, w)
  {
    if s != [] { CountsOfSameOrder(s[1..], t[1..], v, w); }
  }

  /** Ranks depend only on how the elements compare: any strictly increasing rescaling of a judge's
      scores leaves every rank, and with it the rank correlation, unchanged. */
  lemma RanksDependOnOrderOnly(s: seq<real>, t: seq<real>)
    requires SameOrder(s, t)
    ensures RanksOf(s) == RanksOf(t)
  {
    forall i | 0 <= i < |s| ensures RankOf(s, s[i]) == RankOf(t, t[i]) {
      CountsOfSameOrder(s, t, s[i], t[i]);
    }
  }
}
