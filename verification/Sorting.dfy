/** Python's stable `sorted`, what it guarantees, and the order of strings. */
module Sorting {

  ghost predicate TotalPreorder<T(!new)>(leq: (T, T) -> bool) {
    (forall a, b :: leq(a, b) || leq(b, a)) && (forall a, b, c :: leq(a, b) && leq(b, c) ==> leq(a, c))
  }

  function Insert<T>(x: T, s: seq<T>, leq: (T, T) -> bool): seq<T> {
    if s == [] || leq(x, s[0]) then [x] + s else [s[0]] + Insert(x, s[1..], leq)
  }

  /** `sorted(s)`: earlier elements stay ahead of later ones they tie with. */
  function Sort<T>(s: seq<T>, leq: (T, T) -> bool): seq<T> {
    if s == [] then [] else Insert(s[0], Sort(s[1..], leq), leq)
  }

  ghost predicate AtMost<T>(x: T, s: seq<T>, leq: (T, T) -> bool) { forall y :: y in s ==> leq(x, y) }

  ghost predicate Sorted<T>(s: seq<T>, leq: (T, T) -> bool) {
    s == [] || (AtMost(s[0], s[1..], leq) && Sorted(s[1..], leq))
  }

  /** No two different elements of `s` tie. */
  ghost predicate Untied<T>(s: seq<T>, leq: (T, T) -> bool) {
    forall x, y :: x in s && y in s && leq(x, y) && leq(y, x) ==> x == y
  }

  lemma MultisetOfTail<T>(s: seq<T>)
    requires s != []
    ensures multiset(s) == multiset{s[0]} + multiset(s[1..])
    ensures forall x :: x in s <==> x == s[0] || x in s[1..]
  {
    assert s == [s[0]] + s[1..];
  }

  lemma {:induction false} InsertContents<T>(x: T, s: seq<T>, leq: (T, T) -> bool)
    ensures multiset(Insert(x, s, leq)) == multiset{x} + multiset(s)
    ensures forall y :: y in Insert(x, s, leq) <==> y == x || y in s
  {
    if s != [] && !leq(x, s[0]) {
      InsertContents(x, s[1..], leq);
      MultisetOfTail(s);
      MultisetOfTail(Insert(x, s, leq));
    } else {
      MultisetOfTail([x] + s);
    }
  }

  lemma {:induction false} InsertSorts<T(!new)>(x: T, s: seq<T>, leq: (T, T) -> bool)
    requires TotalPreorder(leq) && Sorted(s, leq)
    ensures Sorted(Insert(x, s, leq), leq)
  {
    if s == [] {
    } else if leq(x, s[0]) {
      MultisetOfTail(s);
      assert ([x] + s)[1..] == s;
    } else {
      InsertSorts(x, s[1..], leq);
      InsertContents(x, s[1..], leq);
      assert leq(s[0], x);
    }
  }

  lemma {:induction false} SortSorts<T(!new)>(s: seq<T>, leq: (T, T) -> bool)
    requires TotalPreorder(leq)
    ensures Sorted(Sort(s, leq), leq)
  {
    if s != [] {
      SortSorts(s[1..], leq);
      InsertSorts(s[0], Sort(s[1..], leq), leq);
    }
  }

  lemma {:induction false} SortPermutes<T>(s: seq<T>, leq: (T, T) -> bool)
    ensures multiset(Sort(s, leq)) == multiset(s) && |Sort(s, leq)| == |s|
    ensures forall x :: x in Sort(s, leq) <==> x in s
  {
    if s != [] {
      SortPermutes(s[1..], leq);
      InsertContents(s[0], Sort(s[1..], leq), leq);
      MultisetOfTail(s);
    }
    SameMultiset(Sort(s, leq), s);
  }

  lemma SameMultiset<T>(s: seq<T>, t: seq<T>)
    requires multiset(s) == multiset(t)
    ensures |s| == |t| && forall x :: x in s <==> x in t
  {
    assert |s| == |multiset(s)| && |t| == |multiset(t)|;
    forall x ensures x in s <==> x in t {
      assert x in s <==> x in multiset(s);
      assert x in t <==> x in multiset(t);
    }
  }

  lemma CancelHead<T>(x: T, a: multiset<T>, b: multiset<T>)
    requires multiset{x} + a == multiset{x} + b
    ensures a == b
  {
    assert a == (multiset{x} + a) - multiset{x};
    assert b == (multiset{x} + b) - multiset{x};
  }

  /** There is only one way to sort elements that do not tie. */
  lemma {:induction false} SortedUnique<T(!new)>(s: seq<T>, t: seq<T>, leq: (T, T) -> bool)
    requires TotalPreorder(leq) && Sorted(s, leq) && Sorted(t, leq) && multiset(s) == multiset(t) && Untied(s, leq)
    ensures s == t
  {
    SameMultiset(s, t);
    if s != [] {
      MultisetOfTail(s);
      MultisetOfTail(t);
      assert leq(s[0], t[0]) && leq(t[0], s[0]);
      CancelHead(s[0], multiset(s[1..]), multiset(t[1..]));
      SortedUnique(s[1..], t[1..], leq);
      assert s == [s[0]] + s[1..] && t == [t[0]] + t[1..];
    }
  }

  /** Sorting forgets the order of the input when nothing ties. */
  lemma SortForgetsOrder<T(!new)>(s: seq<T>, t: seq<T>, leq: (T, T) -> bool)
    requires TotalPreorder(leq) && multiset(s) == multiset(t) && Untied(s, leq)
    ensures Sort(s, leq) == Sort(t, leq)
  {
    SortSorts(s, leq);
    SortSorts(t, leq);
    SortPermutes(s, leq);
    SortPermutes(t, leq);
    SortedUnique(Sort(s, leq), Sort(t, leq), leq);
  }

  /** In a sorted list every earlier element is at most every later one. */
  lemma {:induction false} SortedPair<T(!new)>(s: seq<T>, leq: (T, T) -> bool, i: nat, j: nat)
    requires Sorted(s, leq) && i < j < |s|
    ensures leq(s[i], s[j])
  {
    if i == 0 {
      assert s[j] == s[1..][j - 1];
    } else {
      SortedPair(s[1..], leq, i - 1, j - 1);
    }
  }

  /** A list that is already in order is left alone. */
  lemma {:induction false} SortKeeps<T(!new)>(s: seq<T>, leq: (T, T) -> bool)
    requires Sorted(s, leq)
    ensures Sort(s, leq) == s
  {
    if s != [] {
      SortKeeps(s[1..], leq);
      assert s == [s[0]] + s[1..];
      assert |s| > 1 ==> s[1] in s[1..];
    }
  }

  function Each<T>(s: seq<T>, f: T -> T): (t: seq<T>)
    ensures |t| == |s| && forall i :: 0 <= i < |s| ==> t[i] == f(s[i])
  {
    seq(|s|, i requires 0 <= i < |s| => f(s[i]))
  }

  lemma {:induction false} InsertEach<T(!new)>(x: T, s: seq<T>, leq: (T, T) -> bool, f: T -> T)
    requires forall a, b :: leq(f(a), f(b)) == leq(a, b)
    ensures Insert(f(x), Each(s, f), leq) == Each(Insert(x, s, leq), f)
  {
    if s != [] && !leq(x, s[0]) {
      assert Each(s, f)[1..] == Each(s[1..], f);
      InsertEach(x, s[1..], leq, f);
    }
  }

  /** A change that the order does not see can be made before or after sorting. */
  lemma {:induction false} SortEach<T(!new)>(s: seq<T>, leq: (T, T) -> bool, f: T -> T)
    requires forall a, b :: leq(f(a), f(b)) == leq(a, b)
    ensures Sort(Each(s, f), leq) == Each(Sort(s, leq), f)
  {
    if s != [] {
      assert Each(s, f)[1..] == Each(s[1..], f);
      SortEach(s[1..], leq, f);
      InsertEach(s[0], Sort(s[1..], leq), leq, f);
    }
  }

  // ----- lists without repetition ----------------------------------------------------------------

  ghost predicate NoDuplicates<T>(s: seq<T>) { forall i, j :: 0 <= i < j < |s| ==> s[i] != s[j] }

  lemma {:induction false} CountOnce<T>(s: seq<T>, x: T)
    requires NoDuplicates(s)
    ensures multiset(s)[x] == if x in s then 1 else 0
  {
    if s != [] {
      assert s == [s[0]] + s[1..];
      CountOnce(s[1..], x);
      if x == s[0] { assert forall i :: 0 <= i < |s[1..]| ==> s[1..][i] == s[i + 1]; }
    }
  }

  /** Lists without repetition over the same elements are permutations of each other. */
  lemma SameSetPermutes<T>(s: seq<T>, t: seq<T>)
    requires NoDuplicates(s) && NoDuplicates(t) && (forall x <- s :: x in t) && (forall x <- t :: x in s)
    ensures multiset(s) == multiset(t)
  {
    forall x ensures multiset(s)[x] == multiset(t)[x] {
      CountOnce(s, x);
      CountOnce(t, x);
    }
  }

  lemma CountTwice<T>(s: seq<T>, i: nat, j: nat)
    requires i < j < |s| && s[i] == s[j]
    ensures multiset(s)[s[i]] >= 2
  {
    var a, b := s[..j], s[j..];
    assert s == a + b;
    assert a[i] in a && b[0] in b;
    assert multiset(a)[s[i]] >= 1 && multiset(b)[s[i]] >= 1;
  }

  lemma PermutedNoDuplicates<T>(s: seq<T>, t: seq<T>)
    requires NoDuplicates(s) && multiset(s) == multiset(t)
    ensures NoDuplicates(t)
  {
    forall i, j | 0 <= i < j < |t| ensures t[i] != t[j] {
      CountOnce(s, t[i]);
      if t[i] == t[j] { CountTwice(t, i, j); }
    }
  }

  /** No two positions share a key. */
  ghost predicate DistinctBy<T, K>(s: seq<T>, key: T -> K) {
    forall i, j :: 0 <= i < j < |s| ==> key(s[i]) != key(s[j])
  }

  lemma DistinctByPermuted<T, K>(s: seq<T>, t: seq<T>, key: T -> K)
    requires DistinctBy(s, key) && multiset(s) == multiset(t)
    ensures DistinctBy(t, key)
  {
    SameMultiset(s, t);
    PermutedNoDuplicates(s, t);
    forall i, j | 0 <= i < j < |t| ensures key(t[i]) != key(t[j]) {
      assert t[i] in s && t[j] in s;
      var k :| 0 <= k < |s| && s[k] == t[i];
      var l :| 0 <= l < |s| && s[l] == t[j];
      assert k != l;
    }
  }

  // ----- the order of strings --------------------------------------------------------------------

  /** Lexicographic order by character. */
  predicate LexLeq(a: string, b: string) {
    if a == "" then true
    else if b == "" then false
    else if a[0] == b[0] then LexLeq(a[1..], b[1..])
    else a[0] < b[0]
  }

  /** The strings agree up to a position and `a` has the smaller character there. */
  predicate SmallerAt(a: string, b: string, i: int) { 0 <= i < |a| && i < |b| && a[..i] == b[..i] && a[i] < b[i] }

  lemma SmallerAtShift(a: string, b: string, i: nat)
    requires a != "" && b != "" && a[0] == b[0]
    ensures SmallerAt(a, b, i + 1) <==> SmallerAt(a[1..], b[1..], i)
    ensures !SmallerAt(a, b, 0)
  {
    if i + 1 < |a| && i + 1 < |b| {
      assert a[..i + 1] == [a[0]] + a[1..][..i] && b[..i + 1] == [b[0]] + b[1..][..i];
      assert a[..i + 1][1..] == a[1..][..i] && b[..i + 1][1..] == b[1..][..i];
    }
  }

  /** A prefix comes first; otherwise the first character that differs decides. */
  lemma {:induction false} LexLeqIff(a: string, b: string)
    ensures LexLeq(a, b) <==> a <= b || exists i :: SmallerAt(a, b, i)
  {
    if a != "" && b != "" && a[0] == b[0] {
      LexLeqIff(a[1..], b[1..]);
      assert a <= b <==> a[1..] <= b[1..] by { assert a == [a[0]] + a[1..] && b == [b[0]] + b[1..]; }
      hide SmallerAt;
      if i :| SmallerAt(a[1..], b[1..], i) { SmallerAtNat(a[1..], b[1..], i); SmallerAtShift(a, b, i); }
      if i :| SmallerAt(a, b, i) {
        SmallerAtNat(a, b, i);
        SmallerAtShift(a, b, if i == 0 then 0 else i - 1);
      }
    } else if a != "" && b != "" {
      if a <= b { PrefixHead(a, b); }
      if a[0] < b[0] { assert SmallerAt(a, b, 0); }
      forall i | SmallerAt(a, b, i) ensures a[0] < b[0] {
        if i > 0 { assert a[..i][0] == b[..i][0]; }
      }
    }
  }

  lemma PrefixHead(a: string, b: string)
    requires a != "" && a <= b
    ensures a[0] == b[0]
  {
  }

  lemma SmallerAtNat(a: string, b: string, i: int)
    requires SmallerAt(a, b, i)
    ensures i >= 0
  {
  }

  lemma {:induction false} LexTotal(a: string, b: string)
    ensures LexLeq(a, b) || LexLeq(b, a)
  {
    if a != "" && b != "" && a[0] == b[0] { LexTotal(a[1..], b[1..]); }
  }

  lemma {:induction false} LexTransitive(a: string, b: string, c: string)
    requires LexLeq(a, b) && LexLeq(b, c)
    ensures LexLeq(a, c)
  {
    if a != "" && a[0] == b[0] == c[0] { LexTransitive(a[1..], b[1..], c[1..]); }
  }

  lemma {:induction false} LexAntisymmetric(a: string, b: string)
    requires LexLeq(a, b) && LexLeq(b, a)
    ensures a == b
  {
    if a != "" {
      LexAntisymmetric(a[1..], b[1..]);
      assert a == [a[0]] + a[1..] && b == [b[0]] + b[1..];
    }
  }

  function ByText<T>(key: T -> string): (T, T) -> bool {
    (a, b) => LexLeq(key(a), key(b))
  }

  lemma ByTextIsTotal<T(!new)>(key: T -> string)
    ensures TotalPreorder(ByText(key))
  {
    var leq := ByText(key);
    forall a, b ensures leq(a, b) || leq(b, a) { LexTotal(key(a), key(b)); }
    forall a, b, c | leq(a, b) && leq(b, c) ensures leq(a, c) { LexTransitive(key(a), key(b), key(c)); }
  }

  /** Elements with different keys do not tie. */
  lemma ByTextUntied<T(!new)>(s: seq<T>, key: T -> string)
    requires forall i, j :: 0 <= i < j < |s| ==> key(s[i]) != key(s[j])
    ensures Untied(s, ByText(key))
  {
    var leq := ByText(key);
    forall x, y | x in s && y in s && leq(x, y) && leq(y, x) ensures x == y {
      LexAntisymmetric(key(x), key(y));
      var i :| 0 <= i < |s| && s[i] == x;
      var j :| 0 <= j < |s| && s[j] == y;
      assert i == j || i < j || j < i;
    }
  }
}
