/** The stable sort the repository relies on: `Array.prototype.sort`, `List.sort` and Python's
    `sorted` all keep equal elements in their original order. */
module Sorting {

  ghost predicate TotalPreorder<T(!new)>(le: (T, T) -> bool) {
    && (forall x, y :: le(x, y) || le(y, x))
    && (forall x, y, z :: le(x, y) && le(y, z) ==> le(x, z))
  }

  ghost predicate SortedBy<T>(s: seq<T>, le: (T, T) -> bool) {
    forall i, j :: 0 <= i < j < |s| ==> le(s[i], s[j])
  }

  function Insert<T>(x: T, s: seq<T>, le: (T, T) -> bool): (r: seq<T>)
    ensures multiset(r) == multiset{x} + multiset(s)
    ensures |r| == |s| + 1
  {
    if s == [] then [x]
    else if le(x, s[0]) then [x] + s
    else
      assert s == [s[0]] + s[1..];
      [s[0]] + Insert(x, s[1..], le)
  }

  function StableSort<T>(s: seq<T>, le: (T, T) -> bool): (r: seq<T>)
    ensures multiset(r) == multiset(s)
    ensures |r| == |s|
  {
    if s == [] then []
    else
      assert s == [s[0]] + s[1..];
      Insert(s[0], StableSort(s[1..], le), le)
  }

  lemma {:induction false} InsertSorted<T(!new)>(x: T, s: seq<T>, le: (T, T) -> bool)
    requires TotalPreorder(le) && SortedBy(s, le)
    ensures SortedBy(Insert(x, s, le), le)
  {
    if s != [] && !le(x, s[0]) {
      var rest := Insert(x, s[1..], le);
      InsertSorted(x, s[1..], le);
      forall j | 0 <= j < |rest|
        ensures le(s[0], rest[j])
      {
        assert rest[j] in multiset(rest);
        assert rest[j] == x || rest[j] in s[1..];
      }
    }
  }

  /** The result is in order. */
  lemma {:induction false} StableSortSorted<T(!new)>(s: seq<T>, le: (T, T) -> bool)
    requires TotalPreorder(le)
    ensures SortedBy(StableSort(s, le), le)
  {
    if s != [] {
      StableSortSorted(s[1..], le);
      InsertSorted(s[0], StableSort(s[1..], le), le);
    }
  }

  lemma {:induction false} SortOfSorted<T(!new)>(s: seq<T>, le: (T, T) -> bool)
    requires TotalPreorder(le) && SortedBy(s, le)
    ensures StableSort(s, le) == s
  {
    if s != [] {
      SortOfSorted(s[1..], le);
      assert |s| > 1 ==> le(s[0], s[1]);
    }
  }

  lemma SameMembers<T>(s: seq<T>, le: (T, T) -> bool)
    ensures forall x :: x in StableSort(s, le) <==> x in s
  {
    forall x ensures x in StableSort(s, le) <==> x in s {
      assert x in multiset(StableSort(s, le)) <==> x in multiset(s);
    }
  }

  predicate NoDuplicates<T(==)>(s: seq<T>) {
    forall i, j :: 0 <= i < j < |s| ==> s[i] != s[j]
  }

  lemma {:induction false} MultisetOfDistinct<T>(s: seq<T>, x: T)
    requires NoDuplicates(s)
    ensures multiset(s)[x] <= 1
  {
    if s != [] {
      assert s == s[..|s| - 1] + [s[|s| - 1]];
      MultisetOfDistinct(s[..|s| - 1], x);
    }
  }

  lemma DistinctFromMultiset<T>(s: seq<T>)
    requires forall x :: multiset(s)[x] <= 1
    ensures NoDuplicates(s)
  {
    forall i, j | 0 <= i < j < |s|
      ensures s[i] != s[j]
    {
      assert s == s[..j] + s[j..];
      assert s[i] == s[..j][i] && s[j] == s[j..][0];
      assert multiset(s[..j])[s[i]] >= 1 && multiset(s[j..])[s[j]] >= 1;
      assert multiset(s)[s[i]] == multiset(s[..j])[s[i]] + multiset(s[j..])[s[i]];
    }
  }

  /** Sorting does not create duplicates. */
  lemma StableSortDistinct<T>(s: seq<T>, le: (T, T) -> bool)
    requires NoDuplicates(s)
    ensures NoDuplicates(StableSort(s, le))
  {
    forall x ensures multiset(StableSort(s, le))[x] <= 1 {
      MultisetOfDistinct(s, x);
    }
    DistinctFromMultiset(StableSort(s, le));
  }

  // ------------------------------------------------------------- stability

  /** The elements with a property, in order. */
  function Having<T>(s: seq<T>, p: T -> bool): seq<T> {
    if s == [] then [] else (if p(s[0]) then [s[0]] else []) + Having(s[1..], p)
  }

  /** No two elements with the property are apart in the order. */
  ghost predicate Tied<T(!new)>(le: (T, T) -> bool, p: T -> bool) {
    forall x, y :: p(x) && p(y) ==> le(x, y)
  }

  lemma {:induction false} InsertStable<T(!new)>(x: T, s: seq<T>, le: (T, T) -> bool, p: T -> bool)
    requires Tied(le, p)
    ensures Having(Insert(x, s, le), p) == Having([x] + s, p)
  {
    if s != [] && !le(x, s[0]) {
      var rest := Insert(x, s[1..], le);
      assert !p(x) || !p(s[0]);
      assert Insert(x, s, le) == [s[0]] + rest && s == [s[0]] + s[1..];
      InsertStable(x, s[1..], le, p);
      hide Insert, Having, Tied;
      HavingCons(s[0], rest, p);
      HavingCons(x, s[1..], p);
      HavingCons(x, s, p);
      HavingCons(s[0], s[1..], p);
    }
  }

  lemma HavingCons<T>(x: T, s: seq<T>, p: T -> bool)
    ensures Having([x] + s, p) == if p(x) then [x] + Having(s, p) else Having(s, p)
  {
    assert ([x] + s)[1..] == s;
  }

  /** Elements that the order does not tell apart stay in the order they were in. */
  lemma {:induction false} StableSortStable<T(!new)>(s: seq<T>, le: (T, T) -> bool, p: T -> bool)
    requires Tied(le, p)
    ensures Having(StableSort(s, le), p) == Having(s, p)
  {
    if s != [] {
      var rest := StableSort(s[1..], le);
      assert StableSort(s, le) == Insert(s[0], rest, le) && s == [s[0]] + s[1..];
      hide Having, Insert, StableSort;
      StableSortStable(s[1..], le, p);
      InsertStable(s[0], rest, le, p);
      HavingCons(s[0], rest, p);
      HavingCons(s[0], s[1..], p);
    }
  }
}
