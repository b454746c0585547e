/** Sorting by a height, equal heights in their original order: what a stable sort does. */
module Sorting {

  function SortBy<T>(s: seq<T>, z: T -> int): seq<T> {
    if s == [] then [] else InsertBy(SortBy(s[..|s| - 1], z), s[|s| - 1], z)
  }

  function InsertBy<T>(s: seq<T>, x: T, z: T -> int): seq<T> {
    if s == [] || z(s[|s| - 1]) <= z(x) then s + [x]
    else InsertBy(s[..|s| - 1], x, z) + [s[|s| - 1]]
  }

  predicate SortedBy<T>(s: seq<T>, z: T -> int) {
    forall i, j :: 0 <= i < j < |s| ==> z(s[i]) <= z(s[j])
  }

  predicate AllBelow<T>(s: seq<T>, z: T -> int, top: int) {
    forall i :: 0 <= i < |s| ==> z(s[i]) <= top
  }

  lemma {:induction false} InsertBelow<T>(s: seq<T>, x: T, z: T -> int, top: int)
    requires AllBelow(s, z, top) && z(x) <= top
    ensures AllBelow(InsertBy(s, x, z), z, top)
    decreases |s|
  {
    if s != [] && z(s[|s| - 1]) > z(x) { InsertBelow(s[..|s| - 1], x, z, top); }
  }

  lemma {:induction false} InsertKeepsSorted<T>(s: seq<T>, x: T, z: T -> int)
    requires SortedBy(s, z)
    ensures SortedBy(InsertBy(s, x, z), z)
    decreases |s|
  {
    if s != [] && z(s[|s| - 1]) > z(x) {
      var n := |s| - 1;
      InsertKeepsSorted(s[..n], x, z);
      InsertBelow(s[..n], x, z, z(s[n]));
    }
  }

  lemma {:induction false} InsertMultiset<T>(s: seq<T>, x: T, z: T -> int)
    ensures multiset(InsertBy(s, x, z)) == multiset(s) + multiset{x}
    decreases |s|
  {
    if s != [] && z(s[|s| - 1]) > z(x) {
      InsertMultiset(s[..|s| - 1], x, z);
      assert s == s[..|s| - 1] + [s[|s| - 1]];
    }
  }

  lemma SortStep<T>(s: seq<T>, z: T -> int)
    requires s != []
    ensures SortBy(s, z) == InsertBy(SortBy(s[..|s| - 1], z), s[|s| - 1], z)
  {
  }

  lemma {:induction false} SortIsSorted<T>(s: seq<T>, z: T -> int)
    ensures SortedBy(SortBy(s, z), z)
    ensures multiset(SortBy(s, z)) == multiset(s)
    decreases |s|
  {
    if s != [] {
      var n := |s| - 1;
      SortIsSorted(s[..n], z);
      InsertKeepsSorted(SortBy(s[..n], z), s[n], z);
      InsertMultiset(SortBy(s[..n], z), s[n], z);
      assert s == s[..n] + [s[n]];
    }
  }
}
