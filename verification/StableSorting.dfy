/** sort.SliceStable over the two keys of an upstream: preference ascending, then weight descending. */
module StableSorting {

  datatype Rank = Rank(preference: int, weight: int)

  predicate RankLess(a: Rank, b: Rank) {
    a.preference < b.preference || (a.preference == b.preference && a.weight > b.weight)
  }

  function Insert<T>(x: T, s: seq<T>, rank: T -> Rank): seq<T> {
    if s != [] && RankLess(rank(s[0]), rank(x)) then [s[0]] + Insert(x, s[1..], rank) else [x] + s
  }

  function StableSort<T>(s: seq<T>, rank: T -> Rank): seq<T> {
    if s == [] then [] else Insert(s[0], StableSort(s[1..], rank), rank)
  }

  ghost predicate SortedBy<T>(s: seq<T>, rank: T -> Rank) {
    forall i, j :: 0 <= i < j < |s| ==> !RankLess(rank(s[j]), rank(s[i]))
  }

  /** The elements of rank `k`, in the order in which they stand in `s`. */
  function Class<T>(s: seq<T>, rank: T -> Rank, k: Rank): seq<T> {
    if s == [] then [] else (if rank(s[0]) == k then [s[0]] else []) + Class(s[1..], rank, k)
  }

  /** `r` is sorted and keeps, for every rank, the elements of that rank in their order in `s`. */
  ghost predicate IsStableSortOf<T>(s: seq<T>, r: seq<T>, rank: T -> Rank) {
    SortedBy(r, rank) && forall k :: Class(r, rank, k) == Class(s, rank, k)
  }

  lemma {:induction false} InsertAddsToClass<T>(x: T, s: seq<T>, rank: T -> Rank, k: Rank)
    requires SortedBy(s, rank)
    ensures Class(Insert(x, s, rank), rank, k) == Class([x] + s, rank, k)
  {
    assert ([x] + s)[1..] == s;
    if s != [] && RankLess(rank(s[0]), rank(x)) {
      InsertAddsToClass(x, s[1..], rank, k);
      assert ([x] + s[1..])[1..] == s[1..];
      assert Insert(x, s, rank)[1..] == Insert(x, s[1..], rank);
    }
  }

  lemma {:induction false} InsertMembers<T>(x: T, s: seq<T>, rank: T -> Rank)
    ensures multiset(Insert(x, s, rank)) == multiset{x} + multiset(s)
  {
    if s != [] && RankLess(rank(s[0]), rank(x)) {
      InsertMembers(x, s[1..], rank);
      assert s == [s[0]] + s[1..];
    }
  }

  lemma {:induction false} InsertKeepsSorted<T>(x: T, s: seq<T>, rank: T -> Rank)
    requires SortedBy(s, rank)
    ensures SortedBy(Insert(x, s, rank), rank)
  {
    if s != [] && RankLess(rank(s[0]), rank(x)) {
      InsertKeepsSorted(x, s[1..], rank);
      InsertMembers(x, s[1..], rank);
      var t := Insert(x, s[1..], rank);
      forall j | 0 <= j < |t| ensures !RankLess(rank(t[j]), rank(s[0])) {
        assert t[j] in multiset(t);
        assert t[j] == x || t[j] in s[1..];
      }
    }
  }

  /** The sort is a stable permutation: sorted, same elements, ties in their original order. */
  lemma {:induction false} StableSortIsStable<T>(s: seq<T>, rank: T -> Rank)
    ensures IsStableSortOf(s, StableSort(s, rank), rank)
    ensures multiset(StableSort(s, rank)) == multiset(s)
    ensures |StableSort(s, rank)| == |s|
  {
    if s != [] {
      var rest := StableSort(s[1..], rank);
      StableSortIsStable(s[1..], rank);
      InsertKeepsSorted(s[0], rest, rank);
      InsertMembers(s[0], rest, rank);
      assert s == [s[0]] + s[1..];
      forall k ensures Class(StableSort(s, rank), rank, k) == Class(s, rank, k) {
        InsertAddsToClass(s[0], rest, rank, k);
        assert ([s[0]] + rest)[1..] == rest;
      }
      assert |multiset(StableSort(s, rank))| == |multiset(s)|;
    }
  }

  lemma {:induction false} ClassMember<T>(s: seq<T>, rank: T -> Rank, k: Rank)
    requires Class(s, rank, k) != []
    ensures exists i :: 0 <= i < |s| && rank(s[i]) == k
  {
    if rank(s[0]) != k {
      ClassMember(s[1..], rank, k);
      var i :| 0 <= i < |s[1..]| && rank(s[1..][i]) == k;
      assert rank(s[i + 1]) == k;
    }
  }

  /** A stable sort is the only one: the two conditions determine the result. */
  lemma {:induction false} StableSortUnique<T>(s: seq<T>, a: seq<T>, b: seq<T>, rank: T -> Rank)
    requires IsStableSortOf(s, a, rank) && IsStableSortOf(s, b, rank)
    ensures a == b
  {
    SameClassesSame(a, b, rank);
  }

  lemma {:induction false} SameClassesSame<T>(a: seq<T>, b: seq<T>, rank: T -> Rank)
    requires SortedBy(a, rank) && SortedBy(b, rank)
    requires forall k :: Class(a, rank, k) == Class(b, rank, k)
    ensures a == b
    decreases |a|
  {
    if a == [] {
      assert b != [] ==> Class(b, rank, rank(b[0])) != [];
    } else {
      var k := rank(a[0]);
      assert Class(b, rank, k) != [];
      var l := rank(b[0]);
      assert Class(a, rank, l) != [];
      ClassMember(b, rank, k);
      ClassMember(a, rank, l);
      assert !RankLess(k, l) && !RankLess(l, k);
      assert k == l;
      assert a[0] == Class(a, rank, k)[0] == Class(b, rank, k)[0] == b[0];
      forall m ensures Class(a[1..], rank, m) == Class(b[1..], rank, m) {
        var n := if k == m then 1 else 0;
        assert Class(a[1..], rank, m) == Class(a, rank, m)[n..];
        assert Class(b[1..], rank, m) == Class(b, rank, m)[n..];
      }
      SameClassesSame(a[1..], b[1..], rank);
      assert a == [a[0]] + a[1..] && b == [b[0]] + b[1..];
    }
  }

  function Map<T, U>(f: T -> U, s: seq<T>): (r: seq<U>)
    ensures |r| == |s| && forall i :: 0 <= i < |s| ==> r[i] == f(s[i])
  {
    seq(|s|, i requires 0 <= i < |s| => f(s[i]))
  }

  lemma {:induction false} MapInsert<T, U>(f: T -> U, x: T, s: seq<T>, rank: T -> Rank, rank': U -> Rank)
    requires forall t :: rank'(f(t)) == rank(t)
    ensures Map(f, Insert(x, s, rank)) == Insert(f(x), Map(f, s), rank')
  {
    if s != [] && RankLess(rank(s[0]), rank(x)) {
      MapInsert(f, x, s[1..], rank, rank');
      assert Map(f, s)[1..] == Map(f, s[1..]);
    }
  }

  /** Rewriting elements without changing their rank commutes with sorting. */
  lemma {:induction false} MapStableSort<T, U>(f: T -> U, s: seq<T>, rank: T -> Rank, rank': U -> Rank)
    requires forall t :: rank'(f(t)) == rank(t)
    ensures Map(f, StableSort(s, rank)) == StableSort(Map(f, s), rank')
  {
    if s != [] {
      MapStableSort(f, s[1..], rank, rank');
      MapInsert(f, s[0], StableSort(s[1..], rank), rank, rank');
      assert Map(f, s)[1..] == Map(f, s[1..]);
    }
  }
}
