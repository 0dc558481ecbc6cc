/** Which of several pools in a namespace is the active one. */
module PoolSelection {
  import opened Text
  import opened Pools

  /** The comparator of sortPoolsForSelection: creation time, then initial resource version, then name. */
  predicate SelectsBefore(a: Pool, b: Pool) {
    var left, right := InitialRV(a), InitialRV(b);
    if a.creation != 0 && b.creation != 0 && a.creation != b.creation then a.creation < b.creation
    else if left > 0 && right > 0 && left != right then left < right
    else StringLess(a.name, b.name)
  }

  /** The older pool comes first; in the same second the one with the lower stamp, if both have a positive one;
      otherwise the name decides. */
  lemma SelectsBeforeMeans(a: Pool, b: Pool)
    requires a.creation != 0 && b.creation != 0
    ensures a.creation < b.creation ==> SelectsBefore(a, b) && !SelectsBefore(b, a)
    ensures a.creation == b.creation && 0 < InitialRV(a) < InitialRV(b) ==> SelectsBefore(a, b) && !SelectsBefore(b, a)
    ensures a.creation == b.creation && (InitialRV(a) <= 0 || InitialRV(b) <= 0 || InitialRV(a) == InitialRV(b)) ==>
              (SelectsBefore(a, b) <==> StringLess(a.name, b.name))
  {
  }

  lemma SelectsBeforeAsymmetric(a: Pool, b: Pool)
    ensures !(SelectsBefore(a, b) && SelectsBefore(b, a))
    ensures a.name != b.name ==> SelectsBefore(a, b) || SelectsBefore(b, a)
  {
    StringLessTrichotomy(a.name, b.name);
  }

  ghost predicate DistinctNames(ps: seq<Pool>) {
    forall i, j :: 0 <= i < j < |ps| ==> ps[i].name != ps[j].name
  }

  ghost predicate Transitive(ps: seq<Pool>) {
    forall a, b, c :: a in ps && b in ps && c in ps && SelectsBefore(a, b) && SelectsBefore(b, c) ==>
        SelectsBefore(a, c)
  }

  /** On these pools the comparator is a strict total order. */
  ghost predicate StrictOrder(ps: seq<Pool>) {
    && Transitive(ps)
    && forall a, b :: a in ps && b in ps && a != b ==> SelectsBefore(a, b) != SelectsBefore(b, a)
  }

  // ---------------------------------------------------------------- when is it an order?

  /** Two stamped pools of one second, in the order of their revisions but against that of their
      names, and an unstamped one of the same second whose name falls between the two. */
  predicate Straddled(a: Pool, b: Pool, c: Pool) {
    && a.creation == b.creation == c.creation
    && 0 < InitialRV(a) < InitialRV(b) && InitialRV(c) <= 0
    && StringLess(b.name, c.name) && StringLess(c.name, a.name)
  }

  lemma StraddledIsCycle(a: Pool, b: Pool, c: Pool)
    requires Straddled(a, b, c)
    ensures SelectsBefore(a, b) && SelectsBefore(b, c) && SelectsBefore(c, a)
  {
  }

  lemma NamesOrdered(a: string, b: string, c: string)
    ensures !(StringLess(a, b) && StringLess(b, c) && StringLess(c, a))
    ensures StringLess(a, b) && StringLess(b, c) ==> StringLess(a, c)
    ensures !StringLess(a, a)
  {
    StringLessTrichotomy(a, a);
    StringLessTrichotomy(a, c);
    if StringLess(a, b) && StringLess(b, c) {
      StringLessTransitive(a, b, c);
    }
  }

  lemma CycleIsStraddled(a: Pool, b: Pool, c: Pool)
    requires a.creation != 0 && b.creation != 0 && c.creation != 0
    requires SelectsBefore(a, b) && SelectsBefore(b, c) && SelectsBefore(c, a)
    ensures Straddled(a, b, c) || Straddled(b, c, a) || Straddled(c, a, b)
  {
    NamesOrdered(a.name, b.name, c.name);
    NamesOrdered(b.name, c.name, a.name);
    NamesOrdered(c.name, a.name, b.name);
  }

  /** For distinct names and non-zero creation times, the comparator is a strict total order exactly
      when no unstamped pool is straddled. */
  lemma OrderIffNoneStraddled(ps: seq<Pool>)
    requires DistinctNames(ps) && forall p :: p in ps ==> p.creation != 0
    ensures StrictOrder(ps) <==> !exists a, b, c :: a in ps && b in ps && c in ps && Straddled(a, b, c)
  {
    forall a, b ensures !(SelectsBefore(a, b) && SelectsBefore(b, a)) &&
                        (a.name != b.name ==> SelectsBefore(a, b) || SelectsBefore(b, a))
    {
      SelectsBeforeAsymmetric(a, b);
    }
    if a, b, c :| a in ps && b in ps && c in ps && Straddled(a, b, c) {
      StraddledIsCycle(a, b, c);
      assert !Transitive(ps);
    } else {
      forall a, b, c | a in ps && b in ps && c in ps && SelectsBefore(a, b) && SelectsBefore(b, c)
        ensures SelectsBefore(a, c)
      {
        if !SelectsBefore(a, c) {
          assert a != c;
          CycleIsStraddled(a, b, c);
          assert false;
        }
      }
    }
  }

  /** Within each second, either all pools carry a positive stamp or none does. */
  ghost predicate UniformlyStamped(ps: seq<Pool>) {
    forall a, b :: a in ps && b in ps && a.creation == b.creation ==> (InitialRV(a) > 0 <==> InitialRV(b) > 0)
  }

  lemma UniformlyStampedOrder(ps: seq<Pool>)
    requires DistinctNames(ps) && forall p :: p in ps ==> p.creation != 0
    requires UniformlyStamped(ps)
    ensures StrictOrder(ps)
  {
    OrderIffNoneStraddled(ps);
  }

  // ---------------------------------------------------------------- the outcome of sorting

  ghost predicate Sorted(ps: seq<Pool>) {
    forall i, j :: 0 <= i < j < |ps| ==> !SelectsBefore(ps[j], ps[i])
  }

  /** What sort.Slice promises: a permutation, and a sorted one when the comparator is an order. */
  ghost predicate SortOutcome(before: seq<Pool>, after: seq<Pool>) {
    multiset(before) == multiset(after) && (StrictOrder(before) ==> Sorted(after))
  }

  /** `p` is the pool that the comparator puts before all others. */
  ghost predicate IsFirst(ps: seq<Pool>, p: Pool) {
    p in ps && forall q :: q in ps && q != p ==> SelectsBefore(p, q)
  }

  lemma FirstIsUnique(ps: seq<Pool>, p: Pool, q: Pool)
    requires IsFirst(ps, p) && IsFirst(ps, q)
    ensures p == q
  {
    SelectsBeforeAsymmetric(p, q);
  }

  lemma SortedFirst(before: seq<Pool>, after: seq<Pool>)
    requires SortOutcome(before, after) && StrictOrder(before) && before != []
    ensures after != [] && IsFirst(before, after[0])
  {
    assert |multiset(before)| == |multiset(after)|;
    forall q ensures q in before <==> q in after {
      assert q in multiset(before) <==> q in multiset(after);
    }
  }

  /** Whatever order the API lists the pools in, and whatever the sort does among equals, the same
      pool comes out first. */
  lemma SelectionIgnoresListOrder(a: seq<Pool>, b: seq<Pool>, sortedA: seq<Pool>, sortedB: seq<Pool>)
    requires multiset(a) == multiset(b) && a != [] && StrictOrder(a)
    requires SortOutcome(a, sortedA) && SortOutcome(b, sortedB)
    ensures sortedA != [] && sortedB != [] && sortedA[0] == sortedB[0]
  {
    forall q ensures q in a <==> q in b {
      assert q in multiset(a) <==> q in multiset(b);
    }
    assert |multiset(a)| == |multiset(b)|;
    SortedFirst(a, sortedA);
    SortedFirst(b, sortedB);
    FirstIsUnique(a, sortedA[0], sortedB[0]);
  }

  /** There is always something that sorting can return. */
  lemma {:induction false} SortOutcomeExists(items: seq<Pool>) returns (sorted: seq<Pool>)
    ensures SortOutcome(items, sorted)
    decreases |items|
  {
    hide SelectsBefore;
    if items == [] || !StrictOrder(items) {
      sorted := items;
    } else {
      var x := items[0];
      assert items == [x] + items[1..];
      var rest := SortOutcomeExists(items[1..]);
      assert StrictOrder(items[1..]);
      hide StrictOrder, Sorted;
      var i := 0;
      while i < |rest| && SelectsBefore(rest[i], x)
        invariant 0 <= i <= |rest|
        invariant forall k :: 0 <= k < i ==> SelectsBefore(rest[k], x)
      {
        i := i + 1;
      }
      sorted := rest[..i] + [x] + rest[i..];
      assert rest == rest[..i] + rest[i..];
      InsertedSorted(items, x, rest, i);
    }
  }

  lemma InsertedSorted(all: seq<Pool>, x: Pool, rest: seq<Pool>, i: nat)
    requires StrictOrder(all) && x in all && (forall p :: p in multiset(rest) ==> p in all)
    requires Sorted(rest) && i <= |rest|
    requires forall k :: 0 <= k < i ==> SelectsBefore(rest[k], x)
    requires i < |rest| ==> !SelectsBefore(rest[i], x)
    ensures Sorted(rest[..i] + [x] + rest[i..])
  {
    hide SelectsBefore;
    forall k | 0 <= k < |rest|
      ensures k < i ==> !SelectsBefore(x, rest[k])
      ensures i <= k ==> !SelectsBefore(rest[k], x)
    {
      assert rest[k] in multiset(rest);
      SelectsBeforeAsymmetric(rest[k], x);
      if i < k {
        assert rest[i] in multiset(rest) && !SelectsBefore(rest[k], rest[i]);
        assert rest[i] == x || SelectsBefore(x, rest[i]);
        assert rest[i] == rest[k] || SelectsBefore(rest[i], rest[k]);
        SelectsBeforeAsymmetric(rest[k], rest[i]);
      }
    }
  }

  /** sortPoolsForSelection. Go sorts short slices by insertion, as here. */
  method SortPoolsForSelection(items: array<Pool>)
    modifies items
    ensures SortOutcome(old(items[..]), items[..])
  {
    hide SelectsBefore;
    ghost var before := items[..];
    ghost var ordered := StrictOrder(before);
    for i := 0 to items.Length
      invariant multiset(items[..]) == multiset(before)
      invariant ordered ==> Sorted(items[..i])
    {
      var j := i;
      while j > 0 && SelectsBefore(items[j], items[j - 1])
        invariant 0 <= j <= i
        invariant multiset(items[..]) == multiset(before)
        invariant ordered ==> SortedBut(items[..i + 1], j)
      {
        ghost var previous := items[..];
        items[j - 1], items[j] := items[j], items[j - 1];
        if ordered {
          SwapDown(before, previous, items[..], i, j);
        }
        j := j - 1;
      }
      if ordered {
        InsertionDone(before, items[..], i, j);
      }
    }
    assert items[..items.Length] == items[..];
  }

  /** Sorted apart from position `j`, which holds nothing that belongs after its right neighbours. */
  ghost predicate SortedBut(ps: seq<Pool>, j: int) {
    && (forall p, q :: 0 <= p < q < |ps| && p != j && q != j ==> !SelectsBefore(ps[q], ps[p]))
    && (forall q :: j < q < |ps| && 0 <= j ==> !SelectsBefore(ps[q], ps[j]))
  }

  lemma SwapDown(before: seq<Pool>, s: seq<Pool>, t: seq<Pool>, i: nat, j: nat)
    requires StrictOrder(before) && multiset(s) == multiset(before)
    requires 0 < j <= i < |s| && SelectsBefore(s[j], s[j - 1])
    requires t == s[j - 1 := s[j]][j := s[j - 1]]
    requires SortedBut(s[..i + 1], j)
    ensures SortedBut(t[..i + 1], j - 1)
  {
    hide SelectsBefore;
    SelectsBeforeAsymmetric(s[j], s[j - 1]);
    var a, b := s[..i + 1], t[..i + 1];
    forall q | j - 1 < q < |b| ensures !SelectsBefore(b[q], b[j - 1]) {
      if q != j {
        assert b[q] == a[q] && b[j - 1] == a[j];
      }
    }
    forall p, q | 0 <= p < q < |b| && p != j - 1 && q != j - 1 ensures !SelectsBefore(b[q], b[p]) {
      var p', q' := if p == j then j - 1 else p, if q == j then j - 1 else q;
      assert b[p] == a[p'] && b[q] == a[q'];
    }
  }

  lemma InsertionDone(before: seq<Pool>, s: seq<Pool>, i: nat, j: nat)
    requires StrictOrder(before) && multiset(s) == multiset(before)
    requires j <= i < |s| && SortedBut(s[..i + 1], j)
    requires j == 0 || !SelectsBefore(s[j], s[j - 1])
    ensures Sorted(s[..i + 1])
  {
    hide SelectsBefore;
    var a := s[..i + 1];
    forall p | 0 <= p < j ensures !SelectsBefore(a[j], a[p]) {
      assert a[j] in multiset(before) && a[p] in multiset(before) && a[j - 1] in multiset(before);
      assert p == j - 1 || !SelectsBefore(a[j - 1], a[p]);
      assert a[j - 1] == a[j] || SelectsBefore(a[j - 1], a[j]);
    }
  }
}
