/** `sort_unstable` on a totally ordered type, and the duplicate test on its result. */
module Sorting {

  ghost predicate TotalOrder<T(!new)>(leq: (T, T) -> bool) {
    && (forall x, y :: leq(x, y) || leq(y, x))
    && (forall x, y :: leq(x, y) && leq(y, x) ==> x == y)
    && (forall x, y, z :: leq(x, y) && leq(y, z) ==> leq(x, z))
  }

  ghost predicate Sorted<T(!new)>(xs: seq<T>, leq: (T, T) -> bool) {
    forall i, j :: 0 <= i < j < |xs| ==> leq(xs[i], xs[j])
  }

  function Insert<T>(x: T, xs: seq<T>, leq: (T, T) -> bool): (r: seq<T>)
    ensures |r| == |xs| + 1
  {
    if xs == [] || leq(x, xs[0]) then [x] + xs else [xs[0]] + Insert(x, xs[1..], leq)
  }

  function Sort<T>(xs: seq<T>, leq: (T, T) -> bool): (r: seq<T>)
    ensures |r| == |xs|
  {
    if xs == [] then [] else Insert(xs[0], Sort(xs[1..], leq), leq)
  }

  /** Some element equals its successor: the test the bulk frees run on the sorted ids. */
  predicate AdjacentEqual<T(==)>(xs: seq<T>) {
    exists i :: 0 <= i < |xs| - 1 && xs[i] == xs[i + 1]
  }

  method AnyNeighboursEqual<T(==)>(xs: seq<T>) returns (found: bool)
    ensures found <==> AdjacentEqual(xs)
  {
    var i := 0;
    while i + 1 < |xs|
      invariant forall k :: 0 <= k < i && k + 1 < |xs| ==> xs[k] != xs[k + 1]
    {
      if xs[i] == xs[i + 1] {
        return true;
      }
      i := i + 1;
    }
    return false;
  }

  ghost predicate Distinct<T>(xs: seq<T>) {
    forall i, j :: 0 <= i < j < |xs| ==> xs[i] != xs[j]
  }

  lemma {:induction false} InsertElements<T>(x: T, xs: seq<T>, leq: (T, T) -> bool)
    ensures multiset(Insert(x, xs, leq)) == multiset(xs) + multiset{x}
  {
    if xs != [] && !leq(x, xs[0]) {
      InsertElements(x, xs[1..], leq);
      assert xs == [xs[0]] + xs[1..];
      assert Insert(x, xs, leq) == [xs[0]] + Insert(x, xs[1..], leq);
    }
  }

  lemma {:induction false} SortElements<T>(xs: seq<T>, leq: (T, T) -> bool)
    ensures multiset(Sort(xs, leq)) == multiset(xs)
  {
    if xs != [] {
      SortElements(xs[1..], leq);
      InsertElements(xs[0], Sort(xs[1..], leq), leq);
      assert xs == [xs[0]] + xs[1..];
    }
  }

  lemma SortMembers<T>(xs: seq<T>, leq: (T, T) -> bool, x: T)
    ensures x in Sort(xs, leq) <==> x in xs
  {
    SortElements(xs, leq);
    assert x in multiset(Sort(xs, leq)) <==> x in multiset(xs);
  }

  lemma {:induction false} InsertSorts<T(!new)>(x: T, xs: seq<T>, leq: (T, T) -> bool)
    requires TotalOrder(leq) && Sorted(xs, leq)
    ensures Sorted(Insert(x, xs, leq), leq)
  {
    if xs != [] && !leq(x, xs[0]) {
      InsertSorts(x, xs[1..], leq);
      var rest := Insert(x, xs[1..], leq);
      forall j | 0 <= j < |rest|
        ensures leq(xs[0], rest[j])
      {
        InsertElements(x, xs[1..], leq);
        assert rest[j] in multiset(rest);
        assert rest[j] in xs[1..] || rest[j] == x;
      }
    }
  }

  lemma {:induction false} SortSorts<T(!new)>(xs: seq<T>, leq: (T, T) -> bool)
    requires TotalOrder(leq)
    ensures Sorted(Sort(xs, leq), leq)
  {
    if xs != [] {
      SortSorts(xs[1..], leq);
      InsertSorts(xs[0], Sort(xs[1..], leq), leq);
    }
  }

  /** In a sorted sequence, comparing neighbours decides distinctness. */
  lemma AdjacentDecides<T(!new)>(xs: seq<T>, leq: (T, T) -> bool)
    requires TotalOrder(leq) && Sorted(xs, leq)
    ensures AdjacentEqual(xs) <==> !Distinct(xs)
  {
    if !Distinct(xs) {
      var i, j :| 0 <= i < j < |xs| && xs[i] == xs[j];
      assert leq(xs[i], xs[i + 1]);
      assert i + 1 == j || leq(xs[i + 1], xs[j]);
      assert xs[i] == xs[i + 1];
    }
  }

  /** Two sequences with the same elements, one of them distinct: so is the other. */
  lemma {:induction false} DistinctIsCounting<T>(xs: seq<T>)
    ensures Distinct(xs) <==> forall x :: x in xs ==> multiset(xs)[x] == 1
  {
    if xs != [] {
      var x, rest := xs[0], xs[1..];
      DistinctIsCounting(rest);
      assert xs == [x] + rest;
      if Distinct(xs) {
        assert Distinct(rest);
        assert x !in rest;
      } else if forall y :: y in xs ==> multiset(xs)[y] == 1 {
        assert x in xs && multiset(xs)[x] == 1 + multiset(rest)[x];
        assert x !in rest;
        forall y | y in rest
          ensures multiset(rest)[y] == 1
        {
          assert y in xs;
        }
        assert false;
      }
    }
  }

  /** Sorting and comparing neighbours decides whether the input has duplicates. */
  lemma SortedTest<T(!new)>(xs: seq<T>, leq: (T, T) -> bool)
    requires TotalOrder(leq)
    ensures AdjacentEqual(Sort(xs, leq)) <==> !Distinct(xs)
  {
    SortSorts(xs, leq);
    SortElements(xs, leq);
    AdjacentDecides(Sort(xs, leq), leq);
    DistinctIsCounting(xs);
    DistinctIsCounting(Sort(xs, leq));
    assert forall x :: x in xs <==> x in multiset(xs);
    assert forall x :: x in Sort(xs, leq) <==> x in multiset(Sort(xs, leq));
  }
}
