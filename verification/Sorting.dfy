/** Stable sorting by a total order. */
module Sorting {

  ghost predicate TotalOrder<T(!new)>(le: (T, T) -> bool) {
    && (forall x, y :: le(x, y) || le(y, x))
    && (forall x, y, z :: le(x, y) && le(y, z) ==> le(x, z))
  }

  ghost predicate Sorted<T>(xs: seq<T>, le: (T, T) -> bool) {
    forall i, j :: 0 <= i < j < |xs| ==> le(xs[i], xs[j])
  }

  // x in front of the first element it is not above.
  function Insert<T>(x: T, xs: seq<T>, le: (T, T) -> bool): seq<T> {
    if xs == [] then [x]
    else if le(x, xs[0]) then [x] + xs
    else [xs[0]] + Insert(x, xs[1..], le)
  }

  function Sort<T>(xs: seq<T>, le: (T, T) -> bool): seq<T> {
    if xs == [] then [] else Insert(xs[0], Sort(xs[1..], le), le)
  }

  lemma {:induction false} InsertElements<T>(x: T, xs: seq<T>, le: (T, T) -> bool)
    ensures multiset(Insert(x, xs, le)) == multiset{x} + multiset(xs)
  {
    if xs != [] {
      InsertElements(x, xs[1..], le);
      assert xs == [xs[0]] + xs[1..];
    }
  }

  lemma {:induction false} SortElements<T>(xs: seq<T>, le: (T, T) -> bool)
    ensures multiset(Sort(xs, le)) == multiset(xs)
    ensures forall x :: x in Sort(xs, le) <==> x in xs
    ensures |Sort(xs, le)| == |xs|
  {
    if xs != [] {
      SortElements(xs[1..], le);
      InsertElements(xs[0], Sort(xs[1..], le), le);
      assert xs == [xs[0]] + xs[1..];
    }
    SameElements(Sort(xs, le), xs);
  }

  lemma {:induction false} SameElements<T>(a: seq<T>, b: seq<T>)
    requires multiset(a) == multiset(b)
    ensures forall x :: x in a <==> x in b
    ensures |a| == |b|
  {
    assert forall x :: x in a <==> x in multiset(a);
    assert forall x :: x in b <==> x in multiset(b);
    assert |multiset(a)| == |a| && |multiset(b)| == |b|;
  }

  lemma {:induction false} InsertSorts<T(!new)>(x: T, xs: seq<T>, le: (T, T) -> bool)
    requires TotalOrder(le) && Sorted(xs, le)
    ensures Sorted(Insert(x, xs, le), le)
  {
    if xs != [] && !le(x, xs[0]) {
      InsertSorts(x, xs[1..], le);
      InsertElements(x, xs[1..], le);
      var rest := Insert(x, xs[1..], le);
      SameElements(rest, [x] + xs[1..]);
      forall y | y in rest ensures le(xs[0], y) {
        assert y in [x] + xs[1..];
        if y != x {
          var k :| 0 <= k < |xs[1..]| && xs[1..][k] == y;
          assert xs[k + 1] == y;
        }
      }
    } else if xs != [] {
      forall k | 0 <= k < |xs| ensures le(x, xs[k]) { assert k == 0 || le(xs[0], xs[k]); }
    }
  }

  lemma {:induction false} SortSorts<T(!new)>(xs: seq<T>, le: (T, T) -> bool)
    requires TotalOrder(le)
    ensures Sorted(Sort(xs, le), le)
  {
    if xs != [] {
      SortSorts(xs[1..], le);
      InsertSorts(xs[0], Sort(xs[1..], le), le);
    }
  }

  // Sorting what is sorted changes nothing.
  lemma {:induction false} SortedStays<T>(xs: seq<T>, le: (T, T) -> bool)
    requires Sorted(xs, le)
    ensures Sort(xs, le) == xs
  {
    if xs != [] {
      SortedStays(xs[1..], le);
      if |xs| > 1 { assert xs[1..][0] == xs[1] && le(xs[0], xs[1]); }
      assert xs == [xs[0]] + xs[1..];
    }
  }

  lemma {:induction false} SameHeads<T(!new)>(a: seq<T>, b: seq<T>, le: (T, T) -> bool)
    requires Sorted(a, le) && Sorted(b, le) && a != [] && b != [] && a[0] in b && b[0] in a
    requires forall x, y :: x in a && y in a && le(x, y) && le(y, x) ==> x == y
    ensures a[0] == b[0]
  {}

  lemma {:induction false} SameTails<T>(a: seq<T>, b: seq<T>)
    requires a != [] && b != [] && a[0] == b[0] && multiset(a) == multiset(b)
    ensures multiset(a[1..]) == multiset(b[1..])
  {
    assert a == [a[0]] + a[1..] && b == [b[0]] + b[1..];
    assert multiset(a[1..]) == multiset(a) - multiset{a[0]};
    assert multiset(b[1..]) == multiset(b) - multiset{b[0]};
  }

  // There is one way to sort elements the order tells apart.
  lemma {:induction false} SortedIsUnique<T(!new)>(a: seq<T>, b: seq<T>, le: (T, T) -> bool)
    requires Sorted(a, le) && Sorted(b, le) && multiset(a) == multiset(b)
    requires forall x, y :: x in a && y in a && le(x, y) && le(y, x) ==> x == y
    ensures a == b
  {
    SameElements(a, b);
    if a != [] {
      assert a[0] in b && b[0] in a;
      SameHeads(a, b, le);
      SameTails(a, b);
      SortedIsUnique(a[1..], b[1..], le);
    }
  }
}
