/** A stable sort by integer keys compared in order, as the planner's comparators do. */
module Sorting {

  /** Keys compared left to right; the first difference decides. */
  predicate LexLeq(a: seq<int>, b: seq<int>) {
    if a == [] || b == [] then a == []
    else a[0] < b[0] || (a[0] == b[0] && LexLeq(a[1..], b[1..]))
  }

  lemma {:induction false} LexTotal(a: seq<int>, b: seq<int>)
    ensures LexLeq(a, b) || LexLeq(b, a)
  {
    if a != [] && b != [] {
      LexTotal(a[1..], b[1..]);
    }
  }

  lemma {:induction false} LexTransitive(a: seq<int>, b: seq<int>, c: seq<int>)
    requires LexLeq(a, b) && LexLeq(b, c)
    ensures LexLeq(a, c)
  {
    if a != [] && b != [] && c != [] && a[0] == b[0] == c[0] {
      LexTransitive(a[1..], b[1..], c[1..]);
    }
  }

  predicate SortedBy<T>(key: T -> seq<int>, xs: seq<T>) {
    forall i, j | 0 <= i < j < |xs| :: LexLeq(key(xs[i]), key(xs[j]))
  }

  function Insert<T>(key: T -> seq<int>, x: T, xs: seq<T>): seq<T> {
    if xs == [] || LexLeq(key(x), key(xs[0])) then [x] + xs
    else [xs[0]] + Insert(key, x, xs[1..])
  }

  /** Equal keys keep their order. */
  function Sort<T>(key: T -> seq<int>, xs: seq<T>): seq<T> {
    if xs == [] then [] else Insert(key, xs[0], Sort(key, xs[1..]))
  }

  lemma {:induction false} InsertKeeps<T>(key: T -> seq<int>, x: T, xs: seq<T>)
    requires SortedBy(key, xs)
    ensures SortedBy(key, Insert(key, x, xs))
    ensures multiset(Insert(key, x, xs)) == multiset(xs) + multiset{x}
  {
    if xs == [] {
    } else if LexLeq(key(x), key(xs[0])) {
      forall j | 0 <= j < |xs|
        ensures LexLeq(key(x), key(xs[j]))
      {
        if j > 0 { LexTransitive(key(x), key(xs[0]), key(xs[j])); }
      }
    } else {
      InsertKeeps(key, x, xs[1..]);
      LexTotal(key(x), key(xs[0]));
      var rest := Insert(key, x, xs[1..]);
      assert xs == [xs[0]] + xs[1..];
      forall j | 0 <= j < |rest|
        ensures LexLeq(key(xs[0]), key(rest[j]))
      {
        assert rest[j] in multiset(rest);
        assert rest[j] == x || rest[j] in xs[1..];
      }
    }
  }

  lemma {:induction false} SortIsSortedPermutation<T>(key: T -> seq<int>, xs: seq<T>)
    ensures SortedBy(key, Sort(key, xs)) && multiset(Sort(key, xs)) == multiset(xs)
  {
    if xs != [] {
      SortIsSortedPermutation(key, xs[1..]);
      InsertKeeps(key, xs[0], Sort(key, xs[1..]));
      assert xs == [xs[0]] + xs[1..];
    }
  }

  lemma {:induction false} SortKeepsElements<T>(key: T -> seq<int>, xs: seq<T>)
    ensures forall x :: x in Sort(key, xs) <==> x in xs
  {
    SortIsSortedPermutation(key, xs);
    forall x: T
      ensures x in Sort(key, xs) <==> x in xs
    {
      assert x in multiset(Sort(key, xs)) <==> x in multiset(xs);
    }
  }
}
