/** `Array.prototype.sort` with a comparison function: a stable sort, and the one list it
    can return when the elements are pairwise comparable. */
module Sorting {

  ghost predicate StrictOrder<T(!new)>(before: (T, T) -> bool) {
    (forall x :: !before(x, x)) && (forall x, y, z :: before(x, y) && before(y, z) ==> before(x, z))
  }

  /** `left.localeCompare(right) < 0` on the texts in use. */
  ghost predicate StrictTotal(precedes: (string, string) -> bool) {
    StrictOrder(precedes) && (forall a, b :: a != b ==> precedes(a, b) || precedes(b, a))
  }

  lemma StrictTotalFacts(precedes: (string, string) -> bool, a: string, b: string, c: string)
    requires StrictTotal(precedes)
    ensures !precedes(a, a)
    ensures precedes(a, b) && precedes(b, c) ==> precedes(a, c)
    ensures a != b ==> precedes(a, b) || precedes(b, a)
  {}

  /** Insertion keeps elements that compare equal in their order. */
  function Insert<T>(before: (T, T) -> bool, x: T, xs: seq<T>): seq<T> {
    if xs == [] then [x]
    else
      var last := xs[|xs| - 1];
      if before(x, last) then Insert(before, x, xs[..|xs| - 1]) + [last] else xs + [x]
  }

  function SortBy<T>(before: (T, T) -> bool, xs: seq<T>): seq<T> {
    if xs == [] then [] else Insert(before, xs[|xs| - 1], SortBy(before, xs[..|xs| - 1]))
  }

  predicate OrderedBy<T>(before: (T, T) -> bool, xs: seq<T>) {
    forall i, j :: 0 <= i < j < |xs| ==> before(xs[i], xs[j])
  }

  predicate Comparable<T>(before: (T, T) -> bool, xs: seq<T>) {
    forall i, j :: 0 <= i < j < |xs| ==> before(xs[i], xs[j]) || before(xs[j], xs[i])
  }

  lemma {:induction false} InsertKeeps<T>(before: (T, T) -> bool, x: T, xs: seq<T>)
    ensures multiset(Insert(before, x, xs)) == multiset(xs) + multiset{x}
  {
    if xs != [] {
      var init, last := xs[..|xs| - 1], xs[|xs| - 1];
      assert xs == init + [last];
      if before(x, last) { InsertKeeps(before, x, init); }
    }
  }

  lemma {:induction false} InsertOrders<T(!new)>(before: (T, T) -> bool, x: T, xs: seq<T>)
    requires StrictOrder(before) && OrderedBy(before, xs)
    requires forall i :: 0 <= i < |xs| ==> before(x, xs[i]) || before(xs[i], x)
    ensures OrderedBy(before, Insert(before, x, xs))
  {
    if xs != [] {
      var init, last := xs[..|xs| - 1], xs[|xs| - 1];
      if before(x, last) {
        InsertOrders(before, x, init);
        var inserted := Insert(before, x, init);
        InsertKeeps(before, x, init);
        forall i | 0 <= i < |inserted| ensures before(inserted[i], last) {
          assert inserted[i] in multiset(inserted);
        }
      }
    }
  }

  /** Sorting permutes. */
  lemma {:induction false} SortPermutes<T>(before: (T, T) -> bool, xs: seq<T>)
    ensures multiset(SortBy(before, xs)) == multiset(xs)
  {
    if xs != [] {
      var init, last := xs[..|xs| - 1], xs[|xs| - 1];
      assert xs == init + [last];
      SortPermutes(before, init);
      InsertKeeps(before, last, SortBy(before, init));
    }
  }

  /** Sorting pairwise comparable elements orders them strictly. */
  lemma {:induction false} SortOrders<T(!new)>(before: (T, T) -> bool, xs: seq<T>)
    requires StrictOrder(before) && Comparable(before, xs)
    ensures OrderedBy(before, SortBy(before, xs))
  {
    hide StrictOrder;
    if xs != [] {
      var init, last := xs[..|xs| - 1], xs[|xs| - 1];
      var sorted := SortBy(before, init);
      SortOrders(before, init);
      SortPermutes(before, init);
      forall i | 0 <= i < |sorted| ensures before(last, sorted[i]) || before(sorted[i], last) {
        assert sorted[i] in multiset(init);
        var k :| 0 <= k < |init| && init[k] == sorted[i];
        assert xs[k] == init[k] && xs[|xs| - 1] == last;
      }
      InsertOrders(before, last, sorted);
    }
  }

  /** A strictly ordered list is determined by its elements. */
  lemma {:induction false} OrderedUnique<T(!new)>(before: (T, T) -> bool, a: seq<T>, b: seq<T>)
    requires StrictOrder(before) && OrderedBy(before, a) && OrderedBy(before, b)
    requires forall x :: x in a <==> x in b
    ensures a == b
  {
    if a != [] { assert a[0] in b; }
    if b != [] { assert b[0] in a; }
    if a != [] && b != [] {
      assert a[0] == b[0];
      forall x ensures x in a[1..] <==> x in b[1..] {
        if x in a[1..] { assert x in b; }
        if x in b[1..] { assert x in a; }
      }
      OrderedUnique(before, a[1..], b[1..]);
    }
  }

  lemma SameElements<T(!new)>(x: seq<T>, y: seq<T>)
    requires multiset(x) == multiset(y)
    ensures forall e :: e in x <==> e in y
  {
    forall e ensures e in x <==> e in y { assert e in multiset(x) <==> e in multiset(y); }
  }
}
