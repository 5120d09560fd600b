/** Stable sorting by a comparison, and what it keeps. */
module Sorting {

  type Order<!T> = (T, T) -> bool

  /** Inserts behind everything that may come before it. */
  function Insert<T>(sorted: seq<T>, x: T, le: Order<T>): seq<T>
  {
    if sorted == [] || le(sorted[|sorted| - 1], x) then sorted + [x]
    else Insert(sorted[..|sorted| - 1], x, le) + [sorted[|sorted| - 1]]
  }

  /** Python's `sorted` with a key, whose order is the comparison. */
  function Sort<T>(xs: seq<T>, le: Order<T>): seq<T>
  {
    if xs == [] then [] else Insert(Sort(xs[..|xs| - 1], le), xs[|xs| - 1], le)
  }

  predicate Ascending<T>(xs: seq<T>, rank: T -> int)
  {
    forall i, j :: 0 <= i < j < |xs| ==> rank(xs[i]) <= rank(xs[j])
  }

  /** The comparison agrees with a rank, whatever it does on ties. */
  ghost predicate Ranks<T(!new)>(le: Order<T>, rank: T -> int)
  {
    forall a, b :: if le(a, b) then rank(a) <= rank(b) else rank(b) <= rank(a)
  }

  lemma {:induction false} InsertKeeps<T>(sorted: seq<T>, x: T, le: Order<T>)
    ensures multiset(Insert(sorted, x, le)) == multiset(sorted) + multiset{x}
    ensures |Insert(sorted, x, le)| == |sorted| + 1
  {
    if sorted != [] && !le(sorted[|sorted| - 1], x) {
      InsertKeeps(sorted[..|sorted| - 1], x, le);
      assert sorted == sorted[..|sorted| - 1] + [sorted[|sorted| - 1]];
    }
  }

  lemma {:induction false} SortKeeps<T>(xs: seq<T>, le: Order<T>)
    ensures multiset(Sort(xs, le)) == multiset(xs) && |Sort(xs, le)| == |xs|
  {
    if xs != [] {
      SortKeeps(xs[..|xs| - 1], le);
      InsertKeeps(Sort(xs[..|xs| - 1], le), xs[|xs| - 1], le);
      assert xs == xs[..|xs| - 1] + [xs[|xs| - 1]];
    }
  }

  lemma InsertedFrom<T>(sorted: seq<T>, x: T, le: Order<T>)
    ensures forall i :: 0 <= i < |Insert(sorted, x, le)| ==> Insert(sorted, x, le)[i] == x || Insert(sorted, x, le)[i] in sorted
  {
    InsertKeeps(sorted, x, le);
    var r := Insert(sorted, x, le);
    forall i | 0 <= i < |r|
      ensures r[i] == x || r[i] in sorted
    {
      assert r[i] in multiset(r);
    }
  }

  lemma {:induction false} InsertAscends<T(!new)>(sorted: seq<T>, x: T, le: Order<T>, rank: T -> int)
    requires Ranks(le, rank) && Ascending(sorted, rank)
    ensures Ascending(Insert(sorted, x, le), rank)
  {
    if sorted != [] && !le(sorted[|sorted| - 1], x) {
      var init, last := sorted[..|sorted| - 1], sorted[|sorted| - 1];
      InsertAscends(init, x, le, rank);
      InsertedFrom(init, x, le);
      forall i | 0 <= i < |init|
        ensures rank(init[i]) <= rank(last)
      {
        assert init[i] == sorted[i];
      }
    }
  }

  lemma {:induction false} SortAscends<T(!new)>(xs: seq<T>, le: Order<T>, rank: T -> int)
    requires Ranks(le, rank)
    ensures Ascending(Sort(xs, le), rank)
  {
    if xs != [] {
      SortAscends(xs[..|xs| - 1], le, rank);
      InsertAscends(Sort(xs[..|xs| - 1], le), xs[|xs| - 1], le, rank);
    }
  }

  /** What is in order already stays as it is. */
  lemma {:induction false} SortIsIdentity<T>(xs: seq<T>, le: Order<T>)
    requires forall i :: 1 <= i < |xs| ==> le(xs[i - 1], xs[i])
    ensures Sort(xs, le) == xs
  {
    if xs != [] {
      SortIsIdentity(xs[..|xs| - 1], le);
      assert xs == xs[..|xs| - 1] + [xs[|xs| - 1]];
    }
  }
}
