/**
 * `Array.prototype.sort` with a comparator, as a stable sort by the total
 * preorder "a may come before b" (the comparator returns a value <= 0).
 * Modelled as an insertion sort: each element goes in front of the first
 * element it may precede, so equal elements keep their input order, as the
 * stable sort of ES2019 guarantees.
 */
module Sorting {
  import opened Seqs

  ghost predicate TotalPreorder<T(!new)>(le: (T, T) -> bool) {
    && (forall a, b :: le(a, b) || le(b, a))
    && (forall a, b, c :: le(a, b) && le(b, c) ==> le(a, c))
  }

  predicate SortedBy<T>(xs: seq<T>, le: (T, T) -> bool) {
    forall i, j :: 0 <= i < j < |xs| ==> le(xs[i], xs[j])
  }

  function Insert<T>(x: T, xs: seq<T>, le: (T, T) -> bool): (r: seq<T>)
    ensures |r| == |xs| + 1
    ensures multiset(r) == multiset(xs) + multiset{x}
  {
    if xs == [] then [x]
    else if le(x, xs[0]) then [x] + xs
    else
      assert xs == [xs[0]] + xs[1..];
      [xs[0]] + Insert(x, xs[1..], le)
  }

  /** The sorted copy of `xs`: a permutation of it. */
  function SortBy<T>(xs: seq<T>, le: (T, T) -> bool): (r: seq<T>)
    ensures |r| == |xs|
    ensures multiset(r) == multiset(xs)
  {
    if xs == [] then []
    else
      assert xs == [xs[0]] + xs[1..];
      Insert(xs[0], SortBy(xs[1..], le), le)
  }

  lemma {:induction false} InsertSorted<T(!new)>(x: T, xs: seq<T>, le: (T, T) -> bool)
    requires TotalPreorder(le)
    requires SortedBy(xs, le)
    ensures SortedBy(Insert(x, xs, le), le)
  {
    if xs != [] && !le(x, xs[0]) {
      var tail := Insert(x, xs[1..], le);
      InsertSorted(x, xs[1..], le);
      assert le(xs[0], x);
      forall k | 0 <= k < |tail|
        ensures le(xs[0], tail[k])
      {
        assert tail[k] in multiset(tail);
        assert tail[k] == x || tail[k] in multiset(xs[1..]);
        if tail[k] != x {
          var m :| 0 <= m < |xs[1..]| && xs[1..][m] == tail[k];
          assert xs[1 + m] == tail[k];
        }
      }
      var r := [xs[0]] + tail;
      forall i, j | 0 <= i < j < |r|
        ensures le(r[i], r[j])
      {
        if i > 0 {
          assert r[i] == tail[i - 1] && r[j] == tail[j - 1];
        }
      }
    }
  }

  /** The result of `SortBy` is ordered by `le`. */
  lemma {:induction false} SortBySorted<T(!new)>(xs: seq<T>, le: (T, T) -> bool)
    requires TotalPreorder(le)
    ensures SortedBy(SortBy(xs, le), le)
  {
    if xs != [] {
      SortBySorted(xs[1..], le);
      InsertSorted(xs[0], SortBy(xs[1..], le), le);
    }
  }

  /** `a` and `b` are tied: each may come before the other. */
  predicate Tied<T>(le: (T, T) -> bool, a: T, b: T)
  {
    le(a, b) && le(b, a)
  }

  /** Inserting `x` puts it in front of every element it is tied with. */
  lemma {:induction false} InsertStable<T(!new)>(x: T, xs: seq<T>, le: (T, T) -> bool, v: T)
    requires TotalPreorder(le)
    ensures Filter(Insert(x, xs, le), e => Tied(le, e, v)) ==
      (if Tied(le, x, v) then [x] + Filter(xs, e => Tied(le, e, v)) else Filter(xs, e => Tied(le, e, v)))
  {
    var p := e => Tied(le, e, v);
    if xs == [] {
    } else if le(x, xs[0]) {
      var r := [x] + xs;
      assert r[1..] == xs;
    } else {
      InsertStable(x, xs[1..], le, v);
      var r := [xs[0]] + Insert(x, xs[1..], le);
      assert r[1..] == Insert(x, xs[1..], le);
      if Tied(le, x, v) {
        assert !p(xs[0]);
      }
    }
  }

  /**
   * The sort is stable: the elements tied with any `v` come out in the order
   * they went in.
   */
  lemma {:induction false} SortByStable<T(!new)>(xs: seq<T>, le: (T, T) -> bool, v: T)
    requires TotalPreorder(le)
    ensures Filter(SortBy(xs, le), e => Tied(le, e, v)) == Filter(xs, e => Tied(le, e, v))
  {
    if xs != [] {
      SortByStable(xs[1..], le, v);
      InsertStable(xs[0], SortBy(xs[1..], le), le, v);
    }
  }

  /** Sorting a sequence that is already in order changes nothing. */
  lemma {:induction false} SortByIdentity<T>(xs: seq<T>, le: (T, T) -> bool)
    requires SortedBy(xs, le)
    ensures SortBy(xs, le) == xs
  {
    if xs != [] {
      SortByIdentity(xs[1..], le);
      assert xs == [xs[0]] + xs[1..];
      if xs[1..] != [] {
        assert le(xs[0], xs[1..][0]);
      }
    }
  }

  /** Sorting keeps the same elements, and keeps a sequence free of repeats. */
  lemma SortByMembership<T>(xs: seq<T>, le: (T, T) -> bool)
    ensures forall x :: x in SortBy(xs, le) <==> x in xs
    ensures NoDuplicates(xs) ==> NoDuplicates(SortBy(xs, le))
  {
    var r := SortBy(xs, le);
    forall x
      ensures x in r <==> x in xs
    {
      assert x in r <==> multiset(r)[x] > 0;
      assert x in xs <==> multiset(xs)[x] > 0;
    }
    NoDuplicatesMultiset(xs);
    NoDuplicatesMultiset(r);
  }

  /** Cutting a sorted sequence keeps a prefix every dropped element may follow. */
  lemma PrefixPrecedesRest<T>(sorted: seq<T>, n: nat, le: (T, T) -> bool)
    requires SortedBy(sorted, le)
    requires n <= |sorted|
    ensures SortedBy(sorted[..n], le)
    ensures multiset(sorted[..n]) <= multiset(sorted)
    ensures forall x, y :: x in multiset(sorted) - multiset(sorted[..n]) && y in sorted[..n] ==> le(y, x)
  {
    var r := sorted[..n];
    var rest := sorted[n..];
    assert sorted == r + rest;
    assert multiset(sorted) == multiset(r) + multiset(rest);
    forall x, y | x in multiset(sorted) - multiset(r) && y in r
      ensures le(y, x)
    {
      assert x in rest;
      var i :| 0 <= i < |rest| && rest[i] == x;
      var j :| 0 <= j < |r| && r[j] == y;
      assert sorted[j] == y && sorted[n + i] == x;
    }
  }

  /** `(a, b) => a - b` on numbers: ascending numeric order. */
  predicate IntLe(a: int, b: int)
  {
    a <= b
  }

  predicate RealLe(a: real, b: real)
  {
    a <= b
  }

  lemma NumericOrdersTotal()
    ensures TotalPreorder(IntLe) && TotalPreorder(RealLe)
  {
  }
}
