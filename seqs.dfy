/**
 * Sequence operations the dashboard builds on: order-preserving filtering,
 * first-appearance de-duplication, counting by key, and JavaScript's
 * `Array.prototype.slice` index arithmetic.
 */
module Seqs {

  // ---------------------------------------------------------------- filter

  /** `xs.filter(p)`. */
  function Filter<T>(xs: seq<T>, p: T -> bool): (r: seq<T>)
    ensures |r| <= |xs|
  {
    if xs == [] then [] else
    var rest := Filter(xs[1..], p);
    if p(xs[0]) then [xs[0]] + rest else rest
  }

  /** `sub` is `xs` with some elements dropped and the rest kept in order. */
  predicate IsSubsequence<T(==)>(sub: seq<T>, xs: seq<T>)
    decreases |xs|
  {
    if sub == [] then true
    else if xs == [] then false
    else if sub[0] == xs[0] then IsSubsequence(sub[1..], xs[1..])
    else IsSubsequence(sub, xs[1..])
  }

  lemma {:induction false} FilterMembership<T>(xs: seq<T>, p: T -> bool, x: T)
    ensures x in Filter(xs, p) <==> x in xs && p(x)
  {
    if xs != [] {
      FilterMembership(xs[1..], p, x);
      assert xs == [xs[0]] + xs[1..];
    }
  }

  lemma {:induction false} FilterAll<T>(xs: seq<T>, p: T -> bool)
    ensures forall i :: 0 <= i < |Filter(xs, p)| ==> p(Filter(xs, p)[i])
  {
    if xs != [] {
      FilterAll(xs[1..], p);
    }
  }

  lemma {:induction false} FilterIsSubsequence<T>(xs: seq<T>, p: T -> bool)
    ensures IsSubsequence(Filter(xs, p), xs)
  {
    if xs != [] {
      FilterIsSubsequence(xs[1..], p);
      var rest := Filter(xs[1..], p);
      if p(xs[0]) {
        assert ([xs[0]] + rest)[1..] == rest;
      } else {
        SubsequenceSkip(rest, xs);
      }
    }
  }

  /** Dropping the head of `xs` keeps a subsequence of its tail a subsequence of `xs`. */
  lemma {:induction false} SubsequenceSkip<T>(sub: seq<T>, xs: seq<T>)
    requires xs != [] && IsSubsequence(sub, xs[1..])
    ensures IsSubsequence(sub, xs)
    decreases |xs|, 0
  {
    if sub != [] && sub[0] == xs[0] {
      // sub[1..] is a subsequence of xs[1..] because sub is
      SubsequenceTail(sub, xs[1..]);
    }
  }

  lemma {:induction false} SubsequenceTail<T>(sub: seq<T>, xs: seq<T>)
    requires sub != [] && IsSubsequence(sub, xs)
    ensures IsSubsequence(sub[1..], xs)
    decreases |xs|, 1
  {
    if xs != [] {
      if sub[0] == xs[0] {
        if sub[1..] != [] {
          SubsequenceSkip(sub[1..], xs);
        }
      } else {
        SubsequenceTail(sub, xs[1..]);
        if sub[1..] != [] {
          SubsequenceSkip(sub[1..], xs);
        }
      }
    }
  }

  lemma {:induction false} FilterTrue<T>(xs: seq<T>, p: T -> bool)
    requires forall x :: x in xs ==> p(x)
    ensures Filter(xs, p) == xs
  {
    if xs != [] {
      FilterTrue(xs[1..], p);
      assert xs == [xs[0]] + xs[1..];
    }
  }

  lemma {:induction false} FilterFalse<T>(xs: seq<T>, p: T -> bool)
    requires forall x :: x in xs ==> !p(x)
    ensures Filter(xs, p) == []
  {
    if xs != [] {
      FilterFalse(xs[1..], p);
    }
  }

  /** Filtering distributes over concatenation. */
  lemma {:induction false} FilterAppend<T>(xs: seq<T>, ys: seq<T>, p: T -> bool)
    ensures Filter(xs + ys, p) == Filter(xs, p) + Filter(ys, p)
  {
    if xs != [] {
      FilterAppend(xs[1..], ys, p);
      assert (xs + ys)[0] == xs[0];
      assert (xs + ys)[1..] == xs[1..] + ys;
      if p(xs[0]) {
        assert Filter(xs + ys, p) == [xs[0]] + (Filter(xs[1..], p) + Filter(ys, p));
      }
    } else {
      assert xs + ys == ys;
    }
  }

  /** A filter of a sequence without repeats has no repeats. */
  lemma {:induction false} FilterNoDuplicates<T>(xs: seq<T>, p: T -> bool)
    requires NoDuplicates(xs)
    ensures NoDuplicates(Filter(xs, p))
  {
    if xs != [] {
      FilterNoDuplicates(xs[1..], p);
      var rest := Filter(xs[1..], p);
      if p(xs[0]) {
        FilterMembership(xs[1..], p, xs[0]);
        assert xs[0] !in xs[1..];
        ConsNoDuplicates(xs[0], rest);
      }
    }
  }

  /** No repeats means every value occurs at most once in the multiset. */
  lemma {:induction false} NoDuplicatesMultiset<T>(xs: seq<T>)
    ensures NoDuplicates(xs) <==> forall x :: multiset(xs)[x] <= 1
  {
    if xs != [] {
      var t := xs[1..];
      assert xs == [xs[0]] + t;
      NoDuplicatesMultiset(t);
      if NoDuplicates(xs) {
        assert xs[0] !in t;
        assert NoDuplicates(t) by {
          forall i, j | 0 <= i < j < |t|
            ensures t[i] != t[j]
          {
            assert t[i] == xs[i + 1] && t[j] == xs[j + 1];
          }
        }
      }
      if forall x :: multiset(xs)[x] <= 1 {
        assert multiset(t)[xs[0]] == 0 by {
          assert multiset(xs)[xs[0]] == multiset(t)[xs[0]] + 1;
        }
        forall x
          ensures multiset(t)[x] <= 1
        {
          assert multiset(t)[x] <= multiset(xs)[x];
        }
        ConsNoDuplicates(xs[0], t);
      }
    }
  }

  lemma ConsNoDuplicates<T>(x: T, xs: seq<T>)
    requires x !in xs && NoDuplicates(xs)
    ensures NoDuplicates([x] + xs)
  {
    var ys := [x] + xs;
    forall i, j | 0 <= i < j < |ys|
      ensures ys[i] != ys[j]
    {
      if i == 0 {
        assert ys[j] == xs[j - 1];
      } else {
        assert ys[i] == xs[i - 1] && ys[j] == xs[j - 1];
      }
    }
  }

  /** Two successive filters equal one filter by the conjunction. */
  lemma {:induction false} FilterFilter<T>(xs: seq<T>, p: T -> bool, q: T -> bool, pq: T -> bool)
    requires forall x :: pq(x) == (p(x) && q(x))
    ensures Filter(Filter(xs, p), q) == Filter(xs, pq)
  {
    if xs != [] {
      FilterFilter(xs[1..], p, q, pq);
    }
  }

  /** A filter and its complement split the input by size. */
  lemma {:induction false} FilterSplit<T>(xs: seq<T>, p: T -> bool, notP: T -> bool)
    requires forall x :: notP(x) == !p(x)
    ensures |Filter(xs, p)| + |Filter(xs, notP)| == |xs|
  {
    if xs != [] {
      FilterSplit(xs[1..], p, notP);
    }
  }

  /** A prefix one longer is the shorter prefix and the next element. */
  lemma PrefixSnoc<T>(xs: seq<T>, i: nat)
    requires i < |xs|
    ensures xs[..i + 1] == xs[..i] + [xs[i]]
  {
  }

  // ------------------------------------------------------- distinct values

  predicate NoDuplicates<T(==)>(xs: seq<T>) {
    forall i, j :: 0 <= i < j < |xs| ==> xs[i] != xs[j]
  }

  /**
   * `Array.from(new Set(xs))`: the distinct values of `xs` in order of first
   * appearance (a `Set` iterates in insertion order). Defined element by
   * element from the left, as the set is built.
   */
  function Distinct<T(==)>(xs: seq<T>): (r: seq<T>)
    ensures NoDuplicates(r)
    ensures forall i :: 0 <= i < |r| ==> r[i] in xs
    ensures forall i :: 0 <= i < |xs| ==> xs[i] in r
  {
    if xs == [] then [] else
    var init := xs[..|xs| - 1];
    var d := Distinct(init);
    var x := xs[|xs| - 1];
    assert forall i :: 0 <= i < |xs| - 1 ==> xs[i] == init[i];
    if x in d then d else d + [x]
  }

  lemma DistinctMembership<T>(xs: seq<T>, x: T)
    ensures x in Distinct(xs) <==> x in xs
  {
    var d := Distinct(xs);
    if x in d {
      var i :| 0 <= i < |d| && d[i] == x;
    }
    if x in xs {
      var i :| 0 <= i < |xs| && xs[i] == x;
    }
  }

  /** `xs.map(f)`. */
  function Map<T, U>(xs: seq<T>, f: T -> U): (r: seq<U>)
    ensures |r| == |xs|
    ensures forall i :: 0 <= i < |xs| ==> r[i] == f(xs[i])
  {
    seq(|xs|, i requires 0 <= i < |xs| => f(xs[i]))
  }

  // ------------------------------------------------------- counting by key

  /** The number of elements of `xs` whose key is `k`; counted from the left, as a `reduce` does. */
  function CountKey<T, K(==)>(xs: seq<T>, key: T -> K, k: K): nat
  {
    if xs == [] then 0 else
    CountKey(xs[..|xs| - 1], key, k) + (if key(xs[|xs| - 1]) == k then 1 else 0)
  }

  /** Sum of `CountKey(xs, key, k)` over the keys `ks`. */
  function SumCounts<T, K(==)>(xs: seq<T>, key: T -> K, ks: seq<K>): nat
  {
    if ks == [] then 0 else SumCounts(xs, key, ks[..|ks| - 1]) + CountKey(xs, key, ks[|ks| - 1])
  }

  /** The number of times `k` occurs in `ks`. */
  function Occurrences<K(==)>(ks: seq<K>, k: K): nat
  {
    if ks == [] then 0 else Occurrences(ks[..|ks| - 1], k) + (if ks[|ks| - 1] == k then 1 else 0)
  }

  lemma {:induction false} OccurrencesOfDistinct<K>(ks: seq<K>, k: K)
    requires NoDuplicates(ks)
    ensures Occurrences(ks, k) == if k in ks then 1 else 0
  {
    if ks != [] {
      var init := ks[..|ks| - 1];
      assert ks == init + [ks[|ks| - 1]];
      OccurrencesOfDistinct(init, k);
    }
  }

  lemma {:induction false} SumCountsSnoc<T, K>(xs: seq<T>, x: T, key: T -> K, ks: seq<K>)
    ensures SumCounts(xs + [x], key, ks) == SumCounts(xs, key, ks) + Occurrences(ks, key(x))
  {
    assert (xs + [x])[..|xs + [x]| - 1] == xs;
    if ks != [] {
      SumCountsSnoc(xs, x, key, ks[..|ks| - 1]);
    }
  }

  /**
   * Counting by key over a duplicate-free list of keys that covers every
   * element's key counts every element exactly once.
   */
  lemma {:induction false} CoverSum<T, K>(xs: seq<T>, key: T -> K, ks: seq<K>)
    requires NoDuplicates(ks)
    requires forall x :: x in xs ==> key(x) in ks
    ensures SumCounts(xs, key, ks) == |xs|
  {
    if xs == [] {
      ZeroCounts(xs, key, ks);
    } else {
      var init := xs[..|xs| - 1];
      var x := xs[|xs| - 1];
      assert xs == init + [x];
      CoverSum(init, key, ks);
      SumCountsSnoc(init, x, key, ks);
      OccurrencesOfDistinct(ks, key(x));
    }
  }

  lemma {:induction false} ZeroCounts<T, K>(xs: seq<T>, key: T -> K, ks: seq<K>)
    requires xs == []
    ensures SumCounts(xs, key, ks) == 0
  {
    if ks != [] {
      ZeroCounts(xs, key, ks[..|ks| - 1]);
    }
  }

  lemma {:induction false} CountKeyPositive<T, K>(xs: seq<T>, key: T -> K, k: K)
    ensures CountKey(xs, key, k) > 0 <==> exists x :: x in xs && key(x) == k
  {
    if xs != [] {
      var init := xs[..|xs| - 1];
      assert xs == init + [xs[|xs| - 1]];
      CountKeyPositive(init, key, k);
    }
  }

  // ------------------------------------------------------- JavaScript slice

  /** How `Array.prototype.slice` turns a possibly negative index into a position in `[0, n]`. */
  function SliceIndex(i: int, n: nat): (r: nat)
    ensures r <= n
    ensures 0 <= i <= n ==> r == i
    ensures i < 0 && n + i >= 0 ==> r == n + i && r < n
    ensures i > n ==> r == n
    ensures n + i < 0 ==> r == 0
  {
    if i < 0 then (if n + i > 0 then n + i else 0) else if i < n then i else n
  }

  /** `xs.slice(start, end)`. */
  function JsSlice<T>(xs: seq<T>, start: int, end: int): (r: seq<T>)
  {
    var s := SliceIndex(start, |xs|);
    var e := SliceIndex(end, |xs|);
    if s < e then xs[s..e] else []
  }

  /** `xs.slice(start)`. */
  function JsSliceFrom<T>(xs: seq<T>, start: int): (r: seq<T>)
  {
    xs[SliceIndex(start, |xs|)..]
  }
}
