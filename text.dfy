/**
 * The string operations the dashboard relies on: `toLowerCase`, `includes`,
 * `indexOf`, `startsWith`, `replace` with a string pattern, `Number.toString`
 * of an integer, and the code-unit order used to compare and sort strings.
 * Characters stand for UTF-16 code units.
 */
module Text {
  import opened Wrappers
  import opened Seqs
  import opened Sorting

  /** `toLowerCase` on one character; only the ASCII letters A-Z change. */
  function LowerChar(c: char): char
  {
    if 'A' <= c <= 'Z' then (c as int + 32) as char else c
  }

  function Lower(s: string): (r: string)
    ensures |r| == |s|
    ensures forall i :: 0 <= i < |s| ==> r[i] == LowerChar(s[i])
  {
    seq(|s|, i requires 0 <= i < |s| => LowerChar(s[i]))
  }

  /** `pat` occurs in `s` starting at position `i`. */
  predicate OccursAt(s: string, pat: string, i: int)
  {
    0 <= i && i + |pat| <= |s| && s[i..i + |pat|] == pat
  }

  /** `s.includes(pat)`. */
  predicate Contains(s: string, pat: string)
  {
    exists i :: 0 <= i <= |s| - |pat| && OccursAt(s, pat, i)
  }

  /** `s.startsWith(pat)`. */
  predicate StartsWith(s: string, pat: string)
  {
    |pat| <= |s| && s[..|pat|] == pat
  }

  /** `s.indexOf(pat, from)`, with `None` for -1. */
  function IndexOf(s: string, pat: string, from: nat): (r: Option<nat>)
    ensures r.Some? ==> from <= r.value && OccursAt(s, pat, r.value)
    ensures r.Some? ==> forall j :: from <= j < r.value ==> !OccursAt(s, pat, j)
    ensures r.None? ==> forall j :: from <= j ==> !OccursAt(s, pat, j)
    decreases |s| - from
  {
    if from + |pat| > |s| then None
    else if s[from..from + |pat|] == pat then Some(from)
    else IndexOf(s, pat, from + 1)
  }

  lemma IndexOfFindsContained(s: string, pat: string)
    ensures Contains(s, pat) <==> IndexOf(s, pat, 0).Some?
  {
    var r := IndexOf(s, pat, 0);
    if r.Some? {
      assert OccursAt(s, pat, r.value);
    }
  }

  /** `s.replace(pat, rep)` with a string pattern: only the first occurrence is replaced. */
  function ReplaceFirst(s: string, pat: string, rep: string): (r: string)
    ensures !Contains(s, pat) ==> r == s
    ensures Contains(s, pat) ==> exists i ::
      && OccursAt(s, pat, i)
      && (forall j :: 0 <= j < i ==> !OccursAt(s, pat, j))
      && r == s[..i] + rep + s[i + |pat|..]
  {
    IndexOfFindsContained(s, pat);
    match IndexOf(s, pat, 0)
    case None => s
    case Some(i) => s[..i] + rep + s[i + |pat|..]
  }

  // -------------------------------------------------------- number to text

  function DigitChar(d: nat): char
    requires d < 10
  {
    ('0' as int + d) as char
  }

  /** The decimal text of a natural number, as `Number.prototype.toString` writes it. */
  function NatToString(n: nat): (r: string)
    ensures |r| >= 1
    ensures forall i :: 0 <= i < |r| ==> '0' <= r[i] <= '9'
  {
    if n < 10 then [DigitChar(n)] else NatToString(n / 10) + [DigitChar(n % 10)]
  }

  function IntToString(n: int): string
  {
    if n < 0 then "-" + NatToString(-n) else NatToString(n)
  }

  // --------------------------------------------------------- string order

  /**
   * Three-way comparison by code units, as `<` on strings and the default
   * `Array.prototype.sort` order compare them: negative, zero or positive.
   */
  function StrCompare(a: string, b: string): (r: int)
    ensures -1 <= r <= 1
  {
    if a == [] then (if b == [] then 0 else -1)
    else if b == [] then 1
    else if a[0] < b[0] then -1
    else if a[0] > b[0] then 1
    else StrCompare(a[1..], b[1..])
  }

  lemma {:induction false} StrCompareAntisymmetric(a: string, b: string)
    ensures StrCompare(b, a) == -StrCompare(a, b)
  {
    if a != [] && b != [] && a[0] == b[0] {
      StrCompareAntisymmetric(a[1..], b[1..]);
    }
  }

  lemma {:induction false} StrCompareZero(a: string, b: string)
    ensures StrCompare(a, b) == 0 <==> a == b
  {
    if a != [] && b != [] && a[0] == b[0] {
      StrCompareZero(a[1..], b[1..]);
      assert a == [a[0]] + a[1..] && b == [b[0]] + b[1..];
    }
  }

  lemma {:induction false} StrCompareTransitive(a: string, b: string, c: string)
    requires StrCompare(a, b) <= 0 && StrCompare(b, c) <= 0
    ensures StrCompare(a, c) <= 0
  {
    if a != [] && b != [] && c != [] && a[0] == b[0] && b[0] == c[0] {
      StrCompareTransitive(a[1..], b[1..], c[1..]);
    }
  }

  /** "`a` may come before `b`" in the default sort order. */
  predicate StrLe(a: string, b: string)
  {
    StrCompare(a, b) <= 0
  }

  lemma StrLeTotalPreorder()
    ensures TotalPreorder(StrLe)
  {
    forall a, b
      ensures StrLe(a, b) || StrLe(b, a)
    {
      StrCompareAntisymmetric(a, b);
    }
    forall a, b, c | StrLe(a, b) && StrLe(b, c)
      ensures StrLe(a, c)
    {
      StrCompareTransitive(a, b, c);
    }
  }

  /** `strings.sort()` without a comparator: code-unit order; distinct strings come out strictly increasing. */
  function SortStrings(xs: seq<string>): (r: seq<string>)
    ensures |r| == |xs| && multiset(r) == multiset(xs)
    ensures forall x :: x in r <==> x in xs
    ensures forall i, j :: 0 <= i < j < |r| ==> StrCompare(r[i], r[j]) <= 0
    ensures NoDuplicates(xs) ==> NoDuplicates(r) && forall i, j :: 0 <= i < j < |r| ==> StrCompare(r[i], r[j]) < 0
  {
    SortedStringsFacts(xs);
    SortBy(xs, StrLe)
  }

  lemma SortedStringsFacts(xs: seq<string>)
    ensures forall i, j :: 0 <= i < j < |SortBy(xs, StrLe)| ==> StrCompare(SortBy(xs, StrLe)[i], SortBy(xs, StrLe)[j]) <= 0
    ensures NoDuplicates(xs) ==> NoDuplicates(SortBy(xs, StrLe))
    ensures NoDuplicates(xs) ==> forall i, j :: 0 <= i < j < |SortBy(xs, StrLe)| ==> StrCompare(SortBy(xs, StrLe)[i], SortBy(xs, StrLe)[j]) < 0
    ensures forall x :: x in SortBy(xs, StrLe) <==> x in xs
  {
    var r := SortBy(xs, StrLe);
    StrLeTotalPreorder();
    SortBySorted(xs, StrLe);
    SortByMembership(xs, StrLe);
    if NoDuplicates(xs) {
      forall i, j | 0 <= i < j < |r|
        ensures StrCompare(r[i], r[j]) < 0
      {
        StrCompareZero(r[i], r[j]);
      }
    }
  }
}
