/**
  Python's comparison, sorting and substring test on `str`, as the monitoring code uses them:
  `sorted(labels.keys())` when a gauge is created, `sorted(...) != sorted(...)` when a labelled
  gauge checks the label names it is given, and `pattern in name` when a reference file is chosen.
 */
module Strings {

  /** `a < b` on Python strings: lexicographic by code point, a proper prefix first. */
  predicate Less(a: string, b: string)
    decreases |a|
  {
    |b| > 0 && (|a| == 0 || a[0] < b[0] || (a[0] == b[0] && Less(a[1..], b[1..])))
  }

  /** `a <= b` on Python strings. */
  predicate Le(a: string, b: string)
  {
    !Less(b, a)
  }

  lemma {:induction false} LessIrreflexive(a: string)
    ensures !Less(a, a)
  {
    if |a| > 0 {
      LessIrreflexive(a[1..]);
    }
  }

  /** Exactly one of `a < b`, `a == b`, `b < a` holds. */
  lemma {:induction false} LessTrichotomy(a: string, b: string)
    ensures a == b || Less(a, b) || Less(b, a)
    ensures !(Less(a, b) && Less(b, a))
    ensures Less(a, b) ==> a != b
    decreases |a|
  {
    LessIrreflexive(a);
    if |a| > 0 && |b| > 0 && a[0] == b[0] {
      LessTrichotomy(a[1..], b[1..]);
      if a[1..] == b[1..] {
        assert a == a[..1] + a[1..] && b == b[..1] + b[1..];
      }
    }
  }

  lemma {:induction false} LessTransitive(a: string, b: string, c: string)
    requires Less(a, b) && Less(b, c)
    ensures Less(a, c)
    decreases |a|
  {
    if |a| > 0 && a[0] == b[0] && b[0] == c[0] {
      LessTransitive(a[1..], b[1..], c[1..]);
    }
  }

  /** `<=` is a total order: reflexive, total, antisymmetric and transitive. */
  lemma LeTotalOrder(a: string, b: string, c: string)
    ensures Le(a, a)
    ensures Le(a, b) || Le(b, a)
    ensures Le(a, b) && Le(b, a) ==> a == b
    ensures Le(a, b) && Le(b, c) ==> Le(a, c)
  {
    LessIrreflexive(a);
    LessTrichotomy(a, b);
    LessTrichotomy(b, c);
    LessTrichotomy(a, c);
    if Le(a, b) && Le(b, c) && Less(c, a) {
      if Less(a, b) {
        LessTransitive(c, a, b);
      }
    }
  }

  /** Non-decreasing, the order `sorted` produces. */
  predicate Sorted(s: seq<string>)
  {
    |s| < 2 || (Le(s[0], s[1]) && Sorted(s[1..]))
  }

  /** One step of an insertion sort: `x` goes before the first element it is not above. */
  function Insert(x: string, s: seq<string>): (r: seq<string>)
    ensures multiset(r) == multiset(s) + multiset{x}
    ensures |r| == |s| + 1
    ensures r[0] == x || (|s| > 0 && r[0] == s[0])
  {
    if s == [] || Le(x, s[0]) then [x] + s
    else
      assert s == [s[0]] + s[1..];
      [s[0]] + Insert(x, s[1..])
  }

  lemma {:induction false} InsertSorted(x: string, s: seq<string>)
    requires Sorted(s)
    ensures Sorted(Insert(x, s))
  {
    if s == [] || Le(x, s[0]) {
    } else {
      LeTotalOrder(x, s[0], s[0]);
      InsertSorted(x, s[1..]);
      var r := Insert(x, s);
      assert r[1..] == Insert(x, s[1..]);
    }
  }

  /** Python's `sorted` on a list of strings: the same elements, in non-decreasing order. */
  function SortStrings(s: seq<string>): (r: seq<string>)
    ensures Sorted(r)
    ensures multiset(r) == multiset(s)
  {
    if s == [] then []
    else
      assert s == [s[0]] + s[1..];
      InsertSorted(s[0], SortStrings(s[1..]));
      Insert(s[0], SortStrings(s[1..]))
  }

  /** The first element of a sorted sequence is its least. */
  lemma {:induction false} HeadIsLeast(s: seq<string>, x: string)
    requires Sorted(s) && x in s
    ensures Le(s[0], x)
  {
    LeTotalOrder(s[0], s[0], x);
    if x != s[0] {
      assert x in s[1..];
      HeadIsLeast(s[1..], x);
      LeTotalOrder(s[0], s[1], x);
    }
  }

  /** A sorted arrangement of a multiset of strings is unique. */
  lemma {:induction false} SortedUnique(a: seq<string>, b: seq<string>)
    requires Sorted(a) && Sorted(b)
    requires multiset(a) == multiset(b)
    ensures a == b
  {
    if a != [] {
      assert a[0] in multiset(b);
      assert b[0] in multiset(a);
      HeadIsLeast(a, b[0]);
      HeadIsLeast(b, a[0]);
      LeTotalOrder(a[0], b[0], b[0]);
      assert a[0] == b[0];
      assert a == [a[0]] + a[1..] && b == [b[0]] + b[1..];
      assert multiset(a) == multiset{a[0]} + multiset(a[1..]);
      assert multiset(b) == multiset{a[0]} + multiset(b[1..]);
      assert multiset(a[1..]) == multiset(a) - multiset{a[0]} == multiset(b[1..]);
      SortedUnique(a[1..], b[1..]);
    } else {
      assert |multiset(b)| == 0;
    }
  }

  /** `sorted(a) == sorted(b)` exactly when `a` and `b` hold the same strings the same number of times. */
  lemma SortEqualIff(a: seq<string>, b: seq<string>)
    ensures SortStrings(a) == SortStrings(b) <==> multiset(a) == multiset(b)
  {
    if multiset(a) == multiset(b) {
      SortedUnique(SortStrings(a), SortStrings(b));
    }
  }

  /** Sorting an already sorted list changes nothing. */
  lemma SortSorted(s: seq<string>)
    requires Sorted(s)
    ensures SortStrings(s) == s
  {
    SortedUnique(SortStrings(s), s);
  }

  predicate StartsWith(s: string, prefix: string)
  {
    |prefix| <= |s| && s[..|prefix|] == prefix
  }

  /** Python's `pattern in s` on strings. */
  predicate Contains(s: string, pattern: string)
  {
    StartsWith(s, pattern) || (|s| > 0 && Contains(s[1..], pattern))
  }

  /** A string contains anything it is built around. */
  lemma {:induction false} ContainsMiddle(before: string, pattern: string, after: string)
    ensures Contains(before + pattern + after, pattern)
  {
    var s := before + pattern + after;
    if before == [] {
      assert s[..|pattern|] == pattern;
    } else {
      assert s[1..] == before[1..] + pattern + after;
      ContainsMiddle(before[1..], pattern, after);
    }
  }

  /** Strings that agree after a common prefix are equal. */
  lemma PrefixCancel(prefix: string, a: string, b: string)
    requires prefix + a == prefix + b
    ensures a == b
  {
    assert a == (prefix + a)[|prefix|..];
    assert b == (prefix + b)[|prefix|..];
  }
}
