/** Python's ordering of strings and the sorts the generator applies.

Python compares strings by code point, lexicographically. `sorted(xs, key=f)`
and `list.sort(key=f)` are stable sorts; `sorted(set(xs))` is the increasing
list of the distinct elements.
 */
module Ordering {

  /** Python's `a < b` on strings. */
  predicate Less(a: string, b: string)
    decreases |a|
  {
    if |b| == 0 then false
    else if |a| == 0 then true
    else if a[0] != b[0] then a[0] < b[0]
    else Less(a[1..], b[1..])
  }

  lemma {:induction false} LessIrreflexive(a: string)
    ensures !Less(a, a)
    decreases |a|
  {
    if |a| > 0 {
      LessIrreflexive(a[1..]);
    }
  }

  lemma {:induction false} LessTransitive(a: string, b: string, c: string)
    requires Less(a, b) && Less(b, c)
    ensures Less(a, c)
    decreases |a|
  {
    if |a| > 0 && a[0] == b[0] && b[0] == c[0] {
      LessTransitive(a[1..], b[1..], c[1..]);
    }
  }

  lemma {:induction false} LessTotal(a: string, b: string)
    ensures a == b || Less(a, b) || Less(b, a)
    decreases |a|
  {
    if |a| > 0 && |b| > 0 && a[0] == b[0] {
      LessTotal(a[1..], b[1..]);
      if a[1..] == b[1..] {
        assert a == [a[0]] + a[1..] && b == [b[0]] + b[1..];
      }
    }
  }

  lemma LessAsymmetric(a: string, b: string)
    requires Less(a, b)
    ensures !Less(b, a)
  {
    if Less(b, a) {
      LessTransitive(a, b, a);
      LessIrreflexive(a);
    }
  }

  /** Whatever is not below `b` is not below anything below `b`. */
  lemma NotBelowLarger(a: string, b: string, c: string)
    requires Less(a, b) && !Less(c, b)
    ensures !Less(c, a)
  {
    if Less(c, a) {
      LessTransitive(c, a, b);
    }
  }

  /** Non-decreasing by `key`: no later element's key is below an earlier one's. */
  ghost predicate SortedBy<T>(xs: seq<T>, key: T -> string) {
    forall i, j :: 0 <= i < j < |xs| ==> !Less(key(xs[j]), key(xs[i]))
  }

  /** Increasing, hence without duplicates. */
  ghost predicate StrictlySorted(xs: seq<string>) {
    forall i, j :: 0 <= i < j < |xs| ==> Less(xs[i], xs[j])
  }

  lemma StrictlySortedDistinct(xs: seq<string>)
    requires StrictlySorted(xs)
    ensures forall i, j :: 0 <= i < j < |xs| ==> xs[i] != xs[j]
  {
    forall i, j | 0 <= i < j < |xs|
      ensures xs[i] != xs[j]
    {
      if xs[i] == xs[j] {
        LessIrreflexive(xs[i]);
      }
    }
  }

  /** No element's key is below `k`. */
  ghost predicate AtLeast<T>(xs: seq<T>, key: T -> string, k: string) {
    forall j :: 0 <= j < |xs| ==> !Less(key(xs[j]), k)
  }

  lemma SortedByTail<T>(ys: seq<T>, key: T -> string)
    requires |ys| > 0 && SortedBy(ys, key)
    ensures SortedBy(ys[1..], key)
  {
    var tail := ys[1..];
    forall i, j | 0 <= i < j < |tail|
      ensures !Less(key(tail[j]), key(tail[i]))
    {
      assert tail[i] == ys[i + 1] && tail[j] == ys[j + 1];
    }
  }

  /** A sorted list stays sorted behind an element no larger than any of it. */
  lemma ConsSorted<T>(x: T, ys: seq<T>, key: T -> string)
    requires SortedBy(ys, key) && AtLeast(ys, key, key(x))
    ensures SortedBy([x] + ys, key)
  {
    var r := [x] + ys;
    forall i, j | 0 <= i < j < |r|
      ensures !Less(key(r[j]), key(r[i]))
    {
      assert r[j] == ys[j - 1];
      if i > 0 {
        assert r[i] == ys[i - 1];
      }
    }
  }

  /** Whatever is not below the smallest key of a sorted list is not below any of it. */
  lemma BelowFirst<T>(x: T, ys: seq<T>, key: T -> string)
    requires |ys| > 0 && SortedBy(ys, key) && Less(key(x), key(ys[0]))
    ensures AtLeast(ys, key, key(x))
  {
    forall j | 0 <= j < |ys|
      ensures !Less(key(ys[j]), key(x))
    {
      LessIrreflexive(key(ys[0]));
      NotBelowLarger(key(x), key(ys[0]), key(ys[j]));
    }
  }

  /** A bound on every element holds for any rearrangement. */
  lemma AtLeastPermutation<T>(xs: seq<T>, ys: seq<T>, key: T -> string, k: string)
    requires multiset(xs) == multiset(ys) && AtLeast(ys, key, k)
    ensures AtLeast(xs, key, k)
  {
    forall j | 0 <= j < |xs|
      ensures !Less(key(xs[j]), k)
    {
      assert xs[j] in multiset(ys);
      var i :| 0 <= i < |ys| && ys[i] == xs[j];
    }
  }

  /** Inserts `x` after every element whose key is not above `key(x)`. */
  function InsertBy<T>(x: T, ys: seq<T>, key: T -> string): (r: seq<T>)
    requires SortedBy(ys, key)
    ensures multiset(r) == multiset(ys) + multiset{x}
    ensures SortedBy(r, key)
  {
    if |ys| == 0 then [x]
    else if Less(key(x), key(ys[0])) then
      BelowFirst(x, ys, key);
      ConsSorted(x, ys, key);
      [x] + ys
    else
      var tail := ys[1..];
      SortedByTail(ys, key);
      var rest := InsertBy(x, tail, key);
      assert AtLeast(tail + [x], key, key(ys[0])) by {
        forall j | 0 <= j < |tail + [x]|
          ensures !Less(key((tail + [x])[j]), key(ys[0]))
        {
          if j < |tail| {
            assert (tail + [x])[j] == ys[j + 1];
          }
        }
      }
      AtLeastPermutation(rest, tail + [x], key, key(ys[0]));
      ConsSorted(ys[0], rest, key);
      assert ys == [ys[0]] + tail;
      [ys[0]] + rest
  }

  /** `sorted(xs, key=key)`: a stable insertion sort. */
  function SortBy<T>(xs: seq<T>, key: T -> string): (r: seq<T>)
    ensures multiset(r) == multiset(xs)
    ensures |r| == |xs|
    ensures SortedBy(r, key)
  {
    if |xs| == 0 then []
    else
      var init := xs[..|xs| - 1];
      assert xs == init + [xs[|xs| - 1]];
      var r := InsertBy(xs[|xs| - 1], SortBy(init, key), key);
      assert |r| == |multiset(r)|;
      r
  }

  lemma SortByKeepsElements<T>(xs: seq<T>, key: T -> string, x: T)
    ensures x in SortBy(xs, key) <==> x in xs
  {
    var r := SortBy(xs, key);
    assert x in r <==> x in multiset(r);
    assert x in xs <==> x in multiset(xs);
  }

  /** Inserts `x` into an increasing list unless it is already there. */
  function InsertDistinct(x: string, ys: seq<string>): (r: seq<string>)
    requires StrictlySorted(ys)
    ensures StrictlySorted(r)
    ensures forall s :: s in r <==> s == x || s in ys
  {
    if |ys| == 0 then [x]
    else if x == ys[0] then ys
    else if Less(x, ys[0]) then
      var r := [x] + ys;
      assert forall j :: 1 < j < |r| ==> Less(x, r[j]) by {
        forall j | 1 < j < |r|
          ensures Less(x, r[j])
        {
          LessTransitive(x, ys[0], r[j]);
        }
      }
      r
    else
      LessTotal(x, ys[0]);
      var rest := InsertDistinct(x, ys[1..]);
      assert ys == [ys[0]] + ys[1..];
      var r := [ys[0]] + rest;
      assert forall j :: 0 <= j < |rest| ==> Less(ys[0], rest[j]) by {
        forall j | 0 <= j < |rest|
          ensures Less(ys[0], rest[j])
        {
          assert rest[j] in rest;
        }
      }
      r
  }

  /** `sorted(set(xs))`: the distinct elements, in increasing order. */
  function SortedSet(xs: seq<string>): (r: seq<string>)
    ensures StrictlySorted(r)
    ensures forall s :: s in r <==> s in xs
  {
    if |xs| == 0 then []
    else
      var init := xs[..|xs| - 1];
      assert xs == init + [xs[|xs| - 1]];
      InsertDistinct(xs[|xs| - 1], SortedSet(init))
  }

  /** No two elements share a `val`. */
  ghost predicate DistinctBy<T>(xs: seq<T>, val: T -> string) {
    forall i, j :: 0 <= i < j < |xs| ==> val(xs[i]) != val(xs[j])
  }

  lemma DistinctByTail<T>(ys: seq<T>, val: T -> string)
    requires |ys| > 0 && DistinctBy(ys, val)
    ensures DistinctBy(ys[1..], val)
  {
    var tail := ys[1..];
    forall i, j | 0 <= i < j < |tail|
      ensures val(tail[i]) != val(tail[j])
    {
      assert tail[i] == ys[i + 1] && tail[j] == ys[j + 1];
    }
  }

  /** An element apart from all of a distinct list keeps it distinct in front. */
  lemma ConsDistinct<T>(x: T, ys: seq<T>, val: T -> string)
    requires DistinctBy(ys, val) && forall j :: 0 <= j < |ys| ==> val(ys[j]) != val(x)
    ensures DistinctBy([x] + ys, val)
  {
    var r := [x] + ys;
    forall i, j | 0 <= i < j < |r|
      ensures val(r[i]) != val(r[j])
    {
      assert r[j] == ys[j - 1];
      if i > 0 {
        assert r[i] == ys[i - 1];
      }
    }
  }

  lemma {:induction false} InsertByDistinct<T>(x: T, ys: seq<T>, key: T -> string, val: T -> string)
    requires SortedBy(ys, key) && DistinctBy(ys, val)
    requires forall y :: y in ys ==> val(y) != val(x)
    ensures DistinctBy(InsertBy(x, ys, key), val)
    decreases |ys|
  {
    if |ys| == 0 {
    } else if Less(key(x), key(ys[0])) {
      assert forall j :: 0 <= j < |ys| ==> ys[j] in ys;
      ConsDistinct(x, ys, val);
    } else {
      var tail := ys[1..];
      SortedByTail(ys, key);
      DistinctByTail(ys, val);
      assert forall y :: y in tail ==> y in ys;
      InsertByDistinct(x, tail, key, val);
      var rest := InsertBy(x, tail, key);
      forall j | 0 <= j < |rest|
        ensures val(rest[j]) != val(ys[0])
      {
        assert rest[j] in multiset(rest);
        if rest[j] != x {
          assert rest[j] in multiset(tail);
          var k :| 0 <= k < |tail| && tail[k] == rest[j];
          assert ys[k + 1] == rest[j];
        } else {
          assert ys[0] in ys;
        }
      }
      ConsDistinct(ys[0], rest, val);
      assert InsertBy(x, ys, key) == [ys[0]] + rest;
    }
  }

  /** Sorting keeps the elements apart by any other key. */
  lemma {:induction false} SortByDistinct<T>(xs: seq<T>, key: T -> string, val: T -> string)
    requires DistinctBy(xs, val)
    ensures DistinctBy(SortBy(xs, key), val)
    decreases |xs|
  {
    if |xs| > 0 {
      var init := xs[..|xs| - 1];
      var last := xs[|xs| - 1];
      assert xs == init + [last];
      SortByDistinct(init, key, val);
      forall y | y in SortBy(init, key)
        ensures val(y) != val(last)
      {
        SortByKeepsElements(init, key, y);
        var k :| 0 <= k < |init| && init[k] == y;
        assert xs[k] == y;
      }
      InsertByDistinct(last, SortBy(init, key), key, val);
    }
  }

  /** `xs` is `ys` with some elements left out and the rest kept in order. */
  ghost predicate IsSubsequence<T>(xs: seq<T>, ys: seq<T>)
    decreases |ys|
  {
    if |xs| == 0 then true
    else if |ys| == 0 then false
    else (xs[0] == ys[0] && IsSubsequence(xs[1..], ys[1..])) || IsSubsequence(xs, ys[1..])
  }
}
