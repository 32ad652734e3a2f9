/**
 * The array operations the source chains together (`filter`, stable `sort`
 * by a numeric key, `slice(0, n)`), written once over sequences, with the
 * facts about them that the rest of the model relies on.
 */
module Seqs {

  /** `r` is `s` with some elements deleted and the others kept in order. */
  predicate SubsequenceOf<T(==)>(r: seq<T>, s: seq<T>)
    decreases |s|
  {
    if r == [] then true
    else if s == [] then false
    else (r[0] == s[0] && SubsequenceOf(r[1..], s[1..])) || SubsequenceOf(r, s[1..])
  }

  /** `Array.prototype.filter`: the elements satisfying `f`, in their order. */
  function Filter<T(==,!new)>(s: seq<T>, f: T -> bool): (r: seq<T>)
    ensures forall x :: x in r <==> x in s && f(x)
    ensures |r| <= |s|
    decreases |s|
  {
    if s == [] then [] else (if f(s[0]) then [s[0]] else []) + Filter(s[1..], f)
  }

  /** `Filter` keeps the order of what it keeps. */
  lemma {:induction false} FilterIsSubsequence<T(!new)>(s: seq<T>, f: T -> bool)
    ensures SubsequenceOf(Filter(s, f), s)
    decreases |s|
  {
    if s != [] {
      FilterIsSubsequence(s[1..], f);
      var rest := Filter(s[1..], f);
      if f(s[0]) {
        var r := [s[0]] + rest;
        assert Filter(s, f) == r && r[0] == s[0] && r[1..] == rest;
      } else {
        assert Filter(s, f) == rest;
      }
    }
  }

  /** `Filter` keeps every element satisfying `f` as often as it occurs, and nothing else. */
  lemma {:induction false} FilterCounts<T(!new)>(s: seq<T>, f: T -> bool, x: T)
    ensures multiset(Filter(s, f))[x] == if f(x) then multiset(s)[x] else 0
    decreases |s|
  {
    if s != [] {
      FilterCounts(s[1..], f, x);
      assert s == [s[0]] + s[1..];
      assert multiset(s) == multiset{s[0]} + multiset(s[1..]);
    }
  }

  lemma {:induction false} FilterAppend<T(!new)>(a: seq<T>, b: seq<T>, f: T -> bool)
    ensures Filter(a + b, f) == Filter(a, f) + Filter(b, f)
    decreases |a|
  {
    if a == [] {
      assert a + b == b;
    } else {
      var ab := a + b;
      assert ab[0] == a[0] && ab[1..] == a[1..] + b;
      FilterAppend(a[1..], b, f);
      calc {
        Filter(ab, f);
        (if f(a[0]) then [a[0]] else []) + Filter(a[1..] + b, f);
        (if f(a[0]) then [a[0]] else []) + (Filter(a[1..], f) + Filter(b, f));
        ((if f(a[0]) then [a[0]] else []) + Filter(a[1..], f)) + Filter(b, f);
      }
    }
  }

  lemma {:induction false} FilterKeepsAll<T(!new)>(s: seq<T>, f: T -> bool)
    requires forall i :: 0 <= i < |s| ==> f(s[i])
    ensures Filter(s, f) == s
    decreases |s|
  {
    if s != [] {
      FilterKeepsAll(s[1..], f);
    }
  }

  lemma {:induction false} FilterDropsAll<T(!new)>(s: seq<T>, f: T -> bool)
    requires forall i :: 0 <= i < |s| ==> !f(s[i])
    ensures Filter(s, f) == []
    decreases |s|
  {
    if s != [] {
      FilterDropsAll(s[1..], f);
    }
  }

  /** Filtering by two tests that agree on every element gives the same result. */
  lemma {:induction false} FilterAgrees<T(!new)>(s: seq<T>, f: T -> bool, g: T -> bool)
    requires forall i :: 0 <= i < |s| ==> f(s[i]) == g(s[i])
    ensures Filter(s, f) == Filter(s, g)
    decreases |s|
  {
    if s != [] {
      FilterAgrees(s[1..], f, g);
    }
  }

  /** Filtering a second time by the same test changes nothing. */
  lemma FilterIsIdempotent<T(!new)>(s: seq<T>, f: T -> bool)
    ensures Filter(Filter(s, f), f) == Filter(s, f)
  {
    var r := Filter(s, f);
    assert forall i :: 0 <= i < |r| ==> r[i] in r;
    FilterKeepsAll(r, f);
  }

  /** No two elements of `s` share a key. */
  predicate DistinctKeys<T, K(==)>(s: seq<T>, key: T -> K)
  {
    forall i, j :: 0 <= i < j < |s| ==> key(s[i]) != key(s[j])
  }

  /** Deleting elements keeps keys distinct. */
  lemma {:induction false} FilterKeepsDistinct<T(!new), K(!new)>(s: seq<T>, f: T -> bool, key: T -> K)
    requires DistinctKeys(s, key)
    ensures DistinctKeys(Filter(s, f), key)
    decreases |s|
  {
    if s != [] {
      var rest := Filter(s[1..], f);
      assert DistinctKeys(s[1..], key) by {
        assert forall i :: 0 <= i < |s| - 1 ==> s[1..][i] == s[i + 1];
      }
      FilterKeepsDistinct(s[1..], f, key);
      if f(s[0]) {
        var r := [s[0]] + rest;
        forall j | 0 <= j < |rest| ensures key(s[0]) != key(rest[j]) {
          assert rest[j] in s[1..];
          var k :| 0 <= k < |s[1..]| && s[1..][k] == rest[j];
          assert s[k + 1] == rest[j];
        }
        assert forall i :: 1 <= i < |r| ==> r[i] == rest[i - 1];
      }
    }
  }

  /** A non-empty sequence is its front followed by its last element. */
  lemma InitLast<T>(s: seq<T>)
    requires |s| >= 1
    ensures s[..|s| - 1] + [s[|s| - 1]] == s
  {
  }

  function Min(a: int, b: int): int { if a <= b then a else b }

  /** `slice(0, n)`: the first `n` elements, or all of them when there are fewer. */
  function Take<T>(s: seq<T>, n: nat): (r: seq<T>)
    ensures |r| == Min(n, |s|)
    ensures r == s[..|r|]
  {
    if n <= |s| then s[..n] else s
  }

  /** Non-increasing by `key`. */
  predicate SortedByKey<T>(s: seq<T>, key: T -> int)
  {
    forall i, j :: 0 <= i < j < |s| ==> key(s[i]) >= key(s[j])
  }

  /** The elements of `s` whose key is `k`, in their order. */
  function KeyFilter<T>(s: seq<T>, key: T -> int, k: int): (r: seq<T>)
    ensures forall i :: 0 <= i < |r| ==> key(r[i]) == k
    decreases |s|
  {
    if s == [] then []
    else (if key(s[0]) == k then [s[0]] else []) + KeyFilter(s[1..], key, k)
  }

  /** Puts `x` in front of the first element whose key is not greater than its own. */
  function InsertByKey<T(==,!new)>(x: T, s: seq<T>, key: T -> int): (r: seq<T>)
    ensures multiset(r) == multiset(s) + multiset{x}
    decreases |s|
  {
    if s == [] || key(s[0]) <= key(x) then [x] + s
    else
      assert s == [s[0]] + s[1..];
      [s[0]] + InsertByKey(x, s[1..], key)
  }

  /** Inserting into a key-sorted sequence keeps it key-sorted. */
  lemma {:induction false} InsertKeepsSorted<T(!new)>(x: T, s: seq<T>, key: T -> int)
    requires SortedByKey(s, key)
    ensures SortedByKey(InsertByKey(x, s, key), key)
    decreases |s|
  {
    if s == [] || key(s[0]) <= key(x) {
      ConsSorted(x, s, key);
    } else {
      var tail := s[1..];
      assert SortedByKey(tail, key) by {
        assert forall j :: 0 <= j < |tail| ==> tail[j] == s[j + 1];
      }
      InsertKeepsSorted(x, tail, key);
      InsertStaysBelow(x, tail, key, key(s[0]));
      ConsSorted(s[0], InsertByKey(x, tail, key), key);
    }
  }

  /** A sorted sequence stays sorted under a head whose key is at least all of its keys. */
  lemma ConsSorted<T>(h: T, s: seq<T>, key: T -> int)
    requires SortedByKey(s, key)
    requires forall j :: 0 <= j < |s| ==> key(s[j]) <= key(h)
    ensures SortedByKey([h] + s, key)
  {
    var r := [h] + s;
    forall i, j | 0 <= i < j < |r| ensures key(r[i]) >= key(r[j]) {
      assert r[j] == s[j - 1];
      if i > 0 { assert r[i] == s[i - 1]; }
    }
  }

  /** An upper bound on the keys of `s` and of `x` bounds the keys after the insertion. */
  lemma InsertStaysBelow<T(!new)>(x: T, s: seq<T>, key: T -> int, bound: int)
    requires key(x) <= bound
    requires SortedByKey(s, key)
    requires s != [] ==> key(s[0]) <= bound
    ensures forall j :: 0 <= j < |InsertByKey(x, s, key)| ==> key(InsertByKey(x, s, key)[j]) <= bound
  {
    var r := InsertByKey(x, s, key);
    forall j | 0 <= j < |r| ensures key(r[j]) <= bound {
      assert r[j] in multiset(r);
      if r[j] != x {
        assert r[j] in multiset(s);
        var k :| 0 <= k < |s| && s[k] == r[j];
        assert key(s[0]) >= key(s[k]) || k == 0;
      }
    }
  }

  /**
   * A stable sort of `s` into non-increasing key order: an insertion sort
   * whose insertion keeps earlier elements ahead of later ones of equal key.
   */
  function SortByKey<T(==,!new)>(s: seq<T>, key: T -> int): (r: seq<T>)
    ensures multiset(r) == multiset(s)
    ensures |r| == |s|
    ensures SortedByKey(r, key)
    decreases |s|
  {
    if s == [] then []
    else
      assert s == [s[0]] + s[1..];
      var sortedTail := SortByKey(s[1..], key);
      InsertKeepsSorted(s[0], sortedTail, key);
      var r := InsertByKey(s[0], sortedTail, key);
      assert |r| == |multiset(r)|;
      r
  }

  lemma {:induction false} InsertKeyFilter<T(!new)>(x: T, s: seq<T>, key: T -> int, k: int)
    ensures KeyFilter(InsertByKey(x, s, key), key, k)
         == (if key(x) == k then [x] else []) + KeyFilter(s, key, k)
    decreases |s|
  {
    var r := InsertByKey(x, s, key);
    if s == [] || key(s[0]) <= key(x) {
      assert r[1..] == s;
    } else {
      var rest := InsertByKey(x, s[1..], key);
      assert r[1..] == rest;
      InsertKeyFilter(x, s[1..], key, k);
    }
  }

  /** Stability: for every key, the elements with that key keep their relative order. */
  lemma {:induction false} SortIsStable<T(!new)>(s: seq<T>, key: T -> int, k: int)
    ensures KeyFilter(SortByKey(s, key), key, k) == KeyFilter(s, key, k)
    decreases |s|
  {
    if s != [] {
      SortIsStable(s[1..], key, k);
      InsertKeyFilter(s[0], SortByKey(s[1..], key), key, k);
    }
  }

  lemma TakeOfSortedIsSorted<T>(s: seq<T>, key: T -> int, n: nat)
    requires SortedByKey(s, key)
    ensures SortedByKey(Take(s, n), key)
  {
  }

  lemma TakeIsSubMultiset<T>(s: seq<T>, n: nat)
    ensures multiset(Take(s, n)) <= multiset(s)
    ensures multiset(s) - multiset(Take(s, n)) == multiset(s[|Take(s, n)|..])
  {
    var t := Take(s, n);
    assert s == t + s[|t|..];
  }

  /**
   * The first `n` elements of a key-sorted sequence have keys at least as
   * large as every element left behind.
   */
  lemma TakeOfSortedIsTop<T>(s: seq<T>, key: T -> int, n: nat)
    requires SortedByKey(s, key)
    ensures forall x, i :: (x in multiset(s) - multiset(Take(s, n)) && 0 <= i < |Take(s, n)|)
              ==> key(Take(s, n)[i]) >= key(x)
  {
    var t := Take(s, n);
    var rest := s[|t|..];
    TakeIsSubMultiset(s, n);
    forall x, i | x in multiset(s) - multiset(t) && 0 <= i < |t|
      ensures key(t[i]) >= key(x)
    {
      assert x in rest;
      var k :| 0 <= k < |rest| && rest[k] == x;
      assert s[|t| + k] == x && s[i] == t[i];
    }
  }

  /**
   * The `n` elements of largest key, largest first, ties in input order:
   * `sort(...).slice(0, n)`.
   */
  function TopByKey<T(==,!new)>(s: seq<T>, key: T -> int, n: nat): (r: seq<T>)
    ensures |r| == Min(n, |s|)
    ensures multiset(r) <= multiset(s)
    ensures SortedByKey(r, key)
    ensures forall x, i :: (x in multiset(s) - multiset(r) && 0 <= i < |r|) ==> key(r[i]) >= key(x)
  {
    var sorted := SortByKey(s, key);
    TakeOfSortedIsTop(sorted, key, n);
    TakeOfSortedIsSorted(sorted, key, n);
    TakeIsSubMultiset(sorted, n);
    Take(sorted, n)
  }
}
