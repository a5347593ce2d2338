/** Sequence helpers that stand for the query operations of the store:
    filtering a table, reversing an ordering, finding the first matching row. */
module Seqs {
  import opened Wrappers

  /** Every element's key is smaller than the keys of the elements after it. */
  predicate IncreasingBy<T>(s: seq<T>, key: T -> int) {
    forall i, j :: 0 <= i < j < |s| ==> key(s[i]) < key(s[j])
  }

  /** No two elements have the same key. */
  predicate DistinctBy<T, K(==)>(s: seq<T>, key: T -> K) {
    forall i, j :: 0 <= i < j < |s| ==> key(s[i]) != key(s[j])
  }

  /** The elements of `s` that satisfy `p`, in their original order. */
  function Filter<T(!new)>(s: seq<T>, p: T -> bool): (r: seq<T>)
    ensures |r| <= |s|
    ensures forall x :: x in r <==> x in s && p(x)
  {
    if s == [] then [] else (if p(s[0]) then [s[0]] else []) + Filter(s[1..], p)
  }

  /** `m` gives, in increasing order, the position in `s` of each element of
      `r`: `r` is `s` with some elements left out and the rest in order. */
  ghost predicate Positions<T>(r: seq<T>, s: seq<T>, m: seq<nat>) {
    && |m| == |r|
    && (forall k :: 0 <= k < |m| ==> m[k] < |s| && s[m[k]] == r[k])
    && (forall i, j :: 0 <= i < j < |m| ==> m[i] < m[j])
  }

  /** Every position moved one place to the right. */
  ghost function Shifted(m: seq<nat>): (r: seq<nat>)
    ensures |r| == |m| && forall k :: 0 <= k < |m| ==> r[k] == m[k] + 1
  {
    seq(|m|, k requires 0 <= k < |m| => m[k] + 1)
  }

  /** Putting an element in front of `s` moves every position by one. */
  lemma ShiftPositions<T>(x: T, r: seq<T>, s: seq<T>, m: seq<nat>)
    requires Positions(r, s, m)
    ensures Positions(r, [x] + s, Shifted(m))
  {
    forall k | 0 <= k < |m| ensures ([x] + s)[Shifted(m)[k]] == r[k] {
      assert ([x] + s)[m[k] + 1] == s[m[k]];
    }
  }

  /** Putting the same element in front of both sequences keeps it at position 0. */
  lemma ConsPositions<T>(x: T, r: seq<T>, s: seq<T>, m: seq<nat>)
    requires Positions(r, s, m)
    ensures Positions([x] + r, [x] + s, [0] + Shifted(m))
  {
    ShiftPositions(x, r, s, m);
    var m2 := [0] + Shifted(m);
    forall k | 0 < k < |m2| ensures ([x] + s)[m2[k]] == ([x] + r)[k] {
      assert m2[k] == Shifted(m)[k - 1];
    }
  }

  /** Filtering keeps the order of the elements it keeps. */
  lemma {:induction false} FilterKeepsOrder<T(!new)>(s: seq<T>, p: T -> bool) returns (m: seq<nat>)
    ensures Positions(Filter(s, p), s, m)
  {
    if s == [] {
      m := [];
    } else {
      var m' := FilterKeepsOrder(s[1..], p);
      assert s == [s[0]] + s[1..];
      if p(s[0]) {
        ConsPositions(s[0], Filter(s[1..], p), s[1..], m');
        m := [0] + Shifted(m');
      } else {
        ShiftPositions(s[0], Filter(s[1..], p), s[1..], m');
        m := Shifted(m');
      }
    }
  }

  /** Filtering keeps every occurrence of a matching element and drops every
      occurrence of the others. */
  lemma {:induction false} FilterCounts<T(!new)>(s: seq<T>, p: T -> bool)
    ensures forall x :: multiset(Filter(s, p))[x] == if p(x) then multiset(s)[x] else 0
  {
    if s != [] {
      FilterCounts(s[1..], p);
      assert s == [s[0]] + s[1..];
    }
  }

  /** The elements of `s` in the opposite order. */
  function Reverse<T>(s: seq<T>): (r: seq<T>)
    ensures |r| == |s|
    ensures forall i :: 0 <= i < |s| ==> r[i] == s[|s| - 1 - i]
  {
    if s == [] then [] else Reverse(s[1..]) + [s[0]]
  }

  /** The position of the first element of `s` that satisfies `p`, if any. */
  function IndexWhere<T>(s: seq<T>, p: T -> bool): (r: Option<nat>)
    ensures r.Some? ==> r.value < |s| && p(s[r.value])
    ensures r.Some? ==> forall k :: 0 <= k < r.value ==> !p(s[k])
    ensures r.None? <==> forall k :: 0 <= k < |s| ==> !p(s[k])
  {
    if s == [] then None
    else if p(s[0]) then Some(0)
    else match IndexWhere(s[1..], p)
      case None => None
      case Some(k) => Some(k + 1)
  }

  lemma {:induction false} FilterKeepsIncreasing<T(!new)>(s: seq<T>, p: T -> bool, key: T -> int)
    requires IncreasingBy(s, key)
    ensures IncreasingBy(Filter(s, p), key)
  {
    if s != [] {
      var tail := s[1..];
      IncreasingTail(s, key);
      FilterKeepsIncreasing(tail, p, key);
      var ft := Filter(tail, p);
      forall y | y in ft ensures key(s[0]) < key(y) {
        HeadBelowTail(s, key, y);
      }
      if p(s[0]) {
        IncreasingCons(s[0], ft, key);
        assert Filter(s, p) == [s[0]] + ft;
      } else {
        assert Filter(s, p) == ft;
      }
    }
  }

  lemma IncreasingTail<T>(s: seq<T>, key: T -> int)
    requires s != [] && IncreasingBy(s, key)
    ensures IncreasingBy(s[1..], key)
  {
    var tail := s[1..];
    forall i, j | 0 <= i < j < |tail| ensures key(tail[i]) < key(tail[j]) {
      assert tail[i] == s[i + 1] && tail[j] == s[j + 1];
    }
  }

  lemma HeadBelowTail<T>(s: seq<T>, key: T -> int, y: T)
    requires s != [] && IncreasingBy(s, key) && y in s[1..]
    ensures key(s[0]) < key(y)
  {
    var j :| 0 <= j < |s[1..]| && s[1..][j] == y;
    assert y == s[j + 1];
  }

  lemma IncreasingCons<T>(x: T, t: seq<T>, key: T -> int)
    requires IncreasingBy(t, key)
    requires forall y :: y in t ==> key(x) < key(y)
    ensures IncreasingBy([x] + t, key)
  {
    var r := [x] + t;
    forall i, j | 0 <= i < j < |r| ensures key(r[i]) < key(r[j]) {
      assert r[j] == t[j - 1];
      if i == 0 {
        assert t[j - 1] in t;
      } else {
        assert r[i] == t[i - 1];
      }
    }
  }

  lemma {:induction false} FilterKeepsDistinct<T(!new), K>(s: seq<T>, p: T -> bool, key: T -> K)
    requires DistinctBy(s, key)
    ensures DistinctBy(Filter(s, p), key)
  {
    if s != [] {
      var tail := s[1..];
      assert DistinctBy(tail, key) by {
        forall i, j | 0 <= i < j < |tail| ensures key(tail[i]) != key(tail[j]) {
          assert tail[i] == s[i + 1] && tail[j] == s[j + 1];
        }
      }
      FilterKeepsDistinct(tail, p, key);
      var ft := Filter(tail, p);
      forall y | y in ft ensures key(s[0]) != key(y) {
        var j :| 0 <= j < |tail| && tail[j] == y;
        assert y == s[j + 1];
      }
      var r := Filter(s, p);
      if p(s[0]) {
        assert r == [s[0]] + ft;
        forall i, j | 0 <= i < j < |r| ensures key(r[i]) != key(r[j]) {
          assert r[j] == ft[j - 1];
          assert ft[j - 1] in ft;
          if i > 0 { assert r[i] == ft[i - 1]; }
        }
      } else {
        assert r == ft;
      }
    }
  }

  /** Filtering distributes over concatenation. */
  lemma {:induction false} FilterConcat<T(!new)>(a: seq<T>, b: seq<T>, p: T -> bool)
    ensures Filter(a + b, p) == Filter(a, p) + Filter(b, p)
  {
    if a == [] {
      assert a + b == b;
    } else {
      var ab := a + b;
      assert ab[0] == a[0] && ab[1..] == a[1..] + b;
      FilterConcat(a[1..], b, p);
      var h: seq<T> := if p(a[0]) then [a[0]] else [];
      calc {
        Filter(ab, p);
        h + Filter(a[1..] + b, p);
        h + (Filter(a[1..], p) + Filter(b, p));
        (h + Filter(a[1..], p)) + Filter(b, p);
      }
    }
  }

  /** Appending one element adds one to the count exactly when it matches. */
  lemma FilterAppend<T(!new)>(s: seq<T>, x: T, p: T -> bool)
    ensures |Filter(s + [x], p)| == |Filter(s, p)| + (if p(x) then 1 else 0)
  {
    FilterConcat(s, [x], p);
    assert Filter([x], p) == (if p(x) then [x] else []) + Filter([], p);
  }

  /** Appending an element whose key exceeds every key keeps the keys increasing. */
  lemma IncreasingAppend<T>(s: seq<T>, x: T, key: T -> int)
    requires IncreasingBy(s, key)
    requires forall y :: y in s ==> key(y) < key(x)
    ensures IncreasingBy(s + [x], key)
  {
    var r := s + [x];
    forall i, j | 0 <= i < j < |r| ensures key(r[i]) < key(r[j]) {
      assert r[i] == s[i];
      if j < |s| {
        assert r[j] == s[j];
      } else {
        assert s[i] in s;
      }
    }
  }

  lemma DistinctAppend<T, K>(s: seq<T>, x: T, key: T -> K)
    requires DistinctBy(s, key)
    requires forall y :: y in s ==> key(y) != key(x)
    ensures DistinctBy(s + [x], key)
  {
    var r := s + [x];
    forall i, j | 0 <= i < j < |r| ensures key(r[i]) != key(r[j]) {
      assert r[i] == s[i];
      if j < |s| {
        assert r[j] == s[j];
      } else {
        assert s[i] in s;
      }
    }
  }

  /** Replacing an element by one with the same key keeps the keys increasing. */
  lemma IncreasingUpdate<T>(s: seq<T>, k: nat, x: T, key: T -> int)
    requires IncreasingBy(s, key) && k < |s| && key(x) == key(s[k])
    ensures IncreasingBy(s[k := x], key)
  {
    var r := s[k := x];
    assert forall i :: 0 <= i < |s| ==> key(r[i]) == key(s[i]);
  }
}
