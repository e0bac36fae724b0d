/** Generic sequence helpers that mirror the JavaScript array methods the
    source uses: `findIndex`, `filter` followed by `map`, and the stable
    `sort` with a numeric comparator. */
module Seqs {
  import opened Types

  /** `s.findIndex(p)`, with None for -1: the first index whose element satisfies `p`. */
  function FindIndex<T>(s: seq<T>, p: T -> bool): (r: Option<nat>)
    ensures r.None? <==> forall j :: 0 <= j < |s| ==> !p(s[j])
    ensures r.Some? ==> r.value < |s| && p(s[r.value]) && forall j :: 0 <= j < r.value ==> !p(s[j])
  {
    if s == [] then None
    else if p(s[0]) then Some(0)
    else
      match FindIndex(s[1..], p)
      case None =>
        assert forall j :: 1 <= j < |s| ==> s[j] == s[1..][j - 1];
        None
      case Some(k) =>
        assert forall j :: 1 <= j < k + 1 ==> s[j] == s[1..][j - 1];
        Some(k + 1)
  }

  /** `s.filter(p).map(f)`. */
  function FilterMap<T, U>(s: seq<T>, p: T -> bool, f: T -> U): seq<U> {
    if s == [] then []
    else (if p(s[0]) then [f(s[0])] else []) + FilterMap(s[1..], p, f)
  }

  /** Filtering and mapping distribute over concatenation. */
  lemma {:induction false} FilterMapAppend<T, U>(a: seq<T>, b: seq<T>, p: T -> bool, f: T -> U)
    ensures FilterMap(a + b, p, f) == FilterMap(a, p, f) + FilterMap(b, p, f)
  {
    if a == [] {
      assert a + b == b;
    } else {
      assert (a + b)[0] == a[0] && (a + b)[1..] == a[1..] + b;
      FilterMapAppend(a[1..], b, p, f);
      var head := if p(a[0]) then [f(a[0])] else [];
      assert FilterMap(a + b, p, f) == head + FilterMap(a[1..] + b, p, f);
      assert FilterMap(a, p, f) == head + FilterMap(a[1..], p, f);
    }
  }

  /** The indices of the elements that satisfy `p`, in increasing order. */
  function Indices<T>(s: seq<T>, p: T -> bool): seq<nat> {
    if s == [] then []
    else
      var n := |s| - 1;
      Indices(s[..n], p) + (if p(s[n]) then [n] else [])
  }

  /** `Indices` lists exactly the elements satisfying `p`, in increasing order. */
  lemma {:induction false} IndicesExact<T>(s: seq<T>, p: T -> bool)
    ensures forall k :: 0 <= k < |Indices(s, p)| ==> Indices(s, p)[k] < |s| && p(s[Indices(s, p)[k]])
    ensures forall k, l :: 0 <= k < l < |Indices(s, p)| ==> Indices(s, p)[k] < Indices(s, p)[l]
    ensures forall j :: 0 <= j < |s| && p(s[j]) ==> j in Indices(s, p)
  {
    if s != [] {
      var n := |s| - 1;
      var front := s[..n];
      IndicesExact(front, p);
      var r := Indices(s, p);
      var f := Indices(front, p);
      assert r == f + (if p(s[n]) then [n] else []);
      forall k | 0 <= k < |r| ensures r[k] < |s| && p(s[r[k]]) {
        if k < |f| {
          assert r[k] == f[k] && front[f[k]] == s[f[k]];
        }
      }
      forall k, l | 0 <= k < l < |r| ensures r[k] < r[l] {
        assert r[k] == f[k];
        if l < |f| { assert r[l] == f[l]; }
      }
      forall j | 0 <= j < |s| && p(s[j]) ensures j in r {
        if j < n {
          assert front[j] == s[j];
          assert j in f;
        } else {
          assert r[|r| - 1] == n;
        }
      }
    }
  }

  /** `FilterMap` yields one `f`-image per selected element, in order. */
  lemma {:induction false} FilterMapSelects<T, U>(s: seq<T>, p: T -> bool, f: T -> U)
    ensures |FilterMap(s, p, f)| == |Indices(s, p)| <= |s|
    ensures forall k :: 0 <= k < |FilterMap(s, p, f)| ==>
      Indices(s, p)[k] < |s| && FilterMap(s, p, f)[k] == f(s[Indices(s, p)[k]])
  {
    if s != [] {
      var n := |s| - 1;
      var front := s[..n];
      assert s == front + [s[n]];
      FilterMapAppend(front, [s[n]], p, f);
      FilterMapSelects(front, p, f);
      IndicesExact(front, p);
      assert FilterMap([s[n]], p, f) == (if p(s[n]) then [f(s[n])] else []);
      forall k | 0 <= k < |Indices(front, p)|
        ensures FilterMap(s, p, f)[k] == f(s[Indices(s, p)[k]])
      {
        assert front[Indices(front, p)[k]] == s[Indices(front, p)[k]];
      }
    }
  }

  /** Inserts `x` before the first element whose key is not larger, so that
      `x` precedes the elements of equal key. */
  function InsertDesc<T>(x: T, s: seq<T>, key: T -> int): (r: seq<T>)
    ensures |r| == |s| + 1
  {
    if s == [] || key(s[0]) <= key(x) then [x] + s
    else [s[0]] + InsertDesc(x, s[1..], key)
  }

  /** `s.sort((a, b) => key(b) - key(a))`: descending by key, and stable
      (equal keys keep their order), as `Array.prototype.sort` is. */
  function SortDesc<T>(s: seq<T>, key: T -> int): (r: seq<T>)
    ensures |r| == |s|
  {
    if s == [] then [] else InsertDesc(s[0], SortDesc(s[1..], key), key)
  }

  /** Inserting adds exactly the inserted element. */
  lemma {:induction false} InsertIsPermutation<T>(x: T, s: seq<T>, key: T -> int)
    ensures multiset(InsertDesc(x, s, key)) == multiset(s) + multiset{x}
    decreases |s|
  {
    if !(s == [] || key(s[0]) <= key(x)) {
      InsertIsPermutation(x, s[1..], key);
      assert s == [s[0]] + s[1..];
    }
  }

  /** Sorting rearranges the elements without adding or losing any. */
  lemma {:induction false} SortIsPermutation<T>(s: seq<T>, key: T -> int)
    ensures multiset(SortDesc(s, key)) == multiset(s)
  {
    if s != [] {
      SortIsPermutation(s[1..], key);
      InsertIsPermutation(s[0], SortDesc(s[1..], key), key);
      assert s == [s[0]] + s[1..];
    }
  }

  predicate Descending<T>(s: seq<T>, key: T -> int) {
    forall i, j :: 0 <= i < j < |s| ==> key(s[i]) >= key(s[j])
  }

  /** The inserted element goes first unless the first one has a larger key. */
  lemma InsertHead<T>(x: T, s: seq<T>, key: T -> int)
    ensures InsertDesc(x, s, key)[0] == (if s == [] || key(s[0]) <= key(x) then x else s[0])
  {
  }

  /** Inserting below a bound keeps every key below it. */
  lemma {:induction false} InsertBounded<T>(x: T, s: seq<T>, key: T -> int, bound: int)
    requires key(x) <= bound && forall k :: 0 <= k < |s| ==> key(s[k]) <= bound
    ensures forall k :: 0 <= k < |InsertDesc(x, s, key)| ==> key(InsertDesc(x, s, key)[k]) <= bound
    decreases |s|
  {
    if !(s == [] || key(s[0]) <= key(x)) {
      var rest := InsertDesc(x, s[1..], key);
      InsertBounded(x, s[1..], key, bound);
      forall k | 0 < k < |rest| + 1 ensures key(InsertDesc(x, s, key)[k]) <= bound {
        assert InsertDesc(x, s, key)[k] == rest[k - 1];
      }
    }
  }

  lemma {:induction false} InsertKeepsDescending<T>(x: T, s: seq<T>, key: T -> int)
    requires Descending(s, key)
    ensures Descending(InsertDesc(x, s, key), key)
    decreases |s|
  {
    if !(s == [] || key(s[0]) <= key(x)) {
      var rest := InsertDesc(x, s[1..], key);
      InsertKeepsDescending(x, s[1..], key);
      InsertBounded(x, s[1..], key, key(s[0]));
      var r := [s[0]] + rest;
      assert r == InsertDesc(x, s, key);
      forall i, j | 0 <= i < j < |r| ensures key(r[i]) >= key(r[j]) {
        assert r[j] == rest[j - 1];
        if i > 0 {
          assert r[i] == rest[i - 1];
        }
      }
    }
  }

  /** The sorted sequence is in descending key order. */
  lemma {:induction false} SortIsDescending<T>(s: seq<T>, key: T -> int)
    ensures Descending(SortDesc(s, key), key)
  {
    if s != [] {
      SortIsDescending(s[1..], key);
      InsertKeepsDescending(s[0], SortDesc(s[1..], key), key);
    }
  }

  /** The first element of the sorted sequence is the first element of the
      input with the largest key. */
  lemma {:induction false} SortHeadIsFirstMaximum<T>(s: seq<T>, key: T -> int) returns (k: nat)
    requires s != []
    ensures k < |s| && SortDesc(s, key)[0] == s[k]
    ensures forall j :: 0 <= j < |s| ==> key(s[j]) <= key(s[k])
    ensures forall j :: 0 <= j < k ==> key(s[j]) < key(s[k])
  {
    var rest := s[1..];
    var tail := SortDesc(rest, key);
    assert SortDesc(s, key) == InsertDesc(s[0], tail, key);
    InsertHead(s[0], tail, key);
    if rest == [] {
      k := 0;
    } else {
      var k1 := SortHeadIsFirstMaximum(rest, key);
      assert tail[0] == s[k1 + 1];
      if key(tail[0]) <= key(s[0]) {
        k := 0;
        forall j | 0 < j < |s| ensures key(s[j]) <= key(s[0]) {
          assert s[j] == rest[j - 1];
        }
      } else {
        k := k1 + 1;
        forall j | 0 < j < |s| ensures key(s[j]) <= key(s[k]) {
          assert s[j] == rest[j - 1];
        }
        forall j | 0 < j < k ensures key(s[j]) < key(s[k]) {
          assert s[j] == rest[j - 1];
        }
      }
    }
  }
}
