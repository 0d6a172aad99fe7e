/** Python's stable `list.sort(key=..., reverse=True)`, modelled as an insertion sort that
    builds a new sequence. Stability is stated per key value: the elements that share a key
    keep their relative order. */
module StableSort {

  /** The elements of `s` whose key is `v`, in their order in `s`. */
  function WithKey<T>(s: seq<T>, key: T -> real, v: real): seq<T>
  {
    if s == [] then []
    else WithKey(s[..|s| - 1], key, v) + (if key(s[|s| - 1]) == v then [s[|s| - 1]] else [])
  }

  /** Keys never increase from left to right. */
  ghost predicate SortedDesc<T>(s: seq<T>, key: T -> real) {
    forall i, j :: 0 <= i < j < |s| ==> key(s[i]) >= key(s[j])
  }

  /** `r` keeps, for every key value, the order that `s` has among the elements with that key. */
  ghost predicate SameOrderPerKey<T>(r: seq<T>, s: seq<T>, key: T -> real) {
    forall v :: WithKey(r, key, v) == WithKey(s, key, v)
  }

  lemma {:induction false} WithKeyAppend<T>(a: seq<T>, b: seq<T>, key: T -> real, v: real)
    ensures WithKey(a + b, key, v) == WithKey(a, key, v) + WithKey(b, key, v)
    decreases |b|
  {
    if b == [] {
      assert a + b == a;
    } else {
      var n := |b| - 1;
      assert (a + b)[..|a + b| - 1] == a + b[..n];
      assert (a + b)[|a + b| - 1] == b[n];
      WithKeyAppend(a, b[..n], key, v);
    }
  }

  lemma {:induction false} WithKeyNone<T>(s: seq<T>, key: T -> real, v: real)
    requires forall i :: 0 <= i < |s| ==> key(s[i]) != v
    ensures WithKey(s, key, v) == []
    decreases |s|
  {
    if s != [] {
      WithKeyNone(s[..|s| - 1], key, v);
    }
  }

  /** Splicing `x` in at `k`, where everything before `k` has a key at least `key(x)` and
      everything from `k` on a smaller key, appends `x` to the elements sharing its key. */
  lemma SpliceWithKey<T>(r: seq<T>, x: T, k: nat, key: T -> real, v: real)
    requires k <= |r|
    requires forall i :: k <= i < |r| ==> key(r[i]) < key(x)
    ensures WithKey(r[..k] + [x] + r[k..], key, v) == WithKey(r, key, v) + (if key(x) == v then [x] else [])
  {
    assert r == r[..k] + r[k..];
    WithKeyAppend(r[..k] + [x], r[k..], key, v);
    WithKeyAppend(r[..k], [x], key, v);
    WithKeyAppend(r[..k], r[k..], key, v);
    assert WithKey([x], key, v) == (if key(x) == v then [x] else []) by {
      assert [x][..0] == [];
    }
    if key(x) == v {
      WithKeyNone(r[k..], key, v);
    }
  }

  lemma SpliceSorted<T>(r: seq<T>, x: T, k: nat, key: T -> real)
    requires k <= |r| && SortedDesc(r, key)
    requires forall i :: 0 <= i < k ==> key(r[i]) >= key(x)
    requires forall i :: k <= i < |r| ==> key(r[i]) < key(x)
    ensures SortedDesc(r[..k] + [x] + r[k..], key)
  {
    var r' := r[..k] + [x] + r[k..];
    forall i, j | 0 <= i < j < |r'| ensures key(r'[i]) >= key(r'[j]) {
      if i < k && j < k {
        assert r'[i] == r[i] && r'[j] == r[j];
      } else if i < k && j > k {
        assert r'[i] == r[i] && r'[j] == r[j - 1];
      } else if i > k {
        assert r'[i] == r[i - 1] && r'[j] == r[j - 1];
      }
    }
  }

  /** Inserts `x` after every element whose key is at least `key(x)`. */
  method InsertDesc<T>(r: seq<T>, x: T, key: T -> real) returns (r': seq<T>)
    requires SortedDesc(r, key)
    ensures SortedDesc(r', key)
    ensures forall v :: WithKey(r', key, v) == WithKey(r, key, v) + (if key(x) == v then [x] else [])
    ensures multiset(r') == multiset(r) + multiset{x}
  {
    var k := 0;
    while k < |r| && key(r[k]) >= key(x)
      invariant 0 <= k <= |r|
      invariant forall i :: 0 <= i < k ==> key(r[i]) >= key(x)
    {
      k := k + 1;
    }
    assert forall i :: k <= i < |r| ==> key(r[i]) < key(x);
    r' := r[..k] + [x] + r[k..];
    SpliceSorted(r, x, k, key);
    forall v
      ensures WithKey(r', key, v) == WithKey(r, key, v) + (if key(x) == v then [x] else [])
    {
      SpliceWithKey(r, x, k, key, v);
    }
    assert r == r[..k] + r[k..];
  }

  /** A stable sort into non-increasing key order. */
  method SortDesc<T>(s: seq<T>, key: T -> real) returns (r: seq<T>)
    ensures SortedDesc(r, key)
    ensures SameOrderPerKey(r, s, key)
    ensures multiset(r) == multiset(s)
  {
    r := [];
    var i := 0;
    while i < |s|
      invariant 0 <= i <= |s|
      invariant SortedDesc(r, key)
      invariant forall v :: WithKey(r, key, v) == WithKey(s[..i], key, v)
      invariant multiset(r) == multiset(s[..i])
    {
      r := InsertDesc(r, s[i], key);
      assert s[..i + 1][..i] == s[..i];
      assert s[..i + 1] == s[..i] + [s[i]];
      i := i + 1;
    }
    assert s[..i] == s;
  }

  /** `max(s, key=key)`: the position of the first element with the largest key. */
  function FirstMax<T>(s: seq<T>, key: T -> real): (k: nat)
    requires |s| > 0
    ensures k < |s|
    ensures forall j :: 0 <= j < |s| ==> key(s[j]) <= key(s[k])
    ensures forall j :: 0 <= j < k ==> key(s[j]) < key(s[k])
  {
    if |s| == 1 then 0
    else
      var k := FirstMax(s[..|s| - 1], key);
      if key(s[|s| - 1]) > key(s[k]) then |s| - 1 else k
  }

  /** `min(s, key=key)`: the position of the first element with the smallest key. */
  function FirstMin<T>(s: seq<T>, key: T -> real): (k: nat)
    requires |s| > 0
    ensures k < |s|
    ensures forall j :: 0 <= j < |s| ==> key(s[k]) <= key(s[j])
    ensures forall j :: 0 <= j < k ==> key(s[k]) < key(s[j])
  {
    if |s| == 1 then 0
    else
      var k := FirstMin(s[..|s| - 1], key);
      if key(s[|s| - 1]) < key(s[k]) then |s| - 1 else k
  }

  /** The first element with key `v` heads the elements with that key. */
  lemma WithKeyFirst<T>(s: seq<T>, key: T -> real, v: real, i: nat)
    requires i < |s| && key(s[i]) == v
    requires forall j :: 0 <= j < i ==> key(s[j]) != v
    ensures WithKey(s, key, v) != [] && WithKey(s, key, v)[0] == s[i]
  {
    assert s == s[..i] + ([s[i]] + s[i + 1..]);
    WithKeyAppend(s[..i], [s[i]] + s[i + 1..], key, v);
    WithKeyAppend([s[i]], s[i + 1..], key, v);
    WithKeyNone(s[..i], key, v);
    assert [s[i]][..0] == [];
  }

  /** After a stable sort into non-increasing order, the head is the element `max` picks:
      the first one, in the original order, with the largest key. */
  lemma SortedHeadIsFirstMax<T>(r: seq<T>, s: seq<T>, key: T -> real)
    requires SortedDesc(r, key) && SameOrderPerKey(r, s, key) && multiset(r) == multiset(s)
    requires |s| > 0
    ensures |r| > 0 && r[0] == s[FirstMax(s, key)]
  {
    var i := FirstMax(s, key);
    var m := key(s[i]);
    assert s[i] in multiset(r);
    assert |r| > 0;
    assert r[0] in multiset(s);
    var q :| 0 <= q < |r| && r[q] == s[i];
    var p :| 0 <= p < |s| && s[p] == r[0];
    assert key(r[0]) == m;
    WithKeyFirst(r, key, m, 0);
    WithKeyFirst(s, key, m, i);
    assert WithKey(r, key, m) == WithKey(s, key, m);
  }

  /** No two elements share a key. */
  ghost predicate DistinctKeys<T, K>(s: seq<T>, key: T -> K) {
    forall a, b :: 0 <= a < b < |s| ==> key(s[a]) != key(s[b])
  }

  /** Removing one element keeps the keys distinct. */
  lemma RemoveKeepsDistinctKeys<T, K>(y: seq<T>, p: nat, y': seq<T>, key: T -> K)
    requires p < |y| && DistinctKeys(y, key) && y' == y[..p] + y[p + 1..]
    ensures DistinctKeys(y', key)
    ensures forall q :: 0 <= q < |y'| ==> key(y'[q]) != key(y[p])
  {
    assert forall q :: 0 <= q < |y'| ==> y'[q] == if q < p then y[q] else y[q + 1];
  }

  /** Taking the last element off one side and its copy off the other keeps a permutation. */
  lemma RemoveFromPermutation<T>(x: seq<T>, y: seq<T>, p: nat, y': seq<T>)
    requires x != [] && multiset(x) == multiset(y)
    requires p < |y| && y[p] == x[|x| - 1] && y' == y[..p] + y[p + 1..]
    ensures multiset(y') == multiset(x[..|x| - 1])
  {
    var e := x[|x| - 1];
    assert x == x[..|x| - 1] + [e];
    assert y == y[..p] + [e] + y[p + 1..];
    calc {
      multiset(y') + multiset{e};
      multiset(y[..p]) + multiset(y[p + 1..]) + multiset{e};
      multiset(y[..p] + [e] + y[p + 1..]);
      multiset(x);
      multiset(x[..|x| - 1]) + multiset{e};
    }
    assert multiset(y') == multiset(y') + multiset{e} - multiset{e};
    assert multiset(x[..|x| - 1]) == multiset(x[..|x| - 1]) + multiset{e} - multiset{e};
  }

  /** A permutation of a sequence whose keys are distinct has distinct keys. */
  lemma {:induction false} PermutationKeepsDistinctKeys<T, K>(x: seq<T>, y: seq<T>, key: T -> K)
    requires multiset(x) == multiset(y) && DistinctKeys(y, key)
    ensures DistinctKeys(x, key)
    decreases |x|
  {
    if x != [] {
      var n := |x| - 1;
      var e, x' := x[n], x[..n];
      assert e in multiset(x);
      var p :| 0 <= p < |y| && y[p] == e;
      var y' := y[..p] + y[p + 1..];
      RemoveFromPermutation(x, y, p, y');
      RemoveKeepsDistinctKeys(y, p, y', key);
      PermutationKeepsDistinctKeys(x', y', key);
      forall a | 0 <= a < n ensures key(x'[a]) != key(e) {
        assert x'[a] in multiset(y');
      }
      forall a, b | 0 <= a < b < |x| ensures key(x[a]) != key(x[b]) {
        assert x[a] == x'[a];
        if b < n {
          assert x[b] == x'[b];
        }
      }
    }
  }
}
