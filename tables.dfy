/** The query forms the store uses, over a table held as a sequence of rows in insertion
    order: `filter_by(...)`, `.first()`, `.count()` and `.distinct()`. */
module Tables {
  import opened Wrappers

  /** `filter_by(...).all()`: the rows satisfying `p`, in table order. */
  function FilterWhere<T>(s: seq<T>, p: T -> bool): (r: seq<T>)
    ensures |r| <= |s|
    ensures forall i :: 0 <= i < |r| ==> r[i] in s && p(r[i])
    ensures forall i :: 0 <= i < |s| && p(s[i]) ==> s[i] in r
  {
    if s == [] then []
    else FilterWhere(s[..|s| - 1], p) + (if p(s[|s| - 1]) then [s[|s| - 1]] else [])
  }

  /** The rows `filter_by` returns, one per matching row and in table order: the matching row
      at position `j` is the result's entry numbered by the matches before it. */
  lemma {:induction false} FilterWhereInOrder<T>(s: seq<T>, p: T -> bool)
    ensures |FilterWhere(s, p)| == CountWhere(s, p)
    ensures forall j | 0 <= j < |s| && p(s[j]) ::
      CountWhere(s[..j], p) < |FilterWhere(s, p)| && FilterWhere(s, p)[CountWhere(s[..j], p)] == s[j]
    decreases |s|
  {
    if s != [] {
      var pre := s[..|s| - 1];
      FilterWhereInOrder(pre, p);
      var r, r' := FilterWhere(s, p), FilterWhere(pre, p);
      assert r == r' + (if p(s[|s| - 1]) then [s[|s| - 1]] else []);
      forall j | 0 <= j < |s| && p(s[j])
        ensures CountWhere(s[..j], p) < |r| && r[CountWhere(s[..j], p)] == s[j]
      {
        FilterStep(s, pre, p, j);
      }
    }
  }

  /** One row more: the matching row at `j` keeps its place in the longer result. */
  lemma FilterStep<T>(s: seq<T>, pre: seq<T>, p: T -> bool, j: nat)
    requires s != [] && pre == s[..|s| - 1] && j < |s| && p(s[j])
    requires |FilterWhere(pre, p)| == CountWhere(pre, p)
    requires forall k | 0 <= k < |pre| && p(pre[k]) ::
      CountWhere(pre[..k], p) < |FilterWhere(pre, p)| && FilterWhere(pre, p)[CountWhere(pre[..k], p)] == pre[k]
    ensures CountWhere(s[..j], p) < |FilterWhere(s, p)| && FilterWhere(s, p)[CountWhere(s[..j], p)] == s[j]
  {
    var r, r' := FilterWhere(s, p), FilterWhere(pre, p);
    assert r == r' + (if p(s[|s| - 1]) then [s[|s| - 1]] else []);
    if j < |s| - 1 {
      assert s[..j] == pre[..j];
      assert pre[j] == s[j];
    } else {
      assert s[..j] == pre;
    }
  }

  /** The rows are in ascending order of `key`. */
  predicate SortedBy<T>(s: seq<T>, key: T -> int) {
    forall i, j :: 0 <= i <= j < |s| ==> key(s[i]) <= key(s[j])
  }

  /** Filtering a table ordered by `key` gives rows ordered by `key`. */
  lemma {:induction false} FilterKeepsOrder<T>(s: seq<T>, p: T -> bool, key: T -> int)
    ensures SortedBy(s, key) ==> SortedBy(FilterWhere(s, p), key)
    decreases |s|
  {
    if s != [] && SortedBy(s, key) {
      var pre := s[..|s| - 1];
      assert SortedBy(pre, key) by {
        assert forall i :: 0 <= i < |pre| ==> pre[i] == s[i];
      }
      FilterKeepsOrder(pre, p, key);
      var r' := FilterWhere(pre, p);
      assert FilterWhere(s, p) == r' + (if p(s[|s| - 1]) then [s[|s| - 1]] else []);
      if p(s[|s| - 1]) {
        forall k | 0 <= k < |r'| ensures key(r'[k]) <= key(s[|s| - 1]) {
          var i :| 0 <= i < |pre| && pre[i] == r'[k];
          assert pre[i] == s[i];
        }
        SortedSnoc(r', s[|s| - 1], key);
      }
    }
  }

  lemma SortedSnoc<T>(r: seq<T>, x: T, key: T -> int)
    requires SortedBy(r, key)
    requires forall k :: 0 <= k < |r| ==> key(r[k]) <= key(x)
    ensures SortedBy(r + [x], key)
  {
    var t := r + [x];
    forall i, j | 0 <= i <= j < |t| ensures key(t[i]) <= key(t[j]) {
      if j < |r| {
        assert t[i] == r[i] && t[j] == r[j];
      } else if i < |r| {
        assert t[i] == r[i];
      }
    }
  }

  /** `filter_by(...).first()`: the position of the first row satisfying `p`. */
  function FirstWhere<T>(s: seq<T>, p: T -> bool): (r: Option<nat>)
    ensures r.None? <==> forall i :: 0 <= i < |s| ==> !p(s[i])
    ensures r.Some? ==> r.value < |s| && p(s[r.value])
    ensures r.Some? ==> forall i :: 0 <= i < r.value ==> !p(s[i])
  {
    if s == [] then None
    else match FirstWhere(s[..|s| - 1], p)
      case Some(k) => Some(k)
      case None => if p(s[|s| - 1]) then Some(|s| - 1) else None
  }

  /** `filter_by(...).count()`. */
  function CountWhere<T>(s: seq<T>, p: T -> bool): (n: nat)
    ensures n <= |s|
    ensures n == 0 <==> forall i :: 0 <= i < |s| ==> !p(s[i])
  {
    if s == [] then 0
    else CountWhere(s[..|s| - 1], p) + (if p(s[|s| - 1]) then 1 else 0)
  }

  /** The positions of the table holding a matching row. */
  function Positions<T>(s: seq<T>, p: T -> bool): set<int> {
    set i | 0 <= i < |s| && p(s[i])
  }

  /** `.count()` is the number of positions holding a matching row. */
  lemma {:induction false} CountIsMatchingPositions<T>(s: seq<T>, p: T -> bool)
    ensures CountWhere(s, p) == |Positions(s, p)|
    decreases |s|
  {
    if s != [] {
      var pre := s[..|s| - 1];
      CountIsMatchingPositions(pre, p);
      var before := Positions(pre, p);
      var all := Positions(s, p);
      assert forall i :: 0 <= i < |pre| ==> pre[i] == s[i];
      if p(s[|s| - 1]) {
        assert all == before + {|s| - 1};
        assert |s| - 1 !in before;
      } else {
        assert all == before;
      }
    }
  }

  lemma {:induction false} CountIsFilterLength<T>(s: seq<T>, p: T -> bool)
    ensures CountWhere(s, p) == |FilterWhere(s, p)|
    decreases |s|
  {
    if s != [] {
      CountIsFilterLength(s[..|s| - 1], p);
    }
  }

  /** Counting rows that satisfy a stronger condition never gives more. */
  lemma {:induction false} CountMonotone<T>(s: seq<T>, p: T -> bool, q: T -> bool)
    requires forall x :: p(x) ==> q(x)
    ensures CountWhere(s, p) <= CountWhere(s, q)
    decreases |s|
  {
    if s != [] {
      CountMonotone(s[..|s| - 1], p, q);
    }
  }

  ghost predicate NoDuplicates<T>(s: seq<T>) {
    forall i, j :: 0 <= i < j < |s| ==> s[i] != s[j]
  }

  /** `.distinct()` over one column: each value once, in order of first appearance. */
  function Distinct<T(==)>(s: seq<T>): (r: seq<T>)
    ensures forall i :: 0 <= i < |r| ==> r[i] in s
    ensures forall i :: 0 <= i < |s| ==> s[i] in r
    ensures NoDuplicates(r)
  {
    if s == [] then []
    else
      var d := Distinct(s[..|s| - 1]);
      var x := s[|s| - 1];
      if x in d then d else d + [x]
  }

  /** The first position of `x` in `s`. */
  function IndexOf<T(==)>(s: seq<T>, x: T): (k: nat)
    requires x in s
    ensures k < |s| && s[k] == x && x !in s[..k]
  {
    if s[0] == x then 0 else 1 + IndexOf(s[1..], x)
  }

  /** The values of one column, in row order. */
  function Column<T, U>(s: seq<T>, f: T -> U): (r: seq<U>)
    ensures |r| == |s| && forall i :: 0 <= i < |s| ==> r[i] == f(s[i])
  {
    seq(|s|, i requires 0 <= i < |s| => f(s[i]))
  }

  /** `first()` is determined by its characterisation. */
  lemma FirstWhereAt<T>(s: seq<T>, p: T -> bool, k: nat)
    requires k < |s| && p(s[k]) && forall i :: 0 <= i < k ==> !p(s[i])
    ensures FirstWhere(s, p) == Some(k)
  {
    var v := FirstWhere(s, p).value;
    assert !(v > k);
  }

  /** The first row `filter_by` returns is the row `first()` finds. */
  lemma {:induction false} FilterHeadIsFirst<T>(s: seq<T>, p: T -> bool)
    ensures FilterWhere(s, p) == [] <==> FirstWhere(s, p).None?
    ensures FirstWhere(s, p).Some? ==> FilterWhere(s, p)[0] == s[FirstWhere(s, p).value]
    decreases |s|
  {
    if s != [] {
      var pre := s[..|s| - 1];
      FilterHeadIsFirst(pre, p);
      if FirstWhere(pre, p).Some? {
        assert pre[FirstWhere(pre, p).value] == s[FirstWhere(pre, p).value];
      }
    }
  }

  /** One more row either repeats a value already seen or appends it. */
  lemma DistinctSnoc<T>(s: seq<T>, i: nat)
    requires i < |s|
    ensures Distinct(s[..i + 1]) ==
      if s[i] in Distinct(s[..i]) then Distinct(s[..i]) else Distinct(s[..i]) + [s[i]]
  {
    assert s[..i + 1][..i] == s[..i];
  }

  /** The distinct values of a prefix are a prefix of the distinct values. */
  lemma {:induction false} DistinctPrefix<T>(s: seq<T>, i: nat)
    requires i <= |s|
    ensures Distinct(s[..i]) <= Distinct(s)
    decreases |s| - i
  {
    if i == |s| {
      assert s[..i] == s;
    } else {
      DistinctPrefix(s, i + 1);
      DistinctSnoc(s, i);
    }
  }
}
