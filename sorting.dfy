/**
 * The row order SQLite produces for an `ORDER BY` clause, as an insertion
 * sort over a total preorder. Rows that compare equal under the clause may
 * come out in any order, so the sort is specified only by sortedness and
 * permutation.
 */
module Sorting {

  ghost predicate Total<T(!new)>(le: (T, T) -> bool) {
    forall x, y :: le(x, y) || le(y, x)
  }

  ghost predicate Transitive<T(!new)>(le: (T, T) -> bool) {
    forall x, y, z :: le(x, y) && le(y, z) ==> le(x, z)
  }

  ghost predicate SortedBy<T>(s: seq<T>, le: (T, T) -> bool) {
    forall i, j :: 0 <= i < j < |s| ==> le(s[i], s[j])
  }

  /** Inserts `x` after every element that may precede it. */
  method InsertSorted<T(!new)>(s: seq<T>, x: T, le: (T, T) -> bool) returns (r: seq<T>)
    requires Total(le) && Transitive(le)
    requires SortedBy(s, le)
    ensures SortedBy(r, le)
    ensures multiset(r) == multiset(s) + multiset{x}
  {
    var k := 0;
    while k < |s| && le(s[k], x)
      invariant 0 <= k <= |s|
      invariant forall i :: 0 <= i < k ==> le(s[i], x)
    {
      k := k + 1;
    }
    r := s[..k] + [x] + s[k..];
    assert s == s[..k] + s[k..];
    InsertedAtSorted(s, x, k, le);
  }

  /** Putting `x` after the prefix that may precede it keeps the sequence sorted. */
  lemma InsertedAtSorted<T(!new)>(s: seq<T>, x: T, k: int, le: (T, T) -> bool)
    requires Total(le) && Transitive(le) && SortedBy(s, le)
    requires 0 <= k <= |s| && (forall i :: 0 <= i < k ==> le(s[i], x))
    requires k < |s| ==> !le(s[k], x)
    ensures SortedBy(s[..k] + [x] + s[k..], le)
  {
    var r := s[..k] + [x] + s[k..];
    forall i, j | 0 <= i < j < |r|
      ensures le(r[i], r[j])
    {
      if j < k {
        assert r[i] == s[i] && r[j] == s[j];
      } else if j == k {
        assert r[i] == s[i] && r[j] == x;
      } else if i < k {
        assert r[i] == s[i] && r[j] == s[j - 1];
      } else if i == k {
        assert r[i] == x && r[j] == s[j - 1];
        PrecedesLater(s, x, k, j - 1, le);
      } else {
        assert r[i] == s[i - 1] && r[j] == s[j - 1];
      }
    }
  }

  /** An element that does not follow `s[k]` precedes every element from `k` on. */
  lemma PrecedesLater<T(!new)>(s: seq<T>, x: T, k: int, m: int, le: (T, T) -> bool)
    requires Total(le) && Transitive(le) && SortedBy(s, le)
    requires 0 <= k <= m < |s| && !le(s[k], x)
    ensures le(x, s[m])
  {
    assert le(x, s[k]);
    if k < m {
      assert le(s[k], s[m]);
    }
  }

  /** The rows of `s` in the order `le` prescribes. */
  method SortBy<T(!new)>(s: seq<T>, le: (T, T) -> bool) returns (r: seq<T>)
    requires Total(le) && Transitive(le)
    ensures SortedBy(r, le)
    ensures multiset(r) == multiset(s)
  {
    r := [];
    for i := 0 to |s|
      invariant SortedBy(r, le)
      invariant multiset(r) == multiset(s[..i])
    {
      r := InsertSorted(r, s[i], le);
      assert s[..i + 1] == s[..i] + [s[i]];
    }
    assert s[..|s|] == s;
  }

  // ---- Reading keyed rows ----

  /** `s` lists every element of `xs` exactly once, in some order. */
  ghost predicate Enumerates<T(!new)>(s: seq<T>, xs: set<T>) {
    |s| == |xs| && forall x :: x in s <==> x in xs
  }

  /** The elements of a set in an order nobody promises, as a table scan without ORDER BY returns them. */
  method Enumerate<T(!new)>(xs: set<T>) returns (s: seq<T>)
    ensures Enumerates(s, xs)
  {
    s := [];
    var rest := xs;
    while rest != {}
      invariant rest <= xs
      invariant |s| + |rest| == |xs|
      invariant forall x :: x in s <==> x in xs && x !in rest
      decreases |rest|
    {
      var x :| x in rest;
      s := s + [x];
      rest := rest - {x};
    }
  }

  /** `r` holds the rows of `m` whose keys are in `keys`, each once, paired with its key. */
  ghost predicate RowsOf<V(!new)>(r: seq<(int, V)>, keys: set<int>, m: map<int, V>) {
    |r| == |keys|
    && (forall x :: x in r ==> x.0 in keys && x.0 in m && x.1 == m[x.0])
    && (forall i :: i in keys ==> exists k :: 0 <= k < |r| && r[k].0 == i)
  }

  /** `SELECT ... WHERE <key in keys> ORDER BY <le>` over one table. */
  method SortedRows<V(!new)>(m: map<int, V>, keys: set<int>, le: ((int, V), (int, V)) -> bool) returns (r: seq<(int, V)>)
    requires keys <= m.Keys
    requires Total(le) && Transitive(le)
    ensures RowsOf(r, keys, m)
    ensures SortedBy(r, le)
  {
    var ids := Enumerate(keys);
    var rows := seq(|ids|, k requires 0 <= k < |ids| && ids[k] in m => (ids[k], m[ids[k]]));
    r := SortBy(rows, le);
    PermutedRows(keys, ids, m, rows, r);
  }

  lemma PermutedRows<V(!new)>(keys: set<int>, ids: seq<int>, m: map<int, V>, rows: seq<(int, V)>, r: seq<(int, V)>)
    requires Enumerates(ids, keys) && keys <= m.Keys
    requires |rows| == |ids| && forall k :: 0 <= k < |ids| ==> rows[k] == (ids[k], m[ids[k]])
    requires multiset(r) == multiset(rows)
    ensures RowsOf(r, keys, m)
  {
    assert |r| == |multiset(r)| == |multiset(rows)| == |rows|;
    forall x | x in r
      ensures x.0 in keys && x.0 in m && x.1 == m[x.0]
    {
      assert x in multiset(rows);
      var k :| 0 <= k < |rows| && rows[k] == x;
    }
    forall i | i in keys
      ensures exists k :: 0 <= k < |r| && r[k].0 == i
    {
      var j :| 0 <= j < |ids| && ids[j] == i;
      assert rows[j] in multiset(r);
      var k :| 0 <= k < |r| && r[k] == rows[j];
    }
  }
}
