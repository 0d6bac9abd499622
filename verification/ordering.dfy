/**
 * `ORDER BY a ASC, b ASC` on two integer columns, as used by every permission
 * query of the core (module id first, permission id second).  The database's
 * sort is modelled by a stable insertion sort on the rows of the join.
 */
module Ordering {
  import opened Query

  /** Lexicographic order on (first column, second column). */
  predicate KeyLeq(x: (int, int), y: (int, int)) {
    x.0 < y.0 || (x.0 == y.0 && x.1 <= y.1)
  }

  /** Every earlier row's key is at most every later row's key. */
  ghost predicate SortedBy<T>(s: seq<T>, key: T -> (int, int)) {
    forall i, j :: 0 <= i < j < |s| ==> KeyLeq(key(s[i]), key(s[j]))
  }

  /** Inserts `x` in front of the first row whose key is not smaller. */
  function Insert<T(==)>(x: T, s: seq<T>, key: T -> (int, int)): (r: seq<T>)
    ensures multiset(r) == multiset(s) + multiset{x}
    ensures |r| == |s| + 1
  {
    if s == [] then [x]
    else if KeyLeq(key(x), key(s[0])) then [x] + s
    else
      assert s == [s[0]] + s[1..];
      [s[0]] + Insert(x, s[1..], key)
  }

  lemma {:induction false} InsertSorted<T>(x: T, s: seq<T>, key: T -> (int, int))
    requires SortedBy(s, key)
    ensures SortedBy(Insert(x, s, key), key)
  {
    if s != [] && !KeyLeq(key(x), key(s[0])) {
      var t := s[1..];
      assert SortedBy(t, key);
      InsertSorted(x, t, key);
      var r := Insert(x, t, key);
      forall k | 0 <= k < |r| ensures KeyLeq(key(s[0]), key(r[k])) {
        assert r[k] in multiset(r);
        if r[k] != x {
          assert r[k] in multiset(t);
          var m :| 0 <= m < |t| && t[m] == r[k];
          assert t[m] == s[m + 1];
        }
      }
    }
  }

  /** The rows of `s` in ascending key order; rows with equal keys keep their order. */
  function OrderBy<T(==)>(s: seq<T>, key: T -> (int, int)): (r: seq<T>)
    ensures multiset(r) == multiset(s)
    ensures |r| == |s|
  {
    if s == [] then []
    else
      assert s == [s[0]] + s[1..];
      Insert(s[0], OrderBy(s[1..], key), key)
  }

  lemma {:induction false} OrderBySorted<T>(s: seq<T>, key: T -> (int, int))
    ensures SortedBy(OrderBy(s, key), key)
  {
    if s != [] {
      OrderBySorted(s[1..], key);
      InsertSorted(s[0], OrderBy(s[1..], key), key);
    }
  }

  /** Sorting keeps exactly the rows it was given. */
  lemma OrderByMembers<T>(s: seq<T>, key: T -> (int, int))
    ensures forall x :: x in OrderBy(s, key) <==> x in s
  {
    assert forall x :: x in OrderBy(s, key) <==> x in multiset(OrderBy(s, key));
    assert forall x :: x in s <==> x in multiset(s);
  }

  /** Uniquing a sorted result keeps it sorted. */
  lemma {:induction false} DistinctSorted<T(!new)>(s: seq<T>, key: T -> (int, int))
    requires SortedBy(s, key)
    ensures SortedBy(Distinct(s), key)
  {
    if s != [] {
      var p, last := s[..|s| - 1], s[|s| - 1];
      assert s == p + [last];
      assert SortedBy(p, key);
      DistinctSorted(p, key);
      var d := Distinct(p);
      forall k | 0 <= k < |d| ensures KeyLeq(key(d[k]), key(last)) {
        assert d[k] in p;
        var m :| 0 <= m < |p| && p[m] == d[k];
        assert s[m] == p[m];
      }
    }
  }

  /** Sorting then uniquing: sorted, the same rows, one per distinct row. */
  lemma SortedDistinctRows<T(!new)>(s: seq<T>, key: T -> (int, int))
    ensures SortedBy(Distinct(OrderBy(s, key)), key)
    ensures forall x :: x in Distinct(OrderBy(s, key)) <==> x in s
    ensures |Distinct(OrderBy(s, key))| == |set x | x in s|
  {
    var sorted := OrderBy(s, key);
    OrderBySorted(s, key);
    OrderByMembers(s, key);
    DistinctSorted(sorted, key);
    DistinctCount(sorted);
    assert (set x | x in sorted) == (set x | x in s);
  }
}
