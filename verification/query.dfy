/**
 * The query shapes the handlers use on a table, modelled on sequences of rows:
 * `query.filter(p).first()`, `query.filter(p).all()`, and the uniquing that
 * `Query.all()` applies to rows made of mapped entities.
 */
module Query {
  import opened Wrappers

  /** `.filter(p).first()`: the position of the first row satisfying `p`, if any. */
  function First<T>(rows: seq<T>, p: T -> bool): (r: Option<nat>)
    ensures r.Some? ==> r.value < |rows| && p(rows[r.value])
    ensures r.Some? ==> forall j :: 0 <= j < r.value ==> !p(rows[j])
    ensures r.None? <==> forall j :: 0 <= j < |rows| ==> !p(rows[j])
  {
    if rows == [] then None
    else if p(rows[0]) then Some(0)
    else match First(rows[1..], p)
      case None => None
      case Some(j) => Some(j + 1)
  }

  /** `.filter(p).all()`: the rows satisfying `p`, in table order. */
  function Filter<T(!new)>(rows: seq<T>, p: T -> bool): (r: seq<T>)
    ensures |r| <= |rows|
    ensures forall x :: x in r <==> x in rows && p(x)
  {
    if rows == [] then []
    else (if p(rows[0]) then [rows[0]] else []) + Filter(rows[1..], p)
  }

  /** The position of the first occurrence of `x` in `rows`. */
  function FirstIndex<T(==)>(rows: seq<T>, x: T): (k: nat)
    requires x in rows
    ensures k < |rows| && rows[k] == x && x !in rows[..k]
  {
    if rows[0] == x then 0
    else
      assert rows[1..][..FirstIndex(rows[1..], x)] == rows[1..1 + FirstIndex(rows[1..], x)];
      1 + FirstIndex(rows[1..], x)
  }

  /** A position holding `x` with no `x` before it is the first occurrence. */
  lemma {:induction false} FirstIndexAt<T>(rows: seq<T>, x: T, k: nat)
    requires k < |rows| && rows[k] == x && x !in rows[..k]
    ensures FirstIndex(rows, x) == k
  {
    if k > 0 {
      assert rows[..k][0] == rows[0];
      assert rows[1..][..k - 1] == rows[1..k];
      assert forall y :: y in rows[1..k] ==> y in rows[..k];
      FirstIndexAt(rows[1..], x, k - 1);
    }
  }

  /** Appending a row leaves the first occurrences of earlier rows where they were. */
  lemma FirstIndexSnoc<T>(p: seq<T>, last: T)
    ensures forall x :: x in p ==> FirstIndex(p + [last], x) == FirstIndex(p, x)
    ensures last !in p ==> FirstIndex(p + [last], last) == |p|
  {
    forall x | x in p
      ensures FirstIndex(p + [last], x) == FirstIndex(p, x)
    {
      var k := FirstIndex(p, x);
      assert (p + [last])[..k] == p[..k];
      FirstIndexAt(p + [last], x, k);
    }
    if last !in p {
      assert (p + [last])[..|p|] == p;
      FirstIndexAt(p + [last], last, |p|);
    }
  }

  /**
   * The uniquing of a legacy `Query` whose rows are mapped entities: the first
   * occurrence of each row, in the order the rows arrive.
   */
  function Distinct<T(==,!new)>(rows: seq<T>): (r: seq<T>)
    ensures |r| <= |rows|
    ensures forall x :: x in r <==> x in rows
    ensures forall i, j :: 0 <= i < j < |r| ==> r[i] != r[j]
    ensures forall i, j :: 0 <= i < j < |r| ==> FirstIndex(rows, r[i]) < FirstIndex(rows, r[j])
  {
    if rows == [] then []
    else
      var p, last := rows[..|rows| - 1], rows[|rows| - 1];
      assert rows == p + [last];
      var d := Distinct(p);
      FirstIndexSnoc(p, last);
      if last in d then d else d + [last]
  }

  /** Uniquing leaves one row per distinct row of the query. */
  lemma {:induction false} DistinctCount<T(!new)>(rows: seq<T>)
    ensures |Distinct(rows)| == |set x | x in rows|
  {
    if rows != [] {
      var p, last := rows[..|rows| - 1], rows[|rows| - 1];
      assert rows == p + [last];
      DistinctCount(p);
      assert (set x | x in rows) == (set x | x in p) + {last};
      if last !in p {
        assert last !in (set x | x in p);
      } else {
        assert (set x | x in rows) == (set x | x in p);
      }
    }
  }
}
