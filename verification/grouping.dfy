/**
 * The "group rows by module" loop that the core writes four times: a dictionary
 * keyed by the grouping column is filled in row order; a key seen for the first
 * time opens a new group (with a header taken from that row), and every row
 * appends its item to its key's group.  Python dictionaries keep insertion
 * order, so the groups come out in order of first appearance.
 *
 * `GroupRows` is the specification (a left fold of `Add`), `GroupBy` the loop
 * with its dictionary, and the lemmas state what the grouping promises.
 */
module Grouping {
  import Ordering

  /** One row of the query: its grouping key, the group header it would open, and its item. */
  datatype Row<K, H, V> = Row(key: K, header: H, item: V)

  /** One entry of the resulting dictionary. */
  datatype Group<K, H, V> = Group(key: K, header: H, items: seq<V>)

  function Keys<K, H, V>(gs: seq<Group<K, H, V>>): seq<K>
  {
    seq(|gs|, i requires 0 <= i < |gs| => gs[i].key)
  }

  function RowKeys<K, H, V>(rows: seq<Row<K, H, V>>): seq<K>
  {
    seq(|rows|, i requires 0 <= i < |rows| => rows[i].key)
  }

  /** Position of the first occurrence of `k` in `ks`, or -1. */
  function IndexOf<K(==)>(ks: seq<K>, k: K): (r: int)
    ensures -1 <= r < |ks|
    ensures 0 <= r ==> ks[r] == k && k !in ks[..r]
    ensures r == -1 <==> k !in ks
  {
    if ks == [] then -1
    else if ks[0] == k then 0
    else
      var j := IndexOf(ks[1..], k);
      assert ks == [ks[0]] + ks[1..];
      if j < 0 then -1
      else
        assert ks[..j + 1] == [ks[0]] + ks[1..][..j];
        j + 1
  }

  /** The loop body: append `r.item` to the group of `r.key`, opening the group if needed. */
  function Add<K(==), H, V>(gs: seq<Group<K, H, V>>, r: Row<K, H, V>): seq<Group<K, H, V>>
  {
    var j := IndexOf(Keys(gs), r.key);
    if j < 0 then gs + [Group(r.key, r.header, [r.item])]
    else gs[j := gs[j].(items := gs[j].items + [r.item])]
  }

  /** The dictionary's values after the loop has seen every row. */
  function GroupRows<K(==), H, V>(rows: seq<Row<K, H, V>>): seq<Group<K, H, V>>
  {
    if rows == [] then []
    else Add(GroupRows(rows[..|rows| - 1]), rows[|rows| - 1])
  }

  /** Reference definition: the items of the rows with key `k`, in row order. */
  function ItemsWithKey<K(==), H, V>(rows: seq<Row<K, H, V>>, k: K): seq<V>
  {
    if rows == [] then []
    else ItemsWithKey(rows[..|rows| - 1], k)
         + (if rows[|rows| - 1].key == k then [rows[|rows| - 1].item] else [])
  }

  /** Number of items over all groups. */
  function TotalItems<K, H, V>(gs: seq<Group<K, H, V>>): nat
  {
    if gs == [] then 0 else |gs[0].items| + TotalItems(gs[1..])
  }

  /**
   * The dictionary loop itself: `position` plays the dictionary's hashing, mapping
   * each key seen so far to the place of its group in insertion order.
   */
  method GroupBy<K(==), H, V>(rows: seq<Row<K, H, V>>) returns (groups: seq<Group<K, H, V>>)
    ensures groups == GroupRows(rows)
  {
    groups := [];
    var position: map<K, nat> := map[];
    var i := 0;
    while i < |rows|
      invariant 0 <= i <= |rows|
      invariant groups == GroupRows(rows[..i])
      invariant forall k :: k in position <==> k in Keys(groups)
      invariant forall k :: k in position ==> position[k] == IndexOf(Keys(groups), k)
    {
      var r := rows[i];
      assert rows[..i + 1][..i] == rows[..i];
      ghost var before := groups;
      if r.key !in position {
        OpenGroup(before, r);
        position := position[r.key := |groups|];
        groups := groups + [Group(r.key, r.header, [r.item])];
      } else {
        var j := position[r.key];
        ExtendGroup(before, r);
        groups := groups[j := groups[j].(items := groups[j].items + [r.item])];
      }
      i := i + 1;
    }
    assert rows[..|rows|] == rows;
  }

  /** A row with a new key opens a group at the end; the other keys keep their places. */
  lemma OpenGroup<K, H, V>(gs: seq<Group<K, H, V>>, r: Row<K, H, V>)
    requires r.key !in Keys(gs)
    ensures Add(gs, r) == gs + [Group(r.key, r.header, [r.item])]
    ensures Keys(Add(gs, r)) == Keys(gs) + [r.key]
    ensures IndexOf(Keys(Add(gs, r)), r.key) == |gs|
    ensures forall k :: k in Keys(gs) ==> IndexOf(Keys(Add(gs, r)), k) == IndexOf(Keys(gs), k)
  {
    assert Keys(Add(gs, r)) == Keys(gs) + [r.key];
    forall k | k in Keys(gs) ensures IndexOf(Keys(Add(gs, r)), k) == IndexOf(Keys(gs), k) {
      IndexOfSnoc(Keys(gs), r.key, k);
    }
    IndexOfSnoc(Keys(gs), r.key, r.key);
  }

  /** A row with a known key extends that key's group; the keys stay as they were. */
  lemma ExtendGroup<K, H, V>(gs: seq<Group<K, H, V>>, r: Row<K, H, V>)
    requires r.key in Keys(gs)
    ensures var j := IndexOf(Keys(gs), r.key);
      0 <= j < |gs| && Add(gs, r) == gs[j := gs[j].(items := gs[j].items + [r.item])]
    ensures Keys(Add(gs, r)) == Keys(gs)
  {
  }

  lemma IndexOfSnoc<K>(ks: seq<K>, x: K, k: K)
    ensures IndexOf(ks + [x], k) == if k in ks then IndexOf(ks, k) else if x == k then |ks| else -1
  {
    if k in ks {
      var q := IndexOf(ks, k);
      assert (ks + [x])[q] == k;
      assert (ks + [x])[..q] == ks[..q];
    } else if x == k {
      assert (ks + [x])[|ks|] == k;
      assert (ks + [x])[..|ks|] == ks;
    }
  }

  /** One group per key. */
  ghost predicate DistinctKeys<K, H, V>(gs: seq<Group<K, H, V>>) {
    forall a, b :: 0 <= a < b < |gs| ==> gs[a].key != gs[b].key
  }

  /** The groups' keys are exactly the rows' keys. */
  ghost predicate SameKeys<K, H, V>(rows: seq<Row<K, H, V>>, gs: seq<Group<K, H, V>>) {
    && (forall a :: 0 <= a < |gs| ==> gs[a].key in RowKeys(rows))
    && (forall i :: 0 <= i < |rows| ==> rows[i].key in Keys(gs))
  }

  /** Groups appear in the order in which their keys first appear among the rows. */
  ghost predicate FirstAppearanceOrder<K, H, V>(rows: seq<Row<K, H, V>>, gs: seq<Group<K, H, V>>) {
    forall a, b :: 0 <= a < b < |gs| ==>
      IndexOf(RowKeys(rows), gs[a].key) < IndexOf(RowKeys(rows), gs[b].key)
  }

  /** A group's header is the one of the first row with its key. */
  ghost predicate HeadersFromFirstRow<K, H, V>(rows: seq<Row<K, H, V>>, gs: seq<Group<K, H, V>>) {
    forall a :: 0 <= a < |gs| ==>
      0 <= IndexOf(RowKeys(rows), gs[a].key)
      && gs[a].header == rows[IndexOf(RowKeys(rows), gs[a].key)].header
  }

  /** A group holds the items of exactly the rows with its key, in row order. */
  ghost predicate ItemsInRowOrder<K, H, V>(rows: seq<Row<K, H, V>>, gs: seq<Group<K, H, V>>) {
    forall a :: 0 <= a < |gs| ==> gs[a].items == ItemsWithKey(rows, gs[a].key)
  }

  /** Everything the grouping promises about the groups `gs` built from `rows`. */
  ghost predicate Grouped<K, H, V>(rows: seq<Row<K, H, V>>, gs: seq<Group<K, H, V>>) {
    && DistinctKeys(gs)
    && SameKeys(rows, gs)
    && FirstAppearanceOrder(rows, gs)
    && HeadersFromFirstRow(rows, gs)
    && ItemsInRowOrder(rows, gs)
  }

  lemma {:induction false} ItemsWithAbsentKey<K, H, V>(rows: seq<Row<K, H, V>>, k: K)
    requires k !in RowKeys(rows)
    ensures ItemsWithKey(rows, k) == []
  {
    if rows != [] {
      var p := rows[..|rows| - 1];
      assert RowKeys(rows) == RowKeys(p) + [rows[|rows| - 1].key];
      ItemsWithAbsentKey(p, k);
    }
  }

  lemma ItemsSnoc<K, H, V>(p: seq<Row<K, H, V>>, r: Row<K, H, V>, k: K)
    ensures ItemsWithKey(p + [r], k) == ItemsWithKey(p, k) + (if r.key == k then [r.item] else [])
  {
    assert (p + [r])[..|p|] == p;
  }

  lemma RowKeysSnoc<K, H, V>(p: seq<Row<K, H, V>>, r: Row<K, H, V>)
    ensures RowKeys(p + [r]) == RowKeys(p) + [r.key]
    ensures forall k :: k in RowKeys(p) ==> IndexOf(RowKeys(p + [r]), k) == IndexOf(RowKeys(p), k)
    ensures r.key !in RowKeys(p) ==> IndexOf(RowKeys(p + [r]), r.key) == |p|
  {
    assert RowKeys(p + [r]) == RowKeys(p) + [r.key];
    forall k | k in RowKeys(p) ensures IndexOf(RowKeys(p + [r]), k) == IndexOf(RowKeys(p), k) {
      IndexOfSnoc(RowKeys(p), r.key, k);
    }
    IndexOfSnoc(RowKeys(p), r.key, r.key);
  }

  /** The groups are determined by the rows: one per key, first-appearance order, nothing lost. */
  lemma {:induction false} GroupRowsGrouped<K, H, V>(rows: seq<Row<K, H, V>>)
    ensures Grouped(rows, GroupRows(rows))
  {
    if rows != [] {
      var p := rows[..|rows| - 1];
      var r := rows[|rows| - 1];
      assert rows == p + [r];
      GroupRowsGrouped(p);
      var g := GroupRows(p);
      assert GroupRows(rows) == Add(g, r);
      if r.key in Keys(g) {
        AddExisting(p, r, g);
      } else {
        AddNew(p, r, g);
      }
    }
  }

  lemma AddExisting<K, H, V>(p: seq<Row<K, H, V>>, r: Row<K, H, V>, g: seq<Group<K, H, V>>)
    requires Grouped(p, g) && r.key in Keys(g)
    ensures Grouped(p + [r], Add(g, r))
  {
    RowKeysSnoc(p, r);
    var j := IndexOf(Keys(g), r.key);
    assert g[j].key == r.key;
    ExistingDistinct(g, j, r.item);
    ExistingSameKeys(p, r, g, j);
    ExistingOrder(p, r, g, j);
    ExistingHeaders(p, r, g, j);
    ExistingItems(p, r, g, j);
  }

  lemma AddNew<K, H, V>(p: seq<Row<K, H, V>>, r: Row<K, H, V>, g: seq<Group<K, H, V>>)
    requires Grouped(p, g) && r.key !in Keys(g)
    ensures Grouped(p + [r], Add(g, r))
  {
    RowKeysSnoc(p, r);
    assert r.key !in RowKeys(p);
    NewDistinct(g, r);
    NewSameKeys(p, r, g);
    NewOrder(p, r, g);
    NewHeaders(p, r, g);
    NewItems(p, r, g);
  }

  // ----- a row whose key already has a group -----

  lemma ExistingDistinct<K, H, V>(g: seq<Group<K, H, V>>, j: nat, v: V)
    requires j < |g| && DistinctKeys(g)
    ensures DistinctKeys(g[j := g[j].(items := g[j].items + [v])])
  {
  }

  lemma ExistingSameKeys<K, H, V>(p: seq<Row<K, H, V>>, r: Row<K, H, V>, g: seq<Group<K, H, V>>, j: nat)
    requires SameKeys(p, g) && j < |g| && g[j].key == r.key
    requires RowKeys(p + [r]) == RowKeys(p) + [r.key]
    ensures SameKeys(p + [r], g[j := g[j].(items := g[j].items + [r.item])])
  {
    var g' := g[j := g[j].(items := g[j].items + [r.item])];
    assert Keys(g') == Keys(g);
    assert r.key in Keys(g) by { assert Keys(g)[j] == r.key; }
    forall i | 0 <= i < |p + [r]| ensures (p + [r])[i].key in Keys(g') {
      if i < |p| { assert (p + [r])[i] == p[i]; }
    }
    forall a | 0 <= a < |g'| ensures g'[a].key in RowKeys(p + [r]) {
      assert g'[a].key == g[a].key;
    }
  }

  lemma ExistingOrder<K, H, V>(p: seq<Row<K, H, V>>, r: Row<K, H, V>, g: seq<Group<K, H, V>>, j: nat)
    requires FirstAppearanceOrder(p, g) && j < |g|
    requires forall a :: 0 <= a < |g| ==> g[a].key in RowKeys(p)
    requires forall k :: k in RowKeys(p) ==> IndexOf(RowKeys(p + [r]), k) == IndexOf(RowKeys(p), k)
    ensures FirstAppearanceOrder(p + [r], g[j := g[j].(items := g[j].items + [r.item])])
  {
    var g' := g[j := g[j].(items := g[j].items + [r.item])];
    forall a, b | 0 <= a < b < |g'|
      ensures IndexOf(RowKeys(p + [r]), g'[a].key) < IndexOf(RowKeys(p + [r]), g'[b].key)
    {
      assert g'[a].key == g[a].key && g'[b].key == g[b].key;
    }
  }

  lemma ExistingHeaders<K, H, V>(p: seq<Row<K, H, V>>, r: Row<K, H, V>, g: seq<Group<K, H, V>>, j: nat)
    requires HeadersFromFirstRow(p, g) && j < |g|
    requires forall a :: 0 <= a < |g| ==> g[a].key in RowKeys(p)
    requires forall k :: k in RowKeys(p) ==> IndexOf(RowKeys(p + [r]), k) == IndexOf(RowKeys(p), k)
    ensures HeadersFromFirstRow(p + [r], g[j := g[j].(items := g[j].items + [r.item])])
  {
    var g' := g[j := g[j].(items := g[j].items + [r.item])];
    forall a | 0 <= a < |g'|
      ensures 0 <= IndexOf(RowKeys(p + [r]), g'[a].key)
      ensures g'[a].header == (p + [r])[IndexOf(RowKeys(p + [r]), g'[a].key)].header
    {
      assert g'[a].key == g[a].key && g'[a].header == g[a].header;
      assert g[a].key in RowKeys(p);
      var i := IndexOf(RowKeys(p), g[a].key);
      assert (p + [r])[i] == p[i];
    }
  }

  lemma ExistingItems<K, H, V>(p: seq<Row<K, H, V>>, r: Row<K, H, V>, g: seq<Group<K, H, V>>, j: nat)
    requires ItemsInRowOrder(p, g) && DistinctKeys(g) && j < |g| && g[j].key == r.key
    ensures ItemsInRowOrder(p + [r], g[j := g[j].(items := g[j].items + [r.item])])
  {
    var g' := g[j := g[j].(items := g[j].items + [r.item])];
    forall a | 0 <= a < |g'| ensures g'[a].items == ItemsWithKey(p + [r], g'[a].key) {
      ItemsSnoc(p, r, g[a].key);
      if a != j {
        assert g[a].key != g[j].key;
      }
    }
  }

  // ----- a row whose key opens a new group -----

  lemma NewDistinct<K, H, V>(g: seq<Group<K, H, V>>, r: Row<K, H, V>)
    requires DistinctKeys(g) && r.key !in Keys(g)
    ensures DistinctKeys(g + [Group(r.key, r.header, [r.item])])
  {
    var g' := g + [Group(r.key, r.header, [r.item])];
    forall a, b | 0 <= a < b < |g'| ensures g'[a].key != g'[b].key {
      assert Keys(g)[a] == g[a].key;
    }
  }

  lemma NewSameKeys<K, H, V>(p: seq<Row<K, H, V>>, r: Row<K, H, V>, g: seq<Group<K, H, V>>)
    requires SameKeys(p, g)
    requires RowKeys(p + [r]) == RowKeys(p) + [r.key]
    ensures SameKeys(p + [r], g + [Group(r.key, r.header, [r.item])])
  {
    var g' := g + [Group(r.key, r.header, [r.item])];
    assert Keys(g') == Keys(g) + [r.key];
    forall i | 0 <= i < |p + [r]| ensures (p + [r])[i].key in Keys(g') {
      if i < |p| { assert (p + [r])[i] == p[i]; }
    }
    forall a | 0 <= a < |g'| ensures g'[a].key in RowKeys(p + [r]) {
      if a < |g| { assert g'[a].key == g[a].key; }
    }
  }

  lemma NewOrder<K, H, V>(p: seq<Row<K, H, V>>, r: Row<K, H, V>, g: seq<Group<K, H, V>>)
    requires FirstAppearanceOrder(p, g) && r.key !in RowKeys(p)
    requires forall a :: 0 <= a < |g| ==> g[a].key in RowKeys(p)
    requires forall k :: k in RowKeys(p) ==> IndexOf(RowKeys(p + [r]), k) == IndexOf(RowKeys(p), k)
    requires IndexOf(RowKeys(p + [r]), r.key) == |p|
    ensures FirstAppearanceOrder(p + [r], g + [Group(r.key, r.header, [r.item])])
  {
    var g' := g + [Group(r.key, r.header, [r.item])];
    forall a, b | 0 <= a < b < |g'|
      ensures IndexOf(RowKeys(p + [r]), g'[a].key) < IndexOf(RowKeys(p + [r]), g'[b].key)
    {
      assert g'[a].key == g[a].key;
      assert g[a].key in RowKeys(p);
      if b < |g| { assert g'[b].key == g[b].key; }
    }
  }

  lemma NewHeaders<K, H, V>(p: seq<Row<K, H, V>>, r: Row<K, H, V>, g: seq<Group<K, H, V>>)
    requires HeadersFromFirstRow(p, g)
    requires forall a :: 0 <= a < |g| ==> g[a].key in RowKeys(p)
    requires forall k :: k in RowKeys(p) ==> IndexOf(RowKeys(p + [r]), k) == IndexOf(RowKeys(p), k)
    requires IndexOf(RowKeys(p + [r]), r.key) == |p|
    ensures HeadersFromFirstRow(p + [r], g + [Group(r.key, r.header, [r.item])])
  {
    var g' := g + [Group(r.key, r.header, [r.item])];
    forall a | 0 <= a < |g'|
      ensures 0 <= IndexOf(RowKeys(p + [r]), g'[a].key)
      ensures g'[a].header == (p + [r])[IndexOf(RowKeys(p + [r]), g'[a].key)].header
    {
      if a < |g| {
        assert g'[a] == g[a];
        assert g[a].key in RowKeys(p);
        var i := IndexOf(RowKeys(p), g[a].key);
        assert (p + [r])[i] == p[i];
      } else {
        assert (p + [r])[|p|] == r;
      }
    }
  }

  lemma NewItems<K, H, V>(p: seq<Row<K, H, V>>, r: Row<K, H, V>, g: seq<Group<K, H, V>>)
    requires ItemsInRowOrder(p, g) && r.key !in RowKeys(p)
    requires forall a :: 0 <= a < |g| ==> g[a].key in RowKeys(p)
    ensures ItemsInRowOrder(p + [r], g + [Group(r.key, r.header, [r.item])])
  {
    var g' := g + [Group(r.key, r.header, [r.item])];
    ItemsWithAbsentKey(p, r.key);
    forall a | 0 <= a < |g'| ensures g'[a].items == ItemsWithKey(p + [r], g'[a].key) {
      ItemsSnoc(p, r, g'[a].key);
      if a < |g| {
        assert g'[a] == g[a];
        assert g[a].key in RowKeys(p);
      }
    }
  }

  lemma {:induction false} TotalItemsUpdate<K, H, V>(gs: seq<Group<K, H, V>>, j: nat, v: V)
    requires j < |gs|
    ensures TotalItems(gs[j := gs[j].(items := gs[j].items + [v])]) == TotalItems(gs) + 1
  {
    if j > 0 {
      TotalItemsUpdate(gs[1..], j - 1, v);
      assert gs[j := gs[j].(items := gs[j].items + [v])][1..] == gs[1..][j - 1 := gs[j].(items := gs[j].items + [v])];
    }
  }

  lemma {:induction false} TotalItemsAppend<K, H, V>(gs: seq<Group<K, H, V>>, g: Group<K, H, V>)
    ensures TotalItems(gs + [g]) == TotalItems(gs) + |g.items|
  {
    if gs != [] {
      TotalItemsAppend(gs[1..], g);
      assert (gs + [g])[1..] == gs[1..] + [g];
    }
  }

  /** No row is lost or duplicated: the groups hold as many items as there are rows. */
  lemma {:induction false} GroupRowsTotal<K, H, V>(rows: seq<Row<K, H, V>>)
    ensures TotalItems(GroupRows(rows)) == |rows|
  {
    if rows != [] {
      var p := rows[..|rows| - 1];
      var r := rows[|rows| - 1];
      GroupRowsTotal(p);
      var g := GroupRows(p);
      var j := IndexOf(Keys(g), r.key);
      if j < 0 {
        TotalItemsAppend(g, Group(r.key, r.header, [r.item]));
      } else {
        TotalItemsUpdate(g, j, r.item);
      }
    }
  }

  /** With rows sorted by an integer key, the groups come out in strictly ascending key order. */
  lemma GroupsAscending<H, V>(rows: seq<Row<int, H, V>>)
    requires forall i, j :: 0 <= i < j < |rows| ==> rows[i].key <= rows[j].key
    ensures forall a, b :: 0 <= a < b < |GroupRows(rows)| ==> GroupRows(rows)[a].key < GroupRows(rows)[b].key
  {
    GroupRowsGrouped(rows);
    var gs := GroupRows(rows);
    forall a, b | 0 <= a < b < |gs| ensures gs[a].key < gs[b].key {
      var ia := IndexOf(RowKeys(rows), gs[a].key);
      var ib := IndexOf(RowKeys(rows), gs[b].key);
      assert rows[ia].key == gs[a].key && rows[ib].key == gs[b].key;
    }
  }

  /** An upper bound on the item keys of the rows with key `k` bounds the group's item keys. */
  lemma {:induction false} ItemKeysBounded<K, H, V>(rows: seq<Row<K, H, V>>, itemKey: V -> int, k: K, bound: int)
    requires forall i :: 0 <= i < |rows| && rows[i].key == k ==> itemKey(rows[i].item) <= bound
    ensures forall a :: 0 <= a < |ItemsWithKey(rows, k)| ==> itemKey(ItemsWithKey(rows, k)[a]) <= bound
  {
    if rows != [] {
      var p := rows[..|rows| - 1];
      assert forall i :: 0 <= i < |p| ==> p[i] == rows[i];
      ItemKeysBounded(p, itemKey, k, bound);
    }
  }

  /**
   * With rows sorted by (key, item key), as `ORDER BY module id, permission id` sorts them,
   * each group's items come out in ascending item-key order.
   */
  lemma {:induction false} ItemsSortedWithinGroup<H, V>(rows: seq<Row<int, H, V>>, itemKey: V -> int, k: int)
    requires Ordering.SortedBy(rows, (r: Row<int, H, V>) => (r.key, itemKey(r.item)))
    ensures forall a, b :: 0 <= a < b < |ItemsWithKey(rows, k)| ==>
      itemKey(ItemsWithKey(rows, k)[a]) <= itemKey(ItemsWithKey(rows, k)[b])
  {
    if rows != [] {
      var p := rows[..|rows| - 1];
      var r := rows[|rows| - 1];
      var key := (r: Row<int, H, V>) => (r.key, itemKey(r.item));
      assert Ordering.SortedBy(p, key) by {
        forall i, j | 0 <= i < j < |p| ensures Ordering.KeyLeq(key(p[i]), key(p[j])) {
          assert p[i] == rows[i] && p[j] == rows[j];
        }
      }
      ItemsSortedWithinGroup(p, itemKey, k);
      var xs := ItemsWithKey(p, k);
      if r.key == k {
        forall i | 0 <= i < |p| && p[i].key == k ensures itemKey(p[i].item) <= itemKey(r.item) {
          assert rows[i] == p[i];
          assert Ordering.KeyLeq(key(rows[i]), key(rows[|rows| - 1]));
        }
        ItemKeysBounded(p, itemKey, k, itemKey(r.item));
      }
    }
  }
}
