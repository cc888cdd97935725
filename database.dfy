/** The relational store the handlers read and write: one map per table from
    primary key to row, and the sequence that hands out primary keys. */
module Database {
  import opened Models

  /** Every row of a table is stored under its own id, and every id is positive
      and below the next value of the id sequence. */
  ghost predicate Keyed<T>(table: map<nat, T>, id: T -> nat, bound: nat) {
    forall k :: k in table ==> id(table[k]) == k && 0 < k < bound
  }

  class Db {
    var users: map<nat, User>
    var menus: map<nat, Menu>
    var foods: map<nat, Food>
    var orders: map<nat, Order>
    var orderItems: map<nat, OrderItem>
    var tables: map<nat, Table>
    var invoices: map<nat, Invoice>
    /** The next primary key to hand out. */
    var nextId: nat

    ghost predicate Valid()
      reads this
    {
      && 0 < nextId
      && Keyed(users, (u: User) => u.id, nextId)
      && Keyed(menus, (m: Menu) => m.id, nextId)
      && Keyed(foods, (f: Food) => f.id, nextId)
      && Keyed(orders, (o: Order) => o.id, nextId)
      && Keyed(orderItems, (it: OrderItem) => it.id, nextId)
      && Keyed(tables, (t: Table) => t.id, nextId)
      && Keyed(invoices, (inv: Invoice) => inv.id, nextId)
    }

    constructor ()
      ensures Valid() && nextId == 1
      ensures users == map[] && menus == map[] && foods == map[] && orders == map[]
      ensures orderItems == map[] && tables == map[] && invoices == map[]
    {
      users, menus, foods, orders := map[], map[], map[], map[];
      orderItems, tables, invoices := map[], map[], map[];
      nextId := 1;
    }

    /** Draws the next primary key: it is used by no row of any table. */
    method FreshId() returns (id: nat)
      requires Valid()
      modifies this`nextId
      ensures Valid()
      ensures id == old(nextId) && nextId == id + 1
    {
      id := nextId;
      nextId := nextId + 1;
    }

    /** Inserts a batch of order items in one statement: item i of the batch
        under the next primary key plus i. */
    method CreateOrderItems(batch: seq<OrderItem>)
      requires Valid()
      modifies this`orderItems, this`nextId
      ensures Valid()
      ensures nextId == old(nextId) + |batch|
      ensures orderItems == old(orderItems) + Numbered(batch, old(nextId))
    {
      orderItems := orderItems + Numbered(batch, nextId);
      nextId := nextId + |batch|;
    }
  }

  /** The rows a batch insert adds: row i of the batch under key first + i,
      with its id set to that key. */
  function Numbered(rows: seq<OrderItem>, first: nat): (m: map<nat, OrderItem>)
    ensures forall k :: k in m <==> first <= k < first + |rows|
    ensures forall k :: k in m ==> m[k].id == k
    ensures forall i :: 0 <= i < |rows| ==> m[first + i] == rows[i].(id := first + i)
  {
    if rows == [] then map[]
    else
      var last := first + |rows| - 1;
      Numbered(rows[..|rows| - 1], first)[last := rows[|rows| - 1].(id := last)]
  }

  /** The keys of a table in ascending order. */
  function SortedIds(keys: set<nat>): (r: seq<nat>)
    ensures |r| == |keys|
    ensures forall i :: 0 <= i < |r| ==> r[i] in keys
    ensures forall k :: k in keys ==> k in r
    ensures forall i, j :: 0 <= i < j < |r| ==> r[i] < r[j]
    decreases keys
  {
    if keys == {} then []
    else
      var m := LeastKey(keys);
      var rest := SortedIds(keys - {m});
      SortedCons(keys, m, rest);
      [m] + rest
  }

  /** The least key in front of the sorted list of the others is the sorted
      list of them all. */
  lemma SortedCons(keys: set<nat>, m: nat, rest: seq<nat>)
    requires m in keys && forall k :: k in keys ==> m <= k
    requires |rest| == |keys - {m}|
    requires forall i :: 0 <= i < |rest| ==> rest[i] in keys - {m}
    requires forall k :: k in keys - {m} ==> k in rest
    requires forall i, j :: 0 <= i < j < |rest| ==> rest[i] < rest[j]
    ensures var r := [m] + rest;
            && |r| == |keys|
            && (forall i :: 0 <= i < |r| ==> r[i] in keys)
            && (forall k :: k in keys ==> k in r)
            && (forall i, j :: 0 <= i < j < |r| ==> r[i] < r[j])
  {
    var r := [m] + rest;
    RemoveOne(keys, m);
    forall i | 0 <= i < |r| ensures r[i] in keys {
      if i > 0 {
        assert r[i] == rest[i - 1];
      }
    }
    forall k | k in keys ensures k in r {
      if k != m {
        assert k in rest;
      }
    }
    forall i, j | 0 <= i < j < |r| ensures r[i] < r[j] {
      assert r[j] == rest[j - 1];
      if i > 0 {
        assert r[i] == rest[i - 1];
      }
    }
  }

  /** Removing a member takes one from a set's size. */
  lemma RemoveOne(keys: set<nat>, m: nat)
    requires m in keys
    ensures |keys - {m}| == |keys| - 1
  {
    assert keys == (keys - {m}) + {m};
  }

  /** The least key of a non-empty set of keys. */
  function LeastKey(keys: set<nat>): (m: nat)
    requires keys != {}
    ensures m in keys && forall k :: k in keys ==> m <= k
  {
    var x :| x in keys;
    MinimumExists(keys, x);
    var m :| m in keys && forall k :: k in keys ==> m <= k;
    m
  }

  /** A set of keys holding `x` has a least element: either `x` is one, or a
      smaller key of the set has one below it. */
  lemma {:induction false} MinimumExists(keys: set<nat>, x: nat)
    requires x in keys
    ensures exists m :: m in keys && forall k :: k in keys ==> m <= k
    decreases x
  {
    if y :| y in keys && y < x {
      MinimumExists(keys, y);
    } else {
      assert x in keys && forall k :: k in keys ==> x <= k;
    }
  }

  /** A full scan of a table. The queries of the handlers carry no ORDER BY; the
      model reads rows in ascending key order. */
  function RowsById<T(==)>(table: map<nat, T>): (r: seq<T>)
    ensures |r| == |table|
    ensures forall i :: 0 <= i < |r| ==> r[i] in table.Values
    ensures forall k :: k in table ==> table[k] in r
  {
    var ids := SortedIds(table.Keys);
    var r := RowsAtKeys(table, ids);
    EveryRowListed(table, ids, r);
    r
  }

  /** The rows stored under a list of keys of the table, in the list's order. */
  function RowsAtKeys<T(==)>(table: map<nat, T>, ids: seq<nat>): (r: seq<T>)
    requires forall i :: 0 <= i < |ids| ==> ids[i] in table
    ensures |r| == |ids|
    ensures forall i :: 0 <= i < |ids| ==> r[i] == table[ids[i]] && r[i] in table.Values
  {
    if ids == [] then []
    else [table[ids[0]]] + RowsAtKeys(table, ids[1..])
  }

  /** Rows looked up by a list of keys that covers the table include every row. */
  lemma EveryRowListed<T>(table: map<nat, T>, ids: seq<nat>, r: seq<T>)
    requires forall k :: k in table ==> k in ids
    requires |r| == |ids| && forall i :: 0 <= i < |ids| ==> ids[i] in table && r[i] == table[ids[i]]
    ensures forall k :: k in table ==> table[k] in r
  {
    forall k | k in table ensures table[k] in r {
      var i :| 0 <= i < |ids| && ids[i] == k;
      assert r[i] == table[k];
    }
  }

  function Min(a: int, b: int): int {
    if a <= b then a else b
  }

  /** `OFFSET offset LIMIT limit` over rows in scan order. */
  function Window<T>(rows: seq<T>, offset: nat, limit: nat): (r: seq<T>)
    ensures |r| == if offset >= |rows| then 0 else Min(limit, |rows| - offset)
    ensures forall i :: 0 <= i < |r| ==> r[i] == rows[offset + i]
  {
    if offset >= |rows| then [] else rows[offset..offset + Min(limit, |rows| - offset)]
  }

  /** A window of limit + 1 rows, less its last row when it is full, is the
      window of limit rows; it is full exactly when rows remain past the window. */
  lemma {:induction false} OverFetch<T>(rows: seq<T>, offset: nat, limit: nat)
    ensures var wide := Window(rows, offset, limit + 1);
            (|wide| > limit <==> |rows| > offset + limit) &&
            (if |wide| > limit then wide[..|wide| - 1] else wide) == Window(rows, offset, limit)
  {
  }
}
