/** controllers/orderItemsController.go: listing the items of one order,
    updating an item, and creating a batch of items for an order. */
module OrderItems {
  import opened Common
  import opened Numbers
  import opened Models
  import opened Database

  /** The request body of CreateOrderItem: the table the order is for and the
      batch of items, which the handler rewrites in place. */
  datatype OrderItemPack = OrderItemPack(tableId: nat, orderItems: array<OrderItem>)

  /** The ids of the items that belong to order `orderId`. */
  function ItemIdsOf(items: map<nat, OrderItem>, orderId: nat): set<nat> {
    set k | k in items.Keys && items[k].orderId == orderId
  }

  /** Every item is stored under its own id, as the primary key makes it. */
  ghost predicate StoredUnderId(items: map<nat, OrderItem>) {
    forall k :: k in items ==> items[k].id == k
  }

  /** ItemsByOrder: the items joined to order `orderId`, by ascending item id.
      The inner join drops every item when the order row itself is missing. */
  function ItemsByOrder(orders: map<nat, Order>, items: map<nat, OrderItem>, orderId: nat)
    : (r: seq<OrderItem>)
    ensures orderId !in orders ==> r == []
    ensures forall i :: 0 <= i < |r| ==> r[i] in items.Values && r[i].orderId == orderId
    ensures orderId in orders ==>
              forall k :: k in items && items[k].orderId == orderId ==> items[k] in r
    ensures orderId in orders ==> |r| == |ItemIdsOf(items, orderId)|
    ensures StoredUnderId(items) ==> forall i, j :: 0 <= i < j < |r| ==> r[i].id < r[j].id
  {
    if orderId !in orders then []
    else
      var ids := SortedIds(ItemIdsOf(items, orderId));
      var r := RowsAt(items, ids, orderId);
      assert forall k :: k in items && items[k].orderId == orderId ==> items[k] in r by {
        forall k | k in items && items[k].orderId == orderId ensures items[k] in r {
          assert k in ItemIdsOf(items, orderId);
          var i :| 0 <= i < |ids| && ids[i] == k;
          assert r[i] == items[k];
        }
      }
      r
  }

  /** The rows stored under the keys `ids`, in the order of `ids`; all of them
      belong to order `orderId`, and ascending keys give ascending ids. */
  function RowsAt(items: map<nat, OrderItem>, ids: seq<nat>, orderId: nat): (r: seq<OrderItem>)
    requires forall i :: 0 <= i < |ids| ==> ids[i] in items && items[ids[i]].orderId == orderId
    ensures |r| == |ids|
    ensures forall i :: 0 <= i < |r| ==> r[i] == items[ids[i]]
    ensures forall i :: 0 <= i < |r| ==> r[i] in items.Values && r[i].orderId == orderId
    ensures StoredUnderId(items) && (forall i, j :: 0 <= i < j < |ids| ==> ids[i] < ids[j]) ==>
              forall i, j :: 0 <= i < j < |r| ==> r[i].id < r[j].id
  {
    seq(|ids|, i requires 0 <= i < |ids| => items[ids[i]])
  }

  /** GetOrderItemsByOrder: the path parameter must be a decimal uint32;
      anything else is a bad request and reads nothing. */
  method GetOrderItemsByOrder(db: Db, orderIdParam: string)
    returns (out: Outcome, orderItems: seq<OrderItem>)
    ensures ParseUint32(orderIdParam).None? ==> out == BadRequest && orderItems == []
    ensures ParseUint32(orderIdParam).Some? ==>
              out == Ok && orderItems == ItemsByOrder(db.orders, db.orderItems, ParseUint32(orderIdParam).value)
  {
    var orderId := ParseUint32(orderIdParam);
    if orderId.None? {
      return BadRequest, [];
    }
    out := Ok;
    orderItems := ItemsByOrder(db.orders, db.orderItems, orderId.value);
  }

  /** The existing item with the non-empty fields of the request laid over it
      (the quantity, the unit price and the food), stamped with `now`. */
  function MergeOrderItem(existing: OrderItem, incoming: OrderItem, now: int): (r: OrderItem)
    ensures r.quantity == if incoming.quantity != "" then incoming.quantity else existing.quantity
    ensures r.unitPrice == if incoming.unitPrice != 0.0 then incoming.unitPrice else existing.unitPrice
    ensures r.foodId == if incoming.foodId != 0 then incoming.foodId else existing.foodId
    ensures r.id == existing.id && r.orderId == existing.orderId && r.createdAt == existing.createdAt
    ensures r.updatedAt == now
  {
    existing.(
      quantity := Pick(incoming.quantity, "", existing.quantity),
      unitPrice := Pick(incoming.unitPrice, 0.0, existing.unitPrice),
      foodId := Pick(incoming.foodId, 0, existing.foodId),
      updatedAt := now)
  }

  /** Sending the same update twice stores what sending it once stores, and an
      update with only zero fields changes nothing but the timestamp. */
  lemma MergeOrderItemIdempotent(existing: OrderItem, incoming: OrderItem, now: int, later: int)
    ensures MergeOrderItem(MergeOrderItem(existing, incoming, now), incoming, later)
            == MergeOrderItem(existing, incoming, later)
    ensures MergeOrderItem(existing, incoming.(quantity := "", unitPrice := 0.0, foodId := 0), now)
            == existing.(updatedAt := now)
  {
  }

  /** UpdateOrderItem: a missing item is a server error (the lookup fails) and
      nothing is written; otherwise the merged row replaces the stored one. */
  method UpdateOrderItem(db: Db, orderItemId: nat, incoming: OrderItem, now: int)
    returns (out: Outcome, saved: OrderItem)
    requires db.Valid()
    modifies db`orderItems
    ensures db.Valid()
    ensures orderItemId !in old(db.orderItems) ==> out == ServerError && db.orderItems == old(db.orderItems)
    ensures orderItemId in old(db.orderItems) ==>
              && out == Ok
              && saved == MergeOrderItem(old(db.orderItems)[orderItemId], incoming, now)
              && db.orderItems == old(db.orderItems)[orderItemId := saved]
  {
    if orderItemId !in db.orderItems {
      out, saved := ServerError, incoming;
      return;
    }
    var existing := db.orderItems[orderItemId];
    if incoming.quantity != "" {
      existing := existing.(quantity := incoming.quantity);
    }
    if incoming.unitPrice != 0.0 {
      existing := existing.(unitPrice := incoming.unitPrice);
    }
    if incoming.foodId != 0 {
      existing := existing.(foodId := incoming.foodId);
    }
    existing := existing.(updatedAt := now);
    db.orderItems := db.orderItems[orderItemId := existing];
    out, saved := Ok, existing;
  }

  /** What one pass of the creation loop makes of an item: it joins order
      `orderId`, carries the request time and has its price rounded to cents. */
  function Stamp(item: OrderItem, orderId: nat, now: int, toFixed2: real -> real): OrderItem {
    item.(orderId := orderId, createdAt := now, updatedAt := now, unitPrice := toFixed2(item.unitPrice))
  }

  /** The batch after the creation loop: every item carries the same order id
      and the request time, and keeps its id, food and quantity. */
  function Stamped(items: seq<OrderItem>, orderId: nat, now: int, toFixed2: real -> real)
    : (r: seq<OrderItem>)
    ensures |r| == |items|
    ensures forall i :: 0 <= i < |r| ==> r[i].orderId == orderId
    ensures forall i :: 0 <= i < |r| ==>
              r[i].id == items[i].id && r[i].foodId == items[i].foodId && r[i].quantity == items[i].quantity
    ensures forall i :: 0 <= i < |r| ==>
              r[i].createdAt == now && r[i].updatedAt == now && r[i].unitPrice == toFixed2(items[i].unitPrice)
  {
    seq(|items|, i requires 0 <= i < |items| => Stamp(items[i], orderId, now, toFixed2))
  }

  /** The creation loop, in place on the batch. */
  method StampBatch(items: array<OrderItem>, orderId: nat, now: int, toFixed2: real -> real)
    modifies items
    ensures items[..] == Stamped(old(items[..]), orderId, now, toFixed2)
  {
    for i := 0 to items.Length
      invariant forall j :: 0 <= j < i ==> items[j] == Stamp(old(items[j]), orderId, now, toFixed2)
      invariant forall j :: i <= j < items.Length ==> items[j] == old(items[j])
    {
      items[i] := Stamp(items[i], orderId, now, toFixed2);
    }
  }

  /** The order CreateOrderItem opens when the first item names none: dated now,
      for the requested table, by the caller when the token named one. */
  function NewOrder(id: nat, tableId: nat, uid: Option<nat>, now: int): Order {
    Order(id, now, tableId, if uid.Some? then uid.value else 0, now, now)
  }

  /** The order id the batch is filed under: the first item's, or else the
      key the new order receives. */
  function ChosenOrderId(first: OrderItem, nextId: nat): (id: nat)
    ensures first.orderId != 0 ==> id == first.orderId
    ensures first.orderId == 0 ==> id == nextId
  {
    if first.orderId != 0 then first.orderId else nextId
  }

  /** CreateOrderItem. An empty batch makes the handler index past the end of
      the slice: it panics and nothing is written. Otherwise the batch is
      filed under the chosen order (opening it if needed), stamped in place and
      inserted. */
  method CreateOrderItem(db: Db, pack: OrderItemPack, uid: Option<nat>, now: int, toFixed2: real -> real)
    returns (out: Outcome, orderId: nat)
    requires db.Valid()
    modifies db`orders, db`orderItems, db`nextId, pack.orderItems
    ensures db.Valid()
    ensures pack.orderItems.Length == 0 ==>
              && out == Aborted
              && db.orders == old(db.orders) && db.orderItems == old(db.orderItems)
              && db.nextId == old(db.nextId)
    ensures pack.orderItems.Length > 0 ==>
              && out == Ok
              && orderId == ChosenOrderId(old(pack.orderItems[0]), old(db.nextId))
              && pack.orderItems[..] == Stamped(old(pack.orderItems[..]), orderId, now, toFixed2)
              && (old(pack.orderItems[0]).orderId == 0 ==>
                    db.orders == old(db.orders)[orderId := NewOrder(orderId, pack.tableId, uid, now)])
              && (old(pack.orderItems[0]).orderId != 0 ==> db.orders == old(db.orders))
              && (var first := old(db.nextId) + if old(pack.orderItems[0]).orderId == 0 then 1 else 0;
                  && db.orderItems == old(db.orderItems) + Numbered(pack.orderItems[..], first)
                  && db.nextId == first + pack.orderItems.Length)
  {
    var items := pack.orderItems;
    if items.Length == 0 {
      out, orderId := Aborted, 0;
      return;
    }
    orderId := items[0].orderId;
    if orderId == 0 {
      orderId := db.FreshId();
      db.orders := db.orders[orderId := NewOrder(orderId, pack.tableId, uid, now)];
    }
    StampBatch(items, orderId, now, toFixed2);
    db.CreateOrderItems(items[..]);
    out := Ok;
  }

  /** After a successful creation every item of the batch is listed under the
      chosen order, as long as that order exists. */
  lemma CreatedItemsListed(
    orders: map<nat, Order>, before: map<nat, OrderItem>, batch: seq<OrderItem>, first: nat, orderId: nat)
    requires orderId in orders
    requires forall i :: 0 <= i < |batch| ==> batch[i].orderId == orderId
    ensures forall i :: 0 <= i < |batch| ==>
              batch[i].(id := first + i) in ItemsByOrder(orders, before + Numbered(batch, first), orderId)
  {
    var after := before + Numbered(batch, first);
    forall i | 0 <= i < |batch|
      ensures batch[i].(id := first + i) in ItemsByOrder(orders, after, orderId)
    {
      assert after[first + i] == batch[i].(id := first + i);
    }
  }
}
