/** The order data service (src/services/orderService.ts): reading orders with their lines,
    placing an order with three separate writes, and moving one line through the kitchen. */
module OrderService {
  import opened Wrappers
  import opened Domain
  import opened Rows
  import Store
  import Seqs

  /** An `orders` row joined with the lines fetched for it. */
  function OrderFromRow(row: OrderRow, itemRows: seq<OrderItemRow>): (order: Order)
    ensures order.id == row.id && order.tableId == row.tableId && order.tableNumber == row.tableNumber
    ensures order.items == ItemsOf(row.id, itemRows)
    ensures order.status == row.status && order.paymentStatus == row.paymentStatus
    ensures order.createdAt == row.createdAt && order.updatedAt == row.updatedAt
    ensures order.subtotal == row.subtotal && order.tax == row.tax && order.total == row.total
    ensures order.paymentMethod == row.paymentMethod
  {
    Order(row.id, row.tableId, row.tableNumber, ItemsOf(row.id, itemRows), row.status, row.createdAt, row.updatedAt,
          row.subtotal, row.tax, row.total, row.paymentStatus, row.paymentMethod)
  }

  /** `fetchOrders`: one order per fetched order row, in the order the rows came. */
  function FetchOrders(orderRows: seq<OrderRow>, itemRows: seq<OrderItemRow>): (orders: seq<Order>)
    ensures |orders| == |orderRows|
    ensures forall i :: 0 <= i < |orders| ==> orders[i] == OrderFromRow(orderRows[i], itemRows)
  {
    seq(|orderRows|, i requires 0 <= i < |orderRows| => OrderFromRow(orderRows[i], itemRows))
  }

  function RowCreatedAt(row: OrderRow): int
  {
    row.createdAt
  }

  function OrderCreatedAt(order: Order): int
  {
    order.createdAt
  }

  /** The rows arrive newest first (`order('created_at', { ascending: false })`), and so do
      the orders. */
  lemma FetchOrdersNewestFirst(orderRows: seq<OrderRow>, itemRows: seq<OrderItemRow>)
    requires Seqs.SortedDesc(orderRows, RowCreatedAt)
    ensures Seqs.SortedDesc(FetchOrders(orderRows, itemRows), OrderCreatedAt)
  {
    var orders := FetchOrders(orderRows, itemRows);
    forall i, j | 0 <= i < j < |orders| ensures OrderCreatedAt(orders[i]) >= OrderCreatedAt(orders[j]) {
      assert RowCreatedAt(orderRows[i]) >= RowCreatedAt(orderRows[j]);
    }
  }

  /** The ids of the fetched orders, the argument of `.in('order_id', ...)`. */
  function RowIds(orderRows: seq<OrderRow>): (ids: set<Id>)
    ensures forall i :: 0 <= i < |orderRows| ==> orderRows[i].id in ids
  {
    set i | 0 <= i < |orderRows| :: orderRows[i].id
  }

  /** Fetching only the lines of the fetched orders gives the same orders as fetching every line. */
  lemma FetchOrdersRestrictedItems(orderRows: seq<OrderRow>, itemRows: seq<OrderItemRow>)
    ensures FetchOrders(orderRows, Seqs.Filter(itemRows, (row: OrderItemRow) => row.orderId in RowIds(orderRows)))
         == FetchOrders(orderRows, itemRows)
  {
    var ids := RowIds(orderRows);
    var fetched := Seqs.Filter(itemRows, (row: OrderItemRow) => row.orderId in ids);
    forall i | 0 <= i < |orderRows| ensures OrderFromRow(orderRows[i], fetched) == OrderFromRow(orderRows[i], itemRows) {
      ItemsOfRestrictedFetch(orderRows[i].id, itemRows, ids);
    }
  }

  /** The `orders` row `createOrder` inserts: active, unpaid, no payment method, created and
      updated at the same instant. */
  function NewOrderRow(orderId: Id, tableId: Id, tableNumber: int, subtotal: real, tax: real, total: real, now: int)
    : (row: OrderRow)
    ensures row.id == orderId && row.status == Active && row.paymentStatus == PaymentStatus.Pending
    ensures row.paymentMethod == None && row.createdAt == row.updatedAt == now
  {
    OrderRow(orderId, tableId, tableNumber, Active, now, now, subtotal, tax, total, PaymentStatus.Pending, None)
  }

  /** The `order_items` row for one submitted line; empty notes are stored as null. */
  function ItemRow(orderId: Id, itemId: Id, item: NewOrderItem, now: int): (row: OrderItemRow)
    ensures row.id == itemId && row.orderId == orderId && row.notes == Truthy(item.notes)
  {
    OrderItemRow(itemId, orderId, item.menuItemId, item.menuItemName, item.quantity, item.price,
                 Truthy(item.notes), item.status, now)
  }

  /** One row per submitted line, in order, each under its own fresh id and the new order's id. */
  function ItemRows(orderId: Id, itemIds: seq<Id>, items: seq<NewOrderItem>, now: int): (rows: seq<OrderItemRow>)
    requires |itemIds| == |items|
    ensures |rows| == |items|
    ensures forall i :: 0 <= i < |rows| ==> rows[i] == ItemRow(orderId, itemIds[i], items[i], now)
  {
    seq(|items|, i requires 0 <= i < |items| => ItemRow(orderId, itemIds[i], items[i], now))
  }

  /** A submitted line under the id its row was given (`{ ...item, id }`). */
  function WithId(item: NewOrderItem, id: Id): OrderItem
  {
    OrderItem(id, item.menuItemId, item.menuItemName, item.quantity, item.price, item.notes, item.status)
  }

  /** The order `createOrder` returns: the submitted lines as given, each with its row's id. */
  function CreatedOrder(orderId: Id, tableId: Id, tableNumber: int, items: seq<NewOrderItem>, itemIds: seq<Id>,
                        subtotal: real, tax: real, total: real, now: int): (order: Order)
    requires |itemIds| == |items|
    ensures order.id == orderId && order.status == Active && order.paymentStatus == PaymentStatus.Pending
    ensures order.createdAt == order.updatedAt == now
    ensures |order.items| == |items|
    ensures forall i :: 0 <= i < |items| ==> order.items[i] == WithId(items[i], itemIds[i])
  {
    Order(orderId, tableId, tableNumber, seq(|items|, i requires 0 <= i < |items| => WithId(items[i], itemIds[i])),
          Active, now, now, subtotal, tax, total, PaymentStatus.Pending, None)
  }

  /** Reading a placed order back gives the order `createOrder` returned, except that empty
      notes come back absent; lines of other orders in the fetch, before or after, do not matter. */
  lemma CreatedOrderReadBack(orderId: Id, tableId: Id, tableNumber: int, items: seq<NewOrderItem>, itemIds: seq<Id>,
                             subtotal: real, tax: real, total: real, now: int,
                             before: seq<OrderItemRow>, after: seq<OrderItemRow>)
    requires |itemIds| == |items|
    requires forall i :: 0 <= i < |before| ==> before[i].orderId != orderId
    requires forall i :: 0 <= i < |after| ==> after[i].orderId != orderId
    ensures var read := OrderFromRow(NewOrderRow(orderId, tableId, tableNumber, subtotal, tax, total, now),
                                     before + ItemRows(orderId, itemIds, items, now) + after);
            var created := CreatedOrder(orderId, tableId, tableNumber, items, itemIds, subtotal, tax, total, now);
            |read.items| == |created.items|
            && (forall i :: 0 <= i < |items| ==> read.items[i] == created.items[i].(notes := Truthy(items[i].notes)))
            && ((forall i :: 0 <= i < |items| ==> items[i].notes != Some("")) ==> read == created)
  {
    var rows := ItemRows(orderId, itemIds, items, now);
    var p := BelongsTo(orderId);
    Seqs.FilterAppend(before + rows, after, p);
    Seqs.FilterAppend(before, rows, p);
    Seqs.FilterKeepsNone(before, p);
    Seqs.FilterKeepsNone(after, p);
    Seqs.FilterKeepsAll(rows, p);
    assert Seqs.Filter(before + rows + after, p) == rows;
  }

  /** `createOrder`. The order row is written first; if that fails nothing is written. The
      line rows follow in one insert; if that fails the order row stays without lines and the
      table is untouched (there is no rollback). Last the table is marked occupied by the new
      order; if that fails the order and its lines stay. */
  method CreateOrder(db: Store.Database, tableId: Id, tableNumber: int, items: seq<NewOrderItem>,
                     subtotal: real, tax: real, total: real, now: int, orderId: Id, itemIds: seq<Id>,
                     failOrder: bool, failItems: bool, failTable: bool)
    returns (r: Result<Order>)
    requires |itemIds| == |items| && Seqs.NoDuplicates(itemIds)
    requires orderId !in db.orders && forall i :: 0 <= i < |itemIds| ==> itemIds[i] !in db.orderItems
    modifies db
    ensures r.Ok? <==> !failOrder && !failItems && !failTable
    ensures db.bills == old(db.bills)
    ensures failOrder ==> db.orders == old(db.orders) && db.orderItems == old(db.orderItems) && db.tables == old(db.tables)
    ensures !failOrder ==> db.orders == old(db.orders)[orderId := NewOrderRow(orderId, tableId, tableNumber, subtotal, tax, total, now)]
    ensures !failOrder && failItems ==> db.orderItems == old(db.orderItems) && db.tables == old(db.tables)
    ensures !failOrder && !failItems ==> db.orderItems == Store.AddRows(old(db.orderItems), ItemRows(orderId, itemIds, items, now))
    ensures !failOrder && !failItems && !failTable ==> db.tables == Store.SetTableStatus(old(db.tables), tableId, Occupied, Some(orderId))
    ensures !failOrder && !failItems && failTable ==> db.tables == old(db.tables)
    ensures r.Ok? ==> r.value == CreatedOrder(orderId, tableId, tableNumber, items, itemIds, subtotal, tax, total, now)
    ensures old(db.Valid()) ==> db.Valid()
  {
    var ok := db.InsertOrder(NewOrderRow(orderId, tableId, tableNumber, subtotal, tax, total, now), failOrder);
    if !ok {
      return Err("Error creating order");
    }
    var rows := ItemRows(orderId, itemIds, items, now);
    assert Store.DistinctRowIds(rows) by {
      forall i, j | 0 <= i < j < |rows| ensures rows[i].id != rows[j].id {
        assert itemIds[i] != itemIds[j];
      }
    }
    ghost var orderIds := db.orders.Keys;
    if old(db.Valid()) {
      Store.AddRowsKeepsReferences(db.orderItems, rows, orderIds);
    }
    ok := db.InsertOrderItems(rows, failItems);
    if !ok {
      return Err("Error creating order items");
    }
    ok := db.UpdateTable(tableId, Occupied, Some(orderId), failTable);
    if !ok {
      return Err("Error updating table status");
    }
    return Ok(CreatedOrder(orderId, tableId, tableNumber, items, itemIds, subtotal, tax, total, now));
  }

  /** Once the lines are written, each submitted line has exactly one row, under its fresh id,
      belonging to the new order; rows stored before are kept. */
  lemma CreatedLinesStored(existing: map<Id, OrderItemRow>, orderId: Id, itemIds: seq<Id>, items: seq<NewOrderItem>, now: int)
    requires |itemIds| == |items| && Seqs.NoDuplicates(itemIds)
    ensures var stored := Store.AddRows(existing, ItemRows(orderId, itemIds, items, now));
            (forall i :: 0 <= i < |items| ==> itemIds[i] in stored && stored[itemIds[i]] == ItemRow(orderId, itemIds[i], items[i], now))
            && (forall k :: k in existing && k !in itemIds ==> k in stored && stored[k] == existing[k])
  {
    var rows := ItemRows(orderId, itemIds, items, now);
    assert Store.DistinctRowIds(rows) by {
      forall i, j | 0 <= i < j < |rows| ensures rows[i].id != rows[j].id {
        assert itemIds[i] != itemIds[j];
      }
    }
    Store.AddRowsSpec(existing, rows);
    forall k | k in existing && k !in itemIds ensures k !in (set row | row in rows :: row.id) {
      forall i | 0 <= i < |rows| ensures rows[i].id != k {
        assert rows[i].id == itemIds[i];
      }
    }
  }

  /** `updateOrderItemStatus`: only the status of the line with that id changes. */
  method UpdateOrderItemStatus(db: Store.Database, id: Id, status: ItemStatus, fail: bool) returns (r: Result<()>)
    modifies db
    ensures r.Ok? <==> !fail
    ensures db.orderItems == if !fail && id in old(db.orderItems)
                             then old(db.orderItems)[id := old(db.orderItems)[id].(status := status)]
                             else old(db.orderItems)
    ensures db.tables == old(db.tables) && db.orders == old(db.orders) && db.bills == old(db.bills)
    ensures old(db.Valid()) ==> db.Valid()
  {
    var ok := db.UpdateOrderItem(id, status, fail);
    if !ok {
      return Err("Error updating order item status");
    }
    return Ok(());
  }
}
