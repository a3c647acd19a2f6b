/** The stored row shapes (src/types/supabase.ts) and the row-to-entity mapping the services
    share. Timestamps are integers; status columns hold the status values the application
    writes. */
module Rows {
  import opened Wrappers
  import opened Domain
  import Seqs

  datatype TableRow = TableRow(id: Id, number: int, capacity: int, status: TableStatus,
                               currentOrderId: Option<Id>, createdAt: int)

  datatype OrderRow = OrderRow(id: Id, tableId: Id, tableNumber: int, status: OrderStatus, createdAt: int,
                               updatedAt: int, subtotal: real, tax: real, total: real,
                               paymentStatus: PaymentStatus, paymentMethod: Option<PaymentMethod>)

  datatype OrderItemRow = OrderItemRow(id: Id, orderId: Id, menuItemId: Id, menuItemName: string,
                                       quantity: int, price: real, notes: Option<string>,
                                       status: ItemStatus, createdAt: int)

  datatype BillRow = BillRow(id: Id, orderId: Id, tableNumber: int, subtotal: real, tax: real, total: real,
                             paymentStatus: PaymentStatus, paymentMethod: Option<PaymentMethod>,
                             createdAt: int, paidAt: Option<int>)

  /** `value || null` and `value || undefined` on an optional string: the empty string is
      falsy, so it is dropped just like an absent value. */
  function Truthy(s: Option<string>): (r: Option<string>)
    ensures r.Some? <==> s.Some? && s.value != ""
    ensures r.Some? ==> r == s
  {
    if s == Some("") then None else s
  }

  /** Storing and reading back keeps a non-empty string and loses an empty one, and a value
      read back once reads back the same again. */
  lemma TruthyRoundTrip(s: Option<string>)
    ensures Truthy(Truthy(s)) == Truthy(s)
    ensures Truthy(s) == s <==> s != Some("")
  {
  }

  /** An `order_items` row as an order line. */
  function ItemFromRow(row: OrderItemRow): (item: OrderItem)
    ensures item.id == row.id && item.menuItemId == row.menuItemId && item.menuItemName == row.menuItemName
    ensures item.quantity == row.quantity && item.price == row.price && item.status == row.status
    ensures item.notes == Truthy(row.notes)
  {
    OrderItem(row.id, row.menuItemId, row.menuItemName, row.quantity, row.price, Truthy(row.notes), row.status)
  }

  /** The row test of the join: the row belongs to order `orderId`. */
  function BelongsTo(orderId: Id): OrderItemRow -> bool
  {
    (row: OrderItemRow) => row.orderId == orderId
  }

  /** The lines of order `orderId`: the fetched rows with that `order_id`, in fetch order, as lines. */
  function ItemsOf(orderId: Id, itemRows: seq<OrderItemRow>): (items: seq<OrderItem>)
    ensures |items| == |Seqs.Filter(itemRows, BelongsTo(orderId))|
    ensures forall i :: 0 <= i < |items| ==> items[i] == ItemFromRow(Seqs.Filter(itemRows, BelongsTo(orderId))[i])
  {
    var rows := Seqs.Filter(itemRows, BelongsTo(orderId));
    seq(|rows|, i requires 0 <= i < |rows| => ItemFromRow(rows[i]))
  }

  /** Every row of the order contributes a line, and every line comes from a row of the order. */
  lemma ItemsOfMembers(orderId: Id, itemRows: seq<OrderItemRow>)
    ensures forall row :: row in itemRows && row.orderId == orderId ==> ItemFromRow(row) in ItemsOf(orderId, itemRows)
    ensures forall i :: 0 <= i < |ItemsOf(orderId, itemRows)| ==>
              exists row :: row in itemRows && row.orderId == orderId && ItemFromRow(row) == ItemsOf(orderId, itemRows)[i]
  {
    var rows := Seqs.Filter(itemRows, BelongsTo(orderId));
    var items := ItemsOf(orderId, itemRows);
    Seqs.FilterMembers(itemRows, BelongsTo(orderId));
    forall row | row in itemRows && row.orderId == orderId ensures ItemFromRow(row) in items {
      assert row in rows;
      var k :| 0 <= k < |rows| && rows[k] == row;
      assert items[k] == ItemFromRow(row);
    }
    forall i | 0 <= i < |items|
      ensures exists row :: row in itemRows && row.orderId == orderId && ItemFromRow(row) == items[i]
    {
      var row := rows[i];
      assert row in rows;
      assert BelongsTo(orderId)(row);
      assert row in itemRows && row.orderId == orderId && ItemFromRow(row) == items[i];
    }
  }

  /** Rows fetched for other orders never show up in an order's lines: restricting the fetch
      to a set of order ids that contains `orderId` gives the same lines. */
  lemma ItemsOfRestrictedFetch(orderId: Id, itemRows: seq<OrderItemRow>, ids: set<Id>)
    requires orderId in ids
    ensures ItemsOf(orderId, Seqs.Filter(itemRows, (row: OrderItemRow) => row.orderId in ids)) == ItemsOf(orderId, itemRows)
  {
    Seqs.FilterTwice(itemRows, (row: OrderItemRow) => row.orderId in ids, BelongsTo(orderId), BelongsTo(orderId));
  }
}
