/** The hosted database the services write to, as an in-memory store: one map from id to
    row per table. Each write either applies in full or, when its `fail` flag is set (the
    store answered with an error), changes nothing; nothing spans two writes. */
module Store {
  import opened Wrappers
  import opened Domain
  import opened Rows

  /** A multi-row insert of order lines, one row after another. */
  function AddRows(m: map<Id, OrderItemRow>, rows: seq<OrderItemRow>): map<Id, OrderItemRow>
    decreases |rows|
  {
    if rows == [] then m else AddRows(m[rows[0].id := rows[0]], rows[1..])
  }

  ghost predicate DistinctRowIds(rows: seq<OrderItemRow>)
  {
    forall i, j :: 0 <= i < j < |rows| ==> rows[i].id != rows[j].id
  }

  /** With distinct ids, the insert adds exactly the given rows under their ids and keeps
      every other row. */
  lemma {:induction false} AddRowsSpec(m: map<Id, OrderItemRow>, rows: seq<OrderItemRow>)
    requires DistinctRowIds(rows)
    ensures AddRows(m, rows).Keys == m.Keys + set row | row in rows :: row.id
    ensures forall i :: 0 <= i < |rows| ==> AddRows(m, rows)[rows[i].id] == rows[i]
    ensures forall k :: k in m && k !in (set row | row in rows :: row.id) ==> AddRows(m, rows)[k] == m[k]
    decreases |rows|
  {
    if rows != [] {
      var t := rows[1..];
      DistinctTail(rows);
      IdSetCons(rows);
      AddRowsSpec(m[rows[0].id := rows[0]], t);
      forall i | 0 < i < |rows| ensures AddRows(m, rows)[rows[i].id] == rows[i] {
        assert rows[i] == t[i - 1];
      }
    }
  }

  /** Without its first row a row list with distinct ids keeps them distinct and no longer
      holds the first row's id. */
  lemma DistinctTail(rows: seq<OrderItemRow>)
    requires DistinctRowIds(rows) && rows != []
    ensures DistinctRowIds(rows[1..])
    ensures rows[0].id !in set row | row in rows[1..] :: row.id
  {
    var t := rows[1..];
    forall i, j | 0 <= i < j < |t| ensures t[i].id != t[j].id {
      assert t[i] == rows[i + 1] && t[j] == rows[j + 1];
    }
    forall j | 0 <= j < |t| ensures t[j].id != rows[0].id {
      assert t[j] == rows[j + 1];
    }
  }

  lemma IdSetCons(rows: seq<OrderItemRow>)
    requires rows != []
    ensures (set row | row in rows :: row.id) == {rows[0].id} + set row | row in rows[1..] :: row.id
  {
    assert rows == [rows[0]] + rows[1..];
  }

  /** The rows reference only stored orders, and remain so after the insert of lines of stored orders. */
  lemma {:induction false} AddRowsKeepsReferences(m: map<Id, OrderItemRow>, rows: seq<OrderItemRow>, orderIds: set<Id>)
    requires forall k :: k in m ==> m[k].id == k && m[k].orderId in orderIds
    requires forall i :: 0 <= i < |rows| ==> rows[i].orderId in orderIds
    ensures forall k :: k in AddRows(m, rows) ==> AddRows(m, rows)[k].id == k && AddRows(m, rows)[k].orderId in orderIds
    decreases |rows|
  {
    if rows != [] {
      AddRowsKeepsReferences(m[rows[0].id := rows[0]], rows[1..], orderIds);
    }
  }

  /** A table row after `update({ status, current_order_id }).eq('id', id)`: only the row
      with that id changes, and only in those two columns; an id with no row matches nothing. */
  function SetTableStatus(tables: map<Id, TableRow>, id: Id, status: TableStatus, currentOrderId: Option<Id>)
    : (r: map<Id, TableRow>)
    ensures r.Keys == tables.Keys
    ensures forall k :: k in tables && k != id ==> r[k] == tables[k]
    ensures id in tables ==> r[id] == tables[id].(status := status, currentOrderId := currentOrderId)
  {
    if id in tables then tables[id := tables[id].(status := status, currentOrderId := currentOrderId)] else tables
  }

  /** The rows of a table as the store keeps them: each under its own id. */
  ghost predicate KeyedById<R>(m: map<Id, R>, id: R -> Id)
  {
    forall k :: k in m ==> id(m[k]) == k
  }

  function TableRowId(row: TableRow): Id { row.id }
  function OrderRowId(row: OrderRow): Id { row.id }
  function OrderItemRowId(row: OrderItemRow): Id { row.id }
  function BillRowId(row: BillRow): Id { row.id }

  /** A bill row after `updateBillPayment`: paid, by `paymentMethod`, at `now`. */
  function PaidRow(row: BillRow, paymentMethod: PaymentMethod, now: int): (r: BillRow)
    ensures r.paymentStatus == Paid && r.paymentMethod == Some(paymentMethod) && r.paidAt == Some(now)
    ensures r.id == row.id && r.orderId == row.orderId && r.tableNumber == row.tableNumber
    ensures r.subtotal == row.subtotal && r.tax == row.tax && r.total == row.total && r.createdAt == row.createdAt
  {
    row.(paymentStatus := Paid, paymentMethod := Some(paymentMethod), paidAt := Some(now))
  }

  /** Paying an already paid bill again replaces its method and payment time: the last
      payment wins, the first payment time is not kept. */
  lemma PaymentOverwrites(row: BillRow, m1: PaymentMethod, t1: int, m2: PaymentMethod, t2: int)
    ensures PaidRow(PaidRow(row, m1, t1), m2, t2) == PaidRow(row, m2, t2)
    ensures t1 != t2 ==> PaidRow(PaidRow(row, m1, t1), m2, t2).paidAt != Some(t1)
  {
  }

  class Database {
    var tables: map<Id, TableRow>
    var orders: map<Id, OrderRow>
    var orderItems: map<Id, OrderItemRow>
    var bills: map<Id, BillRow>

    /** Every row sits under its own id, and every order line belongs to a stored order. */
    ghost predicate Valid()
      reads this
    {
      KeyedById(tables, TableRowId) && KeyedById(orders, OrderRowId)
      && KeyedById(orderItems, OrderItemRowId) && KeyedById(bills, BillRowId)
      && forall k :: k in orderItems ==> orderItems[k].orderId in orders
    }

    constructor()
      ensures tables == map[] && orders == map[] && orderItems == map[] && bills == map[]
      ensures Valid()
    {
      tables, orders, orderItems, bills := map[], map[], map[], map[];
    }

    /** `insert` into `orders`; the id is a fresh uuid. */
    method InsertOrder(row: OrderRow, fail: bool) returns (ok: bool)
      requires row.id !in orders
      modifies this
      ensures ok == !fail
      ensures orders == if ok then old(orders)[row.id := row] else old(orders)
      ensures tables == old(tables) && orderItems == old(orderItems) && bills == old(bills)
    {
      ok := !fail;
      if ok {
        orders := orders[row.id := row];
      }
    }

    /** One `insert` of several `order_items` rows with fresh uuids: all of them or none. */
    method InsertOrderItems(rows: seq<OrderItemRow>, fail: bool) returns (ok: bool)
      requires DistinctRowIds(rows) && forall i :: 0 <= i < |rows| ==> rows[i].id !in orderItems
      modifies this
      ensures ok == !fail
      ensures orderItems == if ok then AddRows(old(orderItems), rows) else old(orderItems)
      ensures tables == old(tables) && orders == old(orders) && bills == old(bills)
    {
      ok := !fail;
      if ok {
        orderItems := AddRows(orderItems, rows);
      }
    }

    /** `update({ status, current_order_id }).eq('id', id)` on `tables`; an id with no row
        matches nothing and is not an error. */
    method UpdateTable(id: Id, status: TableStatus, currentOrderId: Option<Id>, fail: bool) returns (ok: bool)
      modifies this
      ensures ok == !fail
      ensures tables == if ok then SetTableStatus(old(tables), id, status, currentOrderId) else old(tables)
      ensures orders == old(orders) && orderItems == old(orderItems) && bills == old(bills)
    {
      ok := !fail;
      if ok {
        tables := SetTableStatus(tables, id, status, currentOrderId);
      }
    }

    /** `insert` into `tables`. */
    method InsertTable(row: TableRow, fail: bool) returns (ok: bool)
      requires row.id !in tables
      modifies this
      ensures ok == !fail
      ensures tables == if ok then old(tables)[row.id := row] else old(tables)
      ensures orders == old(orders) && orderItems == old(orderItems) && bills == old(bills)
    {
      ok := !fail;
      if ok {
        tables := tables[row.id := row];
      }
    }

    /** `update({ status }).eq('id', id)` on `order_items`. */
    method UpdateOrderItem(id: Id, status: ItemStatus, fail: bool) returns (ok: bool)
      modifies this
      ensures ok == !fail
      ensures orderItems == if ok && id in old(orderItems)
                            then old(orderItems)[id := old(orderItems)[id].(status := status)]
                            else old(orderItems)
      ensures tables == old(tables) && orders == old(orders) && bills == old(bills)
    {
      ok := !fail;
      if ok && id in orderItems {
        orderItems := orderItems[id := orderItems[id].(status := status)];
      }
    }

    /** `insert` into `bills`. */
    method InsertBill(row: BillRow, fail: bool) returns (ok: bool)
      requires row.id !in bills
      modifies this
      ensures ok == !fail
      ensures bills == if ok then old(bills)[row.id := row] else old(bills)
      ensures tables == old(tables) && orders == old(orders) && orderItems == old(orderItems)
    {
      ok := !fail;
      if ok {
        bills := bills[row.id := row];
      }
    }

    /** The payment `update(...).eq('id', id)` on `bills`. */
    method UpdateBillPaid(id: Id, paymentMethod: PaymentMethod, now: int, fail: bool) returns (ok: bool)
      modifies this
      ensures ok == !fail
      ensures bills == if ok && id in old(bills) then old(bills)[id := PaidRow(old(bills)[id], paymentMethod, now)] else old(bills)
      ensures tables == old(tables) && orders == old(orders) && orderItems == old(orderItems)
    {
      ok := !fail;
      if ok && id in bills {
        bills := bills[id := PaidRow(bills[id], paymentMethod, now)];
      }
    }
  }
}
