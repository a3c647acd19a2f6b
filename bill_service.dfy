/** The bill data service (src/services/billService.ts): reading bills with the lines of
    their orders, opening a bill, and recording its payment. */
module BillService {
  import opened Wrappers
  import opened Domain
  import opened Rows
  import Store
  import Seqs

  /** A `bills` row joined with the lines fetched for its order. */
  function BillFromRow(row: BillRow, itemRows: seq<OrderItemRow>): (bill: Bill)
    ensures bill.id == row.id && bill.orderId == row.orderId && bill.tableNumber == row.tableNumber
    ensures bill.items == ItemsOf(row.orderId, itemRows)
    ensures bill.subtotal == row.subtotal && bill.tax == row.tax && bill.total == row.total
    ensures bill.paymentStatus == row.paymentStatus && bill.paymentMethod == row.paymentMethod
    ensures bill.createdAt == row.createdAt && bill.paidAt == row.paidAt
  {
    Bill(row.id, row.orderId, row.tableNumber, ItemsOf(row.orderId, itemRows), row.subtotal, row.tax, row.total,
         row.paymentStatus, row.paymentMethod, row.createdAt, row.paidAt)
  }

  /** The order ids the bills refer to. */
  function BillOrderIds(billRows: seq<BillRow>): (ids: set<Id>)
    ensures forall i :: 0 <= i < |billRows| ==> billRows[i].orderId in ids
  {
    set i | 0 <= i < |billRows| :: billRows[i].orderId
  }

  /** The lines the second and third queries fetch: the orders query keeps the referenced
      ids that exist among `orderIds` (the stored orders), and the lines query keeps the rows
      of those orders. */
  function FetchedItemRows(billRows: seq<BillRow>, orderIds: set<Id>, itemRows: seq<OrderItemRow>): (rows: seq<OrderItemRow>)
    ensures forall row :: row in rows <==> row in itemRows && row.orderId in orderIds && row.orderId in BillOrderIds(billRows)
  {
    var fetched := (row: OrderItemRow) => row.orderId in BillOrderIds(billRows) * orderIds;
    Seqs.FilterMembers(itemRows, fetched);
    Seqs.Filter(itemRows, fetched)
  }

  /** `fetchBills`: one bill per fetched bill row, in the order the rows came. */
  function FetchBills(billRows: seq<BillRow>, orderIds: set<Id>, itemRows: seq<OrderItemRow>): (bills: seq<Bill>)
    ensures |bills| == |billRows|
    ensures forall i :: 0 <= i < |bills| ==> bills[i] == BillFromRow(billRows[i], FetchedItemRows(billRows, orderIds, itemRows))
  {
    var fetched := FetchedItemRows(billRows, orderIds, itemRows);
    seq(|billRows|, i requires 0 <= i < |billRows| => BillFromRow(billRows[i], fetched))
  }

  /** A bill whose order row is gone shows no lines, even when lines of that order remain. */
  lemma BillWithoutOrderHasNoItems(billRows: seq<BillRow>, orderIds: set<Id>, itemRows: seq<OrderItemRow>, i: nat)
    requires i < |billRows| && billRows[i].orderId !in orderIds
    ensures FetchBills(billRows, orderIds, itemRows)[i].items == []
  {
    var fetched := FetchedItemRows(billRows, orderIds, itemRows);
    forall j | 0 <= j < |fetched| ensures !BelongsTo(billRows[i].orderId)(fetched[j]) {
      assert fetched[j] in fetched;
    }
    Seqs.FilterKeepsNone(fetched, BelongsTo(billRows[i].orderId));
  }

  /** A bill whose order exists shows exactly its order's lines, in store order. */
  lemma BillWithOrderHasItsItems(billRows: seq<BillRow>, orderIds: set<Id>, itemRows: seq<OrderItemRow>, i: nat)
    requires i < |billRows| && billRows[i].orderId in orderIds
    ensures FetchBills(billRows, orderIds, itemRows)[i].items == ItemsOf(billRows[i].orderId, itemRows)
  {
    ItemsOfRestrictedFetch(billRows[i].orderId, itemRows, BillOrderIds(billRows) * orderIds);
  }

  /** The `bills` row `createBill` inserts: unpaid, no method, no payment time. */
  function NewBillRow(billId: Id, orderId: Id, tableNumber: int, subtotal: real, tax: real, total: real, now: int)
    : (row: BillRow)
    ensures row.id == billId && row.orderId == orderId && row.paymentStatus == PaymentStatus.Pending
    ensures row.paymentMethod == None && row.paidAt == None && row.createdAt == now
  {
    BillRow(billId, orderId, tableNumber, subtotal, tax, total, PaymentStatus.Pending, None, now, None)
  }

  /** The bill `createBill` returns: the given lines, unchanged, and nothing paid. */
  function CreatedBill(billId: Id, orderId: Id, tableNumber: int, items: seq<OrderItem>, subtotal: real, tax: real,
                       total: real, now: int): (bill: Bill)
    ensures bill.id == billId && bill.items == items && bill.paymentStatus == PaymentStatus.Pending
    ensures bill.paidAt == None && bill.paymentMethod == None
  {
    Bill(billId, orderId, tableNumber, items, subtotal, tax, total, PaymentStatus.Pending, None, now, None)
  }

  /** Reading a new bill back gives the bill `createBill` returned, except for its lines,
      which come from its order's rows rather than from the caller. */
  lemma CreatedBillReadBack(billId: Id, orderId: Id, tableNumber: int, items: seq<OrderItem>, subtotal: real,
                            tax: real, total: real, now: int, itemRows: seq<OrderItemRow>)
    ensures BillFromRow(NewBillRow(billId, orderId, tableNumber, subtotal, tax, total, now), itemRows)
         == CreatedBill(billId, orderId, tableNumber, items, subtotal, tax, total, now).(items := ItemsOf(orderId, itemRows))
  {
  }

  /** `createBill`: one insert; on an error nothing is stored and no bill is returned. */
  method CreateBill(db: Store.Database, orderId: Id, tableNumber: int, items: seq<OrderItem>, subtotal: real,
                    tax: real, total: real, now: int, billId: Id, fail: bool)
    returns (r: Result<Bill>)
    requires billId !in db.bills
    modifies db
    ensures r.Ok? <==> !fail
    ensures db.bills == if fail then old(db.bills)
                        else old(db.bills)[billId := NewBillRow(billId, orderId, tableNumber, subtotal, tax, total, now)]
    ensures r.Ok? ==> r.value == CreatedBill(billId, orderId, tableNumber, items, subtotal, tax, total, now)
    ensures db.tables == old(db.tables) && db.orders == old(db.orders) && db.orderItems == old(db.orderItems)
    ensures old(db.Valid()) ==> db.Valid()
  {
    var ok := db.InsertBill(NewBillRow(billId, orderId, tableNumber, subtotal, tax, total, now), fail);
    if !ok {
      return Err("Error creating bill");
    }
    return Ok(CreatedBill(billId, orderId, tableNumber, items, subtotal, tax, total, now));
  }

  /** `updateBillPayment`: the bill with that id becomes paid by `paymentMethod` at `now`,
      whatever it held before; no other bill changes. */
  method UpdateBillPayment(db: Store.Database, id: Id, paymentMethod: PaymentMethod, now: int, fail: bool)
    returns (r: Result<()>)
    modifies db
    ensures r.Ok? <==> !fail
    ensures db.bills == if !fail && id in old(db.bills)
                        then old(db.bills)[id := Store.PaidRow(old(db.bills)[id], paymentMethod, now)]
                        else old(db.bills)
    ensures db.tables == old(db.tables) && db.orders == old(db.orders) && db.orderItems == old(db.orderItems)
    ensures old(db.Valid()) ==> db.Valid()
  {
    var ok := db.UpdateBillPaid(id, paymentMethod, now, fail);
    if !ok {
      return Err("Error updating bill payment");
    }
    return Ok(());
  }
}
