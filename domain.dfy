/** The application's entity shapes (src/utils/types.ts): tables, menu items, order lines,
    orders and bills, with money as exact reals and timestamps as integers. */
module Domain {
  import opened Wrappers
  import Seqs

  type Id = string

  datatype TableStatus = Available | Occupied | Reserved | Inactive
  datatype OrderStatus = Active | Completed | Cancelled
  datatype ItemStatus = Pending | Preparing | Ready | Served | Cancelled
  datatype PaymentStatus = Pending | Paid
  datatype PaymentMethod = Cash | Card | Upi

  /** The string the source stores and compares for each status. */
  function TableStatusName(s: TableStatus): string
  {
    match s
    case Available => "available"
    case Occupied => "occupied"
    case Reserved => "reserved"
    case Inactive => "inactive"
  }

  function OrderStatusName(s: OrderStatus): string
  {
    match s
    case Active => "active"
    case Completed => "completed"
    case Cancelled => "cancelled"
  }

  function PaymentStatusName(s: PaymentStatus): string
  {
    match s
    case Pending => "pending"
    case Paid => "paid"
  }

  /** A status filter value other than "all" selects exactly one status, because
      distinct statuses have distinct names. */
  lemma StatusNamesInjective(a: TableStatus, b: TableStatus, c: OrderStatus, d: OrderStatus,
                             e: PaymentStatus, f: PaymentStatus)
    ensures TableStatusName(a) == TableStatusName(b) ==> a == b
    ensures OrderStatusName(c) == OrderStatusName(d) ==> c == d
    ensures PaymentStatusName(e) == PaymentStatusName(f) ==> e == f
    ensures TableStatusName(a) != "all" && OrderStatusName(c) != "all" && PaymentStatusName(e) != "all"
  {
  }

  datatype Table = Table(id: Id, number: int, capacity: int, status: TableStatus, currentOrderId: Option<Id>)

  datatype MenuItem = MenuItem(id: Id, name: string, description: Option<string>, price: real,
                               categoryId: Id, available: bool)

  datatype OrderItem = OrderItem(id: Id, menuItemId: Id, menuItemName: string, quantity: int, price: real,
                                 notes: Option<string>, status: ItemStatus)

  /** An order line before the store has given it an id (`Omit<OrderItem, 'id'>`). */
  datatype NewOrderItem = NewOrderItem(menuItemId: Id, menuItemName: string, quantity: int, price: real,
                                       notes: Option<string>, status: ItemStatus)

  datatype Order = Order(id: Id, tableId: Id, tableNumber: int, items: seq<OrderItem>, status: OrderStatus,
                         createdAt: int, updatedAt: int, subtotal: real, tax: real, total: real,
                         paymentStatus: PaymentStatus, paymentMethod: Option<PaymentMethod>)

  datatype Bill = Bill(id: Id, orderId: Id, tableNumber: int, items: seq<OrderItem>, subtotal: real,
                       tax: real, total: real, paymentStatus: PaymentStatus,
                       paymentMethod: Option<PaymentMethod>, createdAt: int, paidAt: Option<int>)

  /** The amount one line contributes: `price * quantity`. */
  function LineAmount(item: OrderItem): real
  {
    item.price * item.quantity as real
  }

  /** `items.reduce((sum, item) => sum + item.price * item.quantity, 0)`. */
  function ItemsSubtotal(items: seq<OrderItem>): real
  {
    Seqs.Sum(items, LineAmount)
  }

  /** The 10% tax the order screen adds, and the resulting total. */
  const TaxRate: real := 0.1

  function Tax(subtotal: real): (t: real)
    ensures t == subtotal / 10.0
  {
    subtotal * TaxRate
  }
}
