/** The sample data (src/utils/dummyData.ts) run through the model: the order totals, the
    table/order links, the dashboard counters and the recent-orders list. Times are minutes
    relative to the moment the data is loaded. */
module Fixtures {
  import opened Wrappers
  import opened Domain
  import Seqs
  import DashboardPage

  const Tables: seq<Table> := [
    Table("1", 1, 4, Available, None),
    Table("2", 2, 2, Occupied, Some("1")),
    Table("3", 3, 6, Reserved, None),
    Table("4", 4, 4, Available, None),
    Table("5", 5, 2, Occupied, Some("2")),
    Table("6", 6, 8, Inactive, None),
    Table("7", 7, 4, Available, None),
    Table("8", 8, 2, Available, None)
  ]

  const Order1Items: seq<OrderItem> := [
    OrderItem("101", "1", "Garlic Bread", 1, 5.99, None, Served),
    OrderItem("102", "5", "Spaghetti Carbonara", 2, 12.99, None, Served),
    OrderItem("103", "9", "Soft Drinks", 2, 2.99, None, Served)
  ]

  const Order2Items: seq<OrderItem> := [
    OrderItem("201", "2", "Buffalo Wings", 1, 9.99, None, Preparing),
    OrderItem("202", "6", "Grilled Salmon", 1, 18.99, None, ItemStatus.Pending),
    OrderItem("203", "10", "House Wine", 2, 8.99, None, Served)
  ]

  const Order1: Order := Order("1", "2", 2, Order1Items, Active, -60, -30, 37.95, 3.80, 41.75, PaymentStatus.Pending, None)
  const Order2: Order := Order("2", "5", 5, Order2Items, Active, -30, -15, 46.96, 4.70, 51.66, PaymentStatus.Pending, None)
  const Orders: seq<Order> := [Order1, Order2]

  /** The stored subtotals are the sums of price times quantity over the lines. */
  lemma SubtotalsMatchLines()
    ensures ItemsSubtotal(Order1Items) == Order1.subtotal
    ensures ItemsSubtotal(Order2Items) == Order2.subtotal
  {
    SumOfThree(Order1Items[0], Order1Items[1], Order1Items[2], LineAmount);
    SumOfThree(Order2Items[0], Order2Items[1], Order2Items[2], LineAmount);
    assert Order1Items == [Order1Items[0], Order1Items[1], Order1Items[2]];
    assert Order2Items == [Order2Items[0], Order2Items[1], Order2Items[2]];
  }

  lemma SumOfThree<T>(a: T, b: T, c: T, f: T -> real)
    ensures Seqs.Sum([a, b, c], f) == f(a) + f(b) + f(c)
  {
    assert [a][..0] == [];
    assert Seqs.Sum([a], f) == f(a);
    assert [a, b][..1] == [a];
    assert Seqs.Sum([a, b], f) == f(a) + f(b);
    assert [a, b, c][..2] == [a, b];
  }

  /** The stored tax and total are the exact 10% tax and sum rounded to cents: the order
      screen's formula gives 3.795 and 41.745 for the first order. */
  lemma StoredTaxIsRounded()
    ensures Tax(Order1.subtotal) == 3.795 && Order1.tax == 3.80
    ensures Order1.subtotal + Tax(Order1.subtotal) == 41.745 && Order1.total == 41.75
  {
  }

  /** Table 2 is occupied by order 1, which is placed at table 2; likewise table 5 and order 2. */
  lemma TablesAndOrdersLinked()
    ensures Tables[1].currentOrderId == Some(Order1.id) && Order1.tableId == Tables[1].id
    ensures Tables[4].currentOrderId == Some(Order2.id) && Order2.tableId == Tables[4].id
    ensures Tables[1].status == Occupied && Tables[4].status == Occupied
  {
  }

  /** The order counters for the sample data: both orders are active, and sales are the
      sum of their totals. */
  lemma SampleDashboard()
    ensures DashboardPage.ComputeStats(Tables, Orders).activeOrders == 2
    ensures DashboardPage.ComputeStats(Tables, Orders).totalSales == 41.75 + 51.66
  {
    SampleActiveOrders();
    SampleSales();
  }

  lemma SampleActiveOrders()
    ensures |Seqs.Filter(Orders, DashboardPage.ActiveOrder)| == 2
  {
    assert DashboardPage.ActiveOrder(Order1) && DashboardPage.ActiveOrder(Order2);
    Seqs.FilterKeepsAll(Orders, DashboardPage.ActiveOrder);
  }

  lemma SampleSales()
    ensures Seqs.Sum(Orders, DashboardPage.OrderTotal) == 41.75 + 51.66
  {
    assert Orders[..1] == [Order1] && [Order1][..0] == [];
    assert Seqs.Sum([Order1], DashboardPage.OrderTotal) == 41.75;
    assert Seqs.Sum(Orders, DashboardPage.OrderTotal) == Seqs.Sum([Order1], DashboardPage.OrderTotal) + 51.66;
  }

  /** The newer order comes first in the recent list. */
  lemma SampleRecentOrders()
    ensures DashboardPage.RecentOrders(Orders) == [Order2, Order1]
  {
  }
}
