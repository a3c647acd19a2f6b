/** The dashboard (src/pages/Index.tsx): four counters kept in component state and the three
    most recent orders. */
module DashboardPage {
  import opened Domain
  import Seqs

  /** The counters on the stat cards. */
  datatype Stats = Stats(activeOrders: nat, occupiedTables: nat, availableTables: nat, totalSales: real)

  /** The counters before any data has arrived. */
  const InitialStats: Stats := Stats(0, 0, 0, 0.0)

  /** The status tests, on the stored status names as the page compares them. */
  predicate ActiveOrder(order: Order)
  {
    OrderStatusName(order.status) == "active"
  }

  predicate InactiveOrder(order: Order)
  {
    !ActiveOrder(order)
  }

  predicate OccupiedTable(table: Table)
  {
    TableStatusName(table.status) == "occupied"
  }

  predicate AvailableTable(table: Table)
  {
    TableStatusName(table.status) == "available"
  }

  /** A table counted by neither table card: reserved or inactive. */
  predicate OtherTable(table: Table)
  {
    !OccupiedTable(table) && !AvailableTable(table)
  }

  function OrderTotal(order: Order): real
  {
    order.total
  }

  /** The counters computed from the loaded lists: filter lengths and a sum of totals. A table
      is never both occupied and available, so the two table counters fit within the tables. */
  function ComputeStats(tables: seq<Table>, orders: seq<Order>): (s: Stats)
    ensures s.activeOrders <= |orders|
    ensures s.occupiedTables == |Seqs.Filter(tables, OccupiedTable)|
    ensures s.availableTables == |Seqs.Filter(tables, AvailableTable)|
    ensures s.occupiedTables + s.availableTables <= |tables|
    ensures s.activeOrders == |Seqs.Filter(orders, ActiveOrder)|
    ensures s.totalSales == Seqs.Sum(orders, OrderTotal)
  {
    Seqs.FilterDisjoint(tables, OccupiedTable, AvailableTable);
    Stats(|Seqs.Filter(orders, ActiveOrder)|, |Seqs.Filter(tables, OccupiedTable)|,
          |Seqs.Filter(tables, AvailableTable)|, Seqs.Sum(orders, OrderTotal))
  }

  /** Total sales counts every order, whatever its status: it is the active orders' totals
      plus the completed and cancelled orders' totals. */
  lemma TotalSalesIncludesEveryStatus(tables: seq<Table>, orders: seq<Order>)
    ensures ComputeStats(tables, orders).totalSales
         == Seqs.Sum(Seqs.Filter(orders, ActiveOrder), OrderTotal)
          + Seqs.Sum(Seqs.Filter(orders, InactiveOrder), OrderTotal)
  {
    Seqs.SumFilterPartition(orders, OrderTotal, ActiveOrder, InactiveOrder);
  }

  /** The active-order counter and the number of other orders add up to all orders. */
  lemma ActiveOrdersComplement(tables: seq<Table>, orders: seq<Order>)
    ensures ComputeStats(tables, orders).activeOrders + |Seqs.Filter(orders, InactiveOrder)| == |orders|
  {
    Seqs.FilterPartition(orders, ActiveOrder, InactiveOrder);
  }

  /** Every table is counted by at most one card: the occupied and available counters and
      the reserved or inactive tables together make up all tables. */
  lemma TableCountsPartition(tables: seq<Table>, orders: seq<Order>)
    ensures var s := ComputeStats(tables, orders);
      s.occupiedTables + s.availableTables + |Seqs.Filter(tables, OtherTable)| == |tables|
    ensures forall t :: OtherTable(t) <==> t.status == Reserved || t.status == Inactive
  {
    Seqs.FilterPartitionThree(tables, OccupiedTable, AvailableTable, OtherTable);
  }

  /** The dashboard component's `stats` state. */
  class Dashboard {
    var stats: Stats

    constructor()
      ensures stats == InitialStats
    {
      stats := InitialStats;
    }

    /** The effect run when either list changes: the counters are replaced only when both
        lists are non-empty; otherwise the previous counters stay on screen. */
    method OnDataChanged(tables: seq<Table>, orders: seq<Order>)
      modifies this
      ensures |tables| > 0 && |orders| > 0 ==> stats == ComputeStats(tables, orders)
      ensures |tables| == 0 || |orders| == 0 ==> stats == old(stats)
    {
      if |tables| > 0 && |orders| > 0 {
        stats := ComputeStats(tables, orders);
      }
    }
  }

  function CreatedAt(order: Order): int
  {
    order.createdAt
  }

  /** `recentOrders`: a newest-first copy of the orders, cut to its first three. */
  function RecentOrders(orders: seq<Order>): (r: seq<Order>)
    ensures |r| == if |orders| < 3 then |orders| else 3
    ensures Seqs.SortedDesc(r, CreatedAt)
    ensures forall order :: order in r ==> order in orders
    ensures multiset(r) <= multiset(orders)
  {
    var sorted := Seqs.SortDesc(orders, CreatedAt);
    Seqs.SameMultisetSameMembers(sorted, orders);
    Seqs.TakeSortedDesc(sorted, CreatedAt, 3);
    Seqs.TakeSubMultiset(sorted, 3);
    Seqs.Take(sorted, 3)
  }

  /** No order left out of the recent list is newer than any order in it. */
  lemma RecentOrdersAreNewest(orders: seq<Order>, order: Order)
    requires order in orders && order !in RecentOrders(orders)
    ensures forall i :: 0 <= i < |RecentOrders(orders)| ==> RecentOrders(orders)[i].createdAt >= order.createdAt
  {
    var sorted := Seqs.SortDesc(orders, CreatedAt);
    var r := RecentOrders(orders);
    Seqs.SameMultisetSameMembers(sorted, orders);
    var j :| 0 <= j < |sorted| && sorted[j] == order;
    assert j >= |r|;
    forall i | 0 <= i < |r| ensures r[i].createdAt >= order.createdAt {
      assert r[i] == sorted[i];
      assert CreatedAt(sorted[i]) >= CreatedAt(sorted[j]);
    }
  }
}
