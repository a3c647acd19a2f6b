/** The orders screen (src/pages/Orders.tsx): orders whose table number contains the search
    text and whose status passes the status selector, newest first. */
module OrdersPage {
  import opened Domain
  import Seqs
  import Text

  /** The decimal table number contains the search text (a substring, not an equality). */
  predicate MatchesSearch(order: Order, search: string)
  {
    Text.Includes(Text.IntToDecimal(order.tableNumber), search)
  }

  /** "all" accepts every order; any other value accepts the orders whose status has that name. */
  predicate MatchesStatus(order: Order, statusFilter: string)
  {
    statusFilter == "all" || OrderStatusName(order.status) == statusFilter
  }

  predicate Listed(order: Order, search: string, statusFilter: string)
  {
    MatchesSearch(order, search) && MatchesStatus(order, statusFilter)
  }

  /** The sort key: the creation time. */
  function CreatedAt(order: Order): int
  {
    order.createdAt
  }

  /** `filteredOrders`: exactly the listed orders, rearranged newest first. */
  function FilteredOrders(orders: seq<Order>, search: string, statusFilter: string): (r: seq<Order>)
    ensures multiset(r) == multiset(Seqs.Filter(orders, (order: Order) => Listed(order, search, statusFilter)))
    ensures forall order :: order in r <==> order in orders && Listed(order, search, statusFilter)
    ensures Seqs.SortedDesc(r, CreatedAt)
  {
    var listedBy := (order: Order) => Listed(order, search, statusFilter);
    var listed := Seqs.Filter(orders, listedBy);
    Seqs.FilterMembers(orders, listedBy);
    var r := Seqs.SortDesc(listed, CreatedAt);
    Seqs.SameMultisetSameMembers(r, listed);
    r
  }

  /** Orders created at the same instant stay in the order the store returned them. */
  lemma SameTimeKeepsStoreOrder(orders: seq<Order>, search: string, statusFilter: string, t: int)
    ensures Seqs.Filter(FilteredOrders(orders, search, statusFilter), (order: Order) => order.createdAt == t)
         == Seqs.Filter(Seqs.Filter(orders, (order: Order) => Listed(order, search, statusFilter)),
                        (order: Order) => order.createdAt == t)
  {
    Seqs.SortDescStable(Seqs.Filter(orders, (order: Order) => Listed(order, search, statusFilter)),
                        CreatedAt, (order: Order) => order.createdAt == t, t);
  }

  /** With an empty search and the selector on "all", every order is listed, each once. */
  lemma UnfilteredListsEveryOrder(orders: seq<Order>)
    ensures multiset(FilteredOrders(orders, "", "all")) == multiset(orders)
  {
    forall i | 0 <= i < |orders| ensures Listed(orders[i], "", "all") {
      Text.IncludesEmptyAndSelf(Text.IntToDecimal(orders[i].tableNumber));
    }
    Seqs.FilterKeepsAll(orders, (order: Order) => Listed(order, "", "all"));
  }

  /** A status name selects exactly the orders in that status. */
  lemma StatusFilterSelectsOne(order: Order, status: OrderStatus)
    ensures MatchesStatus(order, OrderStatusName(status)) <==> order.status == status
  {
    StatusNamesInjective(Available, Available, order.status, status, Paid, Paid);
  }

  /** The search is a substring test: any run of consecutive characters of a table number's
      text finds that table's orders, the full number included. */
  lemma SearchIsSubstring(order: Order, i: nat, j: nat)
    requires i <= j <= |Text.IntToDecimal(order.tableNumber)|
    ensures MatchesSearch(order, Text.IntToDecimal(order.tableNumber)[i..j])
    ensures MatchesSearch(order, Text.IntToDecimal(order.tableNumber))
  {
    var t := Text.IntToDecimal(order.tableNumber);
    Text.IncludesSlice(t, i, j);
    Text.IncludesSlice(t, 0, |t|);
    assert t[0..|t|] == t;
  }
}
