/** The bills screen (src/pages/Bills.tsx): bills whose table number contains the search
    text and whose payment status passes the status selector, newest first. */
module BillsPage {
  import opened Domain
  import Seqs
  import Text

  /** The decimal table number contains the search text (a substring, not an equality). */
  predicate MatchesSearch(bill: Bill, search: string)
  {
    Text.Includes(Text.IntToDecimal(bill.tableNumber), search)
  }

  /** "all" accepts every bill; any other value accepts the bills whose payment status has that name. */
  predicate MatchesStatus(bill: Bill, statusFilter: string)
  {
    statusFilter == "all" || PaymentStatusName(bill.paymentStatus) == statusFilter
  }

  predicate Listed(bill: Bill, search: string, statusFilter: string)
  {
    MatchesSearch(bill, search) && MatchesStatus(bill, statusFilter)
  }

  /** The sort key: the creation time. */
  function CreatedAt(bill: Bill): int
  {
    bill.createdAt
  }

  /** `filteredBills`: exactly the listed bills, rearranged newest first. */
  function FilteredBills(bills: seq<Bill>, search: string, statusFilter: string): (r: seq<Bill>)
    ensures multiset(r) == multiset(Seqs.Filter(bills, (bill: Bill) => Listed(bill, search, statusFilter)))
    ensures forall bill :: bill in r <==> bill in bills && Listed(bill, search, statusFilter)
    ensures Seqs.SortedDesc(r, CreatedAt)
  {
    var listedBy := (bill: Bill) => Listed(bill, search, statusFilter);
    var listed := Seqs.Filter(bills, listedBy);
    Seqs.FilterMembers(bills, listedBy);
    var r := Seqs.SortDesc(listed, CreatedAt);
    Seqs.SameMultisetSameMembers(r, listed);
    r
  }

  /** Bills created at the same instant stay in the order the store returned them. */
  lemma SameTimeKeepsStoreOrder(bills: seq<Bill>, search: string, statusFilter: string, t: int)
    ensures Seqs.Filter(FilteredBills(bills, search, statusFilter), (bill: Bill) => bill.createdAt == t)
         == Seqs.Filter(Seqs.Filter(bills, (bill: Bill) => Listed(bill, search, statusFilter)),
                        (bill: Bill) => bill.createdAt == t)
  {
    Seqs.SortDescStable(Seqs.Filter(bills, (bill: Bill) => Listed(bill, search, statusFilter)),
                        CreatedAt, (bill: Bill) => bill.createdAt == t, t);
  }

  /** With an empty search and the selector on "all", every bill is listed, each once. */
  lemma UnfilteredListsEveryBill(bills: seq<Bill>)
    ensures multiset(FilteredBills(bills, "", "all")) == multiset(bills)
  {
    forall i | 0 <= i < |bills| ensures Listed(bills[i], "", "all") {
      Text.IncludesEmptyAndSelf(Text.IntToDecimal(bills[i].tableNumber));
    }
    Seqs.FilterKeepsAll(bills, (bill: Bill) => Listed(bill, "", "all"));
  }

  /** A status name selects exactly the bills in that status. */
  lemma StatusFilterSelectsOne(bill: Bill, status: PaymentStatus)
    ensures MatchesStatus(bill, PaymentStatusName(status)) <==> bill.paymentStatus == status
  {
    StatusNamesInjective(Available, Available, Active, Active, bill.paymentStatus, status);
  }

  /** The search is a substring test: any run of consecutive characters of a table number's
      text finds that table's bills, the full number included. */
  lemma SearchIsSubstring(bill: Bill, i: nat, j: nat)
    requires i <= j <= |Text.IntToDecimal(bill.tableNumber)|
    ensures MatchesSearch(bill, Text.IntToDecimal(bill.tableNumber)[i..j])
    ensures MatchesSearch(bill, Text.IntToDecimal(bill.tableNumber))
  {
    var t := Text.IntToDecimal(bill.tableNumber);
    Text.IncludesSlice(t, i, j);
    Text.IncludesSlice(t, 0, |t|);
    assert t[0..|t|] == t;
  }
}
