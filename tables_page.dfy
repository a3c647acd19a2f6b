/** The tables screen (src/pages/Tables.tsx): tables whose number contains the search text and
    whose status passes the status selector, in the order the store returned them. Until the
    query has data the list is empty. */
module TablesPage {
  import opened Wrappers
  import opened Domain
  import Seqs
  import Text

  /** The decimal table number contains the search text. */
  predicate MatchesSearch(table: Table, search: string)
  {
    Text.Includes(Text.IntToDecimal(table.number), search)
  }

  /** "all" accepts every table; any other value accepts the tables whose status has that name. */
  predicate MatchesStatus(table: Table, statusFilter: string)
  {
    statusFilter == "all" || TableStatusName(table.status) == statusFilter
  }

  predicate Listed(table: Table, search: string, statusFilter: string)
  {
    MatchesSearch(table, search) && MatchesStatus(table, statusFilter)
  }

  /** `filteredTables`: `None` stands for the query's `undefined` data, which falls back to `[]`. */
  function FilteredTables(tables: Option<seq<Table>>, search: string, statusFilter: string): (r: seq<Table>)
    ensures tables.None? ==> r == []
    ensures tables.Some? ==> |r| <= |tables.value|
    ensures tables.Some? ==> forall t :: t in r <==> t in tables.value && Listed(t, search, statusFilter)
  {
    match tables
    case None => []
    case Some(ts) =>
      var listed := (t: Table) => Listed(t, search, statusFilter);
      Seqs.FilterMembers(ts, listed);
      Seqs.Filter(ts, listed)
  }

  /** The result keeps store order: filtering a list split in two filters each part in turn. */
  lemma FilteredTablesKeepOrder(a: seq<Table>, b: seq<Table>, search: string, statusFilter: string)
    ensures FilteredTables(Some(a + b), search, statusFilter)
         == FilteredTables(Some(a), search, statusFilter) + FilteredTables(Some(b), search, statusFilter)
  {
    Seqs.FilterAppend(a, b, (t: Table) => Listed(t, search, statusFilter));
  }

  /** With an empty search and the selector on "all", every loaded table is listed, in order. */
  lemma UnfilteredListsEveryTable(tables: seq<Table>)
    ensures FilteredTables(Some(tables), "", "all") == tables
  {
    forall i | 0 <= i < |tables| ensures Listed(tables[i], "", "all") {
      Text.IncludesEmptyAndSelf(Text.IntToDecimal(tables[i].number));
    }
    Seqs.FilterKeepsAll(tables, (t: Table) => Listed(t, "", "all"));
  }

  /** A status name selects exactly the tables in that status. */
  lemma StatusFilterSelectsOne(table: Table, status: TableStatus)
    ensures MatchesStatus(table, TableStatusName(status)) <==> table.status == status
  {
    StatusNamesInjective(table.status, status, Active, Active, Paid, Paid);
  }
}
