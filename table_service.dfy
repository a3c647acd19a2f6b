/** The table data service (src/services/tableService.ts): listing tables, adding one, and
    changing a table's status together with the order it serves. */
module TableService {
  import opened Wrappers
  import opened Domain
  import opened Rows
  import Store

  /** A `tables` row as a table; a null or empty order id reads as no order. */
  function TableFromRow(row: TableRow): (table: Table)
    ensures table.id == row.id && table.number == row.number && table.capacity == row.capacity
    ensures table.status == row.status
    ensures table.currentOrderId == Truthy(row.currentOrderId)
  {
    Table(row.id, row.number, row.capacity, row.status, Truthy(row.currentOrderId))
  }

  /** `fetchTables`: one table per row, in the order the rows came. */
  function FetchTables(rows: seq<TableRow>): (tables: seq<Table>)
    ensures |tables| == |rows|
    ensures forall i :: 0 <= i < |tables| ==> tables[i] == TableFromRow(rows[i])
  {
    seq(|rows|, i requires 0 <= i < |rows| => TableFromRow(rows[i]))
  }

  /** The rows arrive by ascending number (`order('number')`), and so do the tables. */
  lemma FetchTablesByNumber(rows: seq<TableRow>)
    requires forall i, j :: 0 <= i < j < |rows| ==> rows[i].number <= rows[j].number
    ensures forall i, j :: 0 <= i < j < |FetchTables(rows)| ==> FetchTables(rows)[i].number <= FetchTables(rows)[j].number
  {
    var tables := FetchTables(rows);
    forall i, j | 0 <= i < j < |tables| ensures tables[i].number <= tables[j].number {
      assert tables[i].number == rows[i].number && tables[j].number == rows[j].number;
    }
  }

  /** The fields of a table to add (`Omit<Table, 'id'>`). */
  datatype NewTable = NewTable(number: int, capacity: int, status: TableStatus, currentOrderId: Option<Id>)

  /** The row `addTable` inserts; an absent or empty order id is stored as null. */
  function NewTableRow(table: NewTable, id: Id, now: int): (row: TableRow)
    ensures row.id == id && row.number == table.number && row.capacity == table.capacity && row.status == table.status
    ensures row.currentOrderId == Truthy(table.currentOrderId)
  {
    TableRow(id, table.number, table.capacity, table.status, Truthy(table.currentOrderId), now)
  }

  /** The added table read back from its row keeps every field given, and keeps the order
      id exactly when it was a non-empty id. */
  lemma AddedTableKeepsFields(table: NewTable, id: Id, now: int)
    ensures var t := TableFromRow(NewTableRow(table, id, now));
            t.id == id && t.number == table.number && t.capacity == table.capacity && t.status == table.status
            && (t.currentOrderId == table.currentOrderId <==> table.currentOrderId != Some(""))
  {
    TruthyRoundTrip(table.currentOrderId);
  }

  /** `addTable`: one insert; the stored row is read back as the returned table. */
  method AddTable(db: Store.Database, table: NewTable, id: Id, now: int, fail: bool) returns (r: Result<Table>)
    requires id !in db.tables
    modifies db
    ensures r.Ok? <==> !fail
    ensures db.tables == if fail then old(db.tables) else old(db.tables)[id := NewTableRow(table, id, now)]
    ensures r.Ok? ==> r.value == TableFromRow(NewTableRow(table, id, now))
    ensures db.orders == old(db.orders) && db.orderItems == old(db.orderItems) && db.bills == old(db.bills)
    ensures old(db.Valid()) ==> db.Valid()
  {
    var row := NewTableRow(table, id, now);
    var ok := db.InsertTable(row, fail);
    if !ok {
      return Err("Error adding table");
    }
    return Ok(TableFromRow(row));
  }

  /** `updateTableStatus`: the table with that id gets the status and the given order id,
      or none when the id is omitted or empty, so omitting it releases the table's order. */
  method UpdateTableStatus(db: Store.Database, id: Id, status: TableStatus, currentOrderId: Option<Id>, fail: bool)
    returns (r: Result<()>)
    modifies db
    ensures r.Ok? <==> !fail
    ensures db.tables == if fail then old(db.tables)
                         else Store.SetTableStatus(old(db.tables), id, status, Truthy(currentOrderId))
    ensures db.orders == old(db.orders) && db.orderItems == old(db.orderItems) && db.bills == old(db.bills)
    ensures old(db.Valid()) ==> db.Valid()
  {
    var ok := db.UpdateTable(id, status, Truthy(currentOrderId), fail);
    if !ok {
      return Err("Error updating table status");
    }
    return Ok(());
  }

  /** Omitting the order id clears the table's current order; every other table is unchanged. */
  lemma OmittedOrderIdClears(tables: map<Id, TableRow>, id: Id, status: TableStatus)
    requires id in tables
    ensures Store.SetTableStatus(tables, id, status, Truthy(None))[id].currentOrderId == None
    ensures forall k :: k in tables && k != id ==> Store.SetTableStatus(tables, id, status, Truthy(None))[k] == tables[k]
  {
  }
}
