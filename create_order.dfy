/** The "Create New Order" screen (src/pages/CreateOrder.tsx): the waiter picks a table and
    builds a list of lines, one per menu item, then submits the order. The list of lines is
    the screen's state; each handler copies it, writes one slot and installs the copy. */
module CreateOrderPage {
  import opened Wrappers
  import opened Domain
  import Seqs

  /** One line being built: the menu item as picked, how many, and free-text notes. */
  datatype DraftLine = DraftLine(menuItem: MenuItem, quantity: int, notes: string)

  /** Menu-item ids are pairwise distinct among the lines. */
  ghost predicate DistinctMenuItems(lines: seq<DraftLine>)
  {
    forall i, j :: 0 <= i < j < |lines| ==> lines[i].menuItem.id != lines[j].menuItem.id
  }

  /** `findIndex(item => item.menuItem.id === id)`: the first line for the menu item, or -1. */
  function FindLine(lines: seq<DraftLine>, id: Id): (k: int)
    ensures -1 <= k < |lines|
    ensures k == -1 <==> forall i :: 0 <= i < |lines| ==> lines[i].menuItem.id != id
    ensures k >= 0 ==> lines[k].menuItem.id == id
    ensures k >= 0 ==> forall i :: 0 <= i < k ==> lines[i].menuItem.id != id
  {
    if lines == [] then -1
    else if lines[0].menuItem.id == id then 0
    else
      var k := FindLine(lines[1..], id);
      if k < 0 then -1 else k + 1
  }

  /** The amount a line contributes to the order: menu price times quantity. */
  function DraftAmount(line: DraftLine): real
  {
    line.menuItem.price * line.quantity as real
  }

  /** `calculateTotal`: the left-to-right sum of price times quantity over the lines. */
  function CalculateTotal(lines: seq<DraftLine>): real
  {
    Seqs.Sum(lines, DraftAmount)
  }

  // ---------------------------------------------------------------------------
  // The new list each handler installs

  /** What `addItemToOrder` installs: one more of an item already listed, else a new last line. */
  function AddedItem(lines: seq<DraftLine>, menuItem: MenuItem): seq<DraftLine>
  {
    var k := FindLine(lines, menuItem.id);
    if k >= 0 then lines[k := lines[k].(quantity := lines[k].quantity + 1)]
    else lines + [DraftLine(menuItem, 1, "")]
  }

  /** What `updateItemQuantity` installs: non-positive quantities are ignored. */
  function QuantityUpdated(lines: seq<DraftLine>, index: nat, newQuantity: int): seq<DraftLine>
    requires newQuantity > 0 ==> index < |lines|
  {
    if newQuantity <= 0 then lines else lines[index := lines[index].(quantity := newQuantity)]
  }

  /** What `updateItemNotes` installs. */
  function NotesUpdated(lines: seq<DraftLine>, index: nat, notes: string): seq<DraftLine>
    requires index < |lines|
  {
    lines[index := lines[index].(notes := notes)]
  }

  /** `lines.filter((_, i) => i !== index)`, where `offset` is the position of `lines[0]`. */
  function WithoutPosition(lines: seq<DraftLine>, index: int, offset: int): seq<DraftLine>
  {
    if lines == [] then []
    else (if offset == index then [] else [lines[0]]) + WithoutPosition(lines[1..], index, offset + 1)
  }

  /** What `removeItem` installs. */
  function Removed(lines: seq<DraftLine>, index: int): seq<DraftLine>
  {
    WithoutPosition(lines, index, 0)
  }

  // ---------------------------------------------------------------------------
  // What the handlers promise

  /** Adding an item that line `k` already holds raises that line's quantity by one and
      changes nothing else; the total grows by the price of one more unit. */
  lemma AddListedItem(lines: seq<DraftLine>, menuItem: MenuItem, k: nat)
    requires DistinctMenuItems(lines)
    requires k < |lines| && lines[k].menuItem.id == menuItem.id
    ensures var r := AddedItem(lines, menuItem);
      |r| == |lines| && r[k] == lines[k].(quantity := lines[k].quantity + 1)
      && (forall i :: 0 <= i < |lines| && i != k ==> r[i] == lines[i])
      && CalculateTotal(r) == CalculateTotal(lines) + lines[k].menuItem.price
  {
    var f := FindLine(lines, menuItem.id);
    assert f == k;
    Seqs.SumUpdate(lines, k, lines[k].(quantity := lines[k].quantity + 1), DraftAmount);
  }

  /** Adding an item no line holds appends one line with quantity 1 and empty notes. */
  lemma AddUnlistedItem(lines: seq<DraftLine>, menuItem: MenuItem)
    requires forall i :: 0 <= i < |lines| ==> lines[i].menuItem.id != menuItem.id
    ensures AddedItem(lines, menuItem) == lines + [DraftLine(menuItem, 1, "")]
    ensures CalculateTotal(AddedItem(lines, menuItem)) == CalculateTotal(lines) + menuItem.price
  {
    Seqs.SumAppend(lines, [DraftLine(menuItem, 1, "")], DraftAmount);
    assert Seqs.Sum([DraftLine(menuItem, 1, "")], DraftAmount) == menuItem.price;
  }

  /** Adding keeps the menu-item ids of the lines pairwise distinct. */
  lemma AddedItemKeepsDistinct(lines: seq<DraftLine>, menuItem: MenuItem)
    requires DistinctMenuItems(lines)
    ensures DistinctMenuItems(AddedItem(lines, menuItem))
  {
  }

  /** A non-positive quantity leaves the lines as they are; otherwise only the quantity of
      line `index` changes, and the total moves by price times the change in quantity. */
  lemma QuantityUpdatedSpec(lines: seq<DraftLine>, index: nat, newQuantity: int)
    requires newQuantity > 0 ==> index < |lines|
    ensures var r := QuantityUpdated(lines, index, newQuantity);
      (newQuantity <= 0 ==> r == lines) &&
      (newQuantity > 0 ==>
        |r| == |lines| && r[index] == lines[index].(quantity := newQuantity)
        && (forall i :: 0 <= i < |lines| && i != index ==> r[i] == lines[i])
        && CalculateTotal(r) == CalculateTotal(lines)
           + lines[index].menuItem.price * (newQuantity - lines[index].quantity) as real)
      && (DistinctMenuItems(lines) ==> DistinctMenuItems(r))
  {
    if newQuantity > 0 {
      Seqs.SumUpdate(lines, index, lines[index].(quantity := newQuantity), DraftAmount);
    }
  }

  /** Editing notes touches only the notes of line `index`. */
  lemma NotesUpdatedSpec(lines: seq<DraftLine>, index: nat, notes: string)
    requires index < |lines|
    ensures var r := NotesUpdated(lines, index, notes);
      |r| == |lines| && r[index].notes == notes
      && r[index].menuItem == lines[index].menuItem && r[index].quantity == lines[index].quantity
      && (forall i :: 0 <= i < |lines| && i != index ==> r[i] == lines[i])
      && CalculateTotal(r) == CalculateTotal(lines)
      && (DistinctMenuItems(lines) ==> DistinctMenuItems(r))
  {
    Seqs.SumUpdate(lines, index, lines[index].(notes := notes), DraftAmount);
  }

  lemma {:induction false} WithoutPositionSlices(lines: seq<DraftLine>, index: int, offset: int)
    ensures WithoutPosition(lines, index, offset) ==
      if offset <= index < offset + |lines| then lines[..index - offset] + lines[index - offset + 1..]
      else lines
  {
    if lines != [] {
      WithoutPositionSlices(lines[1..], index, offset + 1);
      if offset < index < offset + |lines| {
        assert lines[..index - offset] == [lines[0]] + lines[1..][..index - offset - 1];
        assert lines[index - offset + 1..] == lines[1..][index - offset..];
      } else if index == offset {
        assert lines[..0] + lines[1..] == lines[1..];
      } else {
        assert lines == [lines[0]] + lines[1..];
      }
    }
  }

  /** Removing by position drops exactly that line and keeps the others in order; a position
      outside the list removes nothing. The total loses exactly the removed line's amount. */
  lemma RemovedSpec(lines: seq<DraftLine>, index: int)
    ensures var r := Removed(lines, index);
      (0 <= index < |lines| ==> r == lines[..index] + lines[index + 1..]
                                && CalculateTotal(r) == CalculateTotal(lines) - DraftAmount(lines[index]))
      && (!(0 <= index < |lines|) ==> r == lines)
      && (DistinctMenuItems(lines) ==> DistinctMenuItems(r))
  {
    WithoutPositionSlices(lines, index, 0);
    if 0 <= index < |lines| {
      Seqs.SumRemove(lines, index, DraftAmount);
      var r := Removed(lines, index);
      if DistinctMenuItems(lines) {
        forall i, j | 0 <= i < j < |r| ensures r[i].menuItem.id != r[j].menuItem.id {
          var i' := if i < index then i else i + 1;
          var j' := if j < index then j else j + 1;
          assert r[i] == lines[i'] && r[j] == lines[j'];
        }
      }
    }
  }

  /** The total of no lines is 0, and of lines otherwise the sum of the parts. */
  lemma CalculateTotalSplit(a: seq<DraftLine>, b: seq<DraftLine>)
    ensures CalculateTotal([]) == 0.0
    ensures CalculateTotal(a + b) == CalculateTotal(a) + CalculateTotal(b)
  {
    Seqs.SumAppend(a, b, DraftAmount);
  }

  // ---------------------------------------------------------------------------
  // The screen's list filters and submission

  /** `availableTables`: the tables a new order may be placed at. */
  function AvailableTables(tables: seq<Table>): (r: seq<Table>)
    ensures forall t :: t in r <==> t in tables && (t.status == Available || t.status == Reserved)
  {
    var free := (t: Table) => t.status == Available || t.status == Reserved;
    Seqs.FilterMembers(tables, free);
    Seqs.Filter(tables, free)
  }

  /** `availableMenuItems`: the menu items offered for adding. */
  function AvailableMenuItems(items: seq<MenuItem>): (r: seq<MenuItem>)
    ensures forall m :: m in r <==> m in items && m.available
  {
    var offered := (m: MenuItem) => m.available;
    Seqs.FilterMembers(items, offered);
    Seqs.Filter(items, offered)
  }

  /** `tables.find(t => t.id === id)`: the first table with that id. */
  function FindTable(tables: seq<Table>, id: Id): (r: Option<Table>)
    ensures r.None? <==> forall i :: 0 <= i < |tables| ==> tables[i].id != id
    ensures r.Some? ==> r.value in tables && r.value.id == id
  {
    if tables == [] then None
    else if tables[0].id == id then Some(tables[0])
    else FindTable(tables[1..], id)
  }

  /** The order data handed to the data service: what the screen submits. */
  datatype OrderPayload = OrderPayload(tableId: Id, tableNumber: int, items: seq<NewOrderItem>,
                                       status: OrderStatus, subtotal: real, tax: real, total: real,
                                       paymentStatus: PaymentStatus)

  /** What pressing "Create Order" does: nothing but an error notice when no line was added
      or the chosen table is unknown, otherwise submit the payload. */
  datatype Submission = EmptyOrder | TableNotFound | Submitted(payload: OrderPayload)

  /** One submitted line: menu item id, name and price copied from the menu item, status pending. */
  function PayloadItem(line: DraftLine): NewOrderItem
  {
    NewOrderItem(line.menuItem.id, line.menuItem.name, line.quantity, line.menuItem.price,
                 Some(line.notes), ItemStatus.Pending)
  }

  function NewItemAmount(item: NewOrderItem): real
  {
    item.price * item.quantity as real
  }

  /** `onSubmit`: the guards, then the payload with a 10% tax. */
  function Submit(lines: seq<DraftLine>, tableId: Id, tables: seq<Table>): (s: Submission)
    ensures s == EmptyOrder <==> lines == []
    ensures s == TableNotFound <==> lines != [] && forall i :: 0 <= i < |tables| ==> tables[i].id != tableId
    ensures s.Submitted? ==>
      var p := s.payload;
      p.tableId == tableId && (exists i :: 0 <= i < |tables| && tables[i].id == tableId && tables[i].number == p.tableNumber)
      && |p.items| == |lines|
      && (forall i :: 0 <= i < |lines| ==>
            p.items[i].menuItemId == lines[i].menuItem.id && p.items[i].menuItemName == lines[i].menuItem.name
            && p.items[i].price == lines[i].menuItem.price && p.items[i].quantity == lines[i].quantity
            && p.items[i].notes == Some(lines[i].notes) && p.items[i].status == ItemStatus.Pending)
      && p.status == Active && p.paymentStatus == PaymentStatus.Pending
      && p.subtotal == Seqs.Sum(p.items, NewItemAmount)
      && p.tax == p.subtotal / 10.0 && p.total == p.subtotal + p.subtotal / 10.0
  {
    if lines == [] then EmptyOrder
    else
      match FindTable(tables, tableId)
      case None => TableNotFound
      case Some(table) =>
        var items := seq(|lines|, i requires 0 <= i < |lines| => PayloadItem(lines[i]));
        var subtotal := CalculateTotal(lines);
        Seqs.SumPointwise(lines, DraftAmount, items, NewItemAmount);
        var tax := Tax(subtotal);
        Submitted(OrderPayload(tableId, table.number, items, Active, subtotal, tax, subtotal + tax,
                               PaymentStatus.Pending))
  }

  // ---------------------------------------------------------------------------
  // The screen's state

  class CreateOrderForm {
    /** `selectedItems`: the lines built so far. */
    var selectedItems: seq<DraftLine>

    ghost predicate Valid()
      reads this
    {
      DistinctMenuItems(selectedItems)
    }

    constructor ()
      ensures Valid() && selectedItems == []
    {
      selectedItems := [];
    }

    /** Copies the lines into a fresh array (`[...selectedItems]`). */
    static method CopyLines(lines: seq<DraftLine>) returns (a: array<DraftLine>)
      ensures fresh(a) && a[..] == lines
    {
      a := new DraftLine[|lines|](i requires 0 <= i < |lines| => lines[i]);
    }

    method AddItemToOrder(menuItem: MenuItem)
      requires Valid()
      modifies this
      ensures Valid()
      ensures selectedItems == AddedItem(old(selectedItems), menuItem)
    {
      var k := FindLine(selectedItems, menuItem.id);
      if k >= 0 {
        var updated := CopyLines(selectedItems);
        updated[k] := updated[k].(quantity := updated[k].quantity + 1);
        selectedItems := updated[..];
      } else {
        selectedItems := selectedItems + [DraftLine(menuItem, 1, "")];
      }
      AddedItemKeepsDistinct(old(selectedItems), menuItem);
    }

    method UpdateItemQuantity(index: nat, newQuantity: int)
      requires Valid()
      requires newQuantity > 0 ==> index < |selectedItems|
      modifies this
      ensures Valid()
      ensures selectedItems == QuantityUpdated(old(selectedItems), index, newQuantity)
    {
      QuantityUpdatedSpec(selectedItems, index, newQuantity);
      if newQuantity <= 0 {
        return;
      }
      var updated := CopyLines(selectedItems);
      updated[index] := updated[index].(quantity := newQuantity);
      selectedItems := updated[..];
    }

    method UpdateItemNotes(index: nat, notes: string)
      requires Valid()
      requires index < |selectedItems|
      modifies this
      ensures Valid()
      ensures selectedItems == NotesUpdated(old(selectedItems), index, notes)
    {
      NotesUpdatedSpec(selectedItems, index, notes);
      var updated := CopyLines(selectedItems);
      updated[index] := updated[index].(notes := notes);
      selectedItems := updated[..];
    }

    method RemoveItem(index: int)
      requires Valid()
      modifies this
      ensures Valid()
      ensures selectedItems == Removed(old(selectedItems), index)
    {
      RemovedSpec(selectedItems, index);
      selectedItems := Removed(selectedItems, index);
    }
  }
}
