/** The order editor shown for a table (src/components/orders/OrderForm.tsx): a menu grouped
    by category on one side, the order's lines on the other, and a notes box. Adding,
    re-quantifying and removing lines each rebuild the list of lines from the old one. */
module OrderFormComponent {
  import opened Wrappers
  import opened Domain
  import Seqs
  import Text
  import OrderItemStepper

  /** Line ids are pairwise distinct. */
  ghost predicate UniqueLineIds(items: seq<OrderItem>)
  {
    forall i, j :: 0 <= i < j < |items| ==> items[i].id != items[j].id
  }

  /** Every line holds at least one unit. */
  ghost predicate PositiveQuantities(items: seq<OrderItem>)
  {
    forall i :: 0 <= i < |items| ==> items[i].quantity > 0
  }

  /** `items.find(item => item.menu_item_id === id)` found something. */
  predicate HasMenuItem(items: seq<OrderItem>, menuItemId: Id)
  {
    exists i | 0 <= i < |items| :: items[i].menuItemId == menuItemId
  }

  /** One more unit on every line of that menu item. */
  function IncrementMenuItem(items: seq<OrderItem>, menuItemId: Id): seq<OrderItem>
  {
    seq(|items|, i requires 0 <= i < |items| =>
      if items[i].menuItemId == menuItemId then items[i].(quantity := items[i].quantity + 1) else items[i])
  }

  /** `addItem`: bump the lines of a menu item already present, else append a new pending line
      with the id `newId` the caller generated. */
  function AddItem(items: seq<OrderItem>, menuItem: MenuItem, newId: Id): seq<OrderItem>
  {
    if HasMenuItem(items, menuItem.id) then IncrementMenuItem(items, menuItem.id)
    else items + [OrderItem(newId, menuItem.id, menuItem.name, 1, menuItem.price, None, ItemStatus.Pending)]
  }

  /** `updateQuantity`: every line with that id gets the quantity. */
  function UpdateQuantity(items: seq<OrderItem>, id: Id, quantity: int): seq<OrderItem>
  {
    seq(|items|, i requires 0 <= i < |items| =>
      if items[i].id == id then items[i].(quantity := quantity) else items[i])
  }

  /** The test `removeItem` keeps a line by: its id differs from `id`. */
  function OtherId(id: Id): OrderItem -> bool
  {
    (item: OrderItem) => item.id != id
  }

  /** `removeItem`: drop every line with that id. */
  function RemoveItem(items: seq<OrderItem>, id: Id): seq<OrderItem>
  {
    Seqs.Filter(items, OtherId(id))
  }

  /** `subtotal`. */
  function Subtotal(items: seq<OrderItem>): real
  {
    ItemsSubtotal(items)
  }

  // ---------------------------------------------------------------------------
  // What adding, re-quantifying and removing promise

  /** Adding a menu item already present raises the quantity of its lines by one; every other
      line, and every other field, stays as it was. */
  lemma AddPresentItem(items: seq<OrderItem>, menuItem: MenuItem, newId: Id)
    requires HasMenuItem(items, menuItem.id)
    ensures var r := AddItem(items, menuItem, newId);
      |r| == |items|
      && (forall i :: 0 <= i < |items| && items[i].menuItemId == menuItem.id ==>
            r[i] == items[i].(quantity := items[i].quantity + 1))
      && (forall i :: 0 <= i < |items| && items[i].menuItemId != menuItem.id ==> r[i] == items[i])
  {
  }

  /** With one line per menu item, adding a present item adds one unit price to the subtotal. */
  lemma AddPresentItemSubtotal(items: seq<OrderItem>, menuItem: MenuItem, newId: Id, k: nat)
    requires k < |items| && items[k].menuItemId == menuItem.id
    requires forall i :: 0 <= i < |items| && i != k ==> items[i].menuItemId != menuItem.id
    ensures Subtotal(AddItem(items, menuItem, newId)) == Subtotal(items) + items[k].price
  {
    var r := AddItem(items, menuItem, newId);
    assert r == items[k := items[k].(quantity := items[k].quantity + 1)];
    Seqs.SumUpdate(items, k, items[k].(quantity := items[k].quantity + 1), LineAmount);
  }

  /** Adding an absent menu item appends one pending line with quantity 1, the menu price and
      no notes; the subtotal grows by that price. */
  lemma AddAbsentItem(items: seq<OrderItem>, menuItem: MenuItem, newId: Id)
    requires !HasMenuItem(items, menuItem.id)
    ensures var r := AddItem(items, menuItem, newId);
      |r| == |items| + 1 && r[..|items|] == items
      && r[|items|] == OrderItem(newId, menuItem.id, menuItem.name, 1, menuItem.price, None, ItemStatus.Pending)
      && Subtotal(r) == Subtotal(items) + menuItem.price
  {
    var line := OrderItem(newId, menuItem.id, menuItem.name, 1, menuItem.price, None, ItemStatus.Pending);
    Seqs.SumAppend(items, [line], LineAmount);
    assert Seqs.Sum([line], LineAmount) == menuItem.price;
  }

  /** Adding keeps line ids distinct (given a fresh id) and quantities positive. */
  lemma AddItemKeepsInvariants(items: seq<OrderItem>, menuItem: MenuItem, newId: Id)
    requires UniqueLineIds(items) && PositiveQuantities(items)
    requires forall i :: 0 <= i < |items| ==> items[i].id != newId
    ensures UniqueLineIds(AddItem(items, menuItem, newId)) && PositiveQuantities(AddItem(items, menuItem, newId))
  {
  }

  /** Setting a quantity by id changes the quantity of the lines with that id and nothing else. */
  lemma UpdateQuantitySpec(items: seq<OrderItem>, id: Id, quantity: int)
    ensures var r := UpdateQuantity(items, id, quantity);
      |r| == |items|
      && (forall i :: 0 <= i < |items| && items[i].id == id ==> r[i] == items[i].(quantity := quantity))
      && (forall i :: 0 <= i < |items| && items[i].id != id ==> r[i] == items[i])
      && (UniqueLineIds(items) ==> UniqueLineIds(r))
      && (PositiveQuantities(items) && quantity > 0 ==> PositiveQuantities(r))
  {
  }

  /** With distinct line ids, setting line `k`'s quantity moves the subtotal by price times the change. */
  lemma UpdateQuantitySubtotal(items: seq<OrderItem>, k: nat, quantity: int)
    requires UniqueLineIds(items) && k < |items|
    ensures Subtotal(UpdateQuantity(items, items[k].id, quantity))
         == Subtotal(items) + items[k].price * (quantity - items[k].quantity) as real
  {
    var r := UpdateQuantity(items, items[k].id, quantity);
    assert r == items[k := items[k].(quantity := quantity)];
    Seqs.SumUpdate(items, k, items[k].(quantity := quantity), LineAmount);
  }

  /** Removing by id drops exactly the lines with that id: the kept lines and the lines with
      that id together account for every line. */
  lemma RemoveItemSpec(items: seq<OrderItem>, id: Id)
    ensures var r := RemoveItem(items, id);
      (forall x :: x in r <==> x in items && x.id != id)
      && |r| + |Seqs.Filter(items, SameId(id))| == |items|
  {
    Seqs.FilterPartition(items, OtherId(id), SameId(id));
  }

  function SameId(id: Id): OrderItem -> bool
  {
    (item: OrderItem) => item.id == id
  }

  /** With distinct line ids, removing line `k`'s id removes just that line, and its amount
      from the subtotal; the invariants survive. */
  lemma RemoveLine(items: seq<OrderItem>, k: nat)
    requires UniqueLineIds(items) && k < |items|
    ensures RemoveItem(items, items[k].id) == items[..k] + items[k + 1..]
    ensures Subtotal(RemoveItem(items, items[k].id)) == Subtotal(items) - LineAmount(items[k])
    ensures PositiveQuantities(items) ==> PositiveQuantities(RemoveItem(items, items[k].id))
    ensures UniqueLineIds(RemoveItem(items, items[k].id))
  {
    RemoveLineSlices(items, k);
    Seqs.SumRemove(items, k, LineAmount);
    var r := items[..k] + items[k + 1..];
    forall i, j | 0 <= i < j < |r| ensures r[i].id != r[j].id {
      var i' := if i < k then i else i + 1;
      var j' := if j < k then j else j + 1;
      assert r[i] == items[i'] && r[j] == items[j'];
    }
  }

  lemma RemoveLineSlices(items: seq<OrderItem>, k: nat)
    requires UniqueLineIds(items) && k < |items|
    ensures RemoveItem(items, items[k].id) == items[..k] + items[k + 1..]
  {
    var p := OtherId(items[k].id);
    forall j | 0 <= j < |items| && j != k ensures p(items[j]) {
      assert items[j].id != items[k].id;
    }
    Seqs.FilterDropsOne(items, k, p);
  }

  /** A request from a line's stepper, applied through `updateQuantity`, keeps every quantity positive. */
  /** The line's remove button drops exactly that line when line ids are unique. */
  lemma RemoveButtonDropsLine(items: seq<OrderItem>, k: nat)
    requires UniqueLineIds(items) && k < |items|
    ensures RemoveItem(items, OrderItemStepper.RemoveClicked(items[k])) == items[..k] + items[k + 1..]
  {
    RemoveLineSlices(items, k);
  }

  lemma StepperKeepsQuantitiesPositive(items: seq<OrderItem>, k: nat, r: OrderItemStepper.QuantityRequest)
    requires PositiveQuantities(items) && k < |items|
    requires OrderItemStepper.FromStepper(items[k], r)
    ensures PositiveQuantities(UpdateQuantity(items, r.id, r.quantity))
  {
    OrderItemStepper.StepperRequestsPositive(items[k], r);
  }

  // ---------------------------------------------------------------------------
  // Submitting

  /** `handleSubmit`: when the trimmed notes are non-empty and there is a line, a copy of the
      lines whose last line carries the (untrimmed) notes; otherwise the lines as they are. */
  method HandleSubmit(items: seq<OrderItem>, notes: string) returns (submitted: seq<OrderItem>)
    ensures Text.Trim(notes) != [] && items != [] ==>
      |submitted| == |items| && submitted[..|items| - 1] == items[..|items| - 1]
      && submitted[|items| - 1] == items[|items| - 1].(notes := Some(notes))
    ensures !(Text.Trim(notes) != [] && items != []) ==> submitted == items
    ensures Subtotal(submitted) == Subtotal(items)
  {
    if Text.Trim(notes) != [] && |items| > 0 {
      var updated := new OrderItem[|items|](i requires 0 <= i < |items| => items[i]);
      var lastIndex := updated.Length - 1;
      updated[lastIndex] := updated[lastIndex].(notes := Some(notes));
      submitted := updated[..];
      assert submitted == items[lastIndex := items[lastIndex].(notes := Some(notes))];
      Seqs.SumUpdate(items, lastIndex, items[lastIndex].(notes := Some(notes)), LineAmount);
    } else {
      submitted := items;
    }
  }

  // ---------------------------------------------------------------------------
  // The menu side

  function CategoryIds(menuItems: seq<MenuItem>): (r: seq<Id>)
    ensures |r| == |menuItems| && forall i :: 0 <= i < |r| ==> r[i] == menuItems[i].categoryId
  {
    seq(|menuItems|, i requires 0 <= i < |menuItems| => menuItems[i].categoryId)
  }

  /** `categories`: "all", then each category id once, in order of first appearance. */
  function Categories(menuItems: seq<MenuItem>): (r: seq<string>)
    ensures |r| >= 1 && r[0] == "all"
    ensures forall c :: c in r[1..] <==> exists i :: 0 <= i < |menuItems| && menuItems[i].categoryId == c
    ensures Seqs.NoDuplicates(r[1..])
  {
    var ids := CategoryIds(menuItems);
    var d := Seqs.Distinct(ids);
    assert (["all"] + d)[1..] == d;
    assert forall c :: c in ids <==> exists i :: 0 <= i < |menuItems| && menuItems[i].categoryId == c;
    ["all"] + d
  }

  /** The category buttons after "all" follow the first appearance of each category among the items. */
  lemma CategoriesInFirstAppearanceOrder(menuItems: seq<MenuItem>)
    ensures forall i, j :: 1 <= i < j < |Categories(menuItems)| ==>
      Seqs.IndexOf(CategoryIds(menuItems), Categories(menuItems)[i])
        < Seqs.IndexOf(CategoryIds(menuItems), Categories(menuItems)[j])
  {
    var ids := CategoryIds(menuItems);
    var d := Seqs.Distinct(ids);
    Seqs.DistinctFirstAppearanceOrder(ids);
    assert Categories(menuItems) == ["all"] + d;
    forall i, j | 1 <= i < j < |Categories(menuItems)|
      ensures Seqs.IndexOf(ids, Categories(menuItems)[i]) < Seqs.IndexOf(ids, Categories(menuItems)[j])
    {
      assert Categories(menuItems)[i] == d[i - 1] && Categories(menuItems)[j] == d[j - 1];
    }
  }

  /** The item test of the category filter. */
  function InCategory(category: Id): MenuItem -> bool
  {
    (m: MenuItem) => m.categoryId == category
  }

  /** `filteredMenuItems`: every item for "all", else exactly the items of that category, in order. */
  function FilteredMenuItems(menuItems: seq<MenuItem>, selectedCategory: string): (r: seq<MenuItem>)
    ensures selectedCategory == "all" ==> r == menuItems
    ensures selectedCategory != "all" ==> r == Seqs.Filter(menuItems, InCategory(selectedCategory))
    ensures selectedCategory != "all" ==>
      forall m :: m in r <==> m in menuItems && m.categoryId == selectedCategory
  {
    if selectedCategory == "all" then menuItems
    else
      Seqs.FilterMembers(menuItems, InCategory(selectedCategory));
      Seqs.Filter(menuItems, InCategory(selectedCategory))
  }

  /** The category view keeps menu order: filtering a menu split in two filters each part
      in turn, so no item moves ahead of one listed before it. */
  lemma FilteredMenuItemsKeepOrder(a: seq<MenuItem>, b: seq<MenuItem>, selectedCategory: string)
    ensures FilteredMenuItems(a + b, selectedCategory)
         == FilteredMenuItems(a, selectedCategory) + FilteredMenuItems(b, selectedCategory)
  {
    if selectedCategory != "all" {
      Seqs.FilterAppend(a, b, InCategory(selectedCategory));
    }
  }

  /** Every category button other than "all" shows at least one item: each listed category
      comes from some item. */
  lemma CategoryButtonsNonEmpty(menuItems: seq<MenuItem>, c: string)
    requires c in Categories(menuItems)[1..]
    ensures FilteredMenuItems(menuItems, c) != []
  {
    var i :| 0 <= i < |menuItems| && menuItems[i].categoryId == c;
    assert menuItems[i] in menuItems;
  }

  /** The category field as the form's code reads it. The menu items it is given carry
      `categoryId`, so the `category_id` it reads is undefined (`None`) on every item. */
  function CategoryFieldAsWritten(m: MenuItem): Option<Id>
  {
    None
  }

  /** `categories` as written: "all", then the distinct values of the field read. */
  function CategoriesAsWritten(menuItems: seq<MenuItem>): (r: seq<Option<Id>>)
    ensures |r| >= 1 && r[0] == Some("all")
    ensures forall c :: c in r[1..] ==> c == None
  {
    var read := seq(|menuItems|, i requires 0 <= i < |menuItems| => CategoryFieldAsWritten(menuItems[i]));
    var d := Seqs.Distinct(read);
    assert ([Some("all")] + d)[1..] == d;
    [Some("all")] + d
  }

  /** `filteredMenuItems` as written: the field read is compared with the selected button's value. */
  function FilteredMenuItemsAsWritten(menuItems: seq<MenuItem>, selected: Option<Id>): (r: seq<MenuItem>)
    ensures |r| <= |menuItems|
  {
    if selected == Some("all") then menuItems
    else Seqs.Filter(menuItems, (m: MenuItem) => CategoryFieldAsWritten(m) == selected)
  }

  /** As written, a non-empty menu gets exactly one category button after "all", whatever
      categories its items belong to; that button shows the whole menu, and selecting a real
      category id shows nothing. */
  lemma CategoriesAsWrittenCollapse(menuItems: seq<MenuItem>, c: Id)
    requires menuItems != [] && c != "all"
    ensures CategoriesAsWritten(menuItems) == [Some("all"), None]
    ensures FilteredMenuItemsAsWritten(menuItems, None) == menuItems
    ensures FilteredMenuItemsAsWritten(menuItems, Some(c)) == []
  {
    var read := seq(|menuItems|, i requires 0 <= i < |menuItems| => CategoryFieldAsWritten(menuItems[i]));
    Seqs.DistinctOfConstant(read, None);
    Seqs.FilterKeepsAll(menuItems, (m: MenuItem) => CategoryFieldAsWritten(m) == None);
    Seqs.FilterKeepsNone(menuItems, (m: MenuItem) => CategoryFieldAsWritten(m) == Some(c));
  }

  function SampleMenu(): seq<MenuItem>
  {
    [MenuItem("m1", "Soup", None, 5.0, "starters", true), MenuItem("m2", "Curry", None, 12.0, "mains", true)]
  }

  /** A two-category menu: the intended form offers both categories and shows the mains
      under "mains"; as written it offers a single unnamed button and shows nothing under
      "mains". */
  lemma CategoryFieldMismatchExample()
    ensures |Categories(SampleMenu())| == 3
    ensures FilteredMenuItems(SampleMenu(), "mains") == [SampleMenu()[1]]
    ensures |CategoriesAsWritten(SampleMenu())| == 2
    ensures FilteredMenuItemsAsWritten(SampleMenu(), Some("mains")) == []
  {
    var menu := SampleMenu();
    var starter, main := menu[0], menu[1];
    assert menu == [starter, main];
    CategoriesAsWrittenCollapse(menu, "mains");
    assert CategoryIds(menu) == ["starters", "mains"];
    Seqs.DistinctOfTwo("starters", "mains");
    Seqs.FilterCons(starter, [main], InCategory("mains"));
    Seqs.FilterCons(main, [], InCategory("mains"));
  }

  /** Clicking a menu card: only an available item is added. */
  function MenuItemClicked(items: seq<OrderItem>, menuItem: MenuItem, newId: Id): (r: seq<OrderItem>)
    ensures !menuItem.available ==> r == items
    ensures menuItem.available ==> r == AddItem(items, menuItem, newId)
  {
    if menuItem.available then AddItem(items, menuItem, newId) else items
  }
}
