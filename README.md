# TableSync: a verified model of the order, list and store logic

TableSync is a restaurant point-of-sale web application. Waiters open orders at tables,
add menu items to a cart, and send the order to the kitchen. Managers browse menu, order,
bill and table lists and watch a dashboard. Everything is kept in a hosted relational store
with four tables: `tables`, `orders`, `order_items` and `bills`.

This project models three parts of that application in Dafny and proves properties of them.

1. **Order carts**
   - The create-order screen's cart of draft lines (`CreateOrderPage`). It is a class whose
     `selectedItems` field the handlers replace, mirroring the copy-then-write-a-slot handlers.
   - The order form's cart of order items keyed by line id (`OrderFormComponent`).
   - The quantity stepper of one cart line (`OrderItemStepper`).
2. **List screens and the dashboard**
   - The filters of the menu, bills, orders and tables screens (`MenuPage`, `BillsPage`,
     `OrdersPage`, `TablesPage`), and the newest-first sort of bills and orders.
   - The dashboard's statistics and its three most recent orders (`DashboardPage`). The
     statistics record is a class field that the data-change effect replaces.
3. **Store services**
   - The store is a `Store.Database` class with one map per relational table, from row id
     to row (`Rows` holds the row shapes).
   - Each write primitive takes a `fail` flag, so a service that performs several writes can
     stop half-way and leave the earlier writes in place, as the services do: there is no
     rollback.
   - `OrderService`, `BillService` and `TableService` model the fetch joins and mappings and
     the write sequences of the three service files.

Shared building blocks:
- `Seqs`: filtering, summing, a stable descending insertion sort, prefix and de-duplication.
  These stand for JavaScript's `filter`, `reduce`, `sort`, `slice` and `new Set`.
- `Text`: whitespace trimming, ASCII lower-casing, substring search, integer-to-decimal
  conversion and a decimal `parseInt`.
- `Domain`: the entities of `src/utils/types.ts`.
- `Fixtures`: the sample data of `src/utils/dummyData.ts`, used as concrete checks.

Modelling conventions:
- Money is `real`, so tax = subtotal / 10 and total = subtotal + tax hold exactly.
- Quantities and timestamps are `int`; ids are strings.
- Status columns are datatypes, with `...StatusName` giving the string each screen compares
  against its selector value.
- Newly generated ids (uuids) and the current time are parameters. A new id is required to be
  absent from the map it is inserted into.
- Every store query's result order is a parameter: the row sequences handed to the fetch
  functions are what the store returned.
- JavaScript's `x || null` / `x || undefined` on an optional string is `Rows.Truthy`: an empty
  string becomes absent.

## Model

| member | source | states |
|---|---|---|
| CreateOrderPage.FindLine | src/pages/CreateOrder.tsx:73-75 | the index of the first line holding the menu item, or -1 exactly when no line holds it |
| CreateOrderPage.AddListedItem | src/pages/CreateOrder.tsx:77-81 | adding a menu item already in the cart adds 1 to that line's quantity; the length and every other line stay the same, and the total grows by the item's price |
| CreateOrderPage.AddUnlistedItem | src/pages/CreateOrder.tsx:82-88 | adding a menu item not in the cart appends exactly one line, with quantity 1 and empty notes, and the total grows by its price |
| CreateOrderPage.AddedItemKeepsDistinct | src/pages/CreateOrder.tsx:71-89 | adding keeps the menu-item ids in the cart pairwise distinct |
| CreateOrderPage.QuantityUpdatedSpec | src/pages/CreateOrder.tsx:91-97 | a quantity of 0 or less leaves the cart unchanged; otherwise only line `index` changes, and only its quantity |
| CreateOrderPage.NotesUpdatedSpec | src/pages/CreateOrder.tsx:99-103 | only line `index` changes, and only its notes |
| CreateOrderPage.WithoutPositionSlices | src/pages/CreateOrder.tsx:105-107 | filtering by position drops exactly the line at the given index |
| CreateOrderPage.RemovedSpec | src/pages/CreateOrder.tsx:105-107 | removal by index is the cart with that one line cut out, the others in their order; an index out of range changes nothing |
| CreateOrderPage.CalculateTotalSplit | src/pages/CreateOrder.tsx:109-113 | the total is 0 for an empty cart and adds up over a split cart (a sum of price × quantity) |
| CreateOrderPage.AvailableTables | src/pages/CreateOrder.tsx:58-60 | the tables offered are exactly those that are available or reserved |
| CreateOrderPage.AvailableMenuItems | src/pages/CreateOrder.tsx:61-62 | the menu items offered are exactly the available ones |
| CreateOrderPage.FindTable | src/pages/CreateOrder.tsx:125-129 | the table with the chosen id, or nothing exactly when no table has it |
| CreateOrderPage.Submit | src/pages/CreateOrder.tsx:115-153 | an empty cart or an unknown table produces no order; otherwise the payload has one pending item per line with the menu item's name and price, status active, payment pending, tax = subtotal / 10 and total = subtotal + tax |
| CreateOrderPage.CreateOrderForm.constructor | src/pages/CreateOrder.tsx:71 | the cart starts empty |
| CreateOrderPage.CreateOrderForm.CopyLines | src/pages/CreateOrder.tsx:72 | the spread copy holds the cart's lines in order |
| CreateOrderPage.CreateOrderForm.AddItemToOrder | src/pages/CreateOrder.tsx:71-89 | the new cart is the added-item cart of the old one, and menu-item ids stay distinct |
| CreateOrderPage.CreateOrderForm.UpdateItemQuantity | src/pages/CreateOrder.tsx:91-97 | the new cart is the quantity-updated cart of the old one |
| CreateOrderPage.CreateOrderForm.UpdateItemNotes | src/pages/CreateOrder.tsx:99-103 | the new cart is the notes-updated cart of the old one |
| CreateOrderPage.CreateOrderForm.RemoveItem | src/pages/CreateOrder.tsx:105-107 | the new cart is the old one without the line at that index |
| OrderFormComponent.AddPresentItem | src/components/orders/OrderForm.tsx:35-43 | adding a menu item already present adds 1 to the quantity of the lines with that menu item only; no line is added |
| OrderFormComponent.AddPresentItemSubtotal | src/components/orders/OrderForm.tsx:35-43 | when one line holds the menu item, the subtotal grows by that line's price |
| OrderFormComponent.AddAbsentItem | src/components/orders/OrderForm.tsx:44-56 | adding an absent menu item appends one line with the new id, quantity 1, status pending and the menu price, and the subtotal grows by that price |
| OrderFormComponent.AddItemKeepsInvariants | src/components/orders/OrderForm.tsx:34-59 | with a fresh line id, adding keeps line ids unique and quantities positive |
| OrderFormComponent.UpdateQuantitySpec | src/components/orders/OrderForm.tsx:61-65 | lines with that id get the new quantity and no other field or line changes; the length is kept |
| OrderFormComponent.UpdateQuantitySubtotal | src/components/orders/OrderForm.tsx:61-65 | with unique ids, the subtotal changes by price × (new quantity − old quantity) of that line |
| OrderFormComponent.RemoveItemSpec | src/components/orders/OrderForm.tsx:67-69 | removal keeps exactly the lines with another id, in order |
| OrderFormComponent.RemoveLine | src/components/orders/OrderForm.tsx:67-69 | with unique ids, removing line k's id cuts out exactly line k, lowers the subtotal by its amount and keeps ids unique and quantities positive |
| OrderFormComponent.RemoveLineSlices | src/components/orders/OrderForm.tsx:67-69 | with unique ids, removing line k's id leaves the lines before and after k |
| OrderFormComponent.StepperKeepsQuantitiesPositive | src/components/orders/OrderForm.tsx:61-65 | a quantity request from a line's stepper keeps every quantity in the cart positive |
| OrderFormComponent.HandleSubmit | src/components/orders/OrderForm.tsx:71-84 | with non-blank notes and a non-empty cart only the last line gains the notes; otherwise the cart is passed on unchanged; the subtotal never changes |
| OrderFormComponent.CategoryIds | src/components/orders/OrderForm.tsx:32 | one category id per menu item, in menu order |
| OrderFormComponent.Categories | src/components/orders/OrderForm.tsx:32 | "all" first, then each category id of the menu exactly once and nothing else |
| OrderFormComponent.CategoriesInFirstAppearanceOrder | src/components/orders/OrderForm.tsx:32 | the categories after "all" come in the order of their first appearance in the menu |
| OrderFormComponent.FilteredMenuItems | src/components/orders/OrderForm.tsx:88-90 | "all" shows the whole menu; any other category shows the menu filtered by that category, so exactly its items |
| OrderFormComponent.FilteredMenuItemsKeepOrder | src/components/orders/OrderForm.tsx:88-90 | filtering a menu split in two filters each part in turn, so items keep menu order and multiplicity |
| OrderFormComponent.CategoryButtonsNonEmpty | src/components/orders/OrderForm.tsx:32-90 | every category button after "all" shows at least one item |
| OrderFormComponent.CategoriesAsWrittenCollapse | src/components/orders/OrderForm.tsx:32-90 | as written, a non-empty menu gets one category button after "all", whatever its categories; that button shows everything and a real category id shows nothing |
| OrderFormComponent.CategoryFieldMismatchExample | src/components/orders/OrderForm.tsx:32-90 | on a two-category menu the intended form offers both categories, and the form as written offers one button and shows nothing under "mains" |
| OrderFormComponent.MenuItemClicked | src/components/orders/OrderForm.tsx:122 | clicking an unavailable item changes nothing; an available item is added |
| OrderItemStepper.MinusClicked | src/components/orders/OrderItem.tsx:43 | minus requests quantity − 1 for the same line, but never less than 1 |
| OrderItemStepper.PlusClicked | src/components/orders/OrderItem.tsx:63 | plus requests exactly one more than the line holds, for the same line |
| OrderItemStepper.MinusUndoesPlus | src/components/orders/OrderItem.tsx:43-63 | minus after plus returns to the original quantity |
| OrderItemStepper.QuantityTyped | src/components/orders/OrderItem.tsx:52-57 | a typed value is forwarded exactly when it parses to an integer above 0, and the request carries that parsed value |
| OrderItemStepper.QuantityTypedDigits | src/components/orders/OrderItem.tsx:52-57 | leading whitespace and anything after the digits do not matter: the digits' value is forwarded when it is above 0 |
| OrderItemStepper.QuantityTypedDecimal | src/components/orders/OrderItem.tsx:52-57 | typing the decimal form of n forwards n when n > 0 and nothing otherwise |
| OrderItemStepper.StepperRequestsPositive | src/components/orders/OrderItem.tsx:43-63 | every request from minus, plus or typing names the line and is at least 1 |
| OrderFormComponent.RemoveButtonDropsLine | src/components/orders/OrderItem.tsx:72 | the line's remove button passes its own id, and the form's removal then drops exactly that line and keeps the rest in order |
| OrderItemStepper.LineTotal | src/components/orders/OrderItem.tsx:32 | the shown line total is price × quantity and is not negative for a non-negative price |
| MenuPage.FilteredItems | src/pages/Menu.tsx:29-43 | the shown items are exactly the menu items passing the search, category and availability tests |
| MenuPage.FilteredItemsKeepOrder | src/pages/Menu.tsx:29-43 | the result keeps menu order: filtering a concatenation filters each part in turn |
| MenuPage.UnfilteredShowsEverything | src/pages/Menu.tsx:31-40 | an empty search with both selectors on "all" shows the whole menu |
| MenuPage.SearchIgnoresCase | src/pages/Menu.tsx:31 | lower-casing the search text does not change the result |
| MenuPage.SearchFindsVerbatim | src/pages/Menu.tsx:31 | a name containing the search text is found |
| MenuPage.UnknownAvailabilityShowsNothing | src/pages/Menu.tsx:37-40 | an availability value other than "all", "available" and "unavailable" hides every item |
| MenuPage.AvailabilityPartitions | src/pages/Menu.tsx:37-40 | the "available" and "unavailable" lists together are as long as the "all" list |
| MenuPage.CategoryCount | src/pages/Menu.tsx:163 | a category's count is at most the menu size |
| MenuPage.CategoryCountMatchesFilter | src/pages/Menu.tsx:163 | a category's count equals the number of items the items tab lists for that category |
| MenuPage.CategoryCountsDisjoint | src/pages/Menu.tsx:163 | two categories' counts add up to at most the menu size |
| BillsPage.FilteredBills | src/pages/Bills.tsx:25-33 | the result is a permutation of the bills passing the table-number search and the payment-status filter, newest first |
| BillsPage.SameTimeKeepsStoreOrder | src/pages/Bills.tsx:33 | bills created at the same time keep their store order |
| BillsPage.UnfilteredListsEveryBill | src/pages/Bills.tsx:25-33 | an empty search and "all" list every bill |
| BillsPage.StatusFilterSelectsOne | src/pages/Bills.tsx:30 | a status value selects exactly the bills with that payment status |
| BillsPage.SearchIsSubstring | src/pages/Bills.tsx:27 | a bill is found by its own table number, and by any part of it |
| OrdersPage.FilteredOrders | src/pages/Orders.tsx:25-33 | the result is a permutation of the orders passing the table-number search and the status filter, newest first |
| OrdersPage.SameTimeKeepsStoreOrder | src/pages/Orders.tsx:33 | orders created at the same time keep their store order |
| OrdersPage.UnfilteredListsEveryOrder | src/pages/Orders.tsx:25-33 | an empty search and "all" list every order |
| OrdersPage.StatusFilterSelectsOne | src/pages/Orders.tsx:30 | a status value selects exactly the orders with that status |
| OrdersPage.SearchIsSubstring | src/pages/Orders.tsx:27 | an order is found by its own table number, and by any part of it |
| TablesPage.FilteredTables | src/pages/Tables.tsx:31-39 | no table list gives an empty result; otherwise exactly the tables passing both tests |
| TablesPage.FilteredTablesKeepOrder | src/pages/Tables.tsx:31-38 | the result keeps the tables' order |
| TablesPage.UnfilteredListsEveryTable | src/pages/Tables.tsx:33-36 | an empty search and "all" list every table, in order |
| TablesPage.StatusFilterSelectsOne | src/pages/Tables.tsx:36 | a status value selects exactly the tables with that status |
| DashboardPage.ComputeStats | src/pages/Index.tsx:36-39 | active orders, occupied tables and available tables are the lengths of the lists filtered by status; their table counts fit within all tables; total sales is the sum of every order's total |
| DashboardPage.TableCountsPartition | src/pages/Index.tsx:37-38 | the occupied count, the available count and the reserved or inactive tables add up to all tables, and a table is on neither card exactly when it is reserved or inactive |
| DashboardPage.TotalSalesIncludesEveryStatus | src/pages/Index.tsx:39 | total sales is the active orders' sales plus the other orders' sales |
| DashboardPage.ActiveOrdersComplement | src/pages/Index.tsx:36 | active and non-active orders add up to all orders |
| DashboardPage.Dashboard.constructor | src/pages/Index.tsx:16-21 | the statistics start at zero |
| DashboardPage.Dashboard.OnDataChanged | src/pages/Index.tsx:33-48 | the statistics are recomputed only when both lists are non-empty; otherwise they are kept |
| DashboardPage.RecentOrders | src/pages/Index.tsx:50-52 | at most three orders, newest first, taken from the list with no order repeated more often than it occurs there |
| DashboardPage.RecentOrdersAreNewest | src/pages/Index.tsx:50-52 | every order left out is no newer than the ones shown |
| Rows.Truthy | src/services/orderService.ts:39 | an empty or absent string becomes absent; any other string is kept |
| Rows.TruthyRoundTrip | src/services/orderService.ts:101 | normalising twice is normalising once, and leaves every value but the empty string unchanged |
| Rows.ItemFromRow | src/services/orderService.ts:34-41 | an item copies its row's id, menu item id and name, quantity, price and status, and its notes are absent when null or empty |
| Rows.ItemsOf | src/services/orderService.ts:31-41 | an order's items are the item rows with its id, mapped in row order |
| Rows.ItemsOfMembers | src/services/orderService.ts:31-33 | every item row of the order yields an item, and every item comes from such a row |
| Rows.ItemsOfRestrictedFetch | src/services/orderService.ts:19-22 | fetching only the rows of the listed orders does not change a listed order's items |
| Store.AddRowsSpec | src/services/orderService.ts:106-113 | inserting item rows with distinct ids adds exactly those ids, stores each row, and leaves the other rows alone |
| Store.AddRowsKeepsReferences | src/services/orderService.ts:94-113 | inserted item rows referring to existing orders keep every item row referring to an order |
| Store.SetTableStatus | src/services/tableService.ts:57-63 | only the row with the id changes, to the new status and current order; a missing id changes nothing |
| Store.PaidRow | src/services/billService.ts:117-124 | a paid row is status paid with the method and time; id, order id, table number, subtotal, tax, total and creation time are unchanged |
| Store.PaymentOverwrites | src/services/billService.ts:117-124 | paying twice keeps the second method and time |
| Store.Database.constructor | src/types/supabase.ts:14-179 | the store starts empty and consistent |
| Store.Database.InsertOrder | src/services/orderService.ts:73-86 | a successful insert adds the order row; nothing else changes |
| Store.Database.InsertOrderItems | src/services/orderService.ts:106-113 | a successful insert adds the item rows; nothing else changes |
| Store.Database.UpdateTable | src/services/tableService.ts:57-63 | a successful update sets the table's status and current order; nothing else changes |
| Store.Database.InsertTable | src/services/tableService.ts:26-36 | a successful insert adds the table row; nothing else changes |
| Store.Database.UpdateOrderItem | src/services/orderService.ts:152-155 | a successful update sets the item row's status only; nothing else changes |
| Store.Database.InsertBill | src/services/billService.ts:80-91 | a successful insert adds the bill row; nothing else changes |
| Store.Database.UpdateBillPaid | src/services/billService.ts:117-124 | a successful update marks the bill row paid; nothing else changes |
| OrderService.OrderFromRow | src/services/orderService.ts:43-56 | an order copies every field of its row (id, table, status, both timestamps, subtotal, tax, total, payment status and method) and carries the items of its id |
| OrderService.FetchOrders | src/services/orderService.ts:30-57 | one order per order row, in row order |
| OrderService.FetchOrdersNewestFirst | src/services/orderService.ts:8-11 | rows delivered newest first give orders newest first |
| OrderService.RowIds | src/services/orderService.ts:22 | every fetched order's id is in the id list of the item query |
| OrderService.FetchOrdersRestrictedItems | src/services/orderService.ts:19-33 | restricting the item query to the fetched orders does not change the result |
| OrderService.NewOrderRow | src/services/orderService.ts:73-86 | the new order row is active, payment pending, with no method and equal creation and update times |
| OrderService.ItemRow | src/services/orderService.ts:94-104 | each item row refers to the new order, and empty notes are stored as null |
| OrderService.ItemRows | src/services/orderService.ts:94-104 | exactly one item row per input item, in order |
| OrderService.CreatedOrder | src/services/orderService.ts:130-145 | the returned order is active, payment pending, with equal times, and item i carries id i |
| OrderService.CreatedOrderReadBack | src/services/orderService.ts:94-145 | reading back the stored rows through the fetch mapping gives the returned order, up to empty notes becoming absent |
| OrderService.CreateOrder | src/services/orderService.ts:60-146 | a failed order insert writes nothing; a failed item insert leaves the order row and does not touch the table; on success the table is occupied by the new order and the returned order is the created one; the store stays consistent |
| OrderService.CreatedLinesStored | src/services/orderService.ts:94-113 | after the item insert, each new id holds its item's row for the new order |
| OrderService.UpdateOrderItemStatus | src/services/orderService.ts:148-161 | only the status of the row with that id changes, and a store error is reported |
| BillService.BillFromRow | src/services/billService.ts:53-65 | a bill copies every field of its row, including subtotal, tax, payment method, creation time and paid time, and carries its order's items |
| BillService.BillOrderIds | src/services/billService.ts:19-22 | every bill's order id is queried |
| BillService.FetchedItemRows | src/services/billService.ts:29-32 | the item rows fetched are exactly those of existing orders that some bill refers to |
| BillService.FetchBills | src/services/billService.ts:40-66 | one bill per bill row, in row order |
| BillService.BillWithoutOrderHasNoItems | src/services/billService.ts:19-42 | a bill whose order row is missing has no items |
| BillService.BillWithOrderHasItsItems | src/services/billService.ts:19-42 | a bill whose order exists has exactly its order's items |
| BillService.NewBillRow | src/services/billService.ts:80-91 | the new bill row is pending, with no method and no paid time |
| BillService.CreatedBill | src/services/billService.ts:98-108 | the returned bill is pending, unpaid and carries the given items |
| BillService.CreatedBillReadBack | src/services/billService.ts:53-108 | reading back the new row gives the returned bill when the items match |
| BillService.CreateBill | src/services/billService.ts:69-109 | on success one bill row is added and the created bill returned; an insert error writes nothing and returns an error |
| BillService.UpdateBillPayment | src/services/billService.ts:111-130 | only the bill with the id becomes paid with the method and the time, overwriting an earlier payment; a store error is reported |
| TableService.TableFromRow | src/services/tableService.ts:16-22 | a table copies its row's number, capacity and status; a null current order becomes absent |
| TableService.FetchTables | src/services/tableService.ts:16-22 | one table per row, in row order |
| TableService.FetchTablesByNumber | src/services/tableService.ts:9 | rows ordered by number give tables ordered by number |
| TableService.NewTableRow | src/services/tableService.ts:26-36 | the new row stores the given fields and a missing current order as null |
| TableService.AddedTableKeepsFields | src/services/tableService.ts:26-49 | the returned table has the given number, capacity and status |
| TableService.AddTable | src/services/tableService.ts:25-50 | on success the row is added and its table returned; an error writes nothing |
| TableService.UpdateTableStatus | src/services/tableService.ts:52-69 | only the row with the id changes; an omitted order id clears the current order; a store error is reported |
| TableService.OmittedOrderIdClears | src/services/tableService.ts:59-62 | updating without an order id clears the table's current order and changes no other table |
| Domain.StatusNamesInjective | src/utils/types.ts:1-65 | distinct statuses have distinct names, none of them "all" |
| Domain.Tax | src/pages/CreateOrder.tsx:141-142 | tax is a tenth of the subtotal |
| Text.TrimEmptyIffBlank | src/components/orders/OrderForm.tsx:73 | trimmed notes are empty exactly when they are all whitespace |
| Text.ToLowerIdempotent | src/pages/Menu.tsx:31 | lower-casing twice is lower-casing once |
| Text.IncludesEmptyAndSelf | src/pages/Menu.tsx:31 | the empty search matches every text, and every text contains itself |
| Text.IncludesSlice | src/pages/Bills.tsx:27 | every contiguous piece of a string is found in it |
| Text.IncludesToLower | src/pages/Menu.tsx:31 | a substring stays a substring after lower-casing both |
| Text.IntToDecimal | src/pages/Bills.tsx:27 | the decimal string of a number is non-empty and starts with a minus sign or a digit |
| Text.NatToDecimalValue | src/pages/Bills.tsx:27 | the digits of a natural number's decimal string have that number as value |
| Text.ParseInt | src/components/orders/OrderItem.tsx:53 | parsing gives no number exactly when no digit follows the leading whitespace and optional sign |
| Text.ParseIntSkipsWhitespace | src/components/orders/OrderItem.tsx:53 | leading whitespace does not change what `parseInt` gives |
| Text.ParseIntIgnoresSuffix | src/components/orders/OrderItem.tsx:53 | digits followed by a non-digit parse to the digits' value |
| Text.ParseIntDigits | src/components/orders/OrderItem.tsx:53 | a non-empty string of digits parses to its value |
| Text.ParseIntDecimal | src/components/orders/OrderItem.tsx:53 | parsing the decimal string of n gives back n |
| Text.IntToDecimalInjective | src/pages/Bills.tsx:27 | different numbers have different decimal strings |
| Seqs.SortDescStable | src/pages/Bills.tsx:33 | the sort keeps the input order of equal keys |
| Seqs.DistinctFirstAppearanceOrder | src/components/orders/OrderForm.tsx:32 | de-duplication keeps first appearances in order |
| Fixtures.SubtotalsMatchLines | src/utils/dummyData.ts:41-48 | the sample orders' subtotals equal the sums of their lines |
| Fixtures.StoredTaxIsRounded | src/utils/dummyData.ts:48-50 | the stored sample tax and total are rounded to cents, while the code's tax is exact |
| Fixtures.TablesAndOrdersLinked | src/utils/dummyData.ts:6-9 | the occupied sample tables point at the orders that name them |
| Fixtures.SampleDashboard | src/utils/dummyData.ts:36-69 | the sample data gives two active orders and the sum of both totals as sales |
| Fixtures.SampleRecentOrders | src/utils/dummyData.ts:46-63 | the sample's recent orders are order 2 then order 1 |

## Left out

- Floating point. JavaScript numbers, `toFixed(2)` display and the `* 1.1` display total of
  the create-order screen are not modelled. Money is exact `real`.
- Domain.Tax: the code's tax is unrounded; rounding to cents does not appear in it, so none is modelled.
- `parseInt` is modelled for decimal text only. The `0x` hexadecimal prefix is not modelled.
  Text with no leading digits gives `None` where JavaScript gives `NaN`. NaN would pass the
  `<= 0` guard of the create-order quantity field and cannot be an integer.
- `toLowerCase` is modelled for ASCII letters only. Unicode case mapping is not.
- Object aliasing. The create-order handlers copy the array but write a field of the shared line
  object, which also changes the previous state's line. Lines here are values, so that sharing
  is not captured.
- CreateOrderPage.CreateOrderForm.UpdateItemQuantity and CreateOrderPage.CreateOrderForm.UpdateItemNotes
  require an index inside the cart. An index outside it throws a type error in the code, and the
  screen never passes one.
- The hosted store client, its mock, network timing and `async`: the store is the
  `Store.Database` class. Primary-key conflicts are excluded by requiring fresh ids rather than
  modelled as errors.
- The order in which the store returns rows (`order by` clauses) is a parameter; only what the
  code does with that order is proved.
- Status strings read from the store are cast without checks in the code. Here status columns
  are datatypes, so an unknown stored status cannot be represented.
- BillService.CreateBill does not check that the order exists, since the code does not.
- Authentication, sessions, routing, rendering, printing, form validation and the database setup
  screens are not part of this model.
- The duplicate accessors under `src/api/` are not part of this model. They have no
  `createOrder`, so the create-order screen's payload (`CreateOrderPage.Submit`) is modelled
  instead of its call.
- No code completes an order into a bill or frees its table. The order details screen only sets
  the status to completed, so no such workflow is modelled.
- Paying a bill twice overwrites `paid_at` and the method (`Store.PaymentOverwrites`); the code does
  this, so the first payment time is not kept.
- The sample tables' status counts are not stated: filtering eight literal tables is beyond the
  verifier's budget here. The sample orders, stats and recent orders are stated.
- `Date.now`, uuid generation and date formatting are parameters or not modelled.
- OrderFormComponent.AddItem, OrderFormComponent.CategoryIds, OrderFormComponent.Categories and
  OrderFormComponent.FilteredMenuItems use the camelCase fields (`categoryId`, `menuItemId`,
  `menuItemName`) of `src/utils/types.ts`. The form's code reads and writes `category_id`,
  `menu_item_id` and `menu_item_name`, which the menu items it is given do not carry. The
  category half of this is stated under "## Findings". The line half is not modelled: lines the
  form builds lack `menuItemId` and `menuItemName`, so `createOrder` would store them as
  undefined.

## Findings

| source | as written | input that shows it | evidently intended | confidence | as-written member | corrected member |
|---|---|---|---|---|---|---|
| src/components/orders/OrderForm.tsx:32-90 | the category buttons and the category filter read `item.category_id`, but the menu items come from `fetchMenuItems`, which maps that column to `categoryId` | a menu with a "starters" item and a "mains" item: one button after "all" instead of two, and nothing under "mains" | read `categoryId`, the field of the `MenuItem` type | medium, not executed | OrderFormComponent.CategoriesAsWrittenCollapse | OrderFormComponent.FilteredMenuItems |
