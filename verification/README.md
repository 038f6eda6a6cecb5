# Order back office: a Dafny model of its order logic and data layer

This project models the business core of a small order-management back office:
a catalog of categories, customers and products, and orders with their lines.
It covers five parts.

- **Schema** (`schema.dfy`). The five tables, their enumerations and column
  defaults. It also states what the database keeps true at all times:
  - keys are autoincrement values that increase in insertion order;
  - the order number is unique;
  - every foreign key resolves.
- **Write side of the data-access layer** (`store.dfy`).
  - Each `create*`, `update*` and `delete*` is first a pure transition on the
    tables, which lemmas can talk about.
  - A method of the `Database` class then performs it in place.
  - `Database.store` is `None` when no connection can be made. Then every
    write fails and nothing changes.
- **Read side** (`queries.dfy`). The list queries with their search filters
  and orderings, the look-ups by key, the order-with-details join, and the
  dashboard figures.
- **API procedures** (`routers.dfy`).
  - The input rules of the catalog and order procedures.
  - `orders.create`: it computes the totals, stamps the order number, writes
    the header and then writes the lines one at a time.
  - `orders.updateStatus`.
- **New-order page** (`new_order.dfy`). The form state and its `addItem`,
  `removeItem`, `calculateTotal` and `handleSubmit`.

Helper modules:
- `rows.dfy`: rows, key look-up, filtering, updating by key, sorting.
- `pricing.dfy`: line totals and the subtotal fold.
- `decimal.dfy`: decimal rendering and reading of naturals.
- `wrappers.dfy`: `Option` and `Result`.

Modelling conventions:
- Money is integer cents, as in the schema.
- Time is an integer the caller supplies. This covers the `createdAt` stamp
  and the clock reading behind the order number.
- The database connection is `Option<Tables>`.

Where the code and its documentation disagree, the model follows the code.
- Updating or deleting a key that does not exist is a silent no-op, not an error.
- `orders.create` accepts an empty list of lines.
- The payment method is validated but never stored, because the `orders`
  table has no column for it.
- The header and the lines are written one after another, with no
  transaction. A refused line leaves the header and the earlier lines in
  place (`Routers.PlaceOrderEffect`, `PartlyWritten`).
- Deleting a category, customer or product that is still referenced is
  refused. Those foreign keys have no `ON DELETE` rule, so the database's
  default (restrict) applies. Deleting an order cascades to its lines.

## Model

| member | source | states |
|---|---|---|
| Schema.ParseStatus | drizzle/schema.ts:85-91 | a tag is accepted exactly when it is one of the five status tags, and it reads back as that status |
| Schema.ParseType | drizzle/schema.ts:66 | a product type tag is accepted exactly when it is "product" or "service" |
| Schema.DefaultsApplied | drizzle/schema.ts:49-94 | omitted columns take their defaults (customer and product `active` true, type product, unit "un", status pending, discount 0); a supplied type, unit, status, discount or `active` is kept, and so are the amounts |
| Rows.Find | server/db.ts:112-117 | `WHERE id = ? LIMIT 1`: absent exactly when no row has the key, otherwise a stored row with that key |
| Rows.FindUnique | server/db.ts:264-269 | under increasing keys the look-up returns the one row stored under that key |
| Rows.Filter | server/db.ts:309-313 | a `WHERE` clause keeps exactly the rows that satisfy it and no more rows than there were |
| Rows.FilterMultiset | server/db.ts:309-313 | a `WHERE` clause keeps every copy of a selected row and nothing else |
| Rows.FilterKeysIncreasing | drizzle/schema.ts:109 | filtering (as the delete cascade does) keeps keys increasing |
| Rows.UpdateKeepsKeys | server/db.ts:126-130 | an `UPDATE ... WHERE id = ?` leaves every key in place |
| Rows.UpdateMissing | server/db.ts:126-130 | an update of a key that is not stored changes nothing |
| Rows.Sort | server/db.ts:109 | `ORDER BY` returns a permutation of its input, sorted by the given total preorder |
| Rows.LexLeTotal | server/db.ts:109 | the name order compares every pair of names |
| Rows.LexLeTransitive | server/db.ts:109 | the name order is transitive |
| Store.PatchIdempotent | server/db.ts:174-178 | applying the same partial update twice equals applying it once |
| Store.PatchStatusOnly | server/routers.ts:262 | the status-only patch changes the status and no other column |
| Store.EmptyPatchIdentity | server/db.ts:174-178 | a partial update that supplies no field changes nothing |
| Store.PatchedOrders | server/db.ts:295-299 | only rows with the key take the patch; the others and the length are unchanged; a missing key leaves the table as it was |
| Store.PatchedProducts | server/db.ts:229-233 | only rows with the key take the patch; a missing key leaves the table as it was |
| Store.WithCategoryInserted | server/db.ts:119-124 | appends one row under a fresh key; the tables stay valid; the other tables are untouched |
| Store.WithCategoryUpdated | server/db.ts:126-130 | the category table becomes the patched table; everything else is unchanged |
| Store.WithCategoryDeleted | server/db.ts:132-136 | refused with a foreign-key error exactly when a product uses the category; otherwise exactly that key is removed |
| Store.WithCustomerInserted | server/db.ts:167-172 | appends the customer with `active` defaulted, under a fresh key |
| Store.WithCustomerUpdated | server/db.ts:174-178 | the customer table becomes the patched table; everything else is unchanged |
| Store.WithCustomerDeleted | server/db.ts:180-184 | refused exactly when an order references the customer; otherwise exactly that key is removed |
| Store.WithProductInserted | server/db.ts:222-227 | refused exactly when a given category does not exist; otherwise appends the product with its defaults under a fresh key |
| Store.WithProductUpdated | server/db.ts:229-233 | refused exactly when the row exists and the patch names a missing category; otherwise the products become the patched table |
| Store.WithProductDeleted | server/db.ts:235-239 | refused exactly when an order line references the product; otherwise exactly that key is removed |
| Store.WithOrderInserted | server/db.ts:288-293 | refused exactly when the customer is missing (foreign key) or the order number is taken (duplicate); otherwise appends the header under a fresh key |
| Store.WithOrderUpdated | server/db.ts:295-299 | any insertable column can be patched; when the row exists, refused with a foreign-key error exactly when the patch names a missing customer, and with a duplicate error exactly when it gives the order another order's number; otherwise the order table becomes the patched table and everything else is unchanged |
| Store.WithOrderDeleted | server/db.ts:301-305 | removes exactly the order with that key and, by the cascade, exactly its lines; the other tables are untouched |
| Store.WithOrderItemInserted | server/db.ts:315-320 | refused exactly when the order or product is missing; otherwise appends the line under a fresh key |
| Store.WithOrderItemDeleted | server/db.ts:322-326 | removes exactly the line with that key |
| Store.Database.CreateCategory | server/db.ts:119-124 | without a connection: fails and changes nothing; otherwise returns the new key and installs the insert transition |
| Store.Database.UpdateCategory | server/db.ts:126-130 | without a connection: fails and changes nothing; otherwise succeeds and installs the update transition |
| Store.Database.DeleteCategory | server/db.ts:132-136 | without a connection: fails; otherwise a refused delete reports its error and keeps the tables, an accepted one installs the new tables |
| Store.Database.CreateCustomer | server/db.ts:167-172 | without a connection: fails; otherwise returns the new key and installs the insert |
| Store.Database.UpdateCustomer | server/db.ts:174-178 | without a connection: fails; otherwise installs the update |
| Store.Database.DeleteCustomer | server/db.ts:180-184 | without a connection: fails; otherwise a refusal keeps the tables and an acceptance installs them |
| Store.Database.CreateProduct | server/db.ts:222-227 | without a connection: fails; a refusal keeps the tables; otherwise returns the new key |
| Store.Database.UpdateProduct | server/db.ts:229-233 | without a connection: fails; otherwise a refusal keeps the tables and an acceptance installs them |
| Store.Database.DeleteProduct | server/db.ts:235-239 | without a connection: fails; otherwise a refusal keeps the tables and an acceptance installs them |
| Store.Database.CreateOrder | server/db.ts:288-293 | without a connection: fails; a refusal keeps the tables; otherwise returns the new key |
| Store.Database.UpdateOrder | server/db.ts:295-299 | without a connection: fails; otherwise a refused update reports its error and keeps the tables, an accepted one installs them |
| Store.Database.DeleteOrder | server/db.ts:301-305 | without a connection: fails; otherwise installs the cascading delete |
| Store.Database.CreateOrderItem | server/db.ts:315-320 | without a connection: fails; a refusal keeps the tables; otherwise returns the new key |
| Store.Database.DeleteOrderItem | server/db.ts:322-326 | without a connection: fails; otherwise removes the line |
| Queries.AllCategories | server/db.ts:106-110 | all categories (as a multiset), sorted by name; empty without a connection |
| Queries.ContainsIsSubstring | server/db.ts:148-151 | `LIKE '%term%'` as modelled holds exactly when the term occurs as a contiguous piece at some position of the text |
| Queries.AllCustomers | server/db.ts:140-158 | exactly the customers whose name, email, phone or document contains a non-empty term (all of them for an absent or empty term), newest first |
| Queries.AllProducts | server/db.ts:188-213 | exactly the products matching a non-empty term on name, description or sku and a non-zero category id, newest first |
| Queries.AllOrders | server/db.ts:243-262 | exactly the orders matching a non-empty status tag and a non-zero customer id, newest first |
| Queries.UnknownStatusListsNothing | server/db.ts:249-251 | a non-empty status filter that is not one of the five tags lists no order |
| Queries.CategoryById | server/db.ts:112-117 | absent exactly without a connection or without a row for the key |
| Queries.CustomerById | server/db.ts:160-165 | absent exactly without a connection or without a row for the key |
| Queries.ProductById | server/db.ts:215-220 | absent exactly without a connection or without a row for the key |
| Queries.OrderById | server/db.ts:264-269 | absent exactly without a connection or without a row for the key |
| Queries.ItemsOfOrder | server/db.ts:309-313 | exactly the stored lines whose order key matches, every copy of each |
| Queries.OrderWithDetails | server/db.ts:271-286 | absent exactly when the order is missing; otherwise the order, exactly its lines and the look-up of its customer |
| Queries.DetailsHaveCustomer | server/db.ts:279 | in a consistent database the customer of an existing order is found |
| Queries.DashboardStats | server/db.ts:330-350 | no figures without a connection; otherwise the three row counts, the pending count (at most the order count) and the revenue of completed orders |
| Queries.EmptyDashboard | server/db.ts:334-349 | an empty database reports zero for every figure |
| Queries.CountOneChanged | server/db.ts:337 | replacing one order moves the count of a status by that order's own contribution, before and after |
| Queries.RevenueOneChanged | server/db.ts:339-341 | replacing one order moves the revenue by that order's own contribution, before and after |
| Queries.StatusChangeStats | server/routers.ts:256-264 | a status update moves the pending count and the revenue by the one order's contribution and leaves the three counts alone |
| Pricing.LineTotal | server/routers.ts:248 | an accepted line's total is at least 0 and at least its unit price |
| Pricing.Subtotal | server/routers.ts:218-220 | the sum over no lines is 0; the sum of accepted lines is never negative |
| Pricing.SubtotalCoversLines | server/routers.ts:218-220 | the sum of accepted lines is at least each single line total |
| Pricing.SubtotalConcat | server/routers.ts:218-220 | the sum over two lists joined is the sum of their sums |
| Pricing.SubtotalIsSumFromFront | server/routers.ts:218-220 | the left fold equals the sum taken from the front |
| Pricing.SubtotalAppend | client/src/pages/NewOrder.tsx:64 | appending a line adds exactly its line total |
| Pricing.SubtotalRemove | client/src/pages/NewOrder.tsx:70-72 | removing the line at an index subtracts exactly its line total |
| Decimal.ParseShow | server/routers.ts:224 | reading back a rendered number gives the number |
| Decimal.ShowInjective | server/routers.ts:224 | distinct numbers render as distinct strings |
| Routers.CheckCategoryCreate | server/routers.ts:33-41 | accepted exactly when the name is non-empty; the category is passed on unchanged |
| Routers.CheckCategoryUpdate | server/routers.ts:43-53 | accepted exactly when a given name is non-empty |
| Routers.CheckCustomerCreate | server/routers.ts:79-95 | accepted exactly when the name is non-empty |
| Routers.CheckCustomerUpdate | server/routers.ts:97-115 | accepted exactly when a given name is non-empty |
| Routers.CheckProductCreate | server/routers.ts:142-156 | accepted exactly when the name is non-empty, the type is one of the two tags and the price is at least 0; a missing unit becomes "un" |
| Routers.CheckProductUpdate | server/routers.ts:158-174 | accepted exactly when each given field obeys the creation rule; nothing gets a default |
| Routers.ParsePayment | server/routers.ts:204 | a tag is accepted exactly when it is one of the seven payment tags |
| Routers.PaymentRoundTrip | server/routers.ts:204 | every payment method's tag reads back as that method |
| Routers.ValidateCreateOrder | server/routers.ts:201-215 | accepted exactly with a customer number, a valid payment method, lines of at least one unit and price at least 0, and a discount of at least 0; a rejection names the payment method exactly when it is at fault; an acceptance keeps the fields and defaults the discount to 0 |
| Routers.EmptyOrderAccepted | server/routers.ts:205-211 | an order with no lines passes the input rule |
| Routers.FinalAmountCanBeNegative | server/routers.ts:221 | for every order, a discount above the subtotal gives a negative final amount (no clamp) |
| Routers.OrderNumber | server/routers.ts:224 | the number is "PED-" followed by the decimal clock reading, which reads back as the clock |
| Routers.OrderNumberInjective | server/routers.ts:224 | distinct clock readings give distinct order numbers |
| Routers.Header | server/routers.ts:218-238 | the header is pending, its total is the lines' subtotal, its final amount is total minus discount (at most the total when the discount is at least 0), and it carries the order number, customer, user, notes and delivery date |
| Routers.ItemRows | server/routers.ts:241-251 | one line per requested line, in request order, each a snapshot of the request with its own line total |
| Routers.LinesTotalOfWritten | server/routers.ts:241-251 | stored lines carrying the written snapshots add up to the subtotal of the request |
| Routers.WithItemsInserted | server/routers.ts:241-251 | the line loop as a transition: the tables stay valid; by `ItemsInsertedShape` and `ItemsInsertedStop` it appends rows carrying exactly the lines before the first refused one, in order, touches no other table, and fails with a foreign-key error exactly when such a line exists |
| Routers.ItemsInsertedShape | server/routers.ts:241-251 | the line writes touch only the line table and append rows carrying the first lines, in order |
| Routers.ItemsInsertedStop | server/routers.ts:241-251 | the line writes write exactly the lines before the first one whose order or product is missing, and fail with a foreign-key error exactly when there is such a line |
| Routers.ItemsInsertedOutcome | server/routers.ts:241-251 | the line writes succeed exactly when every line was written; on failure the line at the stop names a missing order or product |
| Routers.FirstRefused | server/routers.ts:241-251 | the first refused line: all lines before it are accepted, and it is refused |
| Routers.PlaceOrder | server/routers.ts:201-254 | a rejected input writes nothing and reports the failing fields; without a connection nothing changes; a missing customer or a taken number is refused with nothing written; a success or a failure that wrote something needs a checked input and a connection; the tables stay valid |
| Routers.PlaceOrderEffect | server/routers.ts:227-254 | on success the header, read back, is pending with the computed amounts, the lines are one per request line in order and add up to the total, the line table is the old one followed by exactly those rows, and the other tables are untouched; whenever the header was accepted and the call fails, the failure is a foreign-key error, the store has changed: it keeps the header and leaves the old line table followed by exactly the lines before the first one whose product is missing, with the other tables untouched |
| Routers.PlaceOrderSucceeds | server/routers.ts:201-254 | `orders.create` succeeds exactly when the input passes the check, there is a connection, the customer exists, the order number is free and every line's product exists |
| Routers.HeaderThenLines | server/routers.ts:227-251 | the header write followed by the line writes leaves a complete order on success (`OrderWritten`) and, on failure, the header and exactly the lines before the first refused one (`PartlyWritten`), with the other tables and the old lines kept; it succeeds exactly when every requested product exists |
| Routers.LinesResolveExactly | server/routers.ts:241-251 | once the order exists, its line writes succeed exactly when every requested product exists, and a refusal is a foreign-key error |
| Routers.PlacedOrderReadBack | server/routers.ts:253 | the returned key reads back as the written header, and its lines add up to the subtotal |
| Routers.FreshOrderLines | server/routers.ts:241-251 | reading the new order's lines returns exactly the appended rows, each a snapshot of its request line |
| Routers.CreateOrder | server/routers.ts:201-254 | the procedure's effect on the database and its answer are those of `PlaceOrder`, so `PlaceOrderEffect` describes what it leaves, and it succeeds exactly when the input passes the check, there is a connection, the customer exists, the order number is free and every line's product exists |
| Routers.WriteLines | server/routers.ts:241-251 | the loop leaves the database and answer that the sequential line writes give |
| Routers.UpdateStatus | server/routers.ts:256-264 | an unknown status tag is refused and writes nothing; without a connection it fails; otherwise the status-only update is installed |
| Routers.StatusUpdateOnlyStatus | server/routers.ts:256-264 | a status update changes the status of the row with that key and nothing else; a missing key changes nothing |
| NewOrderPage.WithoutIndex | client/src/pages/NewOrder.tsx:70-72 | drops exactly the element at an index in range and keeps the rest in order; any other index removes nothing |
| NewOrderPage.NumberOf | client/src/pages/NewOrder.tsx:53 | a digit string reads as its number; anything else is no number |
| NewOrderPage.SelectedProduct | client/src/pages/NewOrder.tsx:53-54 | absent exactly when the list is not loaded, the choice is not a number or no product has that key; otherwise a loaded product with that key |
| NewOrderPage.Snapshot | client/src/pages/NewOrder.tsx:56-62 | the line carries the product's key, name and price and the chosen quantity; empty notes become absent |
| NewOrderPage.Payload | client/src/pages/NewOrder.tsx:92-98 | the request carries the lines, discount and payment method as given, and the customer read as a number; empty notes become absent |
| NewOrderPage.NewOrderForm.constructor | client/src/pages/NewOrder.tsx:24-32 | the form starts empty, with quantity 1 |
| NewOrderPage.NewOrderForm.CalculateTotal | client/src/pages/NewOrder.tsx:74-77 | the page total, subtotal minus discount with no clamp; `AddItem` and `RemoveItem` state how it moves, and `StoredTotalMatchesPage` that a stored order's final amount equals it |
| NewOrderPage.NewOrderForm.AddItem | client/src/pages/NewOrder.tsx:47-68 | no choice or a quantity below 1 changes nothing; an unknown product changes nothing; otherwise exactly one snapshot is appended, the total grows by its line total, the line inputs reset and the rest of the form is kept |
| NewOrderPage.NewOrderForm.RemoveItem | client/src/pages/NewOrder.tsx:70-72 | the lines lose exactly the one at the index (none when out of range) and the total drops by its line total; the rest of the form is kept |
| NewOrderPage.NewOrderForm.HandleSubmit | client/src/pages/NewOrder.tsx:79-99 | nothing is sent exactly without a customer or without lines; otherwise the payload of the form is sent |
| NewOrderPage.AsWrittenSubmissionRejected | client/src/pages/NewOrder.tsx:92-98 | the body the page sends fails the order input rule, which names the payment method |
| NewOrderPage.CorrectedSubmissionAccepted | server/routers.ts:202-215 | with a payment method sent, a form with a customer, accepted lines and a discount of at least 0 passes the input rule unchanged |
| NewOrderPage.FormSubmissionAccepted | client/src/pages/NewOrder.tsx:92-98 | the form's invariant (every line has at least one unit) supplies the quantity rule, so with a chosen customer, a discount of at least 0 and non-negative prices the corrected submission passes the input rule with the form's lines |
| NewOrderPage.StoredTotalMatchesPage | client/src/pages/NewOrder.tsx:74-77 | a stored order's final amount equals the total the page showed, and its lines add up to the page's subtotal |

## Left out

- Rendering, routing, toasts and navigation of the pages. Only the state
  changes of the new-order page are modelled.
- Floating point: `parseFloat`, `formatCurrency` and the discount input
  conversion. The discount is an integer number of cents here.
- Fractional or non-finite quantities. The quantity input is an integer.
- `Number()` of texts other than digit strings. Only the texts the page's
  selects produce are covered.
- Connection handling (`getDb`), users, authentication and `ctx.user`. The
  connection is present or absent, and the user id is a parameter. The
  `orders.userId` foreign key to `users` is not checked, because the users
  table is not part of this model.
- `Date.now()`: the clock reading is a parameter. Whether two orders get the
  same reading is not modelled. The unique order number refuses a duplicate.
- `updatedAt` columns and their `onUpdateNow` stamp.
- Queries.Contains: `LIKE` is substring containment on code points. `%` and
  `_` inside a search term, and collation-dependent case folding, are not
  modelled.
- Routers.HeaderError: when the customer is missing and the order number is
  taken, the model reports the foreign-key error. Which of the two errors the
  database reports first is not fixed by the schema. `Store.WithOrderInserted`
  and `Store.WithOrderUpdated` make the same choice.
- Store.WithCategoryInserted, Store.WithCustomerInserted, Store.WithProductInserted,
  Store.WithOrderInserted, Store.WithOrderItemInserted: a refused insert
  consumes no key here. InnoDB allocates the auto-increment value before the
  foreign-key or unique check fails, so there the next accepted row gets a
  higher key. The keys `orders.create` and the `Store.Database` create
  methods return can therefore differ from the database's after a refusal.
  The model's keys increase without gaps.
- Queries.ByName: `ORDER BY name` is code-point order, not the database
  collation.
- Queries.UnknownStatusListsNothing: the status filter compares tags
  exactly. The database compares the enum column under its collation, which
  may ignore case, so a filter such as "Pending" may list the pending orders
  there. `Queries.OrderSelected` has the same exact comparison.
- Queries.ItemsOfOrder: the item reads have no `ORDER BY`, so the database
  promises no order. The model returns the lines in key order, and
  `Routers.PlaceOrderEffect` (through `OrderWritten`) pairs the lines read back
  with the request lines by position on that basis. The write order itself
  is stated on the table by `Routers.ItemsInsertedShape`.
- A partial update cannot set a nullable column back to NULL. A field is
  either given a value or kept.
- Rows.Sort: rows with equal sort keys may come in any order, as in SQL.
- Queries.DashboardStats: the database returns `SUM` as a decimal value that
  the driver may deliver as text. The revenue here is an integer.
- Email format and string lengths (`varchar` limits) are not checked.
- Integer column widths: amounts are unbounded integers, without 32-bit
  overflow.
- Transactions and crash atomicity. Writes are sequential, and a failure
  midway leaves what was written.
- `orders.list`, `orders.getById`, `orders.delete` and the catalog
  `list`/`getById`/`delete` procedures pass their input straight to the data
  layer. They are modelled by the corresponding `Queries` and
  `Store.Database` members.
- An update whose patch sets no field is an error in the query builder. Here
  it changes nothing (`Store.EmptyPatchIdentity`).
- The new-order page has no control for the payment method.
  `NewOrderPage.NewOrderForm.HandleSubmit` takes it as a parameter (see
  Findings).
- The seed script.

## Findings

| source | as written | input that shows it | evidently intended | confidence | as-written member | corrected member |
|---|---|---|---|---|---|---|
| client/src/pages/NewOrder.tsx:92-98 | the submitted body has no `paymentMethod`, while `orders.create` requires one of seven tags (server/routers.ts:204, not optional) | any form with a customer and at least one line, e.g. customer "1" and one line of 1 unit at 100 | the page sends a chosen payment method, so a valid form is accepted and stored with the total it showed | high (not executed) | NewOrderPage.AsWrittenSubmissionRejected | NewOrderPage.CorrectedSubmissionAccepted |
