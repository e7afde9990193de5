# Amazon Database Dashboard — a Dafny model of its decision logic

The Amazon Database Dashboard is a set of Streamlit screens over a
PostgreSQL store. Customers browse products, fill a cart and place orders.
Administrators list orders and update their status, and manage products,
suppliers and categories. The repository also has two scripts that fill the
database with generated rows.

This project models the decisions those screens and scripts make. Each one
is a pure function over tables held as sequences of immutable records. The
modelled parts are:

- **Cart and checkout** (`Checkout`): merging quantities into the cart,
  the cart total, and placing an order as one transaction.
- **Order screens** (`OrderListing`, `OrderAdmin`): "My Orders", the
  administrator's listing, the status picker's default, and the status
  update with its history row.
- **Catalogue administration** (`ProductCrud`, `SupplierAdmin`,
  `CategoryAdmin`): supplier resolve-or-create, the category dictionary,
  form validation, insert and delete.
- **Query text** (`SqlText`): the statements the `db.py` helpers build, and
  how the driver pairs their `%s` placeholders with the parameters.
- **Bulk loading** (`BulkLoad`, `GeneratedRows`, `BatchInsert`): the
  chunked generators and `main` of `data_insertion.py`, the batch inserter
  of `insert_data.py`, and the per-row rules both scripts follow.

Shared pieces live in `Common` (options, random-choice oracles, chunking,
dictionaries), `Text` (strip, decimal numerals, join) and `Schema` (rows,
delete-by-key).

Modelling conventions:

- Money is integer cents and dates are integers.
- Every random draw is a `pick` parameter. `Choose` models picking from a
  list (it needs a non-empty list, as the source does). `PickInRange`
  models an inclusive integer range.
- Values the database supplies (a fresh serial id, `NOW()`) are
  parameters.
- A failing write is a parameter: `dbFails` for a screen's insert, update
  or delete, or `failAt`, the index of the batch that fails in the loading
  scripts.

Where the code does something other than its screens suggest, the model
follows the code:

- Every order-item row stores the whole order's total in its `price`
  column, not the unit price.
- A status update always appends a history row, even when the status does
  not change.
- The supplier and category delete buttons call `st.rerun()` inside the
  screen's transaction block, so as written the delete is rolled back (see
  Findings). The rest of the model uses the corrected delete.
- In `data_insertion.py` the delivery date and the transaction status
  follow the order's separate `status` column, not `current_status`.

## Model

| member | source | states |
|---|---|---|
| Common.PickInRange | data_insertion.py:185 | an inclusive random integer lies between its bounds, and an in-range pick selects that offset |
| Common.Choose | data_insertion.py:186-187 | a random choice from a non-empty list is one of its elements |
| Common.SliceChunks | insert_data.py:38-39 | the consecutive slices from index 0 concatenate back to the data, and there are none exactly when there is no data |
| Common.SliceChunksSizes | insert_data.py:38-39 | every slice is non-empty and at most the batch size; all but the last are exactly the batch size |
| Common.BeforeFailure | insert_data.py:41-45 | the batches committed before a failing one are a prefix of all batches, cut exactly at the failing index |
| Common.DictOf | customer/dashboard.py:56 | a dictionary built from pairs has exactly the pairs' keys |
| Common.DictOfLaterWins | admin/product_crud.py:32 | when a key repeats, the dictionary keeps the value of its last pair |
| Text.Strip | admin/manage_categories.py:15 | the result is the input with a whitespace-only prefix and a whitespace-only suffix cut off; it is never longer and neither starts nor ends in whitespace |
| Text.StripIsInnerSlice | admin/manage_categories.py:15 | the right-trimmed left-trimmed text is the stretch of the input between a blank prefix and a blank suffix, with no whitespace at either end |
| Text.StripEmptyIffBlank | admin/manage_categories.py:15 | stripping leaves nothing exactly when the text is whitespace only, in both directions |
| Text.Decimal | customer/dashboard.py:56 | the decimal text of an id is digits only, with no leading zero |
| Text.ParseDecimal | customer/dashboard.py:99 | the value of a digit string; `ParseDecimalOfDecimal` states it reads a numeral back |
| Text.ParseDecimalOfDecimal | customer/dashboard.py:56 | reading back the decimal text of a product id gives the id |
| Text.DecimalInjective | data_insertion.py:84-85 | different ids have different decimal texts |
| Text.ZeroPadded | data_insertion.py:268 | a zero-padded number is digits only, exactly the width when its numeral is shorter, and the numeral's length otherwise |
| Text.Join | db.py:32-33 | the parts with the separator between neighbours; `JoinLacks` states that joining brings in no character the parts and separator lack |
| Text.ParseZeroPadded | data_insertion.py:268 | a zero-padded id reads back as the id |
| Schema.DeleteWhere | admin/product_crud.py:63-64 | a keyed delete keeps exactly the rows with another key, never adding rows |
| Schema.DeleteWhereCounts | admin/product_crud.py:63-64 | every row with another key survives as often as it was stored, and no row with the key survives |
| Schema.DeleteWhereIdempotent | admin/manage_categories.py:35-36 | deleting the same key a second time changes nothing |
| SqlText.Placeholders | db.py:32 | `n` placeholders separated by comma and space; `BindPlaceholders` states they take exactly `n` parameters |
| SqlText.InsertQuery | db.py:33 | the insert text: table, comma-joined columns, one placeholder per value; `InsertRecordBinds` states how it binds |
| SqlText.SetClause | db.py:41 | one `column = %s` assignment per column, in key order; `BindSetClause` states how it binds |
| SqlText.UpdateQuery | db.py:42-44 | the update text: SET clause, then a WHERE clause comparing the key column with a placeholder; `UpdateRecordBinds` states how it binds |
| SqlText.DeleteQuery | db.py:52 | the delete text: a WHERE clause comparing the key column with a placeholder; `DeleteRecordBinds` states how it binds |
| SqlText.Bind | db.py:34 | a binding the driver accepts uses the parameters exactly once each, in order |
| SqlText.BindPlaceholders | db.py:32 | `n` comma-separated placeholders take exactly `n` parameters, each in its own slot |
| SqlText.InsertRecordBinds | db.py:29-36 | the insert statement binds the values in the order given, after the table and the comma-joined columns |
| SqlText.BindSetClause | db.py:41 | each SET assignment receives its own column's value, in key order |
| SqlText.UpdateParams | db.py:43 | the update parameters are the new values in column order followed by the key value |
| SqlText.UpdateRecordBinds | db.py:38-47 | the update statement binds: each column gets its value, and the key value lands in the WHERE clause |
| SqlText.DeleteRecordBinds | db.py:49-55 | the delete statement binds its single parameter to the key compared in the WHERE clause |
| Checkout.CatalogRows | customer/dashboard.py:51-52 | the screen reads at most 100 product rows, all of them when there are no more than 100 |
| Checkout.Catalog | customer/dashboard.py:56 | the catalogue keys are exactly the decimal texts of the ids read |
| Checkout.CatalogLaterWins | customer/dashboard.py:56 | a catalogue entry describes the last row read with that id |
| Checkout.AddToCart | customer/dashboard.py:62-72 | a session without a cart gets one entry with the quantity, 1 to 100; otherwise only that product's quantity grows, by exactly the amount, a new product is appended after the others, and a well-formed cart stays well formed |
| Checkout.Merge | customer/dashboard.py:69-72 | adding to a cart never removes an entry and adds at most one |
| Checkout.MergeKeys | customer/dashboard.py:69-72 | a new product becomes a new last entry with exactly the added quantity; a present one adds no entry |
| Checkout.MergeQuantities | customer/dashboard.py:69-70 | adding raises that product's quantity by exactly the amount added and leaves every other product's quantity alone |
| Checkout.MergeKeepsOtherLines | customer/dashboard.py:69-70 | every other cart entry keeps its position and content |
| Checkout.MergeKeepsCartWellFormed | customer/dashboard.py:62-72 | the cart never gets a second entry for a product, nor an entry with no units |
| Checkout.CartTotal | customer/dashboard.py:79-84 | the total exists exactly when every cart key is in the catalogue, and it is never negative |
| Checkout.TotalAfterMerge | customer/dashboard.py:69-84 | adding `q` units of a product raises the total by exactly `q` times its price |
| Checkout.KeyToId | customer/dashboard.py:99 | converting a cart key to an id succeeds exactly on non-empty digit strings |
| Checkout.KeyToIdOfDecimal | customer/dashboard.py:99 | a key built from a product id converts back to that id |
| Checkout.ItemRows | customer/dashboard.py:96-100 | one item row per cart entry, in cart order, with its product id and quantity, and the order total as price |
| Checkout.PendingOrder | customer/dashboard.py:89-92 | the order row a checkout writes: status Pending, the cart total, the database clock as date, and no discount, shipping address or status column; `PlaceOrder` states it is the one order row added |
| Checkout.PlaceOrder | customer/dashboard.py:86-107 | success adds one Pending order with the cart total plus the item rows and empties the cart; any failure leaves store and cart unchanged; success happens exactly when the cart is non-empty, priced, convertible and the database accepts it |
| Checkout.ItemsValueIsTotalTimesUnits | customer/dashboard.py:96-100 | pricing the item rows back out gives the total times the number of units, not the total |
| Checkout.PlacedOrderIsListed | customer/dashboard.py:17 | a placed order appears on its customer's "My Orders" list |
| OrderListing.InsertDesc | admin/view_orders.py:16 | inserting into a newest-first list keeps it newest first and adds exactly that row |
| OrderListing.SortDesc | admin/view_orders.py:16 | ordering by date, newest first, returns the same rows with dates never increasing |
| OrderListing.OfCustomer | customer/dashboard.py:17 | the filtered rows are exactly the customer's orders |
| OrderListing.OfCustomerCounts | customer/dashboard.py:17 | each of the customer's orders is kept as often as it is stored, and no other order is kept |
| OrderListing.MyOrders | customer/dashboard.py:17 | "My Orders" holds the customer's orders and no others, each as often as stored, newest first |
| OrderListing.JoinCustomers | admin/view_orders.py:11-15 | the join keeps exactly the orders whose customer exists, each with that customer's name |
| OrderListing.ListOrders | admin/view_orders.py:11-17 | the administrator's list holds exactly the joined orders, newest first |
| OrderAdmin.DefaultStatusIndex | admin/view_orders.py:45-50 | the picker starts at the order's own status when it is one of the options, and at the first option otherwise |
| OrderAdmin.PendingDefaultsToProcessing | admin/view_orders.py:48 | a Pending order, or a status in another spelling, starts the picker at Processing |
| OrderAdmin.DefaultIndexRoundTrip | admin/view_orders.py:47-48 | for each option, the default index of that option is its own position |
| OrderAdmin.ItemsShown | admin/view_orders.py:31-37 | the items shown are exactly the item rows of that order whose product exists, with the product name |
| OrderAdmin.ItemsShownAppend | admin/view_orders.py:31-37 | in the model's table order, the list for two stretches of the table is their two lists one after the other, so no line is merged, dropped or repeated |
| OrderAdmin.ItemsShownSnoc | admin/view_orders.py:31-37 | in the model's table order, one more item row adds exactly its own line at the end when it belongs to the order and its product exists, and nothing otherwise |
| OrderAdmin.SetStatus | admin/view_orders.py:53-55 | the update changes the status of that order's rows only, and every other row is unchanged |
| OrderAdmin.UpdateStatus | admin/view_orders.py:52-61 | an update rewrites the status and appends exactly one history row for that order and status, keeping every earlier row; a failing statement rolls both writes back; items are untouched |
| OrderAdmin.SameStatusStillLogged | admin/view_orders.py:52-61 | choosing the status the order already has leaves the orders as they were but still logs a row |
| OrderAdmin.UpdateTwiceLogsTwice | admin/view_orders.py:52-61 | repeating an update is idempotent on the orders but logs a second row |
| OrderAdmin.LastIndex | admin/view_orders.py:58-61 | the position of an order's last history row: a row for that order with no later row for it, absent exactly when the order has no row |
| OrderAdmin.LastLogged | admin/view_orders.py:58-61 | the last logged status of an order is absent exactly when the order has no history row, and otherwise is the status of a row for the order after which no row is for it |
| OrderAdmin.UpdateKeepsHistoryAgreement | admin/view_orders.py:52-61 | after an update, failed or not, each order's status is still the last one logged for it |
| OrderAdmin.PlaceKeepsHistoryAgreement | customer/dashboard.py:89-104 | placing an order under an unused id keeps statuses and history in agreement |
| OrderAdmin.ViewOrders | admin/view_orders.py:18-61 | with no orders the screen shows the message and writes nothing; otherwise it lists the orders, and a click updates the chosen order to the chosen option, and a failing update writes nothing |
| ProductCrud.FindSupplier | admin/product_crud.py:11-13 | the lookup finds the first supplier with exactly that name, and is absent exactly when none has it |
| ProductCrud.GetSupplierId | admin/product_crud.py:9-16 | an existing name returns its id and inserts nothing; a new name inserts one supplier with empty email and phone and returns its id |
| ProductCrud.FindAfterAppend | admin/product_crud.py:15-16 | after the insert, the re-query by name finds the earlier match or else the new row |
| ProductCrud.GetSupplierIdIdempotent | admin/product_crud.py:9-16 | resolving the same name twice gives the same id and inserts at most one supplier |
| ProductCrud.CategoryDict | admin/product_crud.py:32 | the category dictionary has exactly the category names as keys |
| ProductCrud.CategoryDictLaterWins | admin/product_crud.py:32 | on duplicate names the later category's id wins |
| ProductCrud.AddProduct | admin/product_crud.py:42-51 | the add button inserts one product with the form's fields, the picked category's id and the resolved supplier's id; a missing category or a failing statement undoes everything |
| ProductCrud.AddedProductReferencesExist | admin/product_crud.py:43-50 | an added product points at an existing category and at a supplier with the typed name |
| ProductCrud.DeleteProduct | admin/product_crud.py:63-64 | deleting removes exactly the products with that id and leaves suppliers and categories alone; a failing statement deletes nothing |
| SupplierAdmin.AddSupplier | admin/manage_suppliers.py:16-27 | a blank name or email gives a warning and no insert; otherwise one row as typed, unless the database rejects it |
| SupplierAdmin.PhoneNeverChecked | admin/manage_suppliers.py:17 | the phone never affects the outcome |
| SupplierAdmin.StoredAsTyped | admin/manage_suppliers.py:21-24 | name and email are stored unstripped, as one new row |
| SupplierAdmin.PhoneDisplay | admin/manage_suppliers.py:38 | a missing or empty phone is shown as N/A, any other phone as stored |
| SupplierAdmin.BlankPhoneShowsNA | admin/manage_suppliers.py:38 | a supplier added with an empty phone is listed with N/A |
| SupplierAdmin.DeleteSupplier | admin/manage_suppliers.py:40-43 | with the delete committed before the rerun, deleting removes exactly the suppliers with that id; a failing statement deletes nothing |
| SupplierAdmin.DeleteSupplierAsWritten | admin/manage_suppliers.py:40-43 | as written, the rerun raises inside the transaction block, so the delete is rolled back and the suppliers are unchanged |
| SupplierAdmin.DeleteSupplierAsWrittenKeepsRow | admin/manage_suppliers.py:40-43 | a listed supplier survives its own delete button as written, and is removed by the corrected delete |
| CategoryAdmin.AddCategory | admin/manage_categories.py:14-22 | a blank name gives a warning and no insert; otherwise the name is inserted verbatim, and a failure is reported instead of success |
| CategoryAdmin.DeleteCategory | admin/manage_categories.py:35-38 | with the delete committed before the rerun, deleting removes exactly the categories with that id; a failing statement deletes nothing |
| CategoryAdmin.DeleteCategoryAsWritten | admin/manage_categories.py:35-38 | as written, the rerun raises inside the transaction block, so the delete is rolled back and the categories are unchanged |
| CategoryAdmin.DeleteCategoryAsWrittenKeepsRow | admin/manage_categories.py:35-38 | a listed category survives its own delete button as written, and is removed by the corrected delete |
| CategoryAdmin.DeleteCategoryIdempotent | admin/manage_categories.py:35-36 | deleting the same category twice removes nothing more, whether or not either attempt fails |
| BulkLoad.Lookup | data_insertion.py:69 | looking up a column fails exactly when the row lacks it, and otherwise yields the value stored beside it |
| BulkLoad.LookupDistinct | data_insertion.py:69 | in a row that names each column once, the lookup finds that column's own value |
| BulkLoad.Project | data_insertion.py:69 | a row's tuple exists exactly when the row has every column, and follows the column order |
| BulkLoad.ProjectAll | data_insertion.py:69 | all tuples exist exactly when every row has every column |
| BulkLoad.Quote | data_insertion.py:62-65 | a quoted identifier is wrapped in double quotes |
| BulkLoad.UnescapeEscapeQuotes | data_insertion.py:62-65 | doubling the embedded double quotes loses nothing: reading them back gives the identifier |
| BulkLoad.QuoteRoundTrip | data_insertion.py:62-65 | a quoted identifier reads back as the identifier |
| BulkLoad.QuoteInjective | data_insertion.py:62-65 | different identifiers are quoted differently, so a quoted table or column names exactly one identifier |
| BulkLoad.InsertStatement | data_insertion.py:62-66 | the batch statement: quoted table, comma-separated quoted columns, one placeholder per column; `TupleBinds` states that each tuple fills it exactly |
| BulkLoad.ExecuteInsert | data_insertion.py:56-75 | no rows is a no-op; otherwise the first row's columns fix the statement, each row gives its values in that column order, and a missing column or database error fails the whole call |
| BulkLoad.InsertRoundTrip | data_insertion.py:61-69 | for rows of one shape, each tuple is exactly that row's values, so pairing columns with the tuple gives the row back |
| BulkLoad.TupleBinds | data_insertion.py:62-68 | each tuple fills the statement's placeholders exactly |
| BulkLoad.GenerateTable | data_insertion.py:77-98 | a generator commits the chunk-size slices in order until one fails; on success every row is committed exactly once, in order; its list is extended only with committed rows |
| BulkLoad.PushAll | data_insertion.py:80-95 | the loop buffers each row and flushes a full buffer, keeping the slicing invariant |
| BulkLoad.Push | data_insertion.py:91-95 | a row joins the buffer, and a full buffer is flushed as the next slice |
| BulkLoad.FlushRemainder | data_insertion.py:97-98 | the rows left at the end form the last slice |
| BulkLoad.Flush | data_insertion.py:92-94 | a flush inserts first and only then extends the table's list, and a table without a list fails after its insert |
| BulkLoad.TableRunRows | data_insertion.py:77-98 | a table with a list loads all its rows; one without commits its first slice and then raises |
| BulkLoad.TableRun | data_insertion.py:77-98 | the rows one generator commits when no insert fails, and whether it returns normally; `TableRunRows` states both |
| BulkLoad.MainRun | data_insertion.py:469-495 | the generators run in order until one raises; every generator before the last that ran loaded everything |
| BulkLoad.MainRunAllTracked | data_insertion.py:469-495 | when every table has a list, every table is loaded in full |
| BulkLoad.MainRunStopsAt | data_insertion.py:469-495 | the first table without a list stops the run after its first slice |
| BulkLoad.CartItemIsFirstUntracked | data_insertion.py:28-45 | the six tables before `cartitem` have lists and `cartitem` has none |
| BulkLoad.MainAsWrittenStopsAtCartItem | data_insertion.py:218-236 | as written, the run loads six tables, commits one slice of cart items and stops |
| BulkLoad.MainAsWrittenAtScriptSizes | data_insertion.py:13-14 | at the script's sizes: 100000 rows in each of six tables and 10000 cart items |
| BulkLoad.MainCorrectedLoadsAll | data_insertion.py:28-45 | with a `cartitem` list declared, all seventeen tables load in full |
| GeneratedRows.AffixedId | data_insertion.py:84-85 | a generated login text is a fixed prefix, the id and a fixed suffix, and the id reads back from between them |
| GeneratedRows.AdminEmail | data_insertion.py:84 | an admin email is `AffixedId` with `admin` and `@example.com` |
| GeneratedRows.AdminUserName | data_insertion.py:85 | an admin user name is `AffixedId` with `admin_` and no suffix |
| GeneratedRows.CustomerEmail | data_insertion.py:107 | a customer email is `AffixedId` with `customer` and `@example.com` |
| GeneratedRows.SupplierEmail | data_insertion.py:163 | a supplier email is `AffixedId` with `supplier` and `@example.com` |
| GeneratedRows.NumberedName | data_insertion.py:162 | a numbered name is the drawn text, a space and the id, and the id reads back from what follows the space |
| GeneratedRows.CategoryName | data_insertion.py:140 | a category name is the main word, a space, the sub-word, a space and the id, and each part reads back |
| GeneratedRows.GeneratedLoginsUnique | data_insertion.py:84-85 | admin emails and user names never repeat across ids |
| GeneratedRows.AffixedIdInjective | data_insertion.py:107 | text around a decimal id determines the id, so customer and supplier emails never repeat |
| GeneratedRows.NumberedNamesUnique | data_insertion.py:140 | names ending in a space and the id differ for different ids, whatever text was drawn |
| GeneratedRows.DiscountCode | data_insertion.py:268 | a discount code starts with DIS and has at least ten characters |
| GeneratedRows.DiscountCodesUnique | data_insertion.py:268 | discount codes never repeat |
| GeneratedRows.DiscountCodeLength | data_insertion.py:268 | the code is exactly ten characters exactly when the id is below ten million |
| GeneratedRows.DecimalLength | data_insertion.py:268 | a number has at most `k` digits exactly when it is below 10^k |
| GeneratedRows.AddressesOf | data_insertion.py:289-290 | the addresses kept are exactly those of that customer |
| GeneratedRows.MakeOrder | data_insertion.py:287-300 | an order fails exactly when there is no customer, or a discount is drawn with none to draw; otherwise it gets a listed customer and both statuses from the five options; a discount exactly when drawn; a shipping address of its own customer exactly when that customer has one |
| GeneratedRows.ShippingAddressIsCustomers | data_insertion.py:299 | an order has no shipping address exactly when its customer has no address |
| GeneratedRows.DeliveryFor | data_insertion.py:339-345 | a delivery has a date exactly when the order's status column is Shipped or Delivered, and never before the order date |
| GeneratedRows.MakeDelivery | data_insertion.py:339-345 | a delivery fails exactly when there is no order, and otherwise derives from a listed order |
| GeneratedRows.DeliveryIgnoresCurrentStatus | data_insertion.py:344-345 | the delivery ignores `current_status`, so an order currently Shipped but with status Pending gets no date |
| GeneratedRows.TransactionFor | data_insertion.py:361-368 | a transaction takes the order's total and date, and is Refunded exactly when the order's status is Cancelled |
| GeneratedRows.MakeTransaction | data_insertion.py:361-368 | a transaction fails exactly when there is no order, and otherwise derives from a listed order |
| GeneratedRows.HistoryRow | data_insertion.py:445-450 | a history row has the running id, the order's id, a listed status, and a time not before the order date |
| GeneratedRows.AppendToGroup | data_insertion.py:444-452 | one more update of the current order keeps the history well formed |
| GeneratedRows.GroupGrows | data_insertion.py:444 | a group with fewer than three rows can take one more |
| GeneratedRows.GenerateHistory | data_insertion.py:438-467 | with an order to pick, the history has exactly `n` rows, numbered 1 to `n`, in groups of 1 to 3 consecutive rows per picked order, each dated from its order; with no order and `n` > 0 the generator fails at once |
| GeneratedRows.LogUpdates | data_insertion.py:444-464 | one picked order gets at least one and at most three rows, stopping at `n` |
| BatchInsert.ExecuteBatchInsert | insert_data.py:34-47 | batches are the consecutive slices, committed in order up to the failing one; later ones are not attempted; with no failure every row is committed exactly once; a zero batch size inserts nothing |
| BatchInsert.StopsAtFailedBatch | insert_data.py:43-45 | a failing batch leaves the earlier batches committed |
| BatchInsert.AllBatchesCommitted | insert_data.py:38-41 | reaching the end of the data means every batch was committed |
| BatchInsert.InsertTable | insert_data.py:51-53 | without a connection an inserter inserts nothing; otherwise it batch-inserts with batch size 100 |
| BatchInsert.ProductRow | insert_data.py:177-186 | a product row's stock is at most 1000 and it references a category id and supplier id that were read |
| BatchInsert.InsertProducts | insert_data.py:151-194 | no connection, no category or no supplier inserts nothing; otherwise the k-th committed row is exactly the product drawn by the k-th draw (its fields, stock at most 1000, and the category and supplier it picks from the ids read back), in draw order, all of them when no batch fails |
| BatchInsert.DeliveryRow | insert_data.py:517-525 | a delivery fails exactly when there is no order id; it has a date exactly when its own status is delivered or in_transit |
| BatchInsert.ShippedDeliveryHasNoDate | insert_data.py:519-520 | whatever the picks, a delivery drawn as shipped gets no date, while one drawn as in_transit gets the drawn date |
| BatchInsert.DiscountRow | insert_data.py:204-205 | a discount starts at most 366 days back (a "-1y" offset floored to whole days) and never ends before it starts nor more than 365 days ahead |
| BatchInsert.CartItemRow | insert_data.py:384-389 | a cart item fails exactly when there is no cart or product id; otherwise it references them with quantity 1 to 10 |
| BatchInsert.OrderItemRow | insert_data.py:456-462 | an order item fails exactly when there is no order or product id; otherwise it references them with quantity 1 to 10 |

## Left out

- The Streamlit UI is left out: widgets, session plumbing, reruns and rendered text, except the N/A phone fallback and the rollback the rerun after a supplier or category delete causes.
- Connections, cursors and drivers are replaced by tables as sequences. A failing write is a parameter; isolation and concurrent sessions are not modelled.
- A failing read is not modelled: the queries behind "My Orders", the order list, the product and category pickers and the supplier lookup always answer. A read that fails raises and, inside a transaction, rolls it back like a failing write.
- SQLAlchemy's aborted-transaction state after a caught error is left out. In the supplier and category screens, the model treats the failed insert as writing nothing and moves on.
- Faker, `random` and uuid become pick parameters. Probabilities, such as the 30% discount branch, are not modelled.
- Floating-point prices and amounts are integer cents. Rounding is not modelled, nor the discounted float price of generated order items (data_insertion.py:323).
- Login, authentication and password hashing (customer/auth.py, admin/login.py) are not modelled, nor the page routing of main.py or the credentials in amazon/db/connection.py.
- The "Browse Products" listing (customer/dashboard.py:31-45) and the product listing join (admin/product_crud.py:18-24) only display rows and are not modelled.
- Generated columns that no stated rule depends on are left out of the rows: names, passwords, phone numbers, descriptions, timestamps, image URLs and login rows.
- The generators for addresses, carts, order items, product images and login rows are not modelled row by row. They follow the pattern `BulkLoad.GenerateTable` models.
- The product and order-item rows of data_insertion.py are not modelled row by row; their references are drawn with `Choose` like every other generated reference.
- GeneratedRows.GenerateHistory: the rows it builds are flushed in chunks like every other generator; that chunking is modelled once by `BulkLoad.GenerateTable` and not repeated here.
- GeneratedRows.DeliveryFor: the upper bound of the delivery date (30 days from today) is not modelled, because the clock is not modelled; only the lower bound is stated.
- The other `insert_*` functions of insert_data.py (customers, admins, suppliers, categories, addresses, logins, images, carts, orders, order-status history, transactions) are not modelled row by row. Their connection check is `BatchInsert.InsertTable`. They do not check for empty id lists; a choice from an empty list raises, which `CartItemRow`, `OrderItemRow` and `DeliveryRow` model as `None`.
- The `main` of insert_data.py, a fixed sequence of those calls, is not modelled.
- BatchInsert.ProductRow: the product name is cut to 100 characters (insert_data.py:180); the name is a drawn parameter and the cut is not modelled.
- BatchInsert.DiscountRow: the discount codes and random 8-digit ids of insert_data.py are parameters; their format and uniqueness are not modelled.
- BulkLoad.MainRun: it is stated only for runs where no insert fails (`TableRun` passes no failing batch); database errors inside `main` are covered per generator by `BulkLoad.GenerateTable`.
- Checkout.KeyToId: it accepts plain ASCII digit strings only. Python's integer conversion also accepts signs, surrounding whitespace, underscores and non-ASCII digits, which a cart key built from a product id never holds.
- OrderListing.SortDesc: SQL leaves the order of rows with equal dates open. The model fixes one order and states only what the query promises: the same rows, with dates never increasing.
- Checkout.CatalogRows: without an ORDER BY the database may return any 100 products; the model takes the first 100 in table order.
- ProductCrud.FindSupplier: without an ORDER BY the lookup may return any supplier with that name; the model takes the first in table order.
- OrderAdmin.ItemsShown: without an ORDER BY the database may return the item lines in any order; the model takes table order, and `ItemsShownAppend` and `ItemsShownSnoc` state the order in those terms.

## Findings

| source | as written | input that shows it | evidently intended | confidence | as-written member | corrected member |
|---|---|---|---|---|---|---|
| admin/manage_suppliers.py:9, 40-43 | the DELETE and then `st.rerun()` run inside `with engine.begin()`; the rerun works by raising, the block rolls back on any exception, so the delete never commits | click Delete on any listed supplier: afterwards the supplier is still stored | commit the delete before the rerun (or rerun after the block), so the supplier is removed | not executed; rests on Streamlit's rerun raising and SQLAlchemy rolling back on exceptions | SupplierAdmin.DeleteSupplierAsWrittenKeepsRow | SupplierAdmin.DeleteSupplier |
| admin/manage_categories.py:9, 35-38 | the same pattern on the category screen | click Delete on any listed category: afterwards the category is still stored | commit the delete before the rerun, so the category is removed | not executed; rests on Streamlit's rerun raising and SQLAlchemy rolling back on exceptions | CategoryAdmin.DeleteCategoryAsWrittenKeepsRow | CategoryAdmin.DeleteCategory |
| data_insertion.py:28-45, 231 | `generated_data` declares no `cartitem` list, but the cart-item generator extends `generated_data['cartitem']` after its first committed chunk. That raises a KeyError; `main` catches it and stops, so addresses, discounts, orders, order items, deliveries, transactions, images, logins and status history are never generated | `main` at the script's sizes (100000 rows per table, chunks of 10000): six tables load in full, 10000 cart items commit, and the run stops | declare an empty `cartitem` list, so that all seventeen tables load | not executed | BulkLoad.MainAsWrittenStopsAtCartItem | BulkLoad.MainCorrectedLoadsAll |
