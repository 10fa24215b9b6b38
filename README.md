# Cadweb orders, stock and input formatting — a Dafny model

This project models the business logic of the Cadweb back office. Cadweb is a
dashboard for users, products, stock and orders.

- **Orders and stock.** An order moves through a fixed sequence of statuses.
  Completing an order takes its items' quantities out of the product stock.
  Cancelling an order through `update` puts them back.
- **Products.** The product handlers create, update and delete products, each
  with one stock row.
- **Paging.** The list and table queries cut a page out of the rows and count
  the pages.
- **Input formatting.** Pure string functions format CPF numbers, card expiry
  dates and card numbers. Another cleans a Brazilian currency text, and
  another capitalises words.
- **Sign-up and login checks.** The sign-up schema checks field lengths and
  masks the CPF.
- **Order editor.** This is the list of line items that the order editor
  changes.

Modules, one per source component:

- `Regex` (regex.dfy): the regular expressions the formatters use. This is
  the global `\D` filter and the non-global `String.prototype.replace`. A
  non-global replace rewrites only the leftmost match, and each quantifier is
  greedy with backtracking. `MatchPrefixSpec` proves the backtracking search
  equal to a closed form, and the other lemmas are stated on that closed form.
- `Formatting` (formatting.dfy): `cpfFormat`, `expiryFormat`,
  `creditCardFormat`, the cleaning step of `currencyToFloat`, and `capitalize`.
- `SignUp` (signup.dfy): the CPF `transform` and the length checks of
  `signUpSchema` and `loginSchema`.
- `Schema` (schema.dfy): the status datatype, the stored enum, the row shapes
  and the foreign keys.
- `Lifecycle` (lifecycle.dfy): the pure part of the order handlers. This is
  the next-status `switch`, the snapshot of an order's items with their stock
  rows, and what a loop of absolute stock `set`s leaves behind.
- `Paging` (paging.dfy): the `offset`/`limit` window and `Math.ceil` page
  count of `getList` and `getTable`.
- `Store` (store.dfy): the class `Database`. Its `orders`, `products` and
  `stock` fields are maps from id to row. Its `items` field is the
  `order_item` table as a sequence in table order. The order and product
  handlers are its methods. Each method states the whole new state. Each one
  either keeps the foreign keys (`Valid()`) or requires them, where the
  handler's query needs them.
- `OrderEditor` (editor.dfy): the item-list transforms of the order editor.

Points where the model follows the code rather than the prose description of
the system:

- Completing or cancelling does not add to or subtract from the current
  stock. Each item's row is overwritten with a value computed from a snapshot
  read earlier in the handler. So two items of one order on the same stock
  row do not add up: the last one wins (`Lifecycle.LastWriteWins`,
  `Lifecycle.DuplicatesDoNotAccumulate`).
- `update` reads its snapshot before it inserts the new items. Items appended
  by the same call therefore never reach the stock
  (`Store.AppendedItemsIgnored`).
- The order handlers use five statuses, including WaitingPayment. The
  `OrderItemStatus` enum and the stored `order_status` enum have only four:
  new, in_progress, completed and cancelled. `Schema.StatusLabel` gives
  WaitingPayment no label, and `Lifecycle.NextStatusStorable` shows that
  advancing a New order is the one advance whose result has no stored label.
  As written, a New order therefore can never be advanced
  (`Store.NewOrderNeverAdvances`). The handlers evidently intend a
  five-label enum (`Schema.IntendedStatusLabel`), and the store's handlers
  are modelled with it (see Findings).
- The default branch of the next-status `switch` cancels everything that is
  not New, WaitingPayment or InProgress, including a completed order. The
  model keeps this behaviour.
- A product reaches its stock row through `stockId`. Nothing in the schema
  makes a stock row belong to only one product.

## Model

| member | source | states |
|---|---|---|
| `Lifecycle.NextStatus` | src/server/api/routers/orders.ts:257-271 | the next status is Completed exactly when the order is InProgress, and it is never New |
| `Lifecycle.NextStatusForward` | src/server/api/routers/orders.ts:257-271 | the advance does not cancel exactly when the status is New, WaitingPayment or InProgress; every other status, Completed included, goes to Cancelled |
| `Lifecycle.NewToCompleted` | src/server/api/routers/orders.ts:257-271 | a New order is Completed after exactly three advances and not before |
| `Lifecycle.AdvanceEndsCancelled` | src/server/api/routers/orders.ts:257-271 | from any status, four or more advances leave the order Cancelled |
| `Lifecycle.NextStatusStorable` | src/server/db/schema.ts:124-129 | an advance yields a status the stored enum can hold exactly when it does not start from New |
| `Lifecycle.ApplyWritesKeys` | src/server/api/routers/orders.ts:274-283 | the stock writes of the loop add and remove no row |
| `Lifecycle.ApplyWritesUntouched` | src/server/api/routers/orders.ts:274-283 | a stock row that no item refers to keeps its quantity |
| `Lifecycle.LastWriteWins` | src/server/api/routers/orders.ts:275-281 | a row the items refer to ends at the snapshot quantity plus or minus the quantity of the LAST item on that row, whatever earlier items wrote |
| `Lifecycle.DuplicatesDoNotAccumulate` | src/server/api/routers/orders.ts:273-284 | two items of 3 and 2 units on one row of 10 leave 8 on completion, not 5 |
| `Lifecycle.CompletionOnTwoRows` | src/server/api/routers/orders.ts:273-284 | items of 3 and 1 units on distinct rows of 10 and 5 leave 7 and 4 on completion |
| `Lifecycle.StockCanGoNegative` | src/server/db/schema.ts:100 | nothing keeps a stock quantity non-negative: completing 5 units against a row of 2 leaves -3 |
| `Lifecycle.Snapshot` | src/server/api/routers/orders.ts:168-177 | each item of the order's snapshot carries the quantity of its stock row as read, and the snapshot has no more entries than the item table |
| `Lifecycle.Reread` | src/server/api/routers/orders.ts:168-177 | reading the same items again keeps their quantities and rows, with the quantities of the stock as it now is |
| `Lifecycle.RestockUndoesDeduct` | src/server/api/routers/orders.ts:195-221 | a restock from a snapshot taken after a deduction puts every row back to its value before the deduction, duplicates included |
| `Lifecycle.CancelRestoresCompleted` | src/server/api/routers/orders.ts:195-207 | cancelling an order through `update` right after completing it restores the stock to its value before the completion |
| `Lifecycle.SnapshotReread` | src/server/api/routers/orders.ts:237-248 | the snapshot taken after a stock write reads the same items and rows, with the new quantities |
| `Schema.StatusLabel` | src/server/db/schema.ts:117-129 | a status has a label in the stored enum exactly when it is not WaitingPayment |
| `Schema.IntendedStatusLabel` | src/server/api/routers/orders.ts:257-271 | the enum the handlers evidently intend: every status has a label, the four stored statuses keep theirs, and each label reads back as its status |
| `Store.AdvanceRowAsWritten` | src/server/api/routers/orders.ts:257-292 | the status write as written succeeds only with a status the stored enum holds, and then writes the next status |
| `Store.NewOrderNeverAdvances` | src/server/api/routers/orders.ts:260-261 | as written, the advance fails exactly for a New order; every other status advances as the intended handler does |
| `Store.IntendedEnumStoresEveryAdvance` | src/server/api/routers/orders.ts:257-292 | with the intended enum every next status is stored and read back, and a New order is stored as `waiting_payment` |
| `Schema.SchemaEnumValues` | src/server/db/schema.ts:117-129 | the stored enum holds exactly new, in_progress, completed and cancelled |
| `Schema.StatusLabelRoundTrip` | src/server/db/schema.ts:124-129 | reading back a stored label gives the status that was stored, and only labels of statuses read back |
| `Store.Database.CreateOrder` | src/server/api/routers/orders.ts:113-149 | the new order is stored with status New, which the handler sets over whatever status the input carries; one `order_item` per input item is appended, each with the new order's id; a quantity below 1 is rejected before any write; a quantity beyond the `integer` range, or a missing product, fails the item insert after the order row is written, and no item is stored; the foreign keys are kept |
| `Store.Database.UpdateOrder` | src/server/api/routers/orders.ts:151-230 | the new items are appended and nothing else in the item table changes; a new quantity beyond the `integer` range fails the insert with nothing written; the stock becomes the restock (Cancelled) or deduction (Completed) of the snapshot read BEFORE the append, or stays as it was; when one of those stock values leaves the `integer` range the stock transaction rolls back, the handler fails with the items already appended, and the order row is not patched; otherwise the order row gets the patched fields and the caller as modifier; an unknown id with no new items writes nothing and succeeds |
| `Store.SnapshotOfItems` | src/server/api/routers/orders.ts:168-177 | the snapshot has one entry per `order_item` of the order, in the same order, each carrying that item's quantity, its product's stock row and that row's quantity as read |
| `Store.EachItemWritesItsRow` | src/server/api/routers/orders.ts:195-221 | an item whose stock row no later item of the order names leaves that row at the quantity read minus the item's quantity on completion, and plus it on cancellation |
| `Store.InsertKeepsReferences` | src/server/api/routers/orders.ts:179-193 | rows inserted for an existing order with existing products keep every `order_item` foreign key |
| `Store.Database.AdvanceStatus` | src/server/api/routers/orders.ts:232-302 | an unknown id fails with NotFound and changes nothing; a deduction that leaves the `integer` range rolls the stock transaction back and fails with nothing changed; otherwise only the order's status changes, to the next status (a New order to WaitingPayment, with the intended five-label enum), and the stock changes only when that status is Completed, to the deduction of the order's snapshot |
| `Store.Database.WriteStock` | src/server/api/routers/orders.ts:274-283 | the transaction succeeds exactly when every value written fits the `integer` column; it then leaves the stock at the writes of the snapshot applied in order, and otherwise rolls back to the stock it started from; the rows are the same either way |
| `Store.Database.DeleteOrder` | src/server/api/routers/orders.ts:304-314 | the order's items are removed, then the order; no other order, product or stock row changes |
| `Store.Rows` | src/server/api/routers/orders.ts:138-146 | one `order_item` row per input item, in input order, with the order's id, the item's product and its quantity |
| `Store.ItemsOf` | src/server/api/routers/orders.ts:168-169 | the rows selected for an order are exactly the item rows that carry its id |
| `Store.UpdateAppendsOnly` | src/server/api/routers/orders.ts:179-193 | after `update` an order's items are its old items in place followed by the new rows; every other order's items are unchanged |
| `Store.KeepOthers` | src/server/api/routers/orders.ts:308 | the rows left after the delete are exactly the item rows of other orders |
| `Store.DeleteKeepsOtherOrders` | src/server/api/routers/orders.ts:307-311 | after the delete the order has no item rows and every other order keeps its items, in order |
| `Store.Patched` | src/server/api/routers/orders.ts:223-227 | the status, the total and the client (`userId`) are each kept when the patch leaves them out and set when it gives them; the caller, when signed in, becomes the modifier, and otherwise the modifier stays; an empty patch with no caller changes nothing |
| `Store.AppendedItemsIgnored` | src/server/api/routers/orders.ts:168-221 | a stock row that none of the order's earlier items refers to keeps its quantity through `update`, whatever status and new items are given |
| `Store.Database.CreateProduct` | src/server/api/routers/product.ts:19-51 | a quantity outside 0..1000000 is rejected; a fresh stock row with the quantity is inserted, then the product with that row's id as `stockId`; if the product insert fails the stock row stays |
| `Store.Database.UpdateProduct` | src/server/api/routers/product.ts:127-165 | a quantity outside 0..1000000 is rejected; an unknown product, or a patch naming a missing stock row, fails with nothing written; the product row is patched, and a missing stock row then fails the handler with the product already changed; the stock changes only when the quantity differs from the row's, and then only that row changes |
| `Store.PatchedProduct` | src/server/api/routers/product.ts:129-143 | the caller is recorded as modifier; the name, the price, the stock row and the creator each stay unless the patch names a new one, which then replaces them; an empty patch changes only the modifier |
| `Store.Database.UpdateProductStock` | src/server/api/routers/product.ts:167-177 | a quantity outside 0..1000000 is rejected; otherwise the one row with that id gets the quantity and every other row is unchanged |
| `Store.Database.DeleteProduct` | src/server/api/routers/product.ts:179-184 | a product some order item names is refused by the foreign key; otherwise the product goes and its stock row stays |
| `Store.UnfilteredStockSet` | src/server/api/routers/product.ts:157-162 | the stock statement of `update` as written succeeds only on a table of at most one row, and there it leaves the one row `rowId` with the quantity |
| `Store.UnfilteredStockSetFails` | src/server/api/routers/product.ts:158-161 | with two stock rows the statement as written fails on the primary key |
| `Paging.Window` | src/server/api/routers/orders.ts:31-36 | the query succeeds exactly for a non-negative offset; it returns `min(limit, rows left)` rows, or every row left when the limit is negative and so not sent, row i being row `offset + i` |
| `Paging.GetTable` | src/server/api/routers/orders.ts:56-86 | the table query succeeds exactly when the offset `pageIndex * pageSize` is non-negative; it reports the row count and the page count `Math.ceil(rowCount / pageSize)` (`PageCount`, the fewest pages that hold every row by `Paging.PageCountIsCeiling`); with a non-negative size it returns at most `pageSize` rows, and with a non-negative index and a positive size exactly page `pageIndex` |
| `Paging.GetTableNegativeSize` | src/server/api/routers/orders.ts:56-86 | a negative page size at index 0 returns the whole table and a page count of at most 0 |
| `Paging.PageCountIsCeiling` | src/server/api/routers/product.ts:122 | for a positive page size the page count is the fewest pages that hold all rows |
| `Paging.PagesCoverRows` | src/server/api/routers/product.ts:97-125 | reading pages 0 up to the page count returns every row once, in order |
| `Paging.WindowIsPage` | src/server/api/routers/product.ts:82-84 | the window at offset `i * size` of `size` rows is page i |
| `Paging.ListParams` | src/server/api/utils.ts:3-8 | `page` and `perPage` are accepted exactly when each is absent or positive; a given value is kept, and each absent one defaults on its own, `page` to 1 and `perPage` to 10 |
| `Paging.GetListPage` | src/server/api/routers/orders.ts:24-36 | any accepted `page` and `perPage` give a valid window, and it is page `page - 1` |
| `Regex.Digits` | src/lib/utils.ts:67 | the global `\D` replace leaves only digits and makes the text no longer |
| `Regex.DigitsAppend` | src/lib/utils.ts:53 | the digits of a concatenation are the concatenation of the digits |
| `Regex.MatchPrefixSpec` | src/lib/actions.ts:70 | the backtracking match of the group patterns at a position equals the greedy closed form: each quantifier takes as many digits as the ones after it leave |
| `Regex.ReplaceLongDigits` | src/lib/utils.ts:68 | a non-global replace on a digit string long enough for the pattern rewrites the match at position 0 and keeps the rest |
| `Regex.ReplaceShortDigits` | src/lib/utils.ts:60 | on a digit string too short for the pattern the replace returns it unchanged |
| `Regex.ReplaceSkipsShortBlock` | src/lib/actions.ts:69-70 | a digit block too short for the pattern, closed by a non-digit, is passed over and the replace acts on what follows |
| `Formatting.CpfFormatMask` | src/lib/utils.ts:64-70 | `cpfFormat` gives ddd.ddd.ddd-dd followed by the remaining digits for at least 11 digits, and the bare digits otherwise |
| `Formatting.ExpiryFormatMask` | src/lib/utils.ts:58-62 | `expiryFormat` gives dd/dd followed by the remaining digits for at least 4 digits, and the bare digits otherwise |
| `Formatting.CreditCardFormatMask` | src/lib/utils.ts:49-56 | `creditCardFormat` gives four space-separated groups of 4 followed by the remaining digits for at least 16 digits, and the bare digits otherwise |
| `Formatting.CpfFormatKeepsDigits` | src/lib/utils.ts:64-70 | the digits of the formatted CPF are the digits of the input |
| `Formatting.ExpiryFormatKeepsDigits` | src/lib/utils.ts:58-62 | the digits of the formatted expiry are the digits of the input |
| `Formatting.CreditCardFormatKeepsDigits` | src/lib/utils.ts:49-56 | the digits of the formatted card number are the digits of the input |
| `Formatting.CpfFormatIdempotent` | src/lib/utils.ts:64-70 | formatting a formatted CPF changes nothing |
| `Formatting.ExpiryFormatIdempotent` | src/lib/utils.ts:58-62 | formatting a formatted expiry changes nothing |
| `Formatting.CreditCardFormatIdempotent` | src/lib/utils.ts:49-56 | formatting a formatted card number changes nothing |
| `Formatting.DropDots` | src/lib/utils.ts:29 | no '.' is left, exactly as many characters go as there were dots, and text without a dot is unchanged |
| `Formatting.DropDotsAppend` | src/lib/utils.ts:29 | the removal works piece by piece: what is kept of a concatenation is what is kept of each part, in order |
| `Formatting.KeepNumeric` | src/lib/utils.ts:31 | only digits and '.' are left, and text made only of those is unchanged |
| `Formatting.KeepNumericAppend` | src/lib/utils.ts:31 | the filter works piece by piece: what is kept of a concatenation is what is kept of each part, in order |
| `Formatting.CurrencyCleanText` | src/lib/utils.ts:26-35 | the cleaning chain gives the digits before the first ',', a '.', and the digits after it; with no ',' it gives just the digits |
| `Formatting.CurrencyCleanShape` | src/lib/utils.ts:26-35 | the cleaned text has only digits and '.', exactly one '.' when the input has a ',' and none otherwise, and the input's digits |
| `Formatting.CapitalizeAt` | src/lib/utils.ts:37-40 | `capitalize` keeps the length and upper-cases exactly the word characters with no word character before them |
| `Formatting.CapitalizeIdempotent` | src/lib/utils.ts:37-40 | capitalising twice is capitalising once |
| `SignUp.CpfTransformMask` | src/lib/actions.ts:65-71 | the three replaces put a '.' after the 3rd and 6th digit and a '-' after the 9th, each only when a digit follows |
| `SignUp.CpfTransformKeepsDigits` | src/lib/actions.ts:66-70 | the transform only inserts '.' and '-': its digits are the input's |
| `SignUp.CpfTransformShort` | src/lib/actions.ts:66-70 | an input with at most 3 digits becomes its digit string |
| `SignUp.CpfTransformEleven` | src/lib/actions.ts:65-71 | an input with exactly 11 digits becomes ddd.ddd.ddd-dd |
| `SignUp.CpfTransformAgreesWithFormat` | src/lib/actions.ts:65-71 | the stored CPF equals `cpfFormat`'s display exactly when the input has at most 3 or at least 11 digits |
| `SignUp.DashGroups` | src/lib/actions.ts:70 | the `\d{1,2}` group takes two digits when two follow |
| `SignUp.JsLength` | src/lib/actions.ts:15-18 | the JavaScript length of a text is between its number of characters and twice that |
| `SignUp.JsLengthBmp` | src/lib/actions.ts:59-73 | on text within the Basic Multilingual Plane (digits, '.', '-') the JavaScript length is the number of characters |
| `SignUp.AstralLength` | src/lib/actions.ts:15-18 | four emoji have a JavaScript length of 8, so they meet an 8-character minimum |
| `SignUp.ParseSignUpSpec` | src/lib/actions.ts:59-73 | sign-up succeeds exactly when the email is valid, the password has a JavaScript length of at least 8, the raw CPF at least 11 and the name at least 2; only the CPF is rewritten; a failure names exactly the failing fields |
| `SignUp.ParseLoginSpec` | src/lib/actions.ts:15-18 | login succeeds exactly when the email is valid and the password has a JavaScript length of 8 to 100, and passes the input through |
| `SignUp.RawLengthIsChecked` | src/lib/actions.ts:62-65 | the length bound is on the raw CPF text, before the non-digits are dropped |
| `SignUp.NineDigitCpf` | src/lib/actions.ts:62-71 | three dotted blocks of three digits pass the 11-character check with only nine digits, and are stored as typed, with no '-' |
| `OrderEditor.AddItem` | src/app/dashboard/orders/_components/order-modal.tsx:135-137 | one row is added at the end, empty product and quantity 1, and the earlier rows are kept |
| `OrderEditor.WithoutIndex` | src/app/dashboard/orders/_components/order-modal.tsx:141 | an index in range loses exactly that row; an index out of range changes nothing |
| `OrderEditor.RemoveItem` | src/app/dashboard/orders/_components/order-modal.tsx:139-143 | with no order or an in-progress order exactly row `index` goes and the others keep their order, and an index out of range changes nothing; otherwise the list is unchanged |
| `OrderEditor.SetProduct` | src/app/dashboard/orders/_components/order-modal.tsx:154-161 | the row gets the product and quantity 1; the length and every other row are unchanged |
| `OrderEditor.SetQuantity` | src/app/dashboard/orders/_components/order-modal.tsx:162-166 | only that row's quantity changes |
| `OrderEditor.Clamp` | src/app/dashboard/orders/_components/order-modal.tsx:401-407 | the quantity input passes at least 1, and the parsed value itself when it is at least 1 |
| `OrderEditor.Available` | src/app/dashboard/orders/_components/order-modal.tsx:252-256 | a product is offered for a row exactly when no row uses it or it is the row's own product |
| `OrderEditor.PickedProductsStayDistinct` | src/app/dashboard/orders/_components/order-modal.tsx:252-256 | picking from the offered products never gives two rows the same product |
| `OrderEditor.EditsKeepPositive` | src/app/dashboard/orders/_components/order-modal.tsx:135-166 | adding, removing and updating rows keeps every quantity at least 1 |
| `OrderEditor.EnabledSubmitIsValid` | src/app/dashboard/orders/_components/order-modal.tsx:445-451 | an enabled submit button means a client is chosen, there is at least one row, every row names a product, and the quantities pass the handlers' `min(1)` check |
| `OrderEditor.ToInput` | src/app/dashboard/orders/_components/order-modal.tsx:108-116 | the submitted items are the rows, in order, with their product and quantity |
| `OrderEditor.Initial` | src/app/dashboard/orders/_components/order-modal.tsx:82-91 | an editor with no order opens InProgress with no rows; one with an order opens with its status and items |

## Findings

| source | as written | input that shows it | evidently intended | confidence | as-written member | corrected member |
|---|---|---|---|---|---|---|
| src/server/api/routers/product.ts:158-161 | `update(stock).set({id: prevStock.id, quantity})` has no `where`, so it rewrites every stock row to the same id | a table with two stock rows (two products) and an `update` whose quantity differs from the product's row: every row gets the same id, the primary key rejects it, and the quantity is not stored | `.where(eq(stock.id, prevStock.id))`: set the quantity of the product's own row only | not executed; high (PostgreSQL unique-key semantics) | `Store.UnfilteredStockSetFails` | `Store.Database.UpdateProduct` |
| src/server/api/routers/orders.ts:261 | `nextStatus = OrderItemStatus.WAITING_PAYMENT`, a member neither `OrderItemStatus` nor the `order_status` enum (src/server/db/schema.ts:117-129) declares | any order with status New passed to `advanceStatus`: the status write at orders.ts:286-292 has no storable value, so the handler fails and the order stays New for good | a `waiting_payment` label in both enums, between new and in_progress, so New advances to WaitingPayment | not executed; high (type error at orders.ts:261 and 263; the enum refuses an unknown label) | `Store.NewOrderNeverAdvances` | `Schema.IntendedStatusLabel` |

## Left out

- Money is floating point and is left out. This covers order totals, prices, the editor's `calculateTotal`, invoice tax, payment balances, the `Number.parseFloat` step of `currencyToFloat`, and `Intl.NumberFormat`. Totals and prices are stored as `real` and are never computed.
- Concurrency is left out, because the handlers are modelled as sequential methods. Races between two `advanceStatus` calls are not modelled. The one failure a stock write can meet in a sequential run, a value outside the `integer` range, is modelled, with the transaction's rollback.
- Lifecycle.Snapshot and Store.SnapshotOfItems take the order's items in the order they were inserted. The `findMany` and the relational `findFirst` have no `orderBy`, so the database returns them in an unspecified order. When two items of one order share a stock row, which of them writes last, and so the final quantity of `Lifecycle.LastWriteWins` and `Lifecycle.DuplicatesDoNotAccumulate`, depends on that order. Insertion order is one order the database may return.
- Store.PatchedProduct: a patch naming a `createdById` is not checked against the users table, which is not part of this model. The `users` foreign key would refuse an unknown user.
- Store.Database.AdvanceStatus models the intended five-label enum (see Findings): it stores WaitingPayment after New. As written, the `OrderItemStatus` const enum has no WAITING_PAYMENT member, so orders.ts:261 and 263 do not type-check, and the `order_status` enum would refuse the label. The as-written write is `Store.AdvanceRowAsWritten`, under which a New order fails to advance (`Store.NewOrderNeverAdvances`).
- Store.Database.AdvanceStatus: the INTERNAL_SERVER_ERROR branch is not modelled. That branch is taken when the re-read row is missing, which needs a concurrent delete. In a sequential run the order found at the start is still there.
- Store.Database.UpdateOrder and Store.Database.AdvanceStatus require `Valid()`. The order's relational query follows each item to its product and stock row. A dangling reference would throw a TypeError in the source, and the schema's foreign keys rule that out.
- Store.Database.UpdateProduct writes only the product's own stock row, which is the evidently intended statement (see Findings). The statement as written is `Store.UnfilteredStockSet`.
- Store.Database.UpdateOrder and Store.Database.CreateOrder do not model the input schema's check on `status`. That is a `z.enum` over the four stored labels, which would reject WaitingPayment. The model accepts any of the five statuses, so as to record the enum gap rather than resolve it.
- UUID format checks on ids (`z.string().uuid()`) are not modelled, because ids are opaque strings here. Ids the database generates (order, product, stock) are parameters. A collision is a UniqueViolation.
- Item quantities are modelled as integers, bounded by the `integer` range at every write. `z.number().min(1)` also admits fractions, and the integer column would then refuse or round them.
- Store.Database.CreateProduct, Store.Database.UpdateProduct and Store.Database.UpdateProductStock take an integer stock quantity. Their `z.number().min(0).max(1000000)` (product.ts:22, 132, 171) also admits fractions such as 2.5, which the `integer` column `stock.quantity` refuses. In `update` that refusal would come after the product row was already patched (product.ts:135-139, then 158-161). That failure path is not modelled.
- Paging.Window and Paging.GetTable take from the query builder, which is not part of this model, that a negative `limit` is not sent (so every row from the offset is read), that an offset of 0 is not sent, and that a negative offset is sent and refused by PostgreSQL.
- Order-item ids, `createdAt`/`updatedAt` timestamps, `imageBase64`, and the joined user and client rows are not modelled. No handler logic depends on them.
- The read-only `getById` handlers of orders and products are plain lookups and are not modelled. The `orderBy` sort of `getList` is not modelled either: rows are taken as already in the query's order.
- OrderEditor.SetProduct and OrderEditor.SetQuantity require an index in range. The editor calls them only with the index of a rendered row. An out-of-range index would extend the JavaScript array with holes.
- OrderEditor.Clamp takes the parsed integer. The `NaN` that `Number.parseInt` gives for a non-number, which `Math.max` passes through, is not modelled.
- `creditCardFormat` receives a number and calls `toString`. It is modelled on the decimal text of that number.
- `capitalize` is modelled with ASCII `\w` and upper-casing of `a`..`z`. Those are the characters the regular expression's `\w` matches.
- Authentication, sessions and redirects are left out as calls into the external identity provider. AES-GCM encryption, the PIX payment simulation, the seed script and UI rendering are left out as well.
- The client-side advance button on the orders page is left out. It compares status strings that match neither enum and is not part of the handlers.
- The users, dashboard and auth routers are left out. They are thin reads and writes with no further logic.
