# Orders, stock and carts of an e-commerce backend, in Dafny

This project models the order-and-inventory core of a REST e-commerce backend that keeps
its data in a document database. It proves properties of that model. The parts modelled are:

- **Order creation.** `createOrder` checks the request and each line against the catalog. It
  snapshots name, price and image into the order, sums the total, and applies one `$inc` per
  line to the product counters: stock down, `sold` and `salesCount` up. It then saves the
  order under the schema's validators and appends it to the user's order list. Any failure
  rolls the whole transaction back.
- **The order status machine.** This covers the transition table, which the controller and
  the model each declare; `updateOrderStatus`; the owner-only `cancelOrder`; the schema
  defaults and validators (e-mail and phone patterns, trimming, enums, bounds); the
  `orderNumber` and `active` virtuals; the `toJSON` transform; and the `pre('init')` hook.
- **Sales recording.** `recordSale` applies one `$inc` per line of a stored order and pushes a
  sales-history entry. Nothing rolls it back.
- **The catalog handlers.** These are the defaults of `createProduct` and its cap of ten
  featured products, `toggleFeatured`, `updateProductSales` (which checks no stock), the
  query filter of the product listing, and the limit of the featured listing.
- **The cart handlers.** `getCart` drops lines whose product is gone. `addToCart` validates and
  clamps the lines, checks availability with a count comparison, and checks stock. `mergeCarts`
  folds a guest cart into the stored one through a JavaScript `Map` with insertion order.
- **The backfill script.** A one-off `updateMany` copies `sold` into a `salesCount` that was
  never set.

The database is the class `Store.Database`, with three collections held as maps from
identifier to document: `products`, `orders` and `users`. Every handler is a method that
changes the database as the handler does. Each is proved against a function that says what
the handler decides (`PlaceOrder`, `StatusUpdate`, `Cancel`, `RecordSaleOutcome`,
`CreateOutcome`, `ToggleOutcome`, `AddToCartOutcome`, `GetCartOutcome`, `MergeOutcome`,
`BackfilledCatalog`). The loops inside the handlers are methods that change nothing. The line
loop of `createOrder`, the two loops of `addToCart` and the `Map` loops of `mergeCarts` are
each proved against a recursive definition. The backfill pass is proved against the map
comprehension `BackfilledCatalog`.
The write batch, `Store.Database.BulkWrite`, is the one loop that writes: it applies the
updates to the catalog one by one and is proved against `ProductModel.Run`, the meaning of a
`bulkWrite` of `$inc` updates. The remaining lemmas relate these definitions to what the
handlers promise.

Money is an integer number of minor units. Identifiers are strings.

Four behaviours of the code as written deserve note:

- **Overselling.** `createOrder` checks each line against the stock as read before the order.
  Two lines for the same product each pass, and together they can take the stock below zero
  (`OrderController.OversellThroughDuplicateLines`).
- **Products without stock or price.** `quantity` and `price` have no default in
  models/Product.js:22-25, and `createProduct` saves the body as sent, so a product can lack
  either field. Without a stock, the check `item.quantity > product.quantity`
  (controllers/orderController.js:97) is false for every quantity, and the `$inc` creates the
  field at minus the quantity ordered (`OrderController.UnstockedOversells`). Without a price,
  a line that sends no non-zero price gets `item.price || product.price` undefined or null
  (:106). The line passes the loop, but the required price of models/Order.js:20-23 refuses it
  at save, and the order fails with 500 (`OrderController.UnpricedLineFails`).
- **Cancelling twice.** Cancelling an order that is already cancelled answers 400 with
  "Order already cancelled" (controllers/orderController.js:305-307), modelled as
  `AlreadyCancelled`.
- **Recording sales.** `updateOrderStatus` only saves the new status, whatever it is.
  `recordSale` is a helper (controllers/salesController.js:5-6) that the controller exports
  and that no other modelled file calls. `SalesController.SaleAfterOrderDoubleCounts` shows
  what calling it on an order `createOrder` placed would do: it takes the order's quantities
  off the stock a second time.

## Model

| member | source | states |
|---|---|---|
| OrderModel.StatusNames | models/Order.js:96-100 | a status name parses to a status exactly when it is that status's name, and the names that parse are exactly the six of the enum |
| OrderModel.TransitionTableShape | models/Order.js:183-190 | the table has a row for each of the six statuses; completed and cancelled have no way out; no status leads to itself; every target is a status name |
| OrderModel.AllowedByName | models/Order.js:183-190 | the typed relation `Allowed` agrees with membership of the target's name in the table row |
| OrderModel.CancelEdges | models/Order.js:183-190 | the table allows a move to cancelled from pending or processing and from no other status |
| OrderModel.AllowedRaisesRank | models/Order.js:183-190 | every allowed move strictly raises a rank, so the table has no cycle |
| OrderModel.PathsAreShort | models/Order.js:183-190 | a chain of allowed moves climbs one rank per step, so an order passes through at most five statuses |
| OrderModel.ResolvePaymentMethod | models/Order.js:85-90 | a missing method takes the default credit card; a given one is accepted exactly when it is one of the four enum values |
| OrderModel.EmailRegexIsShape | models/Order.js:48-51 | the e-mail pattern holds exactly when the string has no white space, exactly one `@` that is not first, and a dot inside the domain that is neither its first nor its last character |
| OrderModel.PhoneRegexIsScan | models/Order.js:76-82 | the phone pattern holds exactly when a left-to-right scan accepts: any pluses, at most one `(`, one to four digits, at most one `)`, then any run of digits, white space, `-`, `.` and `/` (so `"12)34)"` is refused and `"1.2/3"` accepted) |
| OrderModel.CastAddress | models/Order.js:36-75 | a missing country takes the default, and the phone is kept as sent |
| OrderModel.AddressTrimmed | models/Order.js:36-75 | name, e-mail, street, city, zip and a given country are stored as the field sent with exactly the white space at its ends removed |
| OrderModel.Defaults | models/Order.js:71-100 | a new order with no country or payment method given is pending, unpaid, paid by credit card, in the default country, and has an empty history |
| OrderModel.OrderNumberShape | models/Order.js:201-203 | an order number is `ORD-` followed by the last eight characters of the id, upper-cased, so it is twelve characters of digits and A to F |
| OrderModel.ActiveQueryStatuses | models/Order.js:214-216 | the active query selects an order exactly when its status is pending, processing, shipped or completed |
| OrderModel.ToJsonTransform | models/Order.js:168-176 | the output has no `_id` and no `__v`; it has `id` exactly when the input had `_id`, with that value; every other key is copied unchanged; no key is invented |
| OrderModel.OrderDocument.Hydrate | models/Order.js:191-198 | loading a stored order keeps its data and records its status as the original status |
| OrderModel.OrderDocument.PreInit | models/Order.js:191-193 | the hook records the loaded status and changes nothing else |
| JsText.TrimProperties | models/Order.js:40 | trimming a string without white space leaves it as it is, and trimming is idempotent |
| JsText.TrimCharacterized | models/Order.js:40 | `trim` gives exactly the one string that has no white space at its ends and is the input with only white space on either side removed |
| JsText.NumberOfBlank | models/Product.js:26-33 | `Number` reads a string of white space alone as 0 |
| JsText.NumberOfDecimal | models/Product.js:26-33 | `Number` reads a decimal numeral, unsigned or with `+` or `-`, with white space around it, as its signed value |
| JsText.NumberOfPrefixed | models/Product.js:26-33 | `Number` reads an unsigned `0x`, `0o` or `0b` numeral with white space around it as its value in radix 16, 8 or 2 |
| JsText.ParseIntDecimal | controllers/productController.js:63 | `parseInt` of a decimal numeral is its value, whatever non-digit text follows it (other than an `x` that would make it hexadecimal) |
| ProductModel.RunShape | controllers/salesController.js:11-32 | a batch of `$inc` updates keeps the set of products, every listing field, and whether the counters are numbers |
| ProductModel.RunSucceeds | controllers/salesController.js:32 | a batch goes through exactly when each update, taken on its own against the starting catalog, names a product with numeric counters |
| ProductModel.RunFails | controllers/salesController.js:32 | a failing batch stops at its first bad update, and the updates before it stay applied |
| ProductModel.RunStopsAtFailure | controllers/productController.js:168-179 | once a prefix of a batch fails, the rest of the batch writes nothing more |
| ProductModel.RunTotalsAt | controllers/salesController.js:14-28 | after a batch, each product's stock is down by the batch's total quantity for it, `sold` and `salesCount` are up by it, its history gains the batch's entries in order, and a product no update names is unchanged |
| ProductModel.RunAppend | controllers/orderController.js:143 | running two batches one after the other is running their concatenation |
| ProductModel.FeaturedAfterInsert | controllers/productController.js:28-29 | inserting a product raises the featured count by one when it is featured and leaves the count unchanged otherwise |
| ProductModel.FeaturedAfterFlip | controllers/productController.js:132-133 | flipping one product's flag moves the featured count by exactly one, in the direction of the flip |
| Store.AppendOrder | controllers/orderController.js:147-151 | the user's order list gains the new order at its end; every other user is unchanged |
| Store.Database.BulkWrite | controllers/orderController.js:143 | the catalog becomes what the batch's meaning says, the failing position is reported, and orders and users are unchanged |
| OrderController.SameTable | controllers/orderController.js:11-18 | the controller's transition table is the model's, row for row |
| OrderController.MissingField | controllers/orderController.js:41-50 | no field is reported missing exactly when name, e-mail, street, city and zip are all non-empty, and a reported field is one of those five |
| OrderController.CheckItem | controllers/orderController.js:67-115 | an accepted line names a product of the catalog, asks for at least one unit and no more than its stock as JavaScript compares it (a product without a `quantity` field takes any amount), and snapshots its name, its price (the request's non-zero price, else the product's, which may be missing) and image; a line with a listed product and a positive quantity is accepted exactly when it is within stock in that sense |
| OrderController.StockOps | controllers/orderController.js:118-129 | there is one update per line, in order, for that line's product and quantity |
| OrderController.RequestError | controllers/orderController.js:32-60 | a request passes the first checks only if it has a non-empty list of items |
| OrderController.PrepareItems | controllers/orderController.js:62-130 | the loop returns the lines the recursive definition gives, their total and their stock updates |
| OrderController.PrepareStops | controllers/orderController.js:67-103 | once a line fails, the lines after it change nothing |
| OrderController.PrepareAll | controllers/orderController.js:67-130 | the loop succeeds exactly when every line passes its checks, and then yields one line per request line |
| OrderController.PrepareFirstError | controllers/orderController.js:67-103 | a failing loop reports the error of one of its lines |
| OrderController.TotalAppend | controllers/orderController.js:105-107 | the total of two groups of lines is the sum of their totals |
| OrderController.PlaceOrderSteps | controllers/orderController.js:20-153 | a placed order passed the request checks and the loop, and is what the commit steps make of the loop's lines |
| OrderController.FinishSteps | controllers/orderController.js:132-151 | a committed order has a valid owner, a batch that went through, a known payment method, is the new order built from the lines, and passes the schema's validators |
| OrderController.CreateOrder | controllers/orderController.js:20-177 | the handler returns what `PlaceOrder` decides; a failure leaves all three collections unchanged; a success applies the stock updates, inserts the order and appends it to the user |
| OrderController.Commit | controllers/orderController.js:132-153 | after the loop, the commit returns what `Finish` decides, rolls the stock back on any failure, and otherwise writes stock, order and user |
| OrderController.SaveOrder | controllers/orderController.js:144-151 | an order is inserted exactly when it passes the schema's validators; otherwise the stock is restored and nothing is written |
| OrderController.PlacedOrder | controllers/orderController.js:105-140 | a placed order passes the schema's validators (each line with a quantity from 1 to 1000 and a price, of at least 0, a valid address, a non-negative total); it is pending and unpaid, has an empty history, belongs to the requester, carries the cast address, has one snapshot line per requested line, each within its product's stock as compared, and has those lines' sum as its total |
| OrderController.LinesSnapshot | controllers/orderController.js:105-115 | each line of a successful loop snapshots its product's name and image, the unit price, and the requested quantity, which is within stock as compared |
| OrderController.PlaceOrderRequires | controllers/orderController.js:32-103 | an order can be placed only if its items are non-empty, the address fields are present, the e-mail matches, every line passes, the owner id is valid, and the stock batch goes through |
| OrderController.PlaceOrderErrorOrder | controllers/orderController.js:32-103 | the checks fail in the source's order: empty items first, then the first missing address field, then the e-mail, then the first failing line, with all earlier lines passing |
| OrderController.StockAfterOrder | controllers/orderController.js:118-143 | after a placed order, each product's stock is down by the quantities of its lines (a missing stock counting as 0 and being created), its counters are up by them, and a product no line names is unchanged |
| OrderController.PlaceOrderByParts | controllers/orderController.js:132-153 | a request whose checks, loop, owner id, stock batch, payment method and new-order validation all pass is placed as exactly that new order |
| OrderController.GoodRequest | controllers/orderController.js:32-60 | a request with non-empty items and a well-formed address passes the first checks |
| OrderController.TwoOfFiveLines | controllers/orderController.js:105-129 | two units from a stock of five give one snapshot line with total 20; the stock ends at three |
| OrderController.NewOrderValid | models/Order.js:10-138 | an order with a valid owner, a valid address, valid lines and a non-negative total passes the validators |
| OrderController.TwoOfFive | controllers/orderController.js:20-177 | ordering two units from a stock of five places a pending order for exactly that line, paid by credit card, with total 20 |
| OrderController.DuplicateLines | controllers/orderController.js:97-107 | two lines of one unit each for a product with a stock of one both pass the check, for a total of 20 |
| OrderController.DuplicateLinesStock | controllers/orderController.js:118-143 | the stock batch for those two lines goes through and leaves the stock at -1, with `sold` and `salesCount` at 2 |
| OrderController.OversellThroughDuplicateLines | controllers/orderController.js:97-143 | the order with the two lines is placed, although it takes more than the stock |
| OrderController.UnstockedOversells | controllers/orderController.js:97-129 | a product created without `quantity` passes the stock check for any positive quantity, and the stock batch creates its stock at minus that quantity |
| OrderController.UnpricedLineFails | controllers/orderController.js:105-172 | when the request checks and the loop pass but some line gets no price (no non-zero request price and none on the product), the order fails with `CreateFailed` (500) |
| OrderController.UnpricedLinePasses | controllers/orderController.js:67-115 | one unit of a product saved without a price passes the loop, with a line that has no price |
| OrderController.UnpricedOrderFails | controllers/orderController.js:105-172 | ordering that unit with a good address fails with `CreateFailed` |
| OrderController.UpdateOrderStatus | controllers/orderController.js:216-276 | the handler returns what `StatusUpdate` decides and changes only that order, and only on success |
| OrderController.StatusUpdateOutcome | controllers/orderController.js:225-253 | an update goes through exactly when both fields are given, the order exists and is valid, and the table allows the move; it changes only the status; a missing field gives `MissingStatusFields` (400), an unknown order `OrderNotFound` (404), and a move outside the table `InvalidTransition` (400) with the current status, the requested one and the table's row |
| OrderController.UpdatesFollowTable | controllers/orderController.js:241-248 | each accepted update is an allowed move and raises the status's rank |
| OrderController.CancelOrder | controllers/orderController.js:288-322 | the handler returns what `Cancel` decides and changes only the cancelled order; stock and users are unchanged |
| OrderController.CancelOutcome | controllers/orderController.js:293-313 | a cancellation goes through exactly when the id is valid, the order exists, the requester owns it, it is not cancelled yet and it is valid; it then sets only the status; this includes shipped, delivered and completed orders, which the table does not allow to be cancelled; an unknown order gives `OrderNotFound` (404), another user's order `NotAuthorized` (403), and an order already cancelled `AlreadyCancelled` (400) |
| SalesController.SaleOps | controllers/salesController.js:11-30 | there is one update per order line, in order, adding that quantity to `sold` and `salesCount`, taking it off the stock, and pushing a history entry with the line's revenue (price × quantity) and the order's id |
| SalesController.RecordSale | controllers/salesController.js:6-38 | the handler's catalog and error are what `RecordSaleOutcome` decides; orders and users are unchanged |
| SalesController.EarlyErrorsWriteNothing | controllers/salesController.js:8-13 | an invalid id, a missing order or a missing product line writes nothing; a missing order is reported exactly for a valid id that names no order |
| SalesController.RecordSaleEffect | controllers/salesController.js:14-28 | after a recorded sale, each product moved by the order's lines, and the set of products is unchanged |
| SalesController.RecordSaleTwice | controllers/salesController.js:6-33 | recording the same sale twice succeeds again and counts it twice: stock down twice and the history entries pushed twice |
| SalesController.SaleAfterStockUpdates | controllers/salesController.js:15-19 | recording the sale of an order whose stock updates were applied succeeds and takes its quantities off the stock a second time |
| SalesController.PlacedProductsPresent | controllers/orderController.js:77-86 | every line of a placed order names a product of the catalog, and its stock batch goes through |
| SalesController.SaleAfterOrderDoubleCounts | controllers/salesController.js:15-27 | after `createOrder` and then `recordSale` of the same order, each product's stock is down by twice its ordered quantity |
| ProductController.Normalize | controllers/productController.js:9-16 | the adjusted body always carries a `featured` value |
| ProductController.NormalizeProperties | controllers/productController.js:9-16 | a numeric `sold` is copied into a non-numeric `salesCount`; a missing `featured` becomes false; nothing else changes; adjusting twice is adjusting once |
| ProductController.CastCount | models/Product.js:26-33 | a number is kept, a missing value becomes 0, no cast result is a string or missing, and a non-empty string is a cast error exactly when `Number` reads it as NaN |
| ProductController.CastNumber | models/Product.js:25 | for `quantity`, which has no default: a missing value stays missing, a number or null is kept, `""` becomes null, and a non-empty string becomes its `Number` value or is a cast error when that is NaN |
| ProductController.CastCountStrings | models/Product.js:26-33 | the empty string casts to null, white space alone to 0, and a signed decimal or `0x` numeral with white space around it to its value |
| ProductController.CreateProduct | controllers/productController.js:4-39 | the handler returns what `CreateOutcome` decides and inserts the product only on success |
| ProductController.CreatedProduct | controllers/productController.js:8-29 | a created product has the counters the body asked for (0 when missing) and the stock as sent, missing when the body has none, is featured exactly when the body said true and fewer than ten were featured, has no stock field and has an empty history; featuring at the cap fails |
| ProductController.ToggleFeatured | controllers/productController.js:115-142 | the handler returns what `ToggleOutcome` decides and stores the flipped product only on success |
| ProductController.ToggleProperties | controllers/productController.js:117-133 | unfeaturing always succeeds; featuring fails exactly when ten or more are featured; a toggle changes nothing but the flag |
| ProductController.FeaturedCapKept | controllers/productController.js:19-26 | creating a product, and toggling one (lines 123-130), keep the featured count at most ten when it was at most ten before |
| ProductController.SalesOps | controllers/productController.js:168-179 | there is one update per item, in order, with the item's product and quantity and no history entry |
| ProductController.UpdateProductSales | controllers/productController.js:164-186 | missing items fail without a write; otherwise the catalog becomes the batch's result, and the call succeeds exactly when the batch went through |
| ProductController.SalesCanOversell | controllers/productController.js:168-179 | selling one unit more than is in stock goes through and leaves the stock at -1 |
| ProductController.ListedExactly | controllers/productController.js:45-51 | a product is listed exactly when it meets the conditions the query asks for with the literal "true"; any other value filters nothing |
| ProductController.FeaturedLimit | controllers/productController.js:63 | the limit is never 0 |
| ProductController.FeaturedLimitValues | controllers/productController.js:63 | a missing, empty or zero limit gives 8, and a non-zero decimal numeral gives its value |
| ProductController.FeaturedListingIsFiltered | controllers/productController.js:64-69 | the featured listing is the product listing with both conditions on, and it holds no more products than are featured |
| CartController.KeptItems | controllers/cartController.js:85-99 | the validated lines are at most as many as the lines sent, and each has a valid id and a quantity from 1 to 10 |
| CartController.KeptAppend | controllers/cartController.js:85-99 | validation works line by line: the lines kept from a concatenation are the lines kept from each part |
| CartController.KeptSingle | controllers/cartController.js:86-98 | a single line is kept, with its quantity capped at 10, exactly when it has a valid id and a quantity of at least 1 |
| CartController.KeptOfValid | controllers/cartController.js:85-99 | lines that already have valid ids and quantities from 1 to 10 all survive unchanged |
| CartController.KeptIsStable | controllers/cartController.js:85-99 | validating a validated cart again changes nothing |
| CartController.ValidateCart | controllers/cartController.js:81-99 | the first loop returns the validated lines and their ids in order |
| CartController.AvailableIff | controllers/cartController.js:102-107 | the count comparison passes exactly when the ids are distinct and each names a listed product |
| CartController.Unmatched | controllers/cartController.js:112-114 | the reported ids are exactly those that match no listed product |
| CartController.DuplicateIsUnavailable | controllers/cartController.js:102-116 | a repeated id of a listed product fails the check, yet the error reports no invalid product |
| CartController.StockIssuesIff | controllers/cartController.js:119-131 | there are no stock issues exactly when no line asks for more than its product's `stock`, and none at all when no product has a `stock` field |
| CartController.CheckStock | controllers/cartController.js:118-129 | the second loop returns the stock issues in line order |
| CartController.AddToCart | controllers/cartController.js:55-168 | the handler returns what `AddToCartOutcome` decides; on success it replaces the user's cart, and on failure it writes nothing |
| CartController.AddToCartStores | controllers/cartController.js:85-148 | a stored cart is exactly the valid lines sent, capped, for distinct listed products within stock; an administrator is always refused |
| CartController.ResolvedProperties | controllers/cartController.js:31-37 | the filter keeps exactly the lines whose product exists, in order, and drops nothing when all the products exist |
| CartController.ResolvedIdempotent | controllers/cartController.js:31-37 | filtering twice is filtering once |
| CartController.GetCart | controllers/cartController.js:6-52 | the handler returns what `GetCartOutcome` decides, and rewrites the stored cart only when the filter dropped a line |
| CartController.PutProperties | controllers/cartController.js:211-235 | `Map.set` appends a new key at the end, keeps an existing key in its place, and stores the value |
| CartController.AbsorbKeys | controllers/cartController.js:211-235 | after setting the lines in turn, the keys are the earlier keys followed by the new product ids in order of first occurrence |
| CartController.LoadedQuantity | controllers/cartController.js:214-219 | loading the stored cart gives each product the quantity of its last line, unclamped |
| CartController.Entries | controllers/cartController.js:238 | `Array.from` lists the keys in insertion order, each with its value |
| CartController.MergedOrder | controllers/cartController.js:211-238 | the merged cart lists each product once: the stored cart's products first, then the guest's new ones, each in order of first occurrence |
| CartController.MergedQuantities | controllers/cartController.js:221-235 | a product only in the stored cart keeps its last quantity; a product on one guest line takes that quantity, or adds it to the stored one, capped at 10 |
| CartController.MergeCartMap | controllers/cartController.js:210-238 | the two `forEach` loops and `Array.from` give the merged cart the definition describes |
| CartController.MergeCarts | controllers/cartController.js:171-277 | the handler returns what `MergeOutcome` decides; on success it stores the merged cart, and on failure it writes nothing |
| CartController.MergeStores | controllers/cartController.js:240-253 | a merge succeeds exactly when every product of both carts is listed, and the stored cart then has each product once |
| SalesCountBackfill.UpdateMatching | scripts/backfillSalesCount.js:9-23 | the pass yields the backfilled catalog and counts exactly the products it really changed |
| SalesCountBackfill.Backfill | scripts/backfillSalesCount.js:9-23 | the script replaces the products by the backfilled catalog, reports the modified count, and leaves orders and users unchanged |
| SalesCountBackfill.BackfillEffect | scripts/backfillSalesCount.js:9-20 | exactly the matching products get `salesCount := sold`; the others, and every other field, are untouched |
| SalesCountBackfill.BackfillSkips | scripts/backfillSalesCount.js:10-19 | a product whose count is a non-zero number or any string (`""` and `"0"` included, since the filter's strings are cast to null and 0), or whose `sold` is not a non-negative number, is left as it was |
| SalesCountBackfill.BackfillIdempotent | scripts/backfillSalesCount.js:9-20 | running the script a second time changes nothing and reports no modified product |

## Left out

- Sessions, transactions and concurrency: a transaction abort is modelled as restoring the catalog as it was before the write. Two concurrent orders are not modelled.
- Authentication and `restrictToAdmin`: the requester is a parameter. `updateOrderStatus` does not check the caller's role.
- Object-id validity is read as 24 lower-case hexadecimal digits. Upper-case hex and 12-character strings are not modelled.
- Mongoose casting of request values is modelled only for the three number fields of `createProduct` (`CastCount`, `CastNumber`) and for the backfill's filter. The lines of an order request (quantities, prices and ids) arrive already typed, and a product's `price` is a number or missing: a string price is not modelled.
- CheckItem: a stored stock that is a string is compared as `Number` reads it (`Compared`). Mongoose casts such a value when it loads the document, and how it treats a string it cannot cast is not modelled. A null or string stock makes the `$inc` of the stock batch fail, as for the other two counters.
- SaleOps: a stored order line without a price, which the validators never save, records a revenue of 0, where the code records NaN.
- CastCount: a string with a fraction, an exponent or `Infinity` (`"1.5"`, `"1e2"`) is a number for `Number` and is saved, but is a cast error in the model, because counters are integers here. Booleans, arrays and objects sent as counters are not modelled.
- Lower-casing of e-mail addresses is not modelled.
- Money is an integer number of minor units. Floating-point arithmetic and `toFixed` are not modelled.
- The cart handlers query `status: "active"` against the Boolean `status` path (controllers/cartController.js:102-105 and 242-245). The model gives the query its evident reading, `status == true`. Under Mongoose's Boolean cast, which accepts only true, false, 1, 0 and their string forms plus "yes" and "no", the string "active" is a cast error. As written, every `addToCart` and `mergeCarts` call that reaches that query then fails with 500 (lines 157-160 and 266-269), and the success and "unavailable" outcomes of `AddToCartOutcome` and `MergeOutcome` are never reached. The Mongoose sources are not part of this model.
- `salesHistory` is not declared in the product schema. Its pushes are kept as the code writes them, and strict-mode stripping is not modelled.
- The product `stock` field that `addToCart` reads (controllers/cartController.js:122) is not in the schema. The model keeps it as an optional value, absent for every product the schema creates. A Mongoose document exposes no property for an undeclared path, so as written the stock issue of `StockIssues` and `CheckStock` never fires, even for a stored product that carries a `stock` field.
- The results of `find` and `countDocuments` are sets of ids. Sorting, `limit` applied to results, and `populate` shapes are not modelled.
- The aggregations (`getOrderStats`, `getSalesAnalytics`, status counts) are outside the modelled core.
- The `updateProduct`, `deleteProduct` and other catalog passthroughs are outside the modelled core.
- Console output and the backfill script's connection handling and process exit are I/O and are left out.
- models/User.js is not part of this model. The user document holds only the role, the order list and the cart the handlers use.
- Cart lines that are not objects, and product ids that are not strings, are not modelled. A missing or null id is `None`.
- AddToCart: a requester whose user document is missing is a server error. The code has no separate path for it.
- MergeCarts: does not check the requester's role, because the code does not.
- UpdateProductSales: an item without a `productId` is not modelled separately from an id that fails to cast.
- CancelOrder and UpdateOrderStatus: which call aborts the session on an error path is not modelled. A failure writes nothing.
- `statusHistory` is never appended: no hook or handler in the modelled code pushes to it.
- The `pre('init')` hook that the model declares twice is modelled as one call that is repeated.
- MergedQuantities: states the merged quantity for a product on a single guest line. Several guest lines for one product accumulate one line at a time through the same rule, which no lemma states in closed form.
- AddressValid: `maxlength` is counted in Unicode scalar values, while JavaScript counts UTF-16 code units. An address with characters outside the Basic Multilingual Plane can pass the model's length bounds and fail the schema's.
