/** `recordSale` (controllers/salesController.js): turn the lines of a stored order into
    counter updates with a sales-history entry each, and apply them to the catalog. */
module SalesController {
  import opened Wrappers
  import opened ObjectIds
  import opened ProductModel
  import opened OrderModel
  import opened Store
  import OrderController

  datatype SaleError =
    | InvalidOrderId     // the id cannot be cast
    | OrderMissing       // "Order not found"
    | ProductMissing     // a line whose product no longer exists: `item.product._id` of null
    | WriteFailed(at: nat)  // the update at this index failed; the ones before it were applied

  /** The updates for an order: one per line, in line order, each moving the line's quantity
      and pushing `{date: createdAt, quantity, revenue: price × quantity, orderId}`. */
  function SaleOps(o: Order, orderId: Id): (ops: seq<IncOp>)
    ensures |ops| == |o.items|
    ensures forall i :: 0 <= i < |o.items| ==>
              ops[i] == IncOp(o.items[i].product, o.items[i].quantity,
                              Some(SaleEntry(o.createdAt, o.items[i].quantity, Amount(o.items[i]), orderId)))
  {
    seq(|o.items|, i requires 0 <= i < |o.items| =>
      IncOp(o.items[i].product, o.items[i].quantity,
            Some(SaleEntry(o.createdAt, o.items[i].quantity, Amount(o.items[i]), orderId))))
  }

  predicate ProductsPresent(c: Catalog, o: Order) {
    forall i :: 0 <= i < |o.items| ==> o.items[i].product in c
  }

  /** The catalog after `recordSale`, and the error it throws, if any. */
  datatype SaleOutcome = SaleOutcome(catalog: Catalog, error: Option<SaleError>)

  function RecordSaleOutcome(c: Catalog, orders: map<Id, Order>, orderId: Id): SaleOutcome {
    if !ValidId(orderId) then SaleOutcome(c, Some(InvalidOrderId))
    else if orderId !in orders then SaleOutcome(c, Some(OrderMissing))
    else if !ProductsPresent(c, orders[orderId]) then SaleOutcome(c, Some(ProductMissing))
    else
      var run := Run(c, SaleOps(orders[orderId], orderId));
      SaleOutcome(run.catalog, if run.failedAt.Some? then Some(WriteFailed(run.failedAt.value)) else None)
  }

  /** `recordSale`. There is no transaction: a write that fails part-way keeps the updates
      before it. */
  method RecordSale(db: Database, orderId: Id) returns (error: Option<SaleError>)
    modifies db
    ensures SaleOutcome(db.products, error) == RecordSaleOutcome(old(db.products), old(db.orders), orderId)
    ensures db.orders == old(db.orders) && db.users == old(db.users)
  {
    if !ValidId(orderId) {
      return Some(InvalidOrderId);
    }
    if orderId !in db.orders {
      return Some(OrderMissing);
    }
    var order := db.orders[orderId];
    var i := 0;
    while i < |order.items|
      invariant 0 <= i <= |order.items|
      invariant forall k :: 0 <= k < i ==> order.items[k].product in db.products
    {
      if order.items[i].product !in db.products {
        return Some(ProductMissing);
      }
      i := i + 1;
    }
    var failedAt := db.BulkWrite(SaleOps(order, orderId));
    error := if failedAt.Some? then Some(WriteFailed(failedAt.value)) else None;
  }

  // ---------------------------------------------------------------- properties

  /** An error before the write leaves the catalog as it was. */
  lemma EarlyErrorsWriteNothing(c: Catalog, orders: map<Id, Order>, orderId: Id)
    ensures RecordSaleOutcome(c, orders, orderId).error in {Some(InvalidOrderId), Some(OrderMissing), Some(ProductMissing)} ==>
              RecordSaleOutcome(c, orders, orderId).catalog == c
    ensures RecordSaleOutcome(c, orders, orderId).error == Some(OrderMissing) <==> ValidId(orderId) && orderId !in orders
  {
  }

  /** A successful sale moves every product as its lines say: stock down and sold and
      salesCount up by the quantities of its lines, one history entry per line appended in
      line order; every other field is untouched. */
  lemma RecordSaleEffect(c: Catalog, orders: map<Id, Order>, orderId: Id, p: Id)
    requires RecordSaleOutcome(c, orders, orderId).error.None?
    requires p in c
    ensures orderId in orders
    ensures RecordSaleOutcome(c, orders, orderId).catalog.Keys == c.Keys
    ensures CountersMoved(c[p], RecordSaleOutcome(c, orders, orderId).catalog[p], SaleOps(orders[orderId], orderId), p)
  {
    RunTotalsAt(c, SaleOps(orders[orderId], orderId), p);
  }

  /** A sale that goes through can be recorded again, and nothing stops it: the second call
      applies the same updates once more, so every increment and decrement is doubled and
      every line pushes a second history entry. */
  lemma {:induction false} RecordSaleTwice(c: Catalog, orders: map<Id, Order>, orderId: Id, p: Id)
    requires RecordSaleOutcome(c, orders, orderId).error.None?
    requires p in c
    ensures var once := RecordSaleOutcome(c, orders, orderId);
            var twice := RecordSaleOutcome(once.catalog, orders, orderId);
            var ops := SaleOps(orders[orderId], orderId);
            twice.error.None?
            && twice.catalog == Run(c, ops + ops).catalog && p in twice.catalog
            && Base(twice.catalog[p].quantity) == Base(c[p].quantity) - 2 * QtyFor(ops, p)
            && twice.catalog[p].salesHistory == c[p].salesHistory + EntriesFor(ops, p) + EntriesFor(ops, p)
  {
    var ops := SaleOps(orders[orderId], orderId);
    var once := Run(c, ops).catalog;
    RunShape(c, ops);
    RunSucceeds(c, ops);
    assert ProductsPresent(once, orders[orderId]);
    assert forall i :: 0 <= i < |ops| ==> OpOk(once, ops[i]) by {
      forall i | 0 <= i < |ops| ensures OpOk(once, ops[i]) {
        assert OpOk(c, ops[i]);
      }
    }
    RunSucceeds(once, ops);
    RunAppend(c, ops, ops);
    QtyForAppend(ops, ops, p);
    RunTotalsAt(c, ops + ops, p);
  }

  /** Two update lists that move the same products by the same quantities in the same order
      move every product by the same total. */
  lemma {:induction false} SameMoves(a: seq<IncOp>, b: seq<IncOp>, p: Id)
    requires |a| == |b|
    requires forall i :: 0 <= i < |a| ==> a[i].product == b[i].product && a[i].qty == b[i].qty
    ensures QtyFor(a, p) == QtyFor(b, p)
    decreases |a|
  {
    if a != [] {
      SameMoves(a[..|a| - 1], b[..|b| - 1], p);
    }
  }

  /** Recording the sale of an order after its stock updates decrements the stock a second
      time. */
  lemma SaleAfterStockUpdates(c: Catalog, o: Order, orders: map<Id, Order>, orderId: Id, p: Id)
    requires Run(c, OrderController.StockOps(o.items)).failedAt.None? && ProductsPresent(c, o)
    requires ValidId(orderId) && orderId in orders && orders[orderId] == o
    requires p in c
    ensures var placed := Run(c, OrderController.StockOps(o.items)).catalog;
            var sold := RecordSaleOutcome(placed, orders, orderId);
            sold.error.None? && p in sold.catalog
            && Base(sold.catalog[p].quantity) == Base(c[p].quantity) - 2 * QtyFor(OrderController.StockOps(o.items), p)
  {
    var stockOps := OrderController.StockOps(o.items);
    var saleOps := SaleOps(o, orderId);
    var placed := Run(c, stockOps).catalog;
    RunShape(c, stockOps);
    RunSucceeds(c, stockOps);
    assert ProductsPresent(placed, o);
    assert forall i :: 0 <= i < |saleOps| ==> OpOk(placed, saleOps[i]) by {
      forall i | 0 <= i < |saleOps| ensures OpOk(placed, saleOps[i]) {
        assert OpOk(c, stockOps[i]);
      }
    }
    RunSucceeds(placed, saleOps);
    RunTotalsAt(c, stockOps, p);
    RunTotalsAt(placed, saleOps, p);
    SameMoves(saleOps, stockOps, p);
  }

  /** Every line of a placed order names a product of the catalog. */
  lemma PlacedProductsPresent(c: Catalog, userId: Id, req: OrderController.OrderRequest, createdAt: int, o: Order)
    requires OrderController.PlaceOrder(c, userId, req, createdAt) == Success(o)
    ensures ProductsPresent(c, o) && Run(c, OrderController.StockOps(o.items)).failedAt.None?
  {
    OrderController.PlaceOrderRequires(c, userId, req, createdAt);
    OrderController.PlacedOrder(c, userId, req, createdAt);
  }

  /** Recording the sale of an order that `createOrder` placed decrements the stock a
      second time: after both, each product's stock is down by twice the quantity of its
      lines. */
  lemma SaleAfterOrderDoubleCounts(c: Catalog, userId: Id, req: OrderController.OrderRequest, createdAt: int,
                                   o: Order, orders: map<Id, Order>, orderId: Id, p: Id)
    requires OrderController.PlaceOrder(c, userId, req, createdAt) == Success(o)
    requires ValidId(orderId) && orderId in orders && orders[orderId] == o
    requires p in c
    ensures var placed := Run(c, OrderController.StockOps(o.items)).catalog;
            var sold := RecordSaleOutcome(placed, orders, orderId);
            sold.error.None? && p in sold.catalog
            && Base(sold.catalog[p].quantity) == Base(c[p].quantity) - 2 * QtyFor(OrderController.StockOps(o.items), p)
  {
    PlacedProductsPresent(c, userId, req, createdAt, o);
    SaleAfterStockUpdates(c, o, orders, orderId, p);
  }
}
