/** The order handlers (controllers/orderController.js): `createOrder`, `updateOrderStatus`
    and `cancelOrder`, over the store's products, orders and users. */
module OrderController {
  import opened Wrappers
  import opened JsText
  import opened ObjectIds
  import opened ProductModel
  import opened OrderModel
  import opened Store

  /** The controller's own copy of the transition table. */
  function ControllerTransitions(): map<string, seq<string>> {
    map[
      "pending" := ["processing", "shipped", "cancelled", "completed"],
      "processing" := ["shipped", "delivered", "cancelled"],
      "shipped" := ["delivered", "completed"],
      "delivered" := ["completed"],
      "completed" := [],
      "cancelled" := []
    ]
  }

  /** The two copies of the table agree row for row. */
  lemma SameTable()
    ensures ControllerTransitions() == Transitions()
    ensures forall s: Status :: ControllerTransitions()[StatusName(s)] == Transitions()[StatusName(s)]
  {
  }

  /** The outcome of a handler that fails, with the HTTP status the handler answers with. */
  datatype OrderError =
    | EmptyItems
    | MissingAddressField(field: string)
    | InvalidEmail
    | MissingProductId
    | ProductNotFound(productId: Id)
    | InvalidQuantity(productName: string)
    | NotEnoughStock(productName: string, available: Counter)
    | CreateFailed
    | MissingStatusFields
    | OrderNotFound(orderId: Id)
    | InvalidTransition(from: Status, to: string, allowed: seq<string>)
    | UpdateFailed
    | NotAuthorized
    | AlreadyCancelled
    | CancelFailed
  {
    function Code(): int {
      match this
      case ProductNotFound(_) => 404
      case OrderNotFound(_) => 404
      case NotAuthorized => 403
      case CreateFailed => 500
      case CancelFailed => 500
      case _ => 400
    }
  }

  // ---------------------------------------------------------------- createOrder

  /** One requested line: `product` and `_id` ("" when absent), the quantity and the price
      the client sent, if any. */
  datatype ItemRequest = ItemRequest(product: string, altId: string, quantity: int, price: Option<int>)

  /** The request body; `items` is `None` when it is missing or not an array. */
  datatype OrderRequest = OrderRequest(items: Option<seq<ItemRequest>>, address: AddressInput, paymentMethod: Option<string>)

  /** The first required address field that is missing or empty, in the order the handler
      checks them. */
  function MissingField(a: AddressInput): (r: Option<string>)
    ensures r.None? <==> a.name != "" && a.email != "" && a.street != "" && a.city != "" && a.zip != ""
    ensures r.Some? ==> r.value in ["name", "email", "street", "city", "zip"]
  {
    if a.name == "" then Some("name")
    else if a.email == "" then Some("email")
    else if a.street == "" then Some("street")
    else if a.city == "" then Some("city")
    else if a.zip == "" then Some("zip")
    else None
  }

  /** The id a line refers to: `product`, or `_id` when `product` is absent. */
  function ProductRef(item: ItemRequest): string {
    if item.product != "" then item.product else item.altId
  }

  /** `item.price || product.price`: a missing or zero price in the request falls back to
      the catalog's, which may itself be missing. */
  function UnitPrice(item: ItemRequest, catalogPrice: Option<int>): Option<int> {
    if item.price.Some? && item.price.value != 0 then item.price else catalogPrice
  }

  /** `item.quantity > product.quantity` is false, so the line is within stock, when the
      stock reads as a number at least the quantity, and also when the product has no
      `quantity` field at all. */
  predicate WithinStock(qty: int, stock: Counter) {
    Compared(stock).Some? ==> qty <= Compared(stock).value
  }

  /** The checks the loop applies to one line, against the catalog as it was before the
      order, and the snapshot it records for a line that passes. */
  function CheckItem(c: Catalog, item: ItemRequest): (r: Result<LineItem, OrderError>)
    ensures r.Success? ==>
              var id := ProductRef(item);
              id in c && r.value == LineItem(id, c[id].name, UnitPrice(item, c[id].price), item.quantity, c[id].image)
              && 0 < item.quantity && WithinStock(item.quantity, c[id].quantity)
    ensures var id := ProductRef(item);
            (item.product != "" || item.altId != "") && ValidId(id) && id in c && 0 < item.quantity ==>
              (r.Success? <==> WithinStock(item.quantity, c[id].quantity))
  {
    var id := ProductRef(item);
    if item.product == "" && item.altId == "" then Failure(MissingProductId)
    else if !ValidId(id) then Failure(CreateFailed)
    else if id !in c then Failure(ProductNotFound(id))
    else if item.quantity <= 0 then Failure(InvalidQuantity(c[id].name))
    else if Compared(c[id].quantity).Some? && item.quantity > Compared(c[id].quantity).value then
      Failure(NotEnoughStock(c[id].name, c[id].quantity))
    else Success(LineItem(id, c[id].name, UnitPrice(item, c[id].price), item.quantity, c[id].image))
  }

  /** The loop over the lines, stopping at the first failing one. */
  function Prepare(c: Catalog, items: seq<ItemRequest>): Result<seq<LineItem>, OrderError>
    decreases |items|
  {
    if items == [] then Success([])
    else match Prepare(c, items[..|items| - 1])
      case Failure(e) => Failure(e)
      case Success(lines) =>
        match CheckItem(c, items[|items| - 1])
        case Failure(e) => Failure(e)
        case Success(line) => Success(lines + [line])
  }

  /** Σ price × quantity. A line without a price adds nothing here, where the code's sum
      becomes NaN or is left as it was; such an order fails the line validator in either
      case, so its total is never saved. */
  function Total(lines: seq<LineItem>): int
    decreases |lines|
  {
    if lines == [] then 0 else Total(lines[..|lines| - 1]) + Amount(lines[|lines| - 1])
  }

  /** One counter update per line: quantity -= q, sold += q, salesCount += q. */
  function StockOps(lines: seq<LineItem>): (ops: seq<IncOp>)
    ensures |ops| == |lines|
    ensures forall i :: 0 <= i < |lines| ==> ops[i] == IncOp(lines[i].product, lines[i].quantity, None)
  {
    seq(|lines|, i requires 0 <= i < |lines| => IncOp(lines[i].product, lines[i].quantity, None))
  }

  /** The checks before the item loop, in the handler's order. */
  function RequestError(req: OrderRequest): (r: Option<OrderError>)
    ensures r.None? ==> req.items.Some? && req.items.value != []
  {
    if req.items.None? || req.items.value == [] then Some(EmptyItems)
    else if MissingField(req.address).Some? then Some(MissingAddressField(MissingField(req.address).value))
    else if !EmailRegex(req.address.email) then Some(InvalidEmail)
    else None
  }

  /** The steps after the item loop, inside the transaction: the owner id cast, the
      counter updates and the save, whose validators also check the payment method. */
  function Finish(c: Catalog, userId: Id, req: OrderRequest, lines: seq<LineItem>, createdAt: int): Result<Order, OrderError> {
    var payment := ResolvePaymentMethod(req.paymentMethod);
    if !ValidId(userId) then Failure(CreateFailed)
    else if Run(c, StockOps(lines)).failedAt.Some? then Failure(CreateFailed)
    else if payment.None? then Failure(CreateFailed)
    else
      var o := NewOrder(userId, lines, CastAddress(req.address), payment.value, Total(lines), createdAt);
      if OrderValid(o) then Success(o) else Failure(CreateFailed)
  }

  /** What `createOrder` decides, given the catalog before the order: the new order, or
      the error it answers with. */
  function PlaceOrder(c: Catalog, userId: Id, req: OrderRequest, createdAt: int): Result<Order, OrderError> {
    if RequestError(req).Some? then Failure(RequestError(req).value)
    else match Prepare(c, req.items.value)
      case Failure(e) => Failure(e)
      case Success(lines) => Finish(c, userId, req, lines, createdAt)
  }

  /** The item loop: checks each line in turn and accumulates the snapshots, the total and
      the counter updates. */
  method PrepareItems(c: Catalog, items: seq<ItemRequest>) returns (r: Result<seq<LineItem>, OrderError>, total: int, stockUpdates: seq<IncOp>)
    ensures r == Prepare(c, items)
    ensures r.Success? ==> total == Total(r.value) && stockUpdates == StockOps(r.value)
  {
    total := 0;
    var orderItems: seq<LineItem> := [];
    stockUpdates := [];
    var i := 0;
    while i < |items|
      invariant 0 <= i <= |items|
      invariant Prepare(c, items[..i]) == Success(orderItems)
      invariant total == Total(orderItems) && stockUpdates == StockOps(orderItems)
    {
      var item := items[i];
      var checked := CheckItem(c, item);
      PrepareStep(c, items, i, orderItems);
      if checked.Failure? {
        PrepareStops(c, items, i + 1);
        return Failure(checked.error), total, stockUpdates;
      }
      var line := checked.value;
      total := total + Amount(line);
      orderItems := orderItems + [line];
      stockUpdates := stockUpdates + [IncOp(line.product, line.quantity, None)];
      i := i + 1;
    }
    assert items[..i] == items;
    r := Success(orderItems);
  }

  /** One more turn of the loop: the prefix grows by the checked line, and the total and
      the counter updates by that line's share. */
  lemma PrepareStep(c: Catalog, items: seq<ItemRequest>, i: nat, lines: seq<LineItem>)
    requires i < |items| && Prepare(c, items[..i]) == Success(lines)
    ensures CheckItem(c, items[i]).Failure? ==> Prepare(c, items[..i + 1]) == Failure(CheckItem(c, items[i]).error)
    ensures CheckItem(c, items[i]).Success? ==>
              var line := CheckItem(c, items[i]).value;
              Prepare(c, items[..i + 1]) == Success(lines + [line])
              && Total(lines + [line]) == Total(lines) + Amount(line)
              && StockOps(lines + [line]) == StockOps(lines) + [IncOp(line.product, line.quantity, None)]
  {
    var prefix := items[..i + 1];
    assert prefix[..|prefix| - 1] == items[..i];
    assert prefix[|prefix| - 1] == items[i];
    var checked := CheckItem(c, items[i]);
    if checked.Success? {
      AppendLine(lines, checked.value);
    }
  }

  /** Appending a line adds its amount to the total and its update to the batch. */
  lemma AppendLine(lines: seq<LineItem>, line: LineItem)
    ensures Total(lines + [line]) == Total(lines) + Amount(line)
    ensures StockOps(lines + [line]) == StockOps(lines) + [IncOp(line.product, line.quantity, None)]
  {
    assert (lines + [line])[..|lines|] == lines;
  }

  /** A failing line ends the loop: the outcome of the whole list is that of the prefix. */
  lemma {:induction false} PrepareStops(c: Catalog, items: seq<ItemRequest>, k: nat)
    requires 0 < k <= |items| && Prepare(c, items[..k]).Failure?
    ensures Prepare(c, items) == Prepare(c, items[..k])
    decreases |items|
  {
    if k < |items| {
      var prefix := items[..|items| - 1];
      assert prefix[..k] == items[..k];
      PrepareStops(c, prefix, k);
    } else {
      assert items[..k] == items;
    }
  }

  /** `createOrder`. `newId` is the id the database assigns to the new order. Every failure
      leaves the store exactly as it was; on success the counter updates are applied, the
      order is inserted and its id is appended to the owner's order list. */
  method CreateOrder(db: Database, userId: Id, req: OrderRequest, newId: Id, createdAt: int) returns (r: Result<Order, OrderError>)
    requires newId !in db.orders
    modifies db
    ensures r == PlaceOrder(old(db.products), userId, req, createdAt)
    ensures r.Failure? ==> db.products == old(db.products) && db.orders == old(db.orders) && db.users == old(db.users)
    ensures r.Success? ==>
              db.products == Run(old(db.products), StockOps(r.value.items)).catalog
              && db.orders == old(db.orders)[newId := r.value]
              && db.users == AppendOrder(old(db.users), userId, newId)
  {
    var early := RequestError(req);
    if early.Some? {
      return Failure(early.value);
    }
    var prepared, total, stockUpdates := PrepareItems(db.products, req.items.value);
    if prepared.Failure? {
      return Failure(prepared.error);
    }
    r := Commit(db, userId, req, prepared.value, total, stockUpdates, newId, createdAt);
  }

  /** The part of `createOrder` after the item loop: the owner id, then the transaction, in
      which the counter updates run first and the order save second; a failure of either
      rolls the catalog back. */
  method Commit(db: Database, userId: Id, req: OrderRequest, lines: seq<LineItem>, total: int,
                stockUpdates: seq<IncOp>, newId: Id, createdAt: int) returns (r: Result<Order, OrderError>)
    requires total == Total(lines) && stockUpdates == StockOps(lines)
    modifies db
    ensures r == Finish(old(db.products), userId, req, lines, createdAt)
    ensures r.Failure? ==> db.products == old(db.products) && db.orders == old(db.orders) && db.users == old(db.users)
    ensures r.Success? ==>
              r.value.items == lines
              && db.products == Run(old(db.products), stockUpdates).catalog
              && db.orders == old(db.orders)[newId := r.value]
              && db.users == AppendOrder(old(db.users), userId, newId)
  {
    if !ValidId(userId) {
      return Failure(CreateFailed);
    }
    var payment := ResolvePaymentMethod(req.paymentMethod);
    var before := db.products;
    var failedAt := db.BulkWrite(stockUpdates);
    if failedAt.Some? {
      db.products := before;
      return Failure(CreateFailed);
    }
    if payment.None? {
      db.products := before;
      return Failure(CreateFailed);
    }
    r := SaveOrder(db, before, NewOrder(userId, lines, CastAddress(req.address), payment.value, total, createdAt), newId);
  }

  /** The order save, the last step of the transaction: the schema validators run, and a
      failure rolls the catalog back to `before`. */
  method SaveOrder(db: Database, before: Catalog, order: Order, newId: Id) returns (r: Result<Order, OrderError>)
    modifies db
    ensures r == if OrderValid(order) then Success(order) else Failure(CreateFailed)
    ensures r.Failure? ==> db.products == before && db.orders == old(db.orders) && db.users == old(db.users)
    ensures r.Success? ==>
              db.products == old(db.products)
              && db.orders == old(db.orders)[newId := order]
              && db.users == AppendOrder(old(db.users), order.user, newId)
  {
    if !OrderValid(order) {
      db.products := before;
      return Failure(CreateFailed);
    }
    db.orders := db.orders[newId := order];
    db.users := AppendOrder(db.users, order.user, newId);
    r := Success(order);
  }

  // ---------------------------------------------------------------- properties of createOrder

  /** The loop succeeds exactly when every line passes its checks, and then it yields one
      snapshot per line, in request order. */
  lemma {:induction false} PrepareAll(c: Catalog, items: seq<ItemRequest>)
    ensures Prepare(c, items).Success? <==> forall i :: 0 <= i < |items| ==> CheckItem(c, items[i]).Success?
    ensures Prepare(c, items).Success? ==>
              |Prepare(c, items).value| == |items|
              && forall i :: 0 <= i < |items| ==> Prepare(c, items).value[i] == CheckItem(c, items[i]).value
    decreases |items|
  {
    if items != [] {
      var prefix := items[..|items| - 1];
      assert forall i :: 0 <= i < |prefix| ==> prefix[i] == items[i];
      PrepareAll(c, prefix);
    }
  }

  /** The loop fails with the error of the first failing line. */
  lemma {:induction false} PrepareFirstError(c: Catalog, items: seq<ItemRequest>)
    requires Prepare(c, items).Failure?
    ensures exists k :: 0 <= k < |items| && CheckItem(c, items[k]) == Failure(Prepare(c, items).error)
                        && forall i :: 0 <= i < k ==> CheckItem(c, items[i]).Success?
    decreases |items|
  {
    var prefix := items[..|items| - 1];
    assert forall i :: 0 <= i < |prefix| ==> prefix[i] == items[i];
    if Prepare(c, prefix).Failure? {
      PrepareFirstError(c, prefix);
      var k :| 0 <= k < |prefix| && CheckItem(c, prefix[k]) == Failure(Prepare(c, prefix).error)
               && forall i :: 0 <= i < k ==> CheckItem(c, prefix[i]).Success?;
      assert CheckItem(c, items[k]) == Failure(Prepare(c, items).error);
    } else {
      PrepareAll(c, prefix);
      assert CheckItem(c, items[|items| - 1]) == Failure(Prepare(c, items).error);
    }
  }

  /** Σ over a concatenation. */
  lemma {:induction false} TotalAppend(a: seq<LineItem>, b: seq<LineItem>)
    ensures Total(a + b) == Total(a) + Total(b)
    decreases |b|
  {
    if b == [] {
      assert a + b == a;
    } else {
      var bp := b[..|b| - 1];
      assert (a + b)[..|a + b| - 1] == a + bp;
      TotalAppend(a, bp);
    }
  }

  /** A successful order passed the request checks and the item loop, and is what the
      steps after the loop make of the loop's lines. */
  lemma PlaceOrderSteps(c: Catalog, userId: Id, req: OrderRequest, createdAt: int)
    requires PlaceOrder(c, userId, req, createdAt).Success?
    ensures RequestError(req).None? && Prepare(c, req.items.value).Success?
    ensures Finish(c, userId, req, Prepare(c, req.items.value).value, createdAt) == PlaceOrder(c, userId, req, createdAt)
  {
  }

  /** The steps after the loop succeed only with a valid owner id, counter updates that all
      apply and a recognised payment method, and then yield the new pending order. */
  lemma FinishSteps(c: Catalog, userId: Id, req: OrderRequest, lines: seq<LineItem>, createdAt: int)
    requires Finish(c, userId, req, lines, createdAt).Success?
    ensures ValidId(userId) && Run(c, StockOps(lines)).failedAt.None?
    ensures ResolvePaymentMethod(req.paymentMethod).Some?
    ensures Finish(c, userId, req, lines, createdAt).value
            == NewOrder(userId, lines, CastAddress(req.address), ResolvePaymentMethod(req.paymentMethod).value, Total(lines), createdAt)
    ensures OrderValid(Finish(c, userId, req, lines, createdAt).value)
  {
  }

  /** What a successful order is: a pending order of the requesting user, unpaid, with one
      snapshot per requested line in request order (the referenced product's name and
      image, the requested quantity, the supplied non-zero price or else the catalog price),
      each quantity positive and within the product's stock as read before the order, and
      the total the sum of price × quantity; and it passes the schema's validators, so
      every line has a quantity from 1 to 1000 and a price of at least 0, the address is
      valid and the total is not negative. */
  lemma PlacedOrder(c: Catalog, userId: Id, req: OrderRequest, createdAt: int)
    requires PlaceOrder(c, userId, req, createdAt).Success?
    ensures var o := PlaceOrder(c, userId, req, createdAt).value;
            req.items.Some? && var items := req.items.value;
            OrderValid(o)
            && o.status == Pending && o.paymentStatus == PaymentPending && o.statusHistory == []
            && o.user == userId && o.createdAt == createdAt
            && o.shippingAddress == CastAddress(req.address)
            && |o.items| == |items| > 0
            && o.total == Total(o.items)
            && forall i :: 0 <= i < |items| ==>
                 var id := ProductRef(items[i]);
                 id in c && o.items[i] == LineItem(id, c[id].name, UnitPrice(items[i], c[id].price), items[i].quantity, c[id].image)
                 && 0 < items[i].quantity && WithinStock(items[i].quantity, c[id].quantity)
  {
    PlaceOrderSteps(c, userId, req, createdAt);
    var lines := Prepare(c, req.items.value).value;
    FinishSteps(c, userId, req, lines, createdAt);
    LinesSnapshot(c, req.items.value, lines);
    var o := PlaceOrder(c, userId, req, createdAt).value;
    assert o == NewOrder(userId, lines, CastAddress(req.address), ResolvePaymentMethod(req.paymentMethod).value, Total(lines), createdAt);
    assert o.items == lines;
  }

  /** The lines of a successful loop, one per requested line. */
  lemma LinesSnapshot(c: Catalog, items: seq<ItemRequest>, lines: seq<LineItem>)
    requires Prepare(c, items) == Success(lines)
    ensures |lines| == |items|
    ensures forall i :: 0 <= i < |items| ==>
              var id := ProductRef(items[i]);
              id in c && lines[i] == LineItem(id, c[id].name, UnitPrice(items[i], c[id].price), items[i].quantity, c[id].image)
              && 0 < items[i].quantity && WithinStock(items[i].quantity, c[id].quantity)
  {
    PrepareAll(c, items);
    forall i | 0 <= i < |items|
      ensures var id := ProductRef(items[i]);
              id in c && lines[i] == LineItem(id, c[id].name, UnitPrice(items[i], c[id].price), items[i].quantity, c[id].image)
              && 0 < items[i].quantity && WithinStock(items[i].quantity, c[id].quantity)
    {
      assert lines[i] == CheckItem(c, items[i]).value;
    }
  }

  /** Who may place an order: every required check must pass, in particular the e-mail
      pattern on the address as sent, and every line must pass its own checks. */
  lemma PlaceOrderRequires(c: Catalog, userId: Id, req: OrderRequest, createdAt: int)
    requires PlaceOrder(c, userId, req, createdAt).Success?
    ensures req.items.Some? && req.items.value != []
    ensures MissingField(req.address).None? && EmailRegex(req.address.email)
    ensures forall i :: 0 <= i < |req.items.value| ==> CheckItem(c, req.items.value[i]).Success?
    ensures ValidId(userId) && Run(c, StockOps(PlaceOrder(c, userId, req, createdAt).value.items)).failedAt.None?
  {
    PlaceOrderSteps(c, userId, req, createdAt);
    var lines := Prepare(c, req.items.value).value;
    FinishSteps(c, userId, req, lines, createdAt);
    PrepareAll(c, req.items.value);
  }

  /** The request checks run in the handler's order: a missing item list wins over a
      missing address field, which wins over a bad e-mail, which wins over any line's
      error; after those the first failing line decides the answer. */
  lemma PlaceOrderErrorOrder(c: Catalog, userId: Id, req: OrderRequest, createdAt: int)
    ensures (req.items.None? || req.items.value == []) ==> PlaceOrder(c, userId, req, createdAt) == Failure(EmptyItems)
    ensures req.items.Some? && req.items.value != [] && MissingField(req.address).Some? ==>
              PlaceOrder(c, userId, req, createdAt) == Failure(MissingAddressField(MissingField(req.address).value))
    ensures req.items.Some? && req.items.value != [] && MissingField(req.address).None? && !EmailRegex(req.address.email) ==>
              PlaceOrder(c, userId, req, createdAt) == Failure(InvalidEmail)
    ensures req.items.Some? && req.items.value != [] && MissingField(req.address).None? && EmailRegex(req.address.email)
            && Prepare(c, req.items.value).Failure? ==>
              exists k :: 0 <= k < |req.items.value|
                          && CheckItem(c, req.items.value[k]).Failure?
                          && PlaceOrder(c, userId, req, createdAt) == Failure(CheckItem(c, req.items.value[k]).error)
                          && forall i :: 0 <= i < k ==> CheckItem(c, req.items.value[i]).Success?
  {
    if req.items.Some? && req.items.value != [] && MissingField(req.address).None? && EmailRegex(req.address.email)
       && Prepare(c, req.items.value).Failure? {
      PrepareFirstError(c, req.items.value);
    }
  }

  /** After a successful order, each product's stock is down by the quantities of its
      lines and its sold and salesCount are up by the same amount; a product no line names
      is unchanged. Lines for the same product are checked one by one against the stock
      before the order, so together they may take the stock below zero. */
  lemma StockAfterOrder(c: Catalog, userId: Id, req: OrderRequest, createdAt: int, o: Order, p: Id)
    requires PlaceOrder(c, userId, req, createdAt) == Success(o)
    requires p in c
    ensures p in Run(c, StockOps(o.items)).catalog
    ensures CountersMoved(c[p], Run(c, StockOps(o.items)).catalog[p], StockOps(o.items), p)
  {
    PlaceOrderRequires(c, userId, req, createdAt);
    RunTotalsAt(c, StockOps(o.items), p);
  }

  // ---------------------------------------------------------------- worked orders

  /** A catalog of one listed product priced 10 with the given stock. */
  function OneProduct(pid: Id, stock: int): Catalog {
    map[pid := Product("Lamp", Some(10), Num(stock), Num(0), Num(0), false, true, "", [], None)]
  }

  /** A request whose address passes every check. */
  predicate GoodAddress(a: AddressInput) {
    MissingField(a).None? && EmailRegex(a.email) && AddressValid(CastAddress(a))
  }

  /** An order goes through when the request checks, every line, the owner id, the counter
      updates and the save validators all pass. */
  lemma PlaceOrderByParts(c: Catalog, userId: Id, req: OrderRequest, createdAt: int, lines: seq<LineItem>,
                          payment: PaymentMethod, total: int)
    requires RequestError(req).None? && Prepare(c, req.items.value) == Success(lines)
    requires ValidId(userId) && Run(c, StockOps(lines)).failedAt.None?
    requires ResolvePaymentMethod(req.paymentMethod) == Some(payment) && Total(lines) == total
    requires OrderValid(NewOrder(userId, lines, CastAddress(req.address), payment, total, createdAt))
    ensures PlaceOrder(c, userId, req, createdAt) == Success(NewOrder(userId, lines, CastAddress(req.address), payment, total, createdAt))
  {
  }

  /** A request with lines, a good address and no payment method passes the checks before
      the loop. */
  lemma GoodRequest(items: seq<ItemRequest>, a: AddressInput)
    requires items != [] && GoodAddress(a)
    ensures RequestError(OrderRequest(Some(items), a, None)).None?
  {
  }

  /** The line check, the total and the counter updates for two units of a product priced
      10 with five in stock. */
  lemma TwoOfFiveLines(pid: Id)
    requires ValidId(pid)
    ensures Prepare(OneProduct(pid, 5), [ItemRequest(pid, "", 2, None)]) == Success([LineItem(pid, "Lamp", Some(10), 2, "")])
    ensures Total([LineItem(pid, "Lamp", Some(10), 2, "")]) == 20
    ensures Run(OneProduct(pid, 5), StockOps([LineItem(pid, "Lamp", Some(10), 2, "")]))
            == WriteOutcome(map[pid := Product("Lamp", Some(10), Num(3), Num(2), Num(2), false, true, "", [], None)], None)
  {
    var c := OneProduct(pid, 5);
    var item := ItemRequest(pid, "", 2, None);
    var line := LineItem(pid, "Lamp", Some(10), 2, "");
    assert Compared(c[pid].quantity) == Some(5);
    assert CheckItem(c, item) == Success(line);
    assert [item][..0] == [];
    assert [] + [line] == [line];
    assert [line][..0] == [];
    var ops := StockOps([line]);
    assert ops[..0] == [];
    var after := Product("Lamp", Some(10), Num(3), Num(2), Num(2), false, true, "", [], None);
    assert Bump(c[pid], ops[0]) == after by {
      var no: seq<SaleEntry> := [];
      assert no + no == no;
    }
    assert c[pid := after] == map[pid := after];
  }

  /** A new order passes the save validators when its owner id, its lines, its address
      and its total do. */
  lemma NewOrderValid(userId: Id, lines: seq<LineItem>, address: Address, payment: PaymentMethod, total: int, createdAt: int)
    requires ValidId(userId) && AddressValid(address) && total >= 0
    requires forall i :: 0 <= i < |lines| ==> LineItemValid(lines[i])
    ensures OrderValid(NewOrder(userId, lines, address, payment, total, createdAt))
  {
  }

  lemma SingleLineValid(line: LineItem)
    requires LineItemValid(line)
    ensures forall i :: 0 <= i < |[line]| ==> LineItemValid([line][i])
  {
  }

  lemma RepeatedLineValid(line: LineItem)
    requires LineItemValid(line)
    ensures forall i :: 0 <= i < |[line, line]| ==> LineItemValid([line, line][i])
  {
  }

  /** Two units of a product priced 10 with five in stock: the order goes through with a
      total of 20 (and `TwoOfFiveLines` shows it leaves three in stock, with sold and
      salesCount at two). */
  lemma TwoOfFive(pid: Id, userId: Id, a: AddressInput)
    requires ValidId(pid) && ValidId(userId) && GoodAddress(a)
    ensures PlaceOrder(OneProduct(pid, 5), userId, OrderRequest(Some([ItemRequest(pid, "", 2, None)]), a, None), 0)
            == Success(NewOrder(userId, [LineItem(pid, "Lamp", Some(10), 2, "")], CastAddress(a), CreditCard, 20, 0))
  {
    var items := [ItemRequest(pid, "", 2, None)];
    TwoOfFiveLines(pid);
    GoodRequest(items, a);
    assert LineItemValid(LineItem(pid, "Lamp", Some(10), 2, ""));
    SingleLineValid(LineItem(pid, "Lamp", Some(10), 2, ""));
    NewOrderValid(userId, [LineItem(pid, "Lamp", Some(10), 2, "")], CastAddress(a), CreditCard, 20, 0);
    PlaceOrderByParts(OneProduct(pid, 5), userId, OrderRequest(Some(items), a, None), 0, [LineItem(pid, "Lamp", Some(10), 2, "")], CreditCard, 20);
  }

  /** Two lines of one unit for a product with one in stock both pass the line check. */
  lemma DuplicateLines(pid: Id)
    requires ValidId(pid)
    ensures Prepare(OneProduct(pid, 1), [ItemRequest(pid, "", 1, None), ItemRequest("", pid, 1, None)])
            == Success([LineItem(pid, "Lamp", Some(10), 1, ""), LineItem(pid, "Lamp", Some(10), 1, "")])
    ensures Total([LineItem(pid, "Lamp", Some(10), 1, ""), LineItem(pid, "Lamp", Some(10), 1, "")]) == 20
  {
    var c := OneProduct(pid, 1);
    var items := [ItemRequest(pid, "", 1, None), ItemRequest("", pid, 1, None)];
    var line := LineItem(pid, "Lamp", Some(10), 1, "");
    assert Compared(c[pid].quantity) == Some(1);
    assert CheckItem(c, items[0]) == Success(line);
    assert CheckItem(c, items[1]) == Success(line);
    assert items[..1][..0] == [];
    assert items[..1] == [items[0]];
    assert [] + [line] == [line];
    assert [line] + [line] == [line, line];
    assert Prepare(c, items[..1]) == Success([line]);
    assert [line, line][..1] == [line];
    assert [line][..0] == [];
    assert Total([line]) == 10;
  }

  /** The updates of those two lines take the stock to -1 and sold and salesCount to 2. */
  lemma DuplicateLinesStock(pid: Id)
    requires ValidId(pid)
    ensures Run(OneProduct(pid, 1), StockOps([LineItem(pid, "Lamp", Some(10), 1, ""), LineItem(pid, "Lamp", Some(10), 1, "")]))
            == WriteOutcome(map[pid := Product("Lamp", Some(10), Num(-1), Num(2), Num(2), false, true, "", [], None)], None)
  {
    var c := OneProduct(pid, 1);
    var line := LineItem(pid, "Lamp", Some(10), 1, "");
    var ops := StockOps([line, line]);
    assert [line, line][..1] == [line];
    assert [line][..0] == [];
    assert ops[..1] == [ops[0]];
    assert ops[..1][..0] == [];
    var no: seq<SaleEntry> := [];
    assert no + no == no;
    var mid := Product("Lamp", Some(10), Num(0), Num(1), Num(1), false, true, "", [], None);
    var after := Product("Lamp", Some(10), Num(-1), Num(2), Num(2), false, true, "", [], None);
    assert Bump(c[pid], ops[0]) == mid;
    assert c[pid := mid] == map[pid := mid];
    assert Run(c, ops[..1]) == WriteOutcome(map[pid := mid], None);
    assert Bump(mid, ops[1]) == after;
    assert map[pid := mid][pid := after] == map[pid := after];
  }

  /** Two lines for the same product, one naming it by `product` and one by `_id`, each
      within a stock of one: the order goes through (and `DuplicateLinesStock` shows the
      stock then ends at -1). */
  lemma OversellThroughDuplicateLines(pid: Id, userId: Id, a: AddressInput)
    requires ValidId(pid) && ValidId(userId) && GoodAddress(a)
    ensures var line := LineItem(pid, "Lamp", Some(10), 1, "");
            PlaceOrder(OneProduct(pid, 1), userId, OrderRequest(Some([ItemRequest(pid, "", 1, None), ItemRequest("", pid, 1, None)]), a, None), 0)
            == Success(NewOrder(userId, [line, line], CastAddress(a), CreditCard, 20, 0))
  {
    var line := LineItem(pid, "Lamp", Some(10), 1, "");
    var items := [ItemRequest(pid, "", 1, None), ItemRequest("", pid, 1, None)];
    DuplicateLines(pid);
    DuplicateLinesStock(pid);
    GoodRequest(items, a);
    assert LineItemValid(line);
    RepeatedLineValid(line);
    NewOrderValid(userId, [line, line], CastAddress(a), CreditCard, 20, 0);
    PlaceOrderByParts(OneProduct(pid, 1), userId, OrderRequest(Some(items), a, None), 0, [line, line], CreditCard, 20);
  }

  /** A catalog of one listed product priced 10 that was created without a `quantity`. */
  function Unstocked(pid: Id): Catalog {
    map[pid := Product("Lamp", Some(10), Absent, Num(0), Num(0), false, true, "", [], None)]
  }

  /** A product without a stock field takes an order of any positive quantity, because a
      comparison with `undefined` is false; the update then creates the field at -q. */
  lemma UnstockedOversells(pid: Id, q: int)
    requires ValidId(pid) && q > 0
    ensures Prepare(Unstocked(pid), [ItemRequest(pid, "", q, None)]) == Success([LineItem(pid, "Lamp", Some(10), q, "")])
    ensures Run(Unstocked(pid), StockOps([LineItem(pid, "Lamp", Some(10), q, "")]))
            == WriteOutcome(map[pid := Product("Lamp", Some(10), Num(-q), Num(q), Num(q), false, true, "", [], None)], None)
  {
    var c := Unstocked(pid);
    var item := ItemRequest(pid, "", q, None);
    var line := LineItem(pid, "Lamp", Some(10), q, "");
    assert Compared(c[pid].quantity).None?;
    assert CheckItem(c, item) == Success(line);
    assert [item][..0] == [];
    assert [] + [line] == [line];
    assert [line][..0] == [];
    var ops := StockOps([line]);
    assert ops[..0] == [];
    var after := Product("Lamp", Some(10), Num(-q), Num(q), Num(q), false, true, "", [], None);
    assert Bump(c[pid], ops[0]) == after by {
      var no: seq<SaleEntry> := [];
      assert no + no == no;
    }
    assert c[pid := after] == map[pid := after];
  }

  /** A line whose request gives no non-zero price, for a product saved without a price,
      passes the loop but makes the order fail at save: the required price validator
      refuses the line, the catch rolls the stock back and answers 500. */
  lemma UnpricedLineFails(c: Catalog, userId: Id, req: OrderRequest, createdAt: int, k: nat)
    requires RequestError(req).None? && Prepare(c, req.items.value).Success?
    requires k < |req.items.value| && ProductRef(req.items.value[k]) in c
    requires UnitPrice(req.items.value[k], c[ProductRef(req.items.value[k])].price).None?
    ensures PlaceOrder(c, userId, req, createdAt) == Failure(CreateFailed)
  {
    var lines := Prepare(c, req.items.value).value;
    LinesSnapshot(c, req.items.value, lines);
    assert !LineItemValid(lines[k]);
  }

  /** A catalog of one listed product with five in stock that was saved without a price. */
  function Unpriced(pid: Id): Catalog {
    map[pid := Product("Lamp", None, Num(5), Num(0), Num(0), false, true, "", [], None)]
  }

  /** Ordering one unit of it without a price passes every check of the loop. */
  lemma UnpricedLinePasses(pid: Id)
    requires ValidId(pid)
    ensures Prepare(Unpriced(pid), [ItemRequest(pid, "", 1, None)]) == Success([LineItem(pid, "Lamp", None, 1, "")])
  {
    var c := Unpriced(pid);
    var item := ItemRequest(pid, "", 1, None);
    var line := LineItem(pid, "Lamp", None, 1, "");
    assert Compared(c[pid].quantity) == Some(5);
    assert CheckItem(c, item) == Success(line);
    assert [item][..0] == [];
    assert [] + [line] == [line];
  }

  /** The order of that line still fails with 500. */
  lemma UnpricedOrderFails(pid: Id, userId: Id, a: AddressInput)
    requires ValidId(pid) && GoodAddress(a)
    ensures PlaceOrder(Unpriced(pid), userId, OrderRequest(Some([ItemRequest(pid, "", 1, None)]), a, None), 0) == Failure(CreateFailed)
  {
    var item := ItemRequest(pid, "", 1, None);
    var req := OrderRequest(Some([item]), a, None);
    UnpricedLinePasses(pid);
    GoodRequest([item], a);
    assert ProductRef(req.items.value[0]) == pid;
    UnpricedLineFails(Unpriced(pid), userId, req, 0, 0);
  }

  // ---------------------------------------------------------------- updateOrderStatus

  /** What `updateOrderStatus` decides: the order after the move, or the error. */
  function StatusUpdate(orders: map<Id, Order>, id: Id, status: string, changedBy: string): Result<Order, OrderError> {
    if status == "" || changedBy == "" then Failure(MissingStatusFields)
    else if !ValidId(id) then Failure(UpdateFailed)
    else if id !in orders then Failure(OrderNotFound(id))
    else
      var o := orders[id];
      var allowed := ControllerTransitions()[StatusName(o.status)];
      if status !in allowed then Failure(InvalidTransition(o.status, status, allowed))
      else
        var target := ParseStatus(status);
        if target.None? then Failure(UpdateFailed)
        else if OrderValid(o.(status := target.value)) then Success(o.(status := target.value))
        else Failure(UpdateFailed)
  }

  /** `updateOrderStatus`: load the document, record who changed it and the status it had,
      set the new status and save. Only the order's status changes. */
  method UpdateOrderStatus(db: Database, id: Id, status: string, changedBy: string) returns (r: Result<Order, OrderError>)
    modifies db
    ensures r == StatusUpdate(old(db.orders), id, status, changedBy)
    ensures db.orders == if r.Success? then old(db.orders)[id := r.value] else old(db.orders)
    ensures db.products == old(db.products) && db.users == old(db.users)
  {
    if status == "" || changedBy == "" {
      return Failure(MissingStatusFields);
    }
    if !ValidId(id) {
      return Failure(UpdateFailed);
    }
    if id !in db.orders {
      return Failure(OrderNotFound(id));
    }
    var doc := new OrderDocument.Hydrate(db.orders[id]);
    var allowed := ControllerTransitions()[StatusName(doc.data.status)];
    if status !in allowed {
      return Failure(InvalidTransition(doc.data.status, status, allowed));
    }
    var target := ParseStatus(status);
    if target.None? {
      return Failure(UpdateFailed);
    }
    doc.updatedBy := changedBy;
    doc.originalStatus := Some(doc.data.status);
    doc.data := doc.data.(status := target.value);
    if !OrderValid(doc.data) {
      return Failure(UpdateFailed);
    }
    db.orders := db.orders[id := doc.data];
    r := Success(doc.data);
  }

  /** A status update goes through exactly when the fields are given, the order exists
      and is valid, and the table allows the move; it then changes the status and nothing
      else. Missing fields are refused first, then an unknown order, then a move outside
      the table, which reports the row it was checked against. */
  lemma StatusUpdateOutcome(orders: map<Id, Order>, id: Id, status: string, changedBy: string)
    ensures StatusUpdate(orders, id, status, changedBy).Success? <==>
              status != "" && changedBy != "" && ValidId(id) && id in orders && OrderValid(orders[id])
              && ParseStatus(status).Some? && Allowed(orders[id].status, ParseStatus(status).value)
    ensures StatusUpdate(orders, id, status, changedBy).Success? ==>
              StatusUpdate(orders, id, status, changedBy).value == orders[id].(status := ParseStatus(status).value)
    ensures StatusUpdate(orders, id, status, changedBy).Failure? && StatusUpdate(orders, id, status, changedBy).error.InvalidTransition? ==>
              var e := StatusUpdate(orders, id, status, changedBy).error;
              id in orders && e.from == orders[id].status && e.to == status
              && e.allowed == Transitions()[StatusName(orders[id].status)]
              && (ParseStatus(status).None? || !Allowed(orders[id].status, ParseStatus(status).value))
    ensures status == "" || changedBy == "" ==> StatusUpdate(orders, id, status, changedBy) == Failure(MissingStatusFields)
    ensures status != "" && changedBy != "" && ValidId(id) && id !in orders ==>
              StatusUpdate(orders, id, status, changedBy) == Failure(OrderNotFound(id))
    ensures status != "" && changedBy != "" && ValidId(id) && id in orders
            && status !in Transitions()[StatusName(orders[id].status)] ==>
              StatusUpdate(orders, id, status, changedBy)
              == Failure(InvalidTransition(orders[id].status, status, Transitions()[StatusName(orders[id].status)]))
  {
    SameTable();
    if id in orders {
      AllowedByName(orders[id].status, status);
    }
  }

  /** Repeated updates follow a path of the table, so an order moves at most four times
      and never returns to a status it has left. */
  lemma UpdatesFollowTable(orders: map<Id, Order>, id: Id, status: string, changedBy: string)
    requires StatusUpdate(orders, id, status, changedBy).Success?
    ensures id in orders
    ensures IsPath([orders[id].status, StatusUpdate(orders, id, status, changedBy).value.status])
    ensures Rank(orders[id].status) < Rank(StatusUpdate(orders, id, status, changedBy).value.status)
  {
    StatusUpdateOutcome(orders, id, status, changedBy);
    AllowedRaisesRank(orders[id].status, StatusUpdate(orders, id, status, changedBy).value.status);
  }

  // ---------------------------------------------------------------- cancelOrder

  /** What `cancelOrder` decides for the requesting user (`None` when unauthenticated). */
  function Cancel(orders: map<Id, Order>, id: Id, requester: Option<Id>): Result<Order, OrderError> {
    if !ValidId(id) then Failure(CancelFailed)
    else if id !in orders then Failure(OrderNotFound(id))
    else if requester.None? || orders[id].user != requester.value then Failure(NotAuthorized)
    else if orders[id].status == Cancelled then Failure(AlreadyCancelled)
    else if OrderValid(orders[id].(status := Cancelled)) then Success(orders[id].(status := Cancelled))
    else Failure(CancelFailed)
  }

  /** `cancelOrder`: the owner sets the status to cancelled. Stock is not restored. */
  method CancelOrder(db: Database, id: Id, requester: Option<Id>) returns (r: Result<Order, OrderError>)
    modifies db
    ensures r == Cancel(old(db.orders), id, requester)
    ensures db.orders == if r.Success? then old(db.orders)[id := r.value] else old(db.orders)
    ensures db.products == old(db.products) && db.users == old(db.users)
  {
    if !ValidId(id) {
      return Failure(CancelFailed);
    }
    if id !in db.orders {
      return Failure(OrderNotFound(id));
    }
    var order := db.orders[id];
    if requester.None? || order.user != requester.value {
      return Failure(NotAuthorized);
    }
    if order.status == Cancelled {
      return Failure(AlreadyCancelled);
    }
    order := order.(status := Cancelled);
    if !OrderValid(order) {
      return Failure(CancelFailed);
    }
    db.orders := db.orders[id := order];
    r := Success(order);
  }

  /** Only the owner can cancel, a cancelled order cannot be cancelled again, and a valid
      order of any other status can, whether or not the table allows the move: in
      particular shipped, delivered and completed orders, which the table forbids to
      cancel. An unknown order, another user's order and an order already cancelled each
      get their own error. */
  lemma CancelOutcome(orders: map<Id, Order>, id: Id, requester: Option<Id>)
    ensures Cancel(orders, id, requester).Success? <==>
              ValidId(id) && id in orders && requester == Some(orders[id].user)
              && orders[id].status != Cancelled && OrderValid(orders[id])
    ensures Cancel(orders, id, requester).Success? ==>
              Cancel(orders, id, requester).value == orders[id].(status := Cancelled)
    ensures Cancel(orders, id, requester).Success? && orders[id].status in {Shipped, Delivered, Completed} ==>
              !Allowed(orders[id].status, Cancelled)
    ensures ValidId(id) && id !in orders ==> Cancel(orders, id, requester) == Failure(OrderNotFound(id))
    ensures ValidId(id) && id in orders && requester != Some(orders[id].user) ==>
              Cancel(orders, id, requester) == Failure(NotAuthorized)
    ensures ValidId(id) && id in orders && requester == Some(orders[id].user) && orders[id].status == Cancelled ==>
              Cancel(orders, id, requester) == Failure(AlreadyCancelled)
  {
    if id in orders {
      CancelEdges(orders[id].status);
    }
  }
}
