/** The catalog handlers (controllers/productController.js): `createProduct` with its body
    defaults and the featured cap, `toggleFeatured`, `updateProductSales`, and the filter and
    limit of the product listings. */
module ProductController {
  import opened Wrappers
  import opened JsText
  import opened ObjectIds
  import opened ProductModel
  import opened Store
  import Collections

  /** At most this many products may be featured. */
  const MaxFeatured: nat := 10

  datatype ProductError =
    | FeaturedLimitReached   // 400 "Maximum 10 featured products allowed"
    | ProductNotFound        // 404
    | ServerError            // 500: a cast or validation failure, or a failed write
  {
    function Code(): int {
      match this
      case FeaturedLimitReached => 400
      case ProductNotFound => 404
      case ServerError => 500
    }
  }

  // ---------------------------------------------------------------- createProduct

  /** A request body. `quantity`, `sold` and `salesCount` are the raw JSON values (`Num`
      for a number, `Absent` when the body leaves them out); `price` is `None` when the body
      has no price or a null one;
      `featured` is `None` unless the body holds a boolean. */
  datatype ProductInput = ProductInput(
    name: string, price: Option<int>, quantity: Counter, sold: Counter, salesCount: Counter,
    featured: Option<bool>, status: bool, image: string)

  /** The handler's two adjustments of the body: `salesCount` copied from `sold` when only
      `sold` is a number, and `featured` set to false when it is not a boolean. */
  function Normalize(b: ProductInput): (r: ProductInput)
    ensures r.featured.Some?
  {
    b.(salesCount := if b.sold.Num? && !b.salesCount.Num? then b.sold else b.salesCount,
       featured := if b.featured.Some? then b.featured else Some(false))
  }

  /** The adjustments do what the handler says and nothing else, and applying them twice is
      applying them once. */
  lemma NormalizeProperties(b: ProductInput)
    ensures Normalize(b).salesCount == (if b.sold.Num? && !b.salesCount.Num? then b.sold else b.salesCount)
    ensures b.featured.Some? ==> Normalize(b).featured == b.featured
    ensures b.featured.None? ==> Normalize(b).featured == Some(false)
    ensures Normalize(b).(salesCount := b.salesCount, featured := b.featured) == b
    ensures Normalize(Normalize(b)) == Normalize(b)
  {
  }

  /** The schema's cast of a Number path without a default (`quantity`): a missing value
      stays missing, null stays null, the empty string becomes null, and any other string
      is read as `Number` reads it, NaN being a cast error. */
  function CastNumber(c: Counter): (r: Option<Counter>)
    ensures r.Some? ==> !r.value.Str?
    ensures c.Num? || c.Absent? || c.Null? ==> r == Some(c)
    ensures c == Str("") ==> r == Some(Null)
    ensures c.Str? && c.s != "" ==> (r.None? <==> NumberOf(c.s).None?)
    ensures c.Str? && NumberOf(c.s).Some? && c.s != "" ==> r == Some(Num(NumberOf(c.s).value))
  {
    match c
    case Absent => Some(Absent)
    case Null => Some(Null)
    case Num(n) => Some(Num(n))
    case Str(s) =>
      if s == "" then Some(Null)
      else match NumberOf(s)
        case Some(n) => Some(Num(n))
        case None => None
  }

  /** The same cast for a path with the default 0 (`sold`, `salesCount`): a missing value
      takes the default, and every other value is cast as above. */
  function CastCount(c: Counter): (r: Option<Counter>)
    ensures r.Some? ==> !r.value.Str? && !r.value.Absent?
    ensures c.Num? ==> r == Some(c)
    ensures c.Absent? ==> r == Some(Num(0))
    ensures c.Str? && c.s != "" ==> (r.None? <==> NumberOf(c.s).None?)
  {
    if c.Absent? then Some(Num(0)) else CastNumber(c)
  }

  /** The string forms a count may arrive in: the empty string is null, white space alone is
      0, and a decimal or prefixed numeral with white space around it is its value. */
  lemma CastCountStrings(before: string, sign: string, ds: string, letter: char, after: string)
    requires AllSpace(before) && AllSpace(after)
    requires sign == "" || sign == "+" || sign == "-"
    requires ds != [] && AllDigits(ds)
    ensures CastCount(Str("")) == Some(Null)
    ensures before + after != [] ==> CastCount(Str(before + after)) == Some(Num(0))
    ensures CastCount(Str(before + sign + ds + after)) == Some(Num(Signed(sign == "-", DigitsValue(ds, 10))))
    ensures PrefixRadix(letter) == 16 ==>
              CastCount(Str(before + ['0', letter] + ds + after)) == Some(Num(DigitsValue(ds, 16)))
  {
    var blank := before + after;
    assert AllSpace(blank) by {
      forall k | 0 <= k < |blank| ensures IsSpace(blank[k]) {
        if k < |before| {
          assert blank[k] == before[k];
        } else {
          assert blank[k] == after[k - |before|];
        }
      }
    }
    NumberOfBlank(blank);
    NumberOfDecimal(before, sign, ds, after);
    assert (before + sign + ds + after) != "" by {
      assert |before + sign + ds + after| >= |ds|;
    }
    if PrefixRadix(letter) == 16 {
      assert AllRadixDigits(ds, 16) by {
        forall k | 0 <= k < |ds| ensures IsRadixDigit(ds[k], 16) {
          assert IsDigit(ds[k]);
        }
      }
      NumberOfPrefixed(before, letter, ds, after);
      assert (before + ['0', letter] + ds + after) != "" by {
        assert |before + ['0', letter] + ds + after| >= 2;
      }
    }
  }

  /** `new Product(body)` after the adjustments: the body's fields with schema casts and
      defaults; an empty sales history and no `stock` field. */
  function Build(b: ProductInput): Option<Product> {
    var quantity := CastNumber(b.quantity);
    var sold := CastCount(b.sold);
    var salesCount := CastCount(b.salesCount);
    if quantity.None? || sold.None? || salesCount.None? then None
    else Some(Product(b.name, b.price, quantity.value, sold.value, salesCount.value,
                      b.featured == Some(true), b.status, b.image, [], None))
  }

  /** What `createProduct` decides against the catalog before the call. */
  function CreateOutcome(c: Catalog, body: ProductInput): Result<Product, ProductError> {
    var b := Normalize(body);
    if b.featured == Some(true) && FeaturedCount(c) >= MaxFeatured then Failure(FeaturedLimitReached)
    else match Build(b)
      case None => Failure(ServerError)
      case Some(p) => Success(p)
  }

  /** `createProduct`. `newId` is the id the database assigns. */
  method CreateProduct(db: Database, body: ProductInput, newId: Id) returns (r: Result<Product, ProductError>)
    requires newId !in db.products
    modifies db
    ensures r == CreateOutcome(old(db.products), body)
    ensures db.products == if r.Success? then old(db.products)[newId := r.value] else old(db.products)
    ensures db.orders == old(db.orders) && db.users == old(db.users)
  {
    var b := body;
    if b.sold.Num? && !b.salesCount.Num? {
      b := b.(salesCount := b.sold);
    }
    if b.featured.None? {
      b := b.(featured := Some(false));
    }
    if b.featured == Some(true) {
      var featuredCount := FeaturedCount(db.products);
      if featuredCount >= MaxFeatured {
        return Failure(FeaturedLimitReached);
      }
    }
    var product := Build(b);
    if product.None? {
      return Failure(ServerError);
    }
    db.products := db.products[newId := product.value];
    r := Success(product.value);
  }

  /** A created product has the counters the body asked for: a numeric `sold` also sets a
      missing or non-numeric `salesCount`, a numeric `salesCount` is kept, and a missing
      counter is 0, while a missing or numeric `quantity` is stored as sent, so a product
      created without one has no stock field. It is featured only when the body said so with a boolean and fewer than
      ten products were featured. */
  lemma CreatedProduct(c: Catalog, body: ProductInput)
    ensures CreateOutcome(c, body).Success? ==>
              var p := CreateOutcome(c, body).value;
              (body.sold.Num? ==> p.sold == body.sold)
              && (body.sold.Num? && !body.salesCount.Num? ==> p.salesCount == body.sold)
              && (body.salesCount.Num? ==> p.salesCount == body.salesCount)
              && (body.sold.Absent? ==> p.sold == Num(0))
              && (body.quantity.Num? || body.quantity.Absent? ==> p.quantity == body.quantity)
              && (p.featured <==> body.featured == Some(true))
              && (p.featured ==> FeaturedCount(c) < MaxFeatured)
              && p.stock.None? && p.salesHistory == []
    ensures body.featured == Some(true) && FeaturedCount(c) >= MaxFeatured ==>
              CreateOutcome(c, body) == Failure(FeaturedLimitReached)
  {
  }

  // ---------------------------------------------------------------- toggleFeatured

  function ToggleOutcome(c: Catalog, id: Id): Result<Product, ProductError> {
    if !ValidId(id) then Failure(ServerError)
    else if id !in c then Failure(ProductNotFound)
    else if !c[id].featured && FeaturedCount(c) >= MaxFeatured then Failure(FeaturedLimitReached)
    else Success(c[id].(featured := !c[id].featured))
  }

  /** `toggleFeatured`: flip the flag in place and save. */
  method ToggleFeatured(db: Database, id: Id) returns (r: Result<Product, ProductError>)
    modifies db
    ensures r == ToggleOutcome(old(db.products), id)
    ensures db.products == if r.Success? then old(db.products)[id := r.value] else old(db.products)
    ensures db.orders == old(db.orders) && db.users == old(db.users)
  {
    if !ValidId(id) {
      return Failure(ServerError);
    }
    if id !in db.products {
      return Failure(ProductNotFound);
    }
    var product := db.products[id];
    if !product.featured {
      var featuredCount := FeaturedCount(db.products);
      if featuredCount >= MaxFeatured {
        return Failure(FeaturedLimitReached);
      }
    }
    product := product.(featured := !product.featured);
    db.products := db.products[id := product];
    r := Success(product);
  }

  /** Unfeaturing always succeeds, featuring fails exactly when ten or more products are
      featured, and a toggle changes nothing but the flag. */
  lemma ToggleProperties(c: Catalog, id: Id)
    ensures ValidId(id) && id in c && c[id].featured ==> ToggleOutcome(c, id).Success?
    ensures ValidId(id) && id in c && !c[id].featured ==>
              (ToggleOutcome(c, id) == Failure(FeaturedLimitReached) <==> FeaturedCount(c) >= MaxFeatured)
    ensures ToggleOutcome(c, id).Success? ==>
              id in c && ToggleOutcome(c, id).value.featured == !c[id].featured
              && ToggleOutcome(c, id).value.(featured := c[id].featured) == c[id]
  {
  }

  /** Creating and toggling never take the featured count above ten from a catalog with at
      most ten featured products. */
  lemma FeaturedCapKept(c: Catalog, body: ProductInput, newId: Id, id: Id)
    requires FeaturedCount(c) <= MaxFeatured
    ensures newId !in c && CreateOutcome(c, body).Success? ==>
              FeaturedCount(c[newId := CreateOutcome(c, body).value]) <= MaxFeatured
    ensures ToggleOutcome(c, id).Success? ==> FeaturedCount(c[id := ToggleOutcome(c, id).value]) <= MaxFeatured
  {
    if newId !in c && CreateOutcome(c, body).Success? {
      FeaturedAfterInsert(c, newId, CreateOutcome(c, body).value);
    }
    if ToggleOutcome(c, id).Success? {
      FeaturedAfterFlip(c, id);
    }
  }

  // ---------------------------------------------------------------- updateProductSales

  /** One entry of the request's `items`. */
  datatype SalesItem = SalesItem(productId: Id, quantity: int)

  function SalesOps(items: seq<SalesItem>): (ops: seq<IncOp>)
    ensures |ops| == |items|
    ensures forall i :: 0 <= i < |items| ==> ops[i] == IncOp(items[i].productId, items[i].quantity, None)
  {
    seq(|items|, i requires 0 <= i < |items| => IncOp(items[i].productId, items[i].quantity, None))
  }

  /** `updateProductSales`: one `$inc` per item, in order, with no stock check. A missing
      `items` fails before any write; an item whose id does not cast, or whose product has a
      non-numeric counter, fails after the items before it were applied; an id that matches
      nothing is skipped. */
  method UpdateProductSales(db: Database, items: Option<seq<SalesItem>>) returns (r: Result<(), ProductError>)
    modifies db
    ensures items.None? ==> r.Failure? && db.products == old(db.products)
    ensures items.Some? ==>
              var run := Run(old(db.products), SalesOps(items.value));
              db.products == run.catalog && (r.Success? <==> run.failedAt.None?)
    ensures db.orders == old(db.orders) && db.users == old(db.users)
  {
    if items.None? {
      return Failure(ServerError);
    }
    var list := items.value;
    ghost var ops := SalesOps(list);
    var i := 0;
    while i < |list|
      invariant 0 <= i <= |list|
      invariant Run(old(db.products), ops[..i]) == WriteOutcome(db.products, None)
      invariant db.orders == old(db.orders) && db.users == old(db.users)
    {
      assert ops[..i + 1][..i] == ops[..i];
      var op := IncOp(list[i].productId, list[i].quantity, None);
      var next := Step(db.products, op);
      if next.None? {
        RunStopsAtFailure(old(db.products), ops, i + 1);
        return Failure(ServerError);
      }
      db.products := next.value;
      i := i + 1;
    }
    assert ops[..i] == ops;
    r := Success(());
  }

  /** Nothing checks the stock: selling one more than is in stock goes through and leaves
      the stock at -1. */
  lemma SalesCanOversell(c: Catalog, id: Id)
    requires ValidId(id) && id in c && CountersNumeric(c[id])
    ensures Run(c, SalesOps([SalesItem(id, Base(c[id].quantity) + 1)])).failedAt.None?
    ensures id in Run(c, SalesOps([SalesItem(id, Base(c[id].quantity) + 1)])).catalog
    ensures Run(c, SalesOps([SalesItem(id, Base(c[id].quantity) + 1)])).catalog[id].quantity == Num(-1)
  {
    var ops := SalesOps([SalesItem(id, Base(c[id].quantity) + 1)]);
    assert ops[..0] == [];
    RunShape(c, ops);
  }

  // ---------------------------------------------------------------- listings

  /** The query string of the listing endpoints; `None` for an absent parameter. */
  datatype ProductQuery = ProductQuery(featured: Option<string>, status: Option<string>, limit: Option<string>)

  /** The `find` filter of `getAllProducts`: which of the two conditions it carries. */
  datatype Filter = Filter(featured: bool, status: bool)

  function ListFilter(q: ProductQuery): Filter {
    Filter(q.featured == Some("true"), q.status == Some("true"))
  }

  predicate Matches(f: Filter, p: Product) {
    (f.featured ==> p.featured) && (f.status ==> p.status)
  }

  /** The products `getAllProducts` returns, before sorting. */
  function Listed(c: Catalog, q: ProductQuery): set<Id> {
    set id | id in c && Matches(ListFilter(q), c[id])
  }

  /** A product is listed exactly when it is featured or the query does not ask for
      `featured=true`, and it is listed (status true) or the query does not ask for
      `status=true`; any other value of either parameter, such as "false" or "1", filters
      nothing. */
  lemma ListedExactly(c: Catalog, q: ProductQuery, id: Id)
    requires id in c
    ensures id in Listed(c, q) <==>
              (q.featured == Some("true") ==> c[id].featured) && (q.status == Some("true") ==> c[id].status)
    ensures q.featured != Some("true") && q.status != Some("true") ==> Listed(c, q) == c.Keys
  {
  }

  /** `parseInt(req.query.limit) || 8`: the parsed value, or 8 when it is NaN or 0. */
  function FeaturedLimit(limit: Option<string>): (n: int)
    ensures n != 0
  {
    var parsed := if limit.Some? then ParseInt(limit.value) else None;
    if parsed.None? || parsed.value == 0 then 8 else parsed.value
  }

  /** A missing, empty or zero limit gives 8; a decimal numeral gives its value. */
  lemma FeaturedLimitValues(ds: string)
    requires ds != [] && AllDigits(ds)
    ensures FeaturedLimit(None) == 8 && FeaturedLimit(Some("")) == 8
    ensures DigitsValue(ds, 10) == 0 ==> FeaturedLimit(Some(ds)) == 8
    ensures DigitsValue(ds, 10) != 0 ==> FeaturedLimit(Some(ds)) == DigitsValue(ds, 10)
  {
    ParseIntDecimal(ds, "");
    assert ds + "" == ds;
  }

  /** The products `getFeaturedProducts` draws from, before sorting and the limit: the
      featured and listed ones. */
  function FeaturedListing(c: Catalog): set<Id> {
    set id | id in c && c[id].featured && c[id].status
  }

  /** The featured listing is the full listing with both filters on, and never has more
      members than the featured count. */
  lemma FeaturedListingIsFiltered(c: Catalog)
    ensures FeaturedListing(c) == Listed(c, ProductQuery(Some("true"), Some("true"), None))
    ensures |FeaturedListing(c)| <= FeaturedCount(c)
  {
    assert FeaturedListing(c) <= FeaturedIds(c);
    Collections.SubsetCard(FeaturedListing(c), FeaturedIds(c));
  }
}
