/** The product record (models/Product.js) and the counter updates that order creation,
    sales recording and the sales endpoint apply to it: `$inc` of `sold` and `salesCount`
    by q, of `quantity` by -q, and optionally a `$push` onto `salesHistory`. */
module ProductModel {
  import opened Wrappers
  import opened JsText
  import opened ObjectIds

  /** A stored number field as the document database may hold it. `sold` and `salesCount`
      default to 0, so documents written through the schema hold a number there, while
      older documents may lack the field or hold null or a string, and the backfill script
      tests for each of these forms. `quantity` has no default: a product created without
      it has no stock field at all. */
  datatype Counter = Absent | Null | Num(n: int) | Str(s: string)

  /** One `salesHistory` entry: when, how many, for how much (in cents), from which order. */
  datatype SaleEntry = SaleEntry(date: int, quantity: int, revenue: int, orderId: Id)

  /** A product document. `price` is in cents, and `None` for a product saved without one
      (the schema neither requires nor defaults it). `quantity` is the stock. `status` is the
      Boolean "listed" flag.
      `stock` is not declared by the schema, so it is `None` for every document written
      through it; the cart handler nevertheless reads it. */
  datatype Product = Product(
    name: string,
    price: Option<int>,
    quantity: Counter,
    sold: Counter,
    salesCount: Counter,
    featured: bool,
    status: bool,
    image: string,
    salesHistory: seq<SaleEntry>,
    stock: Option<int>)

  /** The products collection, by id. */
  type Catalog = map<Id, Product>

  /** A counter `$inc` accepts: a number or a missing field (which counts as 0). */
  predicate Numeric(c: Counter) {
    c.Absent? || c.Num?
  }

  function Base(c: Counter): int {
    if c.Num? then c.n else 0
  }

  /** The number a JavaScript comparison such as `n > product.quantity` reads from a field:
      none for a missing field (`undefined` compares as NaN, so every such comparison is
      false), 0 for null, and a string read as `Number` reads it. */
  function Compared(c: Counter): (r: Option<int>)
    ensures c.Absent? ==> r.None?
    ensures c.Num? ==> r == Some(c.n)
  {
    match c
    case Absent => None
    case Null => Some(0)
    case Num(n) => Some(n)
    case Str(s) => NumberOf(s)
  }

  /** The three fields every counter update increments or decrements. */
  predicate CountersNumeric(p: Product) {
    Numeric(p.quantity) && Numeric(p.sold) && Numeric(p.salesCount)
  }

  /** Two versions of a product that differ at most in the fields the counter updates touch. */
  predicate SameListing(a: Product, b: Product) {
    a.name == b.name && a.price == b.price && a.featured == b.featured && a.status == b.status
    && a.image == b.image && a.stock == b.stock
  }

  /** One update of the counters of one product: sold += qty, salesCount += qty,
      quantity -= qty, and `entry` pushed onto the sales history when present. A missing
      field is created by the update, as if it had held 0. */
  datatype IncOp = IncOp(product: Id, qty: int, entry: Option<SaleEntry>)

  function Bump(p: Product, op: IncOp): Product {
    p.(quantity := Num(Base(p.quantity) - op.qty),
       sold := Num(Base(p.sold) + op.qty),
       salesCount := Num(Base(p.salesCount) + op.qty),
       salesHistory := p.salesHistory + (if op.entry.Some? then [op.entry.value] else []))
  }

  /** An update fails when its id cannot be cast to an object id, or when it reaches a
      product whose counters `$inc` refuses. An update that matches no product is a no-op. */
  predicate OpOk(c: Catalog, op: IncOp) {
    ValidId(op.product) && (op.product in c ==> CountersNumeric(c[op.product]))
  }

  function Step(c: Catalog, op: IncOp): Option<Catalog> {
    if !OpOk(c, op) then None
    else if op.product !in c then Some(c)
    else Some(c[op.product := Bump(c[op.product], op)])
  }

  /** The state after applying updates in order, stopping at the first failing one (whose
      index is recorded); the updates before it stay applied. */
  datatype WriteOutcome = WriteOutcome(catalog: Catalog, failedAt: Option<nat>)

  function Run(c: Catalog, ops: seq<IncOp>): WriteOutcome
    decreases |ops|
  {
    if ops == [] then WriteOutcome(c, None)
    else
      var prev := Run(c, ops[..|ops| - 1]);
      if prev.failedAt.Some? then prev
      else match Step(prev.catalog, ops[|ops| - 1])
        case None => WriteOutcome(prev.catalog, Some(|ops| - 1))
        case Some(next) => WriteOutcome(next, None)
  }

  /** The total quantity the updates move for product p. */
  function QtyFor(ops: seq<IncOp>, p: Id): int
    decreases |ops|
  {
    if ops == [] then 0
    else QtyFor(ops[..|ops| - 1], p) + (if ops[|ops| - 1].product == p then ops[|ops| - 1].qty else 0)
  }

  /** The history entries the updates push for product p, in update order. */
  function EntriesFor(ops: seq<IncOp>, p: Id): seq<SaleEntry>
    decreases |ops|
  {
    if ops == [] then []
    else
      var last := ops[|ops| - 1];
      EntriesFor(ops[..|ops| - 1], p) + (if last.product == p && last.entry.Some? then [last.entry.value] else [])
  }

  predicate Touches(ops: seq<IncOp>, p: Id) {
    exists i :: 0 <= i < |ops| && ops[i].product == p
  }

  /** The updates never add or remove products, never change what a product is, and keep a
      product's counters numeric exactly when they were numeric before. */
  lemma {:induction false} RunShape(c: Catalog, ops: seq<IncOp>)
    ensures Run(c, ops).catalog.Keys == c.Keys
    ensures forall p :: p in c ==> SameListing(c[p], Run(c, ops).catalog[p])
    ensures forall p :: p in c ==> (CountersNumeric(Run(c, ops).catalog[p]) <==> CountersNumeric(c[p]))
    decreases |ops|
  {
    if ops != [] {
      RunShape(c, ops[..|ops| - 1]);
    }
  }

  /** Whether a batch of updates goes through depends only on the state before it: every
      update must be applicable to the original catalog. */
  lemma {:induction false} RunSucceeds(c: Catalog, ops: seq<IncOp>)
    ensures Run(c, ops).failedAt.None? <==> forall i :: 0 <= i < |ops| ==> OpOk(c, ops[i])
    decreases |ops|
  {
    if ops != [] {
      var prefix := ops[..|ops| - 1];
      RunSucceeds(c, prefix);
      RunShape(c, prefix);
      assert forall i :: 0 <= i < |prefix| ==> prefix[i] == ops[i];
    }
  }

  /** A batch that fails stops at the first update that is not applicable, and keeps the
      effect of exactly the updates before it. */
  lemma {:induction false} RunFails(c: Catalog, ops: seq<IncOp>)
    requires Run(c, ops).failedAt.Some?
    ensures Run(c, ops).failedAt.value < |ops|
    ensures !OpOk(c, ops[Run(c, ops).failedAt.value])
    ensures forall i :: 0 <= i < Run(c, ops).failedAt.value ==> OpOk(c, ops[i])
    ensures Run(c, ops).catalog == Run(c, ops[..Run(c, ops).failedAt.value]).catalog
    decreases |ops|
  {
    var prefix := ops[..|ops| - 1];
    var prev := Run(c, prefix);
    assert forall i :: 0 <= i < |prefix| ==> prefix[i] == ops[i];
    if prev.failedAt.Some? {
      RunFails(c, prefix);
      assert prefix[..prev.failedAt.value] == ops[..prev.failedAt.value];
    } else {
      RunSucceeds(c, prefix);
      RunShape(c, prefix);
    }
  }

  /** Once a prefix of a batch has failed, the rest of the batch changes nothing. */
  lemma {:induction false} RunStopsAtFailure(c: Catalog, ops: seq<IncOp>, k: nat)
    requires k <= |ops|
    requires k == |ops| || Run(c, ops[..k]).failedAt.Some?
    ensures Run(c, ops) == Run(c, ops[..k])
    decreases |ops|
  {
    if k < |ops| {
      var prefix := ops[..|ops| - 1];
      assert prefix[..k] == ops[..k];
      RunStopsAtFailure(c, prefix, k);
    } else {
      assert ops[..k] == ops;
    }
  }

  lemma {:induction false} NotTouched(ops: seq<IncOp>, p: Id)
    requires !Touches(ops, p)
    ensures QtyFor(ops, p) == 0 && EntriesFor(ops, p) == []
    decreases |ops|
  {
    if ops != [] {
      var prefix := ops[..|ops| - 1];
      assert forall i :: 0 <= i < |prefix| ==> prefix[i] == ops[i];
      NotTouched(prefix, p);
    }
  }

  /** How a batch moves one product: its stock is down by the total quantity the batch
      moved for it, its sold and salesCount are up by the same total (a missing field
      counting as 0 and being created), its history has the batch's entries for it appended
      in order, and a product no update names is left exactly as it was. */
  predicate CountersMoved(before: Product, after: Product, ops: seq<IncOp>, p: Id) {
    Base(after.quantity) == Base(before.quantity) - QtyFor(ops, p)
    && after.salesHistory == before.salesHistory + EntriesFor(ops, p)
    && (Touches(ops, p) ==>
          after.quantity == Num(Base(before.quantity) - QtyFor(ops, p))
          && after.sold == Num(Base(before.sold) + QtyFor(ops, p))
          && after.salesCount == Num(Base(before.salesCount) + QtyFor(ops, p)))
    && (!Touches(ops, p) ==> after == before)
    && SameListing(before, after)
  }

  /** After a batch that goes through, every product has moved as `CountersMoved` says;
      updates for the same product accumulate. */
  lemma {:induction false} RunTotalsAt(c: Catalog, ops: seq<IncOp>, p: Id)
    requires Run(c, ops).failedAt.None?
    requires p in c
    ensures Run(c, ops).catalog.Keys == c.Keys
    ensures CountersMoved(c[p], Run(c, ops).catalog[p], ops, p)
    decreases |ops|
  {
    RunShape(c, ops);
    if ops != [] {
      var prefix := ops[..|ops| - 1];
      RunTotalsAt(c, prefix, p);
      MovedStep(c[p], Run(c, prefix).catalog[p], Run(c, ops).catalog[p], ops, p);
    }
  }

  /** One more update keeps `CountersMoved`: it bumps the product when it names it and
      leaves it alone otherwise. */
  lemma MovedStep(before: Product, mid: Product, after: Product, ops: seq<IncOp>, p: Id)
    requires ops != [] && CountersMoved(before, mid, ops[..|ops| - 1], p)
    requires after == if ops[|ops| - 1].product == p then Bump(mid, ops[|ops| - 1]) else mid
    ensures CountersMoved(before, after, ops, p)
  {
    var prefix := ops[..|ops| - 1];
    assert forall i :: 0 <= i < |prefix| ==> prefix[i] == ops[i];
    assert Touches(ops, p) <==> Touches(prefix, p) || ops[|ops| - 1].product == p;
    if !Touches(prefix, p) {
      NotTouched(prefix, p);
    }
  }

  /** Running two batches one after the other is running their concatenation. */
  lemma {:induction false} RunAppend(c: Catalog, a: seq<IncOp>, b: seq<IncOp>)
    requires Run(c, a).failedAt.None?
    ensures Run(c, a + b).failedAt.None? <==> Run(Run(c, a).catalog, b).failedAt.None?
    ensures Run(c, a + b).failedAt.None? ==> Run(c, a + b).catalog == Run(Run(c, a).catalog, b).catalog
    decreases |b|
  {
    if b == [] {
      assert a + b == a;
    } else {
      var bp := b[..|b| - 1];
      assert (a + b)[..|a + b| - 1] == a + bp;
      assert (a + b)[|a + b| - 1] == b[|b| - 1];
      RunAppend(c, a, bp);
    }
  }

  lemma {:induction false} QtyForAppend(a: seq<IncOp>, b: seq<IncOp>, p: Id)
    ensures QtyFor(a + b, p) == QtyFor(a, p) + QtyFor(b, p)
    ensures EntriesFor(a + b, p) == EntriesFor(a, p) + EntriesFor(b, p)
    decreases |b|
  {
    if b == [] {
      assert a + b == a;
    } else {
      var bp := b[..|b| - 1];
      assert (a + b)[..|a + b| - 1] == a + bp;
      assert (a + b)[|a + b| - 1] == b[|b| - 1];
      QtyForAppend(a, bp, p);
    }
  }

  /** The ids of the featured products. */
  function FeaturedIds(c: Catalog): set<Id> {
    set id | id in c && c[id].featured
  }

  function FeaturedCount(c: Catalog): nat {
    |FeaturedIds(c)|
  }

  /** Adding a new product raises the featured count by one exactly when it is featured. */
  lemma FeaturedAfterInsert(c: Catalog, id: Id, p: Product)
    requires id !in c
    ensures FeaturedCount(c[id := p]) == FeaturedCount(c) + (if p.featured then 1 else 0)
  {
    if p.featured {
      assert FeaturedIds(c[id := p]) == FeaturedIds(c) + {id};
    } else {
      assert FeaturedIds(c[id := p]) == FeaturedIds(c);
    }
  }

  /** Flipping one product's flag moves the featured count by exactly one, in the direction
      of the flip. */
  lemma FeaturedAfterFlip(c: Catalog, id: Id)
    requires id in c
    ensures FeaturedCount(c[id := c[id].(featured := !c[id].featured)])
            == if c[id].featured then FeaturedCount(c) - 1 else FeaturedCount(c) + 1
  {
    var c' := c[id := c[id].(featured := !c[id].featured)];
    if c[id].featured {
      assert FeaturedIds(c') == FeaturedIds(c) - {id};
    } else {
      assert FeaturedIds(c') == FeaturedIds(c) + {id};
    }
  }
}
