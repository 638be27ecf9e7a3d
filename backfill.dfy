/** The one-off maintenance script (scripts/backfillSalesCount.js): a single `updateMany`
    that copies `sold` into `salesCount` on every product whose `salesCount` was never set
    and whose `sold` is a non-negative number. */
module SalesCountBackfill {
  import opened ObjectIds
  import opened ProductModel
  import opened Store

  /** The update's filter as the query reaches the database: Mongoose casts each value for
      the Number path `salesCount`, so the clauses for "" and "0" become the clauses for null
      and 0. What is left is `salesCount` missing, null or 0, and `sold >= 0`, which only a
      number satisfies. */
  predicate NeedsBackfill(p: Product) {
    (p.salesCount.Absent? || p.salesCount.Null? || p.salesCount == Num(0))
    && p.sold.Num? && p.sold.n >= 0
  }

  /** `$set: {salesCount: "$sold"}` on a matching product. */
  function Backfilled(p: Product): Product {
    if NeedsBackfill(p) then p.(salesCount := p.sold) else p
  }

  function BackfilledCatalog(c: Catalog): Catalog {
    map id | id in c :: Backfilled(c[id])
  }

  /** The products the update really changes, which is what it reports as `modifiedCount`:
      the matching ones whose `salesCount` is not already equal to `sold`. */
  function Changed(c: Catalog): set<Id> {
    set id | id in c && NeedsBackfill(c[id]) && c[id].salesCount != c[id].sold
  }

  /** The state part-way through the update: the products in `todo` are still to be
      visited, the products outside it are done. */
  predicate PartlyBackfilled(before: Catalog, now: Catalog, todo: set<Id>) {
    todo <= before.Keys && now.Keys == before.Keys
    && forall id :: id in before ==> now[id] == if id in todo then before[id] else Backfilled(before[id])
  }

  lemma CountStep(changed: set<Id>, todo: set<Id>, id: Id)
    requires id in todo
    ensures |changed - (todo - {id})| == |changed - todo| + (if id in changed then 1 else 0)
  {
    if id in changed {
      assert changed - (todo - {id}) == (changed - todo) + {id};
    } else {
      assert changed - (todo - {id}) == changed - todo;
    }
  }

  /** Visiting one more product keeps the state part-way through the update. */
  lemma VisitStep(before: Catalog, now: Catalog, todo: set<Id>, id: Id)
    requires PartlyBackfilled(before, now, todo) && id in todo
    ensures now[id] == before[id]
    ensures PartlyBackfilled(before, if NeedsBackfill(now[id]) then now[id := Backfilled(now[id])] else now, todo - {id})
    ensures id in Changed(before) <==> NeedsBackfill(now[id]) && now[id].salesCount != now[id].sold
  {
  }

  lemma AllVisited(before: Catalog, now: Catalog)
    requires PartlyBackfilled(before, now, {})
    ensures now == BackfilledCatalog(before)
  {
  }

  /** The update, product by product: the new collection and the number of products it
      changed. */
  method UpdateMatching(products: Catalog) returns (updated: Catalog, modifiedCount: nat)
    ensures updated == BackfilledCatalog(products)
    ensures modifiedCount == |Changed(products)|
  {
    updated := products;
    ghost var changed := Changed(products);
    var todo := products.Keys;
    modifiedCount := 0;
    while todo != {}
      invariant PartlyBackfilled(products, updated, todo)
      invariant modifiedCount == |changed - todo|
      decreases todo
    {
      var id :| id in todo;
      var product := updated[id];
      VisitStep(products, updated, todo, id);
      CountStep(changed, todo, id);
      if NeedsBackfill(product) {
        if product.salesCount != product.sold {
          modifiedCount := modifiedCount + 1;
        }
        updated := updated[id := Backfilled(product)];
      }
      todo := todo - {id};
    }
    assert changed - {} == changed;
    AllVisited(products, updated);
  }

  /** `Product.updateMany(filter, [{$set: {salesCount: "$sold"}}])`. */
  method Backfill(db: Database) returns (modifiedCount: nat)
    modifies db
    ensures db.products == BackfilledCatalog(old(db.products))
    ensures modifiedCount == |Changed(old(db.products))|
    ensures db.orders == old(db.orders) && db.users == old(db.users)
  {
    var updated;
    updated, modifiedCount := UpdateMatching(db.products);
    db.products := updated;
  }

  /** Exactly the matching products get `salesCount := sold`; the others, and every other
      field, are untouched. */
  lemma BackfillEffect(c: Catalog, id: Id)
    requires id in c
    ensures BackfilledCatalog(c).Keys == c.Keys
    ensures NeedsBackfill(c[id]) ==> BackfilledCatalog(c)[id].salesCount == c[id].sold
    ensures !NeedsBackfill(c[id]) ==> BackfilledCatalog(c)[id] == c[id]
    ensures BackfilledCatalog(c)[id].(salesCount := c[id].salesCount) == c[id]
  {
  }

  /** A product whose count is a non-zero number or a string, or without a non-negative
      numeric `sold`, keeps its `salesCount`: a stored "" or "0" is not matched, because the
      filter's "" and "0" reach the database as null and 0. */
  lemma BackfillSkips(p: Product)
    ensures (p.salesCount.Num? && p.salesCount.n != 0) ==> Backfilled(p) == p
    ensures p.salesCount.Str? ==> Backfilled(p) == p
    ensures !(p.sold.Num? && p.sold.n >= 0) ==> Backfilled(p) == p
  {
  }

  /** Running the script a second time changes nothing and reports no modified product. */
  lemma BackfillIdempotent(c: Catalog)
    ensures BackfilledCatalog(BackfilledCatalog(c)) == BackfilledCatalog(c)
    ensures Changed(BackfilledCatalog(c)) == {}
  {
    var once := BackfilledCatalog(c);
    forall id | id in once ensures Backfilled(once[id]) == once[id] {
      var p := c[id];
      if NeedsBackfill(p) {
        assert once[id] == p.(salesCount := p.sold);
      }
    }
  }
}
