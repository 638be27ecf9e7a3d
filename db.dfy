/** The store the handlers read and write: products, orders and users, each a collection by
    id. A user record carries the two lists the handlers maintain, its order ids and its
    cart. */
module Store {
  import opened Wrappers
  import opened ObjectIds
  import opened ProductModel
  import opened OrderModel

  datatype Role = Customer | Admin

  /** One cart line: a product reference and a quantity. */
  datatype CartItem = CartItem(productId: Id, quantity: int)

  datatype User = User(role: Role, orders: seq<Id>, cart: seq<CartItem>)

  /** `User.updateOne({_id: uid}, {$push: {orders: oid}})`: the id goes to the end of the
      owner's list; a filter that matches no user changes nothing. */
  function AppendOrder(users: map<Id, User>, uid: Id, oid: Id): (r: map<Id, User>)
    ensures r.Keys == users.Keys
    ensures uid in users ==> r[uid] == users[uid].(orders := users[uid].orders + [oid])
    ensures forall u :: u in users && u != uid ==> r[u] == users[u]
  {
    if uid in users then users[uid := users[uid].(orders := users[uid].orders + [oid])] else users
  }

  class Database {
    var products: Catalog
    var orders: map<Id, Order>
    var users: map<Id, User>

    constructor (products: Catalog, orders: map<Id, Order>, users: map<Id, User>)
      ensures this.products == products && this.orders == orders && this.users == users
    {
      this.products := products;
      this.orders := orders;
      this.users := users;
    }

    /** `Product.bulkWrite` of counter updates: applied one at a time in order; the first
        failing update stops the batch and the updates before it stay applied. */
    method BulkWrite(ops: seq<IncOp>) returns (failedAt: Option<nat>)
      modifies this
      ensures WriteOutcome(products, failedAt) == Run(old(products), ops)
      ensures orders == old(orders) && users == old(users)
    {
      failedAt := None;
      var i := 0;
      while i < |ops| && failedAt.None?
        invariant 0 <= i <= |ops|
        invariant Run(old(products), ops[..i]) == WriteOutcome(products, failedAt)
        invariant orders == old(orders) && users == old(users)
      {
        assert ops[..i + 1][..i] == ops[..i];
        match Step(products, ops[i]) {
          case None =>
            failedAt := Some(i);
          case Some(next) =>
            products := next;
        }
        i := i + 1;
      }
      RunStopsAtFailure(old(products), ops, i);
    }
  }
}
