/** The cart handlers (controllers/cartController.js): `getCart` drops lines whose product is
    gone, `addToCart` validates and clamps the lines it is sent and checks them against the
    catalog, and `mergeCarts` folds a guest cart into the stored one. */
module CartController {
  import opened Wrappers
  import opened ObjectIds
  import opened ProductModel
  import opened Store
  import opened Collections

  /** No cart line holds more than this many units after validation or merging. */
  const MaxLineQuantity: int := 10

  /** `req.user` as the authentication middleware leaves it. */
  datatype Requester = Requester(id: Id, role: Role)

  /** A cart entry sent by the client. `productId` is `None` when it is missing or null;
      `quantity` is `None` when it is not a number. */
  datatype RawItem = RawItem(productId: Option<string>, quantity: Option<int>)

  datatype StockIssue = StockIssue(productId: Id, available: int, requested: int)

  datatype CartError =
    | Unauthenticated                          // 401 "Invalid user authentication"
    | AdminHasNoCart                           // 403
    | NotAnArray                               // 400 the cart (or guest cart) is not an array
    | Unavailable(invalidProducts: seq<Id>)    // 400 "Some products are unavailable"
    | NotEnoughStock(issues: seq<StockIssue>)  // 400
    | MergedUnavailable                        // 400 "Some products in the merged cart are unavailable"
    | UserNotFound                             // 404
    | ServerError                              // 500: a cast error or a failed write
  {
    function Code(): int {
      match this
      case Unauthenticated => 401
      case AdminHasNoCart => 403
      case UserNotFound => 404
      case ServerError => 500
      case _ => 400
    }
  }

  function Min(a: int, b: int): int {
    if a <= b then a else b
  }

  /** The product ids of cart lines, in order. */
  function Ids(items: seq<CartItem>): (ids: seq<Id>)
    ensures |ids| == |items|
    ensures forall i :: 0 <= i < |items| ==> ids[i] == items[i].productId
    decreases |items|
  {
    if items == [] then [] else Ids(items[..|items| - 1]) + [items[|items| - 1].productId]
  }

  // ---------------------------------------------------------------- validating a sent cart

  /** An entry survives validation when it has a valid product id and a quantity of at
      least one. */
  predicate Keep(x: RawItem) {
    x.productId.Some? && ValidId(x.productId.value) && x.quantity.Some? && x.quantity.value >= 1
  }

  function KeptLine(x: RawItem): seq<CartItem> {
    if Keep(x) then [CartItem(x.productId.value, Min(x.quantity.value, MaxLineQuantity))] else []
  }

  /** The surviving entries, in order, each quantity capped at 10. `addToCart` builds this
      with a loop and `mergeCarts` with `filter` and `map`. */
  function KeptItems(raw: seq<RawItem>): (kept: seq<CartItem>)
    ensures |kept| <= |raw|
    ensures forall i :: 0 <= i < |kept| ==> ValidId(kept[i].productId) && 1 <= kept[i].quantity <= MaxLineQuantity
    decreases |raw|
  {
    if raw == [] then [] else KeptItems(raw[..|raw| - 1]) + KeptLine(raw[|raw| - 1])
  }

  /** Validation works entry by entry: the survivors of a concatenation are the survivors of
      each part, in order. */
  lemma {:induction false} KeptAppend(a: seq<RawItem>, b: seq<RawItem>)
    ensures KeptItems(a + b) == KeptItems(a) + KeptItems(b)
    decreases |b|
  {
    if b == [] {
      assert a + b == a;
    } else {
      var init := b[..|b| - 1];
      var x := b[|b| - 1];
      KeptAppend(a, init);
      Collections.SplitLast(a, b);
      Collections.AppendAssoc(KeptItems(a), KeptItems(init), KeptLine(x));
    }
  }

  /** One entry: kept with its quantity capped exactly when it has a valid id and a
      quantity of at least one. */
  lemma KeptSingle(x: RawItem)
    ensures KeptItems([x]) == if Keep(x) then [CartItem(x.productId.value, Min(x.quantity.value, MaxLineQuantity))] else []
  {
    assert [x][..0] == [];
  }

  function AsRaw(items: seq<CartItem>): (raw: seq<RawItem>)
    ensures |raw| == |items|
    ensures forall i :: 0 <= i < |items| ==> raw[i] == RawItem(Some(items[i].productId), Some(items[i].quantity))
  {
    seq(|items|, i requires 0 <= i < |items| => RawItem(Some(items[i].productId), Some(items[i].quantity)))
  }

  lemma {:induction false} AsRawAppend(a: seq<CartItem>, b: seq<CartItem>)
    ensures AsRaw(a + b) == AsRaw(a) + AsRaw(b)
  {
    assert |AsRaw(a + b)| == |AsRaw(a) + AsRaw(b)|;
    forall i | 0 <= i < |a + b| ensures AsRaw(a + b)[i] == (AsRaw(a) + AsRaw(b))[i] {
      if i < |a| {
        assert (a + b)[i] == a[i];
      } else {
        assert (a + b)[i] == b[i - |a|];
      }
    }
  }

  /** Lines that already have a valid id and a quantity from 1 to 10 all survive validation
      unchanged. */
  lemma {:induction false} KeptOfValid(items: seq<CartItem>)
    requires forall i :: 0 <= i < |items| ==> ValidId(items[i].productId) && 1 <= items[i].quantity <= MaxLineQuantity
    ensures KeptItems(AsRaw(items)) == items
    decreases |items|
  {
    if items != [] {
      var init := items[..|items| - 1];
      var last := items[|items| - 1];
      assert items == init + [last];
      AsRawAppend(init, [last]);
      KeptOfValid(init);
      var raw := AsRaw(items);
      assert raw[..|raw| - 1] == AsRaw(init);
      assert raw[|raw| - 1] == RawItem(Some(last.productId), Some(last.quantity));
    }
  }

  /** Sending back a validated cart validates to the same cart. */
  lemma KeptIsStable(raw: seq<RawItem>)
    ensures KeptItems(AsRaw(KeptItems(raw))) == KeptItems(raw)
  {
    KeptOfValid(KeptItems(raw));
  }

  /** The first loop of `addToCart`: the validated lines and their ids. */
  method ValidateCart(cart: seq<RawItem>) returns (validated: seq<CartItem>, productIds: seq<Id>)
    ensures validated == KeptItems(cart)
    ensures productIds == Ids(validated)
  {
    validated := [];
    productIds := [];
    for i := 0 to |cart|
      invariant validated == KeptItems(cart[..i])
      invariant productIds == Ids(validated)
    {
      assert cart[..i + 1][..i] == cart[..i];
      var item := cart[i];
      if item.productId.Some? && ValidId(item.productId.value) {
        if item.quantity.Some? && item.quantity.value >= 1 {
          var line := CartItem(item.productId.value, Min(item.quantity.value, MaxLineQuantity));
          assert (validated + [line])[..|validated|] == validated;
          productIds := productIds + [line.productId];
          validated := validated + [line];
        }
      }
    }
    assert cart[..|cart|] == cart;
  }

  // ---------------------------------------------------------------- availability and stock

  /** The products `find({_id: {$in: ids}, status: "active"})` returns, each once. */
  function ActiveMatches(c: Catalog, ids: seq<Id>): set<Id> {
    set id | id in c && c[id].status && id in ids
  }

  predicate Available(c: Catalog, ids: seq<Id>) {
    |ActiveMatches(c, ids)| == |ids|
  }

  /** Every id names a product whose `status` is true. */
  predicate AllListed(c: Catalog, ids: seq<Id>) {
    forall i :: 0 <= i < |ids| ==> ids[i] in c && c[ids[i]].status
  }

  /** Whether all ids are listed depends only on which ids occur. */
  lemma AllListedElems(c: Catalog, a: seq<Id>, b: seq<Id>)
    requires forall x :: x in a <==> x in b
    ensures AllListed(c, a) <==> AllListed(c, b)
  {
    if AllListed(c, a) {
      forall i | 0 <= i < |b| ensures b[i] in c && c[b[i]].status {
        assert b[i] in a;
      }
    }
    if AllListed(c, b) {
      forall i | 0 <= i < |a| ensures a[i] in c && c[a[i]].status {
        assert a[i] in b;
      }
    }
  }

  /** The count comparison passes exactly when every id names a listed product and no id
      repeats: a cart naming one product twice is reported unavailable. */
  lemma AvailableIff(c: Catalog, ids: seq<Id>)
    ensures Available(c, ids) <==> Distinct(ids) && AllListed(c, ids)
  {
    assert ActiveMatches(c, ids) <= Elems(ids);
    ElemsCard(ids);
    SubsetCard(ActiveMatches(c, ids), Elems(ids));
    if Available(c, ids) {
      forall i | 0 <= i < |ids| ensures ids[i] in c && c[ids[i]].status {
        assert ids[i] in Elems(ids);
      }
    }
    if AllListed(c, ids) {
      assert ActiveMatches(c, ids) == Elems(ids);
    }
  }

  /** The `invalidProducts` of the error: the ids, in order, that matched no listed product. */
  function Unmatched(c: Catalog, ids: seq<Id>): (r: seq<Id>)
    ensures forall x :: x in r <==> x in ids && x !in ActiveMatches(c, ids)
    decreases |ids|
  {
    if ids == [] then []
    else
      var init := ids[..|ids| - 1];
      var last := ids[|ids| - 1];
      assert ids == init + [last];
      assert forall x :: x in init ==> x in ids;
      assert forall x :: x in ActiveMatches(c, init) <==> x in ActiveMatches(c, ids) && x in init;
      Unmatched(c, init) + (if last in ActiveMatches(c, ids) then [] else [last])
  }

  /** A repeated id of a listed product fails the availability check, yet the error lists
      no invalid product. */
  lemma DuplicateIsUnavailable(c: Catalog, pid: Id)
    requires pid in c && c[pid].status
    ensures !Available(c, [pid, pid])
    ensures Unmatched(c, [pid, pid]) == []
  {
    var one, two := [pid], [pid, pid];
    AvailableIff(c, two);
    assert two[0] == two[1];
    assert one[..0] == [] && pid in ActiveMatches(c, one);
    assert Unmatched(c, one) == [];
    assert two[..1] == one && pid in ActiveMatches(c, two);
  }

  /** The lines whose product carries a `stock` below the requested quantity. A product
      without a `stock` field never raises one, since `undefined < n` is false. */
  function StockIssues(c: Catalog, items: seq<CartItem>): seq<StockIssue>
    requires forall i :: 0 <= i < |items| ==> items[i].productId in c
    decreases |items|
  {
    if items == [] then []
    else
      var last := items[|items| - 1];
      var stock := c[last.productId].stock;
      StockIssues(c, items[..|items| - 1])
        + (if stock.Some? && stock.value < last.quantity then [StockIssue(last.productId, stock.value, last.quantity)] else [])
  }

  predicate StockShort(c: Catalog, item: CartItem)
    requires item.productId in c
  {
    c[item.productId].stock.Some? && c[item.productId].stock.value < item.quantity
  }

  /** There are no stock issues exactly when no line asks for more than its product's
      `stock`. Every product the schema creates has no `stock`, so for them there are never
      any. */
  lemma {:induction false} StockIssuesIff(c: Catalog, items: seq<CartItem>)
    requires forall i :: 0 <= i < |items| ==> items[i].productId in c
    ensures StockIssues(c, items) == [] <==> forall i :: 0 <= i < |items| ==> !StockShort(c, items[i])
    ensures (forall id :: id in c ==> c[id].stock.None?) ==> StockIssues(c, items) == []
    decreases |items|
  {
    if items != [] {
      var init := items[..|items| - 1];
      StockIssuesIff(c, init);
      assert forall i :: 0 <= i < |init| ==> init[i] == items[i];
    }
  }

  /** The second loop of `addToCart`. */
  method CheckStock(c: Catalog, validated: seq<CartItem>) returns (issues: seq<StockIssue>)
    requires forall i :: 0 <= i < |validated| ==> validated[i].productId in c
    ensures issues == StockIssues(c, validated)
  {
    issues := [];
    for i := 0 to |validated|
      invariant issues == StockIssues(c, validated[..i])
    {
      assert validated[..i + 1][..i] == validated[..i];
      var item := validated[i];
      var product := c[item.productId];
      if product.stock.Some? && product.stock.value < item.quantity {
        issues := issues + [StockIssue(item.productId, product.stock.value, item.quantity)];
      }
    }
    assert validated[..|validated|] == validated;
  }

  // ---------------------------------------------------------------- addToCart

  function AddToCartOutcome(c: Catalog, users: map<Id, User>, who: Option<Requester>, cart: Option<seq<RawItem>>)
    : Result<seq<CartItem>, CartError>
  {
    if who.None? || !ValidId(who.value.id) then Failure(Unauthenticated)
    else if who.value.role == Admin then Failure(AdminHasNoCart)
    else if cart.None? then Failure(NotAnArray)
    else
      var kept := KeptItems(cart.value);
      var ids := Ids(kept);
      if !Available(c, ids) then Failure(Unavailable(Unmatched(c, ids)))
      else
        AvailableIff(c, ids);
        var issues := StockIssues(c, kept);
        if issues != [] then Failure(NotEnoughStock(issues))
        else if who.value.id !in users then Failure(ServerError)
        else Success(kept)
  }

  /** `addToCart`: on success the stored cart is replaced by the validated lines; on any
      failure nothing changes. */
  method AddToCart(db: Database, who: Option<Requester>, cart: Option<seq<RawItem>>)
    returns (r: Result<seq<CartItem>, CartError>)
    modifies db
    ensures r == AddToCartOutcome(old(db.products), old(db.users), who, cart)
    ensures r.Success? ==> db.users == old(db.users)[who.value.id := old(db.users)[who.value.id].(cart := r.value)]
    ensures r.Failure? ==> db.users == old(db.users)
    ensures db.products == old(db.products) && db.orders == old(db.orders)
  {
    if who.None? || !ValidId(who.value.id) {
      return Failure(Unauthenticated);
    }
    if who.value.role == Admin {
      return Failure(AdminHasNoCart);
    }
    if cart.None? {
      return Failure(NotAnArray);
    }
    var validated, productIds := ValidateCart(cart.value);
    if |ActiveMatches(db.products, productIds)| != |productIds| {
      return Failure(Unavailable(Unmatched(db.products, productIds)));
    }
    AvailableIff(db.products, productIds);
    var issues := CheckStock(db.products, validated);
    if issues != [] {
      return Failure(NotEnoughStock(issues));
    }
    var uid := who.value.id;
    if uid !in db.users {
      return Failure(ServerError);
    }
    db.users := db.users[uid := db.users[uid].(cart := validated)];
    r := Success(validated);
  }

  /** A cart `addToCart` stores holds exactly the valid entries it was sent, in order and
      capped at 10, for distinct listed products; an admin is always refused. */
  lemma AddToCartStores(c: Catalog, users: map<Id, User>, who: Option<Requester>, cart: Option<seq<RawItem>>)
    ensures AddToCartOutcome(c, users, who, cart).Success? ==>
              var stored := AddToCartOutcome(c, users, who, cart).value;
              cart.Some? && stored == KeptItems(cart.value) && Distinct(Ids(stored))
              && (forall i :: 0 <= i < |stored| ==>
                    (stored[i].productId in c && c[stored[i].productId].status
                     && 1 <= stored[i].quantity <= MaxLineQuantity && !StockShort(c, stored[i])))
    ensures who.Some? && ValidId(who.value.id) && who.value.role == Admin ==>
              AddToCartOutcome(c, users, who, cart) == Failure(AdminHasNoCart)
  {
    if AddToCartOutcome(c, users, who, cart).Success? {
      var kept := KeptItems(cart.value);
      AvailableIff(c, Ids(kept));
      StockIssuesIff(c, kept);
    }
  }

  // ---------------------------------------------------------------- getCart

  /** The lines whose product still exists, in order. */
  function Resolved(c: Catalog, cart: seq<CartItem>): seq<CartItem>
    decreases |cart|
  {
    if cart == [] then []
    else
      var last := cart[|cart| - 1];
      Resolved(c, cart[..|cart| - 1]) + (if last.productId in c then [last] else [])
  }

  lemma {:induction false} ResolvedAppend(c: Catalog, a: seq<CartItem>, b: seq<CartItem>)
    ensures Resolved(c, a + b) == Resolved(c, a) + Resolved(c, b)
    decreases |b|
  {
    if b == [] {
      assert a + b == a;
    } else {
      ResolvedAppend(c, a, b[..|b| - 1]);
      assert (a + b)[..|a + b| - 1] == a + b[..|b| - 1];
    }
  }

  /** The filter keeps exactly the lines whose product exists, drops nothing when all do, and
      shortens the cart whenever one does not, so the cart is written back exactly when a
      line was dropped. */
  lemma {:induction false} ResolvedProperties(c: Catalog, cart: seq<CartItem>)
    ensures forall x :: x in Resolved(c, cart) <==> x in cart && x.productId in c
    ensures |Resolved(c, cart)| <= |cart|
    ensures |Resolved(c, cart)| == |cart| <==> forall i :: 0 <= i < |cart| ==> cart[i].productId in c
    ensures |Resolved(c, cart)| == |cart| ==> Resolved(c, cart) == cart
    decreases |cart|
  {
    if cart != [] {
      var init := cart[..|cart| - 1];
      var last := cart[|cart| - 1];
      ResolvedProperties(c, init);
      assert cart == init + [last];
      assert forall i :: 0 <= i < |init| ==> init[i] == cart[i];
      if |Resolved(c, cart)| == |cart| {
        assert |Resolved(c, init)| == |init|;
      }
    }
  }

  /** Filtering twice is filtering once. */
  lemma {:induction false} ResolvedIdempotent(c: Catalog, cart: seq<CartItem>)
    ensures Resolved(c, Resolved(c, cart)) == Resolved(c, cart)
  {
    var r := Resolved(c, cart);
    ResolvedProperties(c, cart);
    ResolvedProperties(c, r);
    assert forall i :: 0 <= i < |r| ==> r[i] in r;
  }

  function GetCartOutcome(c: Catalog, users: map<Id, User>, who: Option<Requester>): Result<seq<CartItem>, CartError> {
    if who.None? || !ValidId(who.value.id) then Failure(Unauthenticated)
    else if who.value.role == Admin then Failure(AdminHasNoCart)
    else if who.value.id !in users then Failure(UserNotFound)
    else Success(Resolved(c, users[who.value.id].cart))
  }

  /** `getCart`: the lines whose product resolves; the stored cart is rewritten only when a
      line was dropped. */
  method GetCart(db: Database, who: Option<Requester>) returns (r: Result<seq<CartItem>, CartError>)
    modifies db
    ensures r == GetCartOutcome(old(db.products), old(db.users), who)
    ensures db.users == if r.Success? && |r.value| != |old(db.users)[who.value.id].cart|
                        then old(db.users)[who.value.id := old(db.users)[who.value.id].(cart := r.value)]
                        else old(db.users)
    ensures db.products == old(db.products) && db.orders == old(db.orders)
  {
    if who.None? || !ValidId(who.value.id) {
      return Failure(Unauthenticated);
    }
    if who.value.role == Admin {
      return Failure(AdminHasNoCart);
    }
    var uid := who.value.id;
    if uid !in db.users {
      return Failure(UserNotFound);
    }
    var user := db.users[uid];
    var validCart := Resolved(db.products, user.cart);
    if |validCart| != |user.cart| {
      db.users := db.users[uid := user.(cart := validCart)];
    }
    r := Success(validCart);
  }

  // ---------------------------------------------------------------- mergeCarts

  /** A JavaScript `Map` from product id to quantity: its keys in insertion order and its
      entries. */
  datatype OrderedMap = OrderedMap(keys: seq<Id>, values: map<Id, int>)

  const EmptyMap := OrderedMap([], map[])

  predicate ValidMap(m: OrderedMap) {
    Distinct(m.keys) && Elems(m.keys) == m.values.Keys
  }

  /** `Map.set`: a new key goes to the end; an existing key keeps its place. */
  function Put(m: OrderedMap, k: Id, v: int): OrderedMap {
    if k in m.values then m.(values := m.values[k := v]) else OrderedMap(m.keys + [k], m.values[k := v])
  }

  lemma PutProperties(m: OrderedMap, k: Id, v: int)
    requires ValidMap(m)
    ensures ValidMap(Put(m, k, v))
    ensures Put(m, k, v).keys == m.keys + (if k in m.keys then [] else [k])
  {
    assert k in m.values <==> k in Elems(m.keys);
    if k !in m.values {
      var ks := m.keys + [k];
      assert Elems(ks) == Elems(m.keys) + {k};
      forall i, j | 0 <= i < j < |ks| ensures ks[i] != ks[j] {
        if j == |m.keys| {
          assert ks[i] == m.keys[i] && m.keys[i] in Elems(m.keys);
        } else {
          assert ks[i] == m.keys[i] && ks[j] == m.keys[j];
        }
      }
    }
  }

  /** The value `mergeCarts` stores for a line: the stored cart's lines overwrite
      (`accumulate` false); a guest line adds to an existing entry, capped at 10. */
  function NewValue(m: OrderedMap, item: CartItem, accumulate: bool): int {
    if accumulate && item.productId in m.values then Min(m.values[item.productId] + item.quantity, MaxLineQuantity)
    else item.quantity
  }

  /** Setting every line in turn. */
  function Absorb(m: OrderedMap, items: seq<CartItem>, accumulate: bool): OrderedMap
    decreases |items|
  {
    if items == [] then m
    else
      var prev := Absorb(m, items[..|items| - 1], accumulate);
      var last := items[|items| - 1];
      Put(prev, last.productId, NewValue(prev, last, accumulate))
  }

  /** The keys after absorbing lines are the earlier keys followed by the new ids in order of
      first appearance. */
  lemma {:induction false} AbsorbKeys(m: OrderedMap, items: seq<CartItem>, accumulate: bool)
    requires ValidMap(m)
    ensures ValidMap(Absorb(m, items, accumulate))
    ensures Absorb(m, items, accumulate).keys == Dedup(m.keys + Ids(items))
    decreases |items|
  {
    if items == [] {
      DedupOfDistinct(m.keys);
      assert m.keys + Ids(items) == m.keys;
    } else {
      var init := items[..|items| - 1];
      var last := items[|items| - 1];
      var prev := Absorb(m, init, accumulate);
      AbsorbKeys(m, init, accumulate);
      PutProperties(prev, last.productId, NewValue(prev, last, accumulate));
      var s := m.keys + Ids(items);
      assert Ids(items) == Ids(init) + [last.productId];
      assert s[..|s| - 1] == m.keys + Ids(init);
      DedupElems(m.keys + Ids(init));
    }
  }

  lemma {:induction false} AbsorbAppend(m: OrderedMap, a: seq<CartItem>, b: seq<CartItem>, accumulate: bool)
    ensures Absorb(m, a + b, accumulate) == Absorb(Absorb(m, a, accumulate), b, accumulate)
    decreases |b|
  {
    if b == [] {
      assert a + b == a;
    } else {
      AbsorbAppend(m, a, b[..|b| - 1], accumulate);
      assert (a + b)[..|a + b| - 1] == a + b[..|b| - 1];
    }
  }

  /** Lines for other products leave an entry as it was. */
  lemma {:induction false} AbsorbOthers(m: OrderedMap, items: seq<CartItem>, accumulate: bool, k: Id)
    requires k !in Ids(items)
    ensures k in Absorb(m, items, accumulate).values <==> k in m.values
    ensures k in m.values ==> Absorb(m, items, accumulate).values[k] == m.values[k]
    decreases |items|
  {
    if items != [] {
      var init := items[..|items| - 1];
      assert Ids(items) == Ids(init) + [items[|items| - 1].productId];
      AbsorbOthers(m, init, accumulate, k);
    }
  }

  /** The quantity of the last line for `k`, if any. */
  function LastQuantity(items: seq<CartItem>, k: Id): Option<int>
    decreases |items|
  {
    if items == [] then None
    else if items[|items| - 1].productId == k then Some(items[|items| - 1].quantity)
    else LastQuantity(items[..|items| - 1], k)
  }

  /** Loading the stored cart: the last line for a product decides its quantity, unclamped. */
  lemma {:induction false} LoadedQuantity(items: seq<CartItem>, k: Id)
    ensures k in Absorb(EmptyMap, items, false).values <==> k in Ids(items)
    ensures LastQuantity(items, k).Some? <==> k in Ids(items)
    ensures k in Ids(items) ==> Absorb(EmptyMap, items, false).values[k] == LastQuantity(items, k).value
    decreases |items|
  {
    if items != [] {
      var init := items[..|items| - 1];
      assert Ids(items) == Ids(init) + [items[|items| - 1].productId];
      LoadedQuantity(init, k);
    }
  }

  /** The merge of a stored cart with the validated guest lines, as the entries of the map. */
  function MergedMap(user: seq<CartItem>, guest: seq<CartItem>): OrderedMap {
    Absorb(Absorb(EmptyMap, user, false), guest, true)
  }

  function Entries(m: OrderedMap): (items: seq<CartItem>)
    requires ValidMap(m)
    ensures Ids(items) == m.keys
    ensures forall i :: 0 <= i < |items| ==> items[i].quantity == m.values[m.keys[i]]
  {
    assert forall i :: 0 <= i < |m.keys| ==> m.keys[i] in Elems(m.keys);
    var items := seq(|m.keys|, i requires 0 <= i < |m.keys| => CartItem(m.keys[i], m.values[m.keys[i]]));
    assert Ids(items) == m.keys;
    items
  }

  function Merged(user: seq<CartItem>, guest: seq<CartItem>): seq<CartItem> {
    AbsorbKeys(EmptyMap, user, false);
    AbsorbKeys(Absorb(EmptyMap, user, false), guest, true);
    Entries(MergedMap(user, guest))
  }

  /** The merged cart lists every product once: the stored cart's products in order of first
      occurrence, then the guest's new products in order of first appearance. */
  lemma MergedOrder(user: seq<CartItem>, guest: seq<CartItem>)
    ensures Ids(Merged(user, guest)) == Dedup(Ids(user) + Ids(guest))
    ensures Distinct(Ids(Merged(user, guest)))
  {
    AbsorbKeys(EmptyMap, user, false);
    AbsorbKeys(Absorb(EmptyMap, user, false), guest, true);
    assert EmptyMap.keys + Ids(user) == Ids(user);
    DedupCompose(Ids(user), Ids(guest));
    DedupElems(Ids(user) + Ids(guest));
  }

  /** The quantities of the merged cart: a product only in the stored cart keeps its last
      quantity, unclamped; a product on one guest line takes that line's (already capped)
      quantity, or adds it to the stored quantity, capped at 10. */
  lemma MergedQuantities(user: seq<CartItem>, g1: seq<CartItem>, g2: seq<CartItem>, k: Id, q: int)
    requires k !in Ids(g1) && k !in Ids(g2)
    ensures var merged := MergedMap(user, g1 + g2);
            k in Ids(user) ==> LastQuantity(user, k).Some? && k in merged.values
                               && merged.values[k] == LastQuantity(user, k).value
    ensures var merged := MergedMap(user, g1 + [CartItem(k, q)] + g2);
            k in merged.values
            && merged.values[k] == if LastQuantity(user, k).Some? then Min(LastQuantity(user, k).value + q, MaxLineQuantity) else q
  {
    var loaded := Absorb(EmptyMap, user, false);
    LoadedQuantity(user, k);
    assert Ids(g1 + g2) == Ids(g1) + Ids(g2) by { AppendIds(g1, g2); }
    AbsorbOthers(loaded, g1 + g2, true, k);
    AbsorbAppend(loaded, g1 + [CartItem(k, q)], g2, true);
    AbsorbAppend(loaded, g1, [CartItem(k, q)], true);
    AbsorbOthers(loaded, g1, true, k);
    var before := Absorb(loaded, g1, true);
    assert [CartItem(k, q)][..0] == [];
    var after := Absorb(before, [CartItem(k, q)], true);
    AbsorbOthers(after, g2, true, k);
  }

  lemma {:induction false} AppendIds(a: seq<CartItem>, b: seq<CartItem>)
    ensures Ids(a + b) == Ids(a) + Ids(b)
  {
    assert |Ids(a + b)| == |Ids(a) + Ids(b)|;
    forall i | 0 <= i < |a + b| ensures Ids(a + b)[i] == (Ids(a) + Ids(b))[i] {
      if i < |a| {
        assert (a + b)[i] == a[i];
      } else {
        assert (a + b)[i] == b[i - |a|];
      }
    }
  }

  /** The two `forEach` loops of `mergeCarts` over a JavaScript `Map`, and `Array.from` of its
      values. */
  method MergeCartMap(userCart: seq<CartItem>, guestItems: seq<CartItem>) returns (merged: seq<CartItem>)
    ensures merged == Merged(userCart, guestItems)
  {
    var keys: seq<Id> := [];
    var values: map<Id, int> := map[];
    for i := 0 to |userCart|
      invariant OrderedMap(keys, values) == Absorb(EmptyMap, userCart[..i], false)
    {
      assert userCart[..i + 1][..i] == userCart[..i];
      var item := userCart[i];
      if item.productId !in values {
        keys := keys + [item.productId];
      }
      values := values[item.productId := item.quantity];
    }
    assert userCart[..|userCart|] == userCart;
    ghost var loaded := OrderedMap(keys, values);
    for j := 0 to |guestItems|
      invariant OrderedMap(keys, values) == Absorb(loaded, guestItems[..j], true)
    {
      assert guestItems[..j + 1][..j] == guestItems[..j];
      var guestItem := guestItems[j];
      var key := guestItem.productId;
      if key in values {
        values := values[key := Min(values[key] + guestItem.quantity, MaxLineQuantity)];
      } else {
        keys := keys + [key];
        values := values[key := guestItem.quantity];
      }
    }
    assert guestItems[..|guestItems|] == guestItems;
    AbsorbKeys(EmptyMap, userCart, false);
    AbsorbKeys(loaded, guestItems, true);
    merged := seq(|keys|, i requires 0 <= i < |keys| && keys[i] in values => CartItem(keys[i], values[keys[i]]));
  }

  function MergeOutcome(c: Catalog, users: map<Id, User>, userId: Id, guestCart: Option<seq<RawItem>>)
    : Result<seq<CartItem>, CartError>
  {
    if guestCart.None? then Failure(NotAnArray)
    else if !ValidId(userId) then Failure(ServerError)
    else if userId !in users then Failure(UserNotFound)
    else
      var merged := Merged(users[userId].cart, KeptItems(guestCart.value));
      if !Available(c, Ids(merged)) then Failure(MergedUnavailable)
      else Success(merged)
  }

  /** `mergeCarts`: on success the stored cart becomes the merged one; on any failure nothing
      changes. The role of the requester is not checked. */
  method MergeCarts(db: Database, userId: Id, guestCart: Option<seq<RawItem>>) returns (r: Result<seq<CartItem>, CartError>)
    modifies db
    ensures r == MergeOutcome(old(db.products), old(db.users), userId, guestCart)
    ensures r.Success? ==> db.users == old(db.users)[userId := old(db.users)[userId].(cart := r.value)]
    ensures r.Failure? ==> db.users == old(db.users)
    ensures db.products == old(db.products) && db.orders == old(db.orders)
  {
    if guestCart.None? {
      return Failure(NotAnArray);
    }
    if !ValidId(userId) {
      return Failure(ServerError);
    }
    if userId !in db.users {
      return Failure(UserNotFound);
    }
    var user := db.users[userId];
    var validGuestItems := KeptItems(guestCart.value);
    var mergedCart := MergeCartMap(user.cart, validGuestItems);
    var productIds := Ids(mergedCart);
    if |ActiveMatches(db.products, productIds)| != |productIds| {
      return Failure(MergedUnavailable);
    }
    db.users := db.users[userId := user.(cart := mergedCart)];
    r := Success(mergedCart);
  }

  /** A merge succeeds exactly when every product of both carts (the guest's valid lines)
      is listed; the stored cart then has each product once. */
  lemma MergeStores(c: Catalog, users: map<Id, User>, userId: Id, guest: seq<RawItem>)
    requires ValidId(userId) && userId in users
    ensures MergeOutcome(c, users, userId, Some(guest)).Success? <==>
              AllListed(c, Ids(users[userId].cart) + Ids(KeptItems(guest)))
    ensures MergeOutcome(c, users, userId, Some(guest)).Success? ==>
              Distinct(Ids(MergeOutcome(c, users, userId, Some(guest)).value))
  {
    var user := users[userId].cart;
    var guestItems := KeptItems(guest);
    var merged := Merged(user, guestItems);
    var all := Ids(user) + Ids(guestItems);
    assert MergeOutcome(c, users, userId, Some(guest)) ==
           if Available(c, Ids(merged)) then Success(merged) else Failure(MergedUnavailable);
    MergedOrder(user, guestItems);
    AvailableIff(c, Ids(merged));
    DedupElems(all);
    AllListedElems(c, Ids(merged), all);
  }
}
