/** The order record (models/Order.js): the status enumeration and its transition table, the
    payment enumerations and defaults, line items, the shipping address with its e-mail and
    phone validators, the document-level validity the schema enforces on save, the
    `orderNumber` virtual, the `active` query helper, the `toJSON` transform and the
    `pre('init')` hook. */
module OrderModel {
  import opened Wrappers
  import opened JsText
  import opened ObjectIds

  // ---------------------------------------------------------------- status machine

  datatype Status = Pending | Processing | Shipped | Delivered | Cancelled | Completed

  function StatusName(s: Status): string {
    match s
    case Pending => "pending"
    case Processing => "processing"
    case Shipped => "shipped"
    case Delivered => "delivered"
    case Cancelled => "cancelled"
    case Completed => "completed"
  }

  /** The values the `status` path accepts, in schema order. */
  const StatusEnum: seq<string> := ["pending", "processing", "shipped", "delivered", "cancelled", "completed"]

  function ParseStatus(name: string): Option<Status> {
    if name == "pending" then Some(Pending)
    else if name == "processing" then Some(Processing)
    else if name == "shipped" then Some(Shipped)
    else if name == "delivered" then Some(Delivered)
    else if name == "cancelled" then Some(Cancelled)
    else if name == "completed" then Some(Completed)
    else None
  }

  /** Names and statuses are in one-to-one correspondence, and the names are exactly the
      schema's enumeration. */
  lemma StatusNames(name: string, s: Status)
    ensures ParseStatus(name) == Some(s) <==> StatusName(s) == name
    ensures ParseStatus(name).Some? <==> name in StatusEnum
  {
  }

  /** The transition table as the model file declares it: status name to the names of the
      statuses it may move to. */
  function Transitions(): map<string, seq<string>> {
    map[
      "pending" := ["processing", "shipped", "cancelled", "completed"],
      "processing" := ["shipped", "delivered", "cancelled"],
      "shipped" := ["delivered", "completed"],
      "delivered" := ["completed"],
      "completed" := [],
      "cancelled" := []
    ]
  }

  /** The table has one row per status; `completed` and `cancelled` have no successors; no
      status lists itself; every destination is a member of the status enumeration. */
  lemma TransitionTableShape()
    ensures Transitions().Keys == set n | n in StatusEnum
    ensures Transitions()["completed"] == [] && Transitions()["cancelled"] == []
    ensures forall n :: n in Transitions() ==> n !in Transitions()[n]
    ensures forall n, d :: n in Transitions() && d in Transitions()[n] ==> d in StatusEnum
  {
  }

  predicate Allowed(from: Status, to: Status) {
    StatusName(to) in Transitions()[StatusName(from)]
  }

  /** A requested status string passes the table check exactly when it names a status the
      current one may move to. */
  lemma AllowedByName(from: Status, name: string)
    ensures name in Transitions()[StatusName(from)]
            <==> ParseStatus(name).Some? && Allowed(from, ParseStatus(name).value)
  {
    TransitionTableShape();
  }

  /** In the table, only `pending` and `processing` may move to `cancelled`. */
  lemma CancelEdges(s: Status)
    ensures Allowed(s, Cancelled) <==> s == Pending || s == Processing
  {
  }

  /** Progress along the table: every allowed move strictly raises this rank. */
  function Rank(s: Status): nat {
    match s
    case Pending => 0
    case Processing => 1
    case Shipped => 2
    case Delivered => 3
    case Completed => 4
    case Cancelled => 4
  }

  lemma AllowedRaisesRank(from: Status, to: Status)
    requires Allowed(from, to)
    ensures Rank(from) < Rank(to)
  {
  }

  /** A sequence of statuses each reachable from the previous by one allowed move. */
  predicate IsPath(p: seq<Status>) {
    forall i :: 0 < i < |p| ==> Allowed(p[i - 1], p[i])
  }

  /** The table has no cycles: along any path the rank rises by at least one per step, so a
      path has at most five statuses and never repeats one. */
  lemma {:induction false} PathsAreShort(p: seq<Status>)
    requires IsPath(p) && p != []
    ensures Rank(p[|p| - 1]) >= Rank(p[0]) + |p| - 1
    ensures |p| <= 5
    decreases |p|
  {
    if |p| > 1 {
      var q := p[..|p| - 1];
      assert IsPath(q) by {
        forall i | 0 < i < |q| ensures Allowed(q[i - 1], q[i]) {
          assert q[i - 1] == p[i - 1] && q[i] == p[i];
        }
      }
      PathsAreShort(q);
      AllowedRaisesRank(p[|p| - 2], p[|p| - 1]);
    }
  }

  // ---------------------------------------------------------------- payment

  datatype PaymentMethod = CreditCard | PayPal | Upi | Cod
  datatype PaymentStatus = PaymentPending | Paid | PaymentFailed | Refunded

  /** The schema's cast of the request's `paymentMethod`: absent means the default
      `credit_card`; a value outside the enumeration fails validation (`None`). */
  function ResolvePaymentMethod(raw: Option<string>): (r: Option<PaymentMethod>)
    ensures raw.None? ==> r == Some(CreditCard)
    ensures raw.Some? ==> (r.Some? <==> raw.value in ["credit_card", "paypal", "upi", "cod"])
  {
    match raw
    case None => Some(CreditCard)
    case Some(s) =>
      if s == "credit_card" then Some(CreditCard)
      else if s == "paypal" then Some(PayPal)
      else if s == "upi" then Some(Upi)
      else if s == "cod" then Some(Cod)
      else None
  }

  // ---------------------------------------------------------------- e-mail and phone

  predicate Clean(c: char) {
    !IsSpace(c) && c != '@'
  }

  /** A non-empty run of characters that are neither white space nor `@`: the `[^\s@]+` of
      the e-mail pattern. */
  predicate Part(s: string) {
    |s| > 0 && forall k :: 0 <= k < |s| ==> Clean(s[k])
  }

  /** `/^[^\s@]+@[^\s@]+\.[^\s@]+$/.test(s)`, read as the pattern itself: a part, `@`, a
      domain. */
  predicate EmailRegex(s: string) {
    exists i :: 0 <= i < |s| && s[i] == '@' && Part(s[..i]) && DomainRegex(s[i + 1..])
  }

  /** `[^\s@]+\.[^\s@]+`: two parts joined by one of the dots. */
  predicate DomainRegex(d: string) {
    exists j :: 0 <= j < |d| && d[j] == '.' && Part(d[..j]) && Part(d[j + 1..])
  }

  predicate NoOtherAt(s: string, i: int) {
    forall k :: 0 <= k < |s| && k != i ==> s[k] != '@'
  }

  predicate InnerDot(d: string) {
    exists j :: 0 < j < |d| - 1 && d[j] == '.'
  }

  /** The shape of an accepted address in plain terms: no white space, exactly one `@`, a
      non-empty local part, and a domain with a dot that is neither its first nor its last
      character. */
  predicate EmailShape(s: string) {
    NoSpace(s) && exists i :: 0 < i < |s| && s[i] == '@' && NoOtherAt(s, i) && InnerDot(s[i + 1..])
  }

  /** Every character of a domain matched by the pattern is clean except its dots. */
  lemma DomainClean(d: string, j: int)
    requires 0 <= j < |d| && d[j] == '.' && Part(d[..j]) && Part(d[j + 1..])
    ensures forall m :: 0 <= m < |d| ==> Clean(d[m])
  {
    forall m | 0 <= m < |d| ensures Clean(d[m]) {
      if m < j {
        assert d[m] == d[..j][m];
      } else if m > j {
        assert d[m] == d[j + 1..][m - j - 1];
      }
    }
  }

  lemma EmailRegexToShape(s: string, i: int)
    requires 0 <= i < |s| && s[i] == '@' && Part(s[..i]) && DomainRegex(s[i + 1..])
    ensures EmailShape(s)
  {
    var d := s[i + 1..];
    var j :| 0 <= j < |d| && d[j] == '.' && Part(d[..j]) && Part(d[j + 1..]);
    DomainClean(d, j);
    forall k | 0 <= k < |s| && k != i ensures Clean(s[k]) {
      if k < i {
        assert s[k] == s[..i][k];
      } else {
        assert s[k] == d[k - i - 1];
      }
    }
    assert NoSpace(s);
    assert NoOtherAt(s, i);
    assert 0 < j < |d| - 1;
  }

  lemma EmailShapeToRegex(s: string, i: int)
    requires NoSpace(s) && 0 < i < |s| && s[i] == '@' && NoOtherAt(s, i) && InnerDot(s[i + 1..])
    ensures EmailRegex(s)
  {
    var d := s[i + 1..];
    var j :| 0 < j < |d| - 1 && d[j] == '.';
    assert forall k :: 0 <= k < i ==> s[..i][k] == s[k];
    assert Part(s[..i]);
    assert forall m :: 0 <= m < |d| ==> d[m] == s[i + 1 + m] && i + 1 + m != i;
    assert forall m :: 0 <= m < |d| ==> Clean(d[m]) || m == j;
    assert forall m :: 0 <= m < j ==> d[..j][m] == d[m];
    assert forall m :: j + 1 <= m < |d| ==> d[j + 1..][m - j - 1] == d[m];
    assert DomainRegex(d);
  }

  /** The pattern accepts exactly the addresses of that shape. */
  lemma EmailRegexIsShape(s: string)
    ensures EmailRegex(s) <==> EmailShape(s)
  {
    if EmailRegex(s) {
      var i :| 0 <= i < |s| && s[i] == '@' && Part(s[..i]) && DomainRegex(s[i + 1..]);
      EmailRegexToShape(s, i);
    }
    if EmailShape(s) {
      var i :| 0 < i < |s| && s[i] == '@' && NoOtherAt(s, i) && InnerDot(s[i + 1..]);
      EmailShapeToRegex(s, i);
    }
  }

  predicate PhoneTail(c: char) {
    c == '-' || IsSpace(c) || c == '.' || c == '/' || IsDigit(c)
  }

  predicate AllTail(s: string) {
    forall k :: 0 <= k < |s| ==> PhoneTail(s[k])
  }

  predicate AllPlus(s: string) {
    forall k :: 0 <= k < |s| ==> s[k] == '+'
  }

  /** `/^[+]*[(]{0,1}[0-9]{1,4}[)]{0,1}[-\s\./0-9]*$/.test(s)`, one predicate per stage of
      the pattern. */
  predicate PhoneRegex(s: string) {
    exists a :: 0 <= a <= |s| && AllPlus(s[..a]) && OpenStage(s[a..])
  }

  predicate OpenStage(s: string) {
    DigitStage(s) || (|s| > 0 && s[0] == '(' && DigitStage(s[1..]))
  }

  predicate DigitStage(s: string) {
    exists n :: 1 <= n <= 4 && n <= |s| && AllDigits(s[..n]) && CloseStage(s[n..])
  }

  predicate CloseStage(s: string) {
    AllTail(s) || (|s| > 0 && s[0] == ')' && AllTail(s[1..]))
  }

  function LeadingPluses(s: string): (n: nat)
    ensures n <= |s| && AllPlus(s[..n]) && (n < |s| ==> s[n] != '+')
  {
    if s != [] && s[0] == '+' then 1 + LeadingPluses(s[1..]) else 0
  }

  /** The digit and closing stages decided without backtracking: take the whole run of
      digits; a closing parenthesis may follow only if that run has at most four digits; the
      rest must be tail characters. */
  predicate DigitScan(s2: string) {
    var d := LeadingDigits(s2, 10);
    var rest := s2[d..];
    d >= 1 && if d <= 4 && |rest| > 0 && rest[0] == ')' then AllTail(rest[1..]) else AllTail(rest)
  }

  /** The phone pattern decided left to right: skip the pluses and an opening parenthesis,
      then scan the digits. */
  predicate PhoneScan(s: string) {
    var s1 := s[LeadingPluses(s)..];
    DigitScan(if |s1| > 0 && s1[0] == '(' then s1[1..] else s1)
  }

  lemma DigitStageRun(s2: string)
    ensures DigitStage(s2) <==> DigitScan(s2)
  {
    var d := LeadingDigits(s2, 10);
    var rest := s2[d..];
    if DigitStage(s2) {
      var n :| 1 <= n <= 4 && n <= |s2| && AllDigits(s2[..n]) && CloseStage(s2[n..]);
      assert n <= d by {
        assert forall i :: 0 <= i < n ==> IsDigit(s2[i]) by {
          forall i | 0 <= i < n ensures IsDigit(s2[i]) {
            assert s2[..n][i] == s2[i];
          }
        }
      }
      if n < d {
        assert s2[n..][0] == s2[n] && IsDigit(s2[n]);
        assert AllTail(s2[n..]);
        assert forall k :: 0 <= k < |rest| ==> rest[k] == s2[n..][k + d - n];
        assert AllTail(rest);
      } else {
        assert rest == s2[n..];
      }
    }
    if DigitScan(s2) {
      var n := if d <= 4 then d else 4;
      assert AllDigits(s2[..n]);
      if d <= 4 {
        assert s2[n..] == rest;
      } else {
        assert AllTail(s2[n..]) by {
          forall k | 0 <= k < |s2[n..]| ensures PhoneTail(s2[n..][k]) {
            if n + k >= d {
              assert s2[n..][k] == rest[n + k - d];
            }
          }
        }
      }
      assert CloseStage(s2[n..]);
    }
  }

  /** A string the digit stage accepts starts with a digit. */
  lemma DigitStageStartsWithDigit(s2: string)
    requires DigitStage(s2)
    ensures s2 != [] && IsDigit(s2[0])
  {
    var n :| 1 <= n <= 4 && n <= |s2| && AllDigits(s2[..n]) && CloseStage(s2[n..]);
    assert s2[..n][0] == s2[0];
  }

  lemma OpenStageRun(s1: string)
    ensures OpenStage(s1) <==> DigitScan(if |s1| > 0 && s1[0] == '(' then s1[1..] else s1)
  {
    if |s1| > 0 && s1[0] == '(' {
      DigitStageRun(s1[1..]);
      if DigitStage(s1) {
        DigitStageStartsWithDigit(s1);
      }
    } else {
      DigitStageRun(s1);
    }
  }

  /** The plus run the pattern consumes is the whole leading run of pluses. */
  lemma PlusesAreLeading(s: string, a: int)
    requires 0 <= a <= |s| && AllPlus(s[..a]) && OpenStage(s[a..])
    ensures a == LeadingPluses(s)
  {
    var p := LeadingPluses(s);
    assert s[a..] != [] && s[a] != '+' by {
      if DigitStage(s[a..]) {
        DigitStageStartsWithDigit(s[a..]);
      }
    }
    assert forall k :: 0 <= k < a ==> s[k] == s[..a][k] == '+';
    assert forall k :: 0 <= k < p ==> s[k] == s[..p][k] == '+';
  }

  /** The deterministic scan accepts exactly the strings the phone pattern matches. */
  lemma PhoneRegexIsScan(s: string)
    ensures PhoneRegex(s) <==> PhoneScan(s)
  {
    var p := LeadingPluses(s);
    OpenStageRun(s[p..]);
    if PhoneRegex(s) {
      var a :| 0 <= a <= |s| && AllPlus(s[..a]) && OpenStage(s[a..]);
      PlusesAreLeading(s, a);
    }
  }

  // ---------------------------------------------------------------- order document

  /** An order line. `price` is `None` when the line carries no number there (undefined or
      null), which the required validator refuses. */
  datatype LineItem = LineItem(product: Id, name: string, price: Option<int>, quantity: int, image: string)

  /** A line item the schema accepts: a product reference, a non-empty name, a price of at
      least 0 and a quantity between 1 and 1000. */
  predicate LineItemValid(li: LineItem) {
    ValidId(li.product) && li.name != "" && li.price.Some? && li.price.value >= 0 && 1 <= li.quantity <= 1000
  }

  /** price × quantity; a line without a price adds nothing. */
  function Amount(li: LineItem): int {
    if li.price.Some? then li.price.value * li.quantity else 0
  }

  /** A shipping address as the request supplies it; "" stands for a missing or empty field. */
  datatype AddressInput = AddressInput(
    name: string, email: string, street: string, city: string, zip: string,
    country: Option<string>, phone: Option<string>)

  /** A shipping address as the order stores it. */
  datatype Address = Address(
    name: string, email: string, street: string, city: string, zip: string,
    country: string, phone: Option<string>)

  const DefaultCountry: string := "United States"

  /** The schema's setters: trimmed strings and the default country. */
  function CastAddress(a: AddressInput): (r: Address)
    ensures a.country.None? ==> r.country == DefaultCountry
    ensures r.phone == a.phone
  {
    Address(Trim(a.name), Trim(a.email), Trim(a.street), Trim(a.city), Trim(a.zip),
            if a.country.Some? then Trim(a.country.value) else DefaultCountry, a.phone)
  }

  /** The setters trim each text field: name, e-mail, street, city, zip and a given country
      are what is left of the field sent once the white space at its ends is removed, and
      nothing more is removed. */
  lemma AddressTrimmed(a: AddressInput)
    ensures var r := CastAddress(a);
            TrimOf(r.name, a.name) && TrimOf(r.email, a.email) && TrimOf(r.street, a.street)
            && TrimOf(r.city, a.city) && TrimOf(r.zip, a.zip)
            && (a.country.Some? ==> TrimOf(r.country, a.country.value))
  {
    TrimIsTrimOf(a.name);
    TrimIsTrimOf(a.email);
    TrimIsTrimOf(a.street);
    TrimIsTrimOf(a.city);
    TrimIsTrimOf(a.zip);
    if a.country.Some? {
      TrimIsTrimOf(a.country.value);
    }
  }

  /** Required fields present after trimming, within their maximum lengths, the e-mail
      matching its pattern and a phone, when given, matching its own. */
  predicate AddressValid(a: Address) {
    0 < |a.name| <= 100 && EmailRegex(a.email) && 0 < |a.street| <= 200
    && 0 < |a.city| <= 50 && 0 < |a.zip| <= 20
    && (a.phone.Some? ==> PhoneRegex(a.phone.value))
  }

  datatype HistoryEntry = HistoryEntry(status: Status, changedAt: int, changedBy: Id, note: string)

  /** An order document. Money is in cents; `createdAt` is the creation timestamp. */
  datatype Order = Order(
    user: Id,
    items: seq<LineItem>,
    shippingAddress: Address,
    paymentMethod: PaymentMethod,
    paymentStatus: PaymentStatus,
    status: Status,
    statusHistory: seq<HistoryEntry>,
    total: int,
    tax: int,
    shippingFee: int,
    discount: int,
    createdAt: int)

  /** What the schema's validators demand of a document before it is saved. */
  predicate OrderValid(o: Order) {
    ValidId(o.user)
    && (forall i :: 0 <= i < |o.items| ==> LineItemValid(o.items[i]))
    && AddressValid(o.shippingAddress)
    && o.total >= 0 && o.tax >= 0 && o.shippingFee >= 0 && o.discount >= 0
  }

  /** A new document with the schema's defaults for every field the caller does not set. */
  function NewOrder(user: Id, items: seq<LineItem>, address: Address, payment: PaymentMethod,
                    total: int, createdAt: int): Order
  {
    Order(user, items, address, payment, PaymentPending, Pending, [], total, 0, 0, 0, createdAt)
  }

  /** The defaults: status `pending`, payment status `pending`, payment method
      `credit_card`, country `United States`, empty history. */
  lemma Defaults(user: Id, items: seq<LineItem>, a: AddressInput, total: int, createdAt: int)
    requires a.country.None?
    ensures var o := NewOrder(user, items, CastAddress(a), ResolvePaymentMethod(None).value, total, createdAt);
            o.status == Pending && o.paymentStatus == PaymentPending && o.paymentMethod == CreditCard
            && o.shippingAddress.country == "United States" && o.statusHistory == []
  {
  }

  // ---------------------------------------------------------------- virtuals and helpers

  /** The `orderNumber` virtual: "ORD-" and the last eight characters of the id, upper-cased. */
  function OrderNumber(id: Id): string {
    "ORD-" + ToUpper(Last(id, 8))
  }

  lemma OrderNumberShape(id: Id)
    requires ValidId(id)
    ensures |OrderNumber(id)| == 12 && OrderNumber(id)[..4] == "ORD-"
    ensures forall k :: 4 <= k < 12 ==> OrderNumber(id)[k] == UpperChar(id[k + 12])
    ensures forall k :: 4 <= k < 12 ==> IsDigit(OrderNumber(id)[k]) || 'A' <= OrderNumber(id)[k] <= 'F'
  {
    var r := OrderNumber(id);
    assert forall k :: 4 <= k < 12 ==> r[k] == UpperChar(Last(id, 8)[k - 4]);
    assert forall k :: 16 <= k < 24 ==> Last(id, 8)[k - 16] == id[k];
  }

  /** The `active` query helper's condition. */
  predicate IsActive(s: Status) {
    s != Cancelled && s != Delivered
  }

  /** The ids the `active` query selects. */
  function ActiveQuery(orders: map<Id, Order>): set<Id> {
    set id | id in orders && IsActive(orders[id].status)
  }

  /** The query keeps exactly the pending, processing, shipped and completed orders; in
      particular a completed order counts as active. */
  lemma ActiveQueryStatuses(orders: map<Id, Order>, id: Id)
    requires id in orders
    ensures id in ActiveQuery(orders) <==> orders[id].status in {Pending, Processing, Shipped, Completed}
  {
  }

  datatype Json = JNull | JBool(b: bool) | JNum(n: int) | JStr(s: string) | JArr(elems: seq<Json>) | JObj(fields: map<string, Json>)

  /** The `toJSON` transform: delete `__v`, copy `_id` to `id`, delete `_id`. Assigning an
      absent `_id` leaves `id` undefined, which serialisation drops. */
  method ToJsonTransform(ret: map<string, Json>) returns (out: map<string, Json>)
    ensures "_id" !in out && "__v" !in out
    ensures "id" in out <==> "_id" in ret
    ensures "_id" in ret ==> out["id"] == ret["_id"]
    ensures forall k :: k in ret && k != "_id" && k != "__v" && k != "id" ==> k in out && out[k] == ret[k]
    ensures forall k :: k in out ==> k == "id" || k in ret
  {
    out := ret - {"__v"};
    if "_id" in out {
      out := out["id" := out["_id"]];
    } else {
      out := out - {"id"};
    }
    out := out - {"_id"};
  }

  /** A hydrated order document: the stored fields plus the two transient fields the
      controller and the hook set, which are not persisted. */
  class OrderDocument {
    var data: Order
    var originalStatus: Option<Status>
    var updatedBy: string

    /** Loading a document runs the `pre('init')` hook, which is registered twice. */
    constructor Hydrate(stored: Order)
      ensures data == stored && originalStatus == Some(stored.status) && updatedBy == ""
    {
      data := stored;
      originalStatus := None;
      updatedBy := "";
      new;
      PreInit(stored);
      PreInit(stored);
    }

    /** The hook: remember the status the document was loaded with. */
    method PreInit(doc: Order)
      modifies this
      ensures originalStatus == Some(doc.status)
      ensures data == old(data) && updatedBy == old(updatedBy)
    {
      originalStatus := Some(doc.status);
    }
  }
}
