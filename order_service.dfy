/**
 * The order service (src/services/orderService.js): order codes, tracking numbers,
 * order creation, the owner-scoped and newest-first queries, and the two status writes.
 *
 * The `orders` collection is a map from document id to record. Document ids are
 * allocated from a counter, and a query without `orderBy` scans the collection in
 * document-id order.
 */
module OrderService {
  import opened Wrappers
  import opened Text

  /** One line of the cart. Prices are in cents. */
  datatype Item = Item(id: string, name: string, price: int, quantity: nat)

  /** A stored order document. `totalAmount`, `followUp` and `updatedAt` may be absent. */
  datatype Order = Order(
    userId: string,
    franchiseId: string,
    orderCode: string,
    orderNumber: nat,
    items: seq<Item>,
    shippingAddress: map<string, string>,
    customerInfo: map<string, string>,
    sellerMessage: string,
    storeSlug: string,
    status: string,
    createdAt: nat,
    totalAmount: Option<int>,
    trackingNumber: string,
    followUp: Option<bool>,
    updatedAt: Option<nat>)

  /** What the caller of `createOrder` passes; an absent string field is the empty string. */
  datatype OrderInput = OrderInput(
    userId: string,
    franchiseId: string,
    items: seq<Item>,
    shippingAddress: map<string, string>,
    customerInfo: map<string, string>,
    sellerMessage: string,
    storeSlug: string)

  /** What `createOrder` returns. */
  datatype Created = Created(orderId: nat, orderCode: string, customerUserId: string, orderCodeWithFranchise: string)

  /** A query result entry: the document id together with the document's data. */
  datatype OrderView = OrderView(id: nat, order: Order)

  const UserIdRequired := "userId is required for creating an order"
  const FranchiseIdRequired := "franchiseId is required for creating an order"
  const CountryUndefined := "Cannot read properties of undefined (reading 'toLowerCase')"
  const NoDocumentToUpdate := "No document to update"

  // ---------------------------------------------------------------------
  // Order codes

  /** `item.name.slice(0, 2).toLowerCase()` for every item, in item order. */
  function GenerateProductCodes(items: seq<Item>): (codes: seq<string>)
    ensures |codes| == |items|
    ensures forall i :: 0 <= i < |items| ==>
      |codes[i]| == (if |items[i].name| < 2 then |items[i].name| else 2)
      && codes[i] == Lower(items[i].name[..|codes[i]|])
  {
    if items == [] then [] else [Lower(Take(items[0].name, 2))] + GenerateProductCodes(items[1..])
  }

  /** `franchiseId ? franchiseId : 'none'` */
  function FranchisePart(franchiseId: string): string {
    if franchiseId != "" then franchiseId else "none"
  }

  /**
   * `generateOrderCode`: "cu", the postal code as given, the lower-cased country, the
   * product codes, the order number and the franchise part. `userId` takes no part.
   */
  function GenerateOrderCode(userId: string, zipCode: string, countryCode: string, items: seq<Item>,
                             orderNumber: nat, franchiseId: string): (code: string)
    ensures |code| > 2 + |zipCode| + |countryCode|
    ensures StartsWith(code, "cu" + zipCode)
  {
    "cu" + zipCode + Lower(countryCode) + Join(GenerateProductCodes(items), "")
      + DecimalDigits(orderNumber) + FranchisePart(franchiseId)
  }

  /** The code's layout, piece by piece; the customer id is not one of the pieces. */
  lemma OrderCodeLayout(userId: string, otherUser: string, zipCode: string, countryCode: string,
                        items: seq<Item>, orderNumber: nat, franchiseId: string)
    requires franchiseId == "" || !IsDigit(franchiseId[0])
    ensures var code := GenerateOrderCode(userId, zipCode, countryCode, items, orderNumber, franchiseId);
      var head := "cu" + zipCode + Lower(countryCode) + Join(GenerateProductCodes(items), "");
      var tail := if franchiseId == "" then "none" else franchiseId;
      StartsWith(code, head)
      && LeadingNumber(code[|head|..]) == Some(orderNumber)
      && code[|code| - |tail|..] == tail
      && code == GenerateOrderCode(otherUser, zipCode, countryCode, items, orderNumber, franchiseId)
  {
    var code := GenerateOrderCode(userId, zipCode, countryCode, items, orderNumber, franchiseId);
    var head := "cu" + zipCode + Lower(countryCode) + Join(GenerateProductCodes(items), "");
    var digits := DecimalDigits(orderNumber);
    var tail := FranchisePart(franchiseId);
    assert code == head + digits + tail;
    assert code[|head|..] == digits + tail;
    assert (digits + tail)[..|digits|] == digits;
    assert tail[0] == 'n' || tail[0] == franchiseId[0];
    LeadingDigitsOfNumberThenText(digits, tail);
    DigitsValueOfDecimal(orderNumber);
  }

  /** The worked example: one Tofu, postal code 1000, PH, first order, franchise fr000001. */
  lemma OrderCodeExample()
    ensures GenerateOrderCode("cu000001", "1000", "PH", [Item("p1", "Tofu", 5000, 1)], 1, "fr000001")
      == "cu1000phto1fr000001"
  {
    TofuCode();
    assert Lower("PH") == "ph";
    assert DecimalDigits(1) == "1";
  }

  lemma TofuCode()
    ensures GenerateProductCodes([Item("p1", "Tofu", 5000, 1)]) == ["to"]
    ensures GenerateProductCodes([Item("p2", "Tomato", 2000, 3)]) == ["to"]
  {
    assert Take("Tofu", 2) == "To";
    assert Take("Tomato", 2) == "To";
    assert Lower("To") == "to";
  }

  /**
   * Two orders that differ only in their order number get different codes when the
   * franchise id does not start with a digit, as every generated `fr` id does.
   */
  lemma OrderCodeSeparatesOrderNumbers(userId: string, zipCode: string, countryCode: string,
                                       items: seq<Item>, n: nat, m: nat, franchiseId: string)
    requires franchiseId == "" || !IsDigit(franchiseId[0])
    requires GenerateOrderCode(userId, zipCode, countryCode, items, n, franchiseId)
          == GenerateOrderCode(userId, zipCode, countryCode, items, m, franchiseId)
    ensures n == m
  {
    OrderCodeLayout(userId, userId, zipCode, countryCode, items, n, franchiseId);
    OrderCodeLayout(userId, userId, zipCode, countryCode, items, m, franchiseId);
  }

  /** Product codes keep only two letters, so different carts can share a code. */
  lemma OrderCodeIgnoresRestOfName()
    ensures GenerateOrderCode("cu000001", "1000", "PH", [Item("p1", "Tofu", 5000, 1)], 1, "fr000001")
         == GenerateOrderCode("cu000001", "1000", "PH", [Item("p2", "Tomato", 2000, 3)], 1, "fr000001")
  {
    TofuCode();
  }

  // ---------------------------------------------------------------------
  // Tracking numbers

  const TrackingAlphabet := "0123456789ABCDEFGHIJKLMNOPQRSTUVWXYZ"

  /** The characters `Math.random` chose, as positions in the alphabet. */
  predicate ValidPicks(picks: seq<nat>) {
    |picks| == 10 && forall i :: 0 <= i < |picks| ==> picks[i] < |TrackingAlphabet|
  }

  predicate IsTrackingChar(c: char) { IsDigit(c) || IsUpperAlpha(c) }

  /** The tracking number `generateTrackingNumber` builds from its ten random picks. */
  function TrackingNumberOf(picks: seq<nat>): (t: string)
    requires ValidPicks(picks)
    ensures |t| == 10 && forall i :: 0 <= i < 10 ==> IsTrackingChar(t[i])
  {
    AlphabetIsTrackingChars();
    var t := seq(10, i requires 0 <= i < 10 => TrackingAlphabet[picks[i]]);
    assert forall i :: 0 <= i < 10 ==> t[i] == TrackingAlphabet[picks[i]];
    t
  }

  lemma AlphabetIsTrackingChars()
    ensures forall k :: 0 <= k < |TrackingAlphabet| ==> IsTrackingChar(TrackingAlphabet[k])
  {
  }

  /** `generateTrackingNumber`: ten characters appended one at a time. */
  method GenerateTrackingNumber(picks: seq<nat>) returns (result: string)
    requires ValidPicks(picks)
    ensures result == TrackingNumberOf(picks)
    ensures |result| == 10 && forall i :: 0 <= i < 10 ==> IsTrackingChar(result[i])
  {
    result := "";
    var i := 0;
    while i < 10
      invariant 0 <= i <= 10
      invariant result == TrackingNumberOf(picks)[..i]
    {
      result := result + [TrackingAlphabet[picks[i]]];
      i := i + 1;
    }
  }

  // ---------------------------------------------------------------------
  // Totals

  /** Σ price × quantity over the items (the `reduce` in `createOrder`). */
  function TotalAmount(items: seq<Item>): int {
    if items == [] then 0 else items[0].price * items[0].quantity + TotalAmount(items[1..])
  }

  /** The total of a cart is the sum of the totals of its parts. */
  lemma {:induction false} TotalAmountAppend(a: seq<Item>, b: seq<Item>)
    ensures TotalAmount(a + b) == TotalAmount(a) + TotalAmount(b)
  {
    if a != [] {
      assert (a + b)[1..] == a[1..] + b;
      TotalAmountAppend(a[1..], b);
    } else {
      assert a + b == b;
    }
  }

  /** With no negative price the total is never negative. */
  lemma {:induction false} TotalAmountNonNegative(items: seq<Item>)
    requires forall i :: 0 <= i < |items| ==> items[i].price >= 0
    ensures TotalAmount(items) >= 0
  {
    if items != [] {
      TotalAmountNonNegative(items[1..]);
    }
  }

  // ---------------------------------------------------------------------
  // The collection and its queries

  /** Which orders a query's `where` clauses select. */
  datatype Filter = ByUser(userId: string) | ByFranchise(franchiseId: string) | ByCodeAndUser(orderCode: string, userId: string)

  predicate Selects(f: Filter, o: Order) {
    match f
    case ByUser(u) => o.userId == u
    case ByFranchise(fr) => o.franchiseId == fr
    case ByCodeAndUser(c, u) => o.orderCode == c && o.userId == u
  }

  /** The selected documents among ids below n, in document-id order. */
  function Scan(docs: map<nat, Order>, f: Filter, n: nat): (r: seq<OrderView>)
    ensures forall k :: 0 <= k < |r| ==> r[k].id < n
  {
    if n == 0 then []
    else Scan(docs, f, n - 1) + (if n - 1 in docs && Selects(f, docs[n - 1]) then [OrderView(n - 1, docs[n - 1])] else [])
  }

  function SelectedIds(docs: map<nat, Order>, f: Filter, n: nat): set<nat> {
    set id | id in docs && id < n && Selects(f, docs[id])
  }

  /** A scan returns exactly the selected documents below n, with their data. */
  lemma {:induction false} ScanMembers(docs: map<nat, Order>, f: Filter, n: nat)
    ensures forall v :: v in Scan(docs, f, n) <==> v.id in docs && v.id < n && Selects(f, docs[v.id]) && v.order == docs[v.id]
  {
    if n > 0 {
      ScanMembers(docs, f, n - 1);
    }
  }

  predicate IdsIncreasing(r: seq<OrderView>) {
    forall i, j :: 0 <= i < j < |r| ==> r[i].id < r[j].id
  }

  /** A scan lists documents in increasing id order, so each at most once. */
  lemma {:induction false} ScanIncreasing(docs: map<nat, Order>, f: Filter, n: nat)
    ensures IdsIncreasing(Scan(docs, f, n))
  {
    if n > 0 {
      ScanIncreasing(docs, f, n - 1);
      var r0 := Scan(docs, f, n - 1);
      var extra := if n - 1 in docs && Selects(f, docs[n - 1]) then [OrderView(n - 1, docs[n - 1])] else [];
      var r := Scan(docs, f, n);
      assert r == r0 + extra;
      forall i, j | 0 <= i < j < |r| ensures r[i].id < r[j].id {
        if j >= |r0| {
          assert r[i] == r0[i];
          assert r[j] == extra[0];
          assert r0[i].id < n - 1;
        } else {
          assert r[i] == r0[i] && r[j] == r0[j];
          assert IdsIncreasing(r0);
        }
      }
    }
  }

  lemma SelectedIdsStep(docs: map<nat, Order>, f: Filter, n: nat)
    requires n > 0
    ensures SelectedIds(docs, f, n)
      == SelectedIds(docs, f, n - 1) + (if n - 1 in docs && Selects(f, docs[n - 1]) then {n - 1} else {})
  {
  }

  /** A scan is as long as the set of selected ids. */
  lemma {:induction false} ScanLength(docs: map<nat, Order>, f: Filter, n: nat)
    ensures |Scan(docs, f, n)| == |SelectedIds(docs, f, n)|
  {
    if n > 0 {
      ScanLength(docs, f, n - 1);
      SelectedIdsStep(docs, f, n);
      assert n - 1 !in SelectedIds(docs, f, n - 1);
    }
  }

  predicate NewestFirst(r: seq<OrderView>) {
    forall i, j :: 0 <= i < j < |r| ==> r[i].order.createdAt >= r[j].order.createdAt
  }

  /** Puts v before the first entry that is not newer than it (a stable insertion). */
  function InsertNewestFirst(v: OrderView, r: seq<OrderView>): (s: seq<OrderView>)
    ensures multiset(s) == multiset(r) + multiset{v}
    ensures s[0] == v || (r != [] && s[0] == r[0])
  {
    if r == [] || v.order.createdAt >= r[0].order.createdAt then [v] + r
    else
      assert r == [r[0]] + r[1..];
      [r[0]] + InsertNewestFirst(v, r[1..])
  }

  /** Inserting into a list sorted newest first keeps it sorted. */
  lemma {:induction false} InsertKeepsNewestFirst(v: OrderView, r: seq<OrderView>)
    requires NewestFirst(r)
    ensures NewestFirst(InsertNewestFirst(v, r))
  {
    if r != [] && v.order.createdAt < r[0].order.createdAt {
      var rest := InsertNewestFirst(v, r[1..]);
      InsertKeepsNewestFirst(v, r[1..]);
      var s := [r[0]] + rest;
      forall i, j | 0 <= i < j < |s| ensures s[i].order.createdAt >= s[j].order.createdAt {
        assert s[j] == rest[j - 1];
        if i == 0 {
          assert rest[j - 1] in multiset(r[1..]) + multiset{v};
          if rest[j - 1] != v {
            var k :| 0 <= k < |r[1..]| && r[1..][k] == rest[j - 1];
            assert r[k + 1] == rest[j - 1];
          }
        } else {
          assert s[i] == rest[i - 1];
        }
      }
    }
  }

  /** `orders.sort((a, b) => b.createdAt - a.createdAt)`: a stable sort, newest first. */
  function SortNewestFirst(r: seq<OrderView>): (s: seq<OrderView>)
    ensures multiset(s) == multiset(r)
  {
    if r == [] then []
    else
      assert r == [r[0]] + r[1..];
      InsertNewestFirst(r[0], SortNewestFirst(r[1..]))
  }

  /** The sorted list is newest first. */
  lemma {:induction false} SortIsNewestFirst(r: seq<OrderView>)
    ensures NewestFirst(SortNewestFirst(r))
  {
    if r != [] {
      SortIsNewestFirst(r[1..]);
      InsertKeepsNewestFirst(r[0], SortNewestFirst(r[1..]));
    }
  }

  /** The collection as a value: its documents and the next free document id. */
  datatype OrderDb = OrderDb(docs: map<nat, Order>, nextId: nat)

  /** `getCustomerOrderCount`: how many orders the customer has, plus one for the new order. */
  function CustomerOrderCount(db: OrderDb, userId: string): nat {
    |SelectedIds(db.docs, ByUser(userId), db.nextId)| + 1
  }

  /** The record `createOrder` writes. */
  function NewOrder(input: OrderInput, orderCode: string, orderNumber: nat, tracking: string, now: nat): Order {
    var addr := input.shippingAddress;
    Order(
      input.userId, input.franchiseId, orderCode, orderNumber, input.items,
      addr + map["zipCode" := OrEmpty(addr, "zipCode"), "country" := OrEmpty(addr, "country")],
      map k | k in CustomerInfoKeys :: OrEmpty(input.customerInfo, k),
      input.sellerMessage, input.storeSlug, "pending", now,
      Some(TotalAmount(input.items)), tracking, None, None)
  }

  const CustomerInfoKeys: set<string> := {"firstName", "lastName", "email", "phone", "primaryPhone", "secondaryPhone"}

  /** `obj[k] || ''` for a string-valued object. */
  function OrEmpty(m: map<string, string>, k: string): string {
    if k in m then m[k] else ""
  }

  /** A template literal renders an absent field as "undefined". */
  function Interpolate(m: map<string, string>, k: string): string {
    if k in m then m[k] else "undefined"
  }

  /** `createOrder` on a value of the collection: the result and the collection afterwards. */
  function CreateOrderSpec(db: OrderDb, input: OrderInput, tracking: string, now: nat): (Result<Created>, OrderDb) {
    if input.userId == "" then (Failure(UserIdRequired), db)
    else if input.franchiseId == "" then (Failure(FranchiseIdRequired), db)
    else if "country" !in input.shippingAddress then (Failure(CountryUndefined), db)
    else
      var n := CustomerOrderCount(db, input.userId);
      var code := GenerateOrderCode(input.userId, Interpolate(input.shippingAddress, "zipCode"),
                                    input.shippingAddress["country"], input.items, n, input.franchiseId);
      var id := db.nextId;
      (Success(Created(id, code, input.userId, code)),
       OrderDb(db.docs[id := NewOrder(input, code, n, tracking, now)], id + 1))
  }

  /** `updateOrderStatus`: lower-cased status, new `updatedAt`, `followUp` reset. */
  function WithStatus(o: Order, status: string, now: nat): Order {
    o.(status := Lower(status), updatedAt := Some(now), followUp := Some(false))
  }

  /** `updateFollowUpStatus`: only `followUp` and `updatedAt` change. */
  function WithFollowUp(o: Order, followUp: bool, now: nat): Order {
    o.(followUp := Some(followUp), updatedAt := Some(now))
  }

  /** `updateDoc` on the order with the given id; a missing document is an error. */
  function UpdateStatusSpec(db: OrderDb, id: nat, status: string, now: nat): (Result<()>, OrderDb) {
    if id !in db.docs then (Failure(NoDocumentToUpdate), db)
    else (Success(()), db.(docs := db.docs[id := WithStatus(db.docs[id], status, now)]))
  }

  function UpdateFollowUpSpec(db: OrderDb, id: nat, followUp: bool, now: nat): (Result<()>, OrderDb) {
    if id !in db.docs then (Failure(NoDocumentToUpdate), db)
    else (Success(()), db.(docs := db.docs[id := WithFollowUp(db.docs[id], followUp, now)]))
  }

  /** Document ids are below the counter. */
  predicate WellFormed(db: OrderDb) {
    forall id :: id in db.docs ==> id < db.nextId
  }

  // ---------------------------------------------------------------------
  // Properties of the operations on the collection

  /** A missing customer or franchise id fails before anything is written, customer first. */
  lemma CreateOrderValidatesFirst(db: OrderDb, input: OrderInput, tracking: string, now: nat)
    ensures input.userId == "" ==> CreateOrderSpec(db, input, tracking, now) == (Failure(UserIdRequired), db)
    ensures input.userId != "" && input.franchiseId == "" ==>
      CreateOrderSpec(db, input, tracking, now) == (Failure(FranchiseIdRequired), db)
    ensures CreateOrderSpec(db, input, tracking, now).0.Failure? ==> CreateOrderSpec(db, input, tracking, now).1 == db
  {
  }

  /** What a successful creation stores and returns. */
  lemma CreateOrderStores(db: OrderDb, input: OrderInput, tracking: string, now: nat)
    requires WellFormed(db)
    requires input.userId != "" && input.franchiseId != "" && "country" in input.shippingAddress
    ensures var (res, db') := CreateOrderSpec(db, input, tracking, now);
      res.Success? && WellFormed(db')
      && res.value.orderId == db.nextId && db.nextId !in db.docs
      && res.value.customerUserId == input.userId
      && res.value.orderCodeWithFranchise == res.value.orderCode
      && db'.docs.Keys == db.docs.Keys + {db.nextId}
      && (forall id :: id in db.docs ==> db'.docs[id] == db.docs[id])
      && var o := db'.docs[db.nextId];
         o.status == "pending" && o.userId == input.userId && o.franchiseId == input.franchiseId
         && o.orderCode == res.value.orderCode
         && o.orderNumber == |set id | id in db.docs && db.docs[id].userId == input.userId| + 1
         && o.totalAmount == Some(TotalAmount(input.items))
         && o.followUp == None && o.createdAt == now && o.trackingNumber == tracking
  {
    assert SelectedIds(db.docs, ByUser(input.userId), db.nextId)
        == set id | id in db.docs && db.docs[id].userId == input.userId;
  }

  /** The next order of the same customer gets the next order number. */
  lemma OrderNumbersIncrease(db: OrderDb, input: OrderInput, tracking: string, now: nat)
    requires WellFormed(db)
    requires input.userId != "" && input.franchiseId != "" && "country" in input.shippingAddress
    ensures var db' := CreateOrderSpec(db, input, tracking, now).1;
      CustomerOrderCount(db', input.userId) == CustomerOrderCount(db, input.userId) + 1
  {
    var db' := CreateOrderSpec(db, input, tracking, now).1;
    var u := ByUser(input.userId);
    assert SelectedIds(db'.docs, u, db'.nextId) == SelectedIds(db.docs, u, db.nextId) + {db.nextId};
  }

  /** A status write lower-cases the status, resets the follow-up flag and changes nothing else. */
  lemma StatusWriteResetsFollowUp(db: OrderDb, id: nat, status: string, now: nat)
    requires id in db.docs
    ensures var (res, db') := UpdateStatusSpec(db, id, status, now);
      res.Success? && db'.nextId == db.nextId && db'.docs.Keys == db.docs.Keys
      && db'.docs[id].status == Lower(status) && db'.docs[id].followUp == Some(false)
      && db'.docs[id].(status := db.docs[id].status, followUp := db.docs[id].followUp,
                       updatedAt := db.docs[id].updatedAt) == db.docs[id]
      && forall other :: other in db.docs && other != id ==> db'.docs[other] == db.docs[other]
  {
    var o := db.docs[id];
    var o' := WithStatus(o, status, now);
    assert o'.(status := o.status, followUp := o.followUp, updatedAt := o.updatedAt) == o;
  }

  /** Writing the same follow-up flag twice is the same as writing it once. */
  lemma FollowUpWriteIdempotent(db: OrderDb, id: nat, followUp: bool, now: nat)
    ensures var db1 := UpdateFollowUpSpec(db, id, followUp, now).1;
      UpdateFollowUpSpec(db1, id, followUp, now) == UpdateFollowUpSpec(db, id, followUp, now)
    ensures id !in db.docs ==> UpdateFollowUpSpec(db, id, followUp, now) == (Failure(NoDocumentToUpdate), db)
  {
    if id in db.docs {
      var o1 := WithFollowUp(db.docs[id], followUp, now);
      assert WithFollowUp(o1, followUp, now) == o1;
      assert db.docs[id := o1][id := o1] == db.docs[id := o1];
    }
  }

  /** The follow-up write keeps status and every other field of the order. */
  lemma FollowUpWriteKeepsStatus(db: OrderDb, id: nat, followUp: bool, now: nat)
    requires id in db.docs
    ensures var db' := UpdateFollowUpSpec(db, id, followUp, now).1;
      db'.docs[id].followUp == Some(followUp)
      && db'.docs[id].(followUp := db.docs[id].followUp, updatedAt := db.docs[id].updatedAt) == db.docs[id]
      && forall other :: other in db.docs && other != id ==> db'.docs[other] == db.docs[other]
  {
  }

  // ---------------------------------------------------------------------
  // The collection as an object

  class OrderStore {
    var docs: map<nat, Order>
    var nextId: nat

    ghost predicate Valid()
      reads this
    {
      WellFormed(OrderDb(docs, nextId))
    }

    function Db(): OrderDb
      reads this
    {
      OrderDb(docs, nextId)
    }

    constructor ()
      ensures Valid() && docs == map[] && nextId == 0
    {
      docs := map[];
      nextId := 0;
    }

    /** A query without `orderBy`: the selected documents in document-id order. */
    method Query(f: Filter) returns (r: seq<OrderView>)
      requires Valid()
      ensures r == Scan(docs, f, nextId)
      ensures forall v :: v in r <==> v.id in docs && Selects(f, docs[v.id]) && v.order == docs[v.id]
      ensures forall i, j :: 0 <= i < j < |r| ==> r[i].id < r[j].id
    {
      r := [];
      var i := 0;
      while i < nextId
        invariant 0 <= i <= nextId
        invariant r == Scan(docs, f, i)
      {
        if i in docs && Selects(f, docs[i]) {
          r := r + [OrderView(i, docs[i])];
        }
        i := i + 1;
      }
      ScanMembers(docs, f, nextId);
      ScanIncreasing(docs, f, nextId);
    }

    /** `getCustomerOrderCount`. */
    method GetCustomerOrderCount(userId: string) returns (n: nat)
      requires Valid()
      ensures n == |set id | id in docs && docs[id].userId == userId| + 1
      ensures n == CustomerOrderCount(Db(), userId)
    {
      var r := Query(ByUser(userId));
      ScanLength(docs, ByUser(userId), nextId);
      assert SelectedIds(docs, ByUser(userId), nextId) == set id | id in docs && docs[id].userId == userId;
      n := |r| + 1;
    }

    /** `getOrdersByCode`: the orders with this code that belong to this customer, unsorted. */
    method GetOrdersByCode(orderCode: string, userId: string) returns (r: seq<OrderView>)
      requires Valid()
      ensures forall v :: v in r <==>
        v.id in docs && v.order == docs[v.id] && v.order.orderCode == orderCode && v.order.userId == userId
      ensures forall i, j :: 0 <= i < j < |r| ==> r[i].id != r[j].id
    {
      r := Query(ByCodeAndUser(orderCode, userId));
      assert forall i, j :: 0 <= i < j < |r| ==> r[i].id < r[j].id;
    }

    /** `getOrdersByFranchiseId`: the franchise's orders, newest first. */
    method GetOrdersByFranchiseId(franchiseId: string) returns (r: seq<OrderView>)
      requires Valid()
      ensures forall v :: v in r <==> v.id in docs && v.order == docs[v.id] && v.order.franchiseId == franchiseId
      ensures NewestFirst(r) && multiset(r) == multiset(Scan(docs, ByFranchise(franchiseId), nextId))
    {
      var found := Query(ByFranchise(franchiseId));
      r := SortNewestFirst(found);
      SortIsNewestFirst(found);
      assert forall v :: v in r <==> v in multiset(r);
    }

    /** `getOrdersByUserId`: the customer's orders, newest first. */
    method GetOrdersByUserId(userId: string) returns (r: seq<OrderView>)
      requires Valid()
      ensures forall v :: v in r <==> v.id in docs && v.order == docs[v.id] && v.order.userId == userId
      ensures NewestFirst(r) && multiset(r) == multiset(Scan(docs, ByUser(userId), nextId))
    {
      var found := Query(ByUser(userId));
      r := SortNewestFirst(found);
      SortIsNewestFirst(found);
      assert forall v :: v in r <==> v in multiset(r);
    }

    /** `createOrder`; the ten random picks and the clock are parameters. */
    method CreateOrder(input: OrderInput, picks: seq<nat>, now: nat) returns (res: Result<Created>)
      requires Valid() && ValidPicks(picks)
      modifies this
      ensures Valid()
      ensures (res, Db()) == CreateOrderSpec(old(Db()), input, TrackingNumberOf(picks), now)
    {
      if input.userId == "" {
        return Failure(UserIdRequired);
      }
      if input.franchiseId == "" {
        return Failure(FranchiseIdRequired);
      }
      var tracking := GenerateTrackingNumber(picks);
      var orderNumber := GetCustomerOrderCount(input.userId);
      if "country" !in input.shippingAddress {
        return Failure(CountryUndefined);
      }
      var code := GenerateOrderCode(input.userId, Interpolate(input.shippingAddress, "zipCode"),
                                    input.shippingAddress["country"], input.items, orderNumber, input.franchiseId);
      var id := nextId;
      docs := docs[id := NewOrder(input, code, orderNumber, tracking, now)];
      nextId := nextId + 1;
      res := Success(Created(id, code, input.userId, code));
    }

    /** `updateOrderStatus`. */
    method UpdateOrderStatus(id: nat, status: string, now: nat) returns (res: Result<()>)
      requires Valid()
      modifies this
      ensures Valid()
      ensures (res, Db()) == UpdateStatusSpec(old(Db()), id, status, now)
    {
      if id !in docs {
        return Failure(NoDocumentToUpdate);
      }
      docs := docs[id := WithStatus(docs[id], status, now)];
      res := Success(());
    }

    /** `updateFollowUpStatus`. */
    method UpdateFollowUpStatus(id: nat, followUp: bool, now: nat) returns (res: Result<()>)
      requires Valid()
      modifies this
      ensures Valid()
      ensures (res, Db()) == UpdateFollowUpSpec(old(Db()), id, followUp, now)
    {
      if id !in docs {
        return Failure(NoDocumentToUpdate);
      }
      docs := docs[id := WithFollowUp(docs[id], followUp, now)];
      res := Success(());
    }
  }
}
