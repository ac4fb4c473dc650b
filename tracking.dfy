/**
 * The order tracking page (src/pages/Tracking.jsx): the progress steps shown for a
 * status, the payment amount field's sanitiser, the owner-scoped order lookup, and the
 * payment submission that moves an order to `verify payment`.
 */
module Tracking {
  import opened Wrappers
  import opened Text
  import opened OrderService

  // ---------------------------------------------------------------------
  // getStepStatus

  /** `statusToStepIndex[status] ?? -1`. */
  function StepIndex(status: string): (i: int)
    ensures -1 <= i <= 2
    ensures i == 0 <==> status == "pending" || status == "verify payment"
    ensures i == 1 <==> status == "processing order"
    ensures i == 2 <==> status == "order sent"
  {
    if status == "pending" || status == "verify payment" then 0
    else if status == "processing order" then 1
    else if status == "order sent" then 2
    else -1
  }

  datatype StepState = Complete | Current | Upcoming

  /** `getStepStatus(status)(stepIndex)`. */
  function StepStatus(status: string, stepIndex: int): (state: StepState)
    ensures state == Current ==> stepIndex <= 1
    ensures stepIndex >= 2 ==> (state == Complete <==> status == "order sent")
  {
    if status == "order sent" then Complete
    else if stepIndex < StepIndex(status) then Complete
    else if stepIndex == StepIndex(status) then Current
    else Upcoming
  }

  /** The three steps shown: payment confirmation, processing, sent. */
  const Steps: seq<int> := [0, 1, 2]

  /** Once the order is sent every step is complete. */
  lemma SentCompletesEveryStep(stepIndex: int)
    ensures StepStatus("order sent", stepIndex) == Complete
  {
  }

  /** A status outside the workflow shows every step as upcoming. */
  lemma UnknownStatusIsUpcoming(status: string, stepIndex: int)
    requires StepIndex(status) == -1 && 0 <= stepIndex
    ensures StepStatus(status, stepIndex) == Upcoming
  {
  }

  /**
   * For a workflow status before `order sent`, the step at its index is the one current
   * step, those before it are complete and those after it upcoming.
   */
  lemma OneCurrentStep(status: string)
    requires StepIndex(status) in {0, 1}
    ensures forall i :: i in Steps ==>
      (StepStatus(status, i) == Current <==> i == StepIndex(status))
      && (StepStatus(status, i) == Complete <==> i < StepIndex(status))
  {
  }

  /** The order of the workflow: each status's position in it. */
  function Stage(status: string): int {
    if status == "pending" then 0
    else if status == "verify payment" then 1
    else if status == "processing order" then 2
    else if status == "order sent" then 3
    else -1
  }

  /** Moving forward in the workflow never turns a complete step back. */
  lemma CompleteStaysComplete(a: string, b: string, stepIndex: int)
    requires 0 <= Stage(a) <= Stage(b)
    requires StepStatus(a, stepIndex) == Complete
    ensures StepStatus(b, stepIndex) == Complete
  {
  }

  // ---------------------------------------------------------------------
  // The amount sanitiser of handlePaymentFormChange

  predicate AmountChar(c: char) { IsDigit(c) || c == '.' }

  /** `value.replace(/[^\d.]/g, '')` */
  function KeepAmountChars(s: string): (r: string)
    ensures forall i :: 0 <= i < |r| ==> AmountChar(r[i])
    ensures (forall i :: 0 <= i < |s| ==> AmountChar(s[i])) ==> r == s
  {
    if s == [] then [] else (if AmountChar(s[0]) then [s[0]] else []) + KeepAmountChars(s[1..])
  }

  /** The digits of s, in order. */
  function DigitsOf(s: string): (r: string)
    ensures AllDigits(r)
  {
    if s == [] then [] else (if IsDigit(s[0]) then [s[0]] else []) + DigitsOf(s[1..])
  }

  /** Every point after the first dropped: `parts[0] + '.' + parts.slice(1).join('')` when there are several. */
  function CollapsePoints(numeric: string): string {
    var parts := Split(numeric, '.');
    if |parts| > 2 then parts[0] + "." + Join(parts[1..], "") else numeric
  }

  /** The amount field's new value. */
  function SanitizeAmount(value: string): (r: string)
    ensures IsAmount(value) && AtMostOne(value, '.') ==> r == value
  {
    if IsAmount(value) && AtMostOne(value, '.') then WellFormedAmountKept(value); CollapsePoints(value)
    else CollapsePoints(KeepAmountChars(value))
  }

  /** An amount with digits and at most one point is left as typed. */
  lemma WellFormedAmountKept(value: string)
    requires IsAmount(value) && AtMostOne(value, '.')
    ensures KeepAmountChars(value) == value && CollapsePoints(value) == value
  {
    CollapseShape(value);
    if '.' in value {
      var i := IndexOf(value, '.');
      assert '.' !in value[i + 1..] by {
        forall j | i + 1 <= j < |value| ensures value[j] != '.' {
        }
      }
      RemoveAbsent(value[i + 1..], '.');
      assert value == value[..i] + "." + value[i + 1..];
    }
  }

  predicate IsAmount(s: string) {
    forall i :: 0 <= i < |s| ==> AmountChar(s[i])
  }

  lemma SplitAtFirst(s: string)
    requires '.' in s
    ensures Split(s, '.') == [s[..IndexOf(s, '.')]] + Split(s[IndexOf(s, '.') + 1..], '.')
  {
  }

  lemma CollapseSeveral(s: string, i: nat)
    requires i < |s| && s[i] == '.' && '.' !in s[..i] && '.' in s[i + 1..]
    ensures CollapsePoints(s) == s[..i] + "." + Remove(s[i + 1..], '.')
  {
    var rest := s[i + 1..];
    SplitAtFirst(s);
    SplitAtFirst(rest);
    JoinSplitRemoves(rest, '.');
    assert Split(s, '.')[1..] == Split(rest, '.');
  }

  lemma CollapseOne(s: string, i: nat)
    requires i < |s| && s[i] == '.' && '.' !in s[..i] && '.' !in s[i + 1..]
    ensures CollapsePoints(s) == s[..i] + "." + Remove(s[i + 1..], '.')
  {
    var rest := s[i + 1..];
    SplitAtFirst(s);
    RemoveAbsent(rest, '.');
    assert s == s[..i] + "." + rest;
  }

  /** What CollapsePoints keeps: everything up to the first point, that point, and the rest without points. */
  lemma CollapseShape(s: string)
    ensures '.' !in s ==> CollapsePoints(s) == s
    ensures '.' in s ==> CollapsePoints(s) == s[..IndexOf(s, '.')] + "." + Remove(s[IndexOf(s, '.') + 1..], '.')
  {
    if '.' !in s {
      CollapseNone(s);
    } else {
      var i := IndexOf(s, '.');
      if '.' in s[i + 1..] {
        CollapseSeveral(s, i);
      } else {
        CollapseOne(s, i);
      }
    }
  }

  lemma CollapseNone(s: string)
    requires '.' !in s
    ensures CollapsePoints(s) == s
  {
    assert Split(s, '.') == [s];
  }

  /** Removing c from `a + [c] + b` when neither a nor b holds c. */
  lemma RemoveAround(a: string, b: string, c: char)
    requires c !in a && c !in b
    ensures Remove(a + [c] + b, c) == a + b
  {
    var ac := a + [c];
    assert Remove([c], c) == [] by {
      assert [c][1..] == [];
    }
    RemoveAppend(a, [c], c);
    RemoveAbsent(a, c);
    assert Remove(ac, c) == a;
    RemoveAppend(ac, b, c);
    RemoveAbsent(b, c);
  }

  /** Collapsing the points loses no digit. */
  lemma CollapseKeepsDigits(s: string)
    ensures Remove(CollapsePoints(s), '.') == Remove(s, '.')
  {
    CollapseShape(s);
    if '.' in s {
      var i := IndexOf(s, '.');
      RemoveAround(s[..i], Remove(s[i + 1..], '.'), '.');
      RemoveAtFirst(s, '.', i);
    }
  }

  lemma {:induction false} KeptDigits(s: string)
    ensures Remove(KeepAmountChars(s), '.') == DigitsOf(s)
  {
    if s != [] {
      KeptDigits(s[1..]);
      RemoveAppend(if AmountChar(s[0]) then [s[0]] else [], KeepAmountChars(s[1..]), '.');
    }
  }

  lemma {:induction false} RemoveKeepsChars(s: string, c: char)
    ensures forall x :: x in Remove(s, c) ==> x in s
  {
    if s != [] {
      RemoveKeepsChars(s[1..], c);
    }
  }

  /** In `a + "." + b` with no point in a or b, the only point is the middle one. */
  lemma PointOnlyBetween(a: string, b: string)
    requires '.' !in a && '.' !in b
    ensures var r := a + "." + b;
      forall k :: 0 <= k < |r| ==> (r[k] == '.' <==> k == |a|)
  {
    var r := a + "." + b;
    forall k | 0 <= k < |r| ensures r[k] == '.' <==> k == |a| {
      if k < |a| {
        assert r[k] == a[k];
      } else if k > |a| {
        assert r[k] == b[k - |a| - 1];
      }
    }
  }

  /** The sanitised amount holds only digits and at most one point. */
  lemma SanitizedIsAmount(value: string)
    ensures IsAmount(SanitizeAmount(value)) && AtMostOne(SanitizeAmount(value), '.')
  {
    if !(IsAmount(value) && AtMostOne(value, '.')) {
      CollapsedIsAmount(KeepAmountChars(value));
    }
  }

  /** Collapsing the points of a string of digits and points leaves at most one point. */
  lemma CollapsedIsAmount(s: string)
    requires IsAmount(s)
    ensures IsAmount(CollapsePoints(s)) && AtMostOne(CollapsePoints(s), '.')
  {
    CollapseShape(s);
    if '.' in s {
      var i := IndexOf(s, '.');
      var tail := Remove(s[i + 1..], '.');
      RemoveKeepsChars(s[i + 1..], '.');
      PointOnlyBetween(s[..i], tail);
      var r := s[..i] + "." + tail;
      forall k | 0 <= k < |r| ensures AmountChar(r[k]) {
        if k < i {
          assert r[k] == s[k];
        } else if k > i {
          assert r[k] in tail;
        }
      }
    } else {
      assert forall a, b :: 0 <= a < |s| && 0 <= b < |s| ==> s[a] != '.' && s[b] != '.';
    }
  }

  /** The sanitiser keeps every digit typed, in the order typed. */
  lemma SanitizeKeepsDigits(value: string)
    ensures Remove(SanitizeAmount(value), '.') == DigitsOf(value)
  {
    KeptDigits(value);
    CollapseKeepsDigits(KeepAmountChars(value));
  }

  /** A value the sanitiser produced passes through it unchanged. */
  lemma SanitizeIdempotent(value: string)
    ensures SanitizeAmount(SanitizeAmount(value)) == SanitizeAmount(value)
  {
    SanitizedIsAmount(value);
  }


  // ---------------------------------------------------------------------
  // The page

  /** The shown order with only its status replaced, as the page's local copy is updated. */
  function ShownWithStatus(v: OrderView, status: string): (r: OrderView)
    ensures r.id == v.id && r.order.status == status
  {
    v.(order := v.order.(status := status))
  }

  /** The tracking route `/order/:customerUserId/:orderCode`, as the links to it are built. */
  function OrderPath(userId: string, orderCode: string): string {
    "/order/" + userId + "/" + orderCode
  }

  /** The link's fixed opening is a `/`, the word `order` and another `/`. */
  lemma OrderPathShape(userId: string, orderCode: string)
    ensures OrderPath(userId, orderCode) == [] + ['/'] + ("order" + ['/'] + (userId + ['/'] + orderCode))
    ensures '/' !in "order"
  {
    assert "/order/" == ['/'] + "order" + ['/'];
  }

  /** Splitting `a/b` where neither piece holds the separator. */
  lemma SplitTwo(a: string, b: string, sep: char)
    requires sep !in a && sep !in b
    ensures Split(a + [sep] + b, sep) == [a, b]
  {
    assert Split(b, sep) == [b];
    SplitAfter(a, b, sep);
  }

  /** Splitting `a/b/c` where no piece holds the separator. */
  lemma SplitThree(a: string, b: string, c: string, sep: char)
    requires sep !in a && sep !in b && sep !in c
    ensures Split(a + [sep] + (b + [sep] + c), sep) == [a, b, c]
  {
    SplitTwo(b, c, sep);
    SplitAfter(a, b + [sep] + c, sep);
  }

  /** A link built for a user id and a code without `/` yields exactly those two route parameters. */
  lemma OrderPathParams(userId: string, orderCode: string)
    requires '/' !in userId && '/' !in orderCode
    ensures Split(OrderPath(userId, orderCode), '/') == ["", "order", userId, orderCode]
  {
    var rest := "order" + ['/'] + (userId + ['/'] + orderCode);
    var inner: seq<string> := ["order", userId, orderCode];
    assert Split(OrderPath(userId, orderCode), '/') == [[]] + Split(rest, '/') by {
      OrderPathShape(userId, orderCode);
      SplitAfter([], rest, '/');
    }
    assert Split(rest, '/') == inner by {
      OrderPathShape(userId, orderCode);
      SplitThree("order", userId, orderCode, '/');
    }
    assert [[]] + inner == ["", "order", userId, orderCode];
  }

  const OrderNotFound := "Order not found"

  /** The page's state: the order shown, the payment status, the payment modal, the error. */
  class TrackingPage {
    var order: Option<OrderView>
    var paymentStatus: string
    var showPaymentModal: bool
    var error: Option<string>
    var loading: bool

    constructor ()
      ensures order == None && paymentStatus == "pending" && !showPaymentModal && error == None && loading
    {
      order := None;
      paymentStatus := "pending";
      showPaymentModal := false;
      error := None;
      loading := true;
    }

    /** The "Send Payment" button is offered only while the payment is pending. */
    predicate SendPaymentOffered()
      reads this
    {
      paymentStatus == "pending"
    }

    /**
     * `fetchOrder` with the route's parameters: the first stored order with this code
     * that belongs to this customer, or "Order not found".
     */
    method FetchOrder(store: OrderStore, customerUserId: string, orderCode: string)
      requires store.Valid()
      modifies this
      ensures !loading && showPaymentModal == old(showPaymentModal)
      ensures customerUserId == "" || orderCode == "" ==>
        order == old(order) && paymentStatus == old(paymentStatus) && error == old(error)
      ensures customerUserId != "" && orderCode != "" ==>
        if exists id :: id in store.docs && store.docs[id].orderCode == orderCode && store.docs[id].userId == customerUserId
        then error == old(error) && order.Some?
          && order.value.id in store.docs && order.value.order == store.docs[order.value.id]
          && order.value.order.orderCode == orderCode && order.value.order.userId == customerUserId
          && paymentStatus == (if order.value.order.status != "" then order.value.order.status else "pending")
        else error == Some(OrderNotFound) && order == old(order) && paymentStatus == old(paymentStatus)
    {
      if customerUserId != "" && orderCode != "" {
        var found := store.GetOrdersByCode(orderCode, customerUserId);
        if found == [] {
          error := Some(OrderNotFound);
          assert forall id :: id in store.docs ==>
            !(store.docs[id].orderCode == orderCode && store.docs[id].userId == customerUserId) by {
            forall id | id in store.docs ensures !(store.docs[id].orderCode == orderCode && store.docs[id].userId == customerUserId) {
              assert OrderView(id, store.docs[id]) !in found;
            }
          }
        } else {
          var first := found[0];
          assert first in found;
          // The query already filters on the customer, so the ownership check that
          // reports "Unauthorized access" never fails.
          order := Some(first);
          paymentStatus := if first.order.status != "" then first.order.status else "pending";
        }
      }
      loading := false;
    }

    /** The local state after a successful submission: the shown order and the payment status follow, the modal closes. */
    method ShowPaymentSent(o: OrderView)
      modifies this
      ensures order == Some(ShownWithStatus(o, "verify payment"))
      ensures paymentStatus == "verify payment" && !showPaymentModal
      ensures error == old(error) && loading == old(loading)
    {
      order := Some(ShownWithStatus(o, "verify payment"));
      paymentStatus := "verify payment";
      showPaymentModal := false;
    }

    /**
     * `handlePaymentSubmit`: with an order shown, its stored status becomes `verify
     * payment`; on success the shown order and the payment status follow and the modal
     * closes. Without an order nothing happens.
     */
    method HandlePaymentSubmit(store: OrderStore, now: nat) returns (res: Result<()>)
      requires store.Valid()
      modifies this, store
      ensures store.Valid()
      ensures old(order).None? ==>
        res.Success? && store.Db() == old(store.Db())
        && order == old(order) && paymentStatus == old(paymentStatus) && showPaymentModal == old(showPaymentModal)
      ensures old(order).Some? ==>
        (res, store.Db()) == UpdateStatusSpec(old(store.Db()), old(order).value.id, "verify payment", now)
      ensures old(order).Some? && res.Success? ==>
        order == Some(ShownWithStatus(old(order).value, "verify payment"))
        && paymentStatus == "verify payment" && !showPaymentModal
      ensures res.Failure? ==>
        order == old(order) && paymentStatus == old(paymentStatus) && showPaymentModal == old(showPaymentModal)
      ensures error == old(error) && loading == old(loading)
    {
      if order.None? {
        return Success(());
      }
      var o := order.value;
      res := store.UpdateOrderStatus(o.id, "verify payment", now);
      if res.Success? {
        ShowPaymentSent(o);
      }
    }
  }

  /** `verify payment` is already lower case, so the stored status is exactly `verify payment`. */
  lemma PaymentSubmitStoresStatus(db: OrderDb, id: nat, now: nat)
    requires id in db.docs
    ensures UpdateStatusSpec(db, id, "verify payment", now).1.docs[id].status == "verify payment"
  {
    VerifyPaymentIsLowerCase();
    var o := WithStatus(db.docs[id], "verify payment", now);
    assert UpdateStatusSpec(db, id, "verify payment", now).1.docs[id] == o;
  }

  lemma VerifyPaymentIsLowerCase()
    ensures Lower("verify payment") == "verify payment"
  {
    LowerOfLower("verify payment");
  }
}
