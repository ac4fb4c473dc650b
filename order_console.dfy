/**
 * The admin order console (src/pages/OrderConsole.jsx): status labels, the revenue and
 * customer statistics, the status badge that opens a confirmation, the confirmations that
 * move an order one step along the workflow, and the follow-up warning. The franchise
 * dashboard shares the labels, the badge and the confirmations.
 */
module OrderConsole {
  import opened Wrappers
  import opened Text
  import opened OrderService
  import opened Tracking

  // ---------------------------------------------------------------------
  // formatStatus

  /** `word.charAt(0).toUpperCase() + word.slice(1)` */
  function Capitalize(w: string): string {
    if w == [] then [] else [UpperChar(w[0])] + w[1..]
  }

  /** `status.split(' ').map(Capitalize).join(' ')` */
  function CapitalizeWords(s: string): string {
    var parts := Split(s, ' ');
    Join(seq(|parts|, i requires 0 <= i < |parts| => Capitalize(parts[i])), " ")
  }

  /** The character at i of a word-capitalised string: upper-cased at a word start, unchanged elsewhere. */
  function CapitalizedAt(s: string, i: nat): char
    requires i < |s|
  {
    if i == 0 || s[i - 1] == ' ' then UpperChar(s[i]) else s[i]
  }

  lemma CapitalizeNoSpace(s: string)
    requires ' ' !in s
    ensures CapitalizeWords(s) == Capitalize(s)
  {
    assert Split(s, ' ') == [s];
  }

  lemma CapitalizeAtSpace(s: string, k: nat)
    requires k < |s| && s[k] == ' ' && ' ' !in s[..k]
    ensures CapitalizeWords(s) == Capitalize(s[..k]) + " " + CapitalizeWords(s[k + 1..])
  {
    var rest := Split(s[k + 1..], ' ');
    var parts := Split(s, ' ');
    assert IndexOf(s, ' ') == k;
    assert parts == [s[..k]] + rest;
    var caps := seq(|parts|, i requires 0 <= i < |parts| => Capitalize(parts[i]));
    var restCaps := seq(|rest|, i requires 0 <= i < |rest| => Capitalize(rest[i]));
    assert caps == [Capitalize(s[..k])] + restCaps;
    assert caps[1..] == restCaps;
  }

  /** Capitalising the words upper-cases the first letter of every word and changes nothing else. */
  lemma {:induction false} CapitalizeWordsAt(s: string)
    ensures |CapitalizeWords(s)| == |s|
    ensures forall i :: 0 <= i < |s| ==> CapitalizeWords(s)[i] == CapitalizedAt(s, i)
    decreases |s|
  {
    var r := CapitalizeWords(s);
    if ' ' in s {
      var k := IndexOf(s, ' ');
      var rest := s[k + 1..];
      CapitalizeAtSpace(s, k);
      CapitalizeWordsAt(rest);
      var head := Capitalize(s[..k]);
      assert r == head + " " + CapitalizeWords(rest);
      forall i | 0 <= i < |s| ensures r[i] == CapitalizedAt(s, i) {
        if i < k {
          assert r[i] == head[i];
          assert i > 0 ==> s[i - 1] == s[..k][i - 1];
        } else if i > k {
          assert r[i] == CapitalizeWords(rest)[i - k - 1];
          assert s[i] == rest[i - k - 1];
          assert i - k - 1 > 0 ==> s[i - 1] == rest[i - k - 2];
        }
      }
    } else {
      CapitalizeNoSpace(s);
      forall i | 0 <= i < |s| ensures r[i] == CapitalizedAt(s, i) {
        assert i > 0 ==> s[i - 1] in s;
      }
    }
  }

  /** Two strings that differ at most in letter case. */
  predicate SameUpToCase(a: string, b: string) {
    |a| == |b| && forall i :: 0 <= i < |a| ==> LowerChar(a[i]) == LowerChar(b[i])
  }

  lemma LowerOfUpper(c: char)
    ensures LowerChar(UpperChar(c)) == LowerChar(c)
  {
  }

  /** Capitalising changes only letter case. */
  lemma CapitalizeWordsSameUpToCase(s: string)
    ensures SameUpToCase(CapitalizeWords(s), s)
  {
    CapitalizeWordsAt(s);
    forall i | 0 <= i < |s| ensures LowerChar(CapitalizeWords(s)[i]) == LowerChar(s[i]) {
      LowerOfUpper(s[i]);
    }
  }

  /**
   * `formatStatus`: the three workflow statuses by name, any other with its words capitalised.
   * The named labels are exactly what word capitalisation gives, so the special cases change nothing.
   */
  function FormatStatus(status: string): (shown: string)
    ensures shown == CapitalizeWords(status)
  {
    LabelVerifyPayment();
    LabelProcessingOrder();
    LabelOrderSent();
    if status == "verify payment" then "Verify Payment"
    else if status == "processing order" then "Processing Order"
    else if status == "order sent" then "Order Sent"
    else CapitalizeWords(status)
  }

  lemma CapitalizeTwoWords(a: string, b: string)
    requires ' ' !in a && ' ' !in b && a != [] && b != []
    ensures CapitalizeWords(a + " " + b) == Capitalize(a) + " " + Capitalize(b)
  {
    var s := a + " " + b;
    assert s[..|a|] == a && s[|a| + 1..] == b;
    CapitalizeAtSpace(s, |a|);
    CapitalizeNoSpace(b);
  }

  /** A two-word status whose words start with a lower-case letter. */
  lemma CapitalizeStatus(a: string, b: string, title: string)
    requires ' ' !in a && ' ' !in b && a != [] && b != [] && IsLowerAlpha(a[0]) && IsLowerAlpha(b[0])
    requires title == [UpperChar(a[0])] + a[1..] + " " + [UpperChar(b[0])] + b[1..]
    ensures CapitalizeWords(a + " " + b) == title
  {
    CapitalizeTwoWords(a, b);
  }

  lemma LabelVerifyPayment()
    ensures CapitalizeWords("verify payment") == "Verify Payment"
  {
    assert "verify payment" == "verify" + " " + "payment";
    CapitalizeStatus("verify", "payment", "Verify Payment");
  }

  lemma LabelProcessingOrder()
    ensures CapitalizeWords("processing order") == "Processing Order"
  {
    assert "processing order" == "processing" + " " + "order";
    CapitalizeStatus("processing", "order", "Processing Order");
  }

  lemma LabelOrderSent()
    ensures CapitalizeWords("order sent") == "Order Sent"
  {
    assert "order sent" == "order" + " " + "sent";
    CapitalizeStatus("order", "sent", "Order Sent");
  }

  /** A status label differs from the status only in letter case. */
  lemma FormatStatusSameUpToCase(status: string)
    ensures SameUpToCase(FormatStatus(status), status)
  {
    CapitalizeWordsSameUpToCase(status);
  }

  // ---------------------------------------------------------------------
  // updateStatistics

  /**
   * `orders.reduce((t, o) => t + o.totalAmount, 0)`: an order without a total makes the
   * sum NaN, here None.
   */
  function ConsoleRevenue(orders: seq<OrderView>): (r: Option<int>)
    ensures r.Some? <==> forall i :: 0 <= i < |orders| ==> orders[i].order.totalAmount.Some?
  {
    if orders == [] then Some(0)
    else
      var rest := ConsoleRevenue(orders[1..]);
      assert forall i :: 1 <= i < |orders| ==> orders[i] == orders[1..][i - 1];
      if orders[0].order.totalAmount.None? || rest.None? then None
      else Some(orders[0].order.totalAmount.value + rest.value)
  }

  /** `orders.reduce((s, o) => s + (o.totalAmount || 0), 0)`, as the franchise dashboard sums. */
  function Revenue(orders: seq<OrderView>): (sum: int)
    ensures (forall i :: 0 <= i < |orders| ==> orders[i].order.totalAmount.GetOr(0) >= 0) ==> sum >= 0
  {
    if orders == [] then 0 else orders[0].order.totalAmount.GetOr(0) + Revenue(orders[1..])
  }

  /** Where every order has a total, the console's sum and the dashboard's agree. */
  lemma {:induction false} RevenuesAgree(orders: seq<OrderView>)
    requires forall i :: 0 <= i < |orders| ==> orders[i].order.totalAmount.Some?
    ensures ConsoleRevenue(orders) == Some(Revenue(orders))
  {
    if orders != [] {
      assert forall i :: 0 <= i < |orders[1..]| ==> orders[1..][i] == orders[i + 1];
      RevenuesAgree(orders[1..]);
    }
  }

  /** `new Set(orders.map(o => o.userId))` */
  function Customers(orders: seq<OrderView>): (r: set<string>)
    ensures forall u :: u in r <==> exists i :: 0 <= i < |orders| && orders[i].order.userId == u
  {
    set i | 0 <= i < |orders| :: orders[i].order.userId
  }

  /** There are never more distinct customers than orders. */
  lemma {:induction false} CustomersAtMostOrders(orders: seq<OrderView>)
    ensures |Customers(orders)| <= |orders|
  {
    if orders != [] {
      var rest := orders[1..];
      CustomersAtMostOrders(rest);
      assert Customers(orders) == {orders[0].order.userId} + Customers(rest) by {
        forall u | u in Customers(orders) ensures u in {orders[0].order.userId} + Customers(rest) {
          var i :| 0 <= i < |orders| && orders[i].order.userId == u;
          if i > 0 {
            assert rest[i - 1] == orders[i];
          }
        }
        forall u | u in Customers(rest) ensures u in Customers(orders) {
          var i :| 0 <= i < |rest| && rest[i].order.userId == u;
          assert orders[i + 1] == rest[i];
        }
      }
    }
  }

  // ---------------------------------------------------------------------
  // The status badge and the confirmations

  datatype Modal = PaymentModal | ShippingModal

  /** The badge's click handler: which confirmation a status opens, if any. */
  function ClickAction(status: string): (m: Option<Modal>)
    ensures m == Some(PaymentModal) <==> status == "verify payment"
    ensures m == Some(ShippingModal) <==> status == "processing order"
    ensures m.None? <==> status != "verify payment" && status != "processing order"
  {
    if status == "verify payment" then Some(PaymentModal)
    else if status == "processing order" then Some(ShippingModal)
    else None
  }

  /**
   * The status a confirmation writes: the confirm button calls the payment handler when
   * the modal type is `payment` and the shipping handler otherwise.
   */
  function ConfirmTarget(modal: Option<Modal>): (status: string)
    ensures Stage(status) == (if modal == Some(PaymentModal) then 2 else 3)
  {
    if modal == Some(PaymentModal) then "processing order" else "order sent"
  }

  /** A badge click followed by its confirmation moves the order exactly one step along the workflow. */
  lemma ConfirmAdvancesOneStep(status: string)
    requires ClickAction(status).Some?
    ensures Stage(ConfirmTarget(ClickAction(status))) == Stage(status) + 1
  {
  }

  /** Both targets are already lower case, so the store keeps them as written. */
  lemma TargetIsLowerCase(modal: Option<Modal>)
    ensures Lower(ConfirmTarget(modal)) == ConfirmTarget(modal)
  {
    if modal == Some(PaymentModal) {
      LowerOfLower("processing order");
    } else {
      LowerOfLower("order sent");
    }
  }

  /** `orders.map(o => o.id === id ? {...o, status} : o)` */
  function ReplaceStatus(orders: seq<OrderView>, id: nat, status: string): (r: seq<OrderView>)
    ensures |r| == |orders|
    ensures forall i :: 0 <= i < |r| ==>
      r[i].id == orders[i].id && (orders[i].id != id ==> r[i] == orders[i])
    ensures forall i :: 0 <= i < |r| && orders[i].id == id ==>
      r[i].order.status == status && r[i].order.(status := orders[i].order.status) == orders[i].order
  {
    seq(|orders|, i requires 0 <= i < |orders| =>
      if orders[i].id == id then ShownWithStatus(orders[i], status) else orders[i])
  }

  /** The local status change leaves the revenue alone. */
  lemma {:induction false} ReplaceStatusKeepsRevenue(orders: seq<OrderView>, id: nat, status: string)
    ensures Revenue(ReplaceStatus(orders, id, status)) == Revenue(orders)
    ensures ConsoleRevenue(ReplaceStatus(orders, id, status)) == ConsoleRevenue(orders)
  {
    if orders != [] {
      var r := ReplaceStatus(orders, id, status);
      assert r[1..] == ReplaceStatus(orders[1..], id, status);
      ReplaceStatusKeepsRevenue(orders[1..], id, status);
    }
  }

  /** The local status change leaves the customers alone. */
  lemma ReplaceStatusKeepsCustomers(orders: seq<OrderView>, id: nat, status: string)
    ensures Customers(ReplaceStatus(orders, id, status)) == Customers(orders)
  {
    var r := ReplaceStatus(orders, id, status);
    assert forall i :: 0 <= i < |r| ==> r[i].order.userId == orders[i].order.userId;
  }

  /** The warning icon: the customer followed up and the order is no longer pending. */
  predicate FollowUpWarning(o: Order) {
    o.followUp == Some(true) && o.status != "pending"
  }

  /** Any status write clears the warning, and a follow-up raises it unless the order is pending. */
  lemma FollowUpWarningRules(o: Order, status: string, followUp: bool, now: nat)
    ensures !FollowUpWarning(WithStatus(o, status, now))
    ensures FollowUpWarning(WithFollowUp(o, followUp, now)) <==> followUp && o.status != "pending"
  {
  }

  /** The console's list and selection. */
  class OrderBoard {
    var orders: seq<OrderView>
    var selected: Option<OrderView>
    var modal: Option<Modal>
    var showConfirmModal: bool

    constructor ()
      ensures orders == [] && selected == None && modal == None && !showConfirmModal
    {
      orders := [];
      selected := None;
      modal := None;
      showConfirmModal := false;
    }

    /** The selection and the modal type came from a badge click. */
    predicate Consistent()
      reads this
    {
      selected.Some? ==> ClickAction(selected.value.order.status) == modal && modal.Some?
    }

    /** The listener on the orders of one franchise (`default` for the console), newest first. */
    method LoadOrders(store: OrderStore, franchiseId: string)
      requires store.Valid()
      modifies this
      ensures forall v :: v in orders <==>
        v.id in store.docs && v.order == store.docs[v.id] && v.order.franchiseId == franchiseId
      ensures NewestFirst(orders)
      ensures selected == old(selected) && modal == old(modal) && showConfirmModal == old(showConfirmModal)
    {
      orders := store.GetOrdersByFranchiseId(franchiseId);
    }

    /** The badge's click: a confirmation opens for `verify payment` and `processing order` only. */
    method StatusClick(o: OrderView)
      modifies this
      ensures ClickAction(o.order.status).Some? ==>
        selected == Some(o) && modal == ClickAction(o.order.status) && showConfirmModal && Consistent()
      ensures ClickAction(o.order.status).None? ==>
        selected == old(selected) && modal == old(modal) && showConfirmModal == old(showConfirmModal)
      ensures orders == old(orders)
    {
      var action := ClickAction(o.order.status);
      if action.Some? {
        selected := Some(o);
        modal := action;
        showConfirmModal := true;
      }
    }

    /** Cancel or close: the modal closes and the selection clears. */
    method Dismiss()
      modifies this
      ensures selected == None && !showConfirmModal && Consistent()
      ensures orders == old(orders) && modal == old(modal)
    {
      showConfirmModal := false;
      selected := None;
    }

    /** The list after a successful confirmation: the selected order's status replaced, the modal closed. */
    method ShowConfirmed(id: nat, status: string)
      modifies this
      ensures orders == ReplaceStatus(old(orders), id, status)
      ensures selected == None && !showConfirmModal && modal == old(modal)
    {
      orders := ReplaceStatus(orders, id, status);
      showConfirmModal := false;
      selected := None;
    }

    /**
     * `handlePaymentConfirmation` / `handleShippingConfirmation`, as the confirm button
     * picks them: nothing without a selection; otherwise the stored status is written and,
     * on success, the selected order alone changes in the list.
     */
    method Confirm(store: OrderStore, now: nat) returns (res: Result<()>)
      requires store.Valid()
      modifies this, store
      ensures store.Valid()
      ensures old(selected).None? ==>
        res.Success? && store.Db() == old(store.Db()) && orders == old(orders)
        && selected == old(selected) && showConfirmModal == old(showConfirmModal)
      ensures old(selected).Some? ==>
        (res, store.Db()) == UpdateStatusSpec(old(store.Db()), old(selected).value.id, ConfirmTarget(old(modal)), now)
      ensures old(selected).Some? && res.Success? ==>
        orders == ReplaceStatus(old(orders), old(selected).value.id, ConfirmTarget(old(modal)))
        && selected == None && !showConfirmModal
      ensures res.Failure? ==>
        orders == old(orders) && selected == old(selected) && showConfirmModal == old(showConfirmModal)
      ensures modal == old(modal)
    {
      if selected.None? {
        return Success(());
      }
      var id := selected.value.id;
      var target := ConfirmTarget(modal);
      res := store.UpdateOrderStatus(id, target, now);
      if res.Success? {
        ShowConfirmed(id, target);
      }
    }
  }

  /**
   * A confirmation opened from the badge of an order writes the next workflow status to
   * that order, in the store as in the list.
   */
  lemma ConfirmedOrderAdvances(db: OrderDb, v: OrderView, orders: seq<OrderView>, now: nat)
    requires v.id in db.docs && ClickAction(v.order.status).Some? && db.docs[v.id].status == v.order.status
    ensures var target := ConfirmTarget(ClickAction(v.order.status));
      var db' := UpdateStatusSpec(db, v.id, target, now).1;
      Stage(db'.docs[v.id].status) == Stage(v.order.status) + 1
      && forall i :: 0 <= i < |orders| && orders[i].id == v.id ==>
        Stage(ReplaceStatus(orders, v.id, target)[i].order.status) == Stage(v.order.status) + 1
  {
    ConfirmAdvancesOneStep(v.order.status);
    TargetIsLowerCase(ClickAction(v.order.status));
  }
}
