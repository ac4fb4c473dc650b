/**
 * The customer dashboard (src/pages/CustomerDashboard.jsx): its status labels, the guard
 * that sends a visitor home, and the link from an order row to its tracking page.
 */
module CustomerDashboard {
  import opened Wrappers
  import opened Text
  import opened Docs
  import opened OrderService
  import opened Tracking
  import opened OrderConsole

  /** `formatStatus`: `verify payment` reads "Verifying Payment"; any other status has its words capitalised. */
  function CustomerFormatStatus(status: string): (shown: string)
    ensures SameUpToCase(shown, status) <==> status != "verify payment"
  {
    CapitalizeWordsSameUpToCase(status);
    if status == "verify payment" then "Verifying Payment" else CapitalizeWords(status)
  }

  /** The customer's labels and the console's differ on `verify payment` alone. */
  lemma LabelsDifferOnlyOnVerifyPayment(status: string)
    ensures CustomerFormatStatus(status) == FormatStatus(status) <==> status != "verify payment"
  {
  }

  /**
   * The guard `!currentUser || (!isCustomer && !currentUser?.category === 'test')`. The
   * last comparison is `(!currentUser?.category) === 'test'`: a boolean against a string,
   * which strict equality never finds equal, so only a missing user is sent home.
   */
  function RedirectsHome(currentUser: Option<Doc>, isCustomer: bool): (r: bool)
    ensures r <==> currentUser.None?
  {
    currentUser.None?
    || (!isCustomer && Bool(!FieldTruthy(currentUser.value, Category)) == Str("test"))
  }

  /** The row's link: `/order/{order.userId}/{order.orderCode}`, the route the tracking page reads. */
  function TrackingLink(o: Order): (r: string)
    ensures '/' !in o.userId && '/' !in o.orderCode ==> Split(r, '/') == ["", "order", o.userId, o.orderCode]
  {
    if '/' !in o.userId && '/' !in o.orderCode then
      OrderPathParams(o.userId, o.orderCode);
      OrderPath(o.userId, o.orderCode)
    else
      OrderPath(o.userId, o.orderCode)
  }
}
