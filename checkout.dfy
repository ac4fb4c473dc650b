/**
 * The checkout page (src/pages/Checkout.jsx): the phone-number sanitiser, and the two
 * submit procedures that may sign a guest up as a customer and then place the order.
 */
module Checkout {
  import opened Wrappers
  import opened Text
  import opened Docs
  import opened OrderService
  import opened UserService
  import opened Tracking

  // ---------------------------------------------------------------------
  // The phone sanitiser

  predicate PhoneChar(c: char) { IsDigit(c) || c == '+' }

  /** `value.replace(/[^\d+]/g, '')` */
  function KeepPhoneChars(s: string): (r: string)
    ensures |r| <= |s|
    ensures forall i :: 0 <= i < |r| ==> PhoneChar(r[i])
    ensures (forall i :: 0 <= i < |s| ==> PhoneChar(s[i])) ==> r == s
  {
    if s == [] then [] else (if PhoneChar(s[0]) then [s[0]] else []) + KeepPhoneChars(s[1..])
  }

  /** `.replace(/\+/g, (m, index) => index === 0 ? m : '')`: a `+` survives only as the first character. */
  function PlusOnlyFirst(cleaned: string): (r: string)
    ensures |r| <= |cleaned|
  {
    if cleaned != [] && cleaned[0] == '+' then
      RemoveShorter(cleaned[1..], '+');
      "+" + Remove(cleaned[1..], '+')
    else
      RemoveShorter(cleaned, '+');
      Remove(cleaned, '+')
  }

  /** A number of digits and `+` signs, with a `+` only in first position. */
  predicate WellFormedPhone(s: string) {
    (forall i :: 0 <= i < |s| ==> PhoneChar(s[i])) && forall i :: 0 < i < |s| ==> s[i] != '+'
  }

  /** The phone fields' sanitiser in `handleInputChange`: a well-formed number is left as typed. */
  function SanitizePhone(value: string): (r: string)
    ensures |r| <= |value|
    ensures WellFormedPhone(value) ==> r == value
  {
    if WellFormedPhone(value) then WellFormedPhoneKept(value); PlusOnlyFirst(value)
    else PlusOnlyFirst(KeepPhoneChars(value))
  }

  lemma WellFormedPhoneKept(value: string)
    requires WellFormedPhone(value)
    ensures KeepPhoneChars(value) == value && PlusOnlyFirst(value) == value
  {
    if value != [] {
      assert '+' !in value[1..] by {
        forall j | 0 <= j < |value[1..]| ensures value[1..][j] != '+' {
          assert value[1..][j] == value[j + 1];
        }
      }
      RemoveAbsent(value[1..], '+');
      if value[0] != '+' {
        RemoveAbsent(value, '+');
      }
      assert value == [value[0]] + value[1..];
    }
  }

  /** The autofill's `formatPhoneNumber`: an absent or empty number becomes ''. */
  function FormatPhoneNumber(phone: Option<string>): (r: string)
    ensures !Present(phone) ==> r == ""
    ensures Present(phone) && WellFormedPhone(phone.value) ==> r == phone.value
  {
    if !Present(phone) then "" else SanitizePhone(phone.value)
  }

  /** The autofill formatter applies the input sanitiser's rule. */
  lemma FormatPhoneIsSanitize(phone: string)
    ensures FormatPhoneNumber(Some(phone)) == SanitizePhone(phone)
  {
  }

  lemma {:induction false} RemoveKeepsPhoneChars(s: string)
    requires forall i :: 0 <= i < |s| ==> PhoneChar(s[i])
    ensures forall i :: 0 <= i < |Remove(s, '+')| ==> IsDigit(Remove(s, '+')[i])
  {
    if s != [] {
      RemoveKeepsPhoneChars(s[1..]);
      var head: string := if s[0] == '+' then [] else [s[0]];
      assert Remove(s, '+') == head + Remove(s[1..], '+');
    }
  }

  /** The sanitised number holds only digits and `+`, and a `+` only in first position. */
  lemma SanitizedPhoneShape(value: string)
    ensures var r := SanitizePhone(value);
      (forall i :: 0 <= i < |r| ==> PhoneChar(r[i]))
      && (forall i :: 0 <= i < |r| && r[i] == '+' ==> i == 0)
  {
    var c := KeepPhoneChars(value);
    var r := SanitizePhone(value);
    if c != [] && c[0] == '+' {
      var tail := Remove(c[1..], '+');
      RemoveKeepsPhoneChars(c[1..]);
      assert forall i :: 1 <= i < |r| ==> r[i] == tail[i - 1];
    } else {
      RemoveKeepsPhoneChars(c);
    }
  }

  lemma {:induction false} KeptPhoneDigits(s: string)
    ensures Remove(KeepPhoneChars(s), '+') == DigitsOf(s)
  {
    if s != [] {
      KeptPhoneDigits(s[1..]);
      RemoveAppend(if PhoneChar(s[0]) then [s[0]] else [], KeepPhoneChars(s[1..]), '+');
    }
  }

  lemma RemoveTwice(s: string, c: char)
    ensures Remove(Remove(s, c), c) == Remove(s, c)
  {
    RemoveAbsent(Remove(s, c), c);
  }

  /** Dropping the later `+` signs loses no digit: the digits come out in the order typed. */
  lemma SanitizePhoneKeepsDigits(value: string)
    ensures Remove(SanitizePhone(value), '+') == DigitsOf(value)
  {
    var c := KeepPhoneChars(value);
    KeptPhoneDigits(value);
    if c != [] && c[0] == '+' {
      var tail := Remove(c[1..], '+');
      RemoveAppend("+", tail, '+');
      assert Remove("+", '+') == [] by {
        assert "+"[1..] == [];
      }
      RemoveTwice(c[1..], '+');
      assert c == "+" + c[1..];
      RemoveAppend("+", c[1..], '+');
    } else {
      RemoveTwice(c, '+');
    }
  }

  /** Sanitising a sanitised number changes nothing. */
  lemma SanitizePhoneIdempotent(value: string)
    ensures SanitizePhone(SanitizePhone(value)) == SanitizePhone(value)
  {
    var r := SanitizePhone(value);
    SanitizedPhoneShape(value);
    assert KeepPhoneChars(r) == r;
    if r != [] && r[0] == '+' {
      assert '+' !in r[1..] by {
        forall i | 0 <= i < |r[1..]| ensures r[1..][i] != '+' {
          assert r[1..][i] == r[i + 1];
        }
      }
      RemoveAbsent(r[1..], '+');
      assert r == "+" + r[1..];
    } else {
      assert '+' !in r by {
        forall i | 0 <= i < |r| ensures r[i] != '+' {
          assert i == 0 ==> r[0] != '+';
        }
      }
      RemoveAbsent(r, '+');
    }
  }

  // ---------------------------------------------------------------------
  // The form and the payloads

  /** The checkout form: every key starts as '' (`countryCode` as 'US'). */
  type Form = map<string, string>

  function FormValue(form: Form, key: string): string {
    if key in form then form[key] else ""
  }

  /** `handleInputChange`: the phone fields are sanitised, any other field taken as typed. */
  function InputChange(form: Form, name: string, value: string): (r: Form)
    ensures r.Keys == form.Keys + {name}
    ensures forall k :: k in form && k != name ==> r[k] == form[k]
    ensures name == "primaryPhone" || name == "secondaryPhone" ==> r[name] == SanitizePhone(value)
    ensures name != "primaryPhone" && name != "secondaryPhone" ==> r[name] == value
  {
    if name == "primaryPhone" || name == "secondaryPhone" then form[name := SanitizePhone(value)]
    else form[name := value]
  }

  /** The record both procedures pass to `createUser` for a new customer. */
  function SignupRecord(form: Form, id: string, password: string): Doc {
    map[Email := Str(FormValue(form, "email")), FirstName := Str(FormValue(form, "firstName")),
        LastName := Str(FormValue(form, "lastName")), Password := Str(password),
        Category := Str("customer"), Id := Str(id), UserId := Str(id),
        PrimaryPhone := Str(FormValue(form, "primaryPhone")), SecondaryPhone := Str(FormValue(form, "secondaryPhone")),
        Phone := Str(FormValue(form, "primaryPhone")), Address := Str(FormValue(form, "address")),
        City := Str(FormValue(form, "city")), State := Str(FormValue(form, "state")),
        Country := Str(FormValue(form, "country")), CountryCode := Str(FormValue(form, "countryCode")),
        ZipCode := Str(FormValue(form, "zipCode")), CardNumber := Str(FormValue(form, "cardNumber")),
        Cvv := Str(FormValue(form, "cvv")), ExpiryDate := Str(FormValue(form, "expiryDate"))]
  }

  /** `storeData?.franchiseId || 'default'` */
  function FranchiseFor(franchiseId: Option<string>): (r: string)
    ensures r != ""
    ensures Present(franchiseId) ==> r == franchiseId.value
  {
    if Present(franchiseId) then franchiseId.value else "default"
  }

  /** The order the page asks `createOrder` for. */
  function OrderPayload(form: Form, userId: string, cart: seq<Item>, storeSlug: string, franchiseId: Option<string>): (r: OrderInput)
    ensures r.userId == userId && r.items == cart && r.franchiseId == FranchiseFor(franchiseId)
    ensures "country" in r.shippingAddress && r.shippingAddress["country"] == FormValue(form, "countryCode")
  {
    OrderInput(userId, FranchiseFor(franchiseId), cart,
      map["address" := FormValue(form, "address"), "city" := FormValue(form, "city"),
          "state" := FormValue(form, "state"), "zipCode" := FormValue(form, "zipCode"),
          "country" := FormValue(form, "countryCode")],
      map["firstName" := FormValue(form, "firstName"), "lastName" := FormValue(form, "lastName"),
          "email" := FormValue(form, "email"), "primaryPhone" := FormValue(form, "primaryPhone"),
          "secondaryPhone" := FormValue(form, "secondaryPhone"), "phone" := FormValue(form, "primaryPhone")],
      FormValue(form, "sellerMessage"), storeSlug)
  }

  // ---------------------------------------------------------------------
  // handleSubmit and handlePasswordSubmit

  datatype Outcome =
    | StoreNotLoaded      // "Store information is not properly loaded. Please try again."
    | AskPassword         // the password modal opens
    | EmailRegistered     // "This email is already registered. ..."
    | PasswordsDiffer     // "Passwords do not match!"
    | OrderError          // "Error creating order. Please try again."
    | Navigate(path: string)

  /** `createOrder`, then the tracking page of the order it reports. */
  function PlaceOrder(odb: OrderDb, input: OrderInput, tracking: string, now: nat): (Outcome, OrderDb) {
    var (r, odb1) := CreateOrderSpec(odb, input, tracking, now);
    if r.Failure? then (OrderError, odb1)
    else (Navigate(OrderPath(r.value.customerUserId, r.value.orderCodeWithFranchise)), odb1)
  }

  /** `handleSubmit` over the users and orders collections. */
  function SubmitSpec(udb: UserDb, odb: OrderDb, form: Form, cart: seq<Item>, storeSlug: string,
                      franchiseId: Option<string>, currentUserId: Option<string>, tracking: string, now: nat)
    : (r: (Outcome, UserDb, OrderDb))
    ensures Present(currentUserId) || r.0 in {StoreNotLoaded, AskPassword, EmailRegistered} ==> r.1 == udb
    ensures udb.users.Keys <= r.1.users.Keys
    ensures r.0.Navigate? ==> Present(franchiseId) && r.2.nextId == odb.nextId + 1
  {
    if !Present(franchiseId) then (StoreNotLoaded, udb, odb)
    else if Present(currentUserId) then
      var (out, odb1) := PlaceOrder(odb, OrderPayload(form, currentUserId.value, cart, storeSlug, franchiseId), tracking, now);
      (out, udb, odb1)
    else if FormValue(form, "password") == "" then (AskPassword, udb, odb)
    else if EmailTaken(udb, Str(FormValue(form, "email"))) then (EmailRegistered, udb, odb)
    else
      var (generated, udb1) := NextUserIdSpec(udb, "cu");
      var (created, udb2) := CreateUserSpec(udb1, SignupRecord(form, generated, FormValue(form, "password")), now);
      if created.Failure? then (OrderError, udb2, odb)
      else
        var (out, odb1) := PlaceOrder(odb, OrderPayload(form, created.value, cart, storeSlug, franchiseId), tracking, now);
        (out, udb2, odb1)
  }

  /** `getOrdersByCode(code, userId)` finds something. */
  predicate Found(odb: OrderDb, orderCode: string, userId: string) {
    exists id | id in odb.docs :: odb.docs[id].orderCode == orderCode && odb.docs[id].userId == userId
  }

  /**
   * The password path's order (its payload has no store slug), then the lookup
   * `getOrdersByCode(orderCode, userId)` before navigating.
   */
  function OrderForNewCustomer(odb: OrderDb, input: OrderInput, tracking: string, now: nat): (Outcome, OrderDb) {
    var (r, odb1) := CreateOrderSpec(odb, input, tracking, now);
    if r.Failure? then (OrderError, odb1)
    else if Found(odb1, r.value.orderCode, input.userId) then (Navigate(OrderPath(input.userId, r.value.orderCode)), odb1)
    else (OrderError, odb1)
  }

  /**
   * `handlePasswordSubmit` as written: the order, the session and the link use the id
   * the counter produced, even when `createUser` stored the customer under another id.
   */
  function PasswordSubmitAsWritten(udb: UserDb, odb: OrderDb, form: Form, password: string, confirm: string,
                                   cart: seq<Item>, franchiseId: Option<string>, tracking: string, now: nat)
    : (Outcome, UserDb, OrderDb)
  {
    if password != confirm then (PasswordsDiffer, udb, odb)
    else if EmailTaken(udb, Str(FormValue(form, "email"))) then (EmailRegistered, udb, odb)
    else
      var (generated, udb1) := NextUserIdSpec(udb, "cu");
      var (created, udb2) := CreateUserSpec(udb1, SignupRecord(form, generated, password), now);
      if created.Failure? then (OrderError, udb2, odb)
      else
        var (out, odb1) := OrderForNewCustomer(odb, OrderPayload(form, generated, cart, "", franchiseId), tracking, now);
        (out, udb2, odb1)
  }

  /** `handlePasswordSubmit`, with the order placed for the id the customer was stored under. */
  function PasswordSubmitSpec(udb: UserDb, odb: OrderDb, form: Form, password: string, confirm: string,
                              cart: seq<Item>, franchiseId: Option<string>, tracking: string, now: nat)
    : (r: (Outcome, UserDb, OrderDb))
    ensures r.0 == PasswordsDiffer <==> password != confirm
    ensures r.0 in {PasswordsDiffer, EmailRegistered} ==> r.1 == udb && r.2 == odb
    ensures udb.users.Keys <= r.1.users.Keys
    ensures r.0.Navigate? ==> r.2.nextId == odb.nextId + 1
  {
    if password != confirm then (PasswordsDiffer, udb, odb)
    else if EmailTaken(udb, Str(FormValue(form, "email"))) then (EmailRegistered, udb, odb)
    else
      var (generated, udb1) := NextUserIdSpec(udb, "cu");
      var (created, udb2) := CreateUserSpec(udb1, SignupRecord(form, generated, password), now);
      if created.Failure? then (OrderError, udb2, odb)
      else
        var (out, odb1) := OrderForNewCustomer(odb, OrderPayload(form, created.value, cart, "", franchiseId), tracking, now);
        (out, udb2, odb1)
  }

  /** The id the password path's new customer is stored under; None when no customer is created. */
  function NewCustomerId(udb: UserDb, form: Form, password: string, now: nat): (r: Option<string>)
    ensures r.Some? ==> !EmailTaken(udb, Str(FormValue(form, "email")))
    ensures r.Some? ==> r.value !in udb.users
  {
    if EmailTaken(udb, Str(FormValue(form, "email"))) then None
    else
      var (generated, udb1) := NextUserIdSpec(udb, "cu");
      match CreateUserSpec(udb1, SignupRecord(form, generated, password), now).0
      case Success(id) => Some(id)
      case Failure(_) => None
  }

  // ---------------------------------------------------------------------
  // Properties of the procedures

  /**
   * The guards, in order: no franchise id stops everything; a guest without a password
   * only gets the password modal; a guest whose email is known gets an error. None of
   * them writes anything.
   */
  lemma SubmitGuards(udb: UserDb, odb: OrderDb, form: Form, cart: seq<Item>, storeSlug: string,
                     franchiseId: Option<string>, currentUserId: Option<string>, tracking: string, now: nat)
    ensures !Present(franchiseId) ==>
      SubmitSpec(udb, odb, form, cart, storeSlug, franchiseId, currentUserId, tracking, now) == (StoreNotLoaded, udb, odb)
    ensures Present(franchiseId) && !Present(currentUserId) && FormValue(form, "password") == "" ==>
      SubmitSpec(udb, odb, form, cart, storeSlug, franchiseId, currentUserId, tracking, now) == (AskPassword, udb, odb)
    ensures (Present(franchiseId) && !Present(currentUserId) && FormValue(form, "password") != ""
             && EmailTaken(udb, Str(FormValue(form, "email")))) ==>
      SubmitSpec(udb, odb, form, cart, storeSlug, franchiseId, currentUserId, tracking, now) == (EmailRegistered, udb, odb)
  {
  }

  /**
   * Whenever the page navigates, it is to the tracking page of the order it has just
   * created: a new document, for the user and code in the link, at the store's franchise.
   */
  lemma PlaceOrderNavigatesToNewOrder(odb: OrderDb, input: OrderInput, tracking: string, now: nat)
    requires WellFormed(odb)
    ensures var (out, odb1) := PlaceOrder(odb, input, tracking, now);
      out.Navigate? ==>
        odb.nextId in odb1.docs && odb.nextId !in odb.docs
        && out.path == OrderPath(odb1.docs[odb.nextId].userId, odb1.docs[odb.nextId].orderCode)
        && odb1.docs[odb.nextId].franchiseId == input.franchiseId
  {
    if input.userId != "" && input.franchiseId != "" && "country" in input.shippingAddress {
      CreateOrderStores(odb, input, tracking, now);
    }
  }

  /** With a store loaded, the order goes to the store's franchise, never to 'default' in its place. */
  lemma SubmitOrderFranchise(form: Form, userId: string, cart: seq<Item>, storeSlug: string, franchiseId: Option<string>)
    requires Present(franchiseId)
    ensures OrderPayload(form, userId, cart, storeSlug, franchiseId).franchiseId == franchiseId.value
  {
  }

  /** A password mismatch, or a known email, stops the password path before anything is written. */
  lemma PasswordSubmitGuards(udb: UserDb, odb: OrderDb, form: Form, password: string, confirm: string,
                             cart: seq<Item>, franchiseId: Option<string>, tracking: string, now: nat)
    ensures password != confirm ==>
      PasswordSubmitSpec(udb, odb, form, password, confirm, cart, franchiseId, tracking, now) == (PasswordsDiffer, udb, odb)
    ensures password == confirm && EmailTaken(udb, Str(FormValue(form, "email"))) ==>
      PasswordSubmitSpec(udb, odb, form, password, confirm, cart, franchiseId, tracking, now) == (EmailRegistered, udb, odb)
  {
  }

  /**
   * The lookup before navigating always finds the order just placed, so a placed order
   * always leads to its tracking page, for the id the customer was stored under.
   */
  lemma NewCustomerOrderIsFound(odb: OrderDb, input: OrderInput, tracking: string, now: nat)
    requires WellFormed(odb)
    requires input.userId != "" && input.franchiseId != "" && "country" in input.shippingAddress
    ensures var (out, odb1) := OrderForNewCustomer(odb, input, tracking, now);
      out.Navigate? && odb1.docs[odb.nextId].userId == input.userId
      && out.path == OrderPath(input.userId, odb1.docs[odb.nextId].orderCode)
  {
    var uid := input.userId;
    CreateOrderStores(odb, input, tracking, now);
    var (r, odb1) := CreateOrderSpec(odb, input, tracking, now);
    assert odb1.docs[odb.nextId].orderCode == r.value.orderCode && odb1.docs[odb.nextId].userId == uid;
  }

  /**
   * Finding: whenever `createUser` stores the new customer under an id other than the
   * one the counter produced, the password path as written places the order (and opens
   * the session) for the counter's id, while the corrected path uses the stored id.
   */
  lemma PasswordSubmitMisattributes(udb: UserDb, odb: OrderDb, form: Form, password: string,
                                    cart: seq<Item>, franchiseId: Option<string>, tracking: string, now: nat)
    requires WellFormed(odb)
    requires !EmailTaken(udb, Str(FormValue(form, "email")))
    requires CreateUserSpec(NextUserIdSpec(udb, "cu").1, SignupRecord(form, NextUserIdSpec(udb, "cu").0, password), now).0.Success?
    requires CreateUserSpec(NextUserIdSpec(udb, "cu").1, SignupRecord(form, NextUserIdSpec(udb, "cu").0, password), now).0.value
             != NextUserIdSpec(udb, "cu").0
    ensures var generated := NextUserIdSpec(udb, "cu").0;
      var created := CreateUserSpec(NextUserIdSpec(udb, "cu").1, SignupRecord(form, generated, password), now).0.value;
      var written := PasswordSubmitAsWritten(udb, odb, form, password, password, cart, franchiseId, tracking, now);
      var corrected := PasswordSubmitSpec(udb, odb, form, password, password, cart, franchiseId, tracking, now);
      written.0.Navigate? && written.2.docs[odb.nextId].userId == generated
      && corrected.0.Navigate? && corrected.2.docs[odb.nextId].userId == created
      && written.1 == corrected.1
  {
    var generated := NextUserIdSpec(udb, "cu").0;
    var created := CreateUserSpec(NextUserIdSpec(udb, "cu").1, SignupRecord(form, generated, password), now).0.value;
    assert generated != "" by {
      assert generated == "cu" + Pad6(NextNumber(CounterFor(udb, "cu")));
    }
    StoredIdNonEmpty(NextUserIdSpec(udb, "cu").1, SignupRecord(form, generated, password), now);
    NewCustomerOrderIsFound(odb, OrderPayload(form, generated, cart, "", franchiseId), tracking, now);
    NewCustomerOrderIsFound(odb, OrderPayload(form, created, cart, "", franchiseId), tracking, now);
  }

  /**
   * When the counter's id is free, `createUser` stores the customer under it, so the
   * password path as written and the corrected one do the same.
   */
  lemma PasswordSubmitAgreesWhenGeneratedFree(udb: UserDb, odb: OrderDb, form: Form, password: string, confirm: string,
                                              cart: seq<Item>, franchiseId: Option<string>, tracking: string, now: nat)
    requires NextUserIdSpec(udb, "cu").0 !in udb.users
    ensures PasswordSubmitAsWritten(udb, odb, form, password, confirm, cart, franchiseId, tracking, now)
         == PasswordSubmitSpec(udb, odb, form, password, confirm, cart, franchiseId, tracking, now)
  {
    SignupKeepsFreeId(udb, form, password, now);
  }

  lemma SignupKeepsFreeId(udb: UserDb, form: Form, password: string, now: nat)
    requires NextUserIdSpec(udb, "cu").0 !in udb.users
    ensures var (generated, udb1) := NextUserIdSpec(udb, "cu");
      var created := CreateUserSpec(udb1, SignupRecord(form, generated, password), now).0;
      created.Success? ==> created.value == generated
  {
    var (generated, udb1) := NextUserIdSpec(udb, "cu");
    var rec := SignupRecord(form, generated, password);
    assert udb1.users == udb.users;
    var checks := CreateUserChecks(udb1, rec);
    if checks.Success? {
      assert rec[Id] == Str(generated);
      assert ChooseId(udb1, rec, checks.value) == (generated, udb1);
    }
  }

  /** The id `createUser` reports is never empty. */
  lemma StoredIdNonEmpty(db: UserDb, userData: Doc, now: nat)
    ensures CreateUserSpec(db, userData, now).0.Success? ==> CreateUserSpec(db, userData, now).0.value != ""
  {
    var checks := CreateUserChecks(db, userData);
    if checks.Success? {
      assert FieldTruthy(userData, RequiredFields[4]);
      var prefix := ReplacementPrefix(userData);
      assert NextUserIdSpec(db, prefix).0 == prefix + Pad6(NextNumber(CounterFor(db, prefix)));
    }
  }

  /** A guest who signs up as Ben while `cu000001` already exists and no customer counter does. */
  function BenForm(): Form {
    map["email" := "ben@example.com", "firstName" := "Ben", "lastName" := "Cruz", "password" := "pw"]
  }

  lemma PadTwo()
    ensures Pad6(2) == "000002"
  {
    assert DecimalDigits(2) == "2";
    assert Zeros(5) == "00000";
  }

  /** The database after the page drew `cu000001` from the new customer counter. */
  function CounterDrawn(): UserDb {
    CollisionDb().(customerCount := Some(1))
  }

  /** A sign-up with an email, both names and an id passes `createUser`'s checks unless the email is known. */
  lemma SignupPasses(db: UserDb, form: Form, id: string, password: string)
    requires FormValue(form, "email") != "" && FormValue(form, "firstName") != "" && FormValue(form, "lastName") != ""
    requires id != "" && !EmailTaken(db, Str(FormValue(form, "email")))
    ensures CreateUserChecks(db, SignupRecord(form, id, password)) == Success(id)
    ensures ReplacementPrefix(SignupRecord(form, id, password)) == "cu"
  {
    var d := SignupRecord(form, id, password);
    RequiredPresent(d);
  }

  lemma BenFormPasses()
    ensures CreateUserChecks(CounterDrawn(), SignupRecord(BenForm(), "cu000001", "pw")) == Success("cu000001")
    ensures ReplacementPrefix(SignupRecord(BenForm(), "cu000001", "pw")) == "cu"
  {
    assert FormValue(BenForm(), "email") == "ben@example.com";
    assert !EmailTaken(CounterDrawn(), Str("ben@example.com")) by {
      assert CounterDrawn().users == map["cu000001" := AnaRecord()];
    }
    SignupPasses(CounterDrawn(), BenForm(), "cu000001", "pw");
  }

  /** The customer counter does not exist yet, so the page draws `cu000001`. */
  lemma CounterYieldsTakenId()
    ensures NextUserIdSpec(CollisionDb(), "cu") == ("cu000001", CounterDrawn())
    ensures "cu000001" in CollisionDb().users
  {
    PadOne();
    assert CounterFor(CollisionDb(), "cu") == None;
    assert FormatUserId("cu", 1) == "cu000001";
  }

  /** A taken requested id is replaced by the counter's next id when that one is free. */
  lemma StoredUnderReplacement(db: UserDb, userData: Doc, now: nat)
    requires CreateUserChecks(db, userData).Success? && CreateUserChecks(db, userData).value in db.users
    requires NextUserIdSpec(db, ReplacementPrefix(userData)).0 !in db.users
    ensures CreateUserSpec(db, userData, now).0 == Success(NextUserIdSpec(db, ReplacementPrefix(userData)).0)
  {
  }

  /** After `cu000001` the customer counter yields `cu000002`, which nobody holds. */
  lemma SecondIdFree()
    ensures NextUserIdSpec(CounterDrawn(), "cu").0 == "cu000002"
    ensures "cu000002" !in CounterDrawn().users
  {
    PadTwo();
    assert CounterFor(CounterDrawn(), "cu") == Some(1);
    assert FormatUserId("cu", 2) == "cu000002";
    assert CounterDrawn().users.Keys == {"cu000001"};
    assert "cu000002"[7] != "cu000001"[7];
  }

  /** `createUser` finds `cu000001` taken and stores Ben under the counter's next id. */
  lemma BenStoredAsSecond()
    ensures CreateUserSpec(CounterDrawn(), SignupRecord(BenForm(), "cu000001", "pw"), 7).0 == Success("cu000002")
  {
    BenFormPasses();
    SecondIdFree();
    StoredUnderReplacement(CounterDrawn(), SignupRecord(BenForm(), "cu000001", "pw"), 7);
  }

  /**
   * An input that reaches it: the counter yields `cu000001`, which the console already
   * gave to Ana, so Ben is stored as `cu000002` while the order would go to Ana's id.
   */
  lemma CheckoutCollisionExample()
    ensures NextUserIdSpec(CollisionDb(), "cu") == ("cu000001", CounterDrawn())
    ensures CreateUserSpec(CounterDrawn(), SignupRecord(BenForm(), "cu000001", "pw"), 7).0 == Success("cu000002")
    ensures "cu000001" in CollisionDb().users && CollisionDb().users["cu000001"][Email] != Str(FormValue(BenForm(), "email"))
  {
    CounterYieldsTakenId();
    BenStoredAsSecond();
  }

  // ---------------------------------------------------------------------
  // The page

  /** The page's form, password modal, cart and session keys. */
  class CheckoutPage {
    var form: Form
    var showPasswordModal: bool
    var cartCleared: bool
    var sessionUserId: Option<string>
    var sessionRole: Option<string>
    var sessionEmail: Option<string>

    constructor ()
      ensures form == map["firstName" := "", "lastName" := "", "email" := "", "country" := "",
                          "countryCode" := "US", "primaryPhone" := "", "secondaryPhone" := "",
                          "address" := "", "city" := "", "state" := "", "zipCode" := "",
                          "cardNumber" := "", "expiryDate" := "", "cvv" := "", "message" := "",
                          "sellerMessage" := "", "password" := ""]
      ensures !showPasswordModal && !cartCleared && sessionUserId == None && sessionRole == None && sessionEmail == None
    {
      form := map["firstName" := "", "lastName" := "", "email" := "", "country" := "",
                  "countryCode" := "US", "primaryPhone" := "", "secondaryPhone" := "",
                  "address" := "", "city" := "", "state" := "", "zipCode" := "",
                  "cardNumber" := "", "expiryDate" := "", "cvv" := "", "message" := "",
                  "sellerMessage" := "", "password" := ""];
      showPasswordModal := false;
      cartCleared := false;
      sessionUserId := None;
      sessionRole := None;
      sessionEmail := None;
    }

    /** `handleInputChange`. */
    method HandleInputChange(name: string, value: string)
      modifies this
      ensures form == InputChange(old(form), name, value)
      ensures showPasswordModal == old(showPasswordModal) && cartCleared == old(cartCleared)
      ensures sessionUserId == old(sessionUserId) && sessionRole == old(sessionRole) && sessionEmail == old(sessionEmail)
    {
      if name == "primaryPhone" || name == "secondaryPhone" {
        var cleaned := KeepPhoneChars(value);
        cleaned := PlusOnlyFirst(cleaned);
        form := form[name := cleaned];
        return;
      }
      form := form[name := value];
    }

    /** Places the order for `userId` and reports the tracking page. */
    method PlaceOrderFor(orders: OrderStore, input: OrderInput, picks: seq<nat>, now: nat) returns (outcome: Outcome)
      requires orders.Valid() && ValidPicks(picks)
      modifies this, orders
      ensures orders.Valid()
      ensures (outcome, orders.Db()) == PlaceOrder(old(orders.Db()), input, TrackingNumberOf(picks), now)
      ensures cartCleared == (old(cartCleared) || outcome.Navigate?)
      ensures form == old(form) && showPasswordModal == old(showPasswordModal)
      ensures sessionUserId == old(sessionUserId) && sessionRole == old(sessionRole) && sessionEmail == old(sessionEmail)
    {
      var r := orders.CreateOrder(input, picks, now);
      if r.Failure? {
        return OrderError;
      }
      cartCleared := true;
      outcome := Navigate(OrderPath(r.value.customerUserId, r.value.orderCodeWithFranchise));
    }

    /** Signs the guest up: the counter's id, then `createUser` with the form's record. */
    method SignUp(users: UserStore, f: Form, password: string, now: nat) returns (generated: string, created: Result<string>)
      modifies users
      ensures generated == NextUserIdSpec(old(users.Db()), "cu").0
      ensures (created, users.Db()) ==
        CreateUserSpec(NextUserIdSpec(old(users.Db()), "cu").1, SignupRecord(f, generated, password), now)
    {
      generated := users.GenerateNextUserId("cu");
      created := users.CreateUser(SignupRecord(f, generated, password), now);
    }

    /** `handleSubmit`. */
    method HandleSubmit(users: UserStore, orders: OrderStore, cart: seq<Item>, storeSlug: string,
                        franchiseId: Option<string>, currentUserId: Option<string>, picks: seq<nat>, now: nat)
      returns (outcome: Outcome)
      requires orders.Valid() && ValidPicks(picks)
      modifies this, users, orders
      ensures orders.Valid()
      ensures (outcome, users.Db(), orders.Db()) ==
        SubmitSpec(old(users.Db()), old(orders.Db()), old(form), cart, storeSlug, franchiseId, currentUserId,
                   TrackingNumberOf(picks), now)
      ensures showPasswordModal == (old(showPasswordModal) || outcome == AskPassword)
      ensures cartCleared == (old(cartCleared) || outcome.Navigate?)
      ensures form == old(form)
      ensures sessionUserId == old(sessionUserId) && sessionRole == old(sessionRole) && sessionEmail == old(sessionEmail)
    {
      if !Present(franchiseId) {
        return StoreNotLoaded;
      }
      if Present(currentUserId) {
        outcome := PlaceOrderFor(orders, OrderPayload(form, currentUserId.value, cart, storeSlug, franchiseId), picks, now);
        return;
      }
      if FormValue(form, "password") == "" {
        showPasswordModal := true;
        return AskPassword;
      }
      if EmailTaken(users.Db(), Str(FormValue(form, "email"))) {
        return EmailRegistered;
      }
      var generated, created := SignUp(users, form, FormValue(form, "password"), now);
      if created.Failure? {
        return OrderError;
      }
      outcome := PlaceOrderFor(orders, OrderPayload(form, created.value, cart, storeSlug, franchiseId), picks, now);
    }

    /** The password path's order for the new customer, and the lookup before navigating. */
    method OrderForCustomer(orders: OrderStore, input: OrderInput, picks: seq<nat>, now: nat) returns (outcome: Outcome)
      requires orders.Valid() && ValidPicks(picks)
      modifies this, orders
      ensures orders.Valid()
      ensures (outcome, orders.Db()) ==
        OrderForNewCustomer(old(orders.Db()), input, TrackingNumberOf(picks), now)
      ensures cartCleared == (old(cartCleared) || orders.Db() != old(orders.Db()))
      ensures form == old(form) && showPasswordModal == old(showPasswordModal)
      ensures sessionUserId == old(sessionUserId) && sessionRole == old(sessionRole) && sessionEmail == old(sessionEmail)
    {
      var uid := input.userId;
      var r := orders.CreateOrder(input, picks, now);
      if r.Failure? {
        return OrderError;
      }
      cartCleared := true;
      var found := orders.GetOrdersByCode(r.value.orderCode, uid);
      if found != [] {
        assert found[0] in found;
        outcome := Navigate(OrderPath(uid, r.value.orderCode));
      } else {
        assert !Found(orders.Db(), r.value.orderCode, uid) by {
          forall id | id in orders.docs
            ensures !(orders.docs[id].orderCode == r.value.orderCode && orders.docs[id].userId == uid)
          {
            assert OrderView(id, orders.docs[id]) !in found;
          }
        }
        outcome := OrderError;
      }
    }

    /** The modal closes and the confirmed password enters the form. */
    method AcceptPassword(password: string)
      modifies this
      ensures form == old(form)["password" := password] && !showPasswordModal
      ensures cartCleared == old(cartCleared) && sessionUserId == old(sessionUserId) && sessionRole == old(sessionRole)
      ensures sessionEmail == old(sessionEmail)
    {
      form := form["password" := password];
      showPasswordModal := false;
    }

    /** The new customer's session keys: `sessionEmail`, `userRole` and `userId`. */
    method StartSession(uid: string, email: string)
      modifies this
      ensures sessionUserId == Some(uid) && sessionRole == Some("customer") && sessionEmail == Some(email)
      ensures form == old(form) && showPasswordModal == old(showPasswordModal) && cartCleared == old(cartCleared)
    {
      sessionEmail := Some(email);
      sessionRole := Some("customer");
      sessionUserId := Some(uid);
    }

    /**
     * `handlePasswordSubmit`, with the order and the session for the id the customer was
     * stored under.
     */
    method HandlePasswordSubmit(users: UserStore, orders: OrderStore, password: string, confirm: string,
                                cart: seq<Item>, franchiseId: Option<string>, picks: seq<nat>, now: nat)
      returns (outcome: Outcome)
      requires orders.Valid() && ValidPicks(picks)
      modifies this, users, orders
      ensures orders.Valid()
      ensures (outcome, users.Db(), orders.Db()) ==
        PasswordSubmitSpec(old(users.Db()), old(orders.Db()), old(form), password, confirm, cart, franchiseId,
                           TrackingNumberOf(picks), now)
      ensures password != confirm ==> form == old(form) && showPasswordModal == old(showPasswordModal)
      ensures password == confirm ==> form == old(form)["password" := password] && !showPasswordModal
      ensures var created := if password == confirm then NewCustomerId(old(users.Db()), old(form), password, now) else None;
        if created.Some? then
          sessionUserId == created && sessionRole == Some("customer") && sessionEmail == Some(FormValue(old(form), "email"))
        else
          sessionUserId == old(sessionUserId) && sessionRole == old(sessionRole) && sessionEmail == old(sessionEmail)
      ensures cartCleared == (old(cartCleared) || orders.Db() != old(orders.Db()))
    {
      if password != confirm {
        return PasswordsDiffer;
      }
      var f := form;
      AcceptPassword(password);
      if EmailTaken(users.Db(), Str(FormValue(f, "email"))) {
        return EmailRegistered;
      }
      var generated, created := SignUp(users, f, password, now);
      if created.Failure? {
        return OrderError;
      }
      StartSession(created.value, FormValue(f, "email"));
      outcome := OrderForCustomer(orders, OrderPayload(f, created.value, cart, "", franchiseId), picks, now);
    }
  }
}
