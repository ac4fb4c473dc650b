/**
 * The customer and franchise sign-in (src/components/UserLogin.jsx): its checks in
 * order, the session keys it writes, the online flag, and where it sends each category.
 */
module UserLogin {
  import opened Wrappers
  import opened Docs
  import opened AuthContext

  const NotInDatabase := "User not found in database"
  const InvalidCategory := "Invalid user category"
  /** The rejection of `updateDoc` for a document that does not exist. */
  const NoDocument := "No document to update"

  datatype LoginOutcome =
    | Failed(message: string)
    | ToAdminLogin            // "Please use the admin login page"
    | Navigate(path: string)

  /** The categories this page signs in. */
  predicate StoreCategory(user: Doc) {
    HasStr(user, Category, "customer") || HasStr(user, Category, "franchise") || HasStr(user, Category, "test")
  }

  /** The string a session key receives for a field that holds a string ('' otherwise). */
  function SessionText(user: Doc, k: Field): string {
    if k in user && user[k].Str? then user[k].s else ""
  }

  /** `'true'` or `'false'` */
  function Flag(b: bool): string {
    if b then "true" else "false"
  }

  /** The session after a sign-in: the role, email, id and category, and a flag per role. */
  function SignedInSession(user: Doc): (s: map<string, string>)
    ensures s.Keys == {"userRole", "sessionEmail", "userId", "category", "isFranchise", "isCustomer", "isTest"}
    ensures s["userRole"] == s["category"] == SessionText(user, Category)
    ensures s["isFranchise"] == "true" <==> HasStr(user, Category, "franchise")
    ensures s["isCustomer"] == "true" <==> HasStr(user, Category, "customer")
    ensures s["isTest"] == "true" <==> HasStr(user, Category, "test")
  {
    map["userRole" := SessionText(user, Category), "sessionEmail" := SessionText(user, Email), "userId" := SessionText(user, Id),
        "category" := SessionText(user, Category),
        "isFranchise" := Flag(HasStr(user, Category, "franchise")),
        "isCustomer" := Flag(HasStr(user, Category, "customer")),
        "isTest" := Flag(HasStr(user, Category, "test"))]
  }

  /** The dashboard for a category: customers and test users share one. */
  function DashboardFor(user: Doc): string {
    if HasStr(user, Category, "franchise") then "/franchise/dashboard" else "/customer/dashboard"
  }

  /** What the checks before any write conclude. */
  datatype Check = NoUser | Webmaster | BadCategory | BadPassword | Pass(user: Doc)

  /** The error a failed check throws; a webmaster is redirected instead. */
  function ErrorOf(c: Check): string {
    match c
    case NoUser => NotInDatabase
    case BadCategory => InvalidCategory
    case BadPassword => InvalidCredentials
    case _ => ""
  }

  /** The record's own checks, in order, on the first document with the email. */
  function Judge(user: Doc, password: string): Check {
    if HasStr(user, Category, "webmaster") then Webmaster
    else if !StoreCategory(user) then BadCategory
    else if !PasswordMatches(user, password) then BadPassword
    else Pass(user)
  }

  /** The checks before anything is written. */
  function Checks(rows: seq<Row>, email: string, password: string): (c: Check)
    ensures c == NoUser <==> forall x :: x in rows ==> !HasStr(x.data, Email, email)
    ensures c.Pass? ==> HasStr(c.user, Email, email) && StoreCategory(c.user) && PasswordMatches(c.user, password)
  {
    var matches := WithEmail(rows, email);
    if |matches| == 0 then NoUser else Judge(WithId(matches[0].id, matches[0].data), password)
  }

  /**
   * Once this page's checks pass, the context's `login`, which looks up the same first
   * document, accepts the same record.
   */
  lemma ContextLoginAgrees(rows: seq<Row>, email: string, password: string)
    requires Checks(rows, email, password).Pass?
    ensures LoginSpec(rows, email, password) == Success(Checks(rows, email, password).user)
  {
  }

  /**
   * The decisions in order: no document is an error; a webmaster is sent to the admin
   * sign-in before the password is looked at; a category outside the store's, then a
   * wrong password, are errors.
   */
  lemma CheckOrder(rows: seq<Row>, email: string, password: string)
    ensures FirstWithEmail(rows, email).None? <==> Checks(rows, email, password) == NoUser
    ensures FirstWithEmail(rows, email).Some? ==>
      var first := rows[FirstWithEmail(rows, email).value];
      Checks(rows, email, password) == Judge(WithId(first.id, first.data), password)
    ensures Checks(rows, email, password) == Webmaster ==>
      exists j :: 0 <= j < |rows| && HasStr(rows[j].data, Email, email) && HasStr(WithId(rows[j].id, rows[j].data), Category, "webmaster")
    ensures Checks(rows, email, password).Pass? ==>
      StoreCategory(Checks(rows, email, password).user) && PasswordMatches(Checks(rows, email, password).user, password)
  {
    WithEmailHead(rows, email);
  }

  /** The sign-in page. */
  class UserLoginPage {
    var error: string

    constructor ()
      ensures error == ""
    {
      error := "";
    }

    /** A thrown error: shown, and the session cleared again. */
    method Fail(auth: Auth, message: string) returns (outcome: LoginOutcome)
      modifies this, auth
      ensures outcome == Failed(message) && error == message
      ensures auth.session == map[] && auth.currentUser == old(auth.currentUser) && auth.loading == old(auth.loading)
    {
      error := message;
      auth.session := map[];
      outcome := Failed(message);
    }

    /** `handleSubmit` */
    method HandleSubmit(auth: Auth, users: UserTable, email: string, password: string, now: nat)
      returns (outcome: LoginOutcome)
      modifies this, auth, users
      ensures var checks := Checks(old(users.rows), email, password);
        (checks == Webmaster ==> outcome == ToAdminLogin)
        && (!checks.Pass? && checks != Webmaster ==> outcome == Failed(ErrorOf(checks)))
      ensures outcome.Failed? ==> auth.session == map[] && error == outcome.message
      ensures outcome == ToAdminLogin ==> auth.session == map[] && error == ""
      ensures outcome.Navigate? ==> error == ""
      ensures !Checks(old(users.rows), email, password).Pass? ==>
        users.rows == old(users.rows) && auth.currentUser == old(auth.currentUser)
      ensures Checks(old(users.rows), email, password).Pass? ==>
        var user := Checks(old(users.rows), email, password).user;
        auth.currentUser == Some(user)
        && users.rows == MarkedOnline(old(users.rows), SessionText(user, Id), now)
        && (outcome == Navigate(DashboardFor(user)) <==> exists j :: 0 <= j < |old(users.rows)| && old(users.rows)[j].id == SessionText(user, Id))
        && (outcome.Navigate? ==> auth.session == SignedInSession(user))
      ensures auth.loading == old(auth.loading)
    {
      error := "";
      auth.session := map[];
      var checks := Checks(users.rows, email, password);
      if checks == Webmaster {
        return ToAdminLogin;
      }
      if !checks.Pass? {
        outcome := Fail(auth, ErrorOf(checks));
        return;
      }
      var user := checks.user;
      ContextLoginAgrees(users.rows, email, password);
      var signedIn := auth.Login(users.rows, email, password);
      auth.session := SignedInSession(user);
      var ok := users.MarkOnline(SessionText(user, Id), now);
      if !ok {
        outcome := Fail(auth, NoDocument);
        return;
      }
      outcome := Navigate(DashboardFor(user));
    }
  }
}
