/**
 * The webmaster sign-in (src/components/AdminLogin.jsx): only documents with the email
 * and the category `webmaster` are considered, the first of them is judged by its
 * password, and only then is the session written.
 */
module AdminLogin {
  import opened Wrappers
  import opened Docs
  import opened AuthContext
  import opened UserLogin

  const InvalidAdmin := "Invalid admin credentials"

  /** A document the query keeps: the email, and the category `webmaster`. */
  predicate AdminRow(r: Row, identifier: string) {
    HasStr(r.data, Email, identifier) && HasStr(r.data, Category, "webmaster")
  }

  /** `where("email", "==", identifier), where("category", "==", "webmaster")`, in order. */
  function AdminRows(rows: seq<Row>, identifier: string): (r: seq<Row>)
    ensures forall x :: x in r <==> x in rows && AdminRow(x, identifier)
  {
    if rows == [] then []
    else (if AdminRow(rows[0], identifier) then [rows[0]] else []) + AdminRows(rows[1..], identifier)
  }

  /** The query keeps the documents' order: querying two runs of documents is querying each in turn. */
  lemma {:induction false} AdminRowsAppend(a: seq<Row>, b: seq<Row>, identifier: string)
    ensures AdminRows(a + b, identifier) == AdminRows(a, identifier) + AdminRows(b, identifier)
  {
    if a != [] {
      assert (a + b)[1..] == a[1..] + b;
      AdminRowsAppend(a[1..], b, identifier);
    } else {
      assert a + b == b;
    }
  }

  /** The position of the first webmaster document with the email, if any. */
  function FirstAdminRow(rows: seq<Row>, identifier: string): (r: Option<nat>)
    ensures r.Some? ==> (r.value < |rows| && AdminRow(rows[r.value], identifier)
                         && forall j :: 0 <= j < r.value ==> !AdminRow(rows[j], identifier))
    ensures r.None? ==> forall j :: 0 <= j < |rows| ==> !AdminRow(rows[j], identifier)
  {
    if rows == [] then None
    else if AdminRow(rows[0], identifier) then Some(0)
    else match FirstAdminRow(rows[1..], identifier)
      case None => None
      case Some(i) => Some(i + 1)
  }

  /** `userSnapshot.docs[0]` is the first webmaster document with the email. */
  lemma {:induction false} AdminRowsHead(rows: seq<Row>, identifier: string)
    ensures |AdminRows(rows, identifier)| > 0 <==> FirstAdminRow(rows, identifier).Some?
    ensures |AdminRows(rows, identifier)| > 0 ==> AdminRows(rows, identifier)[0] == rows[FirstAdminRow(rows, identifier).value]
  {
    if rows != [] && !AdminRow(rows[0], identifier) {
      AdminRowsHead(rows[1..], identifier);
    }
  }

  /**
   * The webmaster record to sign in, or the error thrown before the session is touched:
   * the first webmaster document with the email is the one judged.
   */
  function AdminChecks(rows: seq<Row>, identifier: string, password: string): (r: Result<Doc>)
    ensures r.Success? ==> (HasStr(r.value, Category, "webmaster") && HasStr(r.value, Email, identifier)
                            && PasswordMatches(r.value, password))
    ensures r == Failure(InvalidAdmin) <==> forall x :: x in rows ==> !AdminRow(x, identifier)
    ensures r.Success? ==>
      (FirstAdminRow(rows, identifier).Some?
       && r.value == WithId(rows[FirstAdminRow(rows, identifier).value].id, rows[FirstAdminRow(rows, identifier).value].data))
    ensures r == Failure(InvalidCredentials) <==>
      (FirstAdminRow(rows, identifier).Some?
       && !PasswordMatches(WithId(rows[FirstAdminRow(rows, identifier).value].id, rows[FirstAdminRow(rows, identifier).value].data), password))
  {
    AdminRowsHead(rows, identifier);
    var matches := AdminRows(rows, identifier);
    if |matches| == 0 then Failure(InvalidAdmin)
    else
      assert matches[0] in matches;
      var user := WithId(matches[0].id, matches[0].data);
      if !PasswordMatches(user, password) then Failure(InvalidCredentials) else Success(user)
  }

  /** The session of a signed-in webmaster. */
  function AdminSession(user: Doc): (s: map<string, string>)
    ensures s.Keys == {"userRole", "sessionEmail", "userId", "category"}
    ensures s["userRole"] == "webmaster" && s["category"] == "webmaster"
    ensures s["userId"] == SessionText(user, Id) && s["sessionEmail"] == SessionText(user, Email)
  {
    map["userRole" := "webmaster", "sessionEmail" := SessionText(user, Email), "userId" := SessionText(user, Id),
        "category" := "webmaster"]
  }

  /** When every document with the email is a webmaster's, both queries return the same documents. */
  lemma {:induction false} OnlyAdminsShareEmail(rows: seq<Row>, identifier: string)
    requires forall x :: x in rows && HasStr(x.data, Email, identifier) ==> HasStr(x.data, Category, "webmaster")
    ensures AdminRows(rows, identifier) == WithEmail(rows, identifier)
  {
    if rows != [] {
      OnlyAdminsShareEmail(rows[1..], identifier);
    }
  }

  /**
   * The context's `login`, which looks up by email alone, then accepts the same record,
   * as long as no other kind of user has the email.
   */
  lemma AdminContextLoginAgrees(rows: seq<Row>, identifier: string, password: string)
    requires forall x :: x in rows && HasStr(x.data, Email, identifier) ==> HasStr(x.data, Category, "webmaster")
    requires AdminChecks(rows, identifier, password).Success?
    ensures LoginSpec(rows, identifier, password) == AdminChecks(rows, identifier, password)
  {
    OnlyAdminsShareEmail(rows, identifier);
  }

  /** The admin sign-in page. */
  class AdminLoginPage {
    var error: Option<string>

    constructor ()
      ensures error == None
    {
      error := None;
    }

    /** `handleSubmit` */
    method HandleSubmit(auth: Auth, users: UserTable, identifier: string, password: string, now: nat)
      returns (outcome: LoginOutcome)
      modifies this, auth, users
      ensures var checks := AdminChecks(old(users.rows), identifier, password);
        checks.Failure? ==>
          outcome == Failed(checks.error) && error == Some(checks.error)
          && auth.session == old(auth.session) && auth.currentUser == old(auth.currentUser)
          && users.rows == old(users.rows)
      ensures var checks := AdminChecks(old(users.rows), identifier, password);
        checks.Success? ==>
          auth.session == AdminSession(checks.value)
          && (auth.currentUser == if LoginSpec(old(users.rows), identifier, password).Success?
                                  then Some(LoginSpec(old(users.rows), identifier, password).value)
                                  else old(auth.currentUser))
          && (outcome == Navigate("/admin/users") <==>
                LoginSpec(old(users.rows), identifier, password).Success?
                && exists j :: 0 <= j < |old(users.rows)| && old(users.rows)[j].id == SessionText(checks.value, Id))
      ensures var checks := AdminChecks(old(users.rows), identifier, password);
        var login := LoginSpec(old(users.rows), identifier, password);
        checks.Success? && login.Failure? ==>
          outcome == Failed(login.error) && users.rows == old(users.rows)
      ensures var checks := AdminChecks(old(users.rows), identifier, password);
        checks.Success? && LoginSpec(old(users.rows), identifier, password).Success? ==>
          users.rows == MarkedOnline(old(users.rows), SessionText(checks.value, Id), now)
          && (outcome != Navigate("/admin/users") ==> outcome == Failed(NoDocument))
      ensures outcome.Failed? ==> error == Some(outcome.message)
      ensures outcome == Navigate("/admin/users") ==> error == None
      ensures auth.loading == old(auth.loading)
    {
      error := None;
      var checks := AdminChecks(users.rows, identifier, password);
      if checks.Failure? {
        error := Some(checks.error);
        return Failed(checks.error);
      }
      outcome := SignIn(auth, users, checks.value, identifier, password, now);
    }

    /** Once the webmaster is found: the session, the context login, then the online mark. */
    method SignIn(auth: Auth, users: UserTable, user: Doc, identifier: string, password: string, now: nat)
      returns (outcome: LoginOutcome)
      modifies this, auth, users
      ensures auth.session == AdminSession(user) && auth.loading == old(auth.loading)
      ensures var login := LoginSpec(old(users.rows), identifier, password);
        auth.currentUser == (if login.Success? then Some(login.value) else old(auth.currentUser))
      ensures var login := LoginSpec(old(users.rows), identifier, password);
        login.Failure? ==> outcome == Failed(login.error) && users.rows == old(users.rows)
      ensures LoginSpec(old(users.rows), identifier, password).Success? ==>
        users.rows == MarkedOnline(old(users.rows), SessionText(user, Id), now)
        && (outcome == Navigate("/admin/users") <==>
              exists j :: 0 <= j < |old(users.rows)| && old(users.rows)[j].id == SessionText(user, Id))
        && (outcome != Navigate("/admin/users") ==> outcome == Failed(NoDocument))
      ensures outcome.Failed? ==> error == Some(outcome.message)
      ensures outcome == Navigate("/admin/users") ==> error == old(error)
    {
      auth.session := AdminSession(user);
      var signedIn := auth.Login(users.rows, identifier, password);
      if signedIn.Failure? {
        error := Some(signedIn.error);
        return Failed(signedIn.error);
      }
      var ok := users.MarkOnline(SessionText(user, Id), now);
      if !ok {
        error := Some(NoDocument);
        return Failed(NoDocument);
      }
      outcome := Navigate("/admin/users");
    }
  }
}
