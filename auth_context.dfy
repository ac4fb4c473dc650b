/**
 * The authentication context (src/context/AuthContext.jsx): the session restored on
 * start-up, `login` against the users collection, `logout`, and the role flags. The
 * collection is seen as the login queries see it: its documents in the order the
 * database returns them.
 */
module AuthContext {
  import opened Wrappers
  import opened Docs

  const UserNotFound := "User not found"
  const InvalidCredentials := "Invalid credentials"

  /** A document of the users collection: its id and its data. */
  datatype Row = Row(id: string, data: Doc)

  /** `where("email", "==", email)`: the documents whose email is that string, in order. */
  function WithEmail(rows: seq<Row>, email: string): (r: seq<Row>)
    ensures forall x :: x in r <==> x in rows && HasStr(x.data, Email, email)
    ensures |r| <= |rows|
  {
    if rows == [] then []
    else (if HasStr(rows[0].data, Email, email) then [rows[0]] else []) + WithEmail(rows[1..], email)
  }

  /** The position of the first document with this email, if any. */
  function FirstWithEmail(rows: seq<Row>, email: string): (r: Option<nat>)
    ensures r.Some? ==> (r.value < |rows| && HasStr(rows[r.value].data, Email, email)
                         && forall j :: 0 <= j < r.value ==> !HasStr(rows[j].data, Email, email))
    ensures r.None? ==> forall j :: 0 <= j < |rows| ==> !HasStr(rows[j].data, Email, email)
  {
    if rows == [] then None
    else if HasStr(rows[0].data, Email, email) then Some(0)
    else match FirstWithEmail(rows[1..], email)
      case None => None
      case Some(i) => Some(i + 1)
  }

  /** The query's first result is the first document with the email. */
  lemma {:induction false} WithEmailHead(rows: seq<Row>, email: string)
    ensures |WithEmail(rows, email)| > 0 <==> FirstWithEmail(rows, email).Some?
    ensures |WithEmail(rows, email)| > 0 ==> WithEmail(rows, email)[0] == rows[FirstWithEmail(rows, email).value]
  {
    if rows != [] && !HasStr(rows[0].data, Email, email) {
      WithEmailHead(rows[1..], email);
    }
  }

  /** The query keeps the documents' order: querying two runs of documents is querying each in turn. */
  lemma {:induction false} WithEmailAppend(a: seq<Row>, b: seq<Row>, email: string)
    ensures WithEmail(a + b, email) == WithEmail(a, email) + WithEmail(b, email)
  {
    if a != [] {
      assert (a + b)[1..] == a[1..] + b;
      WithEmailAppend(a[1..], b, email);
    } else {
      assert a + b == b;
    }
  }

  /** `userData.password !== password` fails exactly when the stored password is that string. */
  predicate PasswordMatches(user: Doc, password: string) {
    HasStr(user, Password, password)
  }

  /** `login(email, password)`: the first document with the email, if its password matches. */
  function LoginSpec(rows: seq<Row>, email: string, password: string): (r: Result<Doc>)
    ensures r.Success? ==> Id in r.value && HasStr(r.value, Email, email) && PasswordMatches(r.value, password)
    ensures r.Failure? ==> r.error in {UserNotFound, InvalidCredentials}
  {
    var matches := WithEmail(rows, email);
    if |matches| == 0 then Failure(UserNotFound)
    else
      var user := WithId(matches[0].id, matches[0].data);
      if !PasswordMatches(user, password) then Failure(InvalidCredentials) else Success(user)
  }

  /**
   * `login` answers 'User not found' exactly when no document has the email; otherwise
   * it judges the first such document alone, and on success returns it with its id.
   */
  lemma LoginUsesFirstRecord(rows: seq<Row>, email: string, password: string)
    ensures LoginSpec(rows, email, password) == Failure(UserNotFound) <==>
      forall j :: 0 <= j < |rows| ==> !HasStr(rows[j].data, Email, email)
    ensures FirstWithEmail(rows, email).Some? ==>
      var first := rows[FirstWithEmail(rows, email).value];
      var user := WithId(first.id, first.data);
      LoginSpec(rows, email, password) == (if PasswordMatches(user, password) then Success(user) else Failure(InvalidCredentials))
  {
    WithEmailHead(rows, email);
    if FirstWithEmail(rows, email).None? {
      assert WithEmail(rows, email) == [];
    }
  }

  /** The user rebuilt from the session: only with an email, a role and an id all set. */
  function RestoredUser(sessionEmail: Option<string>, userRole: Option<string>, userId: Option<string>): (u: Option<Doc>)
    ensures u.Some? <==> Present(sessionEmail) && Present(userRole) && Present(userId)
    ensures u.Some? ==> (HasStr(u.value, Category, userRole.value) && HasStr(u.value, Email, sessionEmail.value)
                         && HasStr(u.value, Id, userId.value))
  {
    if Present(sessionEmail) && Present(userRole) && Present(userId) then
      Some(map[Email := Str(sessionEmail.value), Category := Str(userRole.value), Id := Str(userId.value),
               IsActive := Bool(true)])
    else None
  }

  /** `currentUser?.category === role` */
  predicate HasRole(user: Option<Doc>, role: string) {
    user.Some? && HasStr(user.value, Category, role)
  }

  /** Each flag holds exactly when the category is its role, so no two hold together. */
  lemma AtMostOneRole(user: Option<Doc>)
    ensures !(HasRole(user, "customer") && HasRole(user, "franchise"))
    ensures !(HasRole(user, "customer") && HasRole(user, "test"))
    ensures !(HasRole(user, "franchise") && HasRole(user, "test"))
  {
  }

  /** The session keys as strings. */
  function SessionGet(session: map<string, string>, key: string): Option<string> {
    if key in session then Some(session[key]) else None
  }

  /** The provider's state, and the browser session it reads and clears. */
  class Auth {
    var currentUser: Option<Doc>
    var loading: bool
    var session: map<string, string>

    constructor (session: map<string, string>)
      ensures currentUser == None && loading && this.session == session
    {
      currentUser := None;
      loading := true;
      this.session := session;
    }

    predicate IsCustomer()
      reads this
    {
      HasRole(currentUser, "customer")
    }

    predicate IsFranchise()
      reads this
    {
      HasRole(currentUser, "franchise")
    }

    predicate IsTest()
      reads this
    {
      HasRole(currentUser, "test")
    }

    /** The start-up effect: restore the user when the session holds all three keys; loading ends. */
    method Restore()
      modifies this
      ensures var restored := RestoredUser(SessionGet(session, "sessionEmail"), SessionGet(session, "userRole"),
                                           SessionGet(session, "userId"));
        currentUser == (if restored.Some? then restored else old(currentUser))
      ensures !loading && session == old(session)
    {
      var email := SessionGet(session, "sessionEmail");
      var role := SessionGet(session, "userRole");
      var id := SessionGet(session, "userId");
      if Present(email) && Present(role) && Present(id) {
        currentUser := RestoredUser(email, role, id);
      }
      loading := false;
    }

    /** `login`: on success the user becomes the current user; on failure nothing changes. */
    method Login(rows: seq<Row>, email: string, password: string) returns (r: Result<Doc>)
      modifies this
      ensures r == LoginSpec(rows, email, password)
      ensures currentUser == (if r.Success? then Some(r.value) else old(currentUser))
      ensures loading == old(loading) && session == old(session)
    {
      var matches := WithEmail(rows, email);
      if |matches| == 0 {
        return Failure(UserNotFound);
      }
      var user := WithId(matches[0].id, matches[0].data);
      if !PasswordMatches(user, password) {
        return Failure(InvalidCredentials);
      }
      currentUser := Some(user);
      r := Success(user);
    }

    /** `logout` clears the session and the user. */
    method Logout()
      modifies this
      ensures currentUser == None && session == map[] && loading == old(loading)
      ensures !IsCustomer() && !IsFranchise() && !IsTest()
    {
      session := map[];
      currentUser := None;
    }
  }

  /** The users collection as the login pages write it: `isOnline` and `lastActiveAt` on sign-in. */
  class UserTable {
    var rows: seq<Row>

    constructor (rows: seq<Row>)
      ensures this.rows == rows
    {
      this.rows := rows;
    }

    /** `updateDoc(users/id, {isOnline: true, lastActiveAt})`: fails when no document has the id. */
    method MarkOnline(id: string, now: nat) returns (ok: bool)
      modifies this
      ensures ok <==> exists j :: 0 <= j < |old(rows)| && old(rows)[j].id == id
      ensures rows == MarkedOnline(old(rows), id, now)
    {
      ok := exists j | 0 <= j < |rows| :: rows[j].id == id;
      rows := MarkedOnline(rows, id, now);
    }
  }

  /** Every document with the id gets `isOnline` true and `lastActiveAt` now; the others are unchanged. */
  function MarkedOnline(rows: seq<Row>, id: string, now: nat): (r: seq<Row>)
    ensures |r| == |rows|
    ensures forall j :: 0 <= j < |rows| ==> r[j].id == rows[j].id
    ensures forall j :: 0 <= j < |rows| && rows[j].id != id ==> r[j] == rows[j]
    ensures forall j :: 0 <= j < |rows| && rows[j].id == id ==>
      r[j].data == rows[j].data[IsOnline := Bool(true)][LastActiveAt := Time(now)]
  {
    seq(|rows|, j requires 0 <= j < |rows| =>
      if rows[j].id == id then Row(id, rows[j].data[IsOnline := Bool(true)][LastActiveAt := Time(now)]) else rows[j])
  }
}
