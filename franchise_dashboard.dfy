/**
 * The franchise dashboard (src/pages/FranchiseDashboard.jsx): the store name and the
 * display name it shows, and the store-name update. Its order list, revenue, customer
 * count, labels and confirmations are those of `OrderConsole` (`Revenue` is its sum).
 */
module FranchiseDashboard {
  import opened Wrappers
  import opened Text
  import opened Docs
  import opened UserService

  /** `freshUserData.storeName || sessionStoreName || ''` */
  function LoadedStoreName(record: Doc, session: Option<string>): (name: string)
    ensures StrField(record, StoreName).Some? && StrField(record, StoreName).value != "" ==>
      name == StrField(record, StoreName).value
    ensures !(StrField(record, StoreName).Some? && StrField(record, StoreName).value != "") && Present(session) ==>
      name == session.value
    ensures name == "" <==> !(StrField(record, StoreName).Some? && StrField(record, StoreName).value != "") && !Present(session)
  {
    var stored := StrField(record, StoreName);
    if stored.Some? && stored.value != "" then stored.value
    else if Present(session) then session.value
    else ""
  }

  /** `userData?.firstName || sessionStorage.getItem('firstName') || currentUser?.firstName || 'User'` */
  function DisplayName(userData: Option<Doc>, sessionFirstName: Option<string>, currentUser: Option<Doc>): (v: Value)
    ensures Truthy(v)
    ensures userData.Some? && FieldTruthy(userData.value, FirstName) ==> v == userData.value[FirstName]
    ensures !(userData.Some? && FieldTruthy(userData.value, FirstName)) && Present(sessionFirstName) ==>
      v == Str(sessionFirstName.value)
    ensures (!(userData.Some? && FieldTruthy(userData.value, FirstName)) && !Present(sessionFirstName)
             && currentUser.Some? && FieldTruthy(currentUser.value, FirstName)) ==>
      v == currentUser.value[FirstName]
  {
    if userData.Some? && FieldTruthy(userData.value, FirstName) then userData.value[FirstName]
    else if Present(sessionFirstName) then Str(sessionFirstName.value)
    else if currentUser.Some? && FieldTruthy(currentUser.value, FirstName) then currentUser.value[FirstName]
    else Str("User")
  }

  /** `userData?.storeName || sessionStorage.getItem('storeName') || ''`, the name a cancelled edit shows. */
  function CancelledName(userData: Option<Doc>, session: Option<string>): (name: string)
    ensures userData.Some? ==> name == LoadedStoreName(userData.value, session)
    ensures userData.None? ==> name == (if Present(session) then session.value else "")
  {
    match userData
    case Some(d) => LoadedStoreName(d, session)
    case None => if Present(session) then session.value else ""
  }

  /** Cancelling an edit right after the record was loaded brings back the loaded name. */
  lemma CancelRestoresLoadedName(userId: string, record: Doc, session: Option<string>)
    ensures var loaded := LoadedStoreName(record, session);
      CancelledName(Some(WithId(userId, record)), Some(loaded)) == loaded
  {
    var d := WithId(userId, record);
    assert StrField(d, StoreName) == StrField(record, StoreName);
  }

  /** Without any first name the dashboard greets "User". */
  lemma DisplayNameFallback(userData: Option<Doc>, sessionFirstName: Option<string>, currentUser: Option<Doc>)
    requires userData.None? || !FieldTruthy(userData.value, FirstName)
    requires !Present(sessionFirstName)
    requires currentUser.None? || !FieldTruthy(currentUser.value, FirstName)
    ensures DisplayName(userData, sessionFirstName, currentUser) == Str("User")
  {
  }

  /** The dashboard's state and the session keys it reads and writes. */
  class Dashboard {
    var userData: Option<Doc>
    var storeName: string
    var editingStore: bool
    var sessionStoreName: Option<string>
    var sessionStoreSlug: Option<string>
    var sessionFirstName: Option<string>

    constructor (sessionStoreName: Option<string>, sessionFirstName: Option<string>)
      ensures userData == None && storeName == "" && !editingStore
      ensures this.sessionStoreName == sessionStoreName && this.sessionFirstName == sessionFirstName
      ensures sessionStoreSlug == None
    {
      userData := None;
      storeName := "";
      editingStore := false;
      this.sessionStoreName := sessionStoreName;
      this.sessionStoreSlug := None;
      this.sessionFirstName := sessionFirstName;
    }

    /**
     * The initialising effect for the user `currentUser?.id || sessionUserId`: with a
     * record, the store name follows the fresh record, then the session, then '', and both
     * session keys are rewritten; without one, the session's store name is kept if set.
     */
    method Initialize(users: UserStore, userId: string)
      modifies this
      ensures userId in users.users ==>
        userData == Some(WithId(userId, users.users[userId]))
        && storeName == LoadedStoreName(users.users[userId], old(sessionStoreName))
        && sessionStoreName == Some(storeName)
        && sessionFirstName == Some(match StrField(users.users[userId], FirstName)
                                    case Some(f) => f
                                    case None => "")
      ensures userId !in users.users ==>
        userData == old(userData) && sessionStoreName == old(sessionStoreName) && sessionFirstName == old(sessionFirstName)
        && storeName == (if Present(old(sessionStoreName)) then old(sessionStoreName).value else old(storeName))
      ensures editingStore == old(editingStore) && sessionStoreSlug == old(sessionStoreSlug)
    {
      if userId in users.users {
        var record := users.users[userId];
        userData := Some(WithId(userId, record));
        storeName := LoadedStoreName(record, sessionStoreName);
        sessionStoreName := Some(storeName);
        sessionFirstName := Some(match StrField(record, FirstName) case Some(f) => f case None => "");
      } else if Present(sessionStoreName) {
        storeName := sessionStoreName.value;
      }
    }

    /** The pencil button opens the store-name editor. */
    method StartEditing()
      modifies this
      ensures editingStore
      ensures storeName == old(storeName) && userData == old(userData)
      ensures sessionStoreName == old(sessionStoreName) && sessionStoreSlug == old(sessionStoreSlug)
      ensures sessionFirstName == old(sessionFirstName)
    {
      editingStore := true;
    }

    /** The editor's input writes the typed text into the field, untrimmed. */
    method EditName(text: string)
      modifies this
      ensures storeName == text
      ensures editingStore == old(editingStore) && userData == old(userData)
      ensures sessionStoreName == old(sessionStoreName) && sessionStoreSlug == old(sessionStoreSlug)
      ensures sessionFirstName == old(sessionFirstName)
    {
      storeName := text;
    }

    /** Cancel closes the editor and puts the loaded name, else the session's, back into the field. */
    method CancelEdit()
      modifies this
      ensures !editingStore && storeName == CancelledName(old(userData), old(sessionStoreName))
      ensures userData == old(userData)
      ensures sessionStoreName == old(sessionStoreName) && sessionStoreSlug == old(sessionStoreSlug)
      ensures sessionFirstName == old(sessionFirstName)
    {
      editingStore := false;
      storeName := CancelledName(userData, sessionStoreName);
    }

    /** A failed update puts the session's store name, if set, back into the field. */
    method RestoreSessionName()
      modifies this
      ensures storeName == (if Present(sessionStoreName) then sessionStoreName.value else old(storeName))
      ensures userData == old(userData) && editingStore == old(editingStore)
      ensures sessionStoreName == old(sessionStoreName) && sessionStoreSlug == old(sessionStoreSlug)
      ensures sessionFirstName == old(sessionFirstName)
    {
      if Present(sessionStoreName) {
        storeName := sessionStoreName.value;
      }
    }

    /** The local state after the slug was updated. */
    method ShowRenamed(users: UserStore, userId: string, name: string, slug: string)
      modifies this
      ensures sessionStoreName == Some(name) && sessionStoreSlug == Some(slug) && !editingStore
      ensures userData == (if userId in users.users then Some(WithId(userId, users.users[userId])) else old(userData))
      ensures storeName == old(storeName) && sessionFirstName == old(sessionFirstName)
    {
      sessionStoreName := Some(name);
      sessionStoreSlug := Some(slug);
      if userId in users.users {
        userData := Some(WithId(userId, users.users[userId]));
      }
      editingStore := false;
    }

    /**
     * `handleStoreNameUpdate`: a name blank after trimming is never submitted; otherwise
     * the trimmed name goes to `updateStoreSlug`, and on failure the session's name, if
     * set, comes back into the field.
     */
    method HandleStoreNameUpdate(users: UserStore, userId: string) returns (res: Option<Result<string>>)
      modifies this, users
      ensures Trim(old(storeName)) == "" ==>
        res.None? && users.Db() == old(users.Db()) && storeName == old(storeName)
        && sessionStoreName == old(sessionStoreName) && sessionStoreSlug == old(sessionStoreSlug)
        && editingStore == old(editingStore) && userData == old(userData)
      ensures Trim(old(storeName)) != "" ==>
        res.Some? && (res.value, users.Db()) == UpdateStoreSlugSpec(old(users.Db()), userId, Trim(old(storeName)))
      ensures res.Some? && res.value.Success? ==>
        sessionStoreName == Some(Trim(old(storeName))) && sessionStoreSlug == Some(res.value.value)
        && !editingStore && storeName == old(storeName)
        && userData == (if userId in users.Db().users then Some(WithId(userId, users.Db().users[userId])) else old(userData))
      ensures res.Some? && res.value.Failure? ==>
        sessionStoreName == old(sessionStoreName) && sessionStoreSlug == old(sessionStoreSlug)
        && storeName == (if Present(old(sessionStoreName)) then old(sessionStoreName).value else old(storeName))
        && editingStore == old(editingStore) && userData == old(userData)
      ensures sessionFirstName == old(sessionFirstName)
    {
      var name := Trim(storeName);
      if name == "" {
        return None;
      }
      var r := SubmitStoreName(users, userId, name);
      res := Some(r);
    }

    /** The write of a non-blank trimmed name and the page after it. */
    method SubmitStoreName(users: UserStore, userId: string, name: string) returns (r: Result<string>)
      modifies this, users
      ensures (r, users.Db()) == UpdateStoreSlugSpec(old(users.Db()), userId, name)
      ensures r.Success? ==>
        sessionStoreName == Some(name) && sessionStoreSlug == Some(r.value) && !editingStore && storeName == old(storeName)
        && userData == (if userId in users.Db().users then Some(WithId(userId, users.Db().users[userId])) else old(userData))
      ensures r.Failure? ==>
        sessionStoreName == old(sessionStoreName) && sessionStoreSlug == old(sessionStoreSlug)
        && storeName == (if Present(old(sessionStoreName)) then old(sessionStoreName).value else old(storeName))
        && editingStore == old(editingStore) && userData == old(userData)
      ensures sessionFirstName == old(sessionFirstName)
    {
      r := users.UpdateStoreSlug(userId, name);
      if r.Success? {
        ShowRenamed(users, userId, name, r.value);
      } else {
        RestoreSessionName();
      }
    }
  }
}
