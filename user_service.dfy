/**
 * The user service (src/services/userService.js): counter-based user ids, user
 * creation and update, the id-prefix classifier, the customer/franchise migration with
 * its lineage pointers, the attribute migration, and the store-slug rename.
 *
 * The database is a value `UserDb`: the `users` collection (id to document), the two
 * counter documents of the `counters` collection, and the `stores` collection (slug to
 * store). A transaction is one step from one value to the next.
 */
module UserService {
  import opened Wrappers
  import opened Text
  import opened Docs
  import opened Slug

  /** A document of the `stores` collection; its id is its slug. */
  datatype Store = Store(franchiseId: string, storeName: string, storeSlug: string, status: string)

  /** The counters hold `currentCount`; an absent counter document is None. */
  datatype UserDb = UserDb(
    users: map<string, Doc>,
    customerCount: Option<nat>,
    franchiseCount: Option<nat>,
    stores: map<string, Store>)

  const CreateFailed := "Failed to create user: "
  const UpdateFailed := "Failed to update user: "
  const UpgradeFailed := "Failed to upgrade user to franchise: "
  const RevertFailed := "Failed to revert user to customer: "
  const AttributesFailed := "Failed to update user attributes: "
  const UserNotFound := "User not found"
  const InvalidUserIdFormat := "Invalid user ID format"
  const NoDocumentToUpdate := "No document to update"
  const InvalidDocumentPath := "Invalid document reference"
  const UndefinedFieldValue := "Unsupported field value: undefined"
  const StartsWithNotAFunction := "startsWith is not a function"
  const UserIdTaken := "User ID already exists"
  const SlugTaken := "Store slug already taken"

  // ---------------------------------------------------------------------
  // generateNextUserId

  /** Prefix `cu` uses the customer counter; every other prefix the franchise counter. */
  function CounterFor(db: UserDb, prefix: string): Option<nat> {
    if prefix == "cu" then db.customerCount else db.franchiseCount
  }

  /** 1 when the counter document is absent, otherwise `currentCount + 1`. */
  function NextNumber(counter: Option<nat>): (n: nat)
    ensures n >= 1
    ensures counter.Some? ==> n == counter.value + 1
  {
    match counter
    case None => 1
    case Some(c) => c + 1
  }

  /** `${prefix}${String(n).padStart(6, '0')}` */
  function FormatUserId(prefix: string, n: nat): string {
    prefix + Pad6(n)
  }

  /** The number a formatted id carries after its prefix. */
  lemma FormatUserIdReadsBack(prefix: string, n: nat)
    ensures StartsWith(FormatUserId(prefix, n), prefix)
    ensures ParseInt(FormatUserId(prefix, n)[|prefix|..]) == Some(n)
  {
    assert FormatUserId(prefix, n)[|prefix|..] == Pad6(n);
    ParseIntPad6(n);
  }

  /** `generateNextUserId(prefix)`: the id and the database with the counter written. */
  function NextUserIdSpec(db: UserDb, prefix: string): (string, UserDb) {
    var n := NextNumber(CounterFor(db, prefix));
    (FormatUserId(prefix, n),
     if prefix == "cu" then db.(customerCount := Some(n)) else db.(franchiseCount := Some(n)))
  }

  /** The id carries the counter's next value, which is stored; nothing else changes. */
  lemma NextUserIdAllocates(db: UserDb, prefix: string)
    ensures var (id, db') := NextUserIdSpec(db, prefix);
      var n := if CounterFor(db, prefix).None? then 1 else CounterFor(db, prefix).value + 1;
      StartsWith(id, prefix) && ParseInt(id[|prefix|..]) == Some(n)
      && CounterFor(db', prefix) == Some(n)
      && db'.users == db.users && db'.stores == db.stores
      && (prefix == "cu" ==> db'.franchiseCount == db.franchiseCount)
      && (prefix != "cu" ==> db'.customerCount == db.customerCount)
  {
    var n := NextNumber(CounterFor(db, prefix));
    FormatUserIdReadsBack(prefix, n);
  }

  /** Two successive calls under one counter give increasing numbers and distinct ids. */
  lemma SuccessiveUserIdsIncrease(db: UserDb, prefix: string)
    ensures var (id1, db1) := NextUserIdSpec(db, prefix);
      var (id2, db2) := NextUserIdSpec(db1, prefix);
      StartsWith(id1, prefix) && StartsWith(id2, prefix)
      && ParseInt(id1[|prefix|..]).Some?
      && ParseInt(id2[|prefix|..]) == Some(ParseInt(id1[|prefix|..]).value + 1)
      && id1 != id2
  {
    var (id1, db1) := NextUserIdSpec(db, prefix);
    var n := NextNumber(CounterFor(db, prefix));
    FormatUserIdReadsBack(prefix, n);
    FormatUserIdReadsBack(prefix, n + 1);
    assert id1[|prefix|..] == Pad6(n);
  }

  /** A call on one counter leaves the other counter's next id unchanged. */
  lemma CountersIndependent(db: UserDb)
    ensures NextUserIdSpec(NextUserIdSpec(db, "cu").1, "fr").0 == NextUserIdSpec(db, "fr").0
    ensures NextUserIdSpec(NextUserIdSpec(db, "fr").1, "cu").0 == NextUserIdSpec(db, "cu").0
  {
  }

  // ---------------------------------------------------------------------
  // createUser

  const RequiredFields: seq<Field> := [Email, FirstName, LastName, Category, Id]

  /** The first listed field that is missing or falsy. */
  function FirstMissing(d: Doc, fields: seq<Field>): (r: Option<Field>)
    ensures r.None? <==> forall i :: 0 <= i < |fields| ==> FieldTruthy(d, fields[i])
    ensures r.Some? ==> exists i :: 0 <= i < |fields| && fields[i] == r.value && !FieldTruthy(d, fields[i])
                                    && forall j :: 0 <= j < i ==> FieldTruthy(d, fields[j])
  {
    if fields == [] then None
    else if !FieldTruthy(d, fields[0]) then Some(fields[0])
    else
      var r := FirstMissing(d, fields[1..]);
      assert r.Some? ==> exists i :: 0 <= i < |fields| && fields[i] == r.value && !FieldTruthy(d, fields[i])
                                    && forall j :: 0 <= j < i ==> FieldTruthy(d, fields[j]) by {
        if r.Some? {
          var i :| 0 <= i < |fields[1..]| && fields[1..][i] == r.value && !FieldTruthy(d, fields[1..][i])
                   && forall j :: 0 <= j < i ==> FieldTruthy(d, fields[1..][j]);
          assert forall j :: 0 <= j < i + 1 ==> FieldTruthy(d, fields[j]) by {
            forall j | 0 <= j < i + 1 ensures FieldTruthy(d, fields[j]) {
              if j > 0 { assert fields[j] == fields[1..][j - 1]; }
            }
          }
        }
      }
      r
  }

  /** The `for (const field of requiredFields)` loop of `createUser`. */
  method FindMissingRequired(userData: Doc) returns (missing: Option<Field>)
    ensures missing == FirstMissing(userData, RequiredFields)
  {
    var i := 0;
    while i < |RequiredFields|
      invariant 0 <= i <= |RequiredFields|
      invariant FirstMissing(userData, RequiredFields) == FirstMissing(userData, RequiredFields[i..])
    {
      if !FieldTruthy(userData, RequiredFields[i]) {
        return Some(RequiredFields[i]);
      }
      assert RequiredFields[i..][1..] == RequiredFields[i + 1..];
      i := i + 1;
    }
    return None;
  }

  /** Some stored user has this email. */
  predicate EmailTaken(db: UserDb, email: Value) {
    exists id | id in db.users :: Email in db.users[id] && db.users[id][Email] == email
  }

  /** The fields `createUser` sets itself on every new record. */
  function NewUserDefaults(now: nat): Doc {
    map[CreatedAt := Time(now), UpdatedAt := Time(now), IsActive := Bool(true), IsOnline := Bool(false),
        LastActiveAt := Null, LastLoginAt := Null, SchemaVersion := Num(1)]
  }

  /** The address, phone and card fields, each `userData[k] || ''`. */
  const ContactFields: set<Field> := {Address, City, State, Country, CountryCode, ZipCode,
    Phone, PrimaryPhone, SecondaryPhone, CardNumber, Cvv, ExpiryDate}

  function ContactDefaults(userData: Doc): Doc {
    map k | k in ContactFields :: Or(userData, k, Str(""))
  }

  /** The record `createUser` stores under `id`. */
  function NewUserRecord(userData: Doc, id: string, now: nat): Doc {
    userData[Id := Str(id)] + NewUserDefaults(now) + ContactDefaults(userData)
  }

  /** The counter used when the requested id is taken: customers `cu`, everyone else `fr`. */
  function ReplacementPrefix(userData: Doc): string {
    if Category in userData && userData[Category] == Str("customer") then "cu" else "fr"
  }

  /** The checks `createUser` makes, in order; on success, the requested id. */
  function CreateUserChecks(db: UserDb, userData: Doc): (r: Result<string>)
    ensures r.Success? ==> Id in userData && userData[Id] == Str(r.value)
  {
    match FirstMissing(userData, RequiredFields)
    case Some(f) => Failure(CreateFailed + FieldName(f) + " is required")
    case None =>
      assert FieldTruthy(userData, RequiredFields[0]) && FieldTruthy(userData, RequiredFields[4]);
      if EmailTaken(db, userData[Email]) then Failure(CreateFailed + "Email already exists")
      else if !userData[Id].Str? then Failure(CreateFailed + InvalidDocumentPath)
      else Success(userData[Id].s)
  }

  /** The id the record is stored under, and the database after any counter allocation. */
  function ChooseId(db: UserDb, userData: Doc, requested: string): (string, UserDb) {
    if requested in db.users then NextUserIdSpec(db, ReplacementPrefix(userData)) else (requested, db)
  }

  /**
   * `createUser` as written: a taken id is replaced by a counter id, which is stored
   * without checking whether that id is taken too.
   */
  function CreateUserAsWritten(db: UserDb, userData: Doc, now: nat): (Result<string>, UserDb) {
    match CreateUserChecks(db, userData)
    case Failure(e) => (Failure(e), db)
    case Success(requested) =>
      var (id, db1) := ChooseId(db, userData, requested);
      (Success(id), db1.(users := db1.users[id := NewUserRecord(userData, id, now)]))
  }

  /** `createUser`, refusing a replacement id that is already taken instead of overwriting it. */
  function CreateUserSpec(db: UserDb, userData: Doc, now: nat): (r: (Result<string>, UserDb))
    ensures r.0.Failure? ==> r.1.users == db.users && r.1.stores == db.stores
    ensures r.0.Success? ==> r.0.value !in db.users && r.1.users.Keys == db.users.Keys + {r.0.value}
  {
    match CreateUserChecks(db, userData)
    case Failure(e) => (Failure(e), db)
    case Success(requested) =>
      var (id, db1) := ChooseId(db, userData, requested);
      if id in db1.users then (Failure(CreateFailed + UserIdTaken), db1)
      else (Success(id), db1.(users := db1.users[id := NewUserRecord(userData, id, now)]))
  }

  /** A missing required field or a known email is refused and nothing is written. */
  lemma CreateUserRejects(db: UserDb, userData: Doc, now: nat)
    ensures (exists i :: 0 <= i < |RequiredFields| && !FieldTruthy(userData, RequiredFields[i]))
      ==> CreateUserSpec(db, userData, now).0.Failure? && CreateUserSpec(db, userData, now).1 == db
    ensures !FieldTruthy(userData, Email) ==>
      CreateUserSpec(db, userData, now) == (Failure(CreateFailed + "email is required"), db)
    ensures FirstMissing(userData, RequiredFields).None? && Email in userData && EmailTaken(db, userData[Email]) ==>
      CreateUserSpec(db, userData, now) == (Failure(CreateFailed + "Email already exists"), db)
  {
    if !FieldTruthy(userData, Email) {
      assert FirstMissing(userData, RequiredFields) == Some(Email);
      assert FieldName(Email) + " is required" == "email is required";
      assert CreateFailed + FieldName(Email) + " is required" == CreateFailed + "email is required";
    }
  }

  lemma DefaultsAreNotContacts()
    ensures Id !in ContactFields && CreatedAt !in ContactFields && UpdatedAt !in ContactFields
    ensures IsActive !in ContactFields && IsOnline !in ContactFields && SchemaVersion !in ContactFields
    ensures LastActiveAt !in ContactFields && LastLoginAt !in ContactFields
  {
  }

  /** A new user carries its id, is active and offline, and is on schema version 1. */
  lemma NewUserRecordDefaults(userData: Doc, id: string, now: nat)
    ensures NewUserRecord(userData, id, now)[Id] == Str(id)
    ensures NewUserRecord(userData, id, now)[IsActive] == Bool(true)
    ensures NewUserRecord(userData, id, now)[IsOnline] == Bool(false)
    ensures NewUserRecord(userData, id, now)[SchemaVersion] == Num(1)
  {
    DefaultsAreNotContacts();
  }

  /** Both timestamps are the creation time, and the user has never been active or logged in. */
  lemma NewUserRecordTimes(userData: Doc, id: string, now: nat)
    ensures NewUserRecord(userData, id, now)[CreatedAt] == Time(now)
    ensures NewUserRecord(userData, id, now)[UpdatedAt] == Time(now)
    ensures NewUserRecord(userData, id, now)[LastActiveAt] == Null
    ensures NewUserRecord(userData, id, now)[LastLoginAt] == Null
  {
    DefaultsAreNotContacts();
  }

  /** Each contact field is the submitted value when truthy, and '' otherwise. */
  lemma NewUserRecordContacts(userData: Doc, id: string, now: nat)
    ensures forall k :: k in ContactFields ==>
      NewUserRecord(userData, id, now)[k] == if FieldTruthy(userData, k) then userData[k] else Str("")
  {
  }

  /** Every other submitted field is stored as submitted. */
  lemma NewUserRecordKeeps(userData: Doc, id: string, now: nat)
    ensures forall k :: k in userData && k != Id && k !in ContactFields && k !in NewUserDefaults(now) ==>
      NewUserRecord(userData, id, now)[k] == userData[k]
  {
  }

  /** A successful creation adds exactly one user. */
  lemma CreateUserAddsOne(db: UserDb, userData: Doc, now: nat)
    ensures var (res, db') := CreateUserSpec(db, userData, now);
      res.Success? ==> |db'.users.Keys| == |db.users.Keys| + 1
  {
  }

  /** A successful creation stores that record under a free id and leaves every other user alone. */
  lemma CreateUserStores(db: UserDb, userData: Doc, now: nat)
    requires CreateUserSpec(db, userData, now).0.Success?
    ensures var (res, db') := CreateUserSpec(db, userData, now);
      res.value !in db.users
      && (userData[Id] == Str(res.value) || StartsWith(res.value, ReplacementPrefix(userData)))
      && db'.users == db.users[res.value := NewUserRecord(userData, res.value, now)]
  {
    var requested := CreateUserChecks(db, userData).value;
    var (id, db1) := ChooseId(db, userData, requested);
    assert db1.users == db.users;
    assert CreateUserSpec(db, userData, now) == (Success(id), db1.(users := db1.users[id := NewUserRecord(userData, id, now)]));
    if requested in db.users {
      var prefix := ReplacementPrefix(userData);
      FormatUserIdReadsBack(prefix, NextNumber(CounterFor(db, prefix)));
      assert id == FormatUserId(prefix, NextNumber(CounterFor(db, prefix)));
    }
  }

  lemma PadOne()
    ensures Pad6(1) == "000001"
  {
    assert DecimalDigits(1) == "1";
    assert Zeros(5) == "00000";
  }

  /**
   * Finding: as written, when the requested id is taken and so is the counter's
   * replacement, the replacement's record is overwritten; the corrected creation refuses.
   */
  lemma CreateUserAsWrittenOverwrites(db: UserDb, userData: Doc, now: nat)
    requires CreateUserChecks(db, userData).Success? && CreateUserChecks(db, userData).value in db.users
    requires NextUserIdSpec(db, ReplacementPrefix(userData)).0 in db.users
    ensures var id := NextUserIdSpec(db, ReplacementPrefix(userData)).0;
      CreateUserAsWritten(db, userData, now).0 == Success(id)
      && CreateUserAsWritten(db, userData, now).1.users == db.users[id := NewUserRecord(userData, id, now)]
    ensures CreateUserSpec(db, userData, now).0 == Failure(CreateFailed + UserIdTaken)
    ensures CreateUserSpec(db, userData, now).1.users == db.users
  {
  }

  /**
   * The corrected creation parts from the one as written only where the written one
   * overwrites a stored user: whenever it succeeds, the two agree.
   */
  lemma CreateUserAgreesUnlessTaken(db: UserDb, userData: Doc, now: nat)
    ensures CreateUserSpec(db, userData, now).0.Success? ==> CreateUserSpec(db, userData, now) == CreateUserAsWritten(db, userData, now)
    ensures CreateUserSpec(db, userData, now).0.Failure? && CreateUserAsWritten(db, userData, now).0.Success? ==>
      CreateUserAsWritten(db, userData, now).0.value in db.users
  {
    if CreateUserChecks(db, userData).Success? {
      var requested := CreateUserChecks(db, userData).value;
      if requested in db.users {
        NextUserIdAllocates(db, ReplacementPrefix(userData));
      }
    }
  }

  /** A customer created from the console as `cu000001` before the customer counter exists. */
  function AnaRecord(): Doc {
    map[Id := Str("cu000001"), Email := Str("ana@example.com")]
  }

  function CollisionDb(): UserDb {
    UserDb(map["cu000001" := AnaRecord()], None, None, map[])
  }

  /** A sign-up that asks for the id `cu000001`. */
  function BenSignup(): Doc {
    map[Id := Str("cu000001"), Email := Str("ben@example.com"), FirstName := Str("Ben"),
        LastName := Str("Cruz"), Category := Str("customer")]
  }

  lemma BenSignupPasses()
    ensures CreateUserChecks(CollisionDb(), BenSignup()) == Success("cu000001")
  {
    RequiredPresent(BenSignup());
    assert !EmailTaken(CollisionDb(), Str("ben@example.com"));
  }

  lemma BenReplacementTaken()
    ensures NextUserIdSpec(CollisionDb(), ReplacementPrefix(BenSignup())).0 == "cu000001"
  {
    PadOne();
  }

  /**
   * An input that reaches it: a console-created `cu000001` and no customer counter yet.
   * A newcomer who asks for `cu000001` is given `cu000001` again, and the stored record
   * would become a different person's.
   */
  lemma CreateUserCollisionExample()
    ensures CreateUserChecks(CollisionDb(), BenSignup()) == Success("cu000001")
    ensures NextUserIdSpec(CollisionDb(), ReplacementPrefix(BenSignup())).0 == "cu000001"
    ensures NewUserRecord(BenSignup(), "cu000001", 7)[Email] != AnaRecord()[Email]
  {
    BenSignupPasses();
    BenReplacementTaken();
    BenRecordEmail();
  }

  lemma BenRecordEmail()
    ensures NewUserRecord(BenSignup(), "cu000001", 7)[Email] == Str("ben@example.com")
  {
    var d := BenSignup();
    assert Email in d && d[Email] == Str("ben@example.com");
    assert Email !in ContactFields;
    assert Email !in NewUserDefaults(7);
    NewUserRecordKeeps(d, "cu000001", 7);
  }

  lemma RequiredPresent(d: Doc)
    requires FieldTruthy(d, Email) && FieldTruthy(d, FirstName) && FieldTruthy(d, LastName)
    requires FieldTruthy(d, Category) && FieldTruthy(d, Id)
    ensures FirstMissing(d, RequiredFields).None?
  {
  }

  /** The corrected creation never replaces an existing user. */
  lemma CreateUserNeverOverwrites(db: UserDb, userData: Doc, now: nat)
    ensures forall id :: id in db.users ==>
      (id in CreateUserSpec(db, userData, now).1.users && CreateUserSpec(db, userData, now).1.users[id] == db.users[id])
  {
  }

  // ---------------------------------------------------------------------
  // updateUser

  /** The update data with every empty-string value deleted. */
  function WithoutEmpty(d: Doc): Doc {
    map k | k in d && d[k] != Str("") :: d[k]
  }

  /** The `Object.keys(updateData).forEach(key => delete ...)` loop of `updateUser`. */
  method DropEmptyValues(updateData: Doc) returns (r: Doc)
    ensures r == WithoutEmpty(updateData)
    ensures forall k :: k in r ==> r[k] != Str("")
  {
    r := updateData;
    var keys := updateData.Keys;
    while keys != {}
      invariant keys <= updateData.Keys
      invariant r == map k | k in updateData && (k in keys || updateData[k] != Str("")) :: updateData[k]
      decreases keys
    {
      var k :| k in keys;
      if r[k] == Str("") {
        r := r - {k};
      }
      keys := keys - {k};
    }
  }

  /** A category change is left to the caller; the update then writes nothing. */
  predicate ChangesCategory(current: Doc, userData: Doc) {
    FieldTruthy(userData, Category) && !(Category in current && current[Category] == userData[Category])
  }

  function UpdateUserSpec(db: UserDb, userId: string, userData: Doc, now: nat): (Result<bool>, UserDb) {
    if userId !in db.users then (Failure(UpdateFailed + UserNotFound), db)
    else
      var current := db.users[userId];
      if ChangesCategory(current, userData) then (Success(true), db)
      else
        var updateData := WithoutEmpty(current + userData + map[UpdatedAt := Time(now)]);
        (Success(true), db.(users := db.users[userId := current + updateData]))
  }

  /** The record a successful update stores. */
  function UpdatedRecord(db: UserDb, userId: string, userData: Doc, now: nat): Doc
    requires userId in db.users
  {
    UpdateUserSpec(db, userId, userData, now).1.users[userId]
  }

  /**
   * After an update the record keeps every stored field, gains every submitted field
   * that is not the empty string, and gets `updatedAt`; nothing else changes.
   */
  lemma UpdateUserKeys(db: UserDb, userId: string, userData: Doc, now: nat)
    requires userId in db.users && !ChangesCategory(db.users[userId], userData)
    ensures UpdatedRecord(db, userId, userData, now).Keys
      == db.users[userId].Keys + (set k | k in userData && userData[k] != Str("")) + {UpdatedAt}
    ensures UpdatedRecord(db, userId, userData, now)[UpdatedAt] == Time(now)
    ensures UpdateUserSpec(db, userId, userData, now).1 == db.(users := UpdateUserSpec(db, userId, userData, now).1.users)
    ensures UpdateUserSpec(db, userId, userData, now).1.users.Keys == db.users.Keys
  {
  }

  /**
   * Each field other than `updatedAt` takes the submitted value unless that value is the
   * empty string, in which case the stored value stays.
   */
  lemma UpdateUserMerges(db: UserDb, userId: string, userData: Doc, now: nat)
    requires userId in db.users && !ChangesCategory(db.users[userId], userData)
    ensures forall k :: k in UpdatedRecord(db, userId, userData, now) && k != UpdatedAt ==>
      UpdatedRecord(db, userId, userData, now)[k]
        == if k in userData && userData[k] != Str("") then userData[k] else db.users[userId][k]
  {
  }

  // ---------------------------------------------------------------------
  // detectCategory

  function DetectCategory(userId: string): (r: Result<string>)
    ensures r.Success? <==> StartsWith(userId, "cu") || StartsWith(userId, "fr") || StartsWith(userId, "ad")
    ensures r.Failure? ==> r.error == InvalidUserIdFormat
  {
    if StartsWith(userId, "cu") then Success("customer")
    else if StartsWith(userId, "fr") then Success("franchise")
    else if StartsWith(userId, "ad") then Success("admin")
    else Failure(InvalidUserIdFormat)
  }

  /** Ids built by the counters are classified by their prefix. */
  lemma DetectCategoryOfAllocated(n: nat)
    ensures DetectCategory(FormatUserId("cu", n)) == Success("customer")
    ensures DetectCategory(FormatUserId("fr", n)) == Success("franchise")
    ensures DetectCategory(FormatUserId("ad", n)) == Success("admin")
    ensures DetectCategory(FormatUserId("te", n)).Failure?
  {
    FormatUserIdReadsBack("cu", n);
    FormatUserIdReadsBack("fr", n);
    FormatUserIdReadsBack("ad", n);
    FormatUserIdReadsBack("te", n);
  }

  // ---------------------------------------------------------------------
  // upgradeToFranchise and revertToCustomer

  /** `d[k] && d[k].startsWith(prefix)`, for a field that holds a string. */
  predicate ReusableLineage(d: Doc, k: Field, prefix: string) {
    FieldTruthy(d, k) && d[k].Str? && StartsWith(d[k].s, prefix)
  }

  /** `d[k].startsWith` on a truthy value that is not a string throws. */
  predicate LineageNotString(d: Doc, k: Field) {
    FieldTruthy(d, k) && !d[k].Str?
  }

  function FranchiseRecord(d: Doc, customerId: string, franchiseId: string, now: nat): Doc {
    d + map[Id := Str(franchiseId), UserId := Str(franchiseId), Category := Str("franchise"),
            PreviousId := Str(customerId), PreviousFranchiseId := Null, StoreName := Str(""),
            StoreSlug := Str(""), StoreStatus := Str("building"), UpdatedAt := Time(now)]
  }

  function CustomerRecord(d: Doc, franchiseId: string, customerId: string, now: nat): Doc {
    d + map[Id := Str(customerId), UserId := Str(customerId), Category := Str("customer"),
            PreviousFranchiseId := Str(franchiseId), PreviousId := Null, UpdatedAt := Time(now)]
  }

  /** The fields the migration rewrites; every other field travels with the user. */
  predicate MigrationField(k: Field) {
    k.Id? || k.UserId? || k.Category? || k.PreviousId? || k.PreviousFranchiseId?
    || k.StoreName? || k.StoreSlug? || k.StoreStatus? || k.UpdatedAt?
  }

  /** The franchise record points back to the customer and starts a store in `building`. */
  lemma FranchiseRecordAt(d: Doc, customerId: string, franchiseId: string, now: nat)
    ensures var r := FranchiseRecord(d, customerId, franchiseId, now);
      Category in r && r[Category] == Str("franchise") && PreviousId in r && r[PreviousId] == Str(customerId)
    ensures var r := FranchiseRecord(d, customerId, franchiseId, now);
      PreviousFranchiseId in r && r[PreviousFranchiseId] == Null && StoreStatus in r && r[StoreStatus] == Str("building")
  {
  }

  /** Every field outside the migrated ones travels to the franchise record unchanged. */
  lemma FranchiseRecordKeeps(d: Doc, customerId: string, franchiseId: string, now: nat)
    ensures forall k :: k in d && !MigrationField(k) ==>
      k in FranchiseRecord(d, customerId, franchiseId, now) && FranchiseRecord(d, customerId, franchiseId, now)[k] == d[k]
  {
  }

  /** The customer record points forward to the franchise id it came from. */
  lemma CustomerRecordAt(d: Doc, franchiseId: string, customerId: string, now: nat)
    ensures var r := CustomerRecord(d, franchiseId, customerId, now);
      Category in r && r[Category] == Str("customer") && PreviousFranchiseId in r && r[PreviousFranchiseId] == Str(franchiseId)
    ensures var r := CustomerRecord(d, franchiseId, customerId, now);
      PreviousId in r && r[PreviousId] == Null
    ensures forall k :: k in d && !MigrationField(k) ==>
      k in CustomerRecord(d, franchiseId, customerId, now) && CustomerRecord(d, franchiseId, customerId, now)[k] == d[k]
  {
  }

  function UpgradeSpec(db: UserDb, userId: string, now: nat): (r: (Result<string>, UserDb))
    ensures r.0.Failure? ==> r.1 == db
    ensures r.1.stores == db.stores && r.1.customerCount == db.customerCount
  {
    if userId !in db.users then (Failure(UpgradeFailed + UserNotFound), db)
    else
      var d := db.users[userId];
      match DetectCategory(userId)
      case Failure(e) => (Failure(UpgradeFailed + e), db)
      case Success(category) =>
        if category != "customer" then (Failure(UpgradeFailed + "Only customers can be upgraded to franchise"), db)
        else if LineageNotString(d, PreviousFranchiseId) then (Failure(UpgradeFailed + StartsWithNotAFunction), db)
        else
          var (franchiseId, db1) :=
            if ReusableLineage(d, PreviousFranchiseId, "fr") then (d[PreviousFranchiseId].s, db)
            else NextUserIdSpec(db, "fr");
          (Success(franchiseId),
           db1.(users := db1.users[franchiseId := FranchiseRecord(d, userId, franchiseId, now)] - {userId}))
  }

  function RevertSpec(db: UserDb, userId: string, now: nat): (r: (Result<string>, UserDb))
    ensures r.0.Failure? ==> r.1 == db
    ensures r.1.stores == db.stores && r.1.customerCount == db.customerCount && r.1.franchiseCount == db.franchiseCount
  {
    if userId !in db.users then (Failure(RevertFailed + UserNotFound), db)
    else
      var d := db.users[userId];
      match DetectCategory(userId)
      case Failure(e) => (Failure(RevertFailed + e), db)
      case Success(category) =>
        if category != "franchise" then (Failure(RevertFailed + "Only franchises can be reverted to customer"), db)
        else if !FieldTruthy(d, PreviousId) then (Failure(RevertFailed + "Original customer ID not found or invalid"), db)
        else if LineageNotString(d, PreviousId) then (Failure(RevertFailed + StartsWithNotAFunction), db)
        else if !StartsWith(d[PreviousId].s, "cu") then (Failure(RevertFailed + "Original customer ID not found or invalid"), db)
        else
          var customerId := d[PreviousId].s;
          (Success(customerId),
           db.(users := db.users[customerId := CustomerRecord(d, userId, customerId, now)] - {userId}))
  }

  /** Only a stored customer can be upgraded; a refusal writes nothing. */
  lemma UpgradeRefusals(db: UserDb, userId: string, now: nat)
    ensures !StartsWith(userId, "cu") || userId !in db.users ==>
      UpgradeSpec(db, userId, now).0.Failure? && UpgradeSpec(db, userId, now).1 == db
  {
  }

  /** Only a stored franchise can be reverted; a refusal writes nothing. */
  lemma RevertRefusals(db: UserDb, userId: string, now: nat)
    ensures !StartsWith(userId, "fr") || userId !in db.users ==>
      RevertSpec(db, userId, now).0.Failure? && RevertSpec(db, userId, now).1 == db
  {
  }

  /** A successful upgrade writes the franchise record under the new id and deletes the customer record. */
  lemma UpgradeStores(db: UserDb, userId: string, now: nat)
    requires UpgradeSpec(db, userId, now).0.Success?
    ensures var (res, db') := UpgradeSpec(db, userId, now);
      userId in db.users && StartsWith(userId, "cu") && StartsWith(res.value, "fr")
      && db'.users == db.users[res.value := FranchiseRecord(db.users[userId], userId, res.value, now)] - {userId}
  {
    var d := db.users[userId];
    if !ReusableLineage(d, PreviousFranchiseId, "fr") {
      NextUserIdAllocates(db, "fr");
    }
  }

  /**
   * Upgrading: the franchise record points back to the customer id and starts a store in
   * `building`; every other field travels; the customer record is gone.
   */
  lemma UpgradeMoves(db: UserDb, userId: string, now: nat)
    requires UpgradeSpec(db, userId, now).0.Success?
    ensures var (res, db') := UpgradeSpec(db, userId, now);
      userId !in db'.users && res.value in db'.users
      && db'.users[res.value][Category] == Str("franchise") && db'.users[res.value][PreviousId] == Str(userId)
      && db'.users[res.value][PreviousFranchiseId] == Null && db'.users[res.value][StoreStatus] == Str("building")
    ensures var (res, db') := UpgradeSpec(db, userId, now);
      forall k :: k in db.users[userId] && !MigrationField(k) ==> k in db'.users[res.value] && db'.users[res.value][k] == db.users[userId][k]
  {
    var (res, db') := UpgradeSpec(db, userId, now);
    UpgradeStores(db, userId, now);
    assert res.value != userId by { assert res.value[..2] != userId[..2]; }
    FranchiseRecordAt(db.users[userId], userId, res.value, now);
    FranchiseRecordKeeps(db.users[userId], userId, res.value, now);
  }

  /**
   * The franchise id: a string `previousFranchiseId` starting with `fr` is reused and the
   * counter is left alone; otherwise the counter's next id is taken.
   */
  lemma UpgradeChoosesId(db: UserDb, userId: string, now: nat)
    requires UpgradeSpec(db, userId, now).0.Success?
    ensures var (res, db') := UpgradeSpec(db, userId, now);
      ReusableLineage(db.users[userId], PreviousFranchiseId, "fr") ==>
        res.value == db.users[userId][PreviousFranchiseId].s && db'.franchiseCount == db.franchiseCount
    ensures var (res, db') := UpgradeSpec(db, userId, now);
      !ReusableLineage(db.users[userId], PreviousFranchiseId, "fr") ==>
        (res.value, db'.franchiseCount) == (FormatUserId("fr", NextNumber(db.franchiseCount)), Some(NextNumber(db.franchiseCount)))
    ensures UpgradeSpec(db, userId, now).1.customerCount == db.customerCount
  {
  }

  /** A successful revert writes the customer record back under `previousId` and deletes the franchise record. */
  lemma RevertStores(db: UserDb, userId: string, now: nat)
    requires RevertSpec(db, userId, now).0.Success?
    ensures var (res, db') := RevertSpec(db, userId, now);
      userId in db.users && StartsWith(userId, "fr") && StartsWith(res.value, "cu")
      && PreviousId in db.users[userId] && db.users[userId][PreviousId] == Str(res.value)
      && db' == db.(users := db.users[res.value := CustomerRecord(db.users[userId], userId, res.value, now)] - {userId})
  {
  }

  /** Reverting: the customer record points forward to the franchise id; no counter moves. */
  lemma RevertMoves(db: UserDb, userId: string, now: nat)
    requires RevertSpec(db, userId, now).0.Success?
    ensures var (res, db') := RevertSpec(db, userId, now);
      userId !in db'.users && res.value in db'.users
      && db'.users[res.value][Category] == Str("customer") && db'.users[res.value][PreviousFranchiseId] == Str(userId)
      && db'.users[res.value][PreviousId] == Null
      && db'.franchiseCount == db.franchiseCount && db'.customerCount == db.customerCount
    ensures var (res, db') := RevertSpec(db, userId, now);
      forall k :: k in db.users[userId] && !MigrationField(k) ==> k in db'.users[res.value] && db'.users[res.value][k] == db.users[userId][k]
  {
    var (res, db') := RevertSpec(db, userId, now);
    RevertStores(db, userId, now);
    assert res.value != userId by { assert res.value[..2] != userId[..2]; }
    CustomerRecordAt(db.users[userId], userId, res.value, now);
  }

  /**
   * The migration round trip: upgrade, revert, upgrade again. The customer gets the
   * original id back, and the second upgrade reuses the first franchise id without
   * touching the counter.
   */
  lemma UpgradeRevertUpgrade(db: UserDb, customerId: string, t1: nat, t2: nat, t3: nat)
    requires UpgradeSpec(db, customerId, t1).0.Success?
    ensures var (r1, db1) := UpgradeSpec(db, customerId, t1);
      var (r2, db2) := RevertSpec(db1, r1.value, t2);
      var (r3, db3) := UpgradeSpec(db2, customerId, t3);
      r2 == Success(customerId) && r3 == Success(r1.value)
      && db3.franchiseCount == db1.franchiseCount && db3.customerCount == db.customerCount
  {
    var (r1, db1) := UpgradeSpec(db, customerId, t1);
    var f := r1.value;
    UpgradeStores(db, customerId, t1);
    UpgradeMoves(db, customerId, t1);
    UpgradeChoosesId(db, customerId, t1);
    assert DetectCategory(f) == Success("franchise") by {
      assert !StartsWith(f, "cu") by { assert f[..2] == "fr"; }
    }
    var d1 := db1.users[f];
    assert RevertSpec(db1, f, t2).0 == Success(customerId);
    RevertStores(db1, f, t2);
    RevertMoves(db1, f, t2);
    var db2 := RevertSpec(db1, f, t2).1;
    assert ReusableLineage(db2.users[customerId], PreviousFranchiseId, "fr");
    UpgradeChoosesId(db2, customerId, t3);
  }

  // ---------------------------------------------------------------------
  // updateUserAttributes

  /** The fields `updateUserAttributes` sets over the spread of the stored and submitted data. */
  function MigratedAttributes(current: Doc, userData: Doc, id: Value, now: nat): Doc {
    map[Id := id, UserId := id, SchemaVersion := Num(1), UpdatedAt := Time(now),
        IsActive := Coalesce(userData, current, IsActive, Bool(true)),
        IsOnline := Coalesce(userData, current, IsOnline, Bool(false)),
        LastActiveAt := Coalesce(userData, current, LastActiveAt, Null),
        LastLoginAt := Coalesce(userData, current, LastLoginAt, Null),
        Permissions := Coalesce(userData, current, Permissions, Bool(false)),
        Phone := Coalesce(userData, current, Phone, Str("")),
        CreatedAt := Or(current, CreatedAt, Time(now))]
  }

  lemma MigratedAttributesAt(current: Doc, userData: Doc, id: Value, now: nat)
    ensures var m := MigratedAttributes(current, userData, id, now);
      Id in m && m[Id] == id && UserId in m && m[UserId] == id && SchemaVersion in m && m[SchemaVersion] == Num(1)
    ensures var m := MigratedAttributes(current, userData, id, now);
      IsActive in m && m[IsActive] == Coalesce(userData, current, IsActive, Bool(true))
      && IsOnline in m && m[IsOnline] == Coalesce(userData, current, IsOnline, Bool(false))
      && Permissions in m && m[Permissions] == Coalesce(userData, current, Permissions, Bool(false))
  {
  }

  /** `userData.id || currentData.id`, which is undefined when both are missing. */
  function MigratedId(current: Doc, userData: Doc): Option<Value> {
    if FieldTruthy(userData, Id) then Some(userData[Id])
    else if Id in current then Some(current[Id])
    else None
  }

  function AttributesSpec(db: UserDb, userId: string, userData: Doc, now: nat): (r: (Result<bool>, UserDb))
    ensures r.0.Failure? ==> r.1 == db
    ensures r.1.users.Keys == db.users.Keys && r.1.stores == db.stores
    ensures r.1.customerCount == db.customerCount && r.1.franchiseCount == db.franchiseCount
  {
    if userId !in db.users then (Failure(AttributesFailed + UserNotFound), db)
    else
      var current := db.users[userId];
      match MigratedId(current, userData)
      case None => (Failure(AttributesFailed + UndefinedFieldValue), db)
      case Some(id) =>
        var updateData := current + userData + MigratedAttributes(current, userData, id, now);
        (Success(true), db.(users := db.users[userId := current + updateData]))
  }

  /** The record after a successful attribute migration. */
  function MigratedRecord(db: UserDb, userId: string, userData: Doc, now: nat): Doc
    requires AttributesSpec(db, userId, userData, now).0.Success?
  {
    AttributesSpec(db, userId, userData, now).1.users[userId]
  }

  /**
   * The record is on schema version 1, `userId` equals `id`, and `id` is the submitted
   * id when truthy and the stored one otherwise; only this user changes.
   */
  lemma AttributesMigrate(db: UserDb, userId: string, userData: Doc, now: nat)
    requires AttributesSpec(db, userId, userData, now).0.Success?
    ensures MigratedRecord(db, userId, userData, now)[SchemaVersion] == Num(1)
    ensures MigratedRecord(db, userId, userData, now)[UserId] == MigratedRecord(db, userId, userData, now)[Id]
        == MigratedId(db.users[userId], userData).value
    ensures forall other :: other in db.users && other != userId ==>
      other in AttributesSpec(db, userId, userData, now).1.users
      && AttributesSpec(db, userId, userData, now).1.users[other] == db.users[other]
  {
    var current := db.users[userId];
    MigratedAttributesAt(current, userData, MigratedId(current, userData).value, now);
  }

  /** No field is lost: the record has every stored and every submitted field. */
  lemma AttributesKeepFields(db: UserDb, userId: string, userData: Doc, now: nat)
    requires AttributesSpec(db, userId, userData, now).0.Success?
    ensures db.users[userId].Keys + userData.Keys <= MigratedRecord(db, userId, userData, now).Keys
  {
  }

  /**
   * Each flag is the submitted value if defined, else the stored one if defined, else its
   * default; so none of them is left null or missing.
   */
  lemma AttributesFlags(db: UserDb, userId: string, userData: Doc, now: nat)
    requires AttributesSpec(db, userId, userData, now).0.Success?
    ensures MigratedRecord(db, userId, userData, now)[IsActive] == Coalesce(userData, db.users[userId], IsActive, Bool(true)) != Null
    ensures MigratedRecord(db, userId, userData, now)[IsOnline] == Coalesce(userData, db.users[userId], IsOnline, Bool(false)) != Null
    ensures MigratedRecord(db, userId, userData, now)[Permissions] == Coalesce(userData, db.users[userId], Permissions, Bool(false)) != Null
  {
    var current := db.users[userId];
    MigratedAttributesAt(current, userData, MigratedId(current, userData).value, now);
  }

  /** A truthy stored creation time is kept; otherwise it becomes the migration time. */
  lemma AttributesCreatedAt(db: UserDb, userId: string, userData: Doc, now: nat)
    requires AttributesSpec(db, userId, userData, now).0.Success?
    ensures FieldTruthy(db.users[userId], CreatedAt) ==> MigratedRecord(db, userId, userData, now)[CreatedAt] == db.users[userId][CreatedAt]
    ensures !FieldTruthy(db.users[userId], CreatedAt) ==> MigratedRecord(db, userId, userData, now)[CreatedAt] == Time(now)
  {
  }

  // ---------------------------------------------------------------------
  // updateStoreSlug

  /** `${storeSlug}-${userId.substring(0, 4)}` */
  function SuffixedSlug(slug: string, userId: string): string {
    slug + "-" + Take(userId, 4)
  }

  /** Whether the store at this slug belongs to someone else. */
  predicate OwnedByOther(stores: map<string, Store>, slug: string, userId: string) {
    slug in stores && stores[slug].franchiseId != userId
  }

  /** The slug `updateStoreSlug` settles on, as written: the suffixed slug is not checked again. */
  function SlugForRenameAsWritten(stores: map<string, Store>, slug: string, userId: string): string {
    if OwnedByOther(stores, slug, userId) then SuffixedSlug(slug, userId) else slug
  }

  /** The slug settled on when the suffixed slug is checked as well. */
  function SlugForRename(stores: map<string, Store>, slug: string, userId: string): (r: Option<string>)
    ensures r.Some? ==> !OwnedByOther(stores, r.value, userId)
  {
    if !OwnedByOther(stores, slug, userId) then Some(slug)
    else if !OwnedByOther(stores, SuffixedSlug(slug, userId), userId) then Some(SuffixedSlug(slug, userId))
    else None
  }

  /** The user's store fields and the store document written for the settled slug. */
  function RenameStore(db: UserDb, userId: string, storeName: string, finalSlug: string): UserDb
    requires userId in db.users
  {
    db.(users := db.users[userId := db.users[userId] + map[StoreName := Str(storeName),
                                                          StoreSlug := Str(finalSlug),
                                                          StoreStatus := Str("active")]],
        stores := db.stores[finalSlug := Store(userId, storeName, finalSlug, "active")])
  }

  /** What `updateStoreSlug` does once the slug is generated, as written. */
  function RenameAsWritten(db: UserDb, userId: string, storeName: string, slug: string): (Result<string>, UserDb) {
    if slug == "" then (Failure(InvalidDocumentPath), db)
    else
      var finalSlug := SlugForRenameAsWritten(db.stores, slug, userId);
      if userId !in db.users then (Failure(NoDocumentToUpdate), db)
      else (Success(finalSlug), RenameStore(db, userId, storeName, finalSlug))
  }

  /** What `updateStoreSlug` does once the slug is generated, refusing a suffixed slug that is taken. */
  function Rename(db: UserDb, userId: string, storeName: string, slug: string): (r: (Result<string>, UserDb))
    ensures r.0.Failure? ==> r.1 == db
    ensures r.1.users.Keys == db.users.Keys
    ensures r.1.customerCount == db.customerCount && r.1.franchiseCount == db.franchiseCount
  {
    if slug == "" then (Failure(InvalidDocumentPath), db)
    else
      match SlugForRename(db.stores, slug, userId)
      case None => (Failure(SlugTaken), db)
      case Some(finalSlug) =>
        if userId !in db.users then (Failure(NoDocumentToUpdate), db)
        else (Success(finalSlug), RenameStore(db, userId, storeName, finalSlug))
  }

  function UpdateStoreSlugAsWritten(db: UserDb, userId: string, storeName: string): (Result<string>, UserDb) {
    RenameAsWritten(db, userId, storeName, GenerateStoreSlug(storeName))
  }

  function UpdateStoreSlugSpec(db: UserDb, userId: string, storeName: string): (r: (Result<string>, UserDb))
    ensures r.0.Failure? ==> r.1 == db
    ensures r.1.users.Keys == db.users.Keys
    ensures r.1.customerCount == db.customerCount && r.1.franchiseCount == db.franchiseCount
  {
    Rename(db, userId, storeName, GenerateStoreSlug(storeName))
  }

  /**
   * The suffix rule: the slug is kept unless another franchise owns it, and then `-` and
   * the first four characters of the user id are appended; the user's store fields and
   * the store document follow.
   */
  lemma RenameSuffixRule(db: UserDb, userId: string, storeName: string, slug: string)
    requires Rename(db, userId, storeName, slug).0.Success?
    ensures var (res, db') := Rename(db, userId, storeName, slug);
      slug != ""
      && res.value == (if OwnedByOther(db.stores, slug, userId) then slug + "-" + Take(userId, 4) else slug)
      && db'.stores[res.value].franchiseId == userId
      && db'.users[userId][StoreSlug] == Str(res.value) && db'.users[userId][StoreStatus] == Str("active")
  {
  }

  /** The rename never touches a store that another franchise owns. */
  lemma RenameKeepsOthersStores(db: UserDb, userId: string, storeName: string, slug: string)
    ensures var db' := Rename(db, userId, storeName, slug).1;
      forall s :: s in db.stores && db.stores[s].franchiseId != userId ==> s in db'.stores && db'.stores[s] == db.stores[s]
  {
  }

  /** The slug a successful rename starts from passes the validator. */
  lemma StoreSlugIsValid(db: UserDb, userId: string, storeName: string)
    requires UpdateStoreSlugSpec(db, userId, storeName).0.Success?
    ensures ValidateStoreSlug(GenerateStoreSlug(storeName))
  {
    GeneratedSlugValidates(storeName);
  }

  /**
   * Finding: every franchise id from fr000001 to fr009999 has the suffix "fr00", so the
   * suffixed slug can belong to a third franchise, whose store the rename then takes over.
   */
  lemma RenameAsWrittenTakesOver()
    ensures var db := UserDb(map["fr000001" := map[]], None, Some(3),
                             map["shop" := Store("fr000002", "Shop", "shop", "active"),
                                 "shop-fr00" := Store("fr000003", "Shop", "shop-fr00", "active")]);
      var (res, db') := RenameAsWritten(db, "fr000001", "Shop", "shop");
      res == Success("shop-fr00") && db'.stores["shop-fr00"].franchiseId == "fr000001"
      && Rename(db, "fr000001", "Shop", "shop") == (Failure(SlugTaken), db)
  {
    assert Take("fr000001", 4) == "fr00";
    assert SuffixedSlug("shop", "fr000001") == "shop-fr00";
  }

  /** Whenever the corrected rename succeeds, the rename as written does the same. */
  lemma RenameAgreesUnlessTaken(db: UserDb, userId: string, storeName: string, slug: string)
    ensures Rename(db, userId, storeName, slug).0.Success? ==> Rename(db, userId, storeName, slug) == RenameAsWritten(db, userId, storeName, slug)
    ensures Rename(db, userId, storeName, slug).0 == Failure(SlugTaken) ==>
      OwnedByOther(db.stores, SuffixedSlug(slug, userId), userId)
  {
  }

  /** `updateStoreSlug` with the store name "Shop" renames to the slug "shop". */
  lemma StoreSlugOfShop(db: UserDb)
    ensures UpdateStoreSlugAsWritten(db, "fr000001", "Shop") == RenameAsWritten(db, "fr000001", "Shop", "shop")
    ensures UpdateStoreSlugSpec(db, "fr000001", "Shop") == Rename(db, "fr000001", "Shop", "shop")
  {
    ShopSlug();
  }

  lemma ShopSlug()
    ensures GenerateStoreSlug("Shop") == "shop"
  {
    assert Lower("Shop") == "shop";
    SlugOfSlugShaped("shop");
  }

  // ---------------------------------------------------------------------
  // The database as an object

  class UserStore {
    var users: map<string, Doc>
    var customerCount: Option<nat>
    var franchiseCount: Option<nat>
    var stores: map<string, Store>

    function Db(): UserDb
      reads this
    {
      UserDb(users, customerCount, franchiseCount, stores)
    }

    constructor (db: UserDb)
      ensures Db() == db
    {
      users, customerCount, franchiseCount, stores := db.users, db.customerCount, db.franchiseCount, db.stores;
    }

    /** `generateNextUserId`: read, increment and write the counter in one transaction. */
    method GenerateNextUserId(prefix: string) returns (id: string)
      modifies this
      ensures (id, Db()) == NextUserIdSpec(old(Db()), prefix)
    {
      var counter := if prefix == "cu" then customerCount else franchiseCount;
      var next: nat;
      if counter.None? {
        next := 1;
      } else {
        next := counter.value + 1;
      }
      if prefix == "cu" {
        customerCount := Some(next);
      } else {
        franchiseCount := Some(next);
      }
      id := prefix + Pad6(next);
    }

    /** `createUser`. */
    method CreateUser(userData: Doc, now: nat) returns (res: Result<string>)
      modifies this
      ensures (res, Db()) == CreateUserSpec(old(Db()), userData, now)
    {
      var missing := FindMissingRequired(userData);
      if missing.Some? {
        return Failure(CreateFailed + FieldName(missing.value) + " is required");
      }
      assert FieldTruthy(userData, RequiredFields[0]) && FieldTruthy(userData, RequiredFields[4]);
      if EmailTaken(Db(), userData[Email]) {
        return Failure(CreateFailed + "Email already exists");
      }
      if !userData[Id].Str? {
        return Failure(CreateFailed + InvalidDocumentPath);
      }
      var id := userData[Id].s;
      if id in users {
        id := GenerateNextUserId(ReplacementPrefix(userData));
        if id in users {
          return Failure(CreateFailed + UserIdTaken);
        }
      }
      users := users[id := NewUserRecord(userData, id, now)];
      res := Success(id);
    }

    /** `updateUser`. */
    method UpdateUser(userId: string, userData: Doc, now: nat) returns (res: Result<bool>)
      modifies this
      ensures (res, Db()) == UpdateUserSpec(old(Db()), userId, userData, now)
    {
      if userId !in users {
        return Failure(UpdateFailed + UserNotFound);
      }
      var current := users[userId];
      if ChangesCategory(current, userData) {
        return Success(true);
      }
      var updateData := DropEmptyValues(current + userData + map[UpdatedAt := Time(now)]);
      users := users[userId := current + updateData];
      res := Success(true);
    }

    /** `upgradeToFranchise`; the transaction sets the new record and deletes the old one. */
    method UpgradeToFranchise(userId: string, now: nat) returns (res: Result<string>)
      modifies this
      ensures (res, Db()) == UpgradeSpec(old(Db()), userId, now)
    {
      if userId !in users {
        return Failure(UpgradeFailed + UserNotFound);
      }
      var d := users[userId];
      var category := DetectCategory(userId);
      if category.Failure? {
        return Failure(UpgradeFailed + category.error);
      }
      if category.value != "customer" {
        return Failure(UpgradeFailed + "Only customers can be upgraded to franchise");
      }
      if LineageNotString(d, PreviousFranchiseId) {
        return Failure(UpgradeFailed + StartsWithNotAFunction);
      }
      var franchiseId;
      if ReusableLineage(d, PreviousFranchiseId, "fr") {
        franchiseId := d[PreviousFranchiseId].s;
      } else {
        franchiseId := GenerateNextUserId("fr");
      }
      users := users[franchiseId := FranchiseRecord(d, userId, franchiseId, now)] - {userId};
      res := Success(franchiseId);
    }

    /** `revertToCustomer`. */
    method RevertToCustomer(userId: string, now: nat) returns (res: Result<string>)
      modifies this
      ensures (res, Db()) == RevertSpec(old(Db()), userId, now)
    {
      if userId !in users {
        return Failure(RevertFailed + UserNotFound);
      }
      var d := users[userId];
      var category := DetectCategory(userId);
      if category.Failure? {
        return Failure(RevertFailed + category.error);
      }
      if category.value != "franchise" {
        return Failure(RevertFailed + "Only franchises can be reverted to customer");
      }
      if !FieldTruthy(d, PreviousId) {
        return Failure(RevertFailed + "Original customer ID not found or invalid");
      }
      if LineageNotString(d, PreviousId) {
        return Failure(RevertFailed + StartsWithNotAFunction);
      }
      var customerId := d[PreviousId].s;
      if !StartsWith(customerId, "cu") {
        return Failure(RevertFailed + "Original customer ID not found or invalid");
      }
      users := users[customerId := CustomerRecord(d, userId, customerId, now)] - {userId};
      res := Success(customerId);
    }

    /** `updateUserAttributes`. */
    method UpdateUserAttributes(userId: string, userData: Doc, now: nat) returns (res: Result<bool>)
      modifies this
      ensures (res, Db()) == AttributesSpec(old(Db()), userId, userData, now)
    {
      if userId !in users {
        return Failure(AttributesFailed + UserNotFound);
      }
      var current := users[userId];
      var id: Value;
      if FieldTruthy(userData, Id) {
        id := userData[Id];
      } else if Id in current {
        id := current[Id];
      } else {
        return Failure(AttributesFailed + UndefinedFieldValue);
      }
      var updateData := current + userData + MigratedAttributes(current, userData, id, now);
      users := users[userId := current + updateData];
      res := Success(true);
    }

    /** `updateStoreSlug`, with the suffixed slug checked before it is used. */
    method UpdateStoreSlug(userId: string, storeName: string) returns (res: Result<string>)
      modifies this
      ensures (res, Db()) == UpdateStoreSlugSpec(old(Db()), userId, storeName)
    {
      ghost var db := Db();
      var slug := GenerateStoreSlug(storeName);
      if slug == "" {
        return Failure(InvalidDocumentPath);
      }
      var finalSlug := slug;
      if OwnedByOther(stores, slug, userId) {
        finalSlug := SuffixedSlug(slug, userId);
        if OwnedByOther(stores, finalSlug, userId) {
          return Failure(SlugTaken);
        }
      }
      assert SlugForRename(db.stores, slug, userId) == Some(finalSlug);
      if userId !in users {
        return Failure(NoDocumentToUpdate);
      }
      WriteStore(userId, storeName, finalSlug);
      res := Success(finalSlug);
    }

    /** The two writes of a rename: the user's store fields and the store document. */
    method WriteStore(userId: string, storeName: string, finalSlug: string)
      requires userId in users
      modifies this
      ensures Db() == RenameStore(old(Db()), userId, storeName, finalSlug)
    {
      users := users[userId := users[userId] + map[StoreName := Str(storeName), StoreSlug := Str(finalSlug),
                                                  StoreStatus := Str("active")]];
      stores := stores[finalSlug := Store(userId, storeName, finalSlug, "active")];
    }
  }
}
