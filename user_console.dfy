/**
 * The administrator's user console (src/pages/UserConsole.jsx): the list-scanning id
 * generator, the create and update handlers with their per-category settings, the
 * status toggle, the search and filter of the user list, and the two schema checks.
 *
 * The console's user list is a sequence of rows, each the document id with the fetched
 * document. The handlers work on the `UserStore` of the user service.
 */
module UserConsole {
  import opened Wrappers
  import opened Text
  import opened Docs
  import opened UserService

  /**
   * A row of the console's user list: `user.id` and the user's stored fields. The console
   * builds `{id: doc.id, ...data}`, which is `WithId(id, doc)` and always has an `id`, and
   * its badge applies `needsSchemaUpdate` to that object; `NeedsSchemaUpdate(doc)` with a
   * missing `Id` is a statement about stored data that the badge never sees.
   */
  datatype UserRow = UserRow(id: string, doc: Doc)

  /** The notification a handler shows, or none. */
  datatype Notice =
    | Quiet
    | Created(category: string)
    | UpdatedTo(newCategory: Value)
    | Updated
    | StatusUpdated
    | Error(message: string)

  const NoLength := "Cannot read properties of undefined (reading 'length')"
  const NoConfig := "Cannot read properties of undefined (reading 'requiresUsername')"
  const UsernameExists := "Username already exists"

  // ---------------------------------------------------------------------
  // generateUserId

  /** `prefixMap[category]`. */
  function PrefixFor(category: Option<string>): (p: Option<string>)
    ensures category == Some("webmaster") <==> p == Some("web")
    ensures category == Some("franchise") <==> p == Some("fr")
    ensures category == Some("customer") <==> p == Some("cu")
    ensures category == Some("test") <==> p == Some("te")
    ensures p.None? <==> category !in {Some("webmaster"), Some("franchise"), Some("customer"), Some("test")}
  {
    if category == Some("webmaster") then Some("web")
    else if category == Some("franchise") then Some("fr")
    else if category == Some("customer") then Some("cu")
    else if category == Some("test") then Some("te")
    else None
  }

  /** The number after the prefix, as `parseInt` reads it; None is NaN. */
  function SuffixOf(id: string, prefix: string): Option<int>
    requires StartsWith(id, prefix)
  {
    ParseInt(id[|prefix|..])
  }

  /** `existingIds`: the suffix of every listed id that starts with the prefix, in list order. */
  function Suffixes(users: seq<UserRow>, prefix: string): (xs: seq<Option<int>>)
    ensures |xs| <= |users|
    ensures (forall i :: 0 <= i < |users| ==> !StartsWith(users[i].id, prefix)) ==> xs == []
    ensures forall i :: 0 <= i < |users| && StartsWith(users[i].id, prefix) ==> SuffixOf(users[i].id, prefix) in xs
    ensures forall x :: x in xs ==> exists i :: 0 <= i < |users| && StartsWith(users[i].id, prefix) && x == SuffixOf(users[i].id, prefix)
  {
    if users == [] then []
    else
      var rest := Suffixes(users[1..], prefix);
      assert forall i :: 1 <= i < |users| ==> users[i] == users[1..][i - 1];
      if StartsWith(users[0].id, prefix) then [SuffixOf(users[0].id, prefix)] + rest else rest
  }

  /** `Math.max(...xs)`: NaN as soon as one argument is NaN. */
  function MaxOf(xs: seq<Option<int>>): (m: Option<int>)
    requires xs != []
    ensures m.Some? <==> None !in xs
    ensures m.Some? ==> m in xs && forall x :: x in xs ==> x.value <= m.value
  {
    if |xs| == 1 then xs[0]
    else
      var rest := MaxOf(xs[1..]);
      assert forall x :: x in xs ==> x == xs[0] || x in xs[1..];
      if xs[0].None? || rest.None? then None
      else if xs[0].value >= rest.value then xs[0]
      else rest
  }

  /**
   * `String(n).padStart(6, '0')` for a number that may be NaN or negative: the minus sign
   * is padded over like any other character.
   */
  function NumberText(n: Option<int>): string {
    match n
    case Some(v) => if v >= 0 then Pad6(v) else ZeroPad("-" + DecimalDigits(-v), 6)
    case None => "000NaN"
  }

  /**
   * `generateUserId` as written: NaN suffixes make `Math.max` NaN. An unknown category
   * has an undefined prefix: `startsWith(undefined)` looks for "undefined", and reading
   * `prefix.length` then throws.
   */
  function GenerateUserIdAsWritten(category: Option<string>, users: seq<UserRow>): (r: Result<string>)
    ensures r.Failure? ==> PrefixFor(category).None?
    ensures r.Success? && PrefixFor(category).Some? ==> StartsWith(r.value, PrefixFor(category).value)
  {
    match PrefixFor(category)
    case Some(p) =>
      var xs := Suffixes(users, p);
      Success(p + NumberText(if xs == [] then Some(1) else match MaxOf(xs) case Some(m) => Some(m + 1) case None => None))
    case None =>
      if exists i :: 0 <= i < |users| && StartsWith(users[i].id, "undefined") then Failure(NoLength)
      else Success("undefined" + Pad6(1))
  }

  /** The suffixes that are numbers, NaN ones left out. */
  function Numeric(xs: seq<Option<int>>): (ns: seq<int>)
    ensures forall n :: n in ns <==> Some(n) in xs
  {
    if xs == [] then []
    else
      var rest := Numeric(xs[1..]);
      assert forall x :: x in xs ==> x == xs[0] || x in xs[1..];
      match xs[0]
      case Some(n) => [n] + rest
      case None => rest
  }

  /** One more than the largest number listed, or 1 for none. */
  function NextAfter(ns: seq<int>): (n: nat)
    ensures n >= 1 && forall m :: m in ns ==> m < n
  {
    if ns == [] then 1
    else
      var rest := NextAfter(ns[1..]);
      assert forall m :: m in ns ==> m == ns[0] || m in ns[1..];
      if ns[0] + 1 > rest then ns[0] + 1 else rest
  }

  /** `generateUserId`, ignoring ids whose suffix is not a number. */
  function GenerateUserId(category: Option<string>, users: seq<UserRow>): (r: Result<string>)
    ensures r.Failure? ==> PrefixFor(category).None?
    ensures r.Success? ==> |r.value| >= 6 + (if PrefixFor(category).Some? then |PrefixFor(category).value| else 0)
    ensures r.Success? && PrefixFor(category).Some? ==>
      StartsWith(r.value, PrefixFor(category).value) && AllDigits(r.value[|PrefixFor(category).value|..])
  {
    match PrefixFor(category)
    case Some(p) =>
      var digits := Pad6(NextAfter(Numeric(Suffixes(users, p))));
      assert (p + digits)[|p|..] == digits;
      Success(p + digits)
    case None =>
      if exists i :: 0 <= i < |users| && StartsWith(users[i].id, "undefined") then Failure(NoLength)
      else Success("undefined" + Pad6(1))
  }

  lemma SuffixOfFormatted(p: string, n: nat)
    ensures StartsWith(p + Pad6(n), p) && SuffixOf(p + Pad6(n), p) == Some(n)
  {
    assert (p + Pad6(n))[|p|..] == Pad6(n);
    ParseIntPad6(n);
  }

  /** The generated id carries the category's prefix and is none of the listed ids. */
  lemma GenerateUserIdFresh(category: Option<string>, users: seq<UserRow>)
    requires GenerateUserId(category, users).Success?
    ensures PrefixFor(category).Some? ==> StartsWith(GenerateUserId(category, users).value, PrefixFor(category).value)
    ensures forall i :: 0 <= i < |users| ==> users[i].id != GenerateUserId(category, users).value
  {
    var id := GenerateUserId(category, users).value;
    match PrefixFor(category)
    case Some(p) =>
      var n := NextAfter(Numeric(Suffixes(users, p)));
      SuffixOfFormatted(p, n);
      forall i | 0 <= i < |users| ensures users[i].id != id {
        if StartsWith(users[i].id, p) {
          var x := SuffixOf(users[i].id, p);
          assert x in Suffixes(users, p);
          assert x != Some(n) by {
            if x.Some? {
              assert x.value in Numeric(Suffixes(users, p));
            }
          }
        }
      }
    case None =>
      forall i | 0 <= i < |users| ensures users[i].id != id {
        assert id[..9] == "undefined";
      }
  }

  /** With no listed id under the prefix, the first id is number 1. */
  lemma GenerateUserIdFirst(category: Option<string>, users: seq<UserRow>)
    requires PrefixFor(category).Some?
    requires forall i :: 0 <= i < |users| ==> !StartsWith(users[i].id, PrefixFor(category).value)
    ensures GenerateUserId(category, users) == Success(PrefixFor(category).value + "000001")
    ensures GenerateUserIdAsWritten(category, users) == GenerateUserId(category, users)
  {
    PadOne();
  }

  lemma NextAfterIsMaxPlusOne(xs: seq<Option<int>>)
    requires xs != [] && forall x :: x in xs ==> x.Some? && x.value >= 0
    ensures MaxOf(xs).Some? && NextAfter(Numeric(xs)) == MaxOf(xs).value + 1
  {
    var m := MaxOf(xs).value;
    var ns := Numeric(xs);
    var n := NextAfter(ns);
    NextAfterAttained(ns);
    var k :| k in ns && n == k + 1;
    assert Some(k) in xs;
  }

  lemma {:induction false} NextAfterAttained(ns: seq<int>)
    requires ns != [] && forall m :: m in ns ==> m >= 0
    ensures exists k :: k in ns && NextAfter(ns) == k + 1
  {
    if |ns| > 1 {
      assert forall m :: m in ns[1..] ==> m in ns;
      NextAfterAttained(ns[1..]);
      var k :| k in ns[1..] && NextAfter(ns[1..]) == k + 1;
      assert k in ns;
      if ns[0] + 1 > NextAfter(ns[1..]) {
        assert NextAfter(ns) == ns[0] + 1 && ns[0] in ns;
      } else {
        assert NextAfter(ns) == k + 1;
      }
    } else {
      assert ns[1..] == [] && NextAfter(ns[1..]) == 1;
      assert ns[0] in ns && ns[0] >= 0;
      assert NextAfter(ns) == ns[0] + 1;
    }
  }

  /**
   * When every listed suffix under the prefix reads as a number that is not negative, the
   * correction changes nothing.
   */
  lemma GenerateUserIdAgreesOnNumbers(category: Option<string>, users: seq<UserRow>)
    requires PrefixFor(category).Some?
    requires forall i :: 0 <= i < |users| && StartsWith(users[i].id, PrefixFor(category).value) ==>
      SuffixOf(users[i].id, PrefixFor(category).value).Some? && SuffixOf(users[i].id, PrefixFor(category).value).value >= 0
    ensures GenerateUserIdAsWritten(category, users) == GenerateUserId(category, users)
  {
    var p := PrefixFor(category).value;
    var xs := Suffixes(users, p);
    if xs == [] {
      assert NextAfter(Numeric(xs)) == 1;
    } else {
      assert forall x :: x in xs ==> x.Some? && x.value >= 0;
      NextAfterIsMaxPlusOne(xs);
    }
  }

  /** `parseInt` reads the padded text of a number as at least that number. */
  lemma NumberTextReadsAtLeast(v: int)
    ensures ParseInt(NumberText(Some(v))).Some? && ParseInt(NumberText(Some(v))).value >= v
  {
    if v >= 0 {
      ParseIntPad6(v);
    } else if |"-" + DecimalDigits(-v)| >= 6 {
      NegativeTextReadsBack(-v);
    } else {
      PaddedNegativeTextReadsZero(-v);
    }
  }

  /** A long enough negative number is its own padded text, and reads back. */
  lemma NegativeTextReadsBack(n: nat)
    requires n > 0 && |"-" + DecimalDigits(n)| >= 6
    ensures ParseInt(NumberText(Some(-(n as int)))) == Some(-(n as int))
  {
    var d := DecimalDigits(n);
    var t := "-" + d;
    assert NumberText(Some(-(n as int))) == t;
    assert t[1..] == d && !IsSpace(t[0]) && t[0] == '-';
    assert !HexPrefixed(d) by {
      assert IsDigit(d[1]);
    }
    LeadingDigitCountOfDigits(d);
    assert d[..|d|] == d;
    DigitsValueOfDecimal(n);
    assert Magnitude(d) == Some(n);
  }

  /** A short negative number is padded with zeros in front of its sign, which read as 0. */
  lemma PaddedNegativeTextReadsZero(n: nat)
    requires n > 0 && |"-" + DecimalDigits(n)| < 6
    ensures ParseInt(NumberText(Some(-(n as int)))) == Some(0)
  {
    var t := "-" + DecimalDigits(n);
    var k := 6 - |t|;
    var padded := Zeros(k) + t;
    assert NumberText(Some(-(n as int))) == padded;
    assert padded[0] == '0';
    assert !HexPrefixed(padded) by {
      assert padded[1] == '0' || padded[1] == '-';
    }
    ParseIntOfDigits(padded);
    LeadingDigitsOfNumberThenText(Zeros(k), t);
    assert padded[..k] == Zeros(k);
    DigitsValueOfZeros(k);
  }

  /**
   * Without a suffix that reads as NaN, the id generated as written is fresh as well: the
   * NaN is the only way the scan repeats an id.
   */
  lemma GenerateUserIdAsWrittenFreshWithoutNaN(category: Option<string>, users: seq<UserRow>)
    requires PrefixFor(category).Some?
    requires forall i :: 0 <= i < |users| && StartsWith(users[i].id, PrefixFor(category).value) ==>
      SuffixOf(users[i].id, PrefixFor(category).value).Some?
    ensures GenerateUserIdAsWritten(category, users).Success?
    ensures forall i :: 0 <= i < |users| ==> users[i].id != GenerateUserIdAsWritten(category, users).value
  {
    var p := PrefixFor(category).value;
    var xs := Suffixes(users, p);
    var next: int := if xs == [] then 1 else MaxOf(xs).value + 1;
    var id := p + NumberText(Some(next));
    assert None !in xs;
    assert GenerateUserIdAsWritten(category, users) == Success(id);
    NumberTextReadsAtLeast(next);
    assert id[|p|..] == NumberText(Some(next));
    forall i | 0 <= i < |users| ensures users[i].id != id {
      if StartsWith(users[i].id, p) {
        assert SuffixOf(users[i].id, p) in xs;
      }
    }
  }

  /** As written, one listed id under the prefix with a suffix that is not a number makes the id `<prefix>000NaN`. */
  lemma GenerateUserIdAsWrittenNaN(category: Option<string>, users: seq<UserRow>, i: nat)
    requires PrefixFor(category).Some? && i < |users|
    requires StartsWith(users[i].id, PrefixFor(category).value) && SuffixOf(users[i].id, PrefixFor(category).value).None?
    ensures GenerateUserIdAsWritten(category, users) == Success(PrefixFor(category).value + "000NaN")
  {
    assert None in Suffixes(users, PrefixFor(category).value);
  }

  /**
   * Finding: as written, an id under the prefix whose suffix is not a number makes every
   * generated id `<prefix>000NaN`, so a second such user gets the id of the first.
   */
  lemma GenerateUserIdNaNRepeats()
    ensures var users := [UserRow("frodo", map[]), UserRow("fr000NaN", map[])];
      GenerateUserIdAsWritten(Some("franchise"), users) == Success(users[1].id)
  {
    var users := [UserRow("frodo", map[]), UserRow("fr000NaN", map[])];
    FrodoSuffixNaN();
    GenerateUserIdAsWrittenNaN(Some("franchise"), users, 0);
    assert "fr" + "000NaN" == users[1].id;
  }

  lemma FrodoSuffixNaN()
    ensures StartsWith("frodo", "fr") && SuffixOf("frodo", "fr").None?
  {
    assert "frodo"[2..] == "odo";
    assert LeadingDigitCount("odo") == 0;
  }

  /**
   * Finding: as written, a negative suffix is taken as the maximum, so `fr-5` alone gives
   * `String(-4).padStart(6, '0')`, the id `fr0000-4`; the corrected generator starts at 1.
   */
  lemma GenerateUserIdNegativeSuffix()
    ensures var users := [UserRow("fr-5", map[])];
      GenerateUserIdAsWritten(Some("franchise"), users) == Success("fr0000-4")
      && GenerateUserId(Some("franchise"), users) == Success("fr000001")
  {
    var users := [UserRow("fr-5", map[])];
    MinusFiveSuffixes();
    assert PrefixFor(Some("franchise")) == Some("fr");
    assert MaxOf([Some(-5)]) == Some(-5);
    MinusFourText();
    assert "fr" + "0000-4" == "fr0000-4";
    assert NextAfter(Numeric([Some(-5)])) == 1 by {
      assert Numeric([Some(-5)]) == [-5];
      assert [-5][1..] == [];
    }
    PadOne();
    assert "fr" + "000001" == "fr000001";
  }

  lemma MinusFiveSuffixes()
    ensures Suffixes([UserRow("fr-5", map[])], "fr") == [Some(-5)]
  {
    var users := [UserRow("fr-5", map[])];
    assert StartsWith(users[0].id, "fr") && users[0].id[2..] == "-5";
    assert ParseInt("-5") == Some(-5) by {
      assert "-5"[1..] == "5" && LeadingDigitCount("5") == 1 && "5"[..1] == "5";
    }
  }

  lemma MinusFourText()
    ensures NumberText(Some(-4)) == "0000-4"
  {
    assert DecimalDigits(4) == "4";
    assert Zeros(4) == "0000";
    assert ZeroPad("-4", 6) == "0000" + "-4";
  }

  // ---------------------------------------------------------------------
  // handleCreateUser

  /** An entry of `categoryConfigs`. */
  datatype CategoryConfig = CategoryConfig(permissions: bool, requiresUsername: bool)

  /** `categoryConfigs[category]`: the same four categories as the id prefixes. */
  function ConfigFor(category: Option<string>): (c: Option<CategoryConfig>)
    ensures c.Some? <==> PrefixFor(category).Some?
    ensures c.Some? ==> (c.value.permissions <==> category == Some("webmaster"))
    ensures c.Some? ==> (c.value.requiresUsername <==> category != Some("customer"))
  {
    if category == Some("webmaster") then Some(CategoryConfig(true, true))
    else if category == Some("customer") then Some(CategoryConfig(false, false))
    else if PrefixFor(category).Some? then Some(CategoryConfig(false, true))
    else None
  }

  /** `baseUserData` for the generated id. */
  function BaseUserData(userId: string, now: nat): Doc {
    map[Id := Str(userId), UserId := Str(userId), IsActive := Bool(true), IsOnline := Bool(false),
        LastActiveAt := Null, LastLoginAt := Null, SchemaVersion := Num(1), CreatedAt := Time(now),
        UpdatedAt := Time(now)]
  }

  /** The config's fields; `username` is the submitted one when a username is required. */
  function ConfigFields(c: CategoryConfig, username: Value): Doc {
    map[Permissions := Bool(c.permissions), Username := (if c.requiresUsername then username else Null),
        RequiresUsername := Bool(c.requiresUsername)]
  }

  /** `userService.getUserByUsername(username)` finds a user. */
  predicate UsernameTaken(db: UserDb, username: Value) {
    exists id | id in db.users :: Username in db.users[id] && db.users[id][Username] == username
  }

  /** `newUserData`: the base, then the submitted data, then the category config. */
  function NewUserData(userData: Doc, userId: string, c: CategoryConfig, now: nat): Doc
    requires c.requiresUsername ==> Username in userData
  {
    BaseUserData(userId, now) + userData + ConfigFields(c, if c.requiresUsername then userData[Username] else Null)
  }

  /** `handleCreateUser(userData)` against the database and the console's list. */
  function HandleCreateUserSpec(db: UserDb, users: seq<UserRow>, userData: Doc, now: nat): (r: (Notice, UserDb))
    ensures !r.0.Created? ==> r.1.users == db.users
    ensures r.0.Created? ==> |r.1.users.Keys| == |db.users.Keys| + 1
  {
    var category := StrField(userData, Category);
    match GenerateUserId(category, users)
    case Failure(e) => (Error(e), db)
    case Success(userId) =>
      match ConfigFor(category)
      case None => (Error(NoConfig), db)
      case Some(c) =>
        if c.requiresUsername && !FieldTruthy(userData, Username) then
          (Error("Username is required for " + category.value + " accounts"), db)
        else if c.requiresUsername && UsernameTaken(db, userData[Username]) then (Error(UsernameExists), db)
        else
          var d := NewUserData(userData, userId, c, now);
          CreateUserAddsOne(db, d, now);
          var (r, db') := CreateUserSpec(db, d, now);
          (if r.Success? then Created(category.value) else Error(r.error), db')
  }

  /**
   * A webmaster, franchise or test user without a username, or with a username another
   * user has, is refused before anything is written.
   */
  lemma HandleCreateUserNeedsUsername(db: UserDb, users: seq<UserRow>, userData: Doc, now: nat)
    requires StrField(userData, Category) in {Some("webmaster"), Some("franchise"), Some("test")}
    ensures !FieldTruthy(userData, Username) ==>
      HandleCreateUserSpec(db, users, userData, now)
        == (Error("Username is required for " + StrField(userData, Category).value + " accounts"), db)
    ensures FieldTruthy(userData, Username) && UsernameTaken(db, userData[Username]) ==>
      HandleCreateUserSpec(db, users, userData, now) == (Error(UsernameExists), db)
  {
  }

  /** An unknown category is refused before anything is written. */
  lemma HandleCreateUserUnknownCategory(db: UserDb, users: seq<UserRow>, userData: Doc, now: nat)
    requires PrefixFor(StrField(userData, Category)).None?
    ensures HandleCreateUserSpec(db, users, userData, now).0.Error?
    ensures HandleCreateUserSpec(db, users, userData, now).1 == db
  {
  }

  /** A field the record takes from the data `createUser` is given. */
  lemma RecordKeepsField(d: Doc, id: string, now: nat, k: Field)
    requires k in d && k != Id && k !in ContactFields && k !in NewUserDefaults(now)
    ensures NewUserRecord(d, id, now)[k] == d[k]
  {
    NewUserRecordKeeps(d, id, now);
  }

  lemma ConfigFieldsAreKept(now: nat)
    ensures Permissions !in ContactFields && Username !in ContactFields && RequiresUsername !in ContactFields
    ensures Category !in ContactFields
    ensures Permissions !in NewUserDefaults(now) && Username !in NewUserDefaults(now)
    ensures RequiresUsername !in NewUserDefaults(now) && Category !in NewUserDefaults(now)
  {
  }

  /** The config wins over the submitted data. */
  lemma NewUserDataConfig(userData: Doc, userId: string, c: CategoryConfig, now: nat)
    requires c.requiresUsername ==> Username in userData
    ensures var d := NewUserData(userData, userId, c, now);
      d[Permissions] == Bool(c.permissions)
      && d[Username] == (if c.requiresUsername then userData[Username] else Null)
      && d[RequiresUsername] == Bool(c.requiresUsername)
  {
  }

  /** The submitted category and, without a submitted id, the generated id. */
  lemma NewUserDataIdentity(userData: Doc, userId: string, c: CategoryConfig, now: nat)
    requires c.requiresUsername ==> Username in userData
    ensures var d := NewUserData(userData, userId, c, now);
      (Category in userData ==> Category in d && d[Category] == userData[Category])
      && (Id !in userData ==> d[Id] == Str(userId))
  {
    var cf := ConfigFields(c, if c.requiresUsername then userData[Username] else Null);
    assert Category !in cf && Id !in cf;
  }

  /**
   * What a created record holds: permissions only for a webmaster, no username for a
   * customer and the submitted one otherwise.
   */
  lemma NewUserRecordConfig(userData: Doc, userId: string, c: CategoryConfig, now: nat)
    requires c.requiresUsername ==> Username in userData
    ensures var r := NewUserRecord(NewUserData(userData, userId, c, now), userId, now);
      r[Permissions] == Bool(c.permissions)
      && r[Username] == (if c.requiresUsername then userData[Username] else Null)
      && r[RequiresUsername] == Bool(c.requiresUsername)
  {
    var d := NewUserData(userData, userId, c, now);
    NewUserDataConfig(userData, userId, c, now);
    ConfigFieldsAreKept(now);
    RecordKeepsField(d, userId, now, Permissions);
    RecordKeepsField(d, userId, now, Username);
    RecordKeepsField(d, userId, now, RequiresUsername);
  }

  /** A created record has the submitted category. */
  lemma NewUserRecordCategory(userData: Doc, userId: string, c: CategoryConfig, now: nat)
    requires c.requiresUsername ==> Username in userData
    requires Category in userData
    ensures NewUserRecord(NewUserData(userData, userId, c, now), userId, now)[Category] == userData[Category]
  {
    var d := NewUserData(userData, userId, c, now);
    NewUserDataIdentity(userData, userId, c, now);
    ConfigFieldsAreKept(now);
    RecordKeepsField(d, userId, now, Category);
  }

  /**
   * When the console's list holds every stored user and the form has no id, a created
   * user is stored under the generated id, which was free, and nothing else changes.
   */
  lemma HandleCreateUserStores(db: UserDb, users: seq<UserRow>, userData: Doc, now: nat)
    requires Id !in userData
    requires forall id :: id in db.users ==> exists i :: 0 <= i < |users| && users[i].id == id
    requires HandleCreateUserSpec(db, users, userData, now).0.Created?
    ensures var category := StrField(userData, Category);
      var userId := GenerateUserId(category, users).value;
      var c := ConfigFor(category).value;
      userId !in db.users
      && HandleCreateUserSpec(db, users, userData, now).1.users
        == db.users[userId := NewUserRecord(NewUserData(userData, userId, c, now), userId, now)]
  {
    var category := StrField(userData, Category);
    var userId := GenerateUserId(category, users).value;
    var c := ConfigFor(category).value;
    GenerateUserIdFresh(category, users);
    var d := NewUserData(userData, userId, c, now);
    NewUserDataIdentity(userData, userId, c, now);
    CreateUserStores(db, d, now);
  }

  /** `handleCreateUser` on the user store. */
  method HandleCreateUser(store: UserStore, users: seq<UserRow>, userData: Doc, now: nat) returns (notice: Notice)
    modifies store
    ensures (notice, store.Db()) == HandleCreateUserSpec(old(store.Db()), users, userData, now)
  {
    var category := StrField(userData, Category);
    var generated := GenerateUserId(category, users);
    if generated.Failure? {
      return Error(generated.error);
    }
    var config := ConfigFor(category);
    if config.None? {
      return Error(NoConfig);
    }
    var c := config.value;
    if c.requiresUsername && !FieldTruthy(userData, Username) {
      return Error("Username is required for " + category.value + " accounts");
    }
    if c.requiresUsername && UsernameTaken(store.Db(), userData[Username]) {
      return Error(UsernameExists);
    }
    var r := store.CreateUser(NewUserData(userData, generated.value, c, now), now);
    if r.Success? {
      notice := Created(category.value);
    } else {
      notice := Error(r.error);
    }
  }

  // ---------------------------------------------------------------------
  // handleUpdateUser

  /** `editingUser.firstName.toLowerCase()`. */
  function LowerFirstName(editing: Doc): (r: Result<string>)
    ensures r.Success? <==> StrField(editing, FirstName).Some?
    ensures r.Success? ==> r.value == Lower(StrField(editing, FirstName).value)
  {
    if FirstName !in editing then Failure("Cannot read properties of undefined (reading 'toLowerCase')")
    else if editing[FirstName].Str? then Success(Lower(editing[FirstName].s))
    else if editing[FirstName] == Null then Failure("Cannot read properties of null (reading 'toLowerCase')")
    else Failure("editingUser.firstName.toLowerCase is not a function")
  }

  /** The username prefix a category change gives to a webmaster, franchise or test user. */
  function UsernameTag(category: string): string {
    if category == "franchise" then "fr_" else if category == "webmaster" then "web_" else "te_"
  }

  /** The `switch (updates.category)` adjustments. */
  function CategoryAdjustments(category: Option<string>, editing: Doc): Result<Doc> {
    if category == Some("customer") then Success(map[Username := Null, Permissions := Bool(false)])
    else if category in {Some("franchise"), Some("webmaster"), Some("test")} then
      match LowerFirstName(editing)
      case Failure(e) => Failure(e)
      case Success(first) =>
        Success(map[Username := Str(UsernameTag(category.value) + first),
                    Permissions := Bool(category == Some("webmaster"))])
    else Success(map[])
  }

  /** The record written under the new id, before the category adjustments. */
  function MovedRecord(editing: Doc, updates: Doc, newId: string, now: nat): Doc {
    editing + updates + map[Id := Str(newId), UserId := Str(newId), UpdatedAt := Time(now), SchemaVersion := Num(1)]
  }

  /** The data of an update that keeps the category. */
  function MergedUpdate(editing: Doc, updates: Doc, now: nat): Doc {
    editing + updates + map[UpdatedAt := Time(now), SchemaVersion := Num(1)]
  }

  /**
   * `handleUpdateUser(updates)` for the user being edited. A category change deletes the
   * old document first, so an error after that point leaves the user deleted.
   */
  function HandleUpdateUserSpec(db: UserDb, users: seq<UserRow>, editing: Option<UserRow>, updates: Doc, now: nat)
    : (r: (Notice, UserDb))
    ensures r.0 == Quiet ==> r.1 == db
    ensures editing.Some? && !ChangesCategory(editing.value.doc, updates) ==> r.1.users.Keys == db.users.Keys
  {
    match editing
    case None => (Quiet, db)
    case Some(u) =>
      if ChangesCategory(u.doc, updates) then
        var category := StrField(updates, Category);
        match GenerateUserId(category, users)
        case Failure(e) => (Error(e), db)
        case Success(newId) =>
          var afterDelete := db.(users := db.users - {u.id});
          match CategoryAdjustments(category, u.doc)
          case Failure(e) => (Error(e), afterDelete)
          case Success(adjust) =>
            (UpdatedTo(updates[Category]),
             afterDelete.(users := afterDelete.users[newId := MovedRecord(u.doc, updates, newId, now) + adjust]))
      else
        var (r, db') := UpdateUserSpec(db, u.id, MergedUpdate(u.doc, updates, now), now);
        (if r.Success? then Updated else Error(r.error), db')
  }

  /** Nothing happens while no user is being edited. */
  lemma HandleUpdateUserNeedsEditing(db: UserDb, users: seq<UserRow>, updates: Doc, now: nat)
    ensures HandleUpdateUserSpec(db, users, None, updates, now) == (Quiet, db)
  {
  }

  /** The moved record before the adjustments: new id, submitted category, schema version 1. */
  lemma MovedRecordAt(editing: Doc, updates: Doc, newId: string, now: nat)
    requires Category in updates
    ensures var m := MovedRecord(editing, updates, newId, now);
      m[Id] == Str(newId) && m[UserId] == Str(newId) && m[SchemaVersion] == Num(1)
      && Category in m && m[Category] == updates[Category]
  {
  }

  /**
   * The outcome of a category change to one of the four categories, for a user whose
   * first name is a string where the new username needs it.
   */
  lemma CategoryChangeResult(db: UserDb, users: seq<UserRow>, u: UserRow, updates: Doc, now: nat)
    requires ChangesCategory(u.doc, updates)
    requires PrefixFor(StrField(updates, Category)).Some?
    requires StrField(updates, Category) == Some("customer") || StrField(u.doc, FirstName).Some?
    ensures GenerateUserId(StrField(updates, Category), users).Success?
    ensures CategoryAdjustments(StrField(updates, Category), u.doc).Success?
    ensures var newId := GenerateUserId(StrField(updates, Category), users).value;
      var adjust := CategoryAdjustments(StrField(updates, Category), u.doc).value;
      HandleUpdateUserSpec(db, users, Some(u), updates, now)
        == (UpdatedTo(updates[Category]),
            db.(users := (db.users - {u.id})[newId := MovedRecord(u.doc, updates, newId, now) + adjust]))
  {
  }

  /**
   * A category change to one of the four categories moves the listed user to a fresh
   * generated id: the old document is gone, the new one is written, and every other
   * user stays as it was.
   */
  lemma CategoryChangeMoves(db: UserDb, users: seq<UserRow>, u: UserRow, updates: Doc, now: nat)
    requires u in users && ChangesCategory(u.doc, updates)
    requires PrefixFor(StrField(updates, Category)).Some?
    requires StrField(updates, Category) == Some("customer") || StrField(u.doc, FirstName).Some?
    ensures var newId := GenerateUserId(StrField(updates, Category), users).value;
      var (notice, db') := HandleUpdateUserSpec(db, users, Some(u), updates, now);
      notice == UpdatedTo(updates[Category])
      && newId != u.id
      && db'.users.Keys == db.users.Keys - {u.id} + {newId}
      && (forall id :: id in db.users && id != u.id && id != newId ==> db'.users[id] == db.users[id])
  {
    var category := StrField(updates, Category);
    CategoryChangeResult(db, users, u, updates, now);
    var newId := GenerateUserId(category, users).value;
    assert newId != u.id by {
      GenerateUserIdFresh(category, users);
      var i :| 0 <= i < |users| && users[i] == u;
    }
    var moved := (db.users - {u.id})[newId := MovedRecord(u.doc, updates, newId, now)
                                             + CategoryAdjustments(category, u.doc).value];
    assert HandleUpdateUserSpec(db, users, Some(u), updates, now) == (UpdatedTo(updates[Category]), db.(users := moved));
    assert moved.Keys == db.users.Keys - {u.id} + {newId};
  }

  /** The fields the category adjustments set. */
  lemma AdjustmentsAt(category: Option<string>, editing: Doc)
    requires PrefixFor(category).Some?
    requires CategoryAdjustments(category, editing).Success?
    ensures var adjust := CategoryAdjustments(category, editing).value;
      Permissions in adjust && adjust[Permissions] == Bool(category == Some("webmaster"))
      && Id !in adjust && UserId !in adjust && SchemaVersion !in adjust && Category !in adjust
      && Username in adjust
      && adjust[Username] == (if category == Some("customer") then Null
                              else Str(UsernameTag(category.value) + Lower(StrField(editing, FirstName).value)))
  {
  }

  /** The new id in `id` and `userId`, the new category and schema version 1. */
  lemma CategoryChangeIdentity(db: UserDb, users: seq<UserRow>, u: UserRow, updates: Doc, now: nat)
    requires ChangesCategory(u.doc, updates)
    requires PrefixFor(StrField(updates, Category)).Some?
    requires StrField(updates, Category) == Some("customer") || StrField(u.doc, FirstName).Some?
    ensures var newId := GenerateUserId(StrField(updates, Category), users).value;
      var r := HandleUpdateUserSpec(db, users, Some(u), updates, now).1.users[newId];
      r[Id] == Str(newId) && r[UserId] == Str(newId) && r[Category] == updates[Category]
      && r[SchemaVersion] == Num(1)
  {
    var category := StrField(updates, Category);
    CategoryChangeResult(db, users, u, updates, now);
    var newId := GenerateUserId(category, users).value;
    MovedRecordAt(u.doc, updates, newId, now);
    AdjustmentsAt(category, u.doc);
  }

  /**
   * The moved record has permissions only for a webmaster, no username for a customer,
   * and otherwise the category's prefix followed by the lower-cased first name.
   */
  lemma CategoryChangeRecord(db: UserDb, users: seq<UserRow>, u: UserRow, updates: Doc, now: nat)
    requires ChangesCategory(u.doc, updates)
    requires PrefixFor(StrField(updates, Category)).Some?
    requires StrField(updates, Category) == Some("customer") || StrField(u.doc, FirstName).Some?
    ensures var category := StrField(updates, Category);
      var newId := GenerateUserId(category, users).value;
      var r := HandleUpdateUserSpec(db, users, Some(u), updates, now).1.users[newId];
      r[Permissions] == Bool(category == Some("webmaster"))
      && r[Username] == (if category == Some("customer") then Null
                         else Str(UsernameTag(category.value) + Lower(StrField(u.doc, FirstName).value)))
  {
    CategoryChangeResult(db, users, u, updates, now);
    AdjustmentsAt(StrField(updates, Category), u.doc);
  }

  /**
   * A category change for a user without a first name, to a category that builds a
   * username from it, deletes the user and writes nothing in its place.
   */
  lemma CategoryChangeLosesUser(db: UserDb, users: seq<UserRow>, u: UserRow, updates: Doc, now: nat)
    requires ChangesCategory(u.doc, updates) && FirstName !in u.doc
    requires StrField(updates, Category) in {Some("franchise"), Some("webmaster"), Some("test")}
    ensures HandleUpdateUserSpec(db, users, Some(u), updates, now)
      == (Error("Cannot read properties of undefined (reading 'toLowerCase')"), db.(users := db.users - {u.id}))
  {
  }

  /** Merging the edit into the row keeps the category when the edit does. */
  lemma MergedKeepsCategory(editing: Doc, updates: Doc, now: nat)
    requires !ChangesCategory(editing, updates)
    ensures !ChangesCategory(editing, MergedUpdate(editing, updates, now))
    ensures MergedUpdate(editing, updates, now)[SchemaVersion] == Num(1)
  {
  }

  /**
   * An edit that keeps the category, of a user whose row is current, updates that user
   * in place through `updateUser`.
   */
  lemma PlainUpdateKeeps(db: UserDb, users: seq<UserRow>, u: UserRow, updates: Doc, now: nat)
    requires !ChangesCategory(u.doc, updates)
    requires u.id in db.users && db.users[u.id] == u.doc
    ensures HandleUpdateUserSpec(db, users, Some(u), updates, now)
      == (Updated, db.(users := db.users[u.id := UpdatedRecord(db, u.id, MergedUpdate(u.doc, updates, now), now)]))
  {
    MergedKeepsCategory(u.doc, updates, now);
  }

  /** A submitted non-empty value is what `updateUser` stores. */
  lemma UpdatedRecordAt(db: UserDb, userId: string, data: Doc, now: nat, k: Field)
    requires userId in db.users && !ChangesCategory(db.users[userId], data)
    requires k in data && data[k] != Str("") && k != UpdatedAt
    ensures k in UpdatedRecord(db, userId, data, now) && UpdatedRecord(db, userId, data, now)[k] == data[k]
  {
    UpdateUserKeys(db, userId, data, now);
    UpdateUserMerges(db, userId, data, now);
  }

  /** Such an edit is stored with schema version 1 and every submitted non-empty value. */
  lemma PlainUpdateStores(db: UserDb, u: UserRow, updates: Doc, now: nat)
    requires !ChangesCategory(u.doc, updates)
    requires u.id in db.users && db.users[u.id] == u.doc
    ensures var r := UpdatedRecord(db, u.id, MergedUpdate(u.doc, updates, now), now);
      SchemaVersion in r && r[SchemaVersion] == Num(1)
      && (forall k :: k in updates && k != UpdatedAt && k != SchemaVersion && updates[k] != Str("") ==>
            k in r && r[k] == updates[k])
  {
    var merged := MergedUpdate(u.doc, updates, now);
    MergedKeepsCategory(u.doc, updates, now);
    UpdatedRecordAt(db, u.id, merged, now, SchemaVersion);
    forall k | k in updates && k != UpdatedAt && k != SchemaVersion && updates[k] != Str("")
      ensures k in UpdatedRecord(db, u.id, merged, now) && UpdatedRecord(db, u.id, merged, now)[k] == updates[k]
    {
      assert merged[k] == updates[k];
      UpdatedRecordAt(db, u.id, merged, now, k);
    }
  }

  /** `handleUpdateUser` on the user store. */
  method HandleUpdateUser(store: UserStore, users: seq<UserRow>, editing: Option<UserRow>, updates: Doc, now: nat)
    returns (notice: Notice)
    modifies store
    ensures (notice, store.Db()) == HandleUpdateUserSpec(old(store.Db()), users, editing, updates, now)
  {
    if editing.None? {
      return Quiet;
    }
    var u := editing.value;
    if ChangesCategory(u.doc, updates) {
      var category := StrField(updates, Category);
      var generated := GenerateUserId(category, users);
      if generated.Failure? {
        return Error(generated.error);
      }
      var newId := generated.value;
      store.users := store.users - {u.id};
      var adjust := CategoryAdjustments(category, u.doc);
      if adjust.Failure? {
        return Error(adjust.error);
      }
      store.users := store.users[newId := MovedRecord(u.doc, updates, newId, now) + adjust.value];
      return UpdatedTo(updates[Category]);
    }
    var r := store.UpdateUser(u.id, MergedUpdate(u.doc, updates, now), now);
    if r.Success? {
      notice := Updated;
    } else {
      notice := Error(r.error);
    }
  }

  // ---------------------------------------------------------------------
  // handleToggleStatus

  /** `updateDoc(userRef, { isActive: !currentStatus, updatedAt })`; a missing document is an error. */
  function ToggleStatusSpec(db: UserDb, userId: string, currentStatus: Value, now: nat): (r: (Notice, UserDb))
    ensures r.1.users.Keys == db.users.Keys
    ensures userId in db.users ==> FieldTruthy(r.1.users[userId], IsActive) == !Truthy(currentStatus)
  {
    if userId !in db.users then (Error(NoDocumentToUpdate), db)
    else
      (StatusUpdated,
       db.(users := db.users[userId := db.users[userId] + map[IsActive := Bool(!Truthy(currentStatus)), UpdatedAt := Time(now)]]))
  }

  /** The toggle writes the negation of the status shown and changes no other field or user. */
  lemma ToggleStatusWrites(db: UserDb, userId: string, currentStatus: Value, now: nat)
    requires userId in db.users
    ensures var db' := ToggleStatusSpec(db, userId, currentStatus, now).1;
      db'.users.Keys == db.users.Keys
      && db'.users[userId][IsActive] == Bool(!Truthy(currentStatus))
      && db'.users[userId].Keys == db.users[userId].Keys + {IsActive, UpdatedAt}
      && (forall k :: k in db.users[userId] && k != IsActive && k != UpdatedAt ==> db'.users[userId][k] == db.users[userId][k])
      && (forall id :: id in db.users && id != userId ==> db'.users[id] == db.users[id])
  {
  }

  /** Toggling twice, each time with the stored status, restores a boolean status. */
  lemma ToggleTwiceRestores(db: UserDb, userId: string, active: bool, t1: nat, t2: nat)
    requires userId in db.users && IsActive in db.users[userId] && db.users[userId][IsActive] == Bool(active)
    ensures var db1 := ToggleStatusSpec(db, userId, Bool(active), t1).1;
      var db2 := ToggleStatusSpec(db1, userId, db1.users[userId][IsActive], t2).1;
      db2.users[userId][IsActive] == Bool(active)
  {
    ToggleStatusWrites(db, userId, Bool(active), t1);
    var db1 := ToggleStatusSpec(db, userId, Bool(active), t1).1;
    ToggleStatusWrites(db1, userId, db1.users[userId][IsActive], t2);
  }

  /** `handleToggleStatus` on the user store. */
  method HandleToggleStatus(store: UserStore, userId: string, currentStatus: Value, now: nat) returns (notice: Notice)
    modifies store
    ensures (notice, store.Db()) == ToggleStatusSpec(old(store.Db()), userId, currentStatus, now)
  {
    if userId !in store.users {
      return Error(NoDocumentToUpdate);
    }
    store.users := store.users[userId := store.users[userId] + map[IsActive := Bool(!Truthy(currentStatus)), UpdatedAt := Time(now)]];
    notice := StatusUpdated;
  }

  // ---------------------------------------------------------------------
  // filteredUsers

  /**
   * `user[k]?.toLowerCase().includes(searchLower)`: false for an undefined or null field, and
   * a TypeError for any other value that is not a string.
   */
  function FieldMatches(d: Doc, k: Field, searchLower: string): (r: Result<bool>)
    ensures r.Failure? <==> k in d && !d[k].Str? && !d[k].Null?
    ensures r == Success(true) <==> StrField(d, k).Some? && Contains(Lower(StrField(d, k).value), searchLower)
  {
    if k !in d || d[k].Null? then Success(false)
    else if d[k].Str? then Success(Contains(Lower(d[k].s), searchLower))
    else Failure("toLowerCase is not a function")
  }

  /** The fields the search looks at, in the order the `||` chain tries them. */
  const SearchFields: seq<Field> := [FirstName, LastName, Email, Phone]

  /** The `||` chain over the fields: the first field that matches or throws decides. */
  function AnyFieldMatches(d: Doc, ks: seq<Field>, searchLower: string): (r: Result<bool>)
    ensures r == Success(false) <==> forall k :: k in ks ==> FieldMatches(d, k, searchLower) == Success(false)
    ensures r == Success(true) ==> exists k :: k in ks && FieldMatches(d, k, searchLower) == Success(true)
    ensures r.Failure? ==> exists k :: k in ks && FieldMatches(d, k, searchLower).Failure?
  {
    if ks == [] then Success(false)
    else
      var first := FieldMatches(d, ks[0], searchLower);
      if first == Success(false) then AnyFieldMatches(d, ks[1..], searchLower) else first
  }

  /** `matchesSearch`: an empty search matches without looking at any field. */
  function MatchesSearch(d: Doc, search: string): Result<bool> {
    if search == "" then Success(true) else AnyFieldMatches(d, SearchFields, Lower(search))
  }

  predicate MatchesCategory(d: Doc, category: string) {
    category == "all" || HasStr(d, Category, category)
  }

  predicate MatchesStatus(d: Doc, status: string) {
    status == "all" || (if status == "active" then FieldTruthy(d, IsActive) else !FieldTruthy(d, IsActive))
  }

  /** The three filters of the console, all of which a listed user must pass. */
  predicate Shown(d: Doc, search: string, category: string, status: string) {
    MatchesSearch(d, search) == Success(true) && MatchesCategory(d, category) && MatchesStatus(d, status)
  }

  /**
   * `filteredUsers`: the listed users that pass the filters, in list order. The search is
   * evaluated for every user, so one user whose searched field holds a number, a boolean or
   * a timestamp makes the whole filter throw.
   */
  function FilteredUsers(users: seq<UserRow>, search: string, category: string, status: string): (r: Result<seq<UserRow>>)
    ensures r.Failure? <==> exists u :: u in users && MatchesSearch(u.doc, search).Failure?
    ensures r.Success? ==> |r.value| <= |users|
    ensures r.Success? ==> forall u :: u in r.value <==> u in users && Shown(u.doc, search, category, status)
  {
    if users == [] then Success([])
    else
      var first := MatchesSearch(users[0].doc, search);
      var rest := FilteredUsers(users[1..], search, category, status);
      assert forall u :: u in users <==> u == users[0] || u in users[1..];
      if first.Failure? then Failure(first.error)
      else if rest.Failure? then rest
      else if Shown(users[0].doc, search, category, status) then Success([users[0]] + rest.value)
      else rest
  }

  /** With no search and both filters on `all`, every listed user is shown, in order. */
  lemma {:induction false} FilteredUsersShowsAll(users: seq<UserRow>)
    ensures FilteredUsers(users, "", "all", "all") == Success(users)
  {
    if users != [] {
      FilteredUsersShowsAll(users[1..]);
      assert [users[0]] + users[1..] == users;
    }
  }

  /** Filtering the filtered list again changes nothing. */
  lemma {:induction false} FilteredUsersIdempotent(users: seq<UserRow>, search: string, category: string, status: string)
    requires FilteredUsers(users, search, category, status).Success?
    ensures var r := FilteredUsers(users, search, category, status).value;
      FilteredUsers(r, search, category, status) == Success(r)
  {
    if users != [] {
      FilteredUsersIdempotent(users[1..], search, category, status);
      var rest := FilteredUsers(users[1..], search, category, status).value;
      if Shown(users[0].doc, search, category, status) {
        assert ([users[0]] + rest)[1..] == rest;
      }
    }
  }

  /** A listed user whose first name is a number makes a non-empty search throw. */
  lemma FilteredUsersThrowsOnNumberName(users: seq<UserRow>, i: nat, search: string, category: string, status: string)
    requires i < |users| && search != ""
    requires FirstName in users[i].doc && users[i].doc[FirstName].Num?
    ensures FilteredUsers(users, search, category, status).Failure?
  {
    assert FieldMatches(users[i].doc, FirstName, Lower(search)).Failure?;
    assert users[i] in users;
  }

  /** When every searched field is a string, null or undefined, the filter never throws. */
  lemma FilteredUsersSucceedsOnStrings(users: seq<UserRow>, search: string, category: string, status: string)
    requires forall u, k :: u in users && k in SearchFields && k in u.doc ==> u.doc[k].Str? || u.doc[k].Null?
    ensures FilteredUsers(users, search, category, status).Success?
  {
    forall u | u in users ensures MatchesSearch(u.doc, search).Success? {
      if search != "" {
        var r := AnyFieldMatches(u.doc, SearchFields, Lower(search));
        assert forall k :: k in SearchFields ==> FieldMatches(u.doc, k, Lower(search)).Success?;
      }
    }
  }

  /** The search ignores case: searching for the lower-cased text shows the same users. */
  lemma SearchIgnoresCase(d: Doc, search: string)
    ensures MatchesSearch(d, Lower(search)) == MatchesSearch(d, search)
  {
    LowerOfLower(Lower(search));
  }

  // ---------------------------------------------------------------------
  // needsSchemaUpdate and checkUsersSchema

  const CustomerRequired: set<Field> := {
    Id, UserId, Email, FirstName, LastName, Password, Category, IsActive, IsOnline, Permissions, SchemaVersion,
    CreatedAt, UpdatedAt, LastActiveAt, LastLoginAt, Address, City, State, Country, CountryCode, ZipCode,
    Phone, PrimaryPhone, SecondaryPhone, CardNumber, Cvv, ExpiryDate, Message, SellerMessage}

  const FranchiserRequired: set<Field> := {
    Id, UserId, Email, FirstName, LastName, Password, Username, Category, IsActive, IsOnline, Permissions,
    SchemaVersion, CreatedAt, UpdatedAt, LastActiveAt, LastLoginAt, Address, City, State, Country,
    CountryCode, ZipCode, Phone, PrimaryPhone, SecondaryPhone}

  const TestRequired: set<Field> := {
    Id, UserId, Email, FirstName, LastName, Password, Category, IsActive, IsOnline, Permissions, SchemaVersion,
    CreatedAt, UpdatedAt, LastActiveAt, LastLoginAt}

  /**
   * `requiredFields[user.category] || []`. The table's key is `franchiser`, so a user whose
   * category is `franchise` has no required fields.
   */
  function RequiredFor(d: Doc): set<Field> {
    if HasStr(d, Category, "customer") then CustomerRequired
    else if HasStr(d, Category, "franchiser") then FranchiserRequired
    else if HasStr(d, Category, "test") then TestRequired
    else {}
  }

  /**
   * `!user.schemaVersion || user.schemaVersion < 1`. A present version that is not a number
   * compares as not outdated once it is truthy.
   */
  predicate SchemaOutdated(d: Doc) {
    !FieldTruthy(d, SchemaVersion) || (d[SchemaVersion].Num? && d[SchemaVersion].n < 1)
  }

  /** Both names are undefined: the record is corrupted. */
  predicate Corrupted(d: Doc) {
    FirstName !in d && LastName !in d
  }

  /** `needsSchemaUpdate(user)`. */
  predicate NeedsSchemaUpdate(d: Doc)
    ensures !NeedsSchemaUpdate(d) && HasStr(d, Category, "customer") ==> CustomerRequired <= d.Keys
    ensures !NeedsSchemaUpdate(d) ==> (FirstName in d || LastName in d) && FieldTruthy(d, SchemaVersion)
  {
    Corrupted(d) || !(RequiredFor(d) <= d.Keys) || SchemaOutdated(d)
  }

  /** A franchise user is never reported for a missing field, whatever it lacks. */
  lemma FranchiseRequiresNothing(d: Doc)
    requires HasStr(d, Category, "franchise")
    ensures NeedsSchemaUpdate(d) <==> Corrupted(d) || SchemaOutdated(d)
  {
  }

  /** A customer or test user lacking any of its listed fields is reported. */
  lemma MissingFieldReported(d: Doc, k: Field)
    requires HasStr(d, Category, "customer") || HasStr(d, Category, "test")
    requires k in TestRequired && k !in d
    ensures NeedsSchemaUpdate(d)
  {
  }

  /** The console's own check: `!user.userId`, undefined permissions or an outdated version. */
  predicate Flagged(d: Doc) {
    !FieldTruthy(d, UserId) || Permissions !in d || SchemaOutdated(d)
  }

  /** For customer and test users, a user the list check flags for a missing field is reported too. */
  lemma FlaggedCustomerNeedsUpdate(d: Doc)
    requires HasStr(d, Category, "customer") || HasStr(d, Category, "test")
    requires UserId !in d || Permissions !in d || SchemaOutdated(d)
    ensures Flagged(d) && NeedsSchemaUpdate(d)
  {
    if UserId !in d {
      MissingFieldReported(d, UserId);
    } else if Permissions !in d {
      MissingFieldReported(d, Permissions);
    }
  }

  /** The two checks disagree: a franchise user without permissions is flagged but not reported. */
  lemma SchemaChecksDisagree()
    ensures var d := map[Category := Str("franchise"), FirstName := Str("Ana"), UserId := Str("fr000001"),
                         SchemaVersion := Num(1)];
      Flagged(d) && !NeedsSchemaUpdate(d)
  {
    var d := map[Category := Str("franchise"), FirstName := Str("Ana"), UserId := Str("fr000001"),
                 SchemaVersion := Num(1)];
    FranchiseRequiresNothing(d);
  }

  /** `checkUsersSchema`: the ids of the listed users the check flags. */
  method CheckUsersSchema(users: seq<UserRow>) returns (needsUpdate: set<string>)
    ensures forall id :: id in needsUpdate <==> exists i :: 0 <= i < |users| && users[i].id == id && Flagged(users[i].doc)
  {
    needsUpdate := {};
    var i := 0;
    while i < |users|
      invariant 0 <= i <= |users|
      invariant forall id :: id in needsUpdate <==> exists j :: 0 <= j < i && users[j].id == id && Flagged(users[j].doc)
    {
      if Flagged(users[i].doc) {
        needsUpdate := needsUpdate + {users[i].id};
      }
      i := i + 1;
    }
  }
}
