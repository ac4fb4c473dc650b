/**
 * The user creator (src/components/CreateUserModal.jsx): the form's defaults, the
 * category kept in step with the `userType` the console passes, and the checks before
 * the form is handed to the console's creation.
 */
module CreateUserModal {
  import opened Wrappers
  import opened Docs

  const RequiredMissing := "Please fill in all required fields"
  const UsernameRequired := "Username is required for non-customer users"

  /** The form's text fields, all '' at first. */
  const TextFields: set<Field> := {Email, FirstName, LastName, Phone, PrimaryPhone, SecondaryPhone,
    Password, Username, Address, City, State, Country, CountryCode, ZipCode, CardNumber, Cvv,
    ExpiryDate, Message, SellerMessage}

  /** The fields the modal has inputs for. */
  const InputFields: set<Field> := {Email, Username, FirstName, LastName, Phone, Password}

  /** The non-text fields: the category and the flags a new user starts with. */
  function Settings(userType: string): (f: Doc)
    ensures f.Keys == {Category, IsActive, IsOnline, Permissions, SchemaVersion}
  {
    map[Category := Str(userType), IsActive := Bool(true), IsOnline := Bool(false),
        Permissions := Bool(false), SchemaVersion := Num(1)]
  }

  /** The initial form for `userType`. */
  function Defaults(userType: string): (f: Doc)
    ensures forall k :: k in TextFields ==> k in f && f[k] == Str("")
    ensures Category in f && f[Category] == Str(userType)
  {
    Settings(userType) + Blank(TextFields)
  }

  /** A new user starts active, offline, without permissions, at schema version 1. */
  lemma NewUserFlags(userType: string)
    ensures var f := Defaults(userType);
      IsActive in f && f[IsActive] == Bool(true) && IsOnline in f && f[IsOnline] == Bool(false)
      && Permissions in f && f[Permissions] == Bool(false) && SchemaVersion in f && f[SchemaVersion] == Num(1)
  {
    var settings := Settings(userType);
    var blank := Blank(TextFields);
    assert IsActive !in blank && IsOnline !in blank && Permissions !in blank && SchemaVersion !in blank;
    assert Defaults(userType) == settings + blank;
  }

  /** Every given field ''. */
  function Blank(fields: set<Field>): (f: Doc)
    ensures f.Keys == fields
    ensures forall k :: k in f ==> f[k] == Str("")
  {
    map k | k in fields :: Str("")
  }

  /** The effect on a new `userType`: `{...prev, category: userType}`. */
  function SyncUserType(form: Doc, userType: string): (f: Doc)
    ensures f.Keys == form.Keys + {Category} && f[Category] == Str(userType)
    ensures forall k :: k in form && k != Category ==> f[k] == form[k]
  {
    form[Category := Str(userType)]
  }

  /** An input's `onChange`: `{...formData, [field]: value}`. */
  function SetInput(form: Doc, k: Field, v: string): (f: Doc)
    requires k in InputFields
    ensures f.Keys == form.Keys + {k} && f[k] == Str(v)
    ensures Category in form ==> Category in f && f[Category] == form[Category]
  {
    form[k := Str(v)]
  }

  /** `handleSubmit`: the form with its category forced to `userType`, or the first failed check. */
  function Submit(form: Doc, userType: string): (r: Result<Doc>)
    ensures r.Success? ==> r.value.Keys == form.Keys + {Category} && r.value[Category] == Str(userType)
    ensures r.Success? ==> forall k :: k in form && k != Category ==> r.value[k] == form[k]
  {
    if !FieldTruthy(form, Email) || !FieldTruthy(form, FirstName) || !FieldTruthy(form, LastName) then
      Failure(RequiredMissing)
    else if !HasStr(form, Category, "customer") && !FieldTruthy(form, Username) then
      Failure(UsernameRequired)
    else
      Success(form[Category := Str(userType)])
  }

  /**
   * The checks, in order: a missing email or name fails first, then a non-customer without
   * a username; anything else is handed on.
   */
  lemma SubmitChecks(form: Doc, userType: string)
    ensures (!FieldTruthy(form, Email) || !FieldTruthy(form, FirstName) || !FieldTruthy(form, LastName))
      ==> Submit(form, userType) == Failure(RequiredMissing)
    ensures (FieldTruthy(form, Email) && FieldTruthy(form, FirstName) && FieldTruthy(form, LastName)
             && !HasStr(form, Category, "customer") && !FieldTruthy(form, Username))
      ==> Submit(form, userType) == Failure(UsernameRequired)
    ensures Submit(form, userType).Success? <==>
      FieldTruthy(form, Email) && FieldTruthy(form, FirstName) && FieldTruthy(form, LastName)
      && (HasStr(form, Category, "customer") || FieldTruthy(form, Username))
  {
  }

  /**
   * Once synchronised, the form's category stays `userType` through any typing, so the
   * username check applies to the type being created.
   */
  lemma {:induction false} CategoryFollowsUserType(form: Doc, userType: string, edits: seq<(Field, string)>)
    requires forall i :: 0 <= i < |edits| ==> edits[i].0 in InputFields
    ensures var f := Typed(SyncUserType(form, userType), edits);
      Category in f && f[Category] == Str(userType)
    decreases |edits|
  {
    if edits != [] {
      var last := edits[|edits| - 1];
      CategoryFollowsUserType(form, userType, edits[..|edits| - 1]);
    }
  }

  /** The form after the given inputs, in order. */
  function Typed(form: Doc, edits: seq<(Field, string)>): Doc
    requires forall i :: 0 <= i < |edits| ==> edits[i].0 in InputFields
    decreases |edits|
  {
    if edits == [] then form
    else SetInput(Typed(form, edits[..|edits| - 1]), edits[|edits| - 1].0, edits[|edits| - 1].1)
  }

  /** A customer form with an email and both names is accepted, username or not. */
  lemma CustomerNeedsNoUsername(form: Doc)
    requires FieldTruthy(form, Email) && FieldTruthy(form, FirstName) && FieldTruthy(form, LastName)
    ensures Submit(SyncUserType(form, "customer"), "customer").Success?
  {
  }
}
