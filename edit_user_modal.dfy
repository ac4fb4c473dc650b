/**
 * The user editor (src/components/EditUserModal.jsx): the form filled from a user record,
 * and the update set its submit sends, holding only what the form changes.
 */
module EditUserModal {
  import opened Docs

  /** The form's text fields besides the category and the password. */
  const TextFields: set<Field> := {Email, FirstName, LastName, Phone, PrimaryPhone, SecondaryPhone,
    Username, Address, City, State, Country, CountryCode, ZipCode}

  /** Every key the form holds. */
  const FormFields: set<Field> := TextFields + {Category, Password}

  /** The form before any user is loaded: every field ''. */
  function BlankForm(): (f: Doc)
    ensures f.Keys == FormFields
    ensures forall k :: k in f ==> f[k] == Str("")
  {
    map k | k in FormFields :: Str("")
  }

  /**
   * The effect run when a user is given: each text field is the user's value or '', the
   * category the user's or 'customer', and the password ''.
   */
  function InitForm(user: Doc): (f: Doc)
    ensures f.Keys == FormFields
    ensures forall k :: k in TextFields ==> f[k] == (if FieldTruthy(user, k) then user[k] else Str(""))
    ensures f[Category] == (if FieldTruthy(user, Category) then user[Category] else Str("customer"))
    ensures f[Password] == Str("")
  {
    (map k | k in TextFields :: Or(user, k, Str("")))[Category := Or(user, Category, Str("customer"))][Password := Str("")]
  }

  /** `editForm[key] !== user[key] && editForm[key] !== ''`: an absent user field is `undefined`. */
  predicate Changed(form: Doc, user: Doc, k: Field)
    requires k in form
  {
    form[k] != Str("") && (k !in user || user[k] != form[k])
  }

  /** `editForm.category !== user.category` */
  predicate CategoryChanged(form: Doc, user: Doc)
    requires Category in form
  {
    Category !in user || user[Category] != form[Category]
  }

  /** The update set `handleSubmit` builds. */
  function Updates(form: Doc, user: Doc): (u: Doc)
    requires Category in form
    ensures forall k :: k in u ==> k in form && u[k] == form[k] && (k !in user || user[k] != form[k])
    ensures Password in u ==> FieldTruthy(form, Password)
  {
    var changed := map k | k in form && Changed(form, user, k) :: form[k];
    var withoutPassword := if FieldTruthy(form, Password) then changed else changed - {Password};
    if CategoryChanged(form, user) then withoutPassword[Category := form[Category]] else withoutPassword
  }

  /**
   * The update set is the least one that brings the user to the form: every key it holds
   * comes from the form and differs from the stored value, and writing it gives every field
   * the form fills (other than a blank password) the form's value, and the category always.
   */
  lemma UpdatesAreTheDiff(form: Doc, user: Doc)
    requires Category in form
    ensures var u := Updates(form, user);
      (forall k :: k in u ==> k in form && u[k] == form[k] && (k !in user || user[k] != form[k]))
      && (forall k :: k in form && form[k] != Str("") && k != Password ==> k in user + u && (user + u)[k] == form[k])
      && (FieldTruthy(form, Password) ==> Password in user + u && (user + u)[Password] == form[Password])
      && (Category in user + u && (user + u)[Category] == form[Category])
  {
    var u := Updates(form, user);
    forall k | k in form && form[k] != Str("") && k != Password
      ensures k in user + u && (user + u)[k] == form[k]
    {
      if k in user && user[k] == form[k] {
        assert k in user + u;
      } else {
        assert Changed(form, user, k);
      }
    }
  }

  /** A field left blank in the form never enters the update set, apart from a changed category. */
  lemma BlankFieldsStay(form: Doc, user: Doc, k: Field)
    requires Category in form && k in form && k != Category
    requires form[k] == Str("")
    ensures k !in Updates(form, user)
  {
  }

  /** An empty password is never sent. */
  lemma EmptyPasswordNeverSent(form: Doc, user: Doc)
    requires Category in form && Password in form && form[Password] == Str("")
    ensures Password !in Updates(form, user)
  {
  }

  /** A changed category is always sent, even blank; an unchanged one never. */
  lemma CategorySentIffChanged(form: Doc, user: Doc)
    requires Category in form
    ensures Category in Updates(form, user) <==> CategoryChanged(form, user)
    ensures CategoryChanged(form, user) ==> Updates(form, user)[Category] == form[Category]
  {
  }

  /** A form loaded from a user with a category and left untouched sends nothing. */
  lemma UntouchedFormSendsNothing(user: Doc)
    requires FieldTruthy(user, Category)
    ensures Updates(InitForm(user), user) == map[]
  {
    var f := InitForm(user);
    forall k | k in f
      ensures !Changed(f, user, k)
    {
      if k in TextFields && FieldTruthy(user, k) {
        assert f[k] == user[k];
      }
    }
    assert Updates(f, user).Keys == {};
  }

  /** The modal's form state. */
  class EditUserForm {
    var editForm: Doc

    /** The form always holds exactly its fields. */
    predicate Valid()
      reads this
    {
      editForm.Keys == FormFields
    }

    constructor ()
      ensures Valid() && editForm == BlankForm()
    {
      editForm := BlankForm();
    }

    /** The effect on a newly given user. */
    method LoadUser(user: Doc)
      modifies this
      ensures Valid() && editForm == InitForm(user)
    {
      editForm := InitForm(user);
    }

    /** An input's `onChange`. */
    method SetField(k: Field, v: string)
      requires Valid() && k in FormFields
      modifies this
      ensures Valid() && editForm == old(editForm)[k := Str(v)]
    {
      editForm := editForm[k := Str(v)];
    }

    /** The loop of `handleSubmit`: the keys are visited one at a time and every changed, non-blank value is kept. */
    method CollectChanged(user: Doc) returns (changed: Doc)
      requires Valid()
      ensures changed == map k | k in editForm && Changed(editForm, user, k) :: editForm[k]
    {
      changed := map[];
      var keys := editForm.Keys;
      while keys != {}
        invariant keys <= editForm.Keys
        invariant changed == map k | k in editForm && k !in keys && Changed(editForm, user, k) :: editForm[k]
        decreases keys
      {
        var k :| k in keys;
        if (k !in user || editForm[k] != user[k]) && editForm[k] != Str("") {
          changed := changed[k := editForm[k]];
        }
        keys := keys - {k};
      }
    }

    /** `handleSubmit`: the changed values, then the password and the category are settled. */
    method HandleSubmit(user: Doc) returns (updates: Doc)
      requires Valid()
      ensures updates == Updates(editForm, user)
    {
      updates := CollectChanged(user);
      if !FieldTruthy(editForm, Password) {
        updates := updates - {Password};
      }
      if CategoryChanged(editForm, user) {
        updates := updates[Category := editForm[Category]];
      }
    }
  }
}
