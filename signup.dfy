/** The signup server action (src/actions/signup.ts) as a transition of the
    user table: required-field check, duplicate-email check, then creation of
    one record whose password is the salted hash.

    `saltAndHash` stands for the hashing collaborator with its random salt
    already drawn; `newId` is the id the store generates for the new row. */
module Signup {
  import opened Common
  import opened Users

  /** A `FormData` as `formData.get` sees it: the first value appended under
      each name. */
  type FormData = map<string, string>

  function Get(form: FormData, name: string): Option<string> {
    if name in form then Some(form[name]) else None
  }

  /** The fields whose absence or emptiness makes the action fail before any
      lookup. */
  predicate RequiredPresent(form: FormData) {
    && Truthy(Get(form, "fName")) && Truthy(Get(form, "email")) && Truthy(Get(form, "password"))
    && Truthy(Get(form, "gender")) && Truthy(Get(form, "dob")) && Truthy(Get(form, "zip"))
    && Truthy(Get(form, "servicePreference"))
  }

  const MissingFieldsMessage: string := "All fields are required.."
  const DuplicateEmailMessage: string := "Email already exists."
  const SuccessMessage: string := "Signup successfully"

  datatype Outcome = Outcome(db: Tables, result: ActionResult)

  /** The record `prismaDB.user.create` stores for a form that passed the
      checks. The consent flag starts out false (the column default). */
  function NewUser(form: FormData, newId: string, saltAndHash: string -> string): (u: User)
    requires RequiredPresent(form)
    ensures u.id == newId && u.email == form["email"] && u.email != ""
    ensures u.passwordHash == saltAndHash(form["password"])
    ensures !u.iConsent
  {
    User(
      id := newId,
      email := form["email"],
      passwordHash := saltAndHash(form["password"]),
      firstName := form["fName"],
      lastName := Get(form, "lName"),
      gender := form["gender"],
      dob := form["dob"],
      zipCode := form["zip"],
      insuranceCompany := Get(form, "insuranceCompany"),
      servicePreference := form["servicePreference"],
      emergencyName := Get(form, "emergencyName"),
      emergencyPhone := Get(form, "emergencyPhone"),
      iConsent := false)
  }

  /** `signupAction(formData)`. */
  function SignupAction(db: Tables, form: FormData, newId: string, saltAndHash: string -> string): (o: Outcome)
    requires newId !in db.byId
    ensures !RequiredPresent(form) ==> o == Outcome(db, ActionResult(false, MissingFieldsMessage))
    ensures o.result.success ==> o.result.message == SuccessMessage
    ensures !o.result.success ==> o.db == db
  {
    if !RequiredPresent(form) then
      Outcome(db, ActionResult(false, MissingFieldsMessage))
    else if db.FindByEmail(form["email"]).Some? then
      Outcome(db, ActionResult(false, DuplicateEmailMessage))
    else
      var user := NewUser(form, newId, saltAndHash);
      Outcome(Tables(db.byId[newId := user], db.byEmail[user.email := newId]),
              ActionResult(true, SuccessMessage))
  }

  /** An e-mail that some stored user already has is refused, and nothing is
      written. */
  lemma DuplicateEmailRejected(db: Tables, form: FormData, newId: string, saltAndHash: string -> string, id: string)
    requires db.Consistent() && newId !in db.byId
    requires RequiredPresent(form)
    requires id in db.byId && Get(form, "email") == Some(db.byId[id].email)
    ensures SignupAction(db, form, newId, saltAndHash) == Outcome(db, ActionResult(false, DuplicateEmailMessage))
  {
  }

  /** Success is exactly: every required field present and the e-mail new. It
      then adds one record under the new id, filed under its e-mail, holding
      the hash of the password and the form's values; every existing record
      is unchanged and the table stays consistent. */
  lemma SignupCreatesOneRecord(db: Tables, form: FormData, newId: string, saltAndHash: string -> string)
    requires db.Consistent() && newId !in db.byId
    ensures var o := SignupAction(db, form, newId, saltAndHash);
      o.result.success <==>
        RequiredPresent(form) && forall id :: id in db.byId ==> Some(db.byId[id].email) != Get(form, "email")
    ensures var o := SignupAction(db, form, newId, saltAndHash);
      o.result.success ==>
        && o.db.byId.Keys == db.byId.Keys + {newId}
        && (forall id :: id in db.byId ==> o.db.byId[id] == db.byId[id])
        && o.db.byId[newId].email == form["email"]
        && o.db.byId[newId].passwordHash == saltAndHash(form["password"])
        && o.db.byId[newId].firstName == form["fName"]
        && !o.db.byId[newId].iConsent
        && o.db.byEmail == db.byEmail[form["email"] := newId]
        && o.db.Consistent()
  {
    var o := SignupAction(db, form, newId, saltAndHash);
    if o.result.success {
      var user := NewUser(form, newId, saltAndHash);
      assert o.db == Tables(db.byId[newId := user], db.byEmail[user.email := newId]);
      assert user.email !in db.byEmail;
    }
  }

  /** The fields the action does not check (last name, emergency contact,
      insurance company) never decide its outcome. */
  lemma UncheckedFieldsIrrelevant(db: Tables, form: FormData, newId: string, saltAndHash: string -> string,
                                  name: string, value: string)
    requires newId !in db.byId
    requires name in {"lName", "emergencyName", "emergencyPhone", "insuranceCompany"}
    ensures SignupAction(db, form[name := value], newId, saltAndHash).result ==
            SignupAction(db, form, newId, saltAndHash).result
  {
    var form' := form[name := value];
    assert RequiredPresent(form') == RequiredPresent(form);
  }

  /** Submitting the same form again after a success fails as a duplicate and
      writes nothing, whatever id the store would generate. */
  lemma SignupTwiceRejected(db: Tables, form: FormData, newId: string, nextId: string,
                            saltAndHash: string -> string)
    requires db.Consistent() && newId !in db.byId
    requires SignupAction(db, form, newId, saltAndHash).result.success
    requires nextId !in SignupAction(db, form, newId, saltAndHash).db.byId
    ensures var db' := SignupAction(db, form, newId, saltAndHash).db;
      SignupAction(db', form, nextId, saltAndHash) == Outcome(db', ActionResult(false, DuplicateEmailMessage))
  {
    SignupCreatesOneRecord(db, form, newId, saltAndHash);
  }
}
