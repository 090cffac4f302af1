/** The non-visual logic of the login page (src/app/login/page.tsx): the
    signup validation schema, the branch taken after a login attempt, the
    signup and consent submissions, the form reset, and the effect that sends
    a consented session home.

    Markup, toasts' rendering and the router itself are not modelled; the
    page records the last `router.replace` target instead. */
module LoginPage {
  import opened Common
  import opened Users
  import opened Auth
  import RouteGate
  import Consent
  import Signup
  import UserStore

  /** The gender select and its option values. */
  datatype Gender = Male | Female | Other {
    function Value(): (v: string)
      ensures v != ""
    {
      match this
      case Male => "male"
      case Female => "female"
      case Other => "other"
    }
  }

  /** The service-preference radio group and its option values. */
  datatype ServicePreference = Online | InPerson {
    function Value(): (v: string)
      ensures v != ""
    {
      match this
      case Online => "online"
      case InPerson => "in-person"
    }
  }

  /** The values react-hook-form holds for the signup form. */
  datatype SignupFormData = SignupFormData(
    fName: string,
    lName: string,
    dob: string,
    zip: string,
    insuranceCompany: string,
    emergencyName: string,
    emergencyPhone: string,
    email: string,
    password: string)

  /** The values `clearForm` resets the form to. */
  const EmptyForm: SignupFormData := SignupFormData("", "", "", "", "", "", "", "", "")

  /** Minimum password length of the signup schema, in UTF-16 code units. */
  const SignupPasswordMin: nat := 8

  // ---------------------------------------------------------------------
  // The phone pattern /^\+?[1-9]\d{1,14}$/
  // ---------------------------------------------------------------------

  predicate IsDigit(c: char) {
    '0' <= c <= '9'
  }

  predicate IsNonZeroDigit(c: char) {
    '1' <= c <= '9'
  }

  /** The digits of a phone entry: the text after an optional leading `+`. */
  function PhoneDigits(s: string): (d: string)
    ensures |d| <= |s| <= |d| + 1
    ensures s != [] && s[0] == '+' ==> d == s[1..] && s == "+" + d
    ensures s == [] || s[0] != '+' ==> d == s
  {
    if s != [] && s[0] == '+' then s[1..] else s
  }

  /** The accepted numbers, stated declaratively: an optional `+`, then 2 to
      15 decimal digits of which the first is not zero (the ITU-T E.164 limit
      of 15 digits, clause 6). */
  predicate PhoneSpec(s: string) {
    var d := PhoneDigits(s);
    && 2 <= |d| <= 15
    && IsNonZeroDigit(d[0])
    && forall i :: 0 <= i < |d| ==> IsDigit(d[i])
  }

  /** The states of a matcher for the pattern: nothing read, the `+` read,
      `n` digits read, or failed. */
  datatype PhoneState = Start | AfterPlus | Digits(n: nat) | Reject

  function PhoneStep(st: PhoneState, c: char): PhoneState {
    match st
    case Start => if c == '+' then AfterPlus else if IsNonZeroDigit(c) then Digits(1) else Reject
    case AfterPlus => if IsNonZeroDigit(c) then Digits(1) else Reject
    case Digits(n) => if IsDigit(c) && n < 15 then Digits(n + 1) else Reject
    case Reject => Reject
  }

  function PhoneRun(st: PhoneState, s: string): PhoneState
    decreases |s|
  {
    if s == [] then st else PhoneRun(PhoneStep(st, s[0]), s[1..])
  }

  /** `/^\+?[1-9]\d{1,14}$/.test(s)`: the anchored pattern, run as a
      left-to-right matcher over the whole string. */
  predicate PhoneMatches(s: string) {
    var st := PhoneRun(Start, s);
    st.Digits? && st.n >= 2
  }

  /** Once failed, the matcher stays failed. */
  lemma {:induction false} RejectAbsorbs(s: string)
    ensures PhoneRun(Reject, s) == Reject
    decreases |s|
  {
    if s != [] {
      RejectAbsorbs(s[1..]);
    }
  }

  /** After `n` digits the matcher accepts more digits up to 15 in all, and
      fails on anything else. */
  lemma {:induction false} DigitsRun(n: nat, s: string)
    requires 1 <= n <= 15
    ensures PhoneRun(Digits(n), s) ==
      if n + |s| <= 15 && forall i :: 0 <= i < |s| ==> IsDigit(s[i]) then Digits(n + |s|) else Reject
    decreases |s|
  {
    if s != [] {
      if IsDigit(s[0]) && n < 15 {
        DigitsRun(n + 1, s[1..]);
        if forall i :: 0 <= i < |s[1..]| ==> IsDigit(s[1..][i]) {
          forall i | 0 <= i < |s| ensures IsDigit(s[i]) {
            if i > 0 {
              assert s[i] == s[1..][i - 1];
            }
          }
        } else {
          var i :| 0 <= i < |s[1..]| && !IsDigit(s[1..][i]);
          assert s[i + 1] == s[1..][i];
        }
      } else {
        RejectAbsorbs(s[1..]);
      }
    }
  }

  /** The matcher accepts exactly the numbers of `PhoneSpec`. */
  lemma PhoneMatchesIff(s: string)
    ensures PhoneMatches(s) <==> PhoneSpec(s)
  {
    var d := PhoneDigits(s);
    if s == [] {
    } else if s[0] == '+' {
      if d == [] {
        assert PhoneRun(Start, s) == PhoneRun(AfterPlus, d);
      } else if IsNonZeroDigit(d[0]) {
        DigitsRun(1, d[1..]);
        assert PhoneRun(Start, s) == PhoneRun(Digits(1), d[1..]);
        DigitsRangeShift(d);
      } else {
        RejectAbsorbs(d[1..]);
        assert PhoneRun(Start, s) == PhoneRun(Reject, d[1..]);
      }
    } else if IsNonZeroDigit(s[0]) {
      DigitsRun(1, s[1..]);
      DigitsRangeShift(s);
    } else {
      RejectAbsorbs(s[1..]);
    }
  }

  /** All characters of `d` are digits exactly when its first one and all of
      `d[1..]` are. */
  lemma DigitsRangeShift(d: string)
    requires d != []
    ensures (forall i :: 0 <= i < |d| ==> IsDigit(d[i])) <==>
      IsDigit(d[0]) && forall i :: 0 <= i < |d[1..]| ==> IsDigit(d[1..][i])
  {
    if IsDigit(d[0]) && forall i :: 0 <= i < |d[1..]| ==> IsDigit(d[1..][i]) {
      forall i | 0 <= i < |d| ensures IsDigit(d[i]) {
        if i > 0 {
          assert d[i] == d[1..][i - 1];
        }
      }
    }
  }

  /** An accepted phone entry has between 2 and 15 digits and at most one
      other character, a leading `+`; `0` never starts the number. */
  lemma PhoneBounds(s: string)
    requires PhoneMatches(s)
    ensures 2 <= |s| <= 16
    ensures s[0] == '+' || IsNonZeroDigit(s[0])
    ensures forall i :: 0 < i < |s| ==> IsDigit(s[i])
  {
    PhoneMatchesIff(s);
    var d := PhoneDigits(s);
    if s[0] == '+' {
      forall i | 0 < i < |s| ensures IsDigit(s[i]) {
        assert s[i] == d[i - 1];
      }
    }
  }

  // ---------------------------------------------------------------------
  // signupSchema
  // ---------------------------------------------------------------------

  /** `signupSchema`: six fields non-empty (`.min(1)` counts code units, and
      a string has at least one exactly when it is not empty), the phone
      matching the pattern, a well-formed e-mail and a password of at least
      eight code units. The e-mail check is the collaborator `isEmail`. */
  predicate SignupValid(f: SignupFormData, isEmail: string -> bool) {
    && f.fName != ""
    && f.lName != ""
    && f.dob != ""
    && f.zip != ""
    && f.insuranceCompany != ""
    && f.emergencyName != ""
    && PhoneMatches(f.emergencyPhone)
    && isEmail(f.email)
    && JsLength(f.password) >= SignupPasswordMin
  }

  /** The fields of the signup schema, as keys of its error report. */
  datatype Field = FName | LName | Dob | Zip | InsuranceCompany | EmergencyName | EmergencyPhone | Email | Password

  const AllFields: set<Field> :=
    {FName, LName, Dob, Zip, InsuranceCompany, EmergencyName, EmergencyPhone, Email, Password}

  /** The rule of each field fails. */
  predicate Fails(f: SignupFormData, isEmail: string -> bool, field: Field) {
    match field
    case FName => f.fName == ""
    case LName => f.lName == ""
    case Dob => f.dob == ""
    case Zip => f.zip == ""
    case InsuranceCompany => f.insuranceCompany == ""
    case EmergencyName => f.emergencyName == ""
    case EmergencyPhone => !PhoneMatches(f.emergencyPhone)
    case Email => !isEmail(f.email)
    case Password => JsLength(f.password) < SignupPasswordMin
  }

  /** The message the schema gives for each field's rule. */
  function Message(field: Field): string {
    match field
    case FName => "First name is required"
    case LName => "Last name is required"
    case Dob => "Date of birth is required"
    case Zip => "Zip code is required"
    case InsuranceCompany => "Insurance company is required"
    case EmergencyName => "Emergency contact name is required"
    case EmergencyPhone => "Invalid phone number"
    case Email => "Invalid email address"
    case Password => "Password must be at least 8 characters"
  }

  /** The schema accepts a form exactly when no field's rule fails. */
  lemma ValidIffNoFailure(f: SignupFormData, isEmail: string -> bool)
    ensures SignupValid(f, isEmail) <==> forall field :: !Fails(f, isEmail, field)
  {
    if SignupValid(f, isEmail) {
      forall field ensures !Fails(f, isEmail, field) {
      }
    } else {
      var field :=
        if f.fName == "" then FName else if f.lName == "" then LName else if f.dob == "" then Dob
        else if f.zip == "" then Zip else if f.insuranceCompany == "" then InsuranceCompany
        else if f.emergencyName == "" then EmergencyName
        else if !PhoneMatches(f.emergencyPhone) then EmergencyPhone
        else if !isEmail(f.email) then Email else Password;
      assert Fails(f, isEmail, field);
    }
  }

  /** The error messages the schema reports, one per failing field. */
  function SignupErrors(f: SignupFormData, isEmail: string -> bool): (e: map<Field, string>)
    ensures forall field :: field in e <==> Fails(f, isEmail, field)
    ensures forall field :: field in e ==> e[field] == Message(field)
  {
    var e := map field | field in AllFields && Fails(f, isEmail, field) :: Message(field);
    assert forall field :: Fails(f, isEmail, field) ==> field in AllFields;
    e
  }

  /** The schema reports no error exactly when it accepts the form. */
  lemma SignupErrorsEmptyIff(f: SignupFormData, isEmail: string -> bool)
    ensures SignupErrors(f, isEmail).Keys == {} <==> SignupValid(f, isEmail)
  {
    ValidIffNoFailure(f, isEmail);
    var e := SignupErrors(f, isEmail);
    if !SignupValid(f, isEmail) {
      var field :| Fails(f, isEmail, field);
      assert field in e;
    }
  }

  /** The report names each field whose rule fails: an empty first name, a
      phone outside the accepted numbers, a malformed e-mail, a password of
      fewer than eight code units. */
  lemma SignupErrorsFields(f: SignupFormData, isEmail: string -> bool)
    ensures var e := SignupErrors(f, isEmail);
      && (FName in e <==> f.fName == "")
      && (EmergencyPhone in e <==> !PhoneSpec(f.emergencyPhone))
      && (Email in e <==> !isEmail(f.email))
      && (Password in e <==> JsLength(f.password) < SignupPasswordMin)
      && (Password in e ==> e[Password] == "Password must be at least 8 characters")
  {
    PhoneMatchesIff(f.emergencyPhone);
  }

  /** Every password the signup schema accepts also meets the login schema's
      bound, so an account created through the form can pass
      `credentialsSchema` with the same e-mail and password. */
  lemma SignupPasswordPassesLogin(f: SignupFormData, isEmail: string -> bool)
    requires SignupValid(f, isEmail)
    ensures ParseCredentials(Credentials(Some(f.email), Some(f.password)), isEmail)
      == Some(ValidCredentials(f.email, f.password))
  {
  }

  /** `signupSubmit`'s `FormData`: every schema field under its own name,
      then `gender` and `servicePreference`. */
  function ToFormData(f: SignupFormData, gender: Gender, servicePreference: ServicePreference)
    : (form: Signup.FormData)
    ensures form.Keys == {"fName", "lName", "dob", "zip", "insuranceCompany", "emergencyName",
                          "emergencyPhone", "email", "password", "gender", "servicePreference"}
    ensures form["fName"] == f.fName && form["lName"] == f.lName && form["dob"] == f.dob && form["zip"] == f.zip
    ensures form["insuranceCompany"] == f.insuranceCompany && form["emergencyName"] == f.emergencyName
    ensures form["emergencyPhone"] == f.emergencyPhone
    ensures form["email"] == f.email && form["password"] == f.password
    ensures form["gender"] == gender.Value() && form["servicePreference"] == servicePreference.Value()
  {
    map["fName" := f.fName, "lName" := f.lName, "dob" := f.dob, "zip" := f.zip,
        "insuranceCompany" := f.insuranceCompany, "emergencyName" := f.emergencyName,
        "emergencyPhone" := f.emergencyPhone, "email" := f.email, "password" := f.password,
        "gender" := gender.Value(), "servicePreference" := servicePreference.Value()]
  }

  /** A form the schema accepts always passes the server's required-field
      check: the client check is at least as strict, given that the e-mail
      check refuses the empty string. */
  lemma SchemaImpliesRequiredPresent(f: SignupFormData, gender: Gender, servicePreference: ServicePreference,
                                     isEmail: string -> bool)
    requires SignupValid(f, isEmail)
    requires !isEmail("")
    ensures Signup.RequiredPresent(ToFormData(f, gender, servicePreference))
  {
  }

  /** The server stores the form's values: after a successful signup the new
      record holds the e-mail, the hash of the password and the first name
      that were typed, and its consent flag is unset. */
  lemma SignupStoresForm(db: Tables, f: SignupFormData, gender: Gender, servicePreference: ServicePreference,
                         newId: string, saltAndHash: string -> string)
    requires db.Consistent() && newId !in db.byId
    requires Signup.SignupAction(db, ToFormData(f, gender, servicePreference), newId, saltAndHash).result.success
    ensures var u := Signup.SignupAction(db, ToFormData(f, gender, servicePreference), newId, saltAndHash).db.byId[newId];
      && u.email == f.email && u.passwordHash == saltAndHash(f.password) && u.firstName == f.fName
      && u.gender == gender.Value() && u.servicePreference == servicePreference.Value()
      && u.lastName == Some(f.lName) && !u.iConsent
  {
    Signup.SignupCreatesOneRecord(db, ToFormData(f, gender, servicePreference), newId, saltAndHash);
  }

  // ---------------------------------------------------------------------
  // The branch after a login attempt
  // ---------------------------------------------------------------------

  /** Where the page goes after a login attempt. */
  datatype LoginStep = GoHome | ShowConsent

  /** `updatedSession?.user.iConsent ? router.replace("/") :
      setShowConsentForm(true)`. The login's own outcome plays no part. */
  function PostLogin(updatedSession: Option<SessionUser>): (step: LoginStep)
    ensures step == GoHome <==> RouteGate.StateOf(updatedSession) == RouteGate.Consented
  {
    if updatedSession.Some? && updatedSession.value.iConsent == Some(true) then GoHome else ShowConsent
  }

  /** The page's branch agrees with the route gate: the home page it goes to
      is let through, and a session it keeps on the login page for consent is
      not redirected away from it. */
  lemma PostLoginAgreesWithGate(updatedSession: Option<SessionUser>)
    ensures PostLogin(updatedSession) == GoHome ==> RouteGate.Middleware(updatedSession, "/") == RouteGate.Next
    ensures PostLogin(updatedSession) == ShowConsent ==>
      RouteGate.Middleware(updatedSession, RouteGate.LoginPath) == RouteGate.Next
  {
    assert "/" != RouteGate.LoginPath by { assert |"/"| != |RouteGate.LoginPath|; }
  }

  const LoginSuccessToast: string := "Login successful!"
  const LoginFailureToast: string := "Login failed. Try again."

  /** The `id` the consent submission sends: `session?.user.id ?? "defaultId"`. */
  function ConsentUserId(session: Option<SessionUser>): (id: string)
    ensures session.Some? && session.value.id.Some? ==> id == session.value.id.value
    ensures session.None? || session.value.id.None? ==> id == "defaultId"
  {
    if session.Some? && session.value.id.Some? then session.value.id.value else "defaultId"
  }

  /** The page's state. */
  class Page {
    var form: SignupFormData
    var gender: Gender
    var servicePreference: ServicePreference
    var showConsentForm: bool
    /** The last `router.replace` target, if any. */
    var replacedTo: Option<string>

    constructor ()
      ensures form == EmptyForm && gender == Male && servicePreference == Online
      ensures !showConsentForm && replacedTo == None
    {
      form := EmptyForm;
      gender := Male;
      servicePreference := Online;
      showConsentForm := false;
      replacedTo := None;
    }

    /** `onSubmit` after the sign-in attempt and the session re-read: report
        the login's outcome, then go home with a consented session and show
        the consent form otherwise, even when the login failed. */
    method OnSubmit(loginSucceeded: bool, updatedSession: Option<SessionUser>) returns (toast: string)
      modifies this
      ensures toast == if loginSucceeded then LoginSuccessToast else LoginFailureToast
      ensures PostLogin(updatedSession) == GoHome ==>
        replacedTo == Some("/") && showConsentForm == old(showConsentForm)
      ensures PostLogin(updatedSession) == ShowConsent ==>
        showConsentForm && replacedTo == old(replacedTo)
      ensures form == old(form) && gender == old(gender) && servicePreference == old(servicePreference)
    {
      toast := if loginSucceeded then LoginSuccessToast else LoginFailureToast;
      if updatedSession.Some? && updatedSession.value.iConsent == Some(true) {
        replacedTo := Some("/");
      } else {
        showConsentForm := true;
      }
    }

    /** `clearForm()`: every form field emptied and both selections back to
        their defaults. */
    method ClearForm()
      modifies this
      ensures form == EmptyForm && gender == Male && servicePreference == Online
      ensures showConsentForm == old(showConsentForm) && replacedTo == old(replacedTo)
    {
      form := EmptyForm;
      gender := Male;
      servicePreference := Online;
    }

    /** `handleSubmit(signupSubmit)`: validate against the schema; when it
        passes, send the form with the two selections to the signup action
        and clear the form exactly when the action succeeds. A form the
        schema refuses reaches no server and changes nothing. */
    method HandleSignup(store: UserStore.Store, isEmail: string -> bool, newId: string,
                        saltAndHash: string -> string)
      returns (errors: map<Field, string>, res: Option<ActionResult>)
      requires newId !in store.byId
      modifies this, store
      ensures errors == SignupErrors(old(form), isEmail)
      ensures res.Some? <==> errors.Keys == {}
      ensures res.None? ==>
        store.Current() == old(store.Current()) && form == old(form) &&
        gender == old(gender) && servicePreference == old(servicePreference)
      ensures res.Some? ==>
        Signup.Outcome(store.Current(), res.value) ==
        Signup.SignupAction(old(store.Current()), ToFormData(old(form), old(gender), old(servicePreference)),
                            newId, saltAndHash)
      ensures res.Some? && res.value.success ==>
        form == EmptyForm && gender == Male && servicePreference == Online
      ensures res.Some? && !res.value.success ==>
        form == old(form) && gender == old(gender) && servicePreference == old(servicePreference)
      ensures showConsentForm == old(showConsentForm) && replacedTo == old(replacedTo)
    {
      errors := SignupErrors(form, isEmail);
      if errors.Keys != {} {
        return errors, None;
      }
      var response := store.SignupAction(ToFormData(form, gender, servicePreference), newId, saltAndHash);
      if response.success {
        ClearForm();
      }
      res := Some(response);
    }

    /** `submitConsent`: when the checkbox value is present, record consent
        for the session's user and, only on success, refresh the session,
        which runs the `jwt` callback with the `"update"` trigger against the
        updated store and then the `session` callback. */
    method SubmitConsent(iConsentField: Option<string>, token: Token, client: SessionObject,
                         store: UserStore.Store, fault: Consent.StoreFault)
      returns (refreshed: bool)
      modifies token, client, store
      ensures var o := Consent.ConsentSubmit(old(store.Current()), ConsentUserId(old(client.user)), fault);
        && (refreshed <==> Truthy(iConsentField) && o.result.success)
        && store.Current() == (if Truthy(iConsentField) then o.db else old(store.Current()))
      ensures refreshed ==>
        && token.Current() == JwtResult(old(token.Current()), None, Update, store.Current())
        && client.Current() == SessionResult(old(client.Current()), token.Current())
      ensures !refreshed ==> token.Current() == old(token.Current()) && client.Current() == old(client.Current())
    {
      refreshed := false;
      if Truthy(iConsentField) {
        var res := store.ConsentSubmit(ConsentUserId(client.user), fault);
        if res.success {
          token.Jwt(None, Update, store.Current());
          client.SessionCallback(token);
          refreshed := true;
        }
      }
    }

    /** The effect on `session`: a consented session is sent home. */
    method ConsentRedirect(session: Option<SessionUser>)
      modifies this
      ensures RouteGate.StateOf(session) == RouteGate.Consented ==> replacedTo == Some("/")
      ensures RouteGate.StateOf(session) != RouteGate.Consented ==> replacedTo == old(replacedTo)
      ensures form == old(form) && gender == old(gender) && servicePreference == old(servicePreference)
      ensures showConsentForm == old(showConsentForm)
    {
      if session.Some? && session.value.iConsent == Some(true) {
        replacedTo := Some("/");
      }
    }
  }
}
