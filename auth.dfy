/** The credential check and the two token/session callbacks of the
    authentication configuration (src/auth.ts).

    The e-mail check of the validation schema and the password comparison are
    collaborators whose code is not part of this model; they are parameters
    (`isEmail`, `verifyPassword`). The signed token is modelled by the two
    claims the portal adds to it; signing, cookies and expiry are not. */
module Auth {
  import opened Common
  import opened Users

  /** The raw `credentials` object; a value that is missing or not a string
      is `None`. */
  datatype Credentials = Credentials(email: Option<string>, password: Option<string>)

  /** Credentials that passed `credentialsSchema`. */
  datatype ValidCredentials = ValidCredentials(email: string, password: string)

  /** Minimum password length of the login schema, in UTF-16 code units. */
  const LoginPasswordMin: nat := 6

  /** `credentialsSchema.safeParse(credentials)`: both fields are strings, the
      e-mail is well formed and the password has at least six code units. */
  function ParseCredentials(c: Credentials, isEmail: string -> bool): (r: Option<ValidCredentials>)
    ensures r.Some? <==>
      c.email.Some? && c.password.Some? && isEmail(c.email.value) && JsLength(c.password.value) >= LoginPasswordMin
    ensures r.Some? ==> r.value.email == c.email.value && r.value.password == c.password.value
  {
    if c.email.Some? && c.password.Some? && isEmail(c.email.value) && JsLength(c.password.value) >= LoginPasswordMin
    then Some(ValidCredentials(c.email.value, c.password.value))
    else None
  }

  /** The identity record `authorize` hands to the sign-in flow. */
  datatype AuthUser = AuthUser(id: string, email: string, name: string, iConsent: bool)

  /** `` `${firstName} ${lastName ?? ""}`.trim() `` */
  function DisplayName(firstName: string, lastName: Option<string>): (name: string)
    ensures |name| <= |firstName| + 1 + |lastName.GetOr("")|
    ensures name != [] ==> !IsJsWhitespace(name[0]) && !IsJsWhitespace(name[|name| - 1])
  {
    Trim(firstName + " " + lastName.GetOr(""))
  }

  /** `authorize(credentials)`: validate, look the user up by e-mail, check
      the password, and build the identity record; `null` (`None`) on any
      failure, without saying which step failed. */
  function Authorize(c: Credentials, db: Tables, isEmail: string -> bool,
                     verifyPassword: (string, string) -> bool): (r: Option<AuthUser>)
    ensures r.Some? ==> ParseCredentials(c, isEmail).Some?
    ensures r.Some? ==>
      db.FindByEmail(c.email.value).Some? &&
      verifyPassword(c.password.value, db.FindByEmail(c.email.value).value.passwordHash)
  {
    match ParseCredentials(c, isEmail)
    case None => None
    case Some(v) =>
      match db.FindByEmail(v.email)
      case None => None
      case Some(user) =>
        if verifyPassword(v.password, user.passwordHash) then
          Some(AuthUser(user.id, user.email, DisplayName(user.firstName, user.lastName), user.iConsent))
        else None
  }

  /** `authorize` succeeds exactly when the input is valid, a user has that
      e-mail and the password matches that user's hash. */
  lemma AuthorizeSucceedsIff(c: Credentials, db: Tables, isEmail: string -> bool,
                             verifyPassword: (string, string) -> bool)
    ensures Authorize(c, db, isEmail, verifyPassword).Some? <==>
      && ParseCredentials(c, isEmail).Some?
      && db.FindByEmail(c.email.value).Some?
      && verifyPassword(c.password.value, db.FindByEmail(c.email.value).value.passwordHash)
  {
  }

  /** On success the record carries the stored id, e-mail and consent flag of
      the user filed under that e-mail, and its name is the trimmed full name;
      in a consistent table the id leads back to that same user. */
  lemma AuthorizeIdentifiesStoredUser(c: Credentials, db: Tables, isEmail: string -> bool,
                                      verifyPassword: (string, string) -> bool)
    requires db.Consistent()
    requires Authorize(c, db, isEmail, verifyPassword).Some?
    ensures var r := Authorize(c, db, isEmail, verifyPassword).value;
      && r.email == c.email.value
      && r.id in db.byId
      && db.FindById(r.id) == db.FindByEmail(c.email.value)
      && r.iConsent == db.byId[r.id].iConsent
      && r.name == DisplayName(db.byId[r.id].firstName, db.byId[r.id].lastName)
  {
  }

  /** A password of fewer than six code units is refused before any lookup,
      whatever the store holds. */
  lemma AuthorizeRejectsShortPassword(c: Credentials, db: Tables, isEmail: string -> bool,
                                      verifyPassword: (string, string) -> bool)
    requires c.password.Some? && JsLength(c.password.value) < LoginPasswordMin
    ensures Authorize(c, db, isEmail, verifyPassword).None?
  {
  }

  /** The claims the portal keeps in the token; other claims are unmodelled. */
  datatype Claims = Claims(id: Option<string>, iConsent: Option<bool>)

  /** The `trigger` argument of the `jwt` callback. */
  datatype Trigger = SignIn | SignUp | Update | NoTrigger

  /** The consent flag stored for `id`, or `undefined` when there is no such
      user (`updatedUser?.iConsent`). */
  function StoredConsent(db: Tables, id: Option<string>): (r: Option<bool>)
    ensures r.Some? <==> id.Some? && id.value in db.byId
    ensures r.Some? ==> r.value == db.byId[id.value].iConsent
  {
    if id.Some? && id.value in db.byId then Some(db.byId[id.value].iConsent) else None
  }

  /** The token the `jwt` callback returns. */
  function JwtResult(token: Claims, user: Option<AuthUser>, trigger: Trigger, db: Tables): (t: Claims)
    ensures user.Some? ==> t.id == Some(user.value.id)
    ensures user.Some? && trigger != Update ==> t.iConsent == Some(user.value.iConsent)
    ensures user.None? ==> t.id == token.id
    ensures trigger == Update ==> t.iConsent == StoredConsent(db, t.id)
    ensures user.None? && trigger != Update ==> t == token
  {
    var signedIn := if user.Some? then Claims(Some(user.value.id), Some(user.value.iConsent)) else token;
    if trigger == Update then signedIn.(iConsent := StoredConsent(db, signedIn.id)) else signedIn
  }

  /** The `user` object of a session. */
  datatype SessionUser = SessionUser(id: Option<string>, iConsent: Option<bool>,
                                     name: Option<string>, email: Option<string>)

  /** The session returned by the `session` callback; only the fields the
      portal reads are modelled. */
  datatype Session = Session(user: Option<SessionUser>)

  /** The session the `session` callback returns: the token's id and consent
      flag are copied onto `session.user` when it exists; nothing else
      changes. */
  function SessionResult(session: Session, token: Claims): (s: Session)
    ensures s.user.Some? <==> session.user.Some?
    ensures s.user.Some? ==> s.user.value == session.user.value.(id := token.id, iConsent := token.iConsent)
    ensures session.user.None? ==> s == session
  {
    match session.user
    case None => session
    case Some(u) => Session(Some(u.(iConsent := token.iConsent, id := token.id)))
  }

  /** The token object the `jwt` callback updates in place. */
  class Token {
    var id: Option<string>
    var iConsent: Option<bool>

    function Current(): Claims
      reads this
    {
      Claims(id, iConsent)
    }

    constructor (claims: Claims)
      ensures Current() == claims
    {
      id := claims.id;
      iConsent := claims.iConsent;
    }

    /** The `jwt` callback: copy the signed-in user onto the token, then on
        an `"update"` trigger re-read the consent flag from the store. */
    method Jwt(user: Option<AuthUser>, trigger: Trigger, db: Tables)
      modifies this
      ensures Current() == JwtResult(old(Current()), user, trigger, db)
    {
      if user.Some? {
        iConsent := Some(user.value.iConsent);
        id := Some(user.value.id);
      }
      if trigger == Update {
        var updatedUser := if id.Some? then db.FindById(id.value) else None;
        iConsent := if updatedUser.Some? then Some(updatedUser.value.iConsent) else None;
      }
    }
  }

  /** The session object whose `user` the `session` callback assigns to. */
  class SessionObject {
    var user: Option<SessionUser>

    function Current(): Session
      reads this
    {
      Session(user)
    }

    constructor (session: Session)
      ensures Current() == session
    {
      user := session.user;
    }

    /** The `session` callback. */
    method SessionCallback(token: Token)
      modifies this
      ensures Current() == SessionResult(old(Current()), token.Current())
    {
      if user.Some? {
        user := Some(user.value.(iConsent := token.iConsent));
        user := Some(user.value.(id := token.id));
      }
    }
  }
}
