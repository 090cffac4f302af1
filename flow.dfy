/** The login → consent → app-access journey across the pieces: the
    credential check and the `jwt`/`session` callbacks decide what the page
    and the route gate see, and the consent action followed by a session
    refresh is what opens the gate. */
module ConsentFlow {
  import opened Common
  import opened Users
  import opened Auth
  import opened RouteGate
  import Consent
  import LoginPage
  import UserStore

  /** A sign-in carries the stored consent flag to the browser: after the
      credential check, the `jwt` callback with the signed-in user and the
      `session` callback, the page goes home exactly when the stored user has
      consented, and otherwise every path but the login page sends the
      session back to `/login`. */
  lemma SignInReflectsStoredConsent(c: Credentials, db: Tables, isEmail: string -> bool,
                                    verifyPassword: (string, string) -> bool,
                                    token: Claims, sessionUser: SessionUser)
    requires db.Consistent()
    requires Authorize(c, db, isEmail, verifyPassword).Some?
    ensures var u := Authorize(c, db, isEmail, verifyPassword).value;
      var t := JwtResult(token, Some(u), SignIn, db);
      var s := SessionResult(Session(Some(sessionUser)), t).user;
      && u.id in db.byId
      && t.id == Some(u.id)
      && s.Some? && s.value.id == Some(u.id)
      && (LoginPage.PostLogin(s) == LoginPage.GoHome <==> db.byId[u.id].iConsent)
      && (!db.byId[u.id].iConsent ==> forall path :: path != LoginPath ==> Middleware(s, path) == Redirect(LoginPath))
  {
    AuthorizeIdentifiesStoredUser(c, db, isEmail, verifyPassword);
  }

  /** Consent followed by the refresh opens the gate: when the session's
      user exists in the store, the consent action succeeds, the `jwt`
      callback with the `"update"` trigger reads the new flag, and the
      refreshed session passes on every path but the login page, which now
      sends it home. */
  lemma ConsentThenRefreshOpensGate(db: Tables, token: Claims, sessionUser: SessionUser)
    requires sessionUser.id.Some? && token.id == sessionUser.id
    requires sessionUser.id.value in db.byId
    ensures var id := LoginPage.ConsentUserId(Some(sessionUser));
      var o := Consent.ConsentSubmit(db, id, Consent.NoFault);
      var t := JwtResult(token, None, Update, o.db);
      var s := SessionResult(Session(Some(sessionUser)), t).user;
      && o.result.success
      && StateOf(s) == Consented
      && Middleware(s, LoginPath) == Redirect("/")
      && forall path :: path != LoginPath ==> Middleware(s, path) == Next
  {
  }

  /** Without the refresh the token is stale: the store says consented, but
      a session still carrying the old flag is sent back to `/login` from
      every other path. */
  lemma StaleTokenStillGated(db: Tables, token: Claims, sessionUser: SessionUser, path: string)
    requires sessionUser.id.Some? && sessionUser.id.value in db.byId
    requires token.iConsent != Some(true)
    requires path != LoginPath
    ensures var o := Consent.ConsentSubmit(db, sessionUser.id.value, Consent.NoFault);
      var s := SessionResult(Session(Some(sessionUser)), token).user;
      && o.db.byId[sessionUser.id.value].iConsent
      && Middleware(s, path) == Redirect(LoginPath)
  {
  }

  /** A session without an id submits consent for the literal id
      `"defaultId"`; unless a stored user has that id, the action fails, the
      store is unchanged and the page does not refresh. */
  lemma DefaultIdFallbackFails(db: Tables, sessionUser: SessionUser, fault: Consent.StoreFault)
    requires sessionUser.id.None?
    requires "defaultId" !in db.byId
    ensures var o := Consent.ConsentSubmit(db, LoginPage.ConsentUserId(Some(sessionUser)), fault);
      !o.result.success && o.db == db
  {
  }

  /** The consent form, end to end on the page's objects: ticking the box
      for a stored user whose token and session agree on the id makes the
      client session consented, so the page's own effect sends it home and
      the gate lets it through everywhere but the login page. */
  method SubmitConsentAndRedirect(page: LoginPage.Page, token: Token, client: SessionObject,
                                  store: UserStore.Store)
    requires client.user.Some? && client.user.value.id.Some?
    requires token.id == client.user.value.id
    requires client.user.value.id.value in store.byId
    modifies page, token, client, store
    ensures StateOf(client.user) == Consented
    ensures page.replacedTo == Some("/")
    ensures store.Current() == Consent.SetConsent(old(store.Current()), old(client.user.value.id.value))
    ensures forall path :: path != LoginPath ==> Middleware(client.user, path) == Next
  {
    var refreshed := page.SubmitConsent(Some("on"), token, client, store, Consent.NoFault);
    page.ConsentRedirect(client.user);
  }
}
