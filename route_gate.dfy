/** The per-request route gate (src/middleware.ts): from the session and the
    request path it decides whether the request passes through or is
    redirected, and to where. The matcher decides which paths the gate sees
    at all.

    Redirect targets are relative to the request's origin (`new URL(target,
    req.url)`); the origin itself is not modelled. */
module RouteGate {
  import opened Common
  import opened UriComponent
  import opened Auth

  datatype Response = Next | Redirect(location: string)

  const LoginPath: string := "/login"
  const CallbackPrefix: string := "/login?callbackUrl="

  /** The three states a request can be in, derived from the session alone. */
  datatype GateState = Unauthenticated | AwaitingConsent | Consented

  /** `session.user.iConsent` is truthy. */
  predicate HasConsent(session: Option<SessionUser>) {
    session.Some? && session.value.iConsent == Some(true)
  }

  function StateOf(session: Option<SessionUser>): (g: GateState)
    ensures g == Unauthenticated <==> session.None?
    ensures g == Consented <==> HasConsent(session)
  {
    if session.None? then Unauthenticated
    else if HasConsent(session) then Consented
    else AwaitingConsent
  }

  /** `middleware(req)`: the session's user (when there is a session) and the
      request path decide the response. The login page is the only public
      path; every other path passes only for a consented session. */
  function Middleware(session: Option<SessionUser>, pathname: string): (r: Response)
    ensures r.Next? <==>
      (pathname == LoginPath && StateOf(session) != Consented) ||
      (pathname != LoginPath && StateOf(session) == Consented)
    ensures r.Redirect? ==>
      r.location == "/" || r.location == LoginPath ||
      r.location == CallbackPrefix + EncodeURIComponent(pathname)
    ensures r.Redirect? && r.location == "/" ==> pathname == LoginPath
    ensures r.Redirect? && r.location != "/" ==> pathname != LoginPath
  {
    var publicPaths := [LoginPath];
    if pathname in publicPaths then
      if session.Some? && session.value.iConsent == Some(true) then Redirect("/")
      else Next
    else if session.None? then
      Redirect(CallbackPrefix + EncodeURIComponent(pathname))
    else if session.value.iConsent != Some(true) then
      Redirect(LoginPath)
    else Next
  }

  /** On the login path a consented session is sent to the app root. */
  lemma LoginConsentedGoesHome(session: Option<SessionUser>)
    requires StateOf(session) == Consented
    ensures Middleware(session, LoginPath) == Redirect("/")
  {
  }

  /** On the login path a missing session or one without consent passes: the
      gate never blocks the login page for them. */
  lemma LoginNeverBlocked(session: Option<SessionUser>)
    requires StateOf(session) != Consented
    ensures Middleware(session, LoginPath) == Next
  {
  }

  /** Anywhere else, no session means a redirect to the login page that
      carries the requested path as its callback. */
  lemma UnauthenticatedGetsCallback(pathname: string)
    requires pathname != LoginPath
    ensures Middleware(None, pathname) == Redirect(CallbackPrefix + EncodeURIComponent(pathname))
  {
  }

  /** The end-to-end instance: an unauthenticated request for `/dashboard` is
      redirected to `/login?callbackUrl=%2Fdashboard`. */
  lemma DashboardRedirect(pathname: string)
    requires pathname == "/dashboard"
    ensures Middleware(None, pathname) == Redirect("/login?callbackUrl=%2Fdashboard")
  {
    assert pathname != LoginPath by { assert |pathname| != |LoginPath|; }
    UnauthenticatedGetsCallback(pathname);
    EncodeDashboard(pathname);
    var encoded := EncodeURIComponent(pathname);
    assert CallbackPrefix + encoded == "/login?callbackUrl=%2Fdashboard";
  }

  /** Anywhere else, a session without consent is redirected to the login page
      with no callback parameter. */
  lemma AwaitingConsentGoesToLogin(session: Option<SessionUser>, pathname: string)
    requires StateOf(session) == AwaitingConsent
    requires pathname != LoginPath
    ensures Middleware(session, pathname) == Redirect(LoginPath)
  {
  }

  /** Only the exact string `/login` is public: a trailing slash or a
      sub-path is gated like any other path. */
  lemma LoginSubpathsGated(session: Option<SessionUser>, suffix: string)
    requires suffix != []
    requires StateOf(session) != Consented
    ensures Middleware(session, LoginPath + suffix).Redirect?
    ensures Middleware(session, LoginPath + suffix).location != "/"
  {
    assert |LoginPath + suffix| > |LoginPath|;
  }

  /** ECMAScript line terminators; `.` in a regular expression does not match
      them. */
  predicate IsLineTerminator(c: char) {
    c == '\n' || c == '\r' || c == '\U{2028}' || c == '\U{2029}'
  }

  predicate StartsWith(s: string, prefix: string) {
    |prefix| <= |s| && s[..|prefix|] == prefix
  }

  /** `favicon.ico` as a regular expression: its `.` is unescaped and matches
      any character but a line terminator. */
  predicate StartsWithFaviconPattern(s: string) {
    |s| >= 11 && s[..7] == "favicon" && !IsLineTerminator(s[7]) && s[8..11] == "ico"
  }

  /** The negative look-ahead `(?!api|_next/static|_next/image|favicon.ico)`
      fails on these texts: it is a prefix test. */
  predicate Excluded(rest: string) {
    StartsWith(rest, "api") || StartsWith(rest, "_next/static") ||
    StartsWith(rest, "_next/image") || StartsWithFaviconPattern(rest)
  }

  /** `config.matcher`: the whole path matches
      `/((?!api|_next/static|_next/image|favicon.ico).*)`. */
  predicate Matched(pathname: string) {
    && |pathname| >= 1 && pathname[0] == '/'
    && !Excluded(pathname[1..])
    && forall i :: 1 <= i < |pathname| ==> !IsLineTerminator(pathname[i])
  }

  /** What a request gets: paths outside the matcher never reach the gate. */
  function Route(session: Option<SessionUser>, pathname: string): (r: Response)
    ensures !Matched(pathname) ==> r == Next
    ensures Matched(pathname) ==> r == Middleware(session, pathname)
  {
    if Matched(pathname) then Middleware(session, pathname) else Next
  }

  /** The safety invariant of the whole gate: a request for any path other
      than the login page passes only with a consented session, or when the
      matcher leaves the path out. */
  lemma PassOnlyWithConsent(session: Option<SessionUser>, pathname: string)
    requires pathname != LoginPath
    requires Route(session, pathname) == Next
    ensures !Matched(pathname) || StateOf(session) == Consented
  {
  }

  /** The exclusion is a prefix test: any path whose text after the leading
      `/` starts with `api` is not gated, so `/apiary` passes without a
      session just as `/api/auth/session` does. */
  lemma ApiPrefixNotGated(session: Option<SessionUser>, rest: string)
    requires StartsWith(rest, "api")
    ensures Route(session, "/" + rest) == Next
  {
    assert ("/" + rest)[1..] == rest;
  }

  /** Because the dot of `favicon.ico` is unescaped, `/favicon-ico` and the
      like are not gated either. */
  lemma FaviconDotMatchesAnyCharacter(session: Option<SessionUser>, c: char)
    requires !IsLineTerminator(c)
    ensures Route(session, "/favicon" + [c] + "ico") == Next
  {
    var rest := "favicon" + [c] + "ico";
    assert "/favicon" + [c] + "ico" == "/" + rest;
    assert ("/" + rest)[1..] == rest;
    assert rest[..7] == "favicon" && rest[7] == c && rest[8..11] == "ico";
  }

  /** Ordinary application paths are gated: a path that starts with `/`,
      holds no line terminator and whose first character after the `/` is
      not one that starts an excluded prefix goes through the gate. */
  lemma OrdinaryPathGated(session: Option<SessionUser>, pathname: string)
    requires |pathname| >= 1 && pathname[0] == '/'
    requires forall i :: 1 <= i < |pathname| ==> !IsLineTerminator(pathname[i])
    requires |pathname| == 1 || pathname[1] !in {'a', '_', 'f'}
    ensures Route(session, pathname) == Middleware(session, pathname)
  {
  }
}
