# Patient portal access control, in Dafny

This project models the access-control and record-keeping core of a small
Next.js patient portal, whose journey is **login → consent → app access**:

- **Route gate** (`RouteGate`, `route_gate.dfy`). It decides, for every request
  the matcher selects, whether the request passes or is redirected to `/`,
  to `/login`, or to `/login?callbackUrl=` plus the percent-encoded path. The
  gate sees three states: no session, a session awaiting consent, a consented
  session. The callback uses `encodeURIComponent` (ECMA-262, section
  19.2.6.5), modelled in `UriComponent` for every string of Unicode scalar
  values: UTF-8 bytes, then `%XY` per section 2.1 of RFC 3986.
- **Credential check and callbacks** (`Auth`). `authorize` validates,
  looks the user up by e-mail, checks the password and builds the identity
  record. The `jwt` callback copies identity into the token and re-reads the
  consent flag on an `"update"`. The `session` callback copies the token's
  claims onto the session. The token and the session are objects updated in
  place.
- **Server actions** (`Consent`, `Signup`, `UserStore`). They run over a
  user table with an id key and a unique e-mail index (`Users.Tables`). Each
  action is a specification function plus a method on the `Store` class
  proved to perform exactly that transition.
- **Conversation list state** (`AppProvider`). It holds the sidebar toggle and
  the fetch reconciliation: clear, keep, or replace with the list sorted
  newest first. The sort is an in-place stable insertion sort on an array,
  proved sorted, a permutation and stable. Any stable sort gives the same
  result.
- **Login page logic** (`LoginPage`):
  - the signup schema, including the phone pattern `^\+?[1-9]\d{1,14}$`
    (a matcher proved equal to its declarative reading: at most 15 digits,
    as in clause 6 of ITU-T Recommendation E.164);
  - the branch after a login attempt;
  - signup submission, form reset, consent submission with session refresh,
    and the consent redirect effect.
- **The journey across modules** (`ConsentFlow`, `flow.dfy`). A sign-in
  carries the stored consent flag through the callbacks. Consent followed by
  a refresh opens the gate; a stale token keeps it closed.

Collaborators whose code is not part of this model are parameters:
`isEmail` (zod's `.email()`), `verifyPassword`, `saltAndHash` (salted
hashing with its salt already drawn), the store's failures (`StoreFault`),
the fetch's answer (`FetchResponse`) and the sign-in outcome.

## Model

| member | source | states |
|---|---|---|
| Common.Truthy | src/actions/signup.ts:21 | a form value is truthy exactly when it is present and its JavaScript length is not zero |
| Common.JsLength | src/auth.ts:10 | `s.length` counts UTF-16 code units: between the number of characters and twice it, equal to it exactly when no character lies outside the Basic Multilingual Plane |
| Common.TrimStart | src/auth.ts:33 | drops exactly the leading ECMAScript whitespace; what remains does not start with whitespace |
| Common.TrimEnd | src/auth.ts:33 | drops exactly the trailing ECMAScript whitespace; what remains does not end with whitespace |
| Common.Trim | src/auth.ts:33 | `trim()` yields the slice after the leading whitespace, followed only by whitespace, neither starting nor ending with whitespace |
| UriComponent.Utf8 | src/middleware.ts:20 | UTF-8 encoding of a character: 1 to 4 bytes, one byte exactly for ASCII, continuation bytes in 0x80–0xBF |
| UriComponent.HexDigit | src/middleware.ts:20 | the upper-case hex digit of a nibble is unreserved and decodes back to the nibble |
| UriComponent.EncodeURIComponent | src/middleware.ts:20 | the encoding contains only unreserved characters and `%`, and leaves a string of unreserved characters unchanged |
| UriComponent.DecodeEncode | src/middleware.ts:20 | round trip: percent-decoding the encoded path gives back exactly its UTF-8 bytes |
| UriComponent.NoUrlDelimiters | src/middleware.ts:20 | the encoded path never contains `/ ? # & = : +` or a space, so it stays inside the `callbackUrl` parameter |
| UriComponent.EncodeSegmentPath | src/middleware.ts:20 | `/` followed by unreserved characters encodes as `%2F` followed by the same characters |
| UriComponent.EncodeDashboard | src/middleware.ts:20 | `/dashboard` encodes as `%2Fdashboard` |
| Users.Tables.FindById | src/actions/consent.ts:7-9 | lookup by id finds a record exactly when the id is stored, and returns that record |
| Users.Tables.FindByEmail | src/auth.ts:23 | in a consistent table, lookup by e-mail finds a record exactly when some stored record has that e-mail, and the record found has it |
| Auth.DisplayName | src/auth.ts:33 | the display name has no leading or trailing whitespace and is no longer than first name, space and last name together |
| Auth.ParseCredentials | src/auth.ts:8-11 | the schema accepts exactly two strings with a well-formed e-mail and a password of at least 6 code units, and passes them through unchanged |
| Auth.Authorize | src/auth.ts:17-39 | a returned identity implies valid input, a user stored under that e-mail, and a password that verifies against that user's hash |
| Auth.AuthorizeSucceedsIff | src/auth.ts:18-38 | `authorize` succeeds exactly when the input is valid, the e-mail is stored and the password verifies; otherwise null |
| Auth.AuthorizeIdentifiesStoredUser | src/auth.ts:29-35 | on success the record has the stored id, e-mail and consent flag, and the trimmed `firstName + " " + (lastName ?? "")` as name |
| Auth.AuthorizeRejectsShortPassword | src/auth.ts:10 | a password under 6 code units is refused whatever the store holds |
| Auth.StoredConsent | src/auth.ts:50-55 | the refreshed flag is the stored flag of the token's user, and undefined when there is no such user |
| Auth.JwtResult | src/auth.ts:43-58 | with a user, the token gets its id and consent flag; on `"update"`, the flag is re-read from the store; with neither, the token is unchanged |
| Auth.Token.Jwt | src/auth.ts:43-58 | the in-place `jwt` callback leaves the token equal to `JwtResult` of its old claims |
| Auth.SessionResult | src/auth.ts:59-65 | when the session has a user, that user gets the token's id and flag and nothing else changes; a session without a user is returned unchanged |
| Auth.SessionObject.SessionCallback | src/auth.ts:59-65 | the in-place `session` callback leaves the session equal to `SessionResult` |
| RouteGate.StateOf | src/middleware.ts:13-25 | the three gate states: unauthenticated exactly without a session, consented exactly when `session.user.iConsent` is true |
| RouteGate.Middleware | src/middleware.ts:7-27 | a request passes exactly on `/login` when not consented, or elsewhere when consented; any redirect goes to `/`, `/login` or `/login?callbackUrl=` plus the encoded path |
| RouteGate.LoginConsentedGoesHome | src/middleware.ts:11-15 | a consented session on `/login` is redirected to `/` |
| RouteGate.LoginNeverBlocked | src/middleware.ts:12-17 | no session, or a session without consent, passes on `/login` |
| RouteGate.UnauthenticatedGetsCallback | src/middleware.ts:18-22 | without a session, any other path redirects to `/login?callbackUrl=` plus the encoded path |
| RouteGate.DashboardRedirect | src/middleware.ts:18-22 | without a session, `/dashboard` redirects to `/login?callbackUrl=%2Fdashboard` |
| RouteGate.AwaitingConsentGoesToLogin | src/middleware.ts:23-25 | a session without consent on any other path redirects to `/login` with no callback |
| RouteGate.LoginSubpathsGated | src/middleware.ts:11-12 | only the exact `/login` is public: `/login` followed by anything is redirected for a non-consented request |
| RouteGate.StartsWithFaviconPattern | src/middleware.ts:30 | the `favicon.ico` alternative with its dot unescaped; that it matches any non-line-terminator there is proved in `RouteGate.FaviconDotMatchesAnyCharacter` |
| RouteGate.Excluded | src/middleware.ts:30 | the negative look-ahead as a prefix test on the text after `/`; proved to spare `/apiary` in `RouteGate.ApiPrefixNotGated` and to gate ordinary paths in `RouteGate.OrdinaryPathGated` |
| RouteGate.Matched | src/middleware.ts:29-31 | `config.matcher`; that only matched paths reach the gate is proved in `RouteGate.Route` and `RouteGate.PassOnlyWithConsent` |
| RouteGate.Route | src/middleware.ts:29-31 | paths outside the matcher pass untouched; matched paths get the gate's answer |
| RouteGate.PassOnlyWithConsent | src/middleware.ts:12-31 | a path other than `/login` passes only when the matcher excludes it or the session is consented |
| RouteGate.ApiPrefixNotGated | src/middleware.ts:30 | every path whose text after `/` starts with `api` (so `/apiary` too) passes without a session |
| RouteGate.FaviconDotMatchesAnyCharacter | src/middleware.ts:30 | the unescaped dot of `favicon.ico` lets `/favicon` + any non-line-terminator + `ico` pass ungated |
| RouteGate.OrdinaryPathGated | src/middleware.ts:30 | a path whose first character after `/` cannot start an excluded prefix is handed to the gate |
| Consent.SetConsent | src/actions/consent.ts:12-15 | the update sets the target's flag and changes no other record, no other field and not the e-mail index |
| Consent.ConsentSubmit | src/actions/consent.ts:5-24 | success exactly when the id is stored and the store does not throw; then the flag is set; on any failure the table is unchanged |
| Consent.ConsentFailureMessages | src/actions/consent.ts:17-23 | failures report `User not found: <id>` or `Error updating consent: <error>` |
| Consent.ConsentMonotone | src/actions/consent.ts:12-15 | no user who had consented loses consent |
| Consent.ConsentIdempotent | src/actions/consent.ts:11-16 | submitting twice leaves the same table and result as submitting once |
| Consent.ConsentPreservesConsistency | src/actions/consent.ts:12-15 | the action keeps the id/e-mail index consistent |
| UserStore.Store.ConsentSubmit | src/actions/consent.ts:5-24 | the in-place action leaves the store and result equal to `Consent.ConsentSubmit` |
| Signup.RequiredPresent | src/actions/signup.ts:21 | the server's required-field check; proved implied by the page's schema in `LoginPage.SchemaImpliesRequiredPresent` and irrelevant to the unchecked fields in `Signup.UncheckedFieldsIrrelevant` |
| Signup.NewUser | src/actions/signup.ts:38-51 | the created record has the new id and the typed e-mail, stores the salted hash rather than the password, and starts without consent |
| Signup.SignupAction | src/actions/signup.ts:6-57 | a missing required field fails with `All fields are required..` and no write; success reports `Signup successfully`; failure writes nothing |
| Signup.DuplicateEmailRejected | src/actions/signup.ts:28-34 | an e-mail already stored fails with `Email already exists.` and no write |
| Signup.SignupCreatesOneRecord | src/actions/signup.ts:36-56 | success exactly when required fields are present and the e-mail is new; then one record is added with the hash, not the password, and existing records are unchanged |
| Signup.UncheckedFieldsIrrelevant | src/actions/signup.ts:9-21 | last name, emergency contact and insurance company never decide the result |
| Signup.SignupTwiceRejected | src/actions/signup.ts:28-52 | after a successful signup the same form fails as a duplicate |
| UserStore.Store.SignupAction | src/actions/signup.ts:6-57 | the in-place action leaves the store and result equal to `Signup.SignupAction` |
| AppProvider.InsertDesc | src/context/AppProvider.tsx:53-57 | one insertion step of the sort; its properties are proved in `AppProvider.InsertDescMultiset`, `AppProvider.InsertDescSorted` and `AppProvider.InsertDescStable` |
| AppProvider.SortDesc | src/context/AppProvider.tsx:53-57 | `sort((a, b) => b - a)` on the timestamps; proved sorted, a permutation and stable in `AppProvider.SortDescCorrect`, and the only such result in `AppProvider.StableSortUnique` |
| AppProvider.WithTimestamp | src/context/AppProvider.tsx:53-57 | the entries picked for a timestamp all carry it |
| AppProvider.InsertDescMultiset | src/context/AppProvider.tsx:53-57 | insertion adds exactly the new entry |
| AppProvider.InsertDescSorted | src/context/AppProvider.tsx:53-57 | insertion into a newest-first list keeps it newest first |
| AppProvider.InsertDescStable | src/context/AppProvider.tsx:53-57 | insertion places the new entry after every entry of its own timestamp |
| AppProvider.SortDescCorrect | src/context/AppProvider.tsx:53-57 | the sort yields a newest-first permutation that keeps the order of equal timestamps |
| AppProvider.StableSortUnique | src/context/AppProvider.tsx:53-57 | two newest-first lists that agree on the order within each timestamp are equal, so every stable sort gives the same result |
| AppProvider.InsertBack | src/context/AppProvider.tsx:53-57 | the in-place inner loop leaves the prefix equal to the insertion of the next entry, and the suffix untouched |
| AppProvider.SortByTimestampDesc | src/context/AppProvider.tsx:53-57 | the in-place sort leaves the array equal to the stable newest-first sort of its old contents |
| AppProvider.NextHistory | src/context/AppProvider.tsx:38-63 | no user: empty; status other than 200: unchanged; status 200: the returned list sorted newest first, a permutation, stable |
| AppProvider.AppState.constructor | src/context/AppProvider.tsx:29-32 | the provider starts with an empty list and the sidebar closed |
| AppProvider.AppState.ToggleSidebar | src/context/AppProvider.tsx:34-36 | the flag is negated and the list untouched |
| AppProvider.AppState.FetchSessionHistory | src/context/AppProvider.tsx:38-63 | the list becomes `NextHistory` of the old list; the sidebar is untouched |
| AppProvider.ToggleTwiceRestores | src/context/AppProvider.tsx:34-36 | toggling twice restores the flag and the list |
| LoginPage.Gender.Value | src/app/login/page.tsx:74 | each gender option has a non-empty value |
| LoginPage.ServicePreference.Value | src/app/login/page.tsx:75-77 | each service option has a non-empty value |
| LoginPage.PhoneDigits | src/app/login/page.tsx:40 | the digits are the entry without its optional leading `+` |
| LoginPage.PhoneSpec | src/app/login/page.tsx:40 | the accepted numbers stated declaratively: an optional `+`, then 2 to 15 digits, the first not zero |
| LoginPage.PhoneMatches | src/app/login/page.tsx:40 | the anchored pattern run left to right; proved equal to `LoginPage.PhoneSpec` in `LoginPage.PhoneMatchesIff` |
| LoginPage.PhoneMatchesIff | src/app/login/page.tsx:40-42 | the pattern accepts exactly an optional `+`, a digit 1–9, then 1 to 14 digits (2 to 15 digits in all) |
| LoginPage.PhoneBounds | src/app/login/page.tsx:40-42 | an accepted entry has 2 to 16 characters, starts with `+` or 1–9, and is all digits after that |
| LoginPage.SignupValid | src/app/login/page.tsx:29-47 | `signupSchema`; its acceptance is characterised rule by rule in `LoginPage.ValidIffNoFailure` and `LoginPage.SignupErrorsEmptyIff` |
| LoginPage.Message | src/app/login/page.tsx:30-46 | the schema's message per field; proved to be what `LoginPage.SignupErrors` reports for each failing field |
| LoginPage.ValidIffNoFailure | src/app/login/page.tsx:29-47 | the schema accepts a form exactly when no field's rule fails |
| LoginPage.SignupErrors | src/app/login/page.tsx:29-47 | the report has exactly the failing fields, each with its schema message |
| LoginPage.SignupErrorsEmptyIff | src/app/login/page.tsx:29-47 | no error is reported exactly when the schema accepts the form |
| LoginPage.SignupErrorsFields | src/app/login/page.tsx:30-46 | an empty first name, a rejected phone, a malformed e-mail and a password under 8 code units are each reported, and only then |
| LoginPage.SignupPasswordPassesLogin | src/app/login/page.tsx:44-46 | an accepted signup e-mail and password also pass the login schema's 6-character bound |
| LoginPage.ToFormData | src/app/login/page.tsx:109-115 | the submitted form data has each schema field under its own name, plus gender and service preference |
| LoginPage.SchemaImpliesRequiredPresent | src/app/login/page.tsx:108-117 | a form the schema accepts always passes the server's required-field check |
| LoginPage.SignupStoresForm | src/app/login/page.tsx:108-117 | after a successful signup the new record holds the typed e-mail, first and last name, selections, the hashed password, and no consent |
| LoginPage.PostLogin | src/app/login/page.tsx:100-105 | the page goes home exactly for a consented session and shows the consent form otherwise |
| LoginPage.PostLoginAgreesWithGate | src/app/login/page.tsx:100-105 | the page's choice matches the gate: home passes for a consented session, and `/login` passes when the form is shown |
| LoginPage.ConsentUserId | src/app/login/page.tsx:147 | the consent id is the session user's id, or `"defaultId"` without one |
| LoginPage.Page.constructor | src/app/login/page.tsx:74-82 | the page starts with an empty form, `male`, `online`, no consent form and no redirect |
| LoginPage.Page.OnSubmit | src/app/login/page.tsx:84-106 | the toast reports the login result; the branch depends only on the re-read session, even after a failed login |
| LoginPage.Page.ClearForm | src/app/login/page.tsx:126-140 | every field is emptied and the selections go back to `male` and `online` |
| LoginPage.Page.HandleSignup | src/app/login/page.tsx:108-125 | a refused form reaches no server; otherwise the store changes as `Signup.SignupAction` says, and the form is cleared exactly on success |
| LoginPage.Page.SubmitConsent | src/app/login/page.tsx:142-154 | nothing happens without the checkbox value; the session is refreshed (`jwt` with `"update"`, then `session`) exactly when consent succeeds |
| LoginPage.Page.ConsentRedirect | src/app/login/page.tsx:156-160 | a consented session is sent to `/`; otherwise nothing changes |
| ConsentFlow.SignInReflectsStoredConsent | src/auth.ts:43-65 | after sign-in the page goes home exactly when the stored user has consented; otherwise every path but `/login` redirects to `/login` |
| ConsentFlow.ConsentThenRefreshOpensGate | src/app/login/page.tsx:142-154 | consent plus refresh for a stored user makes the session consented: every path but `/login` passes, and `/login` redirects home |
| ConsentFlow.StaleTokenStillGated | src/middleware.ts:23-25 | consent stored but the token not refreshed: the gate still redirects to `/login` |
| ConsentFlow.DefaultIdFallbackFails | src/app/login/page.tsx:147 | without a session id, consent goes to `"defaultId"`, fails and changes nothing unless such a user exists |
| ConsentFlow.SubmitConsentAndRedirect | src/app/login/page.tsx:142-160 | ticking the box for a stored user ends with a consented session, the page at `/`, only that user's flag set, and the gate open |

## Left out

- `src/actions/chat.ts` and the components (`sidebar`, `navbar`, `user-btn`) are not part of this model. They relay a request or render markup.
- Markup, toast rendering and the router are not modelled. The page records the last `router.replace` target in a field, and `OnSubmit` returns the toast text.
- Prisma, `verifyPassword` and `saltAndHashPassword` are parameters or a map-based table. The salt's randomness is folded into `saltAndHash`.
- zod's `.email()` is the parameter `isEmail`. The react-hook-form `rules` (including the e-mail `pattern`) are ignored because the form uses a resolver, and are not modelled.
- NextAuth token signing, cookies and expiry are not modelled. The token is modelled by its `id` and `iConsent` claims.
- The request's origin in redirect URLs is not modelled. Redirects are given as paths.
- Next.js path normalisation before matching (trailing slashes, locales, data routes) is not modelled. `Matched` applies the matcher's regular expression to the pathname as given.
- The fetch, `res.json()` and `new Date(...).getTime()` are left out. Timestamps are integers; an unparsable date (NaN) and a 200 answer without `sessions` are not modelled.
- Async ordering and React re-render timing are not modelled. State updates apply in program order.
- JavaScript strings may hold unpaired surrogates, on which `encodeURIComponent` throws `URIError`. Dafny characters are Unicode scalar values, so such strings, that error path and their effect on `JsLength` and `Trim` are not representable.
- Auth.JwtResult: on `"update"` with no id in the token, the lookup is modelled as finding no user (flag undefined). Prisma would reject a lookup without an id instead.
- RouteGate.Middleware: every session is modelled with a `user` object. The source reads `session.user.iConsent` without checking for one.
- UserStore.Store.SignupAction: a store error during the duplicate lookup or the insert is not modelled. The source has no `try`, so it would propagate out of the action.
- LoginPage.Page.constructor: the form starts with empty strings. In the source, fields never touched are `undefined`, which the schema refuses with zod's own "Required" message rather than the field's message.
- AppProvider.ToggleTwiceRestores: `toggleSidebar` negates the value of the current render. Two calls within one render would both set the same value, while the model applies them one after the other.
