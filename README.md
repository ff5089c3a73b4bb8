# Sign-in sample: resolver, gates and data sections

A Dafny model of the decision logic of a sample single-page application
that signs users in against an external OpenID Connect provider. The
provider's SDK, the network and the JWT decoder are treated as inputs.
The model covers:

- **The authorization-result resolver** (`useAuth`). State: the tri-state
  `authenticated` flag (`null`, `false` or `true`, here `Unknown`,
  `Unauthenticated` and `Authenticated`), local storage, the page URL and the
  notification queue. It has two transitions. On success the token is written
  under a scope-dependent key, the query string is stripped and the flag is
  set to `true`. On failure the flag is set to `false`, and the step either
  notifies or strips the query string. Module `Auth` gives the transitions as
  functions on a `Session` value, plus the class `AuthResolver`. That class's
  methods update the four fields in place and are proved equal to those
  functions. Module `Strings` holds the string work with JavaScript's
  semantics: `split`, `startsWith`, the substring test and the
  `replace(/\?.*$/, '')` cut.
- **Route and view gates.** These are `auth = authenticated && token` and the
  `/` and `/dashboard` routes (`Routing`), the login and profile pages
  (`Login`, `Profile`), and the enrolled-member and plan-info sections
  (`EnrolledMemberSection`, `PlanInfoSection`). Each is a total function over
  JavaScript values. Module `Js` models those values together with
  truthiness, `||`, `&&`, property access, `Object.entries` and template-literal
  text.
- **The claims table** (`AccessTokenDisplay`). The `reduce` that expands array
  claims into one row per element and numbers the rows consecutively. It is
  proved equal to a plain flattening of the entries.
- **The fetch-on-load guard** (`DashboardPage`). The `enrolledMemberApiData`
  and `apiCallInProgress` state machine, as functions and as the class
  `EnrolledMemberLoader`, plus the welcome banner. Module `Http` defines, once,
  how both data sections turn a fetch outcome into the value they store.

Three behaviours of the code worth noting:

- The error notification is emitted only when the flag was *already* `false`
  before the failing step. So the first failure from `null` is silent. With
  each resolution modelled as one atomic step, `n` consecutive failures on a
  URL carrying `?error` emit `n - 1` notifications. Two failures emit exactly
  one; more failures emit more (`Auth.RepeatedFailureNotices`).
- The token is written on every successful resolution that carries a
  response, even one without an access token. In that case local storage
  receives the text `"undefined"` (`Auth.StoredValue`).
- `/dashboard` is not gated: it renders the dashboard whatever `auth` is
  (`Routing.RouteElement`). Only the profile page redirects an
  unauthenticated user.

## Model

| member | source | states |
|---|---|---|
| Auth.StorageKey | src/services/auth.js:19-23 | the key is `accessTokenName + "_" + scope` when the scope is present, has no space and starts with `dataset`; otherwise it is `accessTokenName` |
| Auth.IsDatasetGrant | src/services/auth.js:19 | the scope is a single dataset grant iff it is present, has no space and starts with `dataset` |
| Auth.KeyIsDefaultOrScoped | src/services/auth.js:19-23 | the key is the bare name exactly when the grant is not a single dataset scope; it is never `idTokenName` |
| Auth.SingleDatasetScopeKey | src/services/auth.js:19-20 | scope `"dataset-42"` stores under `ins_demo_access_token_dataset-42` |
| Auth.MultiScopeKey | src/services/auth.js:19-22 | scope `"profile dataset-42"` stores under the bare name |
| Auth.StoredValue | src/services/auth.js:20-22 | the stored text is the token, or `"undefined"` when the response has none |
| Auth.FlagValue | src/services/auth.js:6 | the hook's value is `null`, `false` or `true`, and it is truthy exactly when authenticated |
| Auth.GetItem | oidc-auth-app-react/src/components/Routing.js:18 | `getItem` yields the stored text, or null for a missing key |
| Auth.RemoveQueryString | src/services/auth.js:9-13 | the URL changes exactly when it contains `?`; the result is a prefix of it, has no `?`, and is followed in the original by `?` |
| Auth.RemoveQueryStringAt | src/services/auth.js:11 | the URL is cut exactly at its first `?` |
| Auth.RemoveQueryStringIdempotent | src/services/auth.js:9-13 | stripping twice equals stripping once |
| Auth.ScrubExample | src/services/auth.js:9-13 | `https://app/dashboard?code=abc&state=xyz` becomes `https://app/dashboard` |
| Auth.SuccessScrubExample | src/services/auth.js:16-27 | a success with a response on `https://app/dashboard?code=abc&state=xyz` leaves the URL `https://app/dashboard` |
| Auth.AfterSuccess | src/services/auth.js:16-27 | success sets the flag to `true` and emits nothing; with a response, the token is written under `StorageKey` of its scope (nothing else in storage changes) and the URL loses its query string; with no response, storage and URL are unchanged |
| Auth.HasErrorParam | src/services/auth.js:30 | `split('?error').length > 1` holds iff `?error` occurs in the URL |
| Auth.AfterFailure | src/services/auth.js:28-39 | failure sets the flag to `false` and leaves storage unchanged; with `?error` in the URL the URL is kept and one error notice is appended iff the flag was already `false`; without it nothing is emitted and the query string is stripped |
| Auth.SuccessWritesOneKey | src/services/auth.js:19-23 | a response writes exactly one key with the token; every other key keeps its value; the `idTokenName` entry is neither added, removed nor changed |
| Auth.SuccessIdempotent | src/services/auth.js:16-27 | repeating the same successful resolution yields the same session |
| Auth.ResolvedNeverUnknown | src/services/auth.js:26-29 | after any non-empty sequence of resolutions the flag is never `null`; it is `false` iff the last outcome was a rejection |
| Auth.IdTokenUntouched | src/services/auth.js:16-39 | no sequence of resolutions adds, removes or changes the `idTokenName` entry |
| Auth.FailuresAfterFalse | src/services/auth.js:28-35 | from a `false` flag on a URL carrying `?error`, `n` failures append exactly `n` error notices |
| Auth.RepeatedFailureNotices | src/services/auth.js:28-35 | from `null` on a URL carrying `?error`, `n >= 1` failures append `n - 1` notices, so two failures append exactly one |
| Auth.AuthResolver.constructor | src/services/auth.js:6 | the flag starts `null`, with the page's storage and URL and no notices |
| Auth.AuthResolver.RemoveQuery | src/services/auth.js:9-13 | the URL field becomes the stripped URL |
| Auth.AuthResolver.OnSuccess | src/services/auth.js:16-27 | the new state is `AfterSuccess` of the old state |
| Auth.AuthResolver.OnFailure | src/services/auth.js:28-39 | the new state is `AfterFailure` of the old state, with the guard reading the flag from before the step |
| Strings.Split | src/services/auth.js:19 | `split` on a non-empty separator yields at least one piece |
| Strings.JoinSplit | src/services/auth.js:19 | joining the pieces with the separator gives back the text |
| Strings.SplitCutsIffContains | src/services/auth.js:30 | `split(sep).length > 1` iff `sep` occurs in the text |
| Strings.ContainsCharIffIn | src/services/auth.js:10 | a one-character pattern occurs iff the character is in the text |
| Strings.SplitSingleIffAbsent | src/services/auth.js:19 | `split(c).length === 1` iff `c` does not occur |
| Strings.TakeUntil | src/services/auth.js:11 | the result is the longest prefix with no `c`; it is followed by `c` when `c` occurs, and is the whole text otherwise |
| Routing.DeriveAuth | oidc-auth-app-react/src/components/Routing.js:18-19 | `auth` is truthy iff the flag is `true` and the raw token is truthy; it is `null` or `false` when the flag is |
| Routing.RouteElement | oidc-auth-app-react/src/components/Routing.js:33-36 | on `/`: the login page iff `auth` is falsy, a redirect to `/dashboard` iff truthy; `/dashboard` always renders the dashboard; only `/` redirects |
| Routing.SessionAuth | oidc-auth-app-react/src/components/Routing.js:17-19 | `auth` is `null`, `false` or a string; it is truthy iff the flag is `true` and a non-empty token is stored under the default name |
| Routing.DatasetTokenDoesNotAuthenticate | oidc-auth-app-react/src/components/Routing.js:18-19 | after a success with a single dataset grant and no default-name token, the flag is `true` but `auth` is falsy |
| Routing.DefaultTokenAuthenticates | oidc-auth-app-react/src/components/Routing.js:18-35 | after a success with any other grant and a non-empty token, `auth` is that token and `/` redirects to the dashboard |
| Routing.UnknownShowsLogin | oidc-auth-app-react/src/components/Routing.js:33-35 | while the flag is `null`, `/` shows the login page |
| Routing.Router.ClearAuth | oidc-auth-app-react/src/components/Routing.js:21-29 | whether revocation succeeds or fails, the location becomes `/` |
| Routing.Router.Navigate | oidc-auth-app-react/src/components/Routing.js:24-27 | the location becomes the target path |
| Login.Render | oidc-auth-app-react/src/components/Login.js:6-15 | loading only iff `auth === null`; welcome with a button whose action is `handleLogin` iff `auth === false`; navigation to `/profile` iff `auth` is truthy; a text node `"0"` iff `auth` is `0` and `""` iff it is `''` (React renders a falsy number or string left by `&&`); nothing iff `auth` is `undefined` |
| Login.ExactlyOneForFlag | oidc-auth-app-react/src/components/Login.js:6-15 | for `null`, `false` and `true`, exactly one child is rendered |
| Profile.Render | oidc-auth-app-react/src/components/Profile.js:6-21 | loading only iff `null`; navigation to `/` iff `false`; protected content with a button whose action is `handleLogout` iff truthy; a text node `"0"` iff `auth` is `0` and `""` iff it is `''`; nothing iff `undefined`; content never appears otherwise |
| Profile.ExactlyOneForFlag | oidc-auth-app-react/src/components/Profile.js:6-21 | for `null`, `false` and `true`, exactly one child is rendered, and the content only when authenticated |
| AccessTokenDisplay.TokenDisplay | oidc-auth-app-react/src/components/AccessTokenDisplay.js:37 | the raw token when `auth` is truthy and the token is non-empty, otherwise `<not set>` |
| AccessTokenDisplay.Claims | oidc-auth-app-react/src/components/AccessTokenDisplay.js:38 | the decoded claims only when `auth` and the decoded value are truthy, otherwise `{}` |
| AccessTokenDisplay.Elements | oidc-auth-app-react/src/components/AccessTokenDisplay.js:40 | an array claim contributes its elements, any other claim itself |
| AccessTokenDisplay.EntryRows | oidc-auth-app-react/src/components/AccessTokenDisplay.js:40-44 | one row per element of the claim value; row `i` has key `base + i`, the claim name and the `i`-th element |
| AccessTokenDisplay.Reduce | oidc-auth-app-react/src/components/AccessTokenDisplay.js:39-46 | the fold keeps its accumulator as a prefix and adds exactly the expected number of rows |
| AccessTokenDisplay.FlattenCount | oidc-auth-app-react/src/components/AccessTokenDisplay.js:40-41 | the flattened claims number one per scalar plus one per array element |
| AccessTokenDisplay.ReduceNumbersFlatten | oidc-auth-app-react/src/components/AccessTokenDisplay.js:39-50 | the fold appends to its accumulator the flattened pairs, keyed consecutively from the accumulator's length |
| AccessTokenDisplay.ClaimsRows | oidc-auth-app-react/src/components/AccessTokenDisplay.js:39-50 | there are as many rows as the expected count; row `i` has key `i` and carries the `i`-th claim name and value in entry-then-element order |
| AccessTokenDisplay.ClaimsRowKeysDistinct | oidc-auth-app-react/src/components/AccessTokenDisplay.js:42-44 | row keys are pairwise distinct |
| AccessTokenDisplay.NoRowsUnlessAuthenticated | oidc-auth-app-react/src/components/AccessTokenDisplay.js:38-39 | with falsy `auth` there are no rows, whatever was decoded |
| AccessTokenDisplay.ClaimsRowsExample | oidc-auth-app-react/src/components/AccessTokenDisplay.js:39-50 | a scalar claim gives one row, a two-element array two rows and an empty array none, numbered 0, 1, 2 |
| EnrolledMemberSection.Render | oidc-auth-app-react/src/components/EnrolledMemberSection.js:12-17 | the info table with `PlanSponsorNumber` and `planName` iff the data is truthy; otherwise "Fetching..." iff `auth` is truthy, else the authenticate prompt |
| EnrolledMemberSection.InfoIgnoresAuth | oidc-auth-app-react/src/components/EnrolledMemberSection.js:12-16 | with data present the view is the same for every `auth` |
| Http.StatusPayload | src/components/PlanInfoSection.js:32 | the fallback payload is truthy and carries the status and status text |
| Http.Settle | src/components/PlanInfoSection.js:30-41 | a rejection yields nothing to store; status 200 yields the parsed body; any other status yields `{status, statusText}` |
| Http.SingleEntryBody | src/components/PlanInfoSection.js:21-23 | a request body has exactly one entry, holding the given value |
| PlanInfoSection.PlanId | src/components/PlanInfoSection.js:15 | `planId` is the data's `planName` when both are truthy, otherwise `''` |
| PlanInfoSection.Render | src/components/PlanInfoSection.js:46-53 | plan info iff `apiData` is truthy; the enabled button, carrying `planId`, iff `apiData` is falsy, `auth` truthy and `planId` non-empty; otherwise the matching disabled button |
| PlanInfoSection.PlanRequest | src/components/PlanInfoSection.js:21-23 | the request body carries exactly the current `planId` |
| PlanInfoSection.EnabledButtonNeedsPlanName | src/components/PlanInfoSection.js:46-49 | the enabled button implies truthy `auth`, no plan info yet and enrolment data with a truthy `planName` |
| PlanInfoSection.Section.constructor | src/components/PlanInfoSection.js:13 | `apiData` starts null |
| PlanInfoSection.Section.ButtonOnClick | src/components/PlanInfoSection.js:17-42 | posts `{planId}`; stores what the response yields; a rejection leaves `apiData` unchanged |
| DashboardPage.WelcomeMessage | src/components/DashboardPage.js:62-64 | `Welcome, user "<sub>" from tenant "<tid>"!` iff a raw token is present, otherwise `No user found` |
| DashboardPage.WelcomeWithoutAuth | src/components/DashboardPage.js:58-64 | with a stored token but falsy `auth`, the banner greets user and tenant `undefined` |
| DashboardPage.Subject | src/components/DashboardPage.js:59-60 | `sub` is the decoded token's `sub` when `auth` and the decoded token are truthy, otherwise `undefined` |
| DashboardPage.Tenant | src/components/DashboardPage.js:59-61 | `tid` is the decoded token's `tid` when `auth` and the decoded token are truthy, otherwise `undefined` |
| DashboardPage.CanStart | src/components/DashboardPage.js:67 | the effect fires only while the stored data is falsy and no call is in progress; stored object or array data, or a falsy `sub`, blocks it |
| DashboardPage.EnrollmentRequest | src/components/DashboardPage.js:73-75 | the request body is exactly `{planSponsorNumber: sub}` |
| DashboardPage.Begin | src/components/DashboardPage.js:67-68 | a request starts, setting in-progress, iff no data is held, none is in progress and `sub` is truthy; otherwise nothing changes |
| DashboardPage.Finish | src/components/DashboardPage.js:82-94 | settling always clears in-progress; it stores the yielded value, or keeps the data on rejection |
| DashboardPage.NoSecondRequestInFlight | src/components/DashboardPage.js:67-68 | once a request starts, no other can start for any `sub` |
| DashboardPage.SettledThenGuard | src/components/DashboardPage.js:67-94 | a truthy stored payload, including any error-status payload, stops further requests; falsy data re-arms the guard for a truthy `sub` |
| DashboardPage.RunConsistent | src/components/DashboardPage.js:66-98 | no sequence of renders and settlements reaches truthy data with a request in flight |
| DashboardPage.DataIsFinal | src/components/DashboardPage.js:66-98 | once truthy data is stored, no sequence of renders and settlements changes the state |
| DashboardPage.EnrolledMemberLoader.constructor | src/components/DashboardPage.js:55-56 | data starts null and no call is in progress |
| DashboardPage.EnrolledMemberLoader.Start | src/components/DashboardPage.js:67-75 | returns the request body iff the guard holds; the new state is `Begin` of the old |
| DashboardPage.EnrolledMemberLoader.OnResult | src/components/DashboardPage.js:87-90 | stores the result and clears in-progress |
| DashboardPage.EnrolledMemberLoader.OnError | src/components/DashboardPage.js:91-94 | keeps the data and clears in-progress |
| DashboardPage.EnrolledMemberLoader.OnOutcome | src/components/DashboardPage.js:82-95 | the new state is `Finish` of the old state and the outcome |

## Left out

- The identity SDK (`getAuth`, `authorize`, `revokeAuth`) is opaque. Its results are inputs: a response, no response, or a rejection. Revocation is a success or a failure.
- Routing.Router.ClearAuth: does not model what `revokeAuth` does to local storage. That code is not part of this model, so after logout `/` may still redirect if a token stays stored.
- src/components/LoginPage.js: its only logic is building the SDK client and calling `authorize()`.
- `jwt.decode` is a foreign library. Its result is an input value of any kind: `null`, a claims object, or another value such as a string for a payload that is not a JSON object.
- `fetch`, `res.json()` and `JSON.stringify` are network and parsing I/O. A response is its status, status text and parsed body (or a parse failure). A request body is the object before it is stringified.
- React scheduling is left out: effects re-running on every render, overlapping in-flight calls, stale closures beyond "the flag before this step", and unmount cancellation. Each resolution or fetch outcome is one atomic step.
- AccessTokenDisplay.ClaimsRows and EnrolledMemberSection.Render (and the `planId` caption of `PlanInfoSection.Render`): a plain object in a rendered position (a claim value at oidc-auth-app-react/src/components/AccessTokenDisplay.js:46, `PlanSponsorNumber` or `planName` at oidc-auth-app-react/src/components/EnrolledMemberSection.js:37 and :41, the button's `planId` at src/components/PlanInfoSection.js:49) makes React throw "Objects are not valid as a React child", so the dashboard fails to render. The model returns the row or view carrying the object and does not model that crash. It also does not model that `true`, `false` and `null` render as empty cells.
- DashboardPage.Subject: property access on a non-object yields `undefined` in the model (`Js.Get`). The model leaves out the prototype properties of primitives. For a string payload from `jwt.decode`, `token.sub` is the truthy method `String.prototype.sub`. The browser then starts the enrolment request with a body that stringifies to `{}`, and greets `user "function sub() { [native code] }"`. The model gives `undefined` and starts no request. `tid` is unaffected, since no prototype has it.
- `console.log`, the notification library's display, MUI styling and table markup, `App.js` router wiring, the page reload on logout in the plain sample, and the configuration values other than `accessTokenName` and `idTokenName`.
- The `{}` state object and `document.title` passed to `history.replaceState` are left out. Only the new URL is modelled.
- JavaScript numbers are modelled as unbounded integers. Doubles lose precision above 2^53, and template-literal text writes magnitudes of 10^21 and more in exponent form (`1e+21`). So `Js.ToText`, and with it `DashboardPage.WelcomeMessage` and the `0`/`''` text nodes, differ from the browser for such values. NaN, fractions and `-0` (and so their truthiness and text) are not modelled either.
- An exception thrown inside the success handler (`JSON.stringify` of the response at src/services/auth.js:18, or `setItem` failing with a quota or security error at :20/:22) sends control to the `.catch` handler. The model has the `Rejected` outcome, which is exactly that step, but does not tie it to those causes. A throw after the write (from `history.replaceState`) would leave the token written and then run the failure step; that combination is not modelled.
- The regular expression `\?.*$` stops at a line terminator. The model cuts at the first `?` because a browser's `location.href` never contains one.
- Object entries are taken in the order given. JavaScript's listing of integer-like keys first, and JSON's handling of duplicate names, are not modelled.
- `planId.length > 0` for an object `planName` whose `length` is a non-numeric value (coerced by `>`) is treated as false.
- Route matching is exact string equality of the path. Trailing slashes and case folding in the router are not modelled.
- `Object.entries` of a string splits it into characters, not UTF-16 code units.
- A `scope` that is present but not a string is not modelled.
