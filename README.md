# Route guard and transport credentials of the gahnit web client

This project models, in Dafny, the decision logic of the web client's start-up
file `client/src/main.js`:

- the authentication route guard registered with `router.beforeEach`, which
  walks the route table and sends logged-out users away from `secure` routes
  (to `/login`) and logged-in users away from `unAuth` routes (to `/`);
- the credential the two GraphQL links carry: the `Authorization` header the
  HTTP middleware link sets on every operation, and the `Authorization`
  connection parameter of the WebSocket link;
- the `split` predicate that sends subscriptions over the WebSocket link and
  every other operation over the authenticated HTTP link.

The session token (`localStorage.getItem(AUTH_TOKEN)`, a string or null) is an
input value `Option<string>`, read with JavaScript truthiness: null and `""`
are falsy (module `Session`). The guard is a method over a route table
`seq<Route>`, the paths of `to.matched` (at least one whenever the table is
non-empty, as the walk reads `to.matched[0]` for each route) and the token; it returns the sequence of calls it makes to
`next`, each `Pass` (`next()`) or `Redirect(path)` (`next(path)`). It is proved
equal to the specification function `GuardLog`, and the lemmas beside it say
what that log is. The route table and token are values, so the guard cannot
change them.

The `return` in front of each redirect (client/src/main.js:87, 94) reads as
if the guard stopped at the first redirect, but it returns only from the
`forEach` callback: the walk continues over the remaining routes, and the
`next()` after the loop always runs. The model follows the code: every
redirect is followed by `next()`, and a table with several matching routes
produces several redirects. Module `RouteGuard` also holds the guard as its
`return` statements intend it (`BeforeEachIntended`), which stops at the
first redirect and makes exactly one call.

Files: `wrappers.dfy` (Option), `session.dfy` (token truthiness and
rendering), `links.dfy` (link credentials and transport choice), `guard.dfy`
(the route guard).

## Model

| member | source | states |
|---|---|---|
| `Session.Truthy` | client/src/main.js:26 | a string-or-null token is truthy exactly when it is neither null nor the empty string, as the ternary at line 26 and `if(token)` at line 92 read it |
| `Session.Unauthenticated` | client/src/main.js:85 | the three-way test is true exactly for a null or empty token, i.e. exactly when the token is falsy; the `=== ''` and `=== null` tests add nothing to `!token` |
| `Session.MissingTokenRendersAsNullString` | client/src/main.js:40 | the template literal renders a missing token as "null" and a present one as itself, so a rendered token equals the rendering of the string "null" exactly for a missing token or the string "null" itself |
| `ApolloLinks.AuthorizationHeader` | client/src/main.js:26 | the HTTP Authorization header is empty exactly when the token is falsy |
| `ApolloLinks.AuthorizationHeaderRoundTrip` | client/src/main.js:22-26 | the bearer credential read back from the HTTP header is the token when it is truthy and absent otherwise |
| `ApolloLinks.WsAuthorization` | client/src/main.js:40 | the WebSocket connection parameter always starts with "Bearer ", whatever the token |
| `ApolloLinks.WsAuthorizationCredential` | client/src/main.js:40 | over the WebSocket a missing token is sent as the credential "null", an empty one as a bare "Bearer " with no credential, a truthy one as itself |
| `ApolloLinks.HeaderAndWsParameterAgreeIff` | client/src/main.js:26-40 | the HTTP header and the WebSocket parameter are equal if and only if the token is truthy |
| `ApolloLinks.ChooseTransport` | client/src/main.js:45-53 | the WebSocket link is chosen if and only if the definition kind is "OperationDefinition" and its operation is "subscription"; otherwise the authenticated HTTP link |
| `ApolloLinks.NonSubscriptionsUseHttp` | client/src/main.js:47-53 | queries, mutations and non-operation definitions go over the authenticated HTTP link |
| `ApolloLinks.CredentialIndependentOfTransportIff` | client/src/main.js:20-53 | every operation carries the same credential "Bearer <token>" whichever link takes it if and only if the token is truthy |
| `RouteGuard.BeforeEach` | client/src/main.js:79-100 | the calls the guard makes, walking every route with the nested tests and callback-only `return`, are exactly `GuardLog`: the redirects of the hits in table order followed by one `next()`; with an empty table, `next()` alone |
| `RouteGuard.RedirectsAppend` | client/src/main.js:81-97 | walking a table in two parts gives the redirects of the first part followed by those of the second |
| `RouteGuard.RedirectsShape` | client/src/main.js:81-97 | there is exactly one redirect per hitting route, and every redirect goes to the path the token state selects |
| `RouteGuard.GuardEndsWithOnePass` | client/src/main.js:81-99 | the log is one call longer than the number of hits, ends with `next()`, and every earlier call is a redirect, so `next()` occurs exactly once |
| `RouteGuard.HitCountPositiveIff` | client/src/main.js:83-95 | some route hits if and only if the hit count is positive |
| `RouteGuard.LoginRedirectIff` | client/src/main.js:83-88 | the log contains `next('/login')` if and only if the token is falsy and some route with the target's path is `secure` |
| `RouteGuard.HomeRedirectIff` | client/src/main.js:90-95 | the log contains `next('/')` if and only if the token is truthy and some route with the target's path is `unAuth` |
| `RouteGuard.PassOnlyIff` | client/src/main.js:83-99 | the log is exactly `[next()]` if and only if every route with the target's path lacks the flag that applies to the token state |
| `RouteGuard.InertRouteAddsNothing` | client/src/main.js:83-96 | inserting anywhere a route with another path, or with neither flag, leaves the log unchanged |
| `RouteGuard.RedirectPosition` | client/src/main.js:81-97 | the redirect of the route at index i stands at the position given by the number of hits before i, before the final `next()`; since all redirects of one call are equal, this is a statement of position only, the order of the walk itself being `RedirectsAppend` |
| `RouteGuard.RedirectFollowedByPass` | client/src/main.js:87-99 | whenever some route hits, the guard's first call is the redirect, its last is `next()`, and it calls `next` at least twice |
| `RouteGuard.NextCalledTwice` | client/src/main.js:87-99 | a logged-out user opening a secure route gets `next('/login')` followed by `next()` |
| `RouteGuard.ExampleNavigations` | client/src/main.js:79-100 | over a table of landing, login-only and secure pages: logged out on the secure page redirects to `/login`; logged in on the login page redirects to `/`; logged in on the secure page passes |
| `RouteGuard.BeforeEachIntended` | client/src/main.js:79-100 | the guard that stops at the first redirect, as its `return` statements intend, makes exactly one call, the first call of the as-written log, and it is `next()` exactly when the as-written log has no redirect |

## Findings

| source | as written | input that shows it | evidently intended | confidence | as-written member | corrected member |
|---|---|---|---|---|---|---|
| client/src/main.js:87-99 | `return next(...)` leaves only the `forEach` callback, so the walk goes on and `next()` at line 99 runs after every redirect | routes `[{path: '/dashboard', secure: true}]`, `to.matched[0].path == '/dashboard'`, token null: `next('/login')` then `next()` | as the `return next(...)` at lines 87 and 94 and "Proceed as normal" at line 98 indicate, the first matching redirect ends the guard, so `next` is called exactly once | medium, not executed | `RouteGuard.NextCalledTwice` | `RouteGuard.BeforeEachIntended` |

## Left out

- Apollo client, cache, fragment matcher and the `concat`/`ApolloLink.from` link chaining (client/src/main.js:3-11, 33, 55-66): library code that is not part of this model; links are represented only by which one `split` chooses.
- WebSocket transport, reconnection and the HTTP and WebSocket endpoints (client/src/main.js:18, 35-43): network I/O.
- `localStorage.getItem` (client/src/main.js:22, 40, 77): browser storage I/O. The token is an input value. In the source it is read three times at different moments (per HTTP request, once when the WebSocket link is made, once before the guard is installed), so the three values can differ; each model function takes the token it is given.
- `getMainDefinition` (client/src/main.js:48): GraphQL parsing by a library; its result is the given `kind` and `operation` strings.
- How vue-router reacts to `next` being called more than once: the model records the calls and does not model navigation.
- How `to.matched` is computed from the route table: the router is not part of this model, so the matched paths are an input. It is required to be non-empty when the table is non-empty; a target with no matched record and a non-empty table makes `to.matched[0].path` throw a TypeError in the source, which is not modelled. Only plain string equality of paths is modelled.
- Vue app mounting, `productionTip`, the `VueApollo` provider, `process.env` and the `onError` logging (client/src/main.js:16, 69-74, 103-111): UI bootstrap and logging.
- The `from` argument of the guard: the guard never reads it.
- The `return` in front of each redirect (client/src/main.js:87, 94) reads as if the guard stopped at the first redirect; the model follows the code, which does not stop (see Findings).
