# Auth gateway: a verified model of the authentication flow controller

This project models the authentication handlers of a small Express service
that keeps its accounts as FHIR `Person` resources and uses JSON Web Tokens in
place of server-side sessions. Five routes are modelled:

- `/api/register` creates an account and returns a five-minute
  post-registration token.
- `/api/login` resolves the account by that bootstrap token or by email, then
  checks the password and sets a one-hour session cookie.
- `/api/forgot` and `/api/request-reset` mail a fifteen-minute reset link.
- `/api/reset-password` rotates the password identifier of the account the
  token names.

The model is in Dafny, one module per component:

- `Credentials` (credentials.dfy): bcrypt, idealised. A digest is made from
  exactly one password. `Compare(q, Hash(p))` holds exactly when `q == p`.
- `Tokens` (tokens.dfy): jsonwebtoken. A token is its claims record
  `{subject, purpose?, issuedAt, expiresAt}`. The signature is modelled by the
  set of tokens the gateway has signed with its secret. A token verifies iff
  it is in that set and the clock (seconds) is still before `expiresAt`.
- `Records` (records.dfy): the FHIR server. It is a map from id to `Person`
  (name, an identifier list that may be absent, contact points). It has the
  identifier search `system|value`, whose bundle lists matching ids in
  ascending order. It also has the identifier-list operations the handlers
  use: `find`, `filter`, and the reset's filter-then-push.
- `Flows` (flows.dfy): the pure decisions of each handler. These are
  validation, the login path choice, the token and password checks, and the
  status code and message of every early return. Each decision ends in `Stop(response)` or
  `Proceed(id)`.
- `Gateway` (gateway.dfy): the class `AuthGateway`. It holds the store, the
  next id the store will assign, the set of signed tokens and the delivered
  mail. It has one method per handler, written as the source's sequence of
  steps with early returns. Each method's postcondition ties the response and
  the new state to the decision functions.
- `Walkthrough` (walkthrough.dfy): one account's whole life on a fresh
  gateway. It registers, logs in with the bootstrap token (twice within the
  window, once after), registers the same email again, requests a reset link,
  resets, and logs in by email with the old and the new password.

The store's, the mailer's and the clock's answers are parameters of the
handlers: `accepted` (the create or replace returned success), `delivered`
(the mail was sent) and `now`. The constants `EMAIL_SYSTEM`,
`PASSWORD_SYSTEM`, the token lifetimes and the response strings are the
source's own. `JWT_SECRET` shows up only as the set of signed tokens.

Behaviours of the code worth noting:

- Only the post-registration token carries a `purpose`. Session and reset
  tokens carry none.
- Reset-password checks no purpose. Any valid token, whether post-registration,
  session or reset, names the account to update (`ResetIgnoresPurpose`).
- A bad or expired token at reset-password is answered 500, not 401. So is a
  missing account or a rejected replace.
- The bootstrap path has two 401 messages. One is for a token that fails
  verification or has the wrong purpose. The other is for a token whose
  account cannot be fetched.
- An account without an identifier list makes login's `.find` throw. The
  answer is the generic 500.
- jsonwebtoken rejects a token once `now >= exp`, so a token is valid while
  `now < expiresAt`.

## Model

| member | source | states |
|---|---|---|
| Credentials.Hash | app.js:62 | a digest is the fixed bcrypt tag followed by material determined by the password |
| Credentials.HashInjective | app.js:62 | two passwords with the same digest are equal |
| Credentials.Compare | app.js:151 | a stored value is accepted only if it is the bcrypt tag followed by the submitted password itself |
| Credentials.CompareExactly | app.js:151 | comparing against the digest of `p` accepts `p` and no other password |
| Credentials.CompareRejectsBlank | app.js:151 | an empty stored value matches no password |
| Tokens.Sign | app.js:79-83 | the signed claims carry the given subject and purpose, are issued now, and expire exactly the given lifetime later |
| Tokens.Verify | app.js:116 | the claims come back iff the token was signed with the secret and the clock is before its expiry; the purpose is not checked |
| Tokens.SignThenVerify | app.js:79-83 | a freshly signed token verifies exactly while `now < iat + ttl` and returns its subject, purpose and lifetime |
| Tokens.VerifyMonotone | app.js:246 | signing further tokens never invalidates one (no revocation) |
| Records.HasIdentifier | app.js:49 | a resource has an identifier iff its identifier list is present and some entry has exactly that system and value |
| Records.Matches | app.js:131 | a search hit is a stored resource with an identifier list |
| Records.Search | app.js:131-134 | the search bundle lists exactly the matching ids below the bound, in strictly ascending order |
| Records.SearchFirst | app.js:135-138 | the bundle is empty iff no account matches, and `entry[0]` is the least matching id |
| Records.SearchAfterReplace | app.js:261-267 | replacing a resource by one that matches the same search leaves that search's bundle unchanged |
| Records.SearchAfterCreate | app.js:67-76 | creating a resource under a fresh id leaves every search below that id unchanged |
| Records.FirstIndex | app.js:146 | the position of the first identifier of the system: every earlier one has another system |
| Records.FindValue | app.js:146 | `find` yields nothing iff no identifier has the system, and otherwise the value of the first identifier of that system |
| Records.Count | app.js:254-259 | the count of identifiers of a system is zero iff there is none |
| Records.CountAppend | app.js:254-259 | counting distributes over concatenation |
| Records.Without | app.js:254-255 | the filter keeps exactly the identifiers of other systems |
| Records.WithoutAppend | app.js:254-255 | filtering distributes over concatenation |
| Records.WithoutNothing | app.js:254-255 | filtering a list with no identifier of the system returns it unchanged |
| Records.WithoutKeepsOrder | app.js:254-255 | two surviving identifiers keep their relative order |
| Records.RotatePassword | app.js:254-259 | after the filter and push, the new password entry is last and no earlier entry is a password |
| Records.Rotated | app.js:254-259 | the rotated resource keeps its name and contact points and has an identifier list |
| Records.RotateSinglePassword | app.js:254-259 | after a rotation exactly one password identifier remains, and login's lookup finds the new hash |
| Records.RotateKeepsOthers | app.js:254-259 | every non-password identifier survives, in its original relative order, before the new entry |
| Records.RotateAbsent | app.js:254 | an absent identifier list is treated as empty |
| Records.RotateAppendsOnly | app.js:254-259 | a list with no password entry only gains the new one at its end |
| Records.RotateTwice | app.js:254-259 | a second reset supersedes the first |
| Records.RotatedSearchable | app.js:254-259 | a rotation changes no match on another system, so the email still finds the account |
| Flows.Present | app.js:43 | a body field counts as given iff it is present and not the empty string |
| Flows.NewPerson | app.js:57-65 | the new resource has the name as its one name, the email and then the hashed password as its two identifiers, and the email as its home contact point |
| Flows.NewPersonCredentials | app.js:57-65 | the created resource is found by its email, and its only password identifier is the hash of its password |
| Flows.RegisterCheck | app.js:43-54 | 400 iff name, email or password is missing; 409 iff they are present and an account has the email; nothing else stops registration |
| Flows.SecondRegistrationConflicts | app.js:49-54 | once an email is registered, registering it again yields 409 |
| Flows.RegistrationKeepsOtherSearches | app.js:57-76 | creating an account leaves the email search for every other address unchanged |
| Flows.ChooseLoginPath | app.js:104-112 | 400 iff the password is missing or both email and token are; otherwise a present token takes precedence over the email |
| Flows.BootstrapAccepted | app.js:116-117 | a bootstrap token is accepted iff it was signed, has not expired and carries the post-registration purpose |
| Flows.ResolveLogin | app.js:112-139 | bootstrap proceeds iff the token verifies with the post-registration purpose and its subject exists; by email proceeds with the least matching id, else the bad-credentials 401 |
| Flows.CheckPassword | app.js:146-154 | accepted iff the password hashes to the first password identifier's value; 500 iff there is no identifier list; the misconfigured 401 iff there is no password identifier; the bad-credentials 401 iff the first password identifier does not match |
| Flows.LoginDecision | app.js:104-154 | 400 exactly on missing fields; otherwise a stop while resolving the account is the answer, a session goes to the resolved account, and every later failure is the password check's response; a session is only ever opened for an existing account whose first password identifier matches the submitted password |
| Flows.BootstrapIgnoresEmail | app.js:112-127 | with a token present, the email field has no effect: no token failure falls through to the email path |
| Flows.BootstrapAcceptsOnlyPostRegistration | app.js:115-127 | a bootstrap session needs a signed, unexpired post-registration token and goes to its subject; a rejected token gives one 401, a missing account another |
| Flows.BootstrapLoginSucceedsIff | app.js:112-154 | the bootstrap path opens a session iff the token is an accepted post-registration token, its account exists, and the password matches that account's current first password identifier |
| Flows.PurposelessTokenRejectedByBootstrap | app.js:117 | session and reset tokens, which carry no purpose, are refused by the bootstrap path |
| Flows.UnknownEmailLooksLikeWrongPassword | app.js:135-153 | an unknown email and a wrong password give the identical 401 |
| Flows.MisconfiguredIsDistinct | app.js:146-148 | an account without a password identifier gets a 401 distinct from bad credentials |
| Flows.EmailLoginSucceedsIff | app.js:129-154 | login by email succeeds iff the password matches the first password identifier of the first account with that email, and the session is for that first account |
| Flows.RegisterThenBootstrap | app.js:79-127 | after registering, the returned token logs in with the right password exactly within five minutes, any number of times |
| Flows.LinkPage | app.js:190 | each route's link opens a page on the service's own site |
| Flows.SendFailure | app.js:196 | a route's send-failure message is never the success message |
| Flows.RoutesDiffer | app.js:190-233 | the two reset-link routes open different pages and fail with different messages |
| Flows.ResetLinkCheck | app.js:172-188 | 400 iff the email is missing, 404 iff no account has it, otherwise the first match's id |
| Flows.ResetLinkRevealsUnknownEmail | app.js:183-186 | the reset-link flow answers 404 exactly when no account in the store has the email |
| Flows.ResetTarget | app.js:241-252 | 400 iff token or password is missing; proceeds iff the token is signed, unexpired and its subject exists, with that subject; otherwise 500 |
| Flows.ResetIgnoresPurpose | app.js:246 | the token's purpose does not affect reset-password, and an expired token is 500 |
| Flows.ResetThenLogin | app.js:238-275 | after a reset to a new password, login by email refuses the old one with the bad-credentials 401 and accepts the new one |
| Gateway.AuthGateway.Create | app.js:67-76 | the store keeps the resource under a fresh id and everything else is unchanged |
| Gateway.AuthGateway.Issue | app.js:79-83 | the token signed now with the given lifetime joins the signed set |
| Gateway.AuthGateway.Register | app.js:40-97 | stops as `Flows.RegisterCheck` says; otherwise 500 when the store refuses, or exactly one new account, and a post-registration token for it expiring after 300 s |
| Gateway.AuthGateway.Login | app.js:100-165 | answers as the login decision says; on success a purpose-less token for the account with a 3600 s lifetime, in an http-only cookie whose 3600000 ms age equals that lifetime |
| Gateway.AuthGateway.SendResetEmail | app.js:192 | the mail reaches the outbox iff it was delivered |
| Gateway.AuthGateway.RequestResetLink | app.js:169-235 | both reset-link routes: stop as `Flows.ResetLinkCheck` says, else sign a 900 s purpose-less token for the first match and mail the route's link, or 500 with the route's message |
| Gateway.AuthGateway.ResetPassword | app.js:238-275 | answers as the reset target says; else replaces exactly that account by its rotated copy when the store accepts, or leaves the store unchanged with 500 |
| Walkthrough.AliceLifecycle | app.js:40-275 | register, bootstrap login (twice in the window, refused after it), duplicate registration, forgot, reset, then old password refused and new one accepted |

## Left out

- The transport in sendResetEmail.js (Gmail OAuth2, nodemailer) is outbound I/O. It is the `delivered` parameter: a failed send is the route's 500.
- Express wiring is not modelled. That covers body parsing, cookie parsing, static files, the `/` redirect, the request-logging middleware and `console` output.
- Network and JSON-parsing failures of the store's reads are not modelled; searches and fetches always answer. In the source most of these throw and are answered 500. On login's bootstrap path the fetch and its parsing sit inside the inner `try`, so there they are answered 401 with the rejected-token message. The failures the source checks explicitly (`createRes.ok`, `upd.ok`) are the `accepted` parameters.
- The `detail` field of 500 responses carries diagnostics only and is left out.
- Body fields are strings or absent. JavaScript truthiness of other JSON values (numbers, objects) is not modelled. A presented token is its claims. The empty token string is falsy, so it is modelled as `None`, like an absent field: login then takes the email path or answers 400, and reset-password answers 400. A non-empty string that is not a token signed by the gateway is a token outside the signed set.
- FHIR server semantics are abstract. Search order is taken to be ascending id. Matching is exact. A bundle always has a `total`. A fetch or replace of a missing id counts as a store failure.
- Identifiers always have a system and a string value here, whereas FHIR allows either to be absent. A password entry without a value makes `bcrypt.compare` throw, which the outer `catch` answers 500 (app.js:151, 161-163); the model has no such entry.
- Only the resource fields the handlers touch (name, identifier, telecom) are modelled.
- bcrypt's random salt, work factor and 72-byte password truncation are idealised away.
- JWT cryptography is abstracted. Tokens signed by anyone else holding `JWT_SECRET` (its fallback value is public) are not modelled.
- Login's `if (!person)` guard cannot fire in the model, because both paths set the person; it has no branch here.
- The forgot and request-reset handlers are one method with a route parameter. They differ only in the link's page and the send-failure message.
- A link is its page and its token, not the concatenated URL string.
- Concurrency is not modelled. Each handler is one atomic step, so races between concurrent resets at the replace are out of scope.
- Unused scaffolding is omitted: `bookingLocks`, `sleep`, `IDENTIFIER_SYSTEMS`, `LOGIN_ID_SYSTEM`, and `FHIR_BASE` URL construction.
