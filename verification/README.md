# Refresh-token sessions of an Express JWT authentication service

This project models the authentication core of an Express service that issues short-lived
access tokens and day-long refresh tokens, in Dafny. The core is the controller's session
state machine: registration, login, logout and refresh-token exchange. The model also covers
the request-body rules of the registration and login routes and the administrator role
guard.

The state is a pair:

- an **account directory**: id ↦ (username, email, password hash, role);
- a **refresh-token table**: token ↦ owning account id. Keying by token is the table's
  uniqueness constraint, so this map is exactly a set of `(userId, token)` records that are
  unique by token.

Each handler is a pure step `(state, request) -> (state', response, cookie action)`. The
responses are `Ok(accessToken, claims)`, `Registered`, `NoContent`, `Unauthorized`,
`Forbidden` and `Conflict`. The cookie actions are `Untouched`, `Clear`, `Set(t)` and
`ClearThenSet(t)`. The last one is the pair of Set-Cookie headers the controller emits when
it clears the presented cookie and then sets the new one.

The collaborators are parameters:

- The password comparison is a function `matches(plain, hash)`. The salted hash that
  registration stores is a parameter.
- Token verification is an oracle `verify(token)` that yields `Verified(claims)` or
  `Rejected`. A bad signature and an expired token are one outcome, as in the controller.
- Signing is not modelled. The handler is given the access and refresh tokens it would sign,
  and the refresh token must be new to the table.
- The database assigns the id of a new account, and the role column supplies its default
  role. Both are parameters of registration.

Cookie presence follows JavaScript truthiness (`Wrappers.Truthy`), so an empty `jwt`
cookie counts as absent. The admin guard reads the role the same way.

The handlers follow the controller as written. Where the code departs from the evident
design of token rotation, the code is modelled and the departure is stated:

- A successful refresh records the new token but never deletes the presented one. This is
  the finding below, and `CorrectedRotation` gives the intended rotation.
- A successful login keeps the record of a presented cookie when that record is live for
  the account.
- The refresh-time identity check compares emails, not ids. The new record is keyed by the
  id in the token's claims. `SessionProperties.EmailCheckIsOwnerCheck` shows that the two
  checks agree when the verifier only accepts claims that name an account by both id and
  email.
- The lookup at the start of refresh is written as a query that cannot run. The model uses
  its evident meaning: find the owner of the record whose token is the cookie.
- Mass revocation on a replayed token runs in a callback after the 403 has been sent. The
  model performs it within the step.
- An absent token that fails verification gets a second 403 after the first, which throws.
  The model gives the single 403 the client sees; "## Left out" describes the error.

Modules:

- `Wrappers`: the `Option` type and JavaScript truthiness of an optional string.
- `Accounts`: the account directory.
- `Jwt`: tokens, claims and verdicts.
- `TokenStore`: the refresh-token table.
- `AuthController`: the four handlers and the state invariant.
- `CorrectedRotation`: refresh with the presented token consumed.
- `SessionProperties`: lemmas that relate several steps.
- `AuthServer`: routing and runs of request sequences.
- `AuthSchema`: the body rules.
- `VerifyAdmin`: the role guard.

## Model

| member | source | states |
|---|---|---|
| Accounts.Create | controllers/auth.controller.js:32-38 | creating an account under a fresh id adds exactly that id; the map grows by one and no other account changes |
| Accounts.CreateKeepsUnique | controllers/auth.controller.js:13-38 | an account whose username and email are both untaken keeps the username and email columns unique |
| Accounts.FindByEmail | controllers/auth.controller.js:57-64 | the email lookup finds an account exactly when the email is taken, and it finds the only account with that email |
| TokenStore.Insert | controllers/auth.controller.js:135-140 | the new token becomes live for the account and is the only added record; the table grows by one and other accounts' records are unchanged |
| TokenStore.DeleteByToken | controllers/auth.controller.js:180-185 | exactly the given token's record is removed; removing an absent token changes nothing |
| TokenStore.DeleteAllFor | controllers/auth.controller.js:122-126 | the account is left with no record, and every other account's records are unchanged |
| AuthController.HandleRegistration | controllers/auth.controller.js:7-42 | a taken username or email gives 409 with the duplicate message and changes nothing; otherwise exactly one account is added, uniqueness is kept and the token table is unchanged |
| AuthController.LoginTokens | controllers/auth.controller.js:109-140 | on the reuse signal (a cookie that is not live for this account) the account ends with only the new token; otherwise the new token is added to its records; other accounts are untouched |
| AuthController.HandleLogin | controllers/auth.controller.js:52-157 | unknown email and wrong password give the same 401 outcome with no change (iff the credentials fail); a successful login returns the account's claims, sets the new cookie (clearing any presented one first), adds the new record and revokes on the reuse signal |
| AuthController.HandleLogout | controllers/auth.controller.js:160-189 | always 204; no cookie: nothing changes; unknown token: the cookie is cleared and nothing changes; known token: exactly that record is removed and the cookie is cleared |
| AuthController.HandleRefreshToken | controllers/auth.controller.js:192-290 | no cookie gives 401 with no change, and every other outcome clears the cookie; success iff the token is live, verifies and carries its owner's email; an absent token is 403 and, if it verifies, revokes every session of the account with its email; a live token that fails verification is deleted; a successful refresh adds one record keyed by the claims' id and leaves the presented token live |
| CorrectedRotation.HandleRefreshRotating | controllers/auth.controller.js:272-277 | intended rotation: the same outcomes as the controller, except that a successful refresh replaces the presented record by the new one |
| SessionProperties.RegisteredWithoutSessions | controllers/auth.controller.js:13-38 | after registration the new account is found by its email and has no live session |
| SessionProperties.RegisterThenLogin | controllers/auth.controller.js:7-151 | a freshly registered account logs in with the password its hash came from and ends with exactly one session |
| SessionProperties.LogoutIsIdempotent | controllers/auth.controller.js:160-189 | logging out a second time with the same cookie has exactly the outcome of the first logout |
| SessionProperties.LogoutThenRefresh | controllers/auth.controller.js:160-231 | a token that has been logged out can no longer be refreshed; if it still verifies, presenting it revokes every session of the account its claims name |
| SessionProperties.EmailCheckIsOwnerCheck | controllers/auth.controller.js:247 | if the verified claims name an account by both id and email, then the email comparison holds iff the token's owner is the claims' id |
| SessionProperties.ReplayAfterRefreshSucceeds | controllers/auth.controller.js:234-287 | as written, presenting a refresh token again after it was exchanged is accepted again |
| SessionProperties.ReplayAfterRotationRevokes | controllers/auth.controller.js:209-231 | with intended rotation, a replayed rotated token is refused and its owner is left with no session |
| SessionProperties.LoginRefreshReplayAsWritten | controllers/auth.controller.js:52-287 | login, refresh, replay of the first token: both refreshes succeed and all three tokens stay live |
| SessionProperties.LoginRotateReplayRevokes | controllers/auth.controller.js:52-287 | login, rotate, replay of the first token: the replay is 403 and the account has no live session |
| SessionProperties.AliceReplayIsAccepted | controllers/auth.controller.js:272-277 | concrete instance: Alice's replayed first token is answered with a new access token |
| SessionProperties.AliceReplayIsRefusedWhenRotating | controllers/auth.controller.js:209-231 | the same concrete replay under intended rotation is 403 and leaves Alice with no session |
| AuthServer.Step | routes/auth.route.js:9-19 | every handler keeps the state invariant and never removes or alters an account; a new cookie always carries a token that this request issued and that is live |
| AuthServer.Run | routes/auth.route.js:9-19 | the requests are served in order until the first one the handlers are not defined on, or to the end; the state reached keeps the invariant, accounts are only ever added, and every live refresh token was live at the start or was issued by one of the served requests |
| AuthSchema.RegisterIssues | zod_schema/auth.schema.js:2-30 | no issue iff all four fields are present, the email is well-formed, the password has at least 6 characters and it equals the confirmation; every missing field, bad email and short password is reported at its path, and every reported issue is a check that fails on the body, and no field gets more than one issue; the mismatch is reported on `passwordConfirmation`, and only when every field is present |
| AuthSchema.LoginIssues | zod_schema/auth.schema.js:32-49 | no issue iff the email is well-formed and the password has at least 6 characters; a missing or malformed email and a missing or short password are each reported, every reported issue is a check that fails on the body, no field gets more than one issue, and issues only ever concern those two fields |
| AuthSchema.ShortPasswordFailsBoth | zod_schema/auth.schema.js:15-47 | a password shorter than 6 characters fails both schemas |
| AuthSchema.MalformedEmailFailsBoth | zod_schema/auth.schema.js:8-40 | an email that fails the format check fails both schemas |
| AuthSchema.LoginIgnoresRegistrationFields | zod_schema/auth.schema.js:32-48 | login does not read the username or the confirmation, but registration cannot pass without a confirmation |
| AuthSchema.AcceptedConfirmationIsLongEnough | zod_schema/auth.schema.js:19-29 | an accepted registration also has a confirmation of at least 6 characters |
| AuthSchema.RegistrationBodyPassesLogin | zod_schema/auth.schema.js:2-49 | every body the registration schema accepts, the login schema accepts |
| VerifyAdmin.Guard | middlewares/verifyAdmin.js:1-5 | the guard calls `next` iff the role is exactly "ADMIN", and answers 401 otherwise, including when the role is missing or empty |
| VerifyAdmin.CaseMatters | middlewares/verifyAdmin.js:3 | "admin" and "Admin" are refused and "ADMIN" passes |

## Left out

- Database I/O is replaced by the two maps. Prisma's error paths are out of scope, and so is
  registration's catch-all "Registration failed" reply, which has no effect on the state.
- Password hashing is out of scope, including the cost factor 10. The model takes the stored
  hash and the comparison as parameters.
- Token cryptography, the "10s" and "1d" lifetimes and wall-clock expiry are out of scope.
  The verifier oracle is fixed for a whole run.
- Cookie attributes are out of scope (httpOnly, sameSite, secure, maxAge), and so are status
  and JSON plumbing and logging.
- Express route wiring is modelled only as the dispatch in `AuthServer.Step`.
- The validation middleware that turns a schema failure into a 400 reply is not modelled
  beyond the list of issues it would report.
- The schema library's email pattern is a parameter.
- Body fields are either absent or strings. Values of another type, and a missing body, are
  not modelled.
- `AuthSchema.RegisterIssues`, `AuthSchema.LoginIssues`, `AuthSchema.ShortPasswordFailsBoth`:
  the minimum password length counts characters, while the schema library counts UTF-16 code
  units. The two differ for characters outside the Basic Multilingual Plane.
- The asynchronous mass revocation, which runs after the 403 is sent, happens within the
  step. Concurrent requests are not modelled, including two refreshes racing on the same
  token.
- `AuthController.HandleRefreshToken`: requires `RefreshDefined`. A replayed token whose
  email names no account makes the controller dereference a missing user. An accepted token
  whose id names no account makes the insert violate the foreign key. Both throw inside the
  verification callback, and the model excludes them.
- `AuthController.HandleRefreshToken`: an absent token that fails verification is answered
  twice. The verification callback sends 403 (controllers/auth.controller.js:214), and the
  handler sends 403 again (line 230). With a string secret the callback runs before that
  second reply, so the second one throws on headers already sent, inside the async handler,
  and nothing catches the rejection. The client sees a single 403 with the cookie cleared,
  which is what the model answers. The model does not record the thrown error.
- `AuthController.HandleRefreshToken`: requires a refresh token that is new to the table.
  The refresh signs the presented token's own four claims again, the same payload that login
  signs (controllers/auth.controller.js:261-270 and 87-96). A refresh in the same second the
  presented token was issued therefore produces that token again. It is live, so the insert
  at lines 272-277 violates the unique token column and throws inside the verification
  callback, and the client gets no reply. This is not modelled.
- `AuthController.HandleLogin`: requires a refresh token that is new to the table. Two
  tokens signed in the same second for the same claims are identical. Every record is owned
  by the id in its token's claims, so a colliding login token always collides with a record
  of the same account. Without the reuse signal, the insert at
  controllers/auth.controller.js:135-140 violates the unique token column and throws. With
  it, the deletion at lines 122-126 removes the colliding record first, and the login
  succeeds and issues the same token again. The model excludes both cases.
- `AuthController.HandleRegistration`: requires the new id to be unused. The role default
  is a parameter because the database schema is not part of this model.

## Findings

| source | as written | input that shows it | evidently intended | confidence | as-written member | corrected member |
|---|---|---|---|---|---|---|
| controllers/auth.controller.js:272-277 | a successful refresh inserts the new token's record and keeps the presented token live | Alice logs in and gets R1. She refreshes with R1 and gets R2. R1 is then presented again, and the handler answers with a new access token and a third live token. | the presented record is replaced by the new one, so a replayed R1 is refused and revokes all of Alice's sessions | not executed; high | SessionProperties.AliceReplayIsAccepted | CorrectedRotation.HandleRefreshRotating |
