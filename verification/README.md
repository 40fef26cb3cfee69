# Account backend: registration and the auth gate

This project models two request handlers of a small Express/MongoDB account
backend. Both are written as pure functions over an abstract user store.

- **Registration** (`registerUser`). It checks, in this order, that name,
  email and password are present, that the password is at least 6 long, and
  that no stored user has the email. The first failing check gives a 400
  response with its message and leaves the store as it was. When all checks
  pass, one record is inserted and a 201 response carries the public fields
  `_id, name, email, photo, bio`. The password is not among them.
- **Auth gate** (`protect`). It reads the `token` cookie, verifies it and
  looks up the user named by the token. On success it attaches that user to
  the request and calls the next handler once. Otherwise the `catch` replaces
  whatever was raised with a 401 status and the single message
  "You are not login, please login".

Modelling choices:

- The store is `Store(users: map<UserId, UserRecord>, nextId)`. The store
  assigns `nextId` to a new record. The store invariant `Valid` says that
  emails are unique and every id lies below `nextId`. `EmptyStoreValid`
  is its starting case: an empty store with `nextId` 0 is valid. The freshness
  of new ids (`requires IdsIssued` of `RegisterInsertsOneRecord`) rests on it.
- Body fields are `Option<string>`; `None` is JavaScript `undefined`.
  `Truthy` is JavaScript truthiness: a missing or empty string fails.
- `password.length` in JavaScript counts UTF-16 code units, so
  `Utf16Length` counts characters outside the Basic Multilingual Plane
  twice. Three characters outside the Basic Multilingual Plane (e.g.
  U+1F600) make a password of length 6, which passes.
- The gate is modelled as a `Run`. A run is the ordered side effects
  (`SetStatus`, `AttachUser`, `CallNext`) plus how the code ended
  (`Returned`, or `Raised` with a message). `TryBlock` is the `try` body on
  its own and `Protect` adds the `catch`. That makes the masking of
  "User not found" visible. `Decide` is the gate's decision stated directly
  (`Reject(401, msg)` or `Continue(user)`). `Realizes` says what it means for
  a run to carry out a decision.
- Token verification (`jwt.verify` with the secret) is a parameter
  `verify: string -> Verification`. It returns either the carried user id
  or the verifier's reason for refusing.
- `req.cookies` is `Option<map<string, string>>`. `None` means no cookie
  parser filled it in. Reading `.token` then raises a `TypeError`, which the
  `catch` turns into the same 401. backend/server.js installs no cookie
  parser and mounts no gated route. A gated route added without a parser
  would reject every request this way.

What the code does, as modelled: a duplicate email gets 400. The password is
stored as submitted, without hashing. Registration issues no session token
or cookie. The response's `photo` and `bio` are whatever the stored record
holds. The schema in backend/models/userModel.js declares neither field and
the handler writes neither, so a new record has `None` for both.

## Model

| member | source | states |
|---|---|---|
| Common.Utf16Length | backend/controllers/userController.js:13 | the JavaScript length of a string lies between its character count and twice that |
| Common.Utf16LengthOfBmp | backend/controllers/userController.js:13 | for Basic Multilingual Plane text the JavaScript length equals the character count |
| Common.Utf16LengthOfAstral | backend/controllers/userController.js:13 | for text made only of characters beyond the Basic Multilingual Plane the JavaScript length is twice the character count |
| Common.FirstFailure | backend/controllers/userController.js:9-22 | an ordered validator reports nothing exactly when every check passes, and otherwise reports the message of a failing check that every earlier check passed |
| UserStore.Create | backend/controllers/userController.js:25-29 | insertion stores the record under the returned id and keeps every other record; in a store whose ids are all issued, the id is fresh and the store grows by exactly one |
| UserStore.TakenEmailHasOneOwner | backend/controllers/userController.js:18-22 | in a store with unique emails, a taken email belongs to exactly one record |
| UserController.Register | backend/controllers/userController.js:5-38 | the status is 400 or 201; a 400 carries a message and leaves the store unchanged; a 201 carries the public projection of the record stored under the returned id |
| UserController.RegisterFollowsCheckOrder | backend/controllers/userController.js:9-22 | the first failing check among presence, length and uniqueness decides the 400 message and the store is unchanged; when none fails the user is created |
| UserController.RegisterRejectsMissingField | backend/controllers/userController.js:9-12 | a missing or empty name, email or password gives 400 "Please fill in all required fields" with the store unchanged, whatever the other checks would say |
| UserController.RegisterRejectsShortPassword | backend/controllers/userController.js:13-16 | with all fields present, a password shorter than 6 gives 400 with the length message and the store unchanged |
| UserController.SixCharacterPasswordPassesLengthCheck | backend/controllers/userController.js:13-16 | a password of 6 or more characters passes the length check, so only the email check decides the outcome |
| UserController.AstralPasswordPassesLengthCheck | backend/controllers/userController.js:13-16 | a password of three characters beyond the Basic Multilingual Plane is not rejected as too short |
| UserController.RegisterRejectsDuplicateEmail | backend/controllers/userController.js:18-22 | a valid request for an email already stored gives 400 "Email has already been registered!" with the store unchanged |
| UserController.RegisterSucceedsIff | backend/controllers/userController.js:9-29 | registration succeeds if and only if all fields are present, the password is long enough and the email is free |
| UserController.RegisterInsertsOneRecord | backend/controllers/userController.js:25-29 | on success the store gains exactly one record, under a fresh id, holding the submitted name, email and password, and every earlier record is unchanged |
| UserController.RegisterCreatesProfile | backend/controllers/userController.js:30-34 | on success the response is 201 with the id, name, email, photo and bio of the new record |
| UserController.RegisterResponseIndependentOfPassword | backend/controllers/userController.js:30-34 | two requests that differ only in their passwords, both non-empty, and agree on whether the password is long enough, get the same status and body, so the response reveals nothing of the password |
| UserController.RegisterPreservesValid | backend/controllers/userController.js:18-29 | registration keeps email uniqueness and issued ids, whether it succeeds or fails |
| UserController.RegisterTwiceKeepsOneRecord | backend/controllers/userController.js:18-22 | after a successful registration, a second valid one with the same email is rejected and exactly one record carries that email |
| AuthMiddleware.FinalStatus | backend/middleware/authMiddleware.js:9-25 | when some status was set, the response status is that of a `SetStatus` effect after which no other status is set (`res.status` is last-write-wins at lines 9, 19 and 25); when none was set, it is the default |
| AuthMiddleware.Protect | backend/middleware/authMiddleware.js:5-28 | every error the gate raises carries the generic message and leaves 401 as the final status |
| AuthMiddleware.Decide | backend/middleware/authMiddleware.js:5-28 | every rejection is 401 with the generic message |
| AuthMiddleware.ProtectRealizesDecision | backend/middleware/authMiddleware.js:7-27 | a rejected run raises the generic message with final status 401, attaches no user and never calls the next handler; an accepted run attaches the user, then calls the next handler exactly once as its last act and sets no status |
| AuthMiddleware.DecideAcceptsIff | backend/middleware/authMiddleware.js:7-23 | the gate continues with a user if and only if there is a non-empty token cookie that verifies to the id of a stored user, and the user is that stored record |
| AuthMiddleware.ProtectRejectsMissingToken | backend/middleware/authMiddleware.js:7-11 | with no parsed cookies, or no non-empty token cookie, the gate raises the generic message with final status 401 and never calls the next handler |
| AuthMiddleware.ProtectHidesRefusalReason | backend/middleware/authMiddleware.js:14-27 | a token the verifier refuses yields exactly a 401 status and the generic message, whatever the verifier's reason |
| AuthMiddleware.ProtectMasksUserNotFound | backend/middleware/authMiddleware.js:18-27 | for a verified id with no stored user the try block raises "User not found", but the gate raises the generic message |
| AuthMiddleware.ProtectRejectionsIndistinguishable | backend/middleware/authMiddleware.js:24-27 | any two rejections, whichever step failed, end with the same message and the same final status |

## Left out

- backend/server.js: the Express setup, body parsing, database connection and `listen` are process plumbing. Only its lack of a cookie parser shows up, as `Request.cookies == None`.
- backend/models/userModel.js: Mongoose behaviour is not modelled. That includes strict-mode dropping of undeclared fields, the `.select('password')` projection of the looked-up user, and query semantics. The store holds exactly what the handler writes, and a lookup by email or id is exact.
- JSON Web Token verification: signature and expiry checks (section 7.2 of RFC 7519) and reading `JWT_SECRET` from the environment become the `verify` parameter. A payload without an `id`, and an id the store cannot parse, are folded into the verifier's outcome. Both end in the same 401.
- `express-async-handler`, the default error handler and `res.status`: they become returned values. The client is assumed to see the last status set and the raised message.
- UserController.RegisterPreservesValid: requests are modelled one at a time. The email lookup (backend/controllers/userController.js:18) and the insert (:25) are separate awaits, and the schema declares no unique index on email. So two registrations for the same email that run concurrently can both pass the lookup and both insert. Uniqueness, here and in UserController.RegisterTwiceKeepsOneRecord, holds only for registrations that run one after another.
- UserController.Register: does not model a failing store call (`findOne` or `create` rejecting). `res.statusCode` is still 200 then, so the default error handler answers 500. The model treats the store as always answering.
- UserController.Register: the unreachable `else` branch after `create` (backend/controllers/userController.js:35-37) is not modelled; creation always succeeds.
- AuthMiddleware.Protect: does not model a failing `findById` (it would be caught and become the same 401) or an exception thrown by the next handler.
- Body fields that are JSON values other than strings (numbers, arrays, objects) are not modelled; every field is a string or absent. This hides a gap in the length check at backend/controllers/userController.js:13. A truthy non-string password skips it. For the JSON number `1`, `(1).length` is `undefined` and `undefined < 6` is false. A 6-element array from the urlencoded parser (backend/server.js:11) passes in the same way.
- Strings are sequences of Unicode scalar values, so JavaScript strings with lone surrogates cannot be expressed.
- The gate assigns the looked-up user to an undeclared variable, which becomes a global in non-strict JavaScript. Between that assignment and its use there is no suspension point, so it does not change the outcome. It is not modelled.
- Password hashing, login, logout, profile read and update, password change and the reset-token flow do not appear in this code and are not modelled.
