# Verified model of the acquisitions authentication backend

This project models the decision logic of a small Express authentication
backend in Dafny. The logic covers three pieces:

- **Credential service** (`AuthService`). `createUser` looks up the email, hashes the password and inserts one row
  into the `users` table. `authenticateUser` looks the email up, checks the password and returns the row without
  its password hash. Every failure becomes one of a closed set of error kinds.
- **Auth controller** (`AuthController`). The `signUp`, `signIn` and `signOut` handlers. Each turns the outcome of
  validation and of the service call into one written response (status, JSON body, session cookie action), or
  hands the error to `next`.
- **Request gate** (`SecurityMiddleware`). The middleware that turns the policy engine's decision into a pass to the
  next handler, a 403 (bot or shield), a 429 (rate limit) or a 500 (exception).

How the model represents the source:

- The code dispatches errors by comparing message strings. Here `AuthError` has one constructor per message.
  `Message` gives each constructor's string, and `MessageIdentifiesKind` proves distinct kinds carry distinct
  strings, so matching on the kind is equivalent to the code's string comparisons.
- The `try`/`catch` blocks of `createUser` and `authenticateUser` each become two functions. `CreateUserAttempt` and
  `AuthenticateAttempt` are the try blocks; they return the first error raised. `CreateUserRewrap` and
  `AuthenticateRewrap` are the catch blocks. Every other `try`/`catch` is folded into one function
  (`HashPassword`, `ComparePassword`, `SignUpReply`, `SignInReply`, `SignOut`, `SecurityGate`).
- The users table is a sequence of rows (`Table`) with a serial-id counter. The class `UserStore` holds them and
  updates them in place in `CreateUser`. `authenticateUser` only reads the table, so it is the function
  `AuthenticateUser` over the rows.
- bcrypt becomes a `Hasher` value holding two functions. `hash(password, salt)` may fault (None).
  `compare(password, digest)` may fault, and returns false on a mismatch. The predicate `RoundTrip` is the one
  property assumed of the primitive: a digest it made for a password verifies against that password.
- Values from outside the service are parameters (`Env`): bcrypt's random salt, the database clock for the
  timestamps, and where a database call fails.
- JWT signing is a parameter `Signer` (None when signing throws). Whether the cookie helper throws is a flag
  `cookieFails`; either throw sends the error to `next`. Validation arrives as `Passed(data)` or `Failed(details)`.
- `authenticateUser` makes one database call, so its failure is a single flag `lookupFails`; `createUser` makes two,
  so its failure is a `StoreFault` naming which one fails.

Two behaviours of the source that the model keeps:

- Sign-up when signing or setting the cookie fails after `createUser` succeeded: the row stays inserted and the
  request is forwarded as an error. A retry then gets 409.
- Gate fail-open: a decision whose conclusion is not Deny passes the gate, including an engine error conclusion. So
  does a denial whose reason is none of bot, shield or rate limit.

Two facts of the code the model records literally:

- The 429 message is the one the middleware writes, "Rate limit exceeded. Please try again later".
- `createUser` returns the row without its password, because the insert's `returning` list leaves that column out.

## Model

| member | source | states |
|---|---|---|
| `AuthService.MessageIdentifiesKind` | src/services/auth.service.js:55-62 | two error kinds have equal messages exactly when they are the same kind, so dispatching on the kind decides what the message comparisons decide |
| `AuthService.HashPassword` | src/services/auth.service.js:7-14 | succeeds exactly when the primitive does and returns its digest; the only failure is HashFailed ("Failed to hash password") |
| `AuthService.ComparePassword` | src/services/auth.service.js:16-23 | returns the primitive's verdict, a mismatch being Ok(false); only a fault of the primitive becomes CompareFailed |
| `AuthService.HashThenCompare` | src/services/auth.service.js:36-40 | under the round-trip property, the digest hashPassword produced is accepted by comparePassword for the same password |
| `AuthService.FindByEmail` | src/services/auth.service.js:27-31 | the lookup returns a stored row with the given email, and returns none exactly when no stored row has that email |
| `AuthService.FindTheRow` | src/services/auth.service.js:68-72 | in a table with unique emails the lookup returns the one row holding the email |
| `AuthService.FindAfterAppend` | src/services/auth.service.js:38-40 | inserting a row never changes an earlier match, and the new row is found only when no earlier row had the email |
| `AuthService.CreateUserOn` | src/services/auth.service.js:25-64 | on any error the table is unchanged and the error is EmailTaken or CreateFailed; EmailTaken exactly when the lookup worked and the email is stored; success exactly when no fault, the email is new and hashing worked; success appends exactly one row with the given name, email and role (default "user"), the hashed password, the next id and equal timestamps, keeps all earlier rows, and returns that row without its password |
| `AuthService.CreateFaultIsCreateFailed` | src/services/auth.service.js:36-62 | a lookup fault, or a hashing or insert fault after the duplicate check, gives CreateFailed with the table unchanged |
| `AuthService.CreateUserKeepsWellFormed` | src/services/auth.service.js:27-40 | createUser preserves the table invariant: unique emails, unique ids, every id below the next serial value |
| `AuthService.SecondRegistrationRejected` | src/services/auth.service.js:27-34 | after a successful registration, a second one with the same email fails with EmailTaken and inserts nothing |
| `AuthService.CreateAllKeepsInvariant` | src/services/auth.service.js:27-48 | any sequence of createUser calls keeps emails and ids unique and never changes or removes a stored row |
| `AuthService.AuthenticateUser` | src/services/auth.service.js:66-97 | errors are only UserNotFound, InvalidCredentials or AuthenticateFailed; a failed lookup gives AuthenticateFailed; UserNotFound exactly when the lookup worked and no row has the email; InvalidCredentials exactly when the lookup worked and the found row's digest rejects the password; AuthenticateFailed exactly when the lookup failed or comparing against the found row faulted; a success is a stored row with that email whose digest verifies, returned without its password |
| `AuthService.AuthenticateStoredUser` | src/services/auth.service.js:74-95 | for a stored user: the right password returns that user without its password, a mismatch gives InvalidCredentials, and a comparison fault (CompareFailed) is rewrapped as AuthenticateFailed |
| `AuthService.CreateThenAuthenticate` | src/services/auth.service.js:36-83 | a user just created signs in with the same password and gets back exactly the record createUser returned |
| `AuthService.UserStore.CreateUser` | src/services/auth.service.js:25-64 | the in-place createUser keeps the table invariant and leaves exactly the table and result that CreateUserOn describes; on error nothing changes; on success one row with the email is appended |
| `AuthController.SignUpReply` | src/controllers/auth.controller.js:22-55 | 201 exactly when createUser succeeded, signing worked and the cookie helper did not throw, with body {message, user:{id,name,email,role}} and cookie token set to the token signed over {id,email,role}; 409 "Email already exist" exactly for EmailTaken; every other service error, a signing failure and a cookie failure go to next with no response |
| `AuthController.SignUp` | src/controllers/auth.controller.js:9-56 | failed validation replies 400 {error:'validation failed', details} and leaves the table untouched (createUser is not called); otherwise the table becomes what createUser makes of it and the reply is SignUpReply of its result |
| `AuthController.SignUpBodyIndependentOfToken` | src/controllers/auth.controller.js:24-41 | the success body is the same whatever token is signed (the token travels only in the cookie) and holds exactly id, name, email and role |
| `AuthController.SignInReply` | src/controllers/auth.controller.js:71-105 | 200 exactly when authentication succeeded, signing worked and the cookie helper did not throw, with the four-field user and cookie token signed over {id,email,role}; UserNotFound and InvalidCredentials both give the identical 401 "Invalid email or password"; every other error goes to next as that same error; a signing failure and a cookie failure go to next |
| `AuthController.SignIn` | src/controllers/auth.controller.js:58-106 | 400 exactly when validation failed; a session cookie is set only with status 200 for a stored email whose digest accepts the password |
| `AuthController.SignInValidationFirst` | src/controllers/auth.controller.js:60-67 | a failed validation gives the 400 reply whatever the table, hasher and store state, so authenticateUser is not consulted |
| `AuthController.SignInNoEnumeration` | src/controllers/auth.controller.js:94-102 | an unknown email and a wrong password for a stored email get the same 401 reply |
| `AuthController.SignOut` | src/controllers/auth.controller.js:108-120 | the error goes to next exactly when the cookie helper throws; otherwise 200 with body {message: "User logged out"} and the "token" session cookie cleared |
| `AuthController.SignOutClearsSessionCookie` | src/controllers/auth.controller.js:108-115 | signOut replies 200 {message} and clears the same cookie name that a successful sign-in sets |
| `AuthController.RegisterSignInRegisterAgain` | src/controllers/auth.controller.js:9-106 | register gives 201 with the given email and a cookie; signing in with the same credentials gives 200 for the same user id; registering the email again gives 409 and leaves the table unchanged |
| `SecurityMiddleware.SecurityGate` | src/middleware/security.middleware.js:4-60 | next is called exactly when the decision is not denied or its reason is unrecognised; 403 bot exactly when denied and bot; 403 shield exactly when denied, not bot and shield; 429 exactly when denied, neither bot nor shield, and rate limit; 500 exactly when evaluation threw; the result is either a call of next or one response, never both |
| `SecurityMiddleware.BlockedResponses` | src/middleware/security.middleware.js:14-59 | a blocked request always gets 403, 429 or 500 with an {error, message} body and no cookie; 500 exactly when evaluation threw |
| `SecurityMiddleware.FailsOpen` | src/middleware/security.middleware.js:14-52 | a non-Deny conclusion, or a denial with an unrecognised reason, is treated exactly like an allow |

## Left out

- bcrypt internals are not modelled: salting, the cost factor 10 and the 72-byte input limit. The primitive is the
  `Hasher` parameter, assumed only to satisfy `RoundTrip`; that a wrong password is rejected is stated conditionally
  on `compare` returning false.
- Database I/O through drizzle is replaced by the in-memory `Table`. The users schema (src/models/user.model.js) is
  not part of this model. The model therefore assumes a serial id starting at 1, a role column defaulting to "user",
  and both timestamps set to the insert time. A database failure is one `StoreFault` per call, not a driver message.
- The policy engine is not modelled: its `protect` call, its shield, bot and sliding-window rules, and their
  configuration in src/config/arcjet.js (constants and a start-up warning). The decision is an input.
- JWT signing and verification are not modelled, nor the cookie attributes. The modules in src/utils are not part of
  this model: signing is the opaque `Signer`, and cookies are set/clear actions on the response.
- Zod schemas and `formatValidationError` are not part of this model. Validation is an input outcome, and the details
  are an opaque string.
- What the error handler reached through `next(error)` writes is not modelled: the model stops at `Forwarded`.
- A throw while writing the reply itself (`res.status(...).json(...)`) is not modelled in `SignUp`, `SignUpReply`,
  `SignInReply`, `SignIn` or `SignOut`; only signing and cookie-helper throws are.
- The gate model does not distinguish where inside the `try` an exception arose (the engine
  call, the decision logging, or writing a 403/429 reply); all of these are the single `Threw` input.
- Logging and console output are left out.
- Asynchronous execution and concurrent registrations are not modelled; only sequential calls are.
