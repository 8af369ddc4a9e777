# Node-auth account logic in Dafny

This project models three pieces of the account logic of a small Express and
Mongoose authentication backend, over an in-memory user store:

- **The `User` model** (`user_model.dfy`, module `UserModel`). A `User` record
  holds the schema's fields: name, e-mail, password, a role that is "user" by
  default, `isVerified` (false by default), three optional token fields, and the
  timestamps. A `Document` class is the in-memory Mongoose document. It holds
  the set of paths modified since the last save, and an assignment marks a path
  only when the value changes. A `UserStore` class is the collection. Its
  `Save` runs the pre-save hook, which replaces the password by
  `Hash(password, 10)` exactly when the password path was modified. When
  that path is modified but holds no value, bcrypt rejects and nothing is
  stored. Otherwise the save inserts the document, replaces the stored
  record, or does nothing when no path is modified. A key that the object
  given to `new User(...)` names counts as modified even when its value is
  `undefined`.
- **Google sign-in** (`passport.dfy`, module `Passport`). `Reconcile` is the
  verify callback as a function of the store. It tries a record with the
  profile's Google id first. Failing that, it tries a record with the
  profile's first e-mail and links the Google id and first photo onto it.
  Failing that too, it creates a verified record. `GoogleVerify` is the same
  callback on the `UserStore`, and it is proved equal to `Reconcile`.
  `SerializeUser` and `DeserializeUser` are the session id round trip.
- **Registration** (`user_controller.dfy`, module `UserController`).
  `RegisterUser` runs the handler's steps in the source's order: presence
  check, duplicate-email check, create, then a verification token stored by a
  second save. Each response is appended to a log. The handler does not return
  after an error response, so the log can hold "All fields are required" and
  also "User already exists". With all three fields present, a taken e-mail
  gets "User already exists" and a second record with the same e-mail is
  still created. A request without a password always reaches the `catch`,
  because the hook cannot hash `undefined`. Express refuses a second response
  on the same request by throwing; that throw is not modelled, so the log
  holds every response the handler attempts.
- `hex.dfy` (module `Hex`) holds the hexadecimal encoding that turns the 32
  random bytes into the 64-character token. `wrappers.dfy` holds `Option` and
  `Result`.

bcrypt is modelled symbolically. A credential is either `Plain(text)` or
`Digest(source, cost)`, and `HashDepth` counts how many times bcrypt was
applied. "Hashed exactly once" is therefore `HashDepth == 1`. The random
bytes, the clock (`now`) and store exceptions (`fault`) are parameters of the
operations. MongoDB's `_id` is a counter kept by the store. The store's
invariant `Valid()` says every id is below the counter and no two records
share an id.

The handler in `controller/user.controller.js` does not run as written. Line
41 assigns through `newuser`, a name declared nowhere, and the `newUser`
declared at line 27 is out of scope at lines 41-42. `RegisterUser` models the
evident intent: `newUser`, in scope, gets the token and is saved.
`RegisterUserAsWritten` models the code as written, where every request that
reaches line 41 throws and no token is ever stored. When the `catch` has run,
no document exists, so `RegisterUser` also stops at the token step and does
not complete.

## Model

| member | source | states |
|---|---|---|
| `UserModel.Saved` | model/User.model.js:27-36 | the hook rejects exactly when the password path is modified and holds no value; otherwise a save changes the password exactly when the password path was modified, and then to `Hash(password, 10)`; no other field than the password and the timestamps changes; a first save sets both timestamps, a later one refreshes `updatedAt` only if something was modified |
| `UserModel.SaveTwiceHashesOnce` | model/User.model.js:32-35 | saving again right after a successful save changes nothing, so two saves in a row hash at most once |
| `UserModel.Document.Build` | model/User.model.js:9-24 | `new User(f)` takes the supplied values, role "user", `isVerified` false unless supplied, token fields absent, and marks exactly the keys the object names modified |
| `UserModel.Document.Assign` | utils/passport.js:29-30 | an assignment to a saved or loaded document changes the one field and marks its path modified only if the value changed |
| `UserModel.UserStore.FindOne` | utils/passport.js:16-25 | `findOne` returns the first matching record as an unmodified document, and no document when nothing matches |
| `UserModel.FirstMatch` | utils/passport.js:16-25 | the index returned holds a match and no earlier record matches; no index means no record matches |
| `UserModel.IdLookup` | utils/passport.js:59 | with unique ids, looking up a stored record's id finds exactly that record |
| `UserModel.UserStore.Save` | model/User.model.js:31-36 | fails with nothing changed when the hook rejects or the id is taken or missing; otherwise inserts a new document, replaces the record of a modified one and writes nothing for an unmodified one; afterwards the document holds what was written, has nothing modified, and ids stay unique |
| `UserModel.UserStore.Create` | model/User.model.js:4-36 | `User.create` rejects, storing nothing, exactly when the object names a password key with no value; otherwise it appends exactly one record with a fresh id, the schema defaults (role "user", `isVerified` false unless supplied, tokens absent) and the hook applied |
| `UserModel.StrictCast` | model/User.model.js:4-29 | the schema's strict casting drops `googleId` and `avatar` and keeps every other key |
| `Hex.Encode` | controller/user.controller.js:40 | hex encoding gives two lower-case hexadecimal digits per byte |
| `Hex.DecodeEncode` | controller/user.controller.js:40 | decoding the encoded bytes gives the bytes back |
| `Hex.EncodeInjective` | controller/user.controller.js:40 | distinct random bytes give distinct tokens |
| `Passport.Reconcile` | utils/passport.js:13-49 | the callback fails exactly when the Google id lookup throws, or when no record has the Google id and the profile lacks a first e-mail or photo or a later store call throws, with a store error or a profile error as the failing step says; a failure leaves the store unchanged and hands on no user; a Google id match is returned unchanged before e-mails or photos are read; an e-mail match gets only `googleId`, `avatar` and `updatedAt` changed, with the password untouched and the record count the same; otherwise exactly one verified record is appended with the profile's Google id, name, first e-mail and first photo; any user handed on is stored and has the profile's Google id |
| `Passport.GoogleVerify` | utils/passport.js:13-49 | the callback on the store leaves the store and hands on the user exactly as `Reconcile` says, and keeps ids unique |
| `Passport.ReconcileIdempotent` | utils/passport.js:16-44 | after a successful call, reconciling the same profile again leaves the store as it was and hands on the same user |
| `Passport.DeserializeUser` | utils/passport.js:57-64 | a lookup failure gives an error; otherwise a stored record with that id, or nothing when no record has it |
| `Passport.SerializeRoundTrip` | utils/passport.js:52-64 | deserializing the serialized id of a stored user gives back that stored user |
| `Passport.CreatedAsWrittenLacksGoogleId` | utils/passport.js:36-42 | against the schema as declared, the record `User.create` stores has no Google id or avatar, while `Reconcile` promises the Google id |
| `Passport.LinkedAsWrittenStaysUnlinked` | utils/passport.js:27-31 | against the schema as declared, the record found by e-mail is stored unchanged, without the Google id, while `Reconcile` links it |
| `UserController.CatchReason` | controller/user.controller.js:19-37 | the `catch` runs exactly when the lookup throws, the password is missing (bcrypt rejects `undefined`) or the create throws; a lookup error comes first, then the hook's rejection |
| `UserController.Emitted` | controller/user.controller.js:12-37 | every response is a 400; "All fields are required" comes first exactly when a field is missing or empty; "User already exists" is in the log exactly when the lookup ran and found the e-mail, and it follows the first when both apply; the log ends with an error text that starts "Error in registering user: " exactly when the `catch` runs, and with bcrypt's rejection when the password is missing and the lookup did not throw |
| `UserController.ValidateAndCreate` | controller/user.controller.js:8-37 | unless the `catch` runs, the try block creates exactly one record (with all fields present, also for a taken e-mail) with the given name, e-mail and hashed password, role "user" and `isVerified` false; when the `catch` runs, the store is unchanged and there is no document |
| `UserController.RegisterUser` | controller/user.controller.js:8-42 | registration logs the responses above, appends one record whose password is hashed exactly once and whose `verificationToken` is the 64-digit hex of the random bytes, and completes exactly when nothing throws and a password was given |
| `UserController.RegisterUserAsWritten` | controller/user.controller.js:39-42 | as written, the handler never completes and the created record never gets a verification token |

A stored user's role is "user" or "admin" because `Role` has only those two
values. No code in the modelled core sets a role, so the enum validation never
rejects a save.

## Findings

| source | as written | input that shows it | evidently intended | confidence | as-written member | corrected member |
|---|---|---|---|---|---|---|
| utils/passport.js:36-42 | `userSchema` (model/User.model.js:4-29) declares neither `googleId` nor `avatar`, so strict mode drops them from the object given to `User.create` | a first Google sign-in on an empty store with profile id "g1", e-mail "a@b" and photo "p": the created user has no Google id | `googleId` and `avatar` are stored, so the next sign-in finds the user by Google id | not executed; relies on Mongoose's default strict mode | `Passport.CreatedAsWrittenLacksGoogleId` | `Passport.Reconcile` |
| utils/passport.js:27-31 | the assignments to `user.googleId` and `user.avatar` are to paths the schema does not declare, so they mark nothing and `user.save()` stores nothing | a store holding one record with e-mail "a@b" and no Google id, and a sign-in with profile id "g1", e-mail "a@b" and photo "p": the stored record keeps no Google id, so every later sign-in takes the e-mail branch again | the Google id and photo are stored on the record found by e-mail | not executed; relies on Mongoose's default strict mode | `Passport.LinkedAsWrittenStaysUnlinked` | `Passport.Reconcile` |
| controller/user.controller.js:41-42 | line 41 writes `newuser.verificationToken`, and `newuser` is declared nowhere; `newUser` (line 27) is out of scope here | any request that gets past the `try`, e.g. name "a", e-mail "b", password "c" on an empty store: the handler throws and the token is never stored | set the token on the created `newUser` and save it | not executed | `UserController.RegisterUserAsWritten` | `UserController.RegisterUser` |

## Left out

- The other handlers that routes/user.routes.js imports (`verifyUser`, `loginUser`, `forgotPassword`, `resetPassword` and others) are not defined in the controller, which exports only `registerUser`, so they are not modelled.
- The nodemailer transport (controller/user.controller.js:44-52) is outbound e-mail I/O and is not modelled.
- bcrypt and the random generator are not modelled. `Hash` is a symbolic constructor, and the 32 random bytes are a parameter of `RegisterUser`.
- The clock is a parameter `now`, taken as one value for a whole request.
- Store exceptions are a `fault` parameter that names the one store call that throws.
- `UserModel.UserStore.Save` writes the whole document over the stored record, where Mongoose sends only the modified paths. The two agree here because every document is saved right after it is loaded or created, with no other write in between.
- ObjectId generation is a counter in the store, so ids are unique by construction rather than with high probability.
- Express throws when a handler sends a second response. The model logs every attempted `res.status(400).json(...)` and does not model that throw or the control flow it would divert. In the source, a request with a missing field and a taken e-mail throws at "User already exists" into the `catch`, whose own response throws again, and creates no record. In the model it goes on to the create.
- The branch at controller/user.controller.js:28-32 ("User not registered") cannot be reached, because `User.create` either resolves to a document or throws.
- The handler sends no response when it succeeds, so the log of a successful registration with complete fields is empty.
- A lookup with a missing e-mail (`findOne({email: undefined})`) is modelled as matching records whose e-mail is also missing.
- The presence check models JavaScript truthiness for string fields only: absent or empty. Non-string request bodies are not modelled.
- The controller imports `../model/User.model` without the `.js` extension, and the router imports names the controller does not export. The modules would not load; the model describes the handler bodies.
- Async execution, Passport's `done` callback machinery, the OAuth handshake (access and refresh tokens) and concurrent requests are not modelled. Each operation is one sequential step.
- `deserializeUser` takes the id as a number; the session's string form of the ObjectId is not modelled.
- middleware/auth.middleware.js, index.js and utils/db.js are bootstrap and foreign-library plumbing and are not part of this model.
