# Conduit user accounts and tokens, modelled in Dafny

This project models the two parts of the Conduit (RealWorld) Revel starter
kit that hold real decision logic:

- **The token service** (`app/services/auth/auth.go`). It issues JSON Web
  Tokens (RFC 7519) signed with HMAC SHA-256 (section 3.2 of RFC 7518), with
  issuer `"Conduit"` and an expiry 24 hours after the manager was built. It
  also resolves an `Authorization: Token <jwt>` header back to the claims.
  Module `Auth`, pure functions and lemmas.
- **The user controller** (`app/controllers/user.go`). It handles
  registration (`Create`), reading the current user (`Read`), profile update
  (`Update`) and login (`Login` with `checkValidate`). Module `Controllers`,
  class `UserController`. The class holds the request's field-error
  accumulator and refers to the shared user table, `Store.Datastore`.

Supporting modules: `Validation` (the accumulator that
`c.Validation.Required(..).Key(..).Message(..)` writes to), `Models` (the user
record, lookups by username and email, and the uniqueness guard),
`Store` (the user table with its auto-increment key) and `Wrappers`
(`Option`, `Result`).

Abstract collaborators:
- `Models.UserModel` holds the `models.User` behaviour whose code is not part
  of this model: the password hash used by `NewUser`, `Validate`, `Fill` and
  `MatchPassword`. Each is a function value.
- A signature is the free term `Auth.Mac(key, alg, claims)`. Two signatures
  are equal only when key, algorithm and claims are all equal. This is the
  ideal-MAC view of HMAC.
- The library's compact serialisation is `Auth.Codec(serialize, parse)`. The
  round-trip lemmas assume `Auth.Faithful`: parsing a serialised token gives
  it back.
- The signing secret, the current time, the parsed request body and the
  outcome of each database write are parameters.

Main results:
- A token issued for `(id, name)` reads back as exactly those claims while
  unexpired, both directly and through the `Authorization` header. Afterwards
  it is refused as expired.
- Tokens with a tampered signature or a non-HMAC method are refused.
- Registration flags a username or email exactly when someone already holds
  it. Update excludes the user's own record from that check.
- Neither handler writes to the table while the accumulator holds an error.
- Both handlers keep the table free of duplicate usernames and emails.
- Login fails fast, stage by stage, and each stage reports its own key and
  message.

## Model

| member | source | states |
|---|---|---|
| `Validation.Require` | app/controllers/user.go:30-31 | `Required(ok).Key(k).Message(m)` adds `m` under `k` when `ok` is false and changes nothing otherwise. Every other key keeps its messages. The accumulator has errors iff it had errors before or the check failed. |
| `Validation.HasErrors` | app/controllers/user.go:32 | `c.Validation.HasErrors()`: on an accumulator whose keys each hold a message, it is true iff some key holds a message. The same test decides at user.go:72, 153, 159 and 165. |
| `Validation.AddAll` | app/controllers/user.go:26 | Merging a model's validation errors appends to each key exactly that key's messages, in order. The keys become the old ones plus the keys of the errors. The accumulator has errors iff it had errors before or the list was non-empty. Every key keeps holding a message. |
| `Models.NewUser` | app/controllers/user.go:24 | A new record carries the submitted username and email and the hashed password. Bio and image are empty. |
| `Models.Lookup` | app/controllers/user.go:28-29 | A lookup by username or email returns a stored record holding that value, and it is the first such record in storage order. It returns nil iff no record holds the value. |
| `Models.Unclaimed` | app/controllers/user.go:28-29 | `Find...(value) == nil`: the registration check passes iff no stored record holds the value. There is no self-exclusion. |
| `Models.FreeFor` | app/controllers/user.go:110-111 | The lookup result is nil or carries the record's own ID: either nobody holds the value, or the first stored holder is the record itself. The username guard at user.go:116-117 is the same test. |
| `Models.FreeForIff` | app/controllers/user.go:109-118 | On a table without duplicates, the self-excluding guard finds a value free for record `id` iff every record holding it is `id` itself. |
| `Models.OwnValueIsFree` | app/controllers/user.go:109-112 | Re-submitting one's own email (or username) always passes the update guard. |
| `Models.OtherHolderCollides` | app/controllers/user.go:115-118 | A value held by a record with a different ID always fails the update guard. |
| `Store.ReplaceById` | app/controllers/user.go:77 | `Txn.Update` turns each row with the record's ID into the record and leaves every other row in place. |
| `Store.ReplaceByIdMembers` | app/controllers/user.go:77 | After an update, the table holds the untouched rows with other IDs, plus the new record iff its ID was stored. |
| `Store.InsertKeepsIdentitiesUnique` | app/controllers/user.go:28-37 | Adding a record whose username and email passed the registration check keeps usernames and emails unique. |
| `Store.UpdateKeepsUnique` | app/controllers/user.go:109-118 | Replacing a stored record keeps a field unique when the new value is either the old one or one the self-excluding guard passed. |
| `Store.UpdateKeepsIdentitiesUnique` | app/controllers/user.go:68-77 | The same argument for both identity fields of an update. |
| `Store.InsertKeepsKey` | app/controllers/user.go:37 | A record stored under a fresh ID keeps the ID a key of the table. |
| `Store.Datastore.Insert` | app/controllers/user.go:37-42 | On success the record is appended under the next ID and the counter advances. On failure nothing changes. The table invariant is kept. |
| `Store.Datastore.Update` | app/controllers/user.go:77-80 | On success the table becomes `ReplaceById` of the old one. On failure nothing changes. The table invariant is kept. |
| `Auth.IsHmac` | app/services/auth/auth.go:65 | The key function's type assertion accepts only the HMAC methods. HS256, which `NewToken` uses, passes, and `none` does not. |
| `Auth.VerifyExpiresAt` | app/services/auth/auth.go:64 | jwt-go's expiry test run by `ParseWithClaims`: a zero `exp` never expires, claims hold up to and including `exp`, and are refused after a non-zero `exp`. |
| `Auth.Authentic` | app/services/auth/auth.go:64-70 | The key function plus the library's signature check: the method is HMAC, and the signature was made with the secret over the token's own method and claims. |
| `Auth.NewClaims` | app/services/auth/auth.go:24-26 | The claims keep the given standard claims unchanged and set the user ID and username. |
| `Auth.NewJwt` | app/services/auth/auth.go:43-50 | A manager built at time `now` fixes issuer `"Conduit"` and expiry `now + 86400`. |
| `Auth.NewToken` | app/services/auth/auth.go:54-59 | The issued string parses back to an HS256 token over the manager's claims plus the subject, signed with the secret. |
| `Auth.TrimPrefix` | app/services/auth/auth.go:106 | `strings.TrimPrefix` removes one leading prefix when there is one and returns the string unchanged otherwise. |
| `Auth.GetToken` | app/services/auth/auth.go:100-108 | Fails iff the header value is empty, and then with `HeaderEmpty`. Otherwise returns the header with one leading `"Token "` removed, or the header unchanged when it lacks that prefix. |
| `Auth.ValidateToken` | app/services/auth/auth.go:63-82 | An unparsable string is `Malformed`. A non-HMAC method is `UnexpectedSigningMethod`, whatever the claims. Success happens iff the token parses, uses an HMAC method, carries the secret's signature over its own method and claims, and is unexpired. It then returns exactly the parsed claims. |
| `Auth.GetClaims` | app/services/auth/auth.go:93-99 | Passes the result of `validateToken` through unchanged. On success the claims are those of the parsed token. |
| `Auth.CheckRequest` | app/services/auth/auth.go:86-92 | An empty header gives `GetToken`'s error. Otherwise the result is `GetClaims` of `GetToken`'s result. |
| `Auth.GetTokenStripsPrefix` | app/services/auth/auth.go:106-107 | `GetToken("Token " + t) == t` for every `t`. This includes `t` that begin with `"Token "`, so at most one prefix is removed. |
| `Auth.GetTokenKeepsBareToken` | app/services/auth/auth.go:101-107 | A non-empty header without the prefix is returned as the token unchanged. |
| `Auth.IssuedTokenRoundTrip` | app/services/auth/auth.go:54-98 | With the same secret, `GetClaims(NewToken(id, name))` returns exactly `NewClaims(std, id, name)` iff the standard claims are unexpired. Otherwise it is refused as expired with a valid signature. |
| `Auth.FreshTokenAccepted` | app/services/auth/auth.go:43-59 | A token from a manager built at `t` is accepted up to `t + 86400`, with the subject it was issued for and the claims issuer `"Conduit"`, expiry `t + 86400`. |
| `Auth.StaleTokenRejected` | app/services/auth/auth.go:72-81 | After `t + 86400` the same token is refused as expired. |
| `Auth.OneManagerOneWindow` | app/services/auth/auth.go:54-55 | Every token one manager issues carries that manager's expiry and issuer, whoever it is for. |
| `Auth.ForeignMethodRejected` | app/services/auth/auth.go:64-68 | A request whose token names a non-HMAC method is refused with `UnexpectedSigningMethod`, whatever its claims and signature. |
| `Auth.TamperedTokenRejected` | app/services/auth/auth.go:64-81 | A token whose signature was made over different claims, with a different method or with a different key is refused as a bad signature. |
| `Auth.CheckRequestRoundTrip` | app/services/auth/auth.go:86-107 | The header `"Token " + NewToken(id, name)` resolves to exactly the claims issued while they are unexpired. |
| `Controllers.BindErrors` | app/controllers/user.go:21 | A body that does not bind is answered with the binder's message under `"BindJSON"` and nothing else. The same answer is given at user.go:65 and 129. |
| `Controllers.UserController.TokenFor` | app/controllers/user.go:48 | `c.JWT.NewToken(id, username)` parses back to the HS256 token over the manager's claims and that subject. The same call is made at user.go:57, 86 and 141. |
| `Controllers.Registered` | app/controllers/user.go:44-50 | The registration response carries only username, email and token. Every other field is zero. |
| `Controllers.Profile` | app/controllers/user.go:82-90 | The update and login response also carries bio and image, but no ID or password. |
| `Controllers.RegisterErrors` | app/controllers/user.go:24-31 | After `Create`'s checks, the accumulator is exactly the model's validation errors plus the taken message under `"username"` iff the username is held, plus the same under `"email"` iff the email is held. Nothing else is added, and both messages can appear together. It has errors iff it had errors before, validation failed, or either value is held. |
| `Controllers.ProfileErrors` | app/controllers/user.go:68-71 | After `Update`'s checks, the accumulator is exactly the model's validation errors plus the taken message under each key whose self-excluding guard failed, and under no other key. It has errors iff it had errors before, validation failed, or either guard failed. |
| `Controllers.OwnValueAddsNoTakenError` | app/controllers/user.go:109-118 | Re-submitting one's own email (or username) adds nothing under that key beyond what validation reported. |
| `Controllers.OwnIdentityIsNotTaken` | app/controllers/user.go:104-107 | Re-submitting both one's own username and email leaves only what validation reported. For example, an update that changes only the bio passes the guard. |
| `Controllers.LoginVerdict` | app/controllers/user.go:150-170 | Login succeeds iff the accumulator started empty, email and password are non-empty, a record has that email, and the password matches. It then returns that stored record and adds nothing. Every failure leaves an error. |
| `Controllers.LoginEmptyFields` | app/controllers/user.go:151-155 | An empty email or password yields, whatever the table holds, exactly one empty-message error per empty field and no other key. |
| `Controllers.LoginUnknownEmail` | app/controllers/user.go:157-161 | An unknown email yields exactly `{"email": [invalid]}`. The password is not checked. |
| `Controllers.LoginWrongPassword` | app/controllers/user.go:163-167 | A known email with a wrong password yields exactly `{"password": [invalid]}`. |
| `Controllers.LoginMatch` | app/controllers/user.go:157-169 | A known email with its password returns the record found by that email and no errors. |
| `Controllers.UserController.Create` | app/controllers/user.go:17-53 | A body that does not bind gets a 422 `BindJSON` error. A missing user object panics. Otherwise the accumulator becomes `RegisterErrors`. With errors the answer is 422 and the table is unchanged. A failed insert gives 500 and an unchanged table. Success appends the record under the next ID and answers 201 with a token for that ID and username. No write happens while errors exist, and uniqueness is kept. |
| `Controllers.UserController.Read` | app/controllers/user.go:55-59 | Answers the current user with a new token for its ID and username. That token parses to the issued claims. |
| `Controllers.UserController.Update` | app/controllers/user.go:61-93 | Bind errors and a missing user object are handled as in `Create`. Otherwise the filled record is checked (`ProfileErrors`). With errors the answer is 422 and the table is unchanged. A failed write ends the process. Success replaces the row and answers 200 with bio, image and a new token. Own values add no taken error, and uniqueness is kept. |
| `Controllers.UserController.CheckAlreadyTaken` | app/controllers/user.go:104-107 | Runs the username guard and then the email guard against the same record. |
| `Controllers.UserController.CheckAlreadyTakenEmail` | app/controllers/user.go:109-113 | Adds the taken message under `"email"` iff the email is not free for the record's ID. |
| `Controllers.UserController.CheckAlreadyTakenUsername` | app/controllers/user.go:115-119 | Adds the taken message under `"username"` iff the username is not free for the record's ID. |
| `Controllers.UserController.CheckValidate` | app/controllers/user.go:150-170 | Leaves the accumulator and the user exactly as `LoginVerdict` says. Returns the errors iff no user is returned. |
| `Controllers.UserController.Login` | app/controllers/user.go:121-148 | Bind errors and a missing user object are handled as in `Create`. Otherwise the answer is 422 with `checkValidate`'s errors, or 200 with the found user's profile and a new token. |

## Left out

- JSON binding (`c.Params.BindJSON`, `getBodyUser`) is an input: `Controllers.Body` is either the binder's error or the bound `user` object. A missing object is the nil pointer the Go code dereferences, so it is modelled as `Panicked`.
- Rendering and statuses: a response is `Controllers.Response`, which holds the status and the envelope's contents. Nothing renders JSON, and `http.StatusText` is only the `InternalError` case.
- `ErrorMap` and `BuildErrors` are not part of this model. Revel's `ErrorMap` keeps the first message per key, but here a 422 response carries the whole accumulator.
- `HasErrors` is read as "some key is present". A key is present only after a message is recorded under it, as in Revel's error list.
- `FindUserByUsername` and `FindUserByEmail` (`ApplicationController`) are not part of this model. They are modelled as the first record whose field equals the value exactly. Database collation and `SelectOne`'s error on several matching rows are not modelled.
- The behaviour of `models.User` (password hashing, `Validate`, `Fill`, `MatchPassword`) is supplied through `Models.UserModel`. `NewUser` is taken to copy username and email and to hash the password. The texts of `TakenMsg`, `EmptyMsg` and `InvalidMsg` are placeholders. Only the fact that the three are distinct is used.
- Controllers.UserController.Update: self-exclusion and uniqueness preservation are stated only under `Models.FillKeepsIdentity`, because `Fill` is not part of this model. That predicate says `Fill` keeps the ID and leaves each identity field as it was or as submitted. The current user is also assumed to be the stored record.
- Update mutates the current user object in place (`Fill`), and `Read` sets its `Token`. Both are modelled as new values, since the object lives only for the request.
- `revel.ERROR.Fatal` after a failed update is the `Terminated` outcome. No process is modelled. Logging (`revel.ERROR.Println`) is left out.
- Controllers.UserController.Update: on a body without a `user` object, the model panics before anything else happens, so its accumulator is unchanged. In the code the nil pointer reaches `Fill` and `Validate` first (user.go:69-70), and it is first certainly dereferenced at user.go:116, so the aborted request's accumulator may already hold `Validate`'s errors. That accumulator is never rendered.
- The interceptor that authenticates the request and loads `c.Args[currentUserKey]` is not part of this model. The current user is a parameter.
- HMAC SHA-256, base64url and JSON inside jwt-go are foreign code. They are replaced by the free signature term and by `Auth.Codec`. Registered claims other than `exp` and `iss` are not modelled, because the service never sets them.
- The signature covers the parsed method and claims, not the exact header and payload bytes. Two strings that parse to the same token are both accepted by the model; jwt-go accepts only the one whose bytes were signed, for example not a re-ordering of the JSON keys or an added ignored field.
- Expiry follows jwt-go's `StandardClaims.Valid`: a zero `exp` never expires, and a token is still accepted during the second `exp` itself.
- The `!ok || !token.Valid` branch of `validateToken` cannot be reached once parsing reports no error, so it has no separate outcome.
- The `JWT_SECRET` environment variable and `time.Now()` are parameters (`Auth.Crypto.secret`, `now`). An empty secret is not treated specially.
- The `Tokener` interface and the unused `JWT` receivers of `GetClaims`, `GetToken` and `CheckRequest` are left out. Those functions take no manager.
- Integer widths are not modelled: `UserID` is Go's `int`, `ExpiresAt` is `int64`, and both are unbounded here. `now + 86400` cannot overflow for real clocks.
- Concurrency is left out. Two registrations racing past the uniqueness check are not modelled, and each handler runs alone against the table.
- `Create` answers 500 on a failed insert, while `Update` ends the process (`revel.ERROR.Fatal`) on a failed write. The model keeps both.
- `app/models/favorite.go` has no behaviour and is left out.
