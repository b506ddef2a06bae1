# Verified model of the dashboard e-commerce backend's authentication core

The server (`server/index.js`) is an Express application over a MongoDB
`users` collection. Three pieces of it make decisions worth stating precisely,
and this project models them as pure Dafny functions and proves what they do:

- **The `verifyToken` middleware** (`server/index.js:138-157`) is a fail-fast
  gate on the `Authorization` header. It checks, in order:
  1. that the header is present and non-empty;
  2. that `split(' ')` gives exactly two fields, the first being `Bearer`;
  3. that the second field verifies as a token.

  The format check differs from the `Authorization: Bearer <token>` field of
  section 2.1 of RFC 6750 (`"Bearer" 1*SP b64token`) in both directions. It is
  stricter on spacing and case: exactly one space, and the scheme name must be
  `Bearer` with that capitalisation. It is looser on the token: the token may
  be empty (`Bearer ` passes) and may hold any non-space character, not only
  the b64token alphabet (`Bearer a,b` passes). The gate stands
  only in front of `DELETE /product/:id` and `GET /search/:key`.
- **`POST /register`** (`server/index.js:18-44`) first checks for an existing
  record with the email. It then either refuses with 400, or stores the body
  and replies with the stored record minus its password, plus a signed token.
- **`POST /login`** (`server/index.js:46-68`) demands a truthy email and
  password. It looks the email up with the password projected away, and signs
  the record it finds.

Modules:

| module | file | contents |
|---|---|---|
| `Wrappers` | `wrappers.dfy` | `Option` |
| `JsString` | `js_string.dfy` | JavaScript `split` on a one-character separator (empty fields kept), `join`, and their round trip |
| `Users` | `users.dfy` | `User {name, email, password}` as in `server/schema/schema.js:2-12`, the password-free `Profile`, first-match lookup by email |
| `Http` | `http.dfy` | reply bodies and status codes; JavaScript truthiness of optional strings |
| `Auth` | `auth.dfy` | the bearer-header gate, its 401 replies, which routes it guards |
| `Accounts` | `accounts.dfy` | register and login as steps `(collection, request) -> (collection, reply)` |

Behaviour of the code worth knowing:

- **Login never compares the password.** Any non-empty password signs in a
  known email, and a wrong password is not refused
  (`Accounts.LoginIgnoresPassword`, `Accounts.RegisterThenLogin`).
- A signing failure at login replies 401 "Something is wrong". At registration
  it replies 500, and by then the record is already stored.
- The store is modelled as a sequence in insertion order, and `findOne` as
  returning the first record with the email in that order. MongoDB returns the
  first match in natural order, which is not guaranteed to be insertion order;
  taking them to be the same is an assumption of the model, and it only
  matters when two records share an email.

JWT signing and verification are oracles, passed in as function-typed
parameters:

- `sign: Claims -> Option<string>`, where `None` is the callback's `err`;
- `verifyOk: string -> bool`, which covers both signature and expiry.

A database call that throws is a `StoreFault` (`LookupFails` or `SaveFails`)
chosen by the environment. It leads to the handler's catch-all 500
"Server error".

## Model

| member | source | states |
|---|---|---|
| `JsString.Split` | server/index.js:145 | `split(' ')` returns at least one field. No field contains the separator. Joining the fields with the separator gives back the header exactly, so empty fields are kept. |
| `JsString.SplitJoin` | server/index.js:145 | Splitting the join of separator-free fields gives back those fields. Split and join are inverse. |
| `JsString.SplitFieldCount` | server/index.js:145-146 | `split` returns one more field than there are separators. "Exactly two parts" therefore means exactly one space. |
| `Auth.BearerShape` | server/index.js:145-146 | The split the format check accepts (two fields, first exactly `Bearer`) is exactly a header `Bearer ` + a token with no space. In that case the split is `[Bearer, token]`. |
| `Auth.BearerToken` | server/index.js:145-150 | The format check succeeds iff the header is `Bearer`, one space, and a space-free token. The value passed on (`tokenParts[1]`) is everything after that first space. |
| `Auth.Guard` | server/index.js:138-157 | The outcome is Missing iff the header is absent or empty. Malformed iff present but not a bearer credential. Invalid iff well-formed but the oracle rejects the token. Pass iff all three checks pass. Each check matters only once the earlier ones pass. |
| `Auth.Rejection` | server/index.js:141-154 | Every failed check replies 401 with a `result` message. The message is specific to the check. |
| `Auth.GuardConsultsOnlyToken` | server/index.js:150-151 | The oracle is consulted only on `tokenParts[1]`, and only after the presence and format checks pass. Two oracles that agree on that token, or any two oracles when an earlier check fails, give the same outcome. |
| `Auth.EmptyHeaderMissing` | server/index.js:139-143 | An empty header value is falsy and is treated as a missing token. |
| `Auth.DoubleSpaceMalformed` | server/index.js:145-148 | `Bearer  x` (two spaces) fails the format check. |
| `Auth.LowerCaseSchemeMalformed` | server/index.js:146-148 | `bearer x` fails the format check, because the scheme comparison is case-sensitive. |
| `Auth.EmptyTokenReachesVerify` | server/index.js:145-151 | `Bearer ` passes the format check and hands the empty string to verification. |
| `Auth.Admit` | server/index.js:91-122 | A request reaches its handler iff one of two things holds: its route is not guarded, or the header is present, well-formed and verifies. Only product delete and search are guarded. A refused request gets the gate's 401 for the first failed check. |
| `Auth.UnauthenticatedDeleteRefused` | server/index.js:91 | `DELETE /product/:id` without an `Authorization` header is refused with 401 "Please add a token with the header". The delete handler does not run. |
| `Users.FirstWithEmail` | server/index.js:21 | The lookup finds nothing iff no record has the email. Otherwise it returns the position of the first record with that email. |
| `Users.Lookup` | server/index.js:49 | The lookup finds a profile iff some record has the email. The profile carries that email and is the password-free projection of a stored record. |
| `Users.LookupAfterAppend` | server/index.js:21-30 | Appending a record does not change the match for an email that was already present. For an email not present before, the match becomes the new record. For any other email, nothing is present. |
| `Users.LookupUnique` | server/index.js:21-30 | When emails are unique, looking up a record's email finds that record's profile. |
| `Accounts.Register` | server/index.js:18-44 | A known email gets 400 "User already signed up" and the collection is unchanged. A fresh email with a healthy store appends exactly the request body and changes nothing else. The reply is then 200 with the body minus its password and the token, or 500 "Error creating token" with the record still stored. A throwing database call gives 500 "Server error" and stores nothing. |
| `Accounts.Login` | server/index.js:46-68 | Login never changes the collection. A falsy email or password gives 400. A throwing lookup gives 500. An unknown email gives 401. Otherwise the reply is 200 with the first matching record's password-free profile and a token over `{ user }`, or 401 if signing fails. |
| `Accounts.RegisterPreservesUniqueEmails` | server/index.js:20-30 | Without concurrent requests, registration keeps emails unique across the collection. |
| `Accounts.RegisterTwiceRefused` | server/index.js:21-26 | Once a registration has gone through the store, a second one with the same email gets 400 and adds no record. This holds whatever the second name and password are. |
| `Accounts.RegisterThenLogin` | server/index.js:29-56 | After a fresh registration, login with that email and any non-empty password signs in as the stored record's profile. |
| `Accounts.LoginIgnoresPassword` | server/index.js:48-56 | Login's reply is the same for every non-empty password. The password is checked for presence only. |
| `Accounts.LoginMissingFieldSkipsLookup` | server/index.js:48-62 | With a falsy email or password, login replies 400 without consulting the store, the fault or the signer. |

## Left out

- Express wiring, `cors`, JSON body parsing, `app.listen` and the Mongo connection (`server/index.js:1-14`, `159-161`). These are I/O plumbing.
- JWT internals: the secret `myEcomSite`, the `2h` expiry and the token format. These belong to the `jsonwebtoken` library, which is not part of this model. Signing and verification are oracles, so "a token verifies until it expires" is the oracle's concern and is not proved here.
- The product handlers: add, list, get, update, delete bodies and the `$regex` search (`server/index.js:70-136`). They delegate to the store. `productModel` is never imported, so their bodies would throw into their 500 branch. Only whether the gate lets a request through to them is modelled.
- The Mongoose schema machinery (`server/schema/schema.js`). Only its field list is used. Type casting and validation failures on save count as `SaveFails`.
- Store-generated fields `_id` and `__v`. These appear in the real sanitized record and user object, but the `Profile` here holds only `name` and `email`.
- Accounts.Login: the `email` and `password` request fields are modelled as optional strings, truthy when present and non-empty. Other JSON values are not modelled: `0` and `false` (falsy, 400), `true`, numbers, arrays and objects (truthy). A query-operator object such as `{"$ne": null}` as the email would make `findOne` match a record without naming any email; that path is not modelled.
- Accounts.Register: the request body is a complete `User` with three string fields. Absent fields, and how Mongoose treats a filter with an undefined `email`, are not modelled.
- The duplicate-email race between `findOne` and `save` under concurrent requests. Requests here are processed one at a time.
- `console.error` logging in the catch blocks.
