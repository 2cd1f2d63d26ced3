# School management API core, modelled in Dafny

This project models the core of a multi-tenant school-management HTTP API.
Superadmins manage schools and create school administrators. School
administrators propose student transfers between schools. The destination
school decides on each transfer.

Every manager operation resolves to a small tagged reply. That reply is a
payload, an `{error, code}` pair, or a validation failure. The order in
which an operation checks its inputs decides which error a caller sees, and
the model keeps that order.

The modules:

- `Common` (common.dfy): ids, roles, token claims, and the `Reply` shape.
- `Numerals` (decimal.dfy): digit strings, their values, and the decimal
  rendering of a natural number.
- `Store` (store.dfy):
  - the document collections, as maps in one `Database` object;
  - `findOne` as the first match in insertion order;
  - removal of the password from a returned user.
- `Tokens` (token_manager.dfy): long-lived session tokens. This covers the
  duration parser, issuing, idempotent revocation and validation.
- `Auth` (auth_manager.dfy): first-superadmin setup, login, logout and
  short-token refresh.
- `Schools` (school_manager.dfy): school create, read, partial update and
  delete, and creation of a school's administrator.
- `Transfers` (transfer_request_manager.dfy): proposing, reading, listing,
  approving and rejecting student transfers. Two invariants are kept:
  - at most one pending request per student;
  - a decided request is never written again.
- `RateLimit` (rate_limit_mw.dfy): the fixed-window rate limiter, with its
  cache as an object.
- `RoleGate` (role_mw.dfy): the role middleware. A missing token gives 401,
  and that check comes before the 403 for a wrong role.
- `Pagination` (pagination_mw.dfy): JavaScript's `parseInt`, the `||`
  defaults, the clamps and `skip`.
- `BearerToken` (token_mw.dfy): extraction of a `Bearer` token and the 401
  branches around verification.
- `Docs` (docs_manager.dfy): the OpenAPI helpers. These translate field
  models and response models, and build request bodies, security
  requirements and query parameters.

Things the program takes from outside enter as parameters:

- the clock (`now`);
- the random token string (`random`);
- the request validator's verdict (`validation: Option<Errors>`);
- the bcrypt comparison (`passwordMatches`);
- JWT signing (`signShortToken`);
- the short-token verifier (`verify`);
- a failing cache (`CacheFault`).

Ids are natural numbers that the store hands out in increasing order.
Comparing two ids therefore compares the order in which they were inserted.

## Model

| member | source | states |
|---|---|---|
| Numerals.ToDecimal | mws/__rateLimit.mw.js:15 | The window slot as the key template prints it: a non-empty decimal numeral, with no leading zero for a positive number, and one digit exactly below 10. |
| Numerals.ValueOfToDecimal | mws/__rateLimit.mw.js:15 | Reading a rendered number back gives the number. |
| Numerals.ToDecimalInjective | mws/__rateLimit.mw.js:15 | Distinct slots render to distinct strings. |
| Store.FindOneFrom | managers/entities/auth/Auth.manager.js:30 | `findOne` from a starting id: the result is a match, with no match before it, and it is None exactly when nothing from there on matches. |
| Store.FindOne | managers/entities/transferRequest/TransferRequest.manager.js:46 | `findOne` over a collection: Some exactly when a document matches, and then it is the first match. |
| Store.Sanitized | managers/entities/auth/Auth.manager.js:22 | The returned user keeps its id, names, email, role and school, and has no password field. |
| Tokens.ParseDurationOfRendered | managers/entities/token/Token.manager.js:15-19 | `<n><unit>` parses to n times 60000, 3600000 or 86400000 ms. |
| Tokens.ParseDurationFallback | managers/entities/token/Token.manager.js:18 | Any string that does not match `^\d+[mhd]$` gives one day. |
| Tokens.ParseDurationPositive | managers/entities/token/Token.manager.js:15-19 | The parsed duration is zero exactly for a well-formed duration with an all-zero count. |
| Tokens.DefaultIsThirtyDays | managers/entities/token/Token.manager.js:10 | The default `30d` is 30 days. |
| Tokens.LongTokenExpiresIn | managers/entities/token/Token.manager.js:10 | A non-empty setting is used as given. An unset or empty setting parses to 30 days. |
| Tokens.ExpiresAt | managers/entities/token/Token.manager.js:22 | The expiry is never before the issue time. It is strictly after it exactly when the parsed duration is positive. |
| Tokens.ValidateLongToken | managers/entities/token/Token.manager.js:45-51 | The token is valid exactly when stored, active and not yet expired, and then the reply is its owner. Status is checked before time. `token_expired` is given exactly for an active token past its expiry. Every other failure is `invalid_token`. |
| Tokens.RevokedLooksUnknown | managers/entities/token/Token.manager.js:47-48 | A revoked token and an unknown token get the same verdict. |
| Tokens.RevokeNeverActivates | managers/entities/token/Token.manager.js:36-43 | Revocation keeps the key set. It changes only the named token, which ends up revoked. |
| Tokens.RevokeIdempotent | managers/entities/token/Token.manager.js:39 | Revoking twice is revoking once. |
| Tokens.RevokedTokenIsInvalid | managers/entities/token/Token.manager.js:36-51 | After revocation the token never validates again. |
| Tokens.IssuedTokenValidity | managers/entities/token/Token.manager.js:21-24 | A freshly issued token validates for its owner until its expiry, and gives `token_expired` after it. |
| Tokens.TokenManager.constructor | managers/entities/token/Token.manager.js:7-13 | The manager's long-token lifetime setting is the configured one, or `30d`. |
| Tokens.TokenManager.CreateLongToken | managers/entities/token/Token.manager.js:21-24 | Stores an active token for the user that expires after the parsed duration, and returns its string. A colliding token string is refused and nothing is written. |
| Tokens.TokenManager.RevokeLongToken | managers/entities/token/Token.manager.js:36-43 | An unknown token gives `token_not_found` and no write. Otherwise the reply is success and the store becomes the revoked store. |
| Auth.RefreshShortToken | managers/entities/auth/Auth.manager.js:56-68 | Validation failures short-circuit. A token verdict is passed on unchanged. `invalid_user` is given exactly for a valid token whose owner is gone. Success happens exactly for a valid token with an existing owner, and signs for that owner. |
| Auth.RefreshAfterLogout | managers/entities/auth/Auth.manager.js:45-68 | A token revoked by logout refreshes nothing and reports `invalid_token`. |
| Auth.RefreshAfterLogin | managers/entities/auth/Auth.manager.js:36-68 | A token issued by login refreshes for its user until it expires. |
| Auth.AuthManager.SetupSuperadmin | managers/entities/auth/Auth.manager.js:14-24 | Validation comes first. Once any superadmin exists the reply is `not_found`/404 and nothing is written. Otherwise a school-less superadmin is inserted under a fresh id and returned without its password. |
| Auth.AuthManager.Login | managers/entities/auth/Auth.manager.js:26-43 | An unknown email and a wrong password give the same `invalid_credentials` and no write. A failed token creation is returned as it is. Otherwise the reply holds the new long token, a short token signed for the user, and the user without its password. |
| Auth.AuthManager.Logout | managers/entities/auth/Auth.manager.js:45-50 | After validation, the reply and the new store are exactly those of the revocation. |
| Schools.GetSchool | managers/entities/school/School.manager.js:26-44 | The school is found exactly when its id is stored. Otherwise the reply is `school_not_found`/404. Soft deletion is not looked at. |
| Schools.ApplyPatch | managers/entities/school/School.manager.js:53-61 | Every supplied field is written with the supplied value, and every omitted field keeps its value. `createdBy` and `deletedAt` are never touched. |
| Schools.EmptyPatchIsIdentity | managers/entities/school/School.manager.js:53-61 | A patch that supplies nothing changes nothing. |
| Schools.ApplyPatchIdempotent | managers/entities/school/School.manager.js:53-61 | Applying the same patch twice equals applying it once. |
| Schools.ApplyPatchCompose | managers/entities/school/School.manager.js:53-61 | Two updates in a row equal one update with the merged patch, where the later field wins. |
| Schools.ApplyPatchTouchesOnlySupplied | managers/entities/school/School.manager.js:53-61 | A supplied field takes the supplied value, and a field changes only if the patch supplies it. |
| Schools.SchoolManager.CreateSchool | managers/entities/school/School.manager.js:32-38 | A validation error writes nothing. Otherwise the school is stored under a fresh id, with `maxCapacity` defaulting to 0 and `createdBy` set to the caller. |
| Schools.SchoolManager.UpdateSchool | managers/entities/school/School.manager.js:46-63 | Existence is checked before validation, and neither error writes. Otherwise exactly the patched record replaces the old one. |
| Schools.SchoolManager.DeleteSchool | managers/entities/school/School.manager.js:65-71 | An unknown id gives 404 and no write. Otherwise the record is removed and nothing else changes. |
| Schools.SchoolManager.CreateSchoolAdmin | managers/entities/school/School.manager.js:73-83 | Existence is checked before validation, and neither error writes. Otherwise a `schoolAdmin` of that school is inserted and returned without its password. |
| Transfers.LookupRequest | managers/entities/transferRequest/TransferRequest.manager.js:26-30 | The request is found exactly when its id is stored. Otherwise the reply is `transfer_request_not_found`/404. |
| Transfers.GetTransferRequest | managers/entities/transferRequest/TransferRequest.manager.js:86-98 | 404 comes before 403. A school admin of neither school is forbidden. Success happens exactly for a stored request the caller may see. |
| Transfers.ListTransferRequests | managers/entities/transferRequest/TransferRequest.manager.js:73-84 | The listed ids are exactly the stored requests the caller may see, the total is their number, and page and limit are echoed back. A superadmin sees everything. |
| Transfers.ListingAgreesWithGet | managers/entities/transferRequest/TransferRequest.manager.js:73-98 | A request is listed exactly when it can be fetched. |
| Transfers.TakeSnapshot | managers/entities/transferRequest/TransferRequest.manager.js:49-59 | The snapshot copies the student's names, email and number. It records a classroom name only when the classroom exists and its name is non-empty. |
| Transfers.DecisionGuard | managers/entities/transferRequest/TransferRequest.manager.js:104-110 | The decision may proceed exactly when the caller may decide for the destination and the request is pending. `forbidden` comes before `transfer_request_not_pending`. |
| Transfers.SourceAdminCannotDecide | managers/entities/transferRequest/TransferRequest.manager.js:104-106 | The admin of the source school can never decide a transfer to another school. |
| Transfers.Decided | managers/entities/transferRequest/TransferRequest.manager.js:117-121 | A decision sets the status, the responder and the time, and keeps every other field, the snapshot included. |
| Transfers.DecidingKeepsInvariants | managers/entities/transferRequest/TransferRequest.manager.js:100-143 | Deciding a pending request keeps at most one pending request per student and leaves decided requests alone. |
| Transfers.ProposingKeepsInvariants | managers/entities/transferRequest/TransferRequest.manager.js:46-69 | Adding a pending request for a student with none keeps both invariants. |
| Transfers.TransferRequestManager.CreateTransferRequest | managers/entities/transferRequest/TransferRequest.manager.js:32-71 | The checks run in this order: `student_not_found`, `forbidden`, `school_not_found`, validation (a `ValidationError` with the validator's errors), `transfer_request_already_pending`. The last is given exactly when a pending request exists. No error writes. The request is stored exactly when every check passes. Success stores one pending request with the snapshot, and the invariants are kept.
| Transfers.TransferRequestManager.ApproveTransferRequest | managers/entities/transferRequest/TransferRequest.manager.js:100-123 | Errors change nothing. Success moves the student, if still stored, to the destination school and classroom, and marks the request approved by the caller. The invariants are kept. |
| Transfers.TransferRequestManager.RejectTransferRequest | managers/entities/transferRequest/TransferRequest.manager.js:125-143 | The same guard as approval. Success marks only the request, as rejected by the caller. |
| RateLimit.WindowMs | mws/__rateLimit.mw.js:9 | A window is at least one second long in milliseconds. |
| RateLimit.Quotient | mws/__rateLimit.mw.js:11-12 | `Math.floor(n / d)` is the unique q with q·d ≤ n < (q+1)·d. |
| RateLimit.ResetTimeBounds | mws/__rateLimit.mw.js:12 | The reset time is the end of the current window. It is strictly after now and at most one window away. |
| RateLimit.SlotMonotone | mws/__rateLimit.mw.js:11 | The window slot never decreases as time moves on. |
| RateLimit.Identifier | mws/__rateLimit.mw.js:14 | The key names the user id when that is non-empty, else the ip, else `undefined`. |
| RateLimit.CacheKeySeparatesSlots | mws/__rateLimit.mw.js:15 | Each window slot of one identity and action has its own counter. |
| RateLimit.Remaining | mws/__rateLimit.mw.js:25 | The remaining count is max − count, floored at 0, and never above max. |
| RateLimit.Handle | mws/__rateLimit.mw.js:1-41 | Without a config the request passes and the cache is untouched. A throwing increment lets the request pass. Otherwise the counter for the slot's key goes up by one. The first call sets the key's expiry to window + 1, unless expiring throws, in which case the request passes with no headers. The headers are limit, remaining and reset. A count above max gives 429. |
| RateLimit.AdmittedCount | mws/__rateLimit.mw.js:18-34 | Of n calls on a counter at `start`, exactly min(n, max − start) pass, or none once the counter is at max. |
| RateLimit.ExactlyMaxPerWindow | mws/__rateLimit.mw.js:18-34 | In one window, one identity gets exactly min(n, max) of n calls through. |
| RateLimit.HandleBurst | mws/__rateLimit.mw.js:11-34 | Calls `Handle` once per request time, all in one window slot, on a healthy cache. The number let through is `Admitted` of the key's starting count. The counter grows by the number of calls. On a fresh key exactly min(n, max) pass. |
| RoleGate.Gate | mws/__role.mw.js:5-17 | With no list the request passes with no value. With a list, 401 is given exactly when there is no token, 403 exactly when there is a token whose role is not listed, and otherwise `next` gets the caller's own role. |
| RoleGate.UnauthorizedBeforeForbidden | mws/__role.mw.js:8-15 | With any role list, an empty one included, an anonymous call gets 401, never 403. |
| RoleGate.EmptyListAdmitsNobody | mws/__role.mw.js:6-15 | An empty role list admits nobody. |
| RoleGate.WideningKeepsAdmitted | mws/__role.mw.js:13-17 | Adding roles to a list never turns an admitted caller away. |
| RoleGate.ListedRoleAdmitted | mws/__role.mw.js:13-17 | A token whose role is in the list is admitted, and `next` gets that role. |
| RoleGate.RolelessTokenForbidden | mws/__role.mw.js:13-15 | A token without a role gets 403 from every role list. |
| Pagination.TrimStart | mws/__pagination.mw.js:7-8 | `parseInt` skips exactly the leading ECMAScript white space. |
| Pagination.DigitPrefixLength | mws/__pagination.mw.js:7-8 | `parseInt` reads the longest prefix of digits in the radix. |
| Pagination.Normalise | mws/__pagination.mw.js:1-11 | page ≥ 1 and limit ≤ 100. A missing, zero or unparseable page is 1, and a missing, zero or unparseable limit is 20. skip = (page − 1) · limit. |
| Pagination.ParseIntOfDecimal | mws/__pagination.mw.js:7-8 | `parseInt(String(n)) === n`. |
| Pagination.ParseIntOfNegative | mws/__pagination.mw.js:8 | `parseInt('-' + String(n)) === -n`. |
| Pagination.WellFormedQuery | mws/__pagination.mw.js:7-11 | A positive page and a limit from 1 to 100 are taken as given, and skip counts the rows of all earlier pages. |
| Pagination.Defaults | mws/__pagination.mw.js:1-11 | No parameters give page 1, limit 20 and skip 0. |
| Pagination.LimitCapped | mws/__pagination.mw.js:8 | A limit above 100 becomes 100. |
| Pagination.NegativeLimitPassesThrough | mws/__pagination.mw.js:8-9 | A negative limit is kept, and beyond page 1 skip is negative. |
| Pagination.FirstPageSkipsNothing | mws/__pagination.mw.js:9 | Page 1 skips nothing, whatever the limit. |
| BearerToken.ExtractToken | mws/__token.mw.js:3-4 | A token exists exactly when the header starts with `Bearer `, and it is the rest of the header. |
| BearerToken.Authenticate | mws/__token.mw.js:1-23 | `next` receives the decoded claims exactly when there is a non-empty token and verification returns claims. Every other case is 401 `unauthorized`. |
| BearerToken.ExtractRendered | mws/__token.mw.js:4 | The header `Bearer t` yields exactly t. |
| BearerToken.BareSchemeRefused | mws/__token.mw.js:4-8 | A header of just `Bearer ` is refused, whatever verification would say. |
| BearerToken.OtherSchemeRefused | mws/__token.mw.js:4-8 | A lower-case `bearer` or a `Basic` header is refused. |
| BearerToken.VerifiedTokenPasses | mws/__token.mw.js:10-21 | A verified token hands on exactly the decoded claims. |
| BearerToken.MissingVerifierRefusesAll | mws/__token.mw.js:10-19 | With the verifier the token manager actually provides, which is none, every request gets 401 `unauthorized`, whatever its header. |
| Docs.ToLowerNormalises | managers/docs/Docs.manager.js:32 | After lower-casing no upper-case ASCII letter is left, every other character is kept, and lower-casing again changes nothing. |
| Docs.OutputType | managers/docs/Docs.manager.js:35-46 | The output type is one of the five supported types. An unknown input type becomes `string`. |
| Docs.ModelToProperty | managers/docs/Docs.manager.js:29-66 | The rules, in order: <ul><li>A missing model gives `{type:'string'}`.</li><li>Otherwise the output has a supported type, and array items are translated recursively, defaulting to string.</li><li>A non-zero numeric length sets only the maximum, and a bounds object sets exactly the bounds it gives.</li><li>`pattern` is the regex source and `enum` the `oneOf` list when present. `description` is copied exactly when it is non-empty.</li><li>The example follows the type, with `object` falling back to `'string'`.</li><li>The result is well formed all the way down.</li></ul> |
| Docs.ResFieldToProperty | managers/docs/Docs.manager.js:69-93 | A model reference translates like a field model. An inline type gives exactly `{type}` with its lower-cased name. An inline `array` gives exactly `{type:'array', items}`, its items translated recursively, defaulting to `{type:'string'}`. A nested model gives exactly `{type:'object', properties}`, with one property per key, in key order.
| Docs.ResFieldWellShaped | managers/docs/Docs.manager.js:69-93 | Every translated response field, at any depth of nesting, has `items` exactly when its type is `array`. |
| Docs.BuildDataSchema | managers/docs/Docs.manager.js:96-106 | A missing response model gives `{type:'object'}`. Otherwise the response model is read as a nested object. |
| Docs.BuildRequestBody | managers/docs/Docs.manager.js:108-134 | No schema list gives null. Otherwise the properties and the required list are those the field list builds, and `required` is omitted when it would be empty. |
| Docs.PropertiesOfKeys | managers/docs/Docs.manager.js:115-120 | The body has a property for exactly the names of the listed fields. |
| Docs.RequiredOfNames | managers/docs/Docs.manager.js:119 | The required list names exactly the required fields. |
| Docs.RequiredAreProperties | managers/docs/Docs.manager.js:115-129 | Every required name is also a property. |
| Docs.GetSecurityReqs | managers/docs/Docs.manager.js:136-146 | The requirements are the schemes of the stack with repetitions dropped. |
| Docs.DedupDistinct | managers/docs/Docs.manager.js:140-143 | No scheme is required twice. |
| Docs.DedupElements | managers/docs/Docs.manager.js:138-145 | The stack's schemes are required, and nothing else. |
| Docs.DedupPrefixStable | managers/docs/Docs.manager.js:138-145 | Schemes keep the order of their first occurrence, and later middlewares only append. |
| Docs.SchemesOfElements | managers/docs/Docs.manager.js:139-140 | Only middlewares in the authentication table contribute a scheme. |
| Docs.BearerAuthOnce | managers/docs/Docs.manager.js:4-7 | A stack with `__token` or `__shortToken` requires `bearerAuth` once. Any other stack requires nothing. |
| Docs.BuildQueryParams | managers/docs/Docs.manager.js:148-175 | The middlewares' parameters come in stack order, then one parameter per schema field, if there is a schema list. |
| Docs.FieldParamsOfShape | managers/docs/Docs.manager.js:162-171 | Each field gives one parameter, in order, with its name, `required` defaulting to false, and its schema. |
| Docs.MiddlewareParamsOfShape | managers/docs/Docs.manager.js:152-157 | Middlewares only contribute middleware parameters. |
| Docs.QueryParamsOrder | managers/docs/Docs.manager.js:148-175 | Middleware parameters come before every schema parameter. |
| Docs.PaginationDocumented | managers/docs/Docs.manager.js:9-14 | A stack with `__pagination` documents `page` and `limit`, with the defaults and the maximum the pagination middleware applies. |

## Findings

| source | as written | input that shows it | evidently intended | confidence | as-written member | corrected member |
|---|---|---|---|---|---|---|
| mws/__token.mw.js:11 | Calls `managers.token.verifyShortToken`, which the token manager (managers/entities/token/Token.manager.js:5-53) does not define. The resulting `TypeError` is caught at lines 16-18 and answered with 401. | Any request with `Authorization: Bearer <t>` and a non-empty `t`, including a freshly signed short token. | Verify the short token and pass its claims to `next`, as the token manager's tests expect of `verifyShortToken`. | high; not executed | BearerToken.MissingVerifierRefusesAll | BearerToken.VerifiedTokenPasses |

## Left out

- `Auth.me` delegates to the user manager's `getUser`. The user manager is not part of this model.
- JWT signing is a foreign call. `createShortToken` becomes the `signShortToken` parameter. Its `jti` and its lifetime setting are not modelled.
  - The parameter takes only the user id, as the source does. `createShortToken` signs `{userId, jti}` and drops the `role` that login and refresh pass to it (managers/entities/auth/Auth.manager.js:39 and 66).
  - A decoded short token therefore carries no role. RoleGate.Gate answers it with 403 on every role-gated function (RoleGate.RolelessTokenForbidden).
- Short-token verification enters as the `verify` parameter. The token manager defines no `verifyShortToken`, so the middleware as written refuses every request; see "## Findings".
- bcrypt is a foreign call and becomes the `passwordMatches` parameter. The pre-save hashing hook is not modelled, so the stored password is whatever the store holds.
- `crypto.randomBytes` is not modelled. The token string is the `random` parameter.
- Tokens.TokenManager.CreateLongToken models a clash with a stored token string as an `Error("duplicate_key")` reply that writes nothing. The source relies on the unique index, which throws instead.
- The unique indexes on user email and on school name and code are not modelled. Neither are the Mongoose field validators (lengths, upper-casing of the school code) or the timestamps. These are schema declarations, not manager logic.
- Schools.ApplyPatch takes each field as supplied or absent. A field sent as `null` is written as `null` by the source, whose update runs no schema validators. That case is not modelled.
- Ids are natural numbers. Casting a malformed id string, which makes `findById` throw, is not modelled.
- Schools carry a `deletedAt` field, because the transfer workflow tests it (`toSchool.deletedAt`). The school's Mongoose schema declares no such field, so in the deployed system that test never fires.
- Transfers.ListTransferRequests returns the set of visible ids and their count, not the page of documents that `skip` and `limit` select. The order in which `find` returns documents is not specified by the source.
- Concurrency is not modelled. Each call is one sequential step. This covers the window between the pending check and the insert, and the atomicity of the cache increment.
- RateLimit.Handle takes the window as a positive whole number of seconds. Other windows are not modelled:
  - With a zero window the slot is `Infinity` and the reset time `NaN`.
  - A negative window gives negative slots.
  - A fractional window asks the cache to expire a key after a fractional number of seconds. If that call throws, the first request of every slot is let through.
- The rate limiter's headers are returned as values. `res.set` and console logging are not modelled.
- RoleGate.Gate models token roles as the two roles of the system. A decoded token carrying some other role string is not represented.
- Tokens.ParseDuration and Tokens.ExpiresAt use unbounded integers. In the source, an expiry beyond the range of a JavaScript `Date` (±8.64e15 ms, below 2^53) is an invalid date. Storing the long token is then rejected, so `createLongToken` and `login` fail. The model issues the token regardless, and it never reaches the rounding above 2^53 either.
- Pagination.Normalise uses unbounded integers. The rounding of JavaScript numbers above 2^53 and array-valued query parameters (`?page=1&page=2`) are not modelled.
- Docs.ResFieldToProperty and Docs.ToLowerNormalises lower-case ASCII letters only. `toLowerCase` also maps non-ASCII letters, so an inline type such as `ÄRRAY` keeps its `Ä` in the model. In Docs.ModelToProperty this makes no difference, because only the five ASCII type names survive there.
- Docs.ModelToProperty models the `regex` by its source string. A `length` that is neither a number nor an object is not modelled.
- Docs.BuildRequestBody holds the properties as a map, so the key order of the JSON object is not modelled. Later fields overwrite earlier ones of the same name, as in the source.
- Docs.ResFieldToProperty does not model a response field whose `model` or `type` key is present but falsy. It also does not model a nested response model with a key named `model` or `type`. The source reads such a key as a reference or an inline type, which gives `{type:'string'}` for an object under `model` and throws on `toLowerCase` for an object under `type`. The model treats it as an ordinary nested key.
- Docs.GetSecurityReqs looks up middleware names only among the table's own keys. Names inherited from `Object.prototype` (such as `constructor`) are not modelled.
- `DocsManager._generate`, `_loadSchemas` and the constructor are not modelled. They read files and assemble the document from configuration.
- The Student and Classroom managers have empty method bodies, so they are not part of this model. The same goes for the id-sequence counter and the audit log, whose write is fire-and-forget with swallowed errors.
- The HTTP server and the validator loader are not modelled. A validator's result enters as `Option<Errors>`.
