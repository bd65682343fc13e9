# Service-credential admission for the forms configuration API

This project models the two checks that decide who a request to the forms
configuration API is acting as:

- the `validate` callback of the `jwt-service` authentication strategy
  (`validateServiceCredentials`). It runs after the JWT library has checked the
  token's signature and its `nbf`/`exp` claims. It rejects a request whose
  decoded payload is missing, and one whose payload lacks a truthy `serviceId`
  or `serviceName`. Each rejection logs one tagged line, `[authMissingPayload]`
  or `[authMissingFields]`. Otherwise it admits the request with credentials
  `{ user: { id: serviceId, displayName: serviceName }, scope: defaultScopes }`;
- `getAuthor`, which turns `request.auth.credentials.user` into the
  `{ id, displayName }` author record stamped on form metadata. It throws
  `401 Unauthorized` when the user is missing or when its `id` or
  `displayName` is falsy.

Modules:

- `Js` (`js.dfy`): the JSON values that token payloads and credentials are made
  of. An expression that may be `undefined` has type `Option<Value>`. `Get` is
  the property read `x?.key`. `Falsy`/`Truthy` follow JavaScript's `!x`, so
  `undefined`, `null`, `false`, `0` and `""` are falsy.
- `ServiceAuth` (`service_auth.dfy`): the validator. Its result is
  `Valid(credentials) | Invalid(reason)`. It also holds the log line of each
  reason (the source's text, proved to be the bracketed code followed by the
  detail), the `{ isValid, credentials? }` object handed to the framework, and
  a reader that recovers the reason code from a log line. The source has no
  such reader; it checks the log format.
- `Authors` (`get_author.dfy`): `getAuthor`,
  with the thrown error as the `Unauthorized(message)` variant.
- `AuthPipeline` (`auth_pipeline.dfy`): the gate followed by `getAuthor`.

`getDefaultScopes()` is defined in a module that is not part of this model. It
is a parameter `defaultScopes` of the validator, so every property holds
whatever scope list it returns. Logging is not an effect here: the reason is
part of the result, and `Logged` gives the lines the call writes.

## Model

| member | source | states |
|---|---|---|
| `ServiceAuth.ValidateServiceCredentials` | src/plugins/auth/index.js:16-47 | Admits exactly when the payload is truthy and both `serviceId` and `serviceName` are truthy. A falsy payload is rejected with `MissingPayload` and never with `MissingFields`. A truthy payload missing either field is rejected with `MissingFields`. When admitted, `user.id` is the payload's `serviceId`, `user.displayName` its `serviceName`, and `scope` is the default scope list, unchanged. |
| `Js.Falsy` | src/plugins/auth/index.js:19-28 | The `!x` tests in the source: a JSON value read as `x` is falsy exactly when it is `undefined`, `null`, `false`, `0` or `""`. The same test is used at src/helpers/get-author.js:9. |
| `Js.Get` | src/plugins/auth/index.js:26 | A property read (`x?.key`, or destructuring of a truthy payload) yields `undefined` for `undefined` and `null`. It yields a value exactly when `x` is an object with that own key, and the value is that key's value. |
| `ServiceAuth.User.ToValue` | src/plugins/auth/index.js:40-43 | The `user` object has exactly the keys `id` and `displayName`, holding the user's id and display name. |
| `ServiceAuth.Credentials.ToValue` | src/plugins/auth/index.js:39-45 | The `credentials` object has exactly the keys `user` and `scope`. `user` holds the user object, and `scope` holds the scope array. |
| `ServiceAuth.Logged` | src/plugins/auth/index.js:19-33 | An admission logs nothing. A rejection logs exactly one line, `LogMessage` of its reason, whose bracketed tag is that reason's code and maps back to that reason. |
| `ServiceAuth.Response` | src/plugins/auth/index.js:21-45 | The returned object always has `isValid`, equal to whether the request was admitted, and has `credentials` if and only if it was admitted. A rejection returns exactly `{ isValid: false }`. An admission returns exactly the keys `isValid` and `credentials`, and `credentials` is the object built from the credentials. |
| `ServiceAuth.ScopeValues` | src/plugins/auth/index.js:44 | The `scope` array holds the default scopes as strings, in the same order and with the same length. |
| `ServiceAuth.Code` | src/plugins/auth/index.js:20-29 | Each reason's code contains no `]`, and reading the code back gives exactly that reason, so the two rejections log different codes. |
| `ServiceAuth.LogMessage` | src/plugins/auth/index.js:20-29 | The value is the source's log text for that reason, character for character (lines 20 and 29). It is proved equal to `[` + code + `]` + detail, and its opening tag reads back as the reason's code. |
| `ServiceAuth.UpToCloseOf` | src/plugins/auth/index.js:20-29 | Reading a log line up to its first `]` returns the code when the code contains no `]`. This is the induction behind the tag property. |
| `ServiceAuth.TagOfTagged` | src/plugins/auth/index.js:20-29 | A line of the form `[` + tag + `]` + rest, where the tag contains no `]`, opens with exactly that tag. |
| `ServiceAuth.MissingPayloadRejected` | src/plugins/auth/index.js:17-24 | An `undefined` or `null` payload is rejected with `MissingPayload`. The response is exactly `{ isValid: false }`, and the one logged line is the `authMissingPayload` line. |
| `ServiceAuth.MissingServiceIdRejected` | src/plugins/auth/index.js:26-33 | A payload with only `serviceName` is rejected with `MissingFields`, and the one logged line is the `authMissingFields` line. |
| `ServiceAuth.MissingServiceNameRejected` | src/plugins/auth/index.js:26-33 | A payload with only `serviceId` is rejected with `MissingFields`. |
| `ServiceAuth.EmptyFieldLikeAbsent` | src/plugins/auth/index.js:28-33 | Setting `serviceId` or `serviceName` to `""` or to `null` has the same outcome as removing it: rejection with `MissingFields`, whatever else the payload holds. |
| `ServiceAuth.StringClaims` | src/plugins/auth/index.js:26-46 | A payload with string claims, whatever its other claims, is admitted if and only if both strings are non-empty. The credentials are then exactly `{ user: { id, displayName: name }, scope: defaultScopes }`. Otherwise the reason is `MissingFields`. |
| `ServiceAuth.AdmittedResponse` | src/plugins/auth/index.js:37-46 | A payload with the two claims as non-empty strings yields exactly `{ isValid: true, credentials: { user: { id, displayName }, scope } }`, with the default scopes in order and no other keys. |
| `ServiceAuth.ScopeIndependentOfPayload` | src/plugins/auth/index.js:35-44 | Any two admitted payloads receive the same scope: the default list in its own order. No configuration flag is consulted. |
| `ServiceAuth.OnlyIdentityClaimsMatter` | src/plugins/auth/index.js:19-28 | Two payloads with the same truthiness, `serviceId` and `serviceName` get the same outcome. |
| `Authors.GetAuthor` | src/helpers/get-author.js:8-17 | Succeeds exactly when `user?.id` and `user.displayName` are both truthy. On failure the error carries the fixed unauthorized message. On success the author's `id` and `displayName` are the user's own. |
| `Authors.Author.ToValue` | src/helpers/get-author.js:13-16 | The returned author object has exactly the keys `id` and `displayName`, holding the author's id and display name. |
| `Authors.MissingUserUnauthorized` | src/helpers/get-author.js:9-10 | `getAuthor(undefined)` and `getAuthor(null)` are unauthorized. |
| `Authors.MissingIdUnauthorized` | src/helpers/get-author.js:9-10 | A user whose `id` is absent or `""` is unauthorized, whatever its other fields. |
| `Authors.MissingDisplayNameUnauthorized` | src/helpers/get-author.js:9-10 | A user whose `displayName` is absent or `""` is unauthorized, whatever its other fields. |
| `Authors.AuthorKeepsIdentityOnly` | src/helpers/get-author.js:13-16 | A user with non-empty string `id` and `displayName` yields an author with exactly those values. The author object has only the keys `id` and `displayName`, so other fields such as `scope` are dropped. |
| `Authors.OnlyIdentityFieldsMatter` | src/helpers/get-author.js:9-16 | Two users that agree on `id` and `displayName` get the same result. |
| `Authors.GetAuthorIdempotent` | src/helpers/get-author.js:9-16 | Passing a returned author back to `getAuthor` returns the same author. |
| `AuthPipeline.AdmittedServiceIsAuthor` | src/helpers/get-author.js:9-16 | Combined with the validator (src/plugins/auth/index.js:28-43): `getAuthor` of the response's `credentials.user` succeeds if and only if the gate admitted the request. It then returns `{ id: serviceId, displayName: serviceName }`. |

## Left out

- Signature and time-claim verification (HS256, `nbf`, `exp`) is done by the
  `@hapi/jwt` library, a foreign call with cryptography. Only the decoded
  payload that reaches the validator is modelled.
- `auth.plugin.register` (src/plugins/auth/index.js:52-74) is framework wiring:
  it registers the JWT plugin, the strategy and the default strategy.
- `getDefaultScopes` lives in src/api/entitlements/service.js, which is not
  part of this model. It is a parameter of the validator.
- The logger is not modelled as an effect. The logged line is computed by
  `LogMessage` from the reason in the result.
- JavaScript values that JSON cannot carry are not modelled: `NaN`, `BigInt`,
  functions, and properties found through the prototype chain. Neither is a
  string's or an array's own `length` property; no modelled code reads it.
  JSON numbers are modelled as exact reals, with no floating-point rounding.
- The `Boom` error object is reduced to its message. Its status code (401) and
  other fields are not modelled.
- The form-definition services (pages, components, lists, sections, V2
  migration, publishing) are in src/api/forms/service, which is not part of
  this model.
