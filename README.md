# gocommon authentication core, modelled in Dafny

This project models the token-based authentication pipeline of the Go library
`ricoberger/gocommon`:

- the token codec of `jwt/jwt.go`. `Create` signs a claims map as an HS256 JSON Web Token. `Parse` verifies a token through a key function. That key function hands out the shared secret only to tokens that declare an HMAC signing method, which is the algorithm-confusion guard of RFC 7515 and section 3.2 of RFC 7518.
- the HTTP middleware of `middleware/middleware.go`:
  - the bearer-token gate `BearerAuth`, with its five checks: header present, header shape, token verifies, `exp` not before now, then the claims go into the request context under `ContextJWTKey`;
  - the basic-auth gate `BasicAuth` (the scheme of RFC 7617);
  - the CORS decorator `Cors`;
  - the error responder `HandleError`, with `Errorf` and `Write`.

Files and modules:

| file | module | models |
|---|---|---|
| `wrappers.dfy` | `Wrappers` | `Option` (Go's nil) and `Result` (Go's `(value, error)`) |
| `gostrings.dfy` | `GoStrings` | `strings.Split`, `strings.Cut`, `strings.ToLower` (ASCII letters) |
| `gotime.dfy` | `GoTime` | `time.Unix(sec, 0)` and `Time.Before` |
| `jwtgo.dfy` | `JwtGo` | the behaviour of the `jwt-go` v3 library that the codec calls: the signing-method registry, `SignedString`, `ParseUnverified` and `Parse` with a key function |
| `jwt.dfy` | `Jwt` | `jwt/jwt.go` |
| `http.dfy` | `Http` | the request (header and context), `http.Error`, `http.StatusText`, and a `ResponseWriter` class whose header map, status and body are updated in place |
| `middleware.dfy` | `Middleware` | `middleware/middleware.go` |

Go strings are byte sequences. They are modelled as `string`, one `char` per byte.

The JSON and base64url encodings of the token segments and HMAC itself are not modelled. They are the fields of a `JwtGo.Primitives` value that the codec takes as a parameter. The same goes for `jwt-go`'s own claim validation (`MapClaims.Valid`).

The predicate `JwtGo.Sound` states what JSON and base64url primitives that behave like Go's guarantee:

- the signature segment round-trips for every digest;
- claims encode exactly when all their values have a JSON form;
- a header, or claims, round-trip when their strings are ASCII and their numbers are integers within ±2^53 (`JwtGo.ExactHeader`, `JwtGo.Exact`). `json.Marshal` replaces bytes that are not valid UTF-8, and `jwt-go` decodes numbers as float64, so outside that range a segment need not come back unchanged;
- base64url output holds no `.` and no space.

Only the round-trip lemmas and the two `Create` lemmas (`Jwt.CreateDeclaresHS256`, `Jwt.CreateEmptyClaims`) assume it or parts of it. The algorithm guard and the error mapping hold for every set of primitives.

The clock is the `now` parameter. Like a Go `time.Time`, it holds int64 seconds counted from the start of year 1 plus nanoseconds, so that the strict `Before` comparison and the int64 arithmetic of `time.Unix` are exact.

JSON encoding in the middleware is a possibly failing function parameter. So is the base64 decoding that `Request.BasicAuth` performs.

The wrapped handler is modelled only by its invocation: the writer's `handled` log records every request passed to it, by each of `HandleError`, `Cors`, `BasicAuth` and `BearerAuth`. The handler's result, for `HandleError`, is a parameter.

Every decorator is a method that takes the `ResponseWriter`, an object whose header map, status, body and handler log it updates in place. The `ensures` of `HandleError`, `BasicAuth` and `BearerAuth` tie the new state to the old one through the pure `Http.Response` functions (`Set`, `WriteHeader`, `Write`, `Error`, `Serve`). `Cors` states the new fields directly. The decisions are pure functions (`BearerCheck`, `BasicAuthAllows`, `RespondError`), and the lemmas below are stated about them.

Behaviour of the code that the model keeps:

- **Expiry.** The code rejects a token only when `time.Unix(exp, 0).Before(now)`, that is, when `exp` is strictly earlier than now. A token whose `exp` equals the current second and whose clock reading has zero nanoseconds is accepted.
- **Far-future expiry.** `time.Unix` adds 62135596800 seconds (the span from year 1 to 1970) to `exp` in int64. For `exp` above `MaxUnix` = 9223371974719179007 the sum wraps to a negative count, an instant before year 1, so such a token is rejected as expired. `jwt-go`'s own check accepts it.
- **401 body.** `http.Error` writes the status text followed by a newline, so the 401 body is `"Unauthorized\n"`.
- **Errors from the key function.** The library wraps them as an unverifiable-token `ValidationError` carrying `ErrUnexpectedSigningMethod` as its inner error. `Parse` returns the wrapped error, not the bare value.
- **Expiry checks inside the library.** `jwt-go` runs its own claim checks (`MapClaims.Valid`, which looks at `exp`, `iat` and `nbf`) before `Parse` returns. The round trip therefore holds only for claims those checks accept.

## Model

| member | source | states |
|---|---|---|
| `Jwt.Create` | jwt/jwt.go:16-26 | Fails exactly when the claims cannot be JSON-encoded, and then returns that error instead of a token. Otherwise the result is the compact serialisation `header.payload.signature`: the header declares HS256 and the signature is HMAC-SHA256 of `header.payload`, keyed by the secret. |
| `Jwt.CreateDeclaresHS256` | jwt/jwt.go:18 | Whatever the claims, the header segment of a created token decodes to `alg` `HS256`, and `HS256` resolves to the HMAC-SHA256 method. |
| `Jwt.CreateEmptyClaims` | jwt/jwt_test.go:7-11 | `Create` with empty (nil) claims and secret `"mysecret"` succeeds. |
| `Jwt.KeyFunc` | jwt/jwt.go:30-36 | Returns a key if and only if the token's method is in the HMAC family. That key is exactly the secret. Every other method gets `ErrUnexpectedSigningMethod`. |
| `Jwt.ClaimsOf` | jwt/jwt.go:38-46 | Claims come back if and only if the library reported no error, the token is valid and its claims are `MapClaims`. A library error is passed through unchanged. A token that came back without error but was not accepted gives `ErrJwtValidationFailed`. |
| `Jwt.Parse` | jwt/jwt.go:28-47 | Returned claims imply all of the following: the token parsed, its declared method is HMAC, its payload decodes to exactly these claims, the library's claim checks accept them, and its signature verifies under the secret. |
| `Jwt.UnexpectedMethodRejected` | jwt/jwt.go:30-40 | A token declaring a method outside the HMAC family never yields claims. The result is the unverifiable-token error wrapping `ErrUnexpectedSigningMethod`. |
| `Jwt.ValidationFailedUnreachable` | jwt/jwt.go:42-46 | The library never reports success for an invalid token or for non-map claims, so `Parse` never returns `ErrJwtValidationFailed`. |
| `Jwt.CreateParse` | jwt/jwt.go:16-47 | Round trip: with sound primitives, encodable claims with ASCII text and integers within ±2^53 that the library's claim checks accept, and the same secret, `Parse(Create(c, s), s)` returns `c`. |
| `Jwt.KnownTokenParses` | jwt/jwt_test.go:14-18 | Assume the test token's segments decode to an HS256 header and a `null` payload, its signature is the HMAC of the first two under `"mysecret"`, and the library's claim checks accept empty claims, as `MapClaims.Valid` does. Then `Parse` follows the success path and returns empty claims with no error. |
| `JwtGo.GetSigningMethod` | jwt/jwt.go:30 | The registry lookup behind `Parse`: a method found for a name has that name as its `alg`. |
| `JwtGo.ParseUnverified` | jwt/jwt.go:30 | The first stage of the library's `Parse`: a token comes back if and only if there are exactly three segments, the header and payload decode, and the header names a registered method. It then carries the raw string, the decoded header and `MapClaims`, a method whose name is the header's `alg`, and is not yet valid. Every failure is a `ValidationError`, and a wrong segment count is flagged malformed. The model attaches no inner error to any failure; the library attaches the base64 or JSON error to a header or payload decoding failure. |
| `JwtGo.Parse` | jwt/jwt.go:30 | The library call that `Parse` makes: success only for a token that is valid and holds `MapClaims`. |
| `GoStrings.Split` | middleware/middleware.go:154 | `strings.Split` on one separator: there is at least one part, and no part contains the separator. |
| `GoStrings.JoinSplit` | middleware/middleware.go:154 | Splitting loses no byte: joining the parts with the separator gives back the header. |
| `GoStrings.SplitJoin` | jwt/jwt.go:30 | Separator-free parts joined by the separator split back into exactly those parts. This is how the token's three segments are recovered. |
| `GoStrings.SplitSingle` | middleware/middleware.go:155 | A string splits into exactly one part if and only if it holds no separator. |
| `GoStrings.Cut` | middleware/middleware.go:82 | `strings.Cut`, as used by `Request.BasicAuth`. It gives `None` if and only if the separator is absent. Otherwise it gives a separator-free prefix and the rest, around the first separator. |
| `GoStrings.CutAt` | middleware/middleware.go:82 | A colon-free user followed by `:` and a password is cut back into that user and that password. |
| `GoTime.UnixBefore` | middleware/middleware.go:169 | For `exp` up to `MaxUnix`, `time.Unix(exp, 0).Before(now)` holds exactly when `exp` is below now's Unix second, or equals it and `now.nsec > 0`. Above `MaxUnix` the int64 sum wraps and the instant is before every clock reading from year 1 on. |
| `GoStrings.ToLower` | middleware/middleware.go:155 | The result has the input's length, each byte is the input byte with `A`-`Z` mapped to `a`-`z`, and no upper-case ASCII letter remains. |
| `Http.UnauthorizedResponse` | middleware/middleware.go:149 | `http.Error(w, StatusText(401), 401)` on a fresh writer writes status 401 and body `"Unauthorized\n"`. It sets only the two plain-text headers and does not invoke the handler. |
| `Http.ResponseWriter.Error` | middleware/middleware.go:149 | `http.Error` sets the content-type headers, writes the status once, and appends the message plus a newline. |
| `Middleware.RespondError` | middleware/middleware.go:32-51 | A nil handler result leaves the response untouched. An error whose payload encodes writes its code (unless a status was already written) and appends the payload. A payload that cannot be encoded gives the plain 500 instead. The handler log never changes. |
| `Middleware.HandleError` | middleware/middleware.go:32-51 | The handler is called once with the request, and is recorded in the handler log. The writer's new state is then exactly `RespondError` of the state after that call and the handler's result. |
| `Middleware.HandleErrorAsWritten` | middleware/middleware.go:34-39 | As written, `HandleError` panics if and only if the handler returned an error whose underlying error is nil; otherwise it produces exactly `RespondError`. |
| `Middleware.NilCausePanics` | middleware/middleware.go:38 | As written, an error built by `Errorf(nil, ...)` makes `HandleError` panic before writing anything. |
| `Middleware.AsWrittenAgrees` | middleware/middleware.go:34-49 | For nil results and for errors with a non-nil cause, the as-written responder and the corrected one agree. |
| `Middleware.ErrorAlwaysAnswered` | middleware/middleware.go:41-48 | Corrected: every handler error on a fresh writer gets a status line. It is the error's code, or 500 when its payload cannot be encoded. |
| `Middleware.CauseNotSent` | middleware/middleware.go:24-28 | The `json:"-"` field never reaches the client: two errors that differ only in their underlying error get identical responses. |
| `Middleware.Errorf` | middleware/middleware.go:53-60 | The error's wire payload is exactly the message and the code, and its underlying error is the one given. |
| `Middleware.ErrorfAnswered` | middleware/middleware.go:53-60 | An error made by `Errorf(err, code, msg)` is answered with status `code` and a payload of exactly `msg` and `code`, whatever `err` is. |
| `Middleware.Write` | middleware/middleware.go:62-75 | If encoding fails, it returns a 500 `Error` carrying the encoder's error and writes nothing. Otherwise it writes status 200 and appends the JSON, or appends nothing for nil data, and returns nil. |
| `Middleware.Cors` | middleware/middleware.go:94-103 | The four CORS headers override the header map. Status and body are unchanged, and the handler is invoked exactly once with the same request. |
| `Middleware.BasicAuth` | middleware/middleware.go:80-91 | On matching credentials, the only effect is one invocation of the handler with the request. Otherwise it sets `WWW-Authenticate: Basic realm=Restricted` and writes the 401, without invoking the handler. |
| `Middleware.BasicCredentials` | middleware/middleware.go:82 | `Request.BasicAuth`: no credentials without an `Authorization` header. Credentials imply a header starting with `Basic ` in any ASCII case, whose remainder decodes to `user:password` with a colon-free user. |
| `Middleware.BasicAuthExact` | middleware/middleware.go:82-85 | For a basic header carrying `user:password`, the gate opens if and only if both equal the required user and password. |
| `Middleware.BasicAuthNeedsHeader` | middleware/middleware.go:82-89 | Without an `Authorization` header the basic-auth gate stays shut. |
| `Middleware.BearerAuth` | middleware/middleware.go:144-177 | When every check passes, the handler is invoked once, with the request whose context maps `ContextJWTKey` to the parsed claims, and nothing else changes. Every failing check produces the same state: the 401 with body `StatusText(401)`, and no handler call. |
| `Middleware.BearerCheck` | middleware/middleware.go:144-177 | The checks in order: no header if and only if the header is empty; malformed if and only if present but not bearer-shaped; past the shape test, invalid token if and only if `Jwt.Parse` fails (with its error), expired only with `exp` before now, authenticated only with exactly the parsed claims and `exp` not before now. |
| `Middleware.EmptyHeaderRejected` | middleware/middleware.go:147-151 | An empty or missing `Authorization` header stops at the first check. |
| `Middleware.BearerShapedIff` | middleware/middleware.go:154-158 | The shape test holds if and only if the header has a first space, the text before it lower-cases to `bearer`, and no further space follows. |
| `Middleware.BearerShapedParts` | middleware/middleware.go:154-158 | For a space-free scheme, `scheme token` passes if and only if the scheme lower-cases to `bearer` and the token holds no space. |
| `Middleware.BearerTokenExtracted` | middleware/middleware.go:154-161 | For a bearer scheme and a space-free token, the header splits into exactly the scheme and the token, and the token is what gets parsed. |
| `Middleware.UpperCaseSchemeAccepted` | middleware/middleware.go:155 | `"BEARER t"` passes the shape test. |
| `Middleware.DoubleSpaceRejected` | middleware/middleware.go:154-158 | `"Bearer  t"` (two spaces) fails the shape test. |
| `Middleware.OtherSchemeRejected` | middleware/middleware.go:154-158 | `"Token t"` fails the shape test. |
| `Middleware.ParseFailureRejected` | middleware/middleware.go:161-165 | A shaped header whose token fails `Jwt.Parse` ends at the invalid-token state. |
| `Middleware.ExpiryDecides` | middleware/middleware.go:167-175 | Once the token parses, and for `exp` up to `MaxUnix`, the outcome is `Expired` exactly when `exp` is strictly before now, and `Authenticated` with the parsed claims otherwise. For `exp` above `MaxUnix` it is `Expired` at any clock reading from year 1 on. |
| `Middleware.FarFutureExpRejected` | middleware/middleware.go:168-172 | A token whose `exp` is 9223372000000000000 is rejected as expired, because `time.Unix` wraps. |
| `Middleware.GetExp` | middleware/middleware.go:129-136 | 0 when `exp` is missing or not a number; the number itself when it is within int64. |
| `Middleware.MissingExpRejected` | middleware/middleware.go:129-136 | `getExp` gives 0 when `exp` is missing or not a number, so such a token is rejected as expired at every instant after the epoch. |
| `Middleware.AuthenticatedOnlyAfterAllChecks` | middleware/middleware.go:144-177 | The handler is reached only if all of these hold: the header is present and bearer-shaped, its token parses to exactly the claims handed on, it declares an HMAC method, and its `exp` is not before now. |
| `Middleware.CreatedTokenAuthenticates` | middleware/middleware.go:144-177 | Take `Bearer ` followed by a token made by `Jwt.Create` with the same secret, for claims that survive JSON unchanged and whose `exp` is not before now. That request is authenticated with exactly those claims. |

## Findings

| source | as written | input that shows it | evidently intended | confidence | as-written member | corrected member |
|---|---|---|---|---|---|---|
| middleware/middleware.go:38 | `HandleError` logs `e.Error.Error()` unconditionally, which panics when the underlying error is nil | a handler returning `Errorf(nil, 404, "not found")` | log the message and code, and answer with status 404 and the JSON payload | medium; not executed | `Middleware.NilCausePanics` | `Middleware.ErrorAlwaysAnswered` |

The model's `HandleError` method uses the corrected responder `RespondError`.

## Left out

- The `Log` decorator and the log record in `HandleError` are left out: they only feed the logging sink. The nil dereference the log call makes is kept, as the finding above.
- `passhash/passhash.go` is a thin wrapper over bcrypt, with hashing, salting and cost inside that library. `version` and `randstring` are not part of this model either: their sources are not available, and `randstring` is random.
- Real HMAC-SHA256, base64url and JSON are not modelled; they are abstract primitives. As a result, rejection of a wrong secret or of a tampered signature is not claimed: that rests on the collision resistance of HMAC.
- `jwt-go`'s own claim checks (`exp`, `iat`, `nbf` against its own clock) are the opaque `claimsValid` primitive.
- In `jwt-go`, a `ValidationError` from a failed claim or signature check, or from a header or payload that does not decode, also carries an inner error. The model drops these inner errors. Its single `ClaimsInvalid` flag stands for the three bits `MapClaims.Valid` reports (expired, issued in the future, not yet valid). `jwt.go` passes the error on and `BearerAuth` discards it, so neither affects the middleware.
- Claim values are integral numbers, strings, booleans, null, or a value JSON cannot encode. Fractional numbers, arrays and objects are left out. As a result, the truncation of a fractional `exp` in `getExp` is not modelled.
- `Middleware.GetExp`: Go leaves the conversion of a float64 outside the int64 range to the implementation. The model takes the amd64 result, the smallest int64. Where the conversion saturates instead, the largest int64 wraps in `time.Unix`, so such a token is rejected either way.
- Go's nil map and empty map are the same value here. `jwt-go` decodes a `null` payload into an empty `MapClaims`, so both read as empty claims.
- `Jwt.Create`: the `("", err)` pair of the source is the `Err` case of a `Result`, which carries no token string.
- `Jwt.KnownTokenParses`: assumes that the test token's segments decode as shown, that its signature is the HMAC of the first two segments, and that the library's claim checks accept empty claims, as `MapClaims.Valid` does. Real base64url, JSON and HMAC-SHA256 would be needed to establish this.
- `Jwt.CreateParse`: assumes the library's claim checks accept the claims, because `jwt-go` rejects an expired `exp` on its own. It covers only claims with ASCII names and text and integers within ±2^53. Valid non-ASCII UTF-8 also round-trips through Go's JSON, but the model does not describe UTF-8.
- `ToLower` is ASCII-only. No non-ASCII rune lower-cases to a letter of `bearer`, so the shape test gives the same verdict as Go's Unicode `strings.ToLower`.
- Header keys are not canonicalised the way `textproto.CanonicalMIMEHeaderKey` does it, and multi-valued headers are not modelled. A header is a map from key to one value.
- `http.StatusText` covers only the codes the middleware writes itself: 200, 401 and 500. `WriteHeader`'s panic on codes outside 100-999 is not modelled.
- The wrapped handler's own effect on the response is not modelled, and neither are `httprouter` parameters. A handler call is recorded with the request it received.
- `Errorf`'s `fmt.Sprintf` formatting is not modelled: the message is taken as already formatted.
- Concurrent request handling is not modelled.
