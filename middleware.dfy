/**
 * The HTTP middleware of `middleware/middleware.go`: the error responder (`HandleError`,
 * `Errorf`, `Write`), the CORS decorator and the two authentication gates (`BasicAuth`,
 * `BearerAuth`). Each gate either invokes the wrapped handler or writes 401 and stops.
 *
 * JSON encoding and base64 decoding are parameters; the clock reading is the `now` parameter.
 */
module Middleware {
  import opened Wrappers
  import opened GoStrings
  import opened GoTime
  import opened Http
  import JwtGo
  import Jwt

  // ---------------------------------------------------------------- error responder

  /** `Error`: the underlying error (`None` for a nil one), the message for the client, the status code. */
  datatype Error = Error(cause: Option<string>, message: string, code: int)

  /** What `json.Marshal` sees of an `Error`: the `json:"-"` tag keeps the underlying error out. */
  datatype ErrorPayload = ErrorPayload(message: string, code: int)

  function Payload(e: Error): ErrorPayload
  {
    ErrorPayload(e.message, e.code)
  }

  /** `Errorf(err, code, format, v...)`, with the message already formatted. */
  function Errorf(err: Option<string>, code: int, message: string): (e: Error)
    ensures Payload(e) == ErrorPayload(message, code)
    ensures e.cause == err
  {
    Error(err, message, code)
  }

  /** What `HandleError` writes for the result of the handler it wraps: nothing for nil, otherwise the
      status code and the JSON payload, or a plain 500 if the payload cannot be encoded.
      This is the corrected version, which does not dereference a nil underlying error. */
  function RespondError(w: Response, e: Option<Error>, marshal: ErrorPayload -> Result<string, string>): (r: Response)
    ensures e.None? ==> r == w
    ensures r.handled == w.handled
    ensures e.Some? && marshal(Payload(e.value)).Ok? ==>
      && r.header == w.header
      && r.status == (if w.status.None? then Some(e.value.code) else w.status)
      && r.body == w.body + marshal(Payload(e.value)).value
    ensures e.Some? && marshal(Payload(e.value)).Err? ==>
      r == w.Error("Internal Server Error", 500)
  {
    match e
    case None => w
    case Some(err) =>
      match marshal(Payload(err))
      case Err(_) => w.Error(StatusText(StatusInternalServerError), StatusInternalServerError)
      case Ok(js) => w.WriteHeader(err.code).Write(js)
  }

  /** `HandleError` as written, on the response as the handler left it: logging `e.Error.Error()`
      calls a method on the underlying error, so a nil one panics (`None`) before anything is written. */
  function HandleErrorAsWritten(w: Response, e: Option<Error>, marshal: ErrorPayload -> Result<string, string>): (r: Option<Response>)
    ensures r.Some? ==> r.value == RespondError(w, e, marshal)
    ensures r.None? <==> e.Some? && e.value.cause.None?
  {
    match e
    case None => Some(w)
    case Some(err) => if err.cause.None? then None else Some(RespondError(w, e, marshal))
  }

  /** As written, an error made by `Errorf(nil, ...)` makes `HandleError` panic instead of answering. */
  lemma NilCausePanics(w: Response, code: int, message: string, marshal: ErrorPayload -> Result<string, string>)
    ensures HandleErrorAsWritten(w, Some(Errorf(None, code, message)), marshal) == None
  {
  }

  /** As written and corrected agree on every handler result except an error with a nil cause. */
  lemma AsWrittenAgrees(w: Response, e: Option<Error>, marshal: ErrorPayload -> Result<string, string>)
    requires e.None? || e.value.cause.Some?
    ensures HandleErrorAsWritten(w, e, marshal) == Some(RespondError(w, e, marshal))
  {
  }

  /** Corrected: every handler error gets a status line, whether or not its cause is nil. */
  lemma ErrorAlwaysAnswered(w: Response, e: Error, marshal: ErrorPayload -> Result<string, string>)
    requires w.status.None?
    ensures RespondError(w, Some(e), marshal).status.Some?
    ensures RespondError(w, Some(e), marshal).status == Some(if marshal(Payload(e)).Ok? then e.code else 500)
  {
  }

  /** The underlying error never reaches the client: errors that differ only in it get the same response.
      This holds by the type of `marshal`, which receives only the `ErrorPayload`; that is how the model
      renders the `json:"-"` tag on the underlying error. */
  lemma CauseNotSent(w: Response, e1: Error, e2: Error, marshal: ErrorPayload -> Result<string, string>)
    requires e1.message == e2.message && e1.code == e2.code
    ensures RespondError(w, Some(e1), marshal) == RespondError(w, Some(e2), marshal)
  {
  }

  /** An error made by `Errorf` is answered with its code and a payload of exactly its message and code. */
  lemma ErrorfAnswered(w: Response, err: Option<string>, code: int, message: string,
                       marshal: ErrorPayload -> Result<string, string>)
    requires w.status.None?
    requires marshal(ErrorPayload(message, code)).Ok?
    ensures var r := RespondError(w, Some(Errorf(err, code, message)), marshal);
      r.status == Some(code) && r.body == w.body + marshal(ErrorPayload(message, code)).value
  {
  }

  /** `HandleError(h)` on request `r`: the handler is called once with the request and returns `e`,
      which is then answered. */
  method HandleError(w: ResponseWriter, r: Request, e: Option<Error>, marshal: ErrorPayload -> Result<string, string>)
    modifies w
    ensures w.State() == RespondError(old(w.State()).Serve(r), e, marshal)
    ensures w.State().handled == old(w.State().handled) + [r]
  {
    w.Serve(r);
    if e.Some? {
      var err := e.value;
      var js := marshal(Payload(err));
      if js.Err? {
        w.Error(StatusText(StatusInternalServerError), StatusInternalServerError);
        return;
      }
      w.WriteHeader(err.code);
      w.Write(js.value);
    }
  }

  /** `Write(w, r, data)`: status 200 and the JSON of `data` (nothing for nil data), or a 500 `Error`
      carrying the encoder's error, with nothing written, when encoding fails. */
  method Write<V>(w: ResponseWriter, data: Option<V>, marshal: V -> Result<string, string>) returns (e: Option<Error>)
    modifies w
    ensures data.Some? && marshal(data.value).Err? ==>
      && e == Some(Error(Some(marshal(data.value).error), "Internal Server Error", 500))
      && w.State() == old(w.State())
    ensures data.None? ==> e.None? && w.State() == old(w.State()).WriteHeader(200)
    ensures data.Some? && marshal(data.value).Ok? ==>
      e.None? && w.State() == old(w.State()).WriteHeader(200).Write(marshal(data.value).value)
  {
    // json.Marshal(nil) is "null" and never fails
    var js: Result<string, string> := if data.None? then Ok("null") else marshal(data.value);
    if js.Err? {
      return Some(Errorf(Some(js.error), StatusInternalServerError, StatusText(StatusInternalServerError)));
    }
    w.WriteHeader(StatusOK);
    if data.Some? {
      w.Write(js.value);
    }
    return None;
  }

  // ---------------------------------------------------------------- CORS

  /** The headers `Cors` sets. */
  const CorsHeaders: map<string, string> := map[
    "Access-Control-Allow-Headers" := "Accept, Content-Type, Authorization",
    "Content-Type" := "application/json; charset=UTF-8",
    "Access-Control-Allow-Origin" := "*",
    "Access-Control-Allow-Methods" := "DELETE, GET, HEAD, OPTIONS, PATCH, POST, PUT"]

  /** `Cors(h)`: sets the CORS headers, then always invokes the wrapped handler with the same request. */
  method Cors(w: ResponseWriter, r: Request)
    modifies w
    ensures w.header == old(w.header) + CorsHeaders
    ensures w.status == old(w.status) && w.body == old(w.body)
    ensures w.handled == old(w.handled) + [r]
  {
    ghost var before := w.header;
    w.Set("Access-Control-Allow-Headers", "Accept, Content-Type, Authorization");
    w.Set("Content-Type", "application/json; charset=UTF-8");
    w.Set("Access-Control-Allow-Origin", "*");
    w.Set("Access-Control-Allow-Methods", "DELETE, GET, HEAD, OPTIONS, PATCH, POST, PUT");
    w.Serve(r);
    CorsUpdates(before);
  }

  /** Setting the four CORS headers one after the other is overriding with `CorsHeaders`. */
  lemma CorsUpdates(h: map<string, string>)
    ensures h["Access-Control-Allow-Headers" := "Accept, Content-Type, Authorization"]
             ["Content-Type" := "application/json; charset=UTF-8"]["Access-Control-Allow-Origin" := "*"]
             ["Access-Control-Allow-Methods" := "DELETE, GET, HEAD, OPTIONS, PATCH, POST, PUT"]
            == h + CorsHeaders
  {
  }

  // ---------------------------------------------------------------- basic authentication

  const BasicPrefix: string := "Basic "

  /** `r.BasicAuth()`: user and password from `Authorization: Basic <base64 of user:password>`;
      the scheme is matched without regard to ASCII case, the credentials split at the first colon. */
  function BasicCredentials(r: Request, decodeBase64: string -> Option<string>): (c: Option<(string, string)>)
    ensures "Authorization" !in r.header ==> c.None?
    ensures c.Some? ==>
      var auth := r.Get("Authorization");
      && |auth| >= |BasicPrefix|
      && ToLower(auth[..|BasicPrefix|]) == "basic "
      && decodeBase64(auth[|BasicPrefix|..]) == Some(c.value.0 + ":" + c.value.1)
      && ':' !in c.value.0
  {
    var auth := r.Get("Authorization");
    if |auth| < |BasicPrefix| || ToLower(auth[..|BasicPrefix|]) != ToLower(BasicPrefix) then None
    else match decodeBase64(auth[|BasicPrefix|..])
      case None => None
      case Some(decoded) => Cut(decoded, ':')
  }

  /** The test `BasicAuth` makes: credentials present and both equal to the required ones. */
  predicate BasicAuthAllows(r: Request, decodeBase64: string -> Option<string>, requiredUser: string, requiredPassword: string)
  {
    var credentials := BasicCredentials(r, decodeBase64);
    credentials.Some? && credentials.value.0 == requiredUser && credentials.value.1 == requiredPassword
  }

  /** `BasicAuth(h, requiredUser, requiredPassword)`: the handler on a match, otherwise a challenge and 401. */
  method BasicAuth(w: ResponseWriter, r: Request, decodeBase64: string -> Option<string>,
                   requiredUser: string, requiredPassword: string)
    modifies w
    ensures BasicAuthAllows(r, decodeBase64, requiredUser, requiredPassword) ==>
      w.State() == old(w.State()).Serve(r)
    ensures !BasicAuthAllows(r, decodeBase64, requiredUser, requiredPassword) ==>
      w.State() == old(w.State()).Set("WWW-Authenticate", "Basic realm=Restricted").Error("Unauthorized", 401)
  {
    var credentials := BasicCredentials(r, decodeBase64);
    if credentials.Some? && credentials.value.0 == requiredUser && credentials.value.1 == requiredPassword {
      w.Serve(r);
    } else {
      w.Set("WWW-Authenticate", "Basic realm=Restricted");
      w.Error(StatusText(StatusUnauthorized), StatusUnauthorized);
    }
  }

  /** For a well-formed basic-auth header carrying `user:password` (the user has no colon),
      the gate opens exactly when both equal the required values. */
  lemma BasicAuthExact(r: Request, decodeBase64: string -> Option<string>, encoded: string,
                       user: string, password: string, requiredUser: string, requiredPassword: string)
    requires r.Get("Authorization") == BasicPrefix + encoded
    requires decodeBase64(encoded) == Some(user + ":" + password)
    requires ':' !in user
    ensures BasicAuthAllows(r, decodeBase64, requiredUser, requiredPassword)
            <==> user == requiredUser && password == requiredPassword
  {
    var auth := BasicPrefix + encoded;
    assert auth[..|BasicPrefix|] == BasicPrefix && auth[|BasicPrefix|..] == encoded;
    CutAt(user, ':', password);
  }

  /** Without an `Authorization` header the basic-auth gate stays shut. */
  lemma BasicAuthNeedsHeader(r: Request, decodeBase64: string -> Option<string>,
                             requiredUser: string, requiredPassword: string)
    requires "Authorization" !in r.header
    ensures !BasicAuthAllows(r, decodeBase64, requiredUser, requiredPassword)
  {
  }

  // ---------------------------------------------------------------- bearer authentication

  /** `ContextJWTKey`: where `BearerAuth` stores the verified claims. */
  const ContextJWTKey: ContextKey := ContextKey("jwt")

  /** `int64(exp)` for an integral float64: the value itself when int64 holds it. Beyond that range Go
      leaves the result to the implementation; on amd64 it is the smallest int64. */
  function ToInt64(n: int): Int64
  {
    if MinInt64 <= n <= MaxInt64 then n else MinInt64
  }

  /** `getExp`: the numeric `exp` claim as an int64, or 0 when it is missing or not a number. */
  function GetExp(claims: JwtGo.Claims): (exp: Int64)
    ensures ("exp" !in claims || !claims["exp"].Number?) ==> exp == 0
    ensures "exp" in claims && claims["exp"].Number? && MinInt64 <= claims["exp"].n <= MaxInt64 ==>
      exp == claims["exp"].n
  {
    if "exp" in claims && claims["exp"].Number? then ToInt64(claims["exp"].n) else 0
  }

  /** The shape test: exactly two space-separated parts, the first `bearer` in any case. */
  predicate BearerShaped(authHeader: string)
  {
    var parts := Split(authHeader, ' ');
    |parts| == 2 && ToLower(parts[0]) == "bearer"
  }

  /** Where a request ends in `BearerAuth`: the first check that fails, or success with the claims. */
  datatype BearerState =
    | NoHeader
    | MalformedHeader
    | InvalidToken(err: JwtGo.Error)
    | Expired(exp: Int64)
    | Authenticated(claims: JwtGo.Claims)

  /** The five checks of `BearerAuth`, in order. */
  function BearerCheck(p: JwtGo.Primitives, r: Request, signingSecret: string, now: Time): (s: BearerState)
    ensures s == NoHeader <==> r.Get("Authorization") == ""
    ensures s == MalformedHeader <==> r.Get("Authorization") != "" && !BearerShaped(r.Get("Authorization"))
    ensures s.InvalidToken? || s.Expired? || s.Authenticated? ==>
      && BearerShaped(r.Get("Authorization"))
      && var parsed := Jwt.Parse(p, Split(r.Get("Authorization"), ' ')[1], signingSecret);
      && (s.InvalidToken? <==> parsed.Err?)
      && (s.InvalidToken? ==> s.err == parsed.error)
      && (s.Expired? ==> s.exp == GetExp(parsed.value) && Before(Unix(s.exp), now))
      && (s.Authenticated? ==> s.claims == parsed.value && !Before(Unix(GetExp(s.claims)), now))
  {
    var authHeader := r.Get("Authorization");
    if authHeader == "" then NoHeader
    else if !BearerShaped(authHeader) then MalformedHeader
    else match Jwt.Parse(p, Split(authHeader, ' ')[1], signingSecret)
      case Err(e) => InvalidToken(e)
      case Ok(claims) =>
        if Before(Unix(GetExp(claims)), now) then Expired(GetExp(claims)) else Authenticated(claims)
  }

  /** `BearerAuth(h, signingSecret)`: the handler, with the claims under `ContextJWTKey`, when every
      check passes; otherwise one and the same 401 whichever check failed. */
  method BearerAuth(w: ResponseWriter, r: Request, p: JwtGo.Primitives, signingSecret: string, now: Time)
    modifies w
    ensures BearerCheck(p, r, signingSecret, now).Authenticated? ==>
      w.State() == old(w.State()).Serve(r.WithValue(ContextJWTKey, BearerCheck(p, r, signingSecret, now).claims))
    ensures !BearerCheck(p, r, signingSecret, now).Authenticated? ==>
      w.State() == old(w.State()).Error("Unauthorized", 401)
  {
    var authHeader := r.Get("Authorization");
    if authHeader == "" {
      w.Error(StatusText(StatusUnauthorized), StatusUnauthorized);
      return;
    }

    var authHeaderParts := Split(authHeader, ' ');
    if |authHeaderParts| != 2 || ToLower(authHeaderParts[0]) != "bearer" {
      w.Error(StatusText(StatusUnauthorized), StatusUnauthorized);
      return;
    }

    var claims := Jwt.Parse(p, authHeaderParts[1], signingSecret);
    if claims.Err? {
      w.Error(StatusText(StatusUnauthorized), StatusUnauthorized);
      return;
    }

    var exp := GetExp(claims.value);
    if Before(Unix(exp), now) {
      w.Error(StatusText(StatusUnauthorized), StatusUnauthorized);
      return;
    }

    w.Serve(r.WithValue(ContextJWTKey, claims.value));
  }

  /** An empty or missing `Authorization` header fails the first check. */
  lemma EmptyHeaderRejected(p: JwtGo.Primitives, r: Request, signingSecret: string, now: Time)
    requires r.Get("Authorization") == ""
    ensures BearerCheck(p, r, signingSecret, now) == NoHeader
  {
  }

  /** The shape test holds exactly when the header has a first space, the text before it lower-cases
      to `bearer`, and no further space follows. */
  lemma BearerShapedIff(authHeader: string)
    ensures BearerShaped(authHeader) <==>
      && Cut(authHeader, ' ').Some?
      && ToLower(Cut(authHeader, ' ').value.0) == "bearer"
      && ' ' !in Cut(authHeader, ' ').value.1
  {
    var c := Cut(authHeader, ' ');
    if c.Some? {
      SplitAfterFirst(c.value.0, ' ', c.value.1);
      SplitSingle(c.value.1, ' ');
    } else {
      SplitNoSeparator(authHeader, ' ');
    }
  }

  /** A scheme that lower-cases to `bearer`, one space and a space-free token pass the shape test,
      and the token is what gets parsed. */
  lemma BearerTokenExtracted(scheme: string, token: string)
    requires ' ' !in scheme && ' ' !in token
    requires ToLower(scheme) == "bearer"
    ensures BearerShaped(scheme + " " + token)
    ensures Split(scheme + " " + token, ' ') == [scheme, token]
  {
    SplitAfterFirst(scheme, ' ', token);
    SplitNoSeparator(token, ' ');
  }

  /** For a space-free scheme, the header `scheme token` passes the shape test exactly when the scheme
      lower-cases to `bearer` and the token holds no further space. */
  lemma BearerShapedParts(scheme: string, token: string)
    requires ' ' !in scheme
    ensures BearerShaped(scheme + " " + token) <==> ToLower(scheme) == "bearer" && ' ' !in token
  {
    BearerShapedIff(scheme + " " + token);
    CutAt(scheme, ' ', token);
  }

  /** `BEARER t` passes the shape test: the scheme is matched in any case. */
  lemma UpperCaseSchemeAccepted()
    ensures BearerShaped("BEARER t")
  {
    var scheme := "BEARER";
    assert ToLower(scheme) == "bearer";
    assert scheme + " " + "t" == "BEARER t";
    BearerShapedParts(scheme, "t");
  }

  /** `Bearer  t`, with two spaces, fails the shape test. */
  lemma DoubleSpaceRejected()
    ensures !BearerShaped("Bearer  t")
  {
    var scheme := "Bearer";
    assert scheme + " " + " t" == "Bearer  t";
    BearerShapedParts(scheme, " t");
  }

  /** `Token t` fails the shape test. */
  lemma OtherSchemeRejected()
    ensures !BearerShaped("Token t")
  {
    var scheme := "Token";
    assert ToLower(scheme) == "token";
    assert scheme + " " + "t" == "Token t";
    BearerShapedParts(scheme, "t");
  }

  /** A shaped header whose token fails to parse gets no further than the third check. */
  lemma ParseFailureRejected(p: JwtGo.Primitives, r: Request, signingSecret: string, now: Time)
    requires r.Get("Authorization") != "" && BearerShaped(r.Get("Authorization"))
    requires Jwt.Parse(p, Split(r.Get("Authorization"), ' ')[1], signingSecret).Err?
    ensures BearerCheck(p, r, signingSecret, now)
            == InvalidToken(Jwt.Parse(p, Split(r.Get("Authorization"), ' ')[1], signingSecret).error)
  {
  }

  /** Once the token parses, the expiry alone decides. Up to `MaxUnix` the token is rejected exactly when
      `exp` is strictly before now; beyond it `time.Unix` wraps to before year 1, so the token is rejected
      at any clock reading from year 1 on, however far in the future `exp` lies. */
  lemma ExpiryDecides(p: JwtGo.Primitives, r: Request, signingSecret: string, now: Time, claims: JwtGo.Claims)
    requires r.Get("Authorization") != "" && BearerShaped(r.Get("Authorization"))
    requires Jwt.Parse(p, Split(r.Get("Authorization"), ' ')[1], signingSecret) == Ok(claims)
    ensures var exp := GetExp(claims);
      exp <= MaxUnix ==>
        BearerCheck(p, r, signingSecret, now)
        == if exp < UnixSeconds(now) || (exp == UnixSeconds(now) && now.nsec > 0) then Expired(exp)
           else Authenticated(claims)
    ensures GetExp(claims) > MaxUnix && now.ext >= 0 ==> BearerCheck(p, r, signingSecret, now) == Expired(GetExp(claims))
  {
    UnixBefore(GetExp(claims), now);
  }

  /** A token whose `exp` is 9223372000000000000 (about 292 billion years ahead) is rejected as expired:
      adding the year-1 offset overflows int64, and the wrapped instant lies before year 1. */
  lemma FarFutureExpRejected(p: JwtGo.Primitives, r: Request, signingSecret: string, now: Time, claims: JwtGo.Claims)
    requires r.Get("Authorization") != "" && BearerShaped(r.Get("Authorization"))
    requires Jwt.Parse(p, Split(r.Get("Authorization"), ' ')[1], signingSecret) == Ok(claims)
    requires "exp" in claims && claims["exp"] == JwtGo.Number(9223372000000000000)
    requires now.ext >= 0
    ensures BearerCheck(p, r, signingSecret, now) == Expired(9223372000000000000)
  {
    ExpiryDecides(p, r, signingSecret, now, claims);
  }

  /** A token without a numeric `exp` claim is rejected at any instant after the epoch. */
  lemma MissingExpRejected(p: JwtGo.Primitives, r: Request, signingSecret: string, now: Time, claims: JwtGo.Claims)
    requires r.Get("Authorization") != "" && BearerShaped(r.Get("Authorization"))
    requires Jwt.Parse(p, Split(r.Get("Authorization"), ' ')[1], signingSecret) == Ok(claims)
    requires "exp" !in claims || !claims["exp"].Number?
    requires Before(Unix(0), now)
    ensures GetExp(claims) == 0
    ensures BearerCheck(p, r, signingSecret, now) == Expired(0)
  {
  }

  /** The handler is reached only after every check passed: the header is a bearer header whose token
      declares an HMAC method, verifies under the secret, decodes to exactly the claims handed on,
      and has not expired. */
  lemma AuthenticatedOnlyAfterAllChecks(p: JwtGo.Primitives, r: Request, signingSecret: string, now: Time,
                                        claims: JwtGo.Claims)
    requires BearerCheck(p, r, signingSecret, now) == Authenticated(claims)
    ensures var authHeader := r.Get("Authorization");
      && authHeader != ""
      && BearerShaped(authHeader)
      && var token := Split(authHeader, ' ')[1];
      && Jwt.Parse(p, token, signingSecret) == Ok(claims)
      && JwtGo.ParseUnverified(p, token).Ok?
      && JwtGo.ParseUnverified(p, token).value.signer.HMAC?
      && !Before(Unix(GetExp(claims)), now)
  {
  }

  /** End to end: a bearer header carrying a token made by `Jwt.Create` with the same secret, whose
      `exp` is not before now, reaches the handler with exactly the claims it was made from. */
  lemma CreatedTokenAuthenticates(p: JwtGo.Primitives, r: Request, signingSecret: string, now: Time,
                                  claims: JwtGo.Claims)
    requires JwtGo.Sound(p) && JwtGo.Encodable(claims) && JwtGo.Exact(claims) && p.claimsValid(claims)
    requires Jwt.Create(p, claims, signingSecret).Ok?
    requires r.Get("Authorization") == "Bearer " + Jwt.Create(p, claims, signingSecret).value
    requires !Before(Unix(GetExp(claims)), now)
    ensures BearerCheck(p, r, signingSecret, now) == Authenticated(claims)
  {
    var token := Jwt.Create(p, claims, signingSecret).value;
    Jwt.CreateParse(p, claims, signingSecret);
    var header := Jwt.HS256Header(p);
    var payload := p.encodeClaims(claims).value;
    var signature := p.encodeSignature(p.mac(JwtGo.SHA256, signingSecret, header + "." + payload));
    assert token == header + "." + payload + "." + signature;
    assert JwtGo.Segment(header) && JwtGo.Segment(payload) && JwtGo.Segment(signature);
    assert "Bearer " + token == "Bearer" + " " + token;
    BearerTokenExtracted("Bearer", token);
  }
}
