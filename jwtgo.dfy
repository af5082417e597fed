/**
 * The behaviour of the JSON Web Token library (`github.com/dgrijalva/jwt-go`, version 3)
 * that the token codec relies on: signing a token and parsing one with a key function.
 *
 * A token is the JWS compact serialisation of section 7.1 of RFC 7515:
 * header segment, `.`, payload segment, `.`, signature segment.
 * The JSON and base64url encodings of the segments and the HMAC itself are not
 * modelled: they are the fields of a `Primitives` value that the operations take
 * as a parameter. The predicates at the end of the module say what a Go-like
 * set of primitives guarantees; only the round-trip lemmas need them.
 */
module JwtGo {
  import opened Wrappers
  import opened GoStrings

  type Bytes = seq<bv8>

  /** A claim value as JSON carries it. `Number` is an integral JSON number;
      `Unencodable` is a Go value that `encoding/json` cannot serialise. */
  datatype ClaimValue = Number(n: int) | Text(s: string) | Boolean(b: bool) | Null | Unencodable

  /** `jwt.MapClaims`. A nil map and an empty map are the same value here. */
  type Claims = map<string, ClaimValue>

  /** Every value of the claims has a JSON form. */
  predicate Encodable(c: Claims)
  {
    forall k :: k in c ==> c[k] != Unencodable
  }

  datatype Hash = SHA256 | SHA384 | SHA512

  /** The signing methods the library registers, by family. */
  datatype SigningMethod = HMAC(hash: Hash) | RSA(hash: Hash) | RSAPSS(hash: Hash) | ECDSA(hash: Hash) | NoneMethod

  /** `jwt.SigningMethodHS256`. */
  const HS256: SigningMethod := HMAC(SHA256)

  function HashBits(h: Hash): string
  {
    match h
    case SHA256 => "256"
    case SHA384 => "384"
    case SHA512 => "512"
  }

  /** The `alg` name a method writes into the header (section 3.1 of RFC 7518). */
  function Alg(m: SigningMethod): string
  {
    match m
    case HMAC(h) => "HS" + HashBits(h)
    case RSA(h) => "RS" + HashBits(h)
    case RSAPSS(h) => "PS" + HashBits(h)
    case ECDSA(h) => "ES" + HashBits(h)
    case NoneMethod => "none"
  }

  function HashOf(bits: string): Option<Hash>
  {
    if bits == "256" then Some(SHA256)
    else if bits == "384" then Some(SHA384)
    else if bits == "512" then Some(SHA512)
    else None
  }

  /** `jwt.GetSigningMethod`: the registered method with this `alg` name, if any. */
  function GetSigningMethod(alg: string): (m: Option<SigningMethod>)
    ensures m.Some? ==> Alg(m.value) == alg
  {
    if alg == "none" then Some(NoneMethod)
    else if |alg| != 5 then None
    else match HashOf(alg[2..])
      case None => None
      case Some(h) =>
        if alg[..2] == "HS" then Some(HMAC(h))
        else if alg[..2] == "RS" then Some(RSA(h))
        else if alg[..2] == "PS" then Some(RSAPSS(h))
        else if alg[..2] == "ES" then Some(ECDSA(h))
        else None
  }

  /** Every method is found again under its own name. */
  lemma GetSigningMethodAlg(m: SigningMethod)
    ensures GetSigningMethod(Alg(m)) == Some(m)
  {
    if !m.NoneMethod? {
      var a := Alg(m);
      assert a[2..] == HashBits(m.hash);
    }
  }

  /** The JOSE header. `alg` is `None` when the field is missing or not a string. */
  datatype Header = Header(alg: Option<string>, typ: string)

  /** The claims a parsed token holds: `MapClaims`, or a claims type of some other kind. */
  datatype TokenClaims = MapClaims(claims: Claims) | OtherClaims

  /** `jwt.Token` as the parser hands it on; `signer` is its `Method`. */
  datatype Token = Token(raw: string, signer: SigningMethod, header: Header, claims: TokenClaims,
                         signature: string, valid: bool)

  /** The bits of `jwt.ValidationError`. `ClaimsInvalid` stands for the three bits `MapClaims.Valid`
      reports (`ValidationErrorExpired`, `ValidationErrorIssuedAt`, `ValidationErrorNotValidYet`). */
  datatype ErrorFlag = Malformed | Unverifiable | SignatureInvalid | ClaimsInvalid

  /** The errors that cross the library's boundary. */
  datatype Error =
    | ValidationError(flags: set<ErrorFlag>, inner: Option<Error>)  // `*jwt.ValidationError`
    | JsonError                                                     // `encoding/json` could not serialise a value
    | Sentinel(text: string)                                        // a value made by `errors.New`

  /** `jwt.ErrInvalidKeyType`. */
  const ErrInvalidKeyType: Error := Sentinel("key is of invalid type")

  /** JSON, base64url and HMAC, which the model leaves abstract. */
  datatype Primitives = Primitives(
    encodeHeader: Header -> string,            // base64url(JSON(header))
    decodeHeader: string -> Option<Header>,
    encodeClaims: Claims -> Option<string>,    // base64url(JSON(claims)); None when JSON fails
    decodeClaims: string -> Option<Claims>,
    encodeSignature: Bytes -> string,          // base64url(digest)
    decodeSignature: string -> Option<Bytes>,
    mac: (Hash, string, string) -> Bytes,      // HMAC(hash, key, message)
    claimsValid: Claims -> bool)               // `MapClaims.Valid()`: the library's own exp/iat/nbf check

  /** The header `jwt.NewWithClaims` writes for method `m`. */
  function HeaderFor(m: SigningMethod): Header
  {
    Header(Some(Alg(m)), "JWT")
  }

  /** `Token.SigningString`: header and payload segments joined by a dot. */
  function SigningString(p: Primitives, header: Header, claims: Claims): Result<string, Error>
  {
    match p.encodeClaims(claims)
    case None => Err(JsonError)
    case Some(payload) => Ok(p.encodeHeader(header) + "." + payload)
  }

  /** `SigningMethod.Sign` with a byte-slice key: only the HMAC family accepts one. */
  function Sign(p: Primitives, m: SigningMethod, signingString: string, key: string): Result<string, Error>
  {
    if m.HMAC? then Ok(p.encodeSignature(p.mac(m.hash, key, signingString)))
    else Err(ErrInvalidKeyType)
  }

  /** `SigningMethod.Verify` with a byte-slice key: the decoded signature is the HMAC of the signing string. */
  predicate Verify(p: Primitives, m: SigningMethod, signingString: string, signature: string, key: string)
  {
    m.HMAC? && p.decodeSignature(signature) == Some(p.mac(m.hash, key, signingString))
  }

  /** `jwt.NewWithClaims(m, claims).SignedString(key)`. */
  function SignedString(p: Primitives, m: SigningMethod, claims: Claims, key: string): Result<string, Error>
  {
    match SigningString(p, HeaderFor(m), claims)
    case Err(e) => Err(e)
    case Ok(signingString) =>
      match Sign(p, m, signingString, key)
      case Err(e) => Err(e)
      case Ok(signature) => Ok(signingString + "." + signature)
  }

  /** `Parser.ParseUnverified`: split into three segments, decode header and claims, look up the method. */
  function ParseUnverified(p: Primitives, tokenString: string): (r: Result<Token, Error>)
    ensures r.Ok? <==>
      && |Split(tokenString, '.')| == 3
      && p.decodeHeader(Split(tokenString, '.')[0]).Some?
      && p.decodeClaims(Split(tokenString, '.')[1]).Some?
      && var alg := p.decodeHeader(Split(tokenString, '.')[0]).value.alg;
         alg.Some? && GetSigningMethod(alg.value).Some?
    ensures r.Ok? ==>
      && r.value.raw == tokenString
      && Some(r.value.header) == p.decodeHeader(Split(tokenString, '.')[0])
      && r.value.claims.MapClaims?
      && Some(r.value.claims.claims) == p.decodeClaims(Split(tokenString, '.')[1])
      && r.value.header.alg == Some(Alg(r.value.signer))
      && !r.value.valid
    // The library also attaches the base64 or JSON error as the inner error of a decoding failure;
    // the decoders here report no error value, so the model keeps none.
    ensures r.Err? ==> r.error.ValidationError? && r.error.inner.None?
    ensures r.Err? && |Split(tokenString, '.')| != 3 ==> r.error.flags == {Malformed}
  {
    var parts := Split(tokenString, '.');
    if |parts| != 3 then Err(ValidationError({Malformed}, None))
    else match p.decodeHeader(parts[0])
      case None => Err(ValidationError({Malformed}, None))
      case Some(header) =>
        match p.decodeClaims(parts[1])
        case None => Err(ValidationError({Malformed}, None))
        case Some(claims) =>
          match header.alg
          case None => Err(ValidationError({Unverifiable}, None))
          case Some(alg) =>
            match GetSigningMethod(alg)
            case None => Err(ValidationError({Unverifiable}, None))
            case Some(m) => Ok(Token(tokenString, m, header, MapClaims(claims), "", false))
  }

  /** `jwt.Parse(tokenString, keyFunc)`: parse, ask the key function for a key, then check the
      claims and the signature; the token is valid only when both pass. */
  function Parse(p: Primitives, tokenString: string, keyFunc: Token -> Result<string, Error>): (r: Result<Token, Error>)
    ensures r.Ok? ==> r.value.valid && r.value.claims.MapClaims?
  {
    match ParseUnverified(p, tokenString)
    case Err(e) => Err(e)
    case Ok(token) =>
      match keyFunc(token)
      case Err(e) => Err(if e.ValidationError? then e else ValidationError({Unverifiable}, Some(e)))
      case Ok(key) =>
        var parts := Split(tokenString, '.');
        var claimsFlags: set<ErrorFlag> := if p.claimsValid(token.claims.claims) then {} else {ClaimsInvalid};
        var signatureFlags: set<ErrorFlag> :=
          if Verify(p, token.signer, parts[0] + "." + parts[1], parts[2], key) then {} else {SignatureInvalid};
        if claimsFlags + signatureFlags == {} then Ok(token.(signature := parts[2], valid := true))
        else Err(ValidationError(claimsFlags + signatureFlags, None))
  }

  /** Text JSON carries unchanged: `json.Marshal` replaces bytes that are not valid UTF-8, so only
      ASCII is assumed to come back as it went in. */
  predicate Ascii(s: string)
  {
    forall i :: 0 <= i < |s| ==> s[i] as int < 0x80
  }

  /** 2^53: the library decodes JSON numbers as float64, which holds every integer up to this exactly. */
  const MaxExactInteger: int := 0x20_0000_0000_0000

  /** A claim value that survives encoding and decoding unchanged. */
  predicate ExactValue(v: ClaimValue)
  {
    match v
    case Number(n) => -MaxExactInteger <= n <= MaxExactInteger
    case Text(s) => Ascii(s)
    case _ => true
  }

  /** Claims whose names and values all survive encoding and decoding unchanged. */
  predicate Exact(c: Claims)
  {
    forall k :: k in c ==> Ascii(k) && ExactValue(c[k])
  }

  /** A header whose strings survive encoding and decoding unchanged. */
  predicate ExactHeader(h: Header)
  {
    (h.alg.Some? ==> Ascii(h.alg.value)) && Ascii(h.typ)
  }

  /** A header with ASCII strings round-trips. */
  ghost predicate HeaderRoundTrip(p: Primitives)
  {
    forall h :: ExactHeader(h) ==> p.decodeHeader(p.encodeHeader(h)) == Some(h)
  }

  /** Claims encode exactly when every value has a JSON form; ASCII names and text with integers
      within 2^53 then round-trip. */
  ghost predicate ClaimsRoundTrip(p: Primitives)
  {
    && (forall c :: p.encodeClaims(c).Some? <==> Encodable(c))
    && (forall c :: Exact(c) && p.encodeClaims(c).Some? ==> p.decodeClaims(p.encodeClaims(c).value) == Some(c))
  }

  /** The signature segment round-trips. */
  ghost predicate SignatureRoundTrip(p: Primitives)
  {
    forall d :: p.decodeSignature(p.encodeSignature(d)) == Some(d)
  }

  /** A base64url segment: its alphabet has neither the dot that joins segments nor a space. */
  predicate Segment(s: string)
  {
    '.' !in s && ' ' !in s
  }

  /** Every encoder produces base64url segments. */
  ghost predicate SegmentsBase64url(p: Primitives)
  {
    && (forall h :: Segment(p.encodeHeader(h)))
    && (forall c :: p.encodeClaims(c).Some? ==> Segment(p.encodeClaims(c).value))
    && (forall d :: Segment(p.encodeSignature(d)))
  }

  /** What JSON and base64url primitives that behave like Go's guarantee. */
  ghost predicate Sound(p: Primitives)
  {
    HeaderRoundTrip(p) && ClaimsRoundTrip(p) && SignatureRoundTrip(p) && SegmentsBase64url(p)
  }
}
