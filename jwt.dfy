/**
 * The token codec of `jwt/jwt.go`: `Create` signs claims with HS256 and `Parse` verifies a
 * token with a key function that only hands out the secret to HMAC-family tokens.
 */
module Jwt {
  import opened Wrappers
  import opened GoStrings
  import opened JwtGo

  /** `ErrJwtValidationFailed`. */
  const ErrJwtValidationFailed: Error := Sentinel("jwt validation failed")
  /** `ErrUnexpectedSigningMethod`. */
  const ErrUnexpectedSigningMethod: Error := Sentinel("unexpected signing method")

  /** The header segment of every token `Create` makes. */
  function HS256Header(p: Primitives): string
  {
    p.encodeHeader(HeaderFor(HS256))
  }

  /** `Create`: the compact serialisation of an HS256 token over the claims, keyed by the secret. */
  function Create(p: Primitives, claims: Claims, signingSecret: string): (r: Result<string, Error>)
    ensures r.Err? <==> p.encodeClaims(claims).None?
    ensures r.Err? ==> r.error == JsonError
    ensures r.Ok? ==>
      var signingString := HS256Header(p) + "." + p.encodeClaims(claims).value;
      r.value == signingString + "." + p.encodeSignature(p.mac(SHA256, signingSecret, signingString))
  {
    assert Alg(HS256) == "HS256";
    match SignedString(p, HS256, claims, signingSecret)
    case Err(e) => Err(e)
    case Ok(tokenString) => Ok(tokenString)
  }

  /** The key function `Parse` installs: the secret's bytes for an HMAC token, an error for any other. */
  function KeyFunc(signingSecret: string, token: Token): (key: Result<string, Error>)
    ensures key.Ok? <==> token.signer.HMAC?
    ensures key.Ok? ==> key.value == signingSecret
    ensures key.Err? ==> key.error == ErrUnexpectedSigningMethod
  {
    if !token.signer.HMAC? then Err(ErrUnexpectedSigningMethod)
    else Ok(signingSecret)
  }

  /** The tail of `Parse`: claims only from a library result without error, valid and holding `MapClaims`. */
  function ClaimsOf(parsed: Result<Token, Error>): (r: Result<Claims, Error>)
    ensures r.Ok? <==> parsed.Ok? && parsed.value.valid && parsed.value.claims.MapClaims?
    ensures r.Ok? ==> r.value == parsed.value.claims.claims
    ensures parsed.Err? ==> r == Err(parsed.error)
    ensures parsed.Ok? && r.Err? ==> r.error == ErrJwtValidationFailed
  {
    match parsed
    case Err(e) => Err(e)
    case Ok(token) =>
      if token.claims.MapClaims? && token.valid then Ok(token.claims.claims)
      else Err(ErrJwtValidationFailed)
  }

  /** `Parse`: claims come back only from a token that declares an HMAC method, whose payload
      decodes to them, and whose signature verifies under exactly the secret. */
  function Parse(p: Primitives, tokenString: string, signingSecret: string): (r: Result<Claims, Error>)
    ensures r.Ok? ==>
      var parts := Split(tokenString, '.');
      var unverified := ParseUnverified(p, tokenString);
      && unverified.Ok?
      && unverified.value.signer.HMAC?
      && unverified.value.claims == MapClaims(r.value)
      && p.claimsValid(r.value)
      && Verify(p, unverified.value.signer, parts[0] + "." + parts[1], parts[2], signingSecret)
  {
    ClaimsOf(JwtGo.Parse(p, tokenString, (token: Token) => KeyFunc(signingSecret, token)))
  }

  /** A token declaring a method outside the HMAC family never yields claims: the key function's
      error comes back wrapped as an unverifiable-token error. */
  lemma UnexpectedMethodRejected(p: Primitives, tokenString: string, signingSecret: string)
    requires ParseUnverified(p, tokenString).Ok?
    requires !ParseUnverified(p, tokenString).value.signer.HMAC?
    ensures Parse(p, tokenString, signingSecret) == Err(ValidationError({Unverifiable}, Some(ErrUnexpectedSigningMethod)))
  {
  }

  /** The library never reports success for an invalid token, so `ErrJwtValidationFailed` is never returned. */
  lemma ValidationFailedUnreachable(p: Primitives, tokenString: string, signingSecret: string)
    ensures Parse(p, tokenString, signingSecret) != Err(ErrJwtValidationFailed)
  {
  }

  /** The three segments of a token split apart again. */
  lemma SplitSegments(a: string, b: string, c: string)
    requires '.' !in a && '.' !in b && '.' !in c
    ensures Split(a + "." + b + "." + c, '.') == [a, b, c]
  {
    var parts := [a, b, c];
    assert parts[1..] == [b, c] && [b, c][1..] == [c];
    assert Join([b, c], '.') == b + "." + c;
    assert Join(parts, '.') == a + "." + (b + "." + c);
    assert a + "." + (b + "." + c) == a + "." + b + "." + c;
    SplitJoin(parts, '.');
  }

  /** Every token `Create` makes declares HS256 in its header, whatever the claims. */
  lemma CreateDeclaresHS256(p: Primitives, claims: Claims, signingSecret: string)
    requires HeaderRoundTrip(p) && SegmentsBase64url(p)
    requires Create(p, claims, signingSecret).Ok?
    ensures p.decodeHeader(Split(Create(p, claims, signingSecret).value, '.')[0]) == Some(Header(Some("HS256"), "JWT"))
    ensures GetSigningMethod("HS256") == Some(HS256)
  {
    var header := HS256Header(p);
    assert Alg(HS256) == "HS256" && HeaderFor(HS256) == Header(Some("HS256"), "JWT");
    var payload := p.encodeClaims(claims).value;
    var signature := p.encodeSignature(p.mac(SHA256, signingSecret, header + "." + payload));
    SplitSegments(header, payload, signature);
    GetSigningMethodAlg(HS256);
    HS256HeaderExact();
  }

  /** The header `Create` writes has only ASCII strings. */
  lemma HS256HeaderExact()
    ensures ExactHeader(Header(Some("HS256"), "JWT"))
  {
    var alg, typ := "HS256", "JWT";
    assert forall i :: 0 <= i < |alg| ==> alg[i] in {'H', 'S', '2', '5', '6'};
    assert forall i :: 0 <= i < |typ| ==> typ[i] in {'J', 'W', 'T'};
  }

  /** Round trip: with primitives that behave like Go's, a token made by `Create` parses under the
      same secret back to the same claims, provided the claims survive JSON unchanged (ASCII text,
      integers within 2^53) and the library's own claim checks accept them. */
  lemma CreateParse(p: Primitives, claims: Claims, signingSecret: string)
    requires Sound(p)
    requires Encodable(claims) && Exact(claims)
    requires p.claimsValid(claims)
    ensures Create(p, claims, signingSecret).Ok?
    ensures Parse(p, Create(p, claims, signingSecret).value, signingSecret) == Ok(claims)
  {
    var header := HS256Header(p);
    assert Alg(HS256) == "HS256" && HeaderFor(HS256) == Header(Some("HS256"), "JWT");
    var payload := p.encodeClaims(claims).value;
    var signature := p.encodeSignature(p.mac(SHA256, signingSecret, header + "." + payload));
    var tokenString := Create(p, claims, signingSecret).value;
    SplitSegments(header, payload, signature);
    GetSigningMethodAlg(HS256);
    HS256HeaderExact();
    var parts := Split(tokenString, '.');
    assert parts == [header, payload, signature];
    var token := Token(tokenString, HS256, Header(Some("HS256"), "JWT"), MapClaims(claims), "", false);
    assert ParseUnverified(p, tokenString) == Ok(token);
    assert Verify(p, HS256, parts[0] + "." + parts[1], parts[2], signingSecret);
  }

  /** `Create` with empty (nil) claims succeeds. */
  lemma CreateEmptyClaims(p: Primitives)
    requires ClaimsRoundTrip(p)
    ensures Create(p, map[], "mysecret").Ok?
  {
    assert Encodable(map[]);
  }

  const TestHeader: string := "eyJhbGciOiJIUzI1NiIsInR5cCI6IkpXVCJ9"
  const TestPayload: string := "bnVsbA"
  const TestSignature: string := "MkUUFKpbXwAZ9N6W9LDMMwByDne5Vmd8mM-0SKrjAo0"

  /** The known HS256 token with payload `null` parses under "mysecret" to empty claims, given that
      its segments decode as JSON and base64url say and that its signature is the HMAC of the first two. */
  lemma KnownTokenParses(p: Primitives)
    requires p.decodeHeader(TestHeader) == Some(Header(Some("HS256"), "JWT"))
    requires p.decodeClaims(TestPayload) == Some(map[])
    requires p.decodeSignature(TestSignature) == Some(p.mac(SHA256, "mysecret", TestHeader + "." + TestPayload))
    requires p.claimsValid(map[])
    ensures Parse(p, TestHeader + "." + TestPayload + "." + TestSignature, "mysecret") == Ok(map[])
  {
    var tokenString := TestHeader + "." + TestPayload + "." + TestSignature;
    assert '.' !in TestHeader && '.' !in TestPayload && '.' !in TestSignature;
    SplitSegments(TestHeader, TestPayload, TestSignature);
    GetSigningMethodAlg(HS256);
    var token := Token(tokenString, HS256, Header(Some("HS256"), "JWT"), MapClaims(map[]), "", false);
    assert ParseUnverified(p, tokenString) == Ok(token);
  }
}
