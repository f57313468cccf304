/**
 * The bearer-credential gate: issuing a JSON Web Token (RFC 7519) at login,
 * extracting it from an `Authorization` header, decoding it, and resolving
 * the caller's username from a request's headers.
 *
 * Signing and verification (HS256 with a fixed secret) are a foreign
 * library: they enter as the function parameters `sign` and `verify`, and
 * what the library guarantees about them is stated as the predicates
 * `SignerSound` and `CompactTokens`, assumed by the lemmas that need them.
 * The clock enters as an integer number of seconds.
 */
module Utils {
  import opened Base
  import opened Models

  const BearerPrefix: string := "Bearer "

  /** Tokens expire 180 minutes after they are issued. */
  const TokenLifetime: int := 180 * 60

  /** A JSON value in a claim set: a string, or a number (the registered
      time claims are seconds since the epoch). */
  datatype ClaimValue = Text(text: string) | Number(number: int)

  type Claims = map<string, ClaimValue>

  /** What the verifier does with a token: returns its claims, or raises
      `ExpiredSignatureError` or another `InvalidTokenError`. */
  datatype Verdict = Decoded(claims: Claims) | ExpiredSignature | InvalidToken

  /** The framework's `AuthenticationFailed` exception and its detail. */
  datatype AuthenticationFailed = AuthenticationFailed(detail: string)

  /** The detail of an `AuthenticationFailed()` raised with no argument. */
  const DefaultDetail: string := "Incorrect authentication credentials."

  /** The response `get_token` builds: a status and a string-valued body. */
  datatype TokenResponse = TokenResponse(status: int, data: map<string, string>)

  /** `s.replace(c, '')`: every occurrence of `c` deleted, the other
      characters kept with their multiplicities. */
  function Without(s: string, c: char): (r: string)
    ensures multiset(r) == multiset(s)[c := 0]
    ensures c !in r && |r| <= |s|
  {
    if s == [] then []
    else
      assert s == [s[0]] + s[1..];
      if s[0] == c then Without(s[1..], c) else [s[0]] + Without(s[1..], c)
  }

  /** Deleting a character that does not occur changes nothing. */
  lemma {:induction false} WithoutAbsent(s: string, c: char)
    requires c !in s
    ensures Without(s, c) == s
  {
    if s != [] {
      WithoutAbsent(s[1..], c);
    }
  }

  /** Deleting a character distributes over concatenation, so the
      characters that remain keep their order. */
  lemma {:induction false} WithoutConcat(a: string, b: string, c: char)
    ensures Without(a + b, c) == Without(a, c) + Without(b, c)
  {
    if a == [] {
      assert a + b == b;
    } else {
      assert (a + b)[0] == a[0];
      assert (a + b)[1..] == a[1..] + b;
      WithoutConcat(a[1..], b, c);
    }
  }

  /** The header with every double and single quote deleted. */
  function StripQuotes(header: string): (r: string)
    ensures '"' !in r && '\'' !in r
    ensures forall x :: x != '"' && x != '\'' ==> multiset(r)[x] == multiset(header)[x]
  {
    var unquoted := Without(header, '"');
    assert '"' !in multiset(unquoted);
    assert multiset(Without(unquoted, '\''))['"'] == 0;
    Without(unquoted, '\'')
  }

  /** A header without quotes is left as it is. */
  lemma StripQuotesAbsent(header: string)
    requires '"' !in header && '\'' !in header
    ensures StripQuotes(header) == header
  {
    WithoutAbsent(header, '"');
    WithoutAbsent(header, '\'');
  }

  /** Stripping quotes a second time changes nothing. */
  lemma StripQuotesIdempotent(header: string)
    ensures StripQuotes(StripQuotes(header)) == StripQuotes(header)
  {
    StripQuotesAbsent(StripQuotes(header));
  }

  /** `get_token`: after deleting all quotes, a header that starts with
      `Bearer ` yields status 200 and the rest of the header as the token;
      any other header yields status 400 and an error, never a token. */
  function GetToken(header: string): (r: TokenResponse)
    ensures var h := StripQuotes(header);
      BearerPrefix <= h ==>
        r.status == 200 && r.data.Keys == {"token"} && BearerPrefix + r.data["token"] == h
    ensures !(BearerPrefix <= StripQuotes(header)) ==>
      r.status == 400 && r.data == map["error" := "Invalid Authorization header"]
  {
    var h := StripQuotes(header);
    if BearerPrefix <= h then
      TokenResponse(200, map["token" := h[|BearerPrefix|..]])
    else
      TokenResponse(400, map["error" := "Invalid Authorization header"])
  }

  /** The extracted token never contains a quote. */
  lemma TokenQuoteFree(header: string)
    requires "token" in GetToken(header).data
    ensures '"' !in GetToken(header).data["token"] && '\'' !in GetToken(header).data["token"]
  {
  }

  /** `Bearer <token>` with a quote-free token yields exactly that token. */
  lemma BearerHeaderYieldsToken(token: string)
    requires '"' !in token && '\'' !in token
    ensures GetToken(BearerPrefix + token) == TokenResponse(200, map["token" := token])
  {
    var header := BearerPrefix + token;
    assert forall k :: 0 <= k < |header| ==>
      header[k] == if k < |BearerPrefix| then BearerPrefix[k] else token[k - |BearerPrefix|];
    StripQuotesAbsent(header);
    assert header[|BearerPrefix|..] == token;
  }

  /** The malformed header of the test suite yields an error. */
  lemma GetTokenInvalidExamples()
    ensures GetToken("InvalidHeaderFormat").status == 400
    ensures "error" in GetToken("InvalidHeaderFormat").data
  {
    var header := "InvalidHeaderFormat";
    StripQuotesAbsent(header);
    assert header[0] != BearerPrefix[0];
  }

  /** The empty header, which a missing `Authorization` header becomes,
      yields status 400 and an error, never a token. */
  lemma GetTokenEmptyHeader()
    ensures GetToken("").status == 400
    ensures "error" in GetToken("").data && "token" !in GetToken("").data
  {
  }

  /** The claim set `encode_token` signs for a user, issued at `now`. */
  function Payload(username: string, now: int): (r: Claims)
    ensures r.Keys == {"username", "exp", "iat"}
    ensures r["username"] == Text(username)
    ensures r["iat"] == Number(now)
    ensures r["exp"].Number? && r["exp"].number == r["iat"].number + TokenLifetime
  {
    map["username" := Text(username), "exp" := Number(now + TokenLifetime), "iat" := Number(now)]
  }

  /** `encode_token`: the signed claim set of the user, issued at `now`. */
  function EncodeToken(sign: Claims -> string, user: User, now: int): (token: string)
    ensures token == sign(Payload(user.username, now))
  {
    sign(Payload(user.username, now))
  }

  /** `decode_token`: the claims of a token the verifier accepts; an expired
      token raises "Token has expired" (checked before the more general
      case) and every other rejected token raises "Invalid token". */
  function DecodeToken(verify: (string, int) -> Verdict, token: string, now: int)
    : (r: Result<Claims, AuthenticationFailed>)
    ensures r.Ok? <==> verify(token, now).Decoded?
    ensures r.Ok? ==> r.value == verify(token, now).claims
    ensures verify(token, now) == ExpiredSignature ==> r == Err(AuthenticationFailed("Token has expired"))
    ensures verify(token, now) == InvalidToken ==> r == Err(AuthenticationFailed("Invalid token"))
  {
    match verify(token, now)
    case Decoded(claims) => Ok(claims)
    case ExpiredSignature => Err(AuthenticationFailed("Token has expired"))
    case InvalidToken => Err(AuthenticationFailed("Invalid token"))
  }

  /** The `Authorization` header of a request, `""` when there is none. */
  function AuthorizationHeader(headers: map<string, string>): string
  {
    Get(headers, "Authorization", "")
  }

  /** `check_access`: the `username` claim of the bearer token in the
      request's headers. Every failure (no header, no `Bearer ` prefix, an
      expired or invalid token, no `username` claim) raises the same
      `AuthenticationFailed` with the default detail. */
  function CheckAccess(verify: (string, int) -> Verdict, headers: map<string, string>, now: int)
    : (r: Result<ClaimValue, AuthenticationFailed>)
    ensures var h := StripQuotes(AuthorizationHeader(headers));
      r.Ok? <==>
        && BearerPrefix <= h
        && verify(h[|BearerPrefix|..], now).Decoded?
        && "username" in verify(h[|BearerPrefix|..], now).claims
    ensures var h := StripQuotes(AuthorizationHeader(headers));
      r.Ok? ==> r.value == verify(h[|BearerPrefix|..], now).claims["username"]
    ensures r.Err? ==> r.error == AuthenticationFailed(DefaultDetail)
  {
    var response := GetToken(AuthorizationHeader(headers));
    if "token" !in response.data then
      Err(AuthenticationFailed(DefaultDetail))
    else
      match DecodeToken(verify, response.data["token"], now)
      case Err(_) => Err(AuthenticationFailed(DefaultDetail))
      case Ok(claims) =>
        if "username" in claims then Ok(claims["username"])
        else Err(AuthenticationFailed(DefaultDetail))
  }

  /** A request without an `Authorization` header is refused. */
  lemma MissingHeaderRefused(verify: (string, int) -> Verdict, headers: map<string, string>, now: int)
    requires "Authorization" !in headers
    ensures CheckAccess(verify, headers, now) == Err(AuthenticationFailed(DefaultDetail))
  {
  }

  /** What the signing library (PyJWT 1.x) guarantees: a token it issued
      for a claim set made by `Payload` decodes back to that claim set from
      its issue time up to and including its expiry second, and is
      reported expired once that has passed. */
  ghost predicate SignerSound(sign: Claims -> string, verify: (string, int) -> Verdict)
  {
    forall username: string, issued: int, now: int ::
      && (issued <= now <= issued + TokenLifetime ==>
            verify(sign(Payload(username, issued)), now) == Decoded(Payload(username, issued)))
      && (issued + TokenLifetime < now ==>
            verify(sign(Payload(username, issued)), now) == ExpiredSignature)
  }

  /** Signed tokens are in compact serialisation (base64url parts joined by
      dots), so they contain no quote characters. */
  ghost predicate CompactTokens(sign: Claims -> string)
  {
    forall claims: Claims :: '"' !in sign(claims) && '\'' !in sign(claims)
  }

  /** Only the signer can make a token the verifier accepts: every token
      that decodes is the signature of a claim set made by `Payload`, and
      decodes to that claim set. The signature is checked before the
      expiry, so a token reported expired is also such a signature. This holds only while clients do not know
      the signing secret. */
  ghost predicate Unforgeable(sign: Claims -> string, verify: (string, int) -> Verdict)
  {
    && (forall token: string, now: int :: verify(token, now).Decoded? ==>
          exists username: string, issued: int ::
            && token == sign(Payload(username, issued))
            && verify(token, now).claims == Payload(username, issued))
    && (forall token: string, now: int :: verify(token, now) == ExpiredSignature ==>
          exists username: string, issued: int :: token == sign(Payload(username, issued)))
  }

  /** A token that is not the signature of an issued claim set, such as a
      tampered one, is rejected with "Invalid token", never "Token has
      expired". */
  lemma ForgedTokenRejected(sign: Claims -> string, verify: (string, int) -> Verdict, token: string, now: int)
    requires Unforgeable(sign, verify)
    requires forall username: string, issued: int :: token != sign(Payload(username, issued))
    ensures DecodeToken(verify, token, now) == Err(AuthenticationFailed("Invalid token"))
  {
  }

  /** Soundness of the gate: a request resolved to `name` carries, after
      its quotes are removed, `Bearer ` and a token issued for `name` whose
      lifetime has not yet passed. */
  lemma AccessOnlyWithIssuedToken(sign: Claims -> string, verify: (string, int) -> Verdict,
                                  headers: map<string, string>, now: int, name: string)
    requires Unforgeable(sign, verify) && SignerSound(sign, verify)
    requires CheckAccess(verify, headers, now) == Ok(Text(name))
    ensures exists issued: int ::
      && StripQuotes(AuthorizationHeader(headers)) == BearerPrefix + sign(Payload(name, issued))
      && now <= issued + TokenLifetime
  {
  }

  /** Decoding a freshly issued token gives back its claims, whose
      `username` is the user's username. */
  lemma IssuedTokenDecodes(sign: Claims -> string, verify: (string, int) -> Verdict,
                           user: User, issued: int, now: int)
    requires SignerSound(sign, verify)
    requires issued <= now <= issued + TokenLifetime
    ensures DecodeToken(verify, EncodeToken(sign, user, issued), now) == Ok(Payload(user.username, issued))
    ensures DecodeToken(verify, EncodeToken(sign, user, issued), now).value["username"] == Text(user.username)
  {
  }

  /** Once its lifetime has passed, an issued token decodes to
      "Token has expired". */
  lemma IssuedTokenExpires(sign: Claims -> string, verify: (string, int) -> Verdict,
                           user: User, issued: int, now: int)
    requires SignerSound(sign, verify)
    requires issued + TokenLifetime < now
    ensures DecodeToken(verify, EncodeToken(sign, user, issued), now) == Err(AuthenticationFailed("Token has expired"))
  {
  }

  /** A request carrying `Bearer <token>` for a freshly issued token is
      resolved to the username it was issued for. */
  lemma IssuedTokenGrantsAccess(sign: Claims -> string, verify: (string, int) -> Verdict,
                                user: User, issued: int, now: int)
    requires SignerSound(sign, verify) && CompactTokens(sign)
    requires issued <= now <= issued + TokenLifetime
    ensures CheckAccess(verify, map["Authorization" := BearerPrefix + EncodeToken(sign, user, issued)], now)
            == Ok(Text(user.username))
  {
    var token := EncodeToken(sign, user, issued);
    assert '"' !in token && '\'' !in token;
    BearerHeaderYieldsToken(token);
    IssuedTokenDecodes(sign, verify, user, issued, now);
  }

  /** Once its lifetime has passed, an issued token no longer gives access. */
  lemma ExpiredTokenRefused(sign: Claims -> string, verify: (string, int) -> Verdict,
                            user: User, issued: int, now: int)
    requires SignerSound(sign, verify) && CompactTokens(sign)
    requires issued + TokenLifetime < now
    ensures CheckAccess(verify, map["Authorization" := BearerPrefix + EncodeToken(sign, user, issued)], now)
            == Err(AuthenticationFailed(DefaultDetail))
  {
    var token := EncodeToken(sign, user, issued);
    assert '"' !in token && '\'' !in token;
    BearerHeaderYieldsToken(token);
    IssuedTokenExpires(sign, verify, user, issued, now);
  }
}
