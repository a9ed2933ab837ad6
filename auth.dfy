/** `ValidateAndExtractClaims`: reading the bearer token from an
    `Authorization` header (section 2.1 of RFC 6750, with the scheme name
    matched case-insensitively as section 2.1 of RFC 7235 allows) and
    turning the verified token's payload into claims. The call to Google's
    token verifier is a parameter of the model. */
module Auth {
  import opened Wrappers
  import opened Strings

  datatype GoogleClaims = GoogleClaims(email: string, googleId: string, name: string, picture: string)

  /** A claim value as decoded from the token's JSON payload. */
  datatype ClaimValue = JsonNull | JsonString(text: string) | JsonOther

  datatype Payload = Payload(subject: string, claims: map<string, ClaimValue>)

  /** The outcome of the call. A failed type assertion on the email claim
      panics, which gin turns into a 500 response. */
  datatype AuthOutcome = Authenticated(claims: GoogleClaims) | Refused(message: string) | Panicked

  const MissingHeader: string := "unauthorized, provide Bearer token in Authorization header"
  const BadFormat: string := "authorization header format must be Bearer {token}"
  const InvalidTokenPrefix: string := "invalid Google Token: "
  const NoEmail: string := "email not found in token"

  /** A claim that is present and is a string, or "" (Go's `v, ok := x.(string)`). */
  function StringClaim(claims: map<string, ClaimValue>, key: string): (v: string)
    ensures key in claims && claims[key].JsonString? ==> v == claims[key].text
    ensures !(key in claims && claims[key].JsonString?) ==> v == ""
  {
    if key in claims && claims[key].JsonString? then claims[key].text else ""
  }

  /** The steps after Google accepted the token. */
  function ClaimsOf(payload: Payload): (r: AuthOutcome)
    ensures r.Authenticated? <==> "email" in payload.claims && payload.claims["email"].JsonString?
    ensures r.Authenticated? ==> r.claims == GoogleClaims(payload.claims["email"].text, payload.subject,
      StringClaim(payload.claims, "name"), StringClaim(payload.claims, "picture"))
    ensures ("email" !in payload.claims || payload.claims["email"].JsonNull?) <==> r == Refused(NoEmail)
  {
    if "email" !in payload.claims || payload.claims["email"].JsonNull? then Refused(NoEmail)
    else match payload.claims["email"]
      case JsonString(email) =>
        Authenticated(GoogleClaims(email, payload.subject,
          StringClaim(payload.claims, "name"), StringClaim(payload.claims, "picture")))
      case _ => Panicked
  }

  /** `ValidateAndExtractClaims(header)`; `verify` stands for
      `idtoken.Validate` with the configured client id: the payload, or the
      verifier's error message. */
  function ValidateAndExtractClaims(header: string, verify: string -> Result<Payload, string>): (r: AuthOutcome)
    ensures header == "" ==> r == Refused(MissingHeader)
  {
    if header == "" then Refused(MissingHeader)
    else
      var parts := SplitFirst(header, ' ');
      if |parts| != 2 || Lower(parts[0]) != "bearer" then Refused(BadFormat)
      else CheckToken(parts[1], verify)
  }

  /** What happens to a token once the header was well formed: the
      verifier's error, prefixed, or the claims of its payload. */
  function CheckToken(token: string, verify: string -> Result<Payload, string>): (r: AuthOutcome)
    ensures verify(token).Err? ==> r == Refused(InvalidTokenPrefix + verify(token).error)
    ensures verify(token).Ok? ==> r == ClaimsOf(verify(token).value)
  {
    match verify(token)
    case Err(msg) => Refused(InvalidTokenPrefix + msg)
    case Ok(payload) => ClaimsOf(payload)
  }

  /** A header without a space cannot carry a token. */
  lemma NoSpaceRefused(header: string, verify: string -> Result<Payload, string>)
    requires header != "" && ' ' !in header
    ensures ValidateAndExtractClaims(header, verify) == Refused(BadFormat)
  {
  }

  /** For a header `scheme + " " + token` whose scheme has no space, the
      scheme is accepted exactly when it is "bearer" in any letter case,
      and then the whole remainder, spaces and all, is what the verifier
      sees. */
  lemma TokenIsRemainder(scheme: string, token: string, verify: string -> Result<Payload, string>)
    requires ' ' !in scheme
    ensures var r := ValidateAndExtractClaims(scheme + " " + token, verify);
      && (Lower(scheme) != "bearer" ==> r == Refused(BadFormat))
      && (Lower(scheme) == "bearer" ==> r == CheckToken(token, verify))
  {
    SplitFirstOf(scheme, ' ', token);
    assert scheme + " " + token == scheme + [' '] + token;
  }

  /** Every letter-case spelling of "Bearer" is accepted. */
  lemma SchemeCaseInsensitive(token: string, verify: string -> Result<Payload, string>)
    ensures ValidateAndExtractClaims("BEARER " + token, verify) == CheckToken(token, verify)
    ensures ValidateAndExtractClaims("bearer " + token, verify) == CheckToken(token, verify)
    ensures ValidateAndExtractClaims("Bearer " + token, verify) == CheckToken(token, verify)
  {
    LowerSpellings();
    assert "BEARER " + token == "BEARER" + " " + token;
    assert "bearer " + token == "bearer" + " " + token;
    assert "Bearer " + token == "Bearer" + " " + token;
    BearerHeader("BEARER", token, verify);
    BearerHeader("bearer", token, verify);
    BearerHeader("Bearer", token, verify);
  }

  lemma BearerHeader(scheme: string, token: string, verify: string -> Result<Payload, string>)
    requires ' ' !in scheme && Lower(scheme) == "bearer"
    ensures ValidateAndExtractClaims(scheme + " " + token, verify) == CheckToken(token, verify)
  {
    TokenIsRemainder(scheme, token, verify);
  }

  lemma LowerSpellings()
    ensures Lower("BEARER") == "bearer" && Lower("Bearer") == "bearer" && Lower("bearer") == "bearer"
  {
    assert Lower("BEARER") == "bearer";
    assert Lower("Bearer") == "bearer";
  }
}
