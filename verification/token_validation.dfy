/** How the booking service and the resource catalogue accept an access
    token: the key-set address derived from the configured issuer, the
    relaxed issuer test, the composition of the timestamp and issuer
    validators, and the path rule that leaves only the actuator endpoints
    open. Both services use the same rules. Signature checks and key
    fetching are not modelled. */
module TokenValidation {
  import opened Wrappers
  import opened Text

  const CertsPath: string := "/protocol/openid-connect/certs"
  const InternalAuthority: string := "keycloak:8080"
  const ExternalAuthority: string := "localhost:8088"
  const LocalAuthority: string := "localhost:8080"
  const RealmSuffix: string := "/realms/app"
  const InvalidToken: string := "invalid_token"

  /** The key-set address: the issuer address followed by Keycloak's
      certificate path. */
  function JwkSetUri(issuerUri: string): (r: string)
    ensures StartsWith(r, issuerUri) && EndsWith(r, CertsPath)
    ensures |r| == |issuerUri| + |CertsPath|
  {
    var r := issuerUri + CertsPath;
    assert r[..|issuerUri|] == issuerUri;
    assert r[|r| - |CertsPath|..] == CertsPath;
    r
  }

  /** The issuers a token may name: the configured one, the configured one
      with every `keycloak:8080` spelled `localhost:8088` or
      `localhost:8080`, or any issuer ending in `/realms/app`. */
  predicate IssuerAccepted(issuerUri: string, tokenIssuer: string) {
    || tokenIssuer == issuerUri
    || tokenIssuer == ReplaceAll(issuerUri, InternalAuthority, ExternalAuthority)
    || tokenIssuer == ReplaceAll(issuerUri, InternalAuthority, LocalAuthority)
    || EndsWith(tokenIssuer, RealmSuffix)
  }

  /** The strict test of section 4.1.1 of RFC 7519 as a resource server
      applies it: the issuer is exactly the configured one. */
  predicate StrictIssuer(issuerUri: string, tokenIssuer: string) {
    tokenIssuer == issuerUri
  }

  datatype TokenError = TokenError(errorCode: string, description: string)

  /** A validator either reports its errors (none means success) or throws. */
  datatype Outcome = Checked(errors: seq<TokenError>) | Threw

  predicate Passes(o: Outcome) {
    o.Checked? && |o.errors| == 0
  }

  /** The issuer validator. A token without an issuer makes it throw. */
  function IssuerValidator(issuerUri: string, tokenIssuer: Option<string>): (o: Outcome)
    ensures o.Threw? <==> tokenIssuer.None?
    ensures Passes(o) <==> tokenIssuer.Some? && IssuerAccepted(issuerUri, tokenIssuer.value)
    ensures o.Checked? && !Passes(o) ==> |o.errors| == 1 && o.errors[0].errorCode == InvalidToken
  {
    match tokenIssuer
    case None => Threw
    case Some(iss) =>
      if IssuerAccepted(issuerUri, iss) then Checked([])
      else Checked([TokenError(InvalidToken, "Invalid issuer: " + iss)])
  }

  /** Two validators run in turn, their errors collected; an exception in
      either escapes. */
  function Delegating(first: Outcome, second: Outcome): (o: Outcome)
    ensures Passes(o) <==> Passes(first) && Passes(second)
    ensures o.Threw? <==> first.Threw? || second.Threw?
  {
    if first.Threw? || second.Threw? then Threw else Checked(first.errors + second.errors)
  }

  /** The validator installed in both services: the timestamp validator's
      outcome (an input here), then the issuer validator. */
  function ServiceValidator(issuerUri: string, timestamp: Outcome, tokenIssuer: Option<string>): (o: Outcome)
    ensures Passes(o) <==> Passes(timestamp) && tokenIssuer.Some? && IssuerAccepted(issuerUri, tokenIssuer.value)
  {
    Delegating(timestamp, IssuerValidator(issuerUri, tokenIssuer))
  }

  /** The services' request rule: the actuator paths are open, every other
      path needs an authenticated caller. */
  predicate ServiceAdmits(path: string, authenticated: bool) {
    UnderPath(path, "/actuator") || authenticated
  }

  // ---------------------------------------------------------------------------
  // Properties
  // ---------------------------------------------------------------------------

  /** The relaxed test contains the strict one. */
  lemma StrictIssuerIsAccepted(issuerUri: string, tokenIssuer: string)
    requires StrictIssuer(issuerUri, tokenIssuer)
    ensures IssuerAccepted(issuerUri, tokenIssuer)
  {
  }

  /** Replacing an authority in an issuer address ending in `/realms/app`
      leaves that ending in place. */
  lemma RewriteKeepsRealmSuffix(host: string, replacement: string)
    ensures EndsWith(ReplaceAll(host + RealmSuffix, InternalAuthority, replacement), RealmSuffix)
  {
    var tail := "realms/app";
    assert RealmSuffix == ['/'] + tail;
    assert host + RealmSuffix == host + ['/'] + tail;
    assert |tail| < |InternalAuthority|;
    assert !Contains(tail, InternalAuthority);
    ReplaceAllWithoutMatch(tail, InternalAuthority, replacement);
    ReplaceAllSplitsAt(host, '/', tail, InternalAuthority, replacement);
    var r := ReplaceAll(host, InternalAuthority, replacement) + ['/'] + tail;
    assert r == ReplaceAll(host, InternalAuthority, replacement) + RealmSuffix;
    assert r[|r| - |RealmSuffix|..] == RealmSuffix;
  }

  /** With the usual configuration, an issuer address ending in
      `/realms/app`, the two rewritten forms and the configured address all
      end that way too, so the test reduces to the suffix alone: any host
      whatever is accepted. */
  lemma RealmIssuerReducesToSuffix(host: string, tokenIssuer: string)
    ensures IssuerAccepted(host + RealmSuffix, tokenIssuer) <==> EndsWith(tokenIssuer, RealmSuffix)
  {
    RewriteKeepsRealmSuffix(host, ExternalAuthority);
    RewriteKeepsRealmSuffix(host, LocalAuthority);
    var issuerUri := host + RealmSuffix;
    assert issuerUri[|issuerUri| - |RealmSuffix|..] == RealmSuffix;
  }

  /** The relaxation is real: with the default issuer, a token naming a
      foreign host passes though the strict test refuses it. */
  lemma ForeignHostPasses()
    ensures var issuerUri := "http://keycloak:8080/realms/app";
            var foreign := "https://attacker.example/realms/app";
            !StrictIssuer(issuerUri, foreign) && IssuerAccepted(issuerUri, foreign)
  {
    var foreign := "https://attacker.example/realms/app";
    assert foreign == "https://attacker.example" + RealmSuffix;
    RealmIssuerReducesToSuffix("http://keycloak:8080", foreign);
    assert foreign[|foreign| - |RealmSuffix|..] == RealmSuffix;
  }

  /** An expired token is refused whatever its issuer, and a token from a
      refused issuer is refused whatever its timestamps. */
  lemma BothValidatorsMustPass(issuerUri: string, timestamp: Outcome, tokenIssuer: Option<string>)
    ensures !Passes(timestamp) ==> !Passes(ServiceValidator(issuerUri, timestamp, tokenIssuer))
    ensures tokenIssuer.Some? && !IssuerAccepted(issuerUri, tokenIssuer.value) ==>
              !Passes(ServiceValidator(issuerUri, timestamp, tokenIssuer))
  {
  }

  /** The actuator paths are the only ones open to anonymous callers. */
  lemma OnlyActuatorIsOpen(path: string)
    ensures ServiceAdmits(path, false) <==> path == "/actuator" || StartsWith(path, "/actuator/")
    ensures ServiceAdmits(path, true)
  {
  }
}
