/** How the gateway accepts an access token and which requests it lets
    through without one. Unlike the services, the gateway computes an issuer
    test only to log it: both of its validators answer success whatever they
    find. Signature checks and key fetching are not modelled. */
module GatewaySecurity {
  import opened Wrappers
  import opened Text
  import opened TokenValidation

  const InternalOrigin: string := "http://keycloak:8080"
  const ExternalOrigin: string := "http://localhost:8088"

  /** The issuer test the gateway computes: the services' alternatives plus
      the configured issuer with its `http://keycloak:8080` origin spelled
      `http://localhost:8088`. Its value is only logged. */
  predicate GatewayIssuerMatches(issuerUri: string, tokenIssuer: string) {
    || tokenIssuer == issuerUri
    || tokenIssuer == ReplaceAll(issuerUri, InternalAuthority, ExternalAuthority)
    || tokenIssuer == ReplaceAll(issuerUri, InternalOrigin, ExternalOrigin)
    || tokenIssuer == ReplaceAll(issuerUri, InternalAuthority, LocalAuthority)
    || EndsWith(tokenIssuer, RealmSuffix)
  }

  /** The gateway's issuer validator: reading a missing issuer throws, and
      otherwise it succeeds on a match and, after a warning, on a mismatch
      too. */
  function GatewayIssuerValidator(issuerUri: string, tokenIssuer: Option<string>): (o: Outcome)
    ensures o.Threw? <==> tokenIssuer.None?
    ensures tokenIssuer.Some? ==> Passes(o)
  {
    match tokenIssuer
    case None => Threw
    case Some(iss) =>
      if GatewayIssuerMatches(issuerUri, iss) then Checked([])
      else Checked([])
  }

  /** The validator installed in the gateway: it runs the issuer validator,
      then the default validator (its outcome an input here), and answers
      success when both pass, when either reports errors, and when either
      throws. */
  function LoggingValidator(issuerOutcome: Outcome, defaultOutcome: Outcome): (o: Outcome)
    ensures Passes(o)
  {
    if issuerOutcome.Threw? || defaultOutcome.Threw? then Checked([])
    else if |issuerOutcome.errors| == 0 && |defaultOutcome.errors| == 0 then Checked([])
    else Checked([])
  }

  function GatewayValidator(issuerUri: string, defaultOutcome: Outcome, tokenIssuer: Option<string>): (o: Outcome)
    ensures Passes(o)
  {
    LoggingValidator(GatewayIssuerValidator(issuerUri, tokenIssuer), defaultOutcome)
  }

  datatype HttpMethod = GET | HEAD | POST | PUT | PATCH | DELETE | OPTIONS | TRACE

  /** The permit rules, in order: the actuator paths, the `/auth` paths, and
      any preflight `OPTIONS` request. */
  predicate GatewayPermits(httpMethod: HttpMethod, path: string) {
    || UnderPath(path, "/actuator")
    || UnderPath(path, "/auth")
    || httpMethod == OPTIONS
  }

  /** Everything else needs an authenticated caller. */
  predicate GatewayAdmits(httpMethod: HttpMethod, path: string, authenticated: bool) {
    GatewayPermits(httpMethod, path) || authenticated
  }

  // ---------------------------------------------------------------------------
  // Properties
  // ---------------------------------------------------------------------------

  /** The gateway's test is at least as wide as the services' test, though
      it decides nothing. */
  lemma GatewayTestExtendsServiceTest(issuerUri: string, tokenIssuer: string)
    ensures IssuerAccepted(issuerUri, tokenIssuer) ==> GatewayIssuerMatches(issuerUri, tokenIssuer)
  {
  }

  /** A token the services refuse, whether for its timestamps or for its
      issuer, passes the gateway, and so does one without an issuer. */
  lemma GatewayPassesWhatServicesRefuse(issuerUri: string, timestamp: Outcome, tokenIssuer: Option<string>)
    requires !Passes(timestamp) || tokenIssuer.None? || !IssuerAccepted(issuerUri, tokenIssuer.value)
    ensures !Passes(ServiceValidator(issuerUri, timestamp, tokenIssuer))
    ensures Passes(GatewayValidator(issuerUri, timestamp, tokenIssuer))
  {
  }

  /** A path under `base` shares its second character. */
  lemma UnderPathSecondChar(path: string, base: string)
    requires |base| >= 2 && UnderPath(path, base)
    ensures |path| >= 2 && path[1] == base[1]
  {
    if path != base {
      assert path[..|base + "/"|] == base + "/";
      assert path[1] == (base + "/")[1];
    }
  }

  /** Anonymous requests pass exactly on the permitted paths and for
      preflights; an authenticated one always passes. */
  lemma AnonymousAccess(httpMethod: HttpMethod, path: string)
    ensures GatewayAdmits(httpMethod, path, false) <==>
              || path == "/actuator" || StartsWith(path, "/actuator/")
              || path == "/auth" || StartsWith(path, "/auth/")
              || httpMethod == OPTIONS
    ensures GatewayAdmits(httpMethod, path, true)
  {
  }

  /** The business routes are closed to anonymous callers except for
      preflights: a path whose first segment starts with `b`, `r`, `f` or `n`
      (bookings, resources, files, notifications) is neither an actuator nor
      an `/auth` path. */
  lemma BusinessPathsNeedAToken(httpMethod: HttpMethod, path: string)
    requires httpMethod != OPTIONS
    requires |path| >= 2 && path[1] in {'b', 'r', 'f', 'n'}
    ensures !GatewayAdmits(httpMethod, path, false)
  {
    if UnderPath(path, "/actuator") {
      UnderPathSecondChar(path, "/actuator");
    }
    if UnderPath(path, "/auth") {
      UnderPathSecondChar(path, "/auth");
    }
  }
}
