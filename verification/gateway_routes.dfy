/** The gateway's route table: which service a request path goes to, and
    the one path rewrite, on the Keycloak route. A route's pattern, a base
    path followed by a double-star segment, covers the base path itself and
    every path under it. */
module GatewayRoutes {
  import opened Wrappers
  import opened Text

  /** The four target addresses, each configurable. */
  datatype Config = Config(
    resourceServiceUrl: string,
    bookingServiceUrl: string,
    notificationServiceUrl: string,
    keycloakUrl: string)

  const DefaultConfig: Config := Config(
    "http://resource-service:8081",
    "http://booking-service:8082",
    "http://notification-service:8083",
    "http://keycloak:8080")

  datatype Route = ResourceRoute | FileRoute | BookingRoute | NotificationRoute | KeycloakRoute

  /** The path a route's patterns cover. */
  function Base(route: Route): string {
    match route
    case ResourceRoute => "/resources"
    case FileRoute => "/files"
    case BookingRoute => "/bookings"
    case NotificationRoute => "/notifications"
    case KeycloakRoute => "/auth"
  }

  predicate Matches(route: Route, path: string) {
    UnderPath(path, Base(route))
  }

  /** The first route, in declaration order, whose patterns cover the path. */
  function RouteFor(path: string): (r: Option<Route>)
    ensures r.Some? ==> Matches(r.value, path)
  {
    if Matches(ResourceRoute, path) then Some(ResourceRoute)
    else if Matches(FileRoute, path) then Some(FileRoute)
    else if Matches(BookingRoute, path) then Some(BookingRoute)
    else if Matches(NotificationRoute, path) then Some(NotificationRoute)
    else if Matches(KeycloakRoute, path) then Some(KeycloakRoute)
    else None
  }

  function TargetUrl(cfg: Config, route: Route): string {
    match route
    case ResourceRoute => cfg.resourceServiceUrl
    case FileRoute => cfg.resourceServiceUrl
    case BookingRoute => cfg.bookingServiceUrl
    case NotificationRoute => cfg.notificationServiceUrl
    case KeycloakRoute => cfg.keycloakUrl
  }

  /** The Keycloak route's rewrite of `/auth/<segment>` to `/<segment>`; a
      path the pattern does not match, `/auth` itself among them, is left
      as it is. */
  function RewriteAuthPath(path: string): (r: string)
    ensures StartsWith(path, "/auth/") ==> |r| == |path| - 5 && StartsWith(r, "/")
    ensures !StartsWith(path, "/auth/") ==> r == path
  {
    if StartsWith(path, "/auth/") then "/" + path[6..] else path
  }

  datatype Forwarded = Forwarded(url: string, path: string)

  /** Where a request goes: the matched route's address, with the path
      unchanged except on the Keycloak route. No route, no forwarding. */
  function Forward(cfg: Config, path: string): (r: Option<Forwarded>)
    ensures r.None? <==> RouteFor(path).None?
    ensures r.Some? && RouteFor(path) != Some(KeycloakRoute) ==> r.value.path == path
  {
    match RouteFor(path)
    case None => None
    case Some(KeycloakRoute) => Some(Forwarded(cfg.keycloakUrl, RewriteAuthPath(path)))
    case Some(route) => Some(Forwarded(TargetUrl(cfg, route), path))
  }

  // ---------------------------------------------------------------------------
  // Properties
  // ---------------------------------------------------------------------------

  /** A path covered by a pattern shares the pattern's second character. */
  lemma SecondCharOfMatch(route: Route, path: string)
    requires Matches(route, path)
    ensures |path| >= 2 && path[1] == Base(route)[1]
  {
    var base := Base(route);
    if path != base {
      assert path[..|base + "/"|] == base + "/";
      assert path[1] == (base + "/")[1];
    }
  }

  /** The patterns have distinct first segments, so at most one route
      covers any path. */
  lemma RoutesAreDisjoint(a: Route, b: Route, path: string)
    requires Matches(a, path) && Matches(b, path)
    ensures a == b
  {
    SecondCharOfMatch(a, path);
    SecondCharOfMatch(b, path);
  }

  /** The declaration order does not matter: the route chosen is the one
      route that covers the path, and no route is chosen exactly when none
      covers it. */
  lemma RouteIsTheMatchingOne(path: string, route: Route)
    ensures RouteFor(path) == Some(route) <==> Matches(route, path)
    ensures RouteFor(path).None? <==> forall x: Route :: !Matches(x, path)
  {
    if Matches(route, path) {
      RoutesAreDisjoint(RouteFor(path).value, route, path);
    }
  }

  /** Each prefix reaches its service: resources and files the catalogue,
      bookings the booking service, notifications the notification service,
      with the path unchanged. */
  lemma ServicePathsAreForwardedUnchanged(cfg: Config, route: Route, path: string)
    requires route != KeycloakRoute && Matches(route, path)
    ensures Forward(cfg, path) == Some(Forwarded(TargetUrl(cfg, route), path))
  {
    RouteIsTheMatchingOne(path, route);
  }

  /** `/auth/<rest>` reaches Keycloak as `/<rest>`, and putting `/auth` back
      in front of the forwarded path gives the original request path. */
  lemma AuthPathsAreRewritten(cfg: Config, rest: string)
    ensures Forward(cfg, "/auth/" + rest) == Some(Forwarded(cfg.keycloakUrl, "/" + rest))
    ensures "/auth" + Forward(cfg, "/auth/" + rest).value.path == "/auth/" + rest
  {
    var path := "/auth/" + rest;
    assert path[..|"/auth/"|] == "/auth/";
    assert path[6..] == rest;
    assert Matches(KeycloakRoute, path) by {
      assert path[..|"/auth" + "/"|] == "/auth" + "/";
    }
    RouteIsTheMatchingOne(path, KeycloakRoute);
  }

  /** `/auth` alone goes to Keycloak unchanged. */
  lemma BareAuthPathIsKept(cfg: Config)
    ensures Forward(cfg, "/auth") == Some(Forwarded(cfg.keycloakUrl, "/auth"))
  {
    RouteIsTheMatchingOne("/auth", KeycloakRoute);
  }

  /** Under any configuration, file paths and resource paths reach the same
      catalogue address, each path unchanged; by default that is
      `http://resource-service:8081`. */
  lemma FilesShareTheCatalogue(cfg: Config, filePath: string, resourcePath: string)
    requires Matches(FileRoute, filePath) && Matches(ResourceRoute, resourcePath)
    ensures Forward(cfg, filePath) == Some(Forwarded(cfg.resourceServiceUrl, filePath))
    ensures Forward(cfg, resourcePath) == Some(Forwarded(cfg.resourceServiceUrl, resourcePath))
    ensures TargetUrl(DefaultConfig, FileRoute) == "http://resource-service:8081"
  {
    ServicePathsAreForwardedUnchanged(cfg, FileRoute, filePath);
    ServicePathsAreForwardedUnchanged(cfg, ResourceRoute, resourcePath);
  }
}
