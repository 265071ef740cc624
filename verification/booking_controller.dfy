/** The booking endpoints: how each service outcome becomes an HTTP status,
    where the caller's identity comes from, and who may read a booking. */
module BookingController {
  import opened Wrappers
  import opened Http
  import opened Intervals
  import opened BookingModel
  import opened BookingRepository
  import opened PricePort
  import opened BookingService
  import opened Authorities

  /** The parts of the access token the controller reads: the subject, the
      raw token (forwarded to the price lookup), and the decoded claims. */
  datatype Jwt = Jwt(subject: string, tokenValue: string, claims: Claims)

  /** Items separated by a comma and a space, as Java's collections print
      them. */
  function Joined(parts: seq<string>): string {
    if |parts| == 0 then "" else if |parts| == 1 then parts[0] else parts[0] + ", " + Joined(parts[1..])
  }

  /** A claim's `toString()`: an array as `[a, b]`, an object as
      `{k=v, ...}`. */
  function ClaimText(c: Claim): (t: string)
    ensures c.ClaimMap? ==> |t| >= 2 && t[0] == '{' && t[|t| - 1] == '}'
    ensures c.ClaimList? ==> |t| >= 2 && t[0] == '[' && t[|t| - 1] == ']'
  {
    match c
    case ClaimList(items) => "[" + Joined(items) + "]"
    case ClaimMap(entries) =>
      "{" + Joined(seq(|entries|, i requires 0 <= i < |entries| => entries[i].0 + "=" + ClaimText(entries[i].1))) + "}"
    case ClaimOther => ""
  }

  /** `getClaimAsStringList` as the token library performs it: an array
      becomes its items, and any other value the one-element list of its
      `toString()`. */
  function StringListAsWritten(c: Claim): (r: seq<string>)
    ensures c.ClaimList? ==> r == c.items
    ensures !c.ClaimList? ==> r == [ClaimText(c)]
  {
    match c
    case ClaimList(items) => items
    case _ => [ClaimText(c)]
  }

  /** `isAdmin` as written: "admin" among the strings `realm_access`
      converts to. */
  predicate IsAdminAsWritten(jwt: Jwt) {
    "realm_access" in jwt.claims && "admin" in StringListAsWritten(jwt.claims["realm_access"])
  }

  /** `isAdmin` as intended: "admin" among the realm roles, read from the
      `roles` member of the `realm_access` object. */
  predicate IsAdmin(jwt: Jwt) {
    "admin" in RealmRoles(jwt.claims)
  }

  /** `POST /bookings`. A request failing bean validation is answered 400
      before the method runs. Otherwise the user id is overwritten with the
      token's subject and the service is called with the raw token; every
      `IllegalArgumentException` becomes 400, and the broker's exception,
      which nothing catches, 500. */
  function CreateBooking(svc: Service, dto: BookingDTO, jwt: Jwt, now: int, reply: PriceReply, publish: Publish)
    : (r: (Response<BookingDTO>, Service))
    ensures !IsValidRequest(dto) ==> r == (Response(BadRequest, None), svc)
    ensures IsValidRequest(dto) ==>
              var o := BookingService.CreateBooking(svc, dto.(userId := Some(jwt.subject)), jwt.subject,
                                                    Some(jwt.tokenValue), now, reply, publish);
              && r.1 == o.next
              && (r.0.status == Created <==> o.result.Success?)
              && (r.0.status == BadRequest <==> o.result.Failure? && o.result.error.InvalidArgument?)
              && (r.0.status == InternalServerError <==> o.result.Failure? && !o.result.error.InvalidArgument?)
              && (r.0.body.Some? <==> o.result.Success?)
              && (o.result.Success? ==> r.0.body.value == o.result.value)
  {
    if !IsValidRequest(dto) then (Response(BadRequest, None), svc)
    else
      var userId := jwt.subject;
      var request := dto.(userId := Some(userId));
      var o := BookingService.CreateBooking(svc, request, userId, Some(jwt.tokenValue), now, reply, publish);
      match o.result
      case Success(created) => (Response(Created, Some(created)), o.next)
      case Failure(InvalidArgument(_)) => (Response(BadRequest, None), o.next)
      case Failure(_) => (Response(InternalServerError, None), o.next)
  }

  /** The read behind `GET /bookings/{id}`, for a given answer to the
      admin test: 404 when absent, the record when the caller owns it or
      counts as an administrator, 403 otherwise. */
  function ReadBooking(svc: Service, id: int, jwt: Jwt, admin: bool): (r: (Response<BookingDTO>, Service))
    ensures r.1 == GetBookingById(svc, id).next
    ensures r.0.body.Some? <==> r.0.status == Ok
    ensures r.0.status == Ok ==> Some(r.0.body.value) == GetBookingById(svc, id).result
  {
    var o := GetBookingById(svc, id);
    match o.result
    case None => (Response(NotFound, None), o.next)
    case Some(booking) =>
      match booking.userId
      case None => (Response(InternalServerError, None), o.next)
      case Some(owner) =>
        if owner == jwt.subject || admin then (Response(Ok, Some(booking)), o.next)
        else (Response(Forbidden, None), o.next)
  }

  /** `GET /bookings/{id}` as written: the admin test is `isAdmin` on the
      converted `realm_access` claim. */
  function GetBooking(svc: Service, id: int, jwt: Jwt): (r: (Response<BookingDTO>, Service))
    ensures r.1 == GetBookingById(svc, id).next
    ensures r.0.body.Some? <==> r.0.status == Ok
    ensures r.0.status == Ok ==> Some(r.0.body.value) == GetBookingById(svc, id).result
  {
    ReadBooking(svc, id, jwt, IsAdminAsWritten(jwt))
  }

  /** `GET /bookings/{id}` as intended: the admin test reads the realm
      roles. */
  function GetBookingIntended(svc: Service, id: int, jwt: Jwt): (r: (Response<BookingDTO>, Service))
    ensures r.1 == GetBookingById(svc, id).next
    ensures r.0.body.Some? <==> r.0.status == Ok
    ensures r.0.status == Ok ==> Some(r.0.body.value) == GetBookingById(svc, id).result
  {
    ReadBooking(svc, id, jwt, IsAdmin(jwt))
  }

  /** `GET /bookings`: the caller's own bookings. */
  function GetMyBookings(svc: Service, jwt: Jwt): (r: Response<map<int, BookingDTO>>)
    ensures r.status == Ok && r.body.Some?
    ensures forall k :: k in r.body.value <==> k in svc.store && svc.store[k].userId == jwt.subject
    ensures forall k :: k in r.body.value ==> r.body.value[k] == ToDTO(svc.store[k])
    ensures forall k :: k in r.body.value ==> r.body.value[k].userId == Some(jwt.subject)
  {
    Response(Ok, Some(GetUserBookings(svc, jwt.subject)))
  }

  /** `GET /bookings/resource/{resourceId}`: every booking of the resource,
      for any caller. */
  function GetResourceBookings(svc: Service, resourceId: int): (r: Response<map<int, BookingDTO>>)
    ensures r.status == Ok && r.body.Some?
    ensures forall k :: k in r.body.value <==> k in svc.store && svc.store[k].resourceId == resourceId
    ensures forall k :: k in r.body.value ==> r.body.value[k] == ToDTO(svc.store[k])
    ensures forall k :: k in r.body.value ==> r.body.value[k].resourceId == Some(resourceId)
  {
    Response(Ok, Some(BookingService.GetResourceBookings(svc, resourceId)))
  }

  /** `DELETE /bookings/{id}`: always the owner's cancel. An empty result is
      turned into an `IllegalArgumentException`; it and the
      `IllegalStateException` both become 400. */
  function CancelBooking(svc: Service, id: int, jwt: Jwt, publish: Publish): (r: (Response<()>, Service))
    ensures r.1 == BookingService.CancelBooking(svc, id, jwt.subject, publish).next
    ensures r.0.body.None?
    ensures r.0.status == NoContent || r.0.status == BadRequest
  {
    var o := BookingService.CancelBooking(svc, id, jwt.subject, publish);
    match o.result
    case Success(Some(_)) => (Response(NoContent, None), o.next)
    case Success(None) => (Response(BadRequest, None), o.next)
    case Failure(_) => (Response(BadRequest, None), o.next)
  }

  /** `GET /bookings/availability`: the two timestamps as the parser left
      them (`None` when the text does not parse), 400 if either failed, and
      otherwise the availability as it is. The order of the two is not
      checked. */
  function CheckAvailability(svc: Service, resourceId: int, start: Option<int>, end: Option<int>): (r: Response<bool>)
    ensures r.status == Ok <==> start.Some? && end.Some?
    ensures r.status != Ok ==> r == Response(BadRequest, None)
    ensures r.status == Ok ==> r.body == Some(IsResourceAvailable(svc, resourceId, start.value, end.value))
  {
    if start.None? || end.None? then Response(BadRequest, None)
    else Response(Ok, Some(IsResourceAvailable(svc, resourceId, start.value, end.value)))
  }

  // ---------------------------------------------------------------------------
  // Properties
  // ---------------------------------------------------------------------------

  /** The user id in the request body is ignored: whatever it says, the
      outcome is the same, and a created booking belongs to the subject. */
  lemma UserIdComesFromSubject(svc: Service, dto: BookingDTO, claimed: Option<string>, jwt: Jwt,
                               now: int, reply: PriceReply, publish: Publish)
    ensures CreateBooking(svc, dto.(userId := claimed), jwt, now, reply, publish)
         == CreateBooking(svc, dto, jwt, now, reply, publish)
    ensures CreateBooking(svc, dto, jwt, now, reply, publish).0.status == Created ==>
              CreateBooking(svc, dto, jwt, now, reply, publish).0.body.value.userId == Some(jwt.subject)
  {
    assert dto.(userId := claimed).(userId := Some(jwt.subject)) == dto.(userId := Some(jwt.subject));
  }

  /** Bad times (including a window under an hour), a conflict and an
      unknown resource all come back as 400,
      with nothing saved. */
  lemma RefusedCreatesAreBadRequests(svc: Service, dto: BookingDTO, jwt: Jwt, now: int, reply: PriceReply, publish: Publish)
    requires IsValidRequest(dto)
    requires || dto.startTime.value < now
             || dto.endTime.value < dto.startTime.value + 60
             || !IsResourceAvailable(svc, dto.resourceId.value, dto.startTime.value, dto.endTime.value)
             || GetResourcePrice(reply).None?
    ensures CreateBooking(svc, dto, jwt, now, reply, publish) == (Response(BadRequest, None), svc)
  {
  }

  /** As written, the admin override never fires for a `realm_access`
      object, the shape the identity provider issues: the conversion yields
      one string that starts with a brace. For an array claim it reads the
      items. */
  lemma AdminOverrideIsDeadAsWritten(jwt: Jwt)
    ensures "realm_access" in jwt.claims && jwt.claims["realm_access"].ClaimMap? ==> !IsAdminAsWritten(jwt)
    ensures "realm_access" in jwt.claims && jwt.claims["realm_access"].ClaimList? ==>
              (IsAdminAsWritten(jwt) <==> "admin" in jwt.claims["realm_access"].items)
  {
    if "realm_access" in jwt.claims && jwt.claims["realm_access"].ClaimMap? {
      var t := ClaimText(jwt.claims["realm_access"]);
      assert StringListAsWritten(jwt.claims["realm_access"]) == [t];
      assert t[0] == '{' && "admin"[0] == 'a';
    }
  }

  /** The input that shows it: an administrator's token whose
      `realm_access` is `{roles=[admin]}` is an administrator by its realm
      roles but not by the check as written. */
  lemma KeycloakAdminIsMissedAsWritten()
    ensures var jwt := Jwt("u1", "t", map["realm_access" := ClaimMap([("roles", ClaimList(["admin"]))])]);
            IsAdmin(jwt) && !IsAdminAsWritten(jwt)
  {
    var claims := map["realm_access" := ClaimMap([("roles", ClaimList(["admin"]))])];
    var jwt := Jwt("u1", "t", claims);
    assert Member([("roles", ClaimList(["admin"]))], "roles") == Some(ClaimList(["admin"]));
    assert RealmRoles(claims) == ["admin"];
    AdminOverrideIsDeadAsWritten(jwt);
  }

  /** The corrected check agrees with the authorities the resource
      catalogue grants from the same token: the caller is an administrator
      exactly when `ROLE_admin` is among its realm authorities. */
  lemma AdminMatchesRealmAuthority(jwt: Jwt)
    ensures IsAdmin(jwt) <==>
              RolePrefix + "admin" in GrantedAuthorities(jwt.claims)[..|RealmRoles(jwt.claims)|]
  {
    PrefixedMembership(RealmRoles(jwt.claims), "admin");
  }

  /** With a coherent cache, the read answers 404 exactly when the booking
      does not exist, 200 exactly when the caller owns it or counts as an
      administrator, and 403 otherwise. */
  lemma ReadBookingAccess(svc: Service, id: int, jwt: Jwt, admin: bool)
    requires CacheCoherent(svc)
    ensures ReadBooking(svc, id, jwt, admin).0.status == NotFound <==> id !in svc.store
    ensures ReadBooking(svc, id, jwt, admin).0.status == Ok <==>
              id in svc.store && (svc.store[id].userId == jwt.subject || admin)
    ensures ReadBooking(svc, id, jwt, admin).0.status == Forbidden <==>
              id in svc.store && svc.store[id].userId != jwt.subject && !admin
  {
    ReadThroughIsStoreRead(svc, id);
  }

  /** As written, with a coherent cache: 404 exactly when absent; 200
      exactly for the owner or a caller whose converted `realm_access`
      lists "admin"; 403 otherwise. For a token whose `realm_access` is an
      object or is missing, as the identity provider issues them, 200 goes
      to the owner alone. */
  lemma GetBookingAccess(svc: Service, id: int, jwt: Jwt)
    requires CacheCoherent(svc)
    ensures GetBooking(svc, id, jwt).0.status == NotFound <==> id !in svc.store
    ensures GetBooking(svc, id, jwt).0.status == Ok <==>
              id in svc.store && (svc.store[id].userId == jwt.subject || IsAdminAsWritten(jwt))
    ensures GetBooking(svc, id, jwt).0.status == Forbidden <==>
              id in svc.store && svc.store[id].userId != jwt.subject && !IsAdminAsWritten(jwt)
    ensures ("realm_access" in jwt.claims ==> jwt.claims["realm_access"].ClaimMap?) ==>
              (GetBooking(svc, id, jwt).0.status == Ok <==> id in svc.store && svc.store[id].userId == jwt.subject)
  {
    ReadBookingAccess(svc, id, jwt, IsAdminAsWritten(jwt));
    AdminOverrideIsDeadAsWritten(jwt);
  }

  /** As intended, with a coherent cache: 404 exactly when absent, 200
      exactly for the owner or a caller whose realm roles include "admin",
      403 otherwise. */
  lemma GetBookingIntendedAccess(svc: Service, id: int, jwt: Jwt)
    requires CacheCoherent(svc)
    ensures GetBookingIntended(svc, id, jwt).0.status == NotFound <==> id !in svc.store
    ensures GetBookingIntended(svc, id, jwt).0.status == Ok <==>
              id in svc.store && (svc.store[id].userId == jwt.subject || IsAdmin(jwt))
    ensures GetBookingIntended(svc, id, jwt).0.status == Forbidden <==>
              id in svc.store && svc.store[id].userId != jwt.subject && !IsAdmin(jwt)
  {
    ReadBookingAccess(svc, id, jwt, IsAdmin(jwt));
  }

  /** The endpoint-level counterexample: an administrator's token from the
      identity provider reading another user's booking is refused as
      written and served as intended. */
  lemma KeycloakAdminIsRefusedAsWritten(svc: Service, id: int)
    requires CacheCoherent(svc)
    requires id in svc.store && svc.store[id].userId == "owner"
    ensures var jwt := Jwt("other", "t", map["realm_access" := ClaimMap([("roles", ClaimList(["admin"]))])]);
            GetBooking(svc, id, jwt).0.status == Forbidden && GetBookingIntended(svc, id, jwt).0.status == Ok
  {
    var jwt := Jwt("other", "t", map["realm_access" := ClaimMap([("roles", ClaimList(["admin"]))])]);
    KeycloakAdminIsMissedAsWritten();
    GetBookingAccess(svc, id, jwt);
    GetBookingIntendedAccess(svc, id, jwt);
  }

  /** Cancelling answers 204 exactly when the caller owns an active booking
      under that id; a missing, foreign, cancelled or completed booking is a
      400, never a 404. */
  lemma CancelStatusCodes(svc: Service, id: int, jwt: Jwt, publish: Publish)
    requires WellKeyed(svc.store)
    ensures CancelBooking(svc, id, jwt, publish).0.status == NoContent <==>
              id in svc.store && svc.store[id].userId == jwt.subject && IsActive(svc.store[id].status)
    ensures CancelBooking(svc, id, jwt, publish).0.status != NotFound
  {
  }

  /** An inverted window is not refused: it is answered 200, and it is
      reported unavailable when an active booking covers its start. */
  lemma AvailabilityIgnoresOrder(svc: Service, resourceId: int, s: int, e: int, k: int)
    requires e < s
    requires k in svc.store && svc.store[k].resourceId == resourceId && IsActive(svc.store[k].status)
    requires svc.store[k].startTime <= s < svc.store[k].endTime
    ensures CheckAvailability(svc, resourceId, Some(s), Some(e)) == Response(Ok, Some(false))
  {
    InvertedRequestStillConflicts(svc.store[k].startTime, svc.store[k].endTime, s, e);
  }

  /** Resource bookings are listed whoever owns them. */
  lemma ResourceBookingsForAnyCaller(svc: Service, resourceId: int, k: int)
    requires k in svc.store && svc.store[k].resourceId == resourceId
    ensures k in GetResourceBookings(svc, resourceId).body.value
  {
  }
}
