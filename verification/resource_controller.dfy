/** The catalogue endpoints under `/resources`: bean validation of the
    request body first, then the `hasRole('admin')` guard on every change,
    then the service call and its status. Callers reach these endpoints
    authenticated; their granted authorities are an input. */
module ResourceController {
  import opened Wrappers
  import opened Http
  import opened Authorities
  import opened ResourceModel
  import opened ResourceRepository
  import opened ResourceService

  /** `@PreAuthorize("hasRole('admin')")`. */
  predicate IsAdmin(authorities: seq<string>) {
    HasRole(authorities, "admin")
  }

  /** `POST /resources`: 400 for an invalid body (even from a non-admin),
      403 for a valid body from a non-admin, and 201 with the created record
      otherwise. A refused request changes nothing. */
  function CreateResource(c: Catalogue, dto: ResourceDTO, authorities: seq<string>): (r: (Response<ResourceDTO>, Catalogue))
    ensures r.0.status == Created <==> IsValidResource(dto) && IsAdmin(authorities)
    ensures !IsValidResource(dto) ==> r == (Response(BadRequest, None), c)
    ensures IsValidResource(dto) && !IsAdmin(authorities) ==> r == (Response(Forbidden, None), c)
    ensures r.0.status == Created ==>
              && r.0.body.Some? && r.0.body.value.id == Some(c.nextId)
              && c.nextId in r.1.store && r.0.body.value == ToDTO(r.1.store[c.nextId])
    ensures IsValidResource(dto) && IsAdmin(authorities) ==>
              && r.1 == ResourceService.CreateResource(c, dto).1
              && r.0.body == Some(ResourceService.CreateResource(c, dto).0)
  {
    if !IsValidResource(dto) then (Response(BadRequest, None), c)
    else if !IsAdmin(authorities) then (Response(Forbidden, None), c)
    else
      var (created, next) := ResourceService.CreateResource(c, dto);
      (Response(Created, Some(created)), next)
  }

  /** `GET /resources/{id}`: the record, or 404. */
  function GetResource(c: Catalogue, id: int): (r: (Response<ResourceDTO>, Catalogue))
    ensures r.0.status == Ok || r.0.status == NotFound
    ensures r.0.body.Some? <==> r.0.status == Ok
    ensures r.1.store == c.store
  {
    var (found, next) := GetResourceById(c, id);
    match found
    case Some(d) => (Response(Ok, Some(d)), next)
    case None => (Response(NotFound, None), next)
  }

  /** `GET /resources` with the optional `type` and `available` parameters.
      Only `available=true` filters; `available=false` lists the same as no
      flag at all. */
  function GetAllResources(c: Catalogue, resourceType: Option<ResourceType>, available: Option<bool>)
    : (r: Response<map<int, ResourceDTO>>)
    ensures r.status == Ok && r.body.Some?
    ensures forall k :: k in r.body.value ==> k in c.store && r.body.value[k] == ToDTO(c.store[k])
  {
    if resourceType.Some? && available == Some(true) then
      Response(Ok, Some(GetAvailableResourcesByType(c, resourceType.value)))
    else if resourceType.Some? then
      Response(Ok, Some(GetResourcesByType(c, resourceType.value)))
    else if available == Some(true) then
      Response(Ok, Some(GetAvailableResources(c)))
    else
      Response(Ok, Some(ResourceService.GetAllResources(c)))
  }

  /** `PUT /resources/{id}`: 400 for an invalid body, 403 for a non-admin,
      then 200 with the updated record or 404 for a missing id. */
  function UpdateResource(c: Catalogue, id: int, dto: ResourceDTO, authorities: seq<string>)
    : (r: (Response<ResourceDTO>, Catalogue))
    ensures !IsValidResource(dto) ==> r == (Response(BadRequest, None), c)
    ensures IsValidResource(dto) && !IsAdmin(authorities) ==> r == (Response(Forbidden, None), c)
    ensures IsValidResource(dto) && IsAdmin(authorities) ==>
              && (r.0.status == Ok || r.0.status == NotFound)
              && (r.0.body.Some? <==> r.0.status == Ok)
              && r.1.cache == map[]
    ensures IsValidResource(dto) && IsAdmin(authorities) ==>
              && r.1 == ResourceService.UpdateResource(c, id, dto).1
              && r.0.body == ResourceService.UpdateResource(c, id, dto).0
  {
    if !IsValidResource(dto) then (Response(BadRequest, None), c)
    else if !IsAdmin(authorities) then (Response(Forbidden, None), c)
    else
      var (updated, next) := ResourceService.UpdateResource(c, id, dto);
      match updated
      case Some(d) => (Response(Ok, Some(d)), next)
      case None => (Response(NotFound, None), next)
  }

  /** `DELETE /resources/{id}`: 403 for a non-admin, then 204 or 404. */
  function DeleteResource(c: Catalogue, id: int, authorities: seq<string>): (r: (Response<()>, Catalogue))
    ensures r.0.body.None?
    ensures !IsAdmin(authorities) ==> r == (Response(Forbidden, None), c)
    ensures IsAdmin(authorities) ==> (r.0.status == NoContent <==> id in c.store) && r.1.store == c.store - {id}
    ensures IsAdmin(authorities) ==> (r.0.status == NotFound <==> id !in c.store)
  {
    if !IsAdmin(authorities) then (Response(Forbidden, None), c)
    else
      var (deleted, next) := ResourceService.DeleteResource(c, id);
      if deleted then (Response(NoContent, None), next) else (Response(NotFound, None), next)
  }

  /** `GET /resources/{id}/availability`: always 200; a missing resource is
      reported unavailable, not 404. */
  function CheckAvailability(c: Catalogue, id: int): (r: Response<bool>)
    ensures r.status == Ok && r.body.Some?
    ensures r.body.value <==> id in c.store && c.store[id].available
  {
    Response(Ok, Some(IsResourceAvailable(c, id)))
  }

  // ---------------------------------------------------------------------------
  // Properties
  // ---------------------------------------------------------------------------

  /** The listing filter, stated independently of the four service calls:
      a given type must match, and only a true flag asks for availability. */
  predicate Matches(res: Resource, resourceType: Option<ResourceType>, available: Option<bool>) {
    && (resourceType.None? || res.resourceType == resourceType)
    && (available != Some(true) || res.available)
  }

  /** The listing holds exactly the stored resources the filter matches. */
  lemma ListingIsFilter(c: Catalogue, resourceType: Option<ResourceType>, available: Option<bool>)
    ensures forall k :: k in GetAllResources(c, resourceType, available).body.value <==>
                          k in c.store && Matches(c.store[k], resourceType, available)
  {
  }

  /** `available=false` is not a filter for unavailable resources. */
  lemma FalseFlagIsNoFilter(c: Catalogue, resourceType: Option<ResourceType>)
    ensures GetAllResources(c, resourceType, Some(false)) == GetAllResources(c, resourceType, None)
  {
  }

  /** With a coherent cache, reading a resource answers 200 exactly when it
      is stored. */
  lemma GetResourceStatus(c: Catalogue, id: int)
    requires CacheCoherent(c)
    ensures GetResource(c, id).0.status == Ok <==> id in c.store
    ensures GetResource(c, id).0.status == Ok ==> GetResource(c, id).0.body == Some(ToDTO(c.store[id]))
  {
    ReadThroughIsStoreRead(c, id);
  }

  /** An update answers 200 exactly when the body is valid, the caller is
      an administrator and the resource exists, and 404 when only the last
      fails; only an admitted request touches the store. */
  lemma UpdateStatusCodes(c: Catalogue, id: int, dto: ResourceDTO, authorities: seq<string>)
    requires WellKeyed(c.store)
    ensures UpdateResource(c, id, dto, authorities).0.status == Ok <==>
              IsValidResource(dto) && IsAdmin(authorities) && id in c.store
    ensures UpdateResource(c, id, dto, authorities).0.status == NotFound <==>
              IsValidResource(dto) && IsAdmin(authorities) && id !in c.store
    ensures UpdateResource(c, id, dto, authorities).1.store != c.store ==>
              IsValidResource(dto) && IsAdmin(authorities) && id in c.store
  {
  }

  /** Validation comes before authorisation: a non-admin sending an invalid
      body is told 400, not 403. */
  lemma ValidationBeforeAuthorisation(c: Catalogue, id: int, dto: ResourceDTO, authorities: seq<string>)
    requires !IsValidResource(dto) && !IsAdmin(authorities)
    ensures CreateResource(c, dto, authorities).0.status == BadRequest
    ensures UpdateResource(c, id, dto, authorities).0.status == BadRequest
  {
  }

  /** Administration follows the `admin` role wherever the token lists it:
      in the realm roles or in any client's roles. */
  lemma AdminFollowsRole(claims: Claims)
    ensures IsAdmin(GrantedAuthorities(claims)) <==>
              || "admin" in RealmRoles(claims)
              || ("resource_access" in claims && claims["resource_access"].ClaimMap?
                  && exists i :: 0 <= i < |claims["resource_access"].entries|
                                 && "admin" in RolesOf(claims["resource_access"].entries[i].1))
  {
    HasRoleIffListed(claims, "admin");
  }
}
