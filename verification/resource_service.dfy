/** The resource catalogue service: create, read (through the "resources"
    cache), list, update, delete, and the availability flag. Every call that
    changes the store clears the whole cache when it returns. */
module ResourceService {
  import opened Wrappers
  import opened ResourceModel
  import opened ResourceRepository

  datatype Catalogue = Catalogue(store: ResourceStore, nextId: int, cache: map<int, ResourceDTO>)

  /** Every cached record is the record of the stored resource under its key. */
  ghost predicate CacheCoherent(c: Catalogue) {
    forall k :: k in c.cache ==> k in c.store && c.cache[k] == ToDTO(c.store[k])
  }

  ghost predicate Consistent(c: Catalogue) {
    && WellKeyed(c.store)
    && (forall k :: k in c.store ==> k < c.nextId)
    && CacheCoherent(c)
  }

  /** The records of a sub-store, keyed by id. */
  function Records(found: ResourceStore): (r: map<int, ResourceDTO>)
    ensures r.Keys == found.Keys
    ensures forall k :: k in r ==> r[k] == ToDTO(found[k])
  {
    map k | k in found :: ToDTO(found[k])
  }

  /** `createResource`: the request's name, description, type, price and
      capacity are copied, and the availability defaults to true when the
      request leaves it out. */
  function CreateResource(c: Catalogue, dto: ResourceDTO): (r: (ResourceDTO, Catalogue))
    ensures c.nextId in r.1.store && r.1.store == c.store[c.nextId := r.1.store[c.nextId]]
    ensures r.1.nextId == c.nextId + 1 && r.1.cache == map[]
    ensures r.0 == ToDTO(r.1.store[c.nextId])
    ensures var saved := r.1.store[c.nextId];
            && saved.id == c.nextId
            && saved.name == dto.name && saved.description == dto.description
            && saved.resourceType == dto.resourceType && saved.pricePerHour == dto.pricePerHour
            && saved.capacity == dto.capacity
            && saved.available == dto.available.GetOr(true)
  {
    var resource := Resource(c.nextId, dto.name, dto.description, dto.resourceType, dto.pricePerHour, dto.capacity,
                             if dto.available.Some? then dto.available.value else true, None, None);
    (ToDTO(resource), Catalogue(c.store[c.nextId := resource], c.nextId + 1, map[]))
  }

  /** `getResourceById`, read through the cache. */
  function GetResourceById(c: Catalogue, id: int): (r: (Option<ResourceDTO>, Catalogue))
    ensures r.1.store == c.store && r.1.nextId == c.nextId
    ensures id in c.cache ==> r == (Some(c.cache[id]), c)
    ensures r.0.None? ==> r.1 == c
    ensures r.0.Some? ==> id in r.1.cache && r.1.cache[id] == r.0.value
    ensures forall k :: k in c.cache ==> k in r.1.cache && r.1.cache[k] == c.cache[k]
  {
    if id in c.cache then (Some(c.cache[id]), c)
    else
      match FindById(c.store, id)
      case None => (None, c)
      case Some(res) => (Some(ToDTO(res)), c.(cache := c.cache[id := ToDTO(res)]))
  }

  function GetAllResources(c: Catalogue): (r: map<int, ResourceDTO>)
    ensures r.Keys == c.store.Keys
    ensures forall k :: k in r ==> r[k] == ToDTO(c.store[k])
  {
    Records(c.store)
  }

  function GetAvailableResources(c: Catalogue): (r: map<int, ResourceDTO>)
    ensures forall k :: k in r <==> k in c.store && c.store[k].available
    ensures forall k :: k in r ==> r[k] == ToDTO(c.store[k])
  {
    Records(FindByAvailableTrue(c.store))
  }

  function GetResourcesByType(c: Catalogue, t: ResourceType): (r: map<int, ResourceDTO>)
    ensures forall k :: k in r <==> k in c.store && c.store[k].resourceType == Some(t)
    ensures forall k :: k in r ==> r[k] == ToDTO(c.store[k])
  {
    Records(FindByType(c.store, t))
  }

  function GetAvailableResourcesByType(c: Catalogue, t: ResourceType): (r: map<int, ResourceDTO>)
    ensures forall k :: k in r <==> k in c.store && c.store[k].resourceType == Some(t) && c.store[k].available
    ensures forall k :: k in r ==> r[k] == ToDTO(c.store[k])
  {
    TypeAndAvailableIsIntersection(c.store, t);
    Records(FindByTypeAndAvailableTrue(c.store, t))
  }

  /** `updateResource`: on a missing id nothing is stored and the result is
      empty; otherwise name, description, type, price and capacity are
      overwritten (with nulls too), and the availability only when the
      request gives one. Both are normal returns, so the cache is cleared. */
  function UpdateResource(c: Catalogue, id: int, dto: ResourceDTO): (r: (Option<ResourceDTO>, Catalogue))
    ensures r.1.nextId == c.nextId && r.1.cache == map[]
    ensures id !in c.store ==> r.0 == None && r.1.store == c.store
    ensures WellKeyed(c.store) && id in c.store ==>
              var prior := c.store[id];
              var updated := prior.(name := dto.name, description := dto.description, resourceType := dto.resourceType,
                                  pricePerHour := dto.pricePerHour, capacity := dto.capacity,
                                  available := dto.available.GetOr(prior.available));
              r.0 == Some(ToDTO(updated)) && r.1.store == c.store[id := updated]
  {
    match FindById(c.store, id)
    case None => (None, c.(cache := map[]))
    case Some(res) =>
      var updated := res.(name := dto.name, description := dto.description, resourceType := dto.resourceType,
                          pricePerHour := dto.pricePerHour, capacity := dto.capacity,
                          available := if dto.available.Some? then dto.available.value else res.available);
      (Some(ToDTO(updated)), c.(store := c.store[res.id := updated], cache := map[]))
  }

  /** `deleteResource`: true exactly when the id existed, which is then
      removed; the cache is cleared either way. */
  function DeleteResource(c: Catalogue, id: int): (r: (bool, Catalogue))
    ensures r.0 <==> id in c.store
    ensures r.1.store == c.store - {id}
    ensures r.1.nextId == c.nextId && r.1.cache == map[]
  {
    if id in c.store then (true, c.(store := c.store - {id}, cache := map[]))
    else (false, c.(cache := map[]))
  }

  /** `isResourceAvailable`: the resource exists and is flagged available. */
  function IsResourceAvailable(c: Catalogue, id: int): (r: bool)
    ensures r <==> id in c.store && c.store[id].available
  {
    FindByIdAndAvailableTrue(c.store, id).Some?
  }

  // ---------------------------------------------------------------------------
  // Properties
  // ---------------------------------------------------------------------------

  /** A request without an availability flag creates an available resource,
      which the availability check then reports. */
  lemma CreatedResourceIsAvailableByDefault(c: Catalogue, dto: ResourceDTO)
    requires dto.available.None?
    ensures var (created, next) := CreateResource(c, dto);
            created.available == Some(true) && IsResourceAvailable(next, c.nextId)
  {
  }

  /** Updating without an availability flag keeps the flag, and updating a
      missing id changes no resource. */
  lemma UpdateKeepsAvailabilityWhenAbsent(c: Catalogue, id: int, dto: ResourceDTO)
    requires WellKeyed(c.store)
    requires dto.available.None?
    ensures IsResourceAvailable(UpdateResource(c, id, dto).1, id) == IsResourceAvailable(c, id)
  {
  }

  /** Deleting twice: the second call finds nothing and changes nothing. */
  lemma DeleteIsIdempotent(c: Catalogue, id: int)
    ensures var (_, once) := DeleteResource(c, id);
            DeleteResource(once, id) == (false, once)
  {
  }

  /** With a coherent cache, the cached read answers what the store holds
      and keeps the cache coherent. */
  lemma ReadThroughIsStoreRead(c: Catalogue, id: int)
    requires CacheCoherent(c)
    ensures GetResourceById(c, id).0 == (if id in c.store then Some(ToDTO(c.store[id])) else None)
    ensures CacheCoherent(GetResourceById(c, id).1)
  {
  }

  /** Each mutation keeps the catalogue consistent. */
  lemma MutationsPreserveConsistent(c: Catalogue, id: int, dto: ResourceDTO)
    requires Consistent(c)
    ensures Consistent(CreateResource(c, dto).1)
    ensures Consistent(UpdateResource(c, id, dto).1)
    ensures Consistent(DeleteResource(c, id).1)
    ensures Consistent(GetResourceById(c, id).1)
  {
    ReadThroughIsStoreRead(c, id);
  }

  /** The listings partition by availability: the available resources of a
      type together with its unavailable ones are all of its resources. */
  lemma TypeListingSplitsByAvailability(c: Catalogue, t: ResourceType)
    ensures GetAvailableResourcesByType(c, t).Keys <= GetResourcesByType(c, t).Keys
    ensures GetAvailableResourcesByType(c, t).Keys == GetResourcesByType(c, t).Keys * GetAvailableResources(c).Keys
  {
  }
}
