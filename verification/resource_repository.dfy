/** The resource repository's queries over a store of resources keyed by id.
    List queries return the matching resources keyed by id. */
module ResourceRepository {
  import opened Wrappers
  import opened ResourceModel

  type ResourceStore = map<int, Resource>

  /** Every stored resource sits under its own id. */
  ghost predicate WellKeyed(store: ResourceStore) {
    forall k :: k in store ==> store[k].id == k
  }

  function FindById(store: ResourceStore, id: int): (r: Option<Resource>)
    ensures r.Some? <==> id in store
    ensures r.Some? ==> r.value == store[id]
  {
    if id in store then Some(store[id]) else None
  }

  function FindByType(store: ResourceStore, t: ResourceType): (r: ResourceStore)
    ensures forall k :: k in r <==> k in store && store[k].resourceType == Some(t)
    ensures forall k :: k in r ==> r[k] == store[k]
  {
    map k | k in store && store[k].resourceType == Some(t) :: store[k]
  }

  function FindByAvailableTrue(store: ResourceStore): (r: ResourceStore)
    ensures forall k :: k in r <==> k in store && store[k].available
    ensures forall k :: k in r ==> r[k] == store[k]
  {
    map k | k in store && store[k].available :: store[k]
  }

  function FindByTypeAndAvailableTrue(store: ResourceStore, t: ResourceType): (r: ResourceStore)
    ensures forall k :: k in r ==> k in store && r[k] == store[k]
  {
    map k | k in store && store[k].resourceType == Some(t) && store[k].available :: store[k]
  }

  /** Available resources whose capacity is at least `minCapacity`; a null
      capacity compares as false. */
  function FindAvailableByMinCapacity(store: ResourceStore, minCapacity: int): (r: ResourceStore)
    ensures forall k :: k in r <==> && k in store && store[k].available
                                    && store[k].capacity.Some? && store[k].capacity.value >= minCapacity
    ensures forall k :: k in r ==> r[k] == store[k]
  {
    map k | k in store && store[k].available && store[k].capacity.Some? && store[k].capacity.value >= minCapacity
          :: store[k]
  }

  function FindByIdAndAvailableTrue(store: ResourceStore, id: int): (r: Option<Resource>)
    ensures r.Some? <==> id in store && store[id].available
    ensures r.Some? ==> r.value == store[id]
  {
    if id in store && store[id].available then Some(store[id]) else None
  }

  /** The combined query is the intersection of the type and availability
      queries. */
  lemma TypeAndAvailableIsIntersection(store: ResourceStore, t: ResourceType)
    ensures FindByTypeAndAvailableTrue(store, t).Keys == FindByType(store, t).Keys * FindByAvailableTrue(store).Keys
  {
  }

  /** Raising the minimum capacity only narrows the result, and every
      result is an available resource. */
  lemma MinCapacityIsMonotone(store: ResourceStore, low: int, high: int)
    requires low <= high
    ensures FindAvailableByMinCapacity(store, high).Keys <= FindAvailableByMinCapacity(store, low).Keys
    ensures FindAvailableByMinCapacity(store, low).Keys <= FindByAvailableTrue(store).Keys
  {
  }

  /** The id lookup restricted to available resources is the plain lookup
      filtered by the flag. */
  lemma AvailableLookupIsFilteredLookup(store: ResourceStore, id: int)
    ensures FindByIdAndAvailableTrue(store, id)
         == (match FindById(store, id)
             case Some(r) => if r.available then Some(r) else None
             case None => None)
  {
  }
}
