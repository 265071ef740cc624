/** The booking repository's queries over a store of bookings keyed by id.
    A query that returns a list returns here the matching bookings keyed by
    id, since the store promises no order. */
module BookingRepository {
  import opened Wrappers
  import opened Intervals
  import opened BookingModel

  type Store = map<int, Booking>

  /** Every stored booking sits under its own id. */
  ghost predicate WellKeyed(store: Store) {
    forall k :: k in store ==> store[k].id == k
  }

  /** Every stored booking occupies a non-empty window. */
  ghost predicate NonEmptyWindows(store: Store) {
    forall k :: k in store ==> store[k].startTime < store[k].endTime
  }

  function FindById(store: Store, id: int): (r: Option<Booking>)
    ensures r.Some? <==> id in store
    ensures r.Some? ==> r.value == store[id]
  {
    if id in store then Some(store[id]) else None
  }

  /** The booking with this id, provided it belongs to this user. */
  function FindByIdAndUserId(store: Store, id: int, userId: string): (r: Option<Booking>)
    ensures r.Some? <==> id in store && store[id].userId == userId
    ensures r.Some? ==> r.value == store[id]
  {
    if id in store && store[id].userId == userId then Some(store[id]) else None
  }

  function FindByUserId(store: Store, userId: string): (r: Store)
    ensures forall k :: k in r <==> k in store && store[k].userId == userId
    ensures forall k :: k in r ==> r[k] == store[k]
  {
    map k | k in store && store[k].userId == userId :: store[k]
  }

  function FindByResourceId(store: Store, resourceId: int): (r: Store)
    ensures forall k :: k in r <==> k in store && store[k].resourceId == resourceId
    ensures forall k :: k in r ==> r[k] == store[k]
  {
    map k | k in store && store[k].resourceId == resourceId :: store[k]
  }

  function FindByUserIdAndStatus(store: Store, userId: string, status: BookingStatus): (r: Store)
    ensures forall k :: k in r <==> k in store && store[k].userId == userId && store[k].status == status
    ensures forall k :: k in r ==> r[k] == store[k]
  {
    map k | k in store && store[k].userId == userId && store[k].status == status :: store[k]
  }

  /** Bookings of the resource that hold their window and meet the
      three-clause test against [s, e). */
  function FindConflictingBookings(store: Store, resourceId: int, s: int, e: int): (r: Store)
    ensures forall k :: k in r ==> k in store && r[k] == store[k]
    ensures forall k :: k in r ==> store[k].resourceId == resourceId && IsActive(store[k].status)
    ensures forall k :: k in store && store[k].resourceId == resourceId && IsActive(store[k].status) ==>
              (k in r <==> ThreeClauseConflict(store[k].startTime, store[k].endTime, s, e))
  {
    map k | k in store && store[k].resourceId == resourceId && IsActive(store[k].status)
                       && ThreeClauseConflict(store[k].startTime, store[k].endTime, s, e)
          :: store[k]
  }

  /** Confirmed bookings of the resource lying wholly inside [s, e]. */
  function FindConfirmedBookingsInRange(store: Store, resourceId: int, s: int, e: int): (r: Store)
    ensures forall k :: k in r <==> && k in store && store[k].resourceId == resourceId
                                    && store[k].status == CONFIRMED
                                    && s <= store[k].startTime && store[k].endTime <= e
    ensures forall k :: k in r ==> r[k] == store[k]
  {
    map k | k in store && store[k].resourceId == resourceId && store[k].status == CONFIRMED
                       && s <= store[k].startTime && store[k].endTime <= e
          :: store[k]
  }

  // ---------------------------------------------------------------------------
  // How the queries relate
  // ---------------------------------------------------------------------------

  /** For a non-empty request over non-empty stored windows, the conflict
      query returns exactly the active bookings of the resource whose window
      overlaps [s, e) in the half-open sense. */
  lemma ConflictsAreHalfOpenOverlaps(store: Store, resourceId: int, s: int, e: int)
    requires NonEmptyWindows(store)
    requires s < e
    ensures forall k :: k in FindConflictingBookings(store, resourceId, s, e) <==>
              && k in store && store[k].resourceId == resourceId && IsActive(store[k].status)
              && HalfOpenOverlap(store[k].startTime, store[k].endTime, s, e)
  {
    var r := FindConflictingBookings(store, resourceId, s, e);
    forall k | k in store
      ensures k in r <==> store[k].resourceId == resourceId && IsActive(store[k].status)
                          && HalfOpenOverlap(store[k].startTime, store[k].endTime, s, e)
    {
      ThreeClauseIsHalfOpenOverlap(store[k].startTime, store[k].endTime, s, e);
    }
  }

  /** Cancelled and completed bookings never conflict. */
  lemma InactiveBookingsNeverConflict(store: Store, resourceId: int, s: int, e: int, k: int)
    requires k in store && !IsActive(store[k].status)
    ensures k !in FindConflictingBookings(store, resourceId, s, e)
  {
  }

  /** A booking that ends exactly where the request starts, or starts
      exactly where it ends, is not a conflict. */
  lemma TouchingBookingIsNoConflict(store: Store, resourceId: int, s: int, e: int, k: int)
    requires k in store && store[k].startTime < store[k].endTime && s < e
    requires store[k].endTime == s || store[k].startTime == e
    ensures k !in FindConflictingBookings(store, resourceId, s, e)
  {
    TouchingWindowsDoNotConflict(store[k].startTime, store[k].endTime, s, e);
  }

  /** Conflicts are found among the resource's own bookings. */
  lemma ConflictsBelongToResource(store: Store, resourceId: int, s: int, e: int)
    ensures FindConflictingBookings(store, resourceId, s, e).Keys <= FindByResourceId(store, resourceId).Keys
  {
  }

  /** A confirmed booking inside a non-empty range is also a conflict for
      that range. */
  lemma ConfirmedInRangeAreConflicts(store: Store, resourceId: int, s: int, e: int)
    requires NonEmptyWindows(store)
    requires s < e
    ensures FindConfirmedBookingsInRange(store, resourceId, s, e).Keys
         <= FindConflictingBookings(store, resourceId, s, e).Keys
  {
  }

  /** The status query is the user query narrowed to one status, and the
      user's bookings are the union of the four status queries. */
  lemma UserQueriesAgree(store: Store, userId: string)
    ensures forall st: BookingStatus, k :: k in FindByUserIdAndStatus(store, userId, st) <==>
              k in FindByUserId(store, userId) && store[k].status == st
    ensures FindByUserId(store, userId).Keys
         == FindByUserIdAndStatus(store, userId, PENDING).Keys + FindByUserIdAndStatus(store, userId, CONFIRMED).Keys
          + FindByUserIdAndStatus(store, userId, CANCELLED).Keys + FindByUserIdAndStatus(store, userId, COMPLETED).Keys
  {
  }

  /** The owner-checked lookup is the plain lookup filtered by owner. */
  lemma OwnedLookupIsFilteredLookup(store: Store, id: int, userId: string)
    ensures FindByIdAndUserId(store, id, userId)
         == (match FindById(store, id)
             case Some(b) => if b.userId == userId then Some(b) else None
             case None => None)
  {
  }
}
