/** The booking service: creating a booking (time checks, conflict check,
    price lookup, pricing, save, notification), cancelling one as its owner
    or as an administrator, the read-through cache by id, and the queries.

    Every call is a function from the service state to an outcome that
    carries the next state and the effects the call had on the outside: the
    price request it sent and the message it handed to the broker. The
    current time, the price reply and the broker's answer are inputs. */
module BookingService {
  import opened Wrappers
  import opened Decimals
  import opened Intervals
  import opened BookingModel
  import opened BookingRepository
  import opened Notification
  import opened PricePort

  /** The broker's answer to a publish. */
  datatype Publish = Delivered | BrokerFailure

  /** The exceptions a call can end with: `IllegalArgumentException`,
      `IllegalStateException` (each with its message), and the broker's
      exception, which `createBooking` does not catch. */
  datatype BookingError =
    | InvalidArgument(message: string)
    | InvalidState(message: string)
    | PublishError

  const StartInPast: string := "Start time must be in the future"
  const EndNotAfterStart: string := "End time must be after start time"
  const NotAvailable: string := "Resource is not available for the selected time period"
  const ResourceNotFound: string := "Resource not found"
  const AlreadyCancelled: string := "Booking is already cancelled"
  const CannotCancelCompleted: string := "Cannot cancel completed booking"

  /** The service's state: the booking store, the id the next saved booking
      receives, the "bookings" cache keyed by id, and the catalogue's base
      address. */
  datatype Service = Service(
    store: Store,
    nextId: int,
    cache: map<int, BookingDTO>,
    resourceServiceUrl: string)

  datatype CreateOutcome = CreateOutcome(
    result: Result<BookingDTO, BookingError>,
    next: Service,
    priceRequest: Option<PriceRequest>,
    message: Option<Message>)

  datatype CancelOutcome = CancelOutcome(
    result: Result<Option<BookingDTO>, BookingError>,
    next: Service,
    message: Option<Message>)

  datatype Lookup = Lookup(result: Option<BookingDTO>, next: Service)

  // ---------------------------------------------------------------------------
  // Invariants
  // ---------------------------------------------------------------------------

  /** No two PENDING or CONFIRMED bookings of one resource overlap. */
  ghost predicate NoActiveOverlap(store: Store) {
    forall i, j :: i in store && j in store && i != j
                   && store[i].resourceId == store[j].resourceId
                   && IsActive(store[i].status) && IsActive(store[j].status)
                   ==> !HalfOpenOverlap(store[i].startTime, store[i].endTime, store[j].startTime, store[j].endTime)
  }

  /** Every stored id lies below the next id to hand out. */
  ghost predicate IdsBelow(store: Store, nextId: int) {
    forall k :: k in store ==> k < nextId
  }

  /** Every cached record is the record of the stored booking under its key. */
  ghost predicate CacheCoherent(svc: Service) {
    forall k :: k in svc.cache ==> k in svc.store && svc.cache[k] == ToDTO(svc.store[k])
  }

  ghost predicate Consistent(svc: Service) {
    && WellKeyed(svc.store)
    && NonEmptyWindows(svc.store)
    && NoActiveOverlap(svc.store)
    && IdsBelow(svc.store, svc.nextId)
    && CacheCoherent(svc)
  }

  // ---------------------------------------------------------------------------
  // Queries
  // ---------------------------------------------------------------------------

  /** The resource is available when the conflict query comes back empty. */
  function IsResourceAvailable(svc: Service, resourceId: int, s: int, e: int): (r: bool)
    ensures r <==> forall k :: (k in svc.store && svc.store[k].resourceId == resourceId && IsActive(svc.store[k].status))
                                ==> !ThreeClauseConflict(svc.store[k].startTime, svc.store[k].endTime, s, e)
  {
    NoConflictsMeansNoneMatch(svc.store, resourceId, s, e);
    |FindConflictingBookings(svc.store, resourceId, s, e)| == 0
  }

  lemma NoConflictsMeansNoneMatch(store: Store, resourceId: int, s: int, e: int)
    ensures |FindConflictingBookings(store, resourceId, s, e)| == 0 <==>
              forall k :: (k in store && store[k].resourceId == resourceId && IsActive(store[k].status))
                          ==> !ThreeClauseConflict(store[k].startTime, store[k].endTime, s, e)
  {
    var conflicts := FindConflictingBookings(store, resourceId, s, e);
    if forall k :: (k in store && store[k].resourceId == resourceId && IsActive(store[k].status))
                   ==> !ThreeClauseConflict(store[k].startTime, store[k].endTime, s, e)
    {
      assert conflicts.Keys == {};
    } else {
      var k :| (k in store && store[k].resourceId == resourceId && IsActive(store[k].status))
               && ThreeClauseConflict(store[k].startTime, store[k].endTime, s, e);
      assert k in conflicts;
    }
  }

  /** `getBookingById`, read through the cache: a cached record is returned
      as it is; otherwise the store is asked, and a found record is cached. */
  function GetBookingById(svc: Service, id: int): (o: Lookup)
    ensures o.next.store == svc.store && o.next.nextId == svc.nextId
    ensures o.next.resourceServiceUrl == svc.resourceServiceUrl
    ensures id in svc.cache ==> o == Lookup(Some(svc.cache[id]), svc)
    ensures o.result.None? ==> o.next == svc
    ensures o.result.Some? ==> id in o.next.cache && o.next.cache[id] == o.result.value
    ensures forall k :: k in svc.cache ==> k in o.next.cache && o.next.cache[k] == svc.cache[k]
  {
    if id in svc.cache then Lookup(Some(svc.cache[id]), svc)
    else
      match FindById(svc.store, id)
      case None => Lookup(None, svc)
      case Some(b) => Lookup(Some(ToDTO(b)), svc.(cache := svc.cache[id := ToDTO(b)]))
  }

  /** The records of the user's bookings, keyed by id. */
  function GetUserBookings(svc: Service, userId: string): (r: map<int, BookingDTO>)
    ensures forall k :: k in r <==> k in svc.store && svc.store[k].userId == userId
    ensures forall k :: k in r ==> r[k] == ToDTO(svc.store[k])
  {
    var found := FindByUserId(svc.store, userId);
    map k | k in found :: ToDTO(found[k])
  }

  /** The records of the resource's bookings, keyed by id, whoever owns them. */
  function GetResourceBookings(svc: Service, resourceId: int): (r: map<int, BookingDTO>)
    ensures forall k :: k in r <==> k in svc.store && svc.store[k].resourceId == resourceId
    ensures forall k :: k in r ==> r[k] == ToDTO(svc.store[k])
  {
    var found := FindByResourceId(svc.store, resourceId);
    map k | k in found :: ToDTO(found[k])
  }

  // ---------------------------------------------------------------------------
  // Create
  // ---------------------------------------------------------------------------

  function Rejected(svc: Service, message: string): CreateOutcome {
    CreateOutcome(Failure(InvalidArgument(message)), svc, None, None)
  }

  /** The booking `createBooking` saves for an accepted request. */
  function NewBooking(svc: Service, dto: BookingDTO, userId: string, price: Decimal, hours: int): (b: Booking)
    requires dto.resourceId.Some? && dto.startTime.Some? && dto.endTime.Some?
  {
    Booking(svc.nextId, dto.resourceId.value, userId, dto.startTime.value, dto.endTime.value,
            TimesWhole(price, hours), CONFIRMED, dto.notes, None, None)
  }

  /** `createBooking` on a request whose resource id and times are present.
      The checks run in the source's order: start in the past, end not
      after start, conflict, price lookup, whole hours. An exception rolls
      the transaction back and skips the cache eviction; a normal return
      saves a CONFIRMED booking and clears the whole cache. */
  function CreateBooking(svc: Service, dto: BookingDTO, userId: string, bearerToken: Option<string>,
                         now: int, reply: PriceReply, publish: Publish): (o: CreateOutcome)
    requires dto.resourceId.Some? && dto.startTime.Some? && dto.endTime.Some?
    ensures o.result.Failure? ==> o.next == svc
    ensures o.result.Success? <==>
              && now <= dto.startTime.value
              && dto.startTime.value + 60 <= dto.endTime.value
              && IsResourceAvailable(svc, dto.resourceId.value, dto.startTime.value, dto.endTime.value)
              && GetResourcePrice(reply).Some?
              && publish == Delivered
    ensures o.priceRequest.Some? ==>
              o.priceRequest.value == PriceRequestFor(svc.resourceServiceUrl, dto.resourceId.value, bearerToken)
    ensures o.result.Success? ==>
              && svc.nextId in o.next.store
              && var b := o.next.store[svc.nextId];
              && o.next.store == svc.store[svc.nextId := b]
              && o.next.nextId == svc.nextId + 1
              && o.next.cache == map[]
              && o.next.resourceServiceUrl == svc.resourceServiceUrl
              && b.id == svc.nextId && b.resourceId == dto.resourceId.value && b.userId == userId
              && b.startTime == dto.startTime.value && b.endTime == dto.endTime.value
              && b.status == CONFIRMED && b.notes == dto.notes
              && b.totalPrice == TimesWhole(GetResourcePrice(reply).value, WholeHours(dto.startTime.value, dto.endTime.value))
              && o.result.value == ToDTO(b)
              && o.message == Some(BookingMessage(b))
  {
    var resourceId := dto.resourceId.value;
    var start := dto.startTime.value;
    var end := dto.endTime.value;
    if start < now then Rejected(svc, StartInPast)
    else if end <= start then Rejected(svc, EndNotAfterStart)
    else if !IsResourceAvailable(svc, resourceId, start, end) then Rejected(svc, NotAvailable)
    else
      var request := PriceRequestFor(svc.resourceServiceUrl, resourceId, bearerToken);
      var price := GetResourcePrice(reply);
      if price.None? then CreateOutcome(Failure(InvalidArgument(ResourceNotFound)), svc, Some(request), None)
      else
        var hours := WholeHours(start, end);
        if hours <= 0 then CreateOutcome(Failure(InvalidArgument(EndNotAfterStart)), svc, Some(request), None)
        else
          var saved := NewBooking(svc, dto, userId, price.value, hours);
          var message := BookingMessage(saved);
          match publish
          case BrokerFailure => CreateOutcome(Failure(PublishError), svc, Some(request), Some(message))
          case Delivered =>
            CreateOutcome(Success(ToDTO(saved)),
                          svc.(store := svc.store[svc.nextId := saved], nextId := svc.nextId + 1, cache := map[]),
                          Some(request), Some(message))
  }

  /** Every check before the price lookup failing means no lookup, no
      message and no change; a start exactly at `now` passes the first
      check. */
  lemma TimeChecksComeFirst(svc: Service, dto: BookingDTO, userId: string, bearerToken: Option<string>,
                            now: int, reply: PriceReply, publish: Publish)
    requires dto.resourceId.Some? && dto.startTime.Some? && dto.endTime.Some?
    ensures dto.startTime.value < now ==>
              CreateBooking(svc, dto, userId, bearerToken, now, reply, publish)
              == CreateOutcome(Failure(InvalidArgument(StartInPast)), svc, None, None)
    ensures now <= dto.startTime.value && dto.endTime.value <= dto.startTime.value ==>
              CreateBooking(svc, dto, userId, bearerToken, now, reply, publish)
              == CreateOutcome(Failure(InvalidArgument(EndNotAfterStart)), svc, None, None)
    ensures dto.startTime.value == now ==>
              CreateBooking(svc, dto, userId, bearerToken, now, reply, publish).result != Failure(InvalidArgument(StartInPast))
  {
  }

  /** A conflicting request is refused before the price lookup and saves
      nothing. */
  lemma ConflictRejectsWithoutSaving(svc: Service, dto: BookingDTO, userId: string, bearerToken: Option<string>,
                                     now: int, reply: PriceReply, publish: Publish, k: int)
    requires dto.resourceId.Some? && dto.startTime.Some? && dto.endTime.Some?
    requires now <= dto.startTime.value < dto.endTime.value
    requires k in svc.store && svc.store[k].resourceId == dto.resourceId.value && IsActive(svc.store[k].status)
    requires svc.store[k].startTime < svc.store[k].endTime
    requires HalfOpenOverlap(svc.store[k].startTime, svc.store[k].endTime, dto.startTime.value, dto.endTime.value)
    ensures CreateBooking(svc, dto, userId, bearerToken, now, reply, publish)
         == CreateOutcome(Failure(InvalidArgument(NotAvailable)), svc, None, None)
  {
    ThreeClauseIsHalfOpenOverlap(svc.store[k].startTime, svc.store[k].endTime, dto.startTime.value, dto.endTime.value);
  }

  /** For a non-empty window over non-empty stored windows, availability is
      the absence of a half-open overlap with an active booking of the
      resource. */
  lemma AvailableIffNoOverlap(svc: Service, resourceId: int, s: int, e: int)
    requires NonEmptyWindows(svc.store)
    requires s < e
    ensures IsResourceAvailable(svc, resourceId, s, e) <==>
              forall k :: (k in svc.store && svc.store[k].resourceId == resourceId && IsActive(svc.store[k].status))
                          ==> !HalfOpenOverlap(svc.store[k].startTime, svc.store[k].endTime, s, e)
  {
    forall k | k in svc.store
      ensures ThreeClauseConflict(svc.store[k].startTime, svc.store[k].endTime, s, e)
          <==> HalfOpenOverlap(svc.store[k].startTime, svc.store[k].endTime, s, e)
    {
      ThreeClauseIsHalfOpenOverlap(svc.store[k].startTime, svc.store[k].endTime, s, e);
    }
  }

  /** Every way the price lookup can fail ends as "Resource not found",
      after the request was sent, with nothing saved. */
  lemma PriceFailureIsResourceNotFound(svc: Service, dto: BookingDTO, userId: string, bearerToken: Option<string>,
                                       now: int, reply: PriceReply, publish: Publish)
    requires dto.resourceId.Some? && dto.startTime.Some? && dto.endTime.Some?
    requires now <= dto.startTime.value < dto.endTime.value
    requires IsResourceAvailable(svc, dto.resourceId.value, dto.startTime.value, dto.endTime.value)
    requires GetResourcePrice(reply).None?
    ensures CreateBooking(svc, dto, userId, bearerToken, now, reply, publish)
         == CreateOutcome(Failure(InvalidArgument(ResourceNotFound)), svc,
                          Some(PriceRequestFor(svc.resourceServiceUrl, dto.resourceId.value, bearerToken)), None)
  {
  }

  /** A window shorter than an hour passes the time checks and is refused
      only after the price lookup, with the end-time message. */
  lemma ShortBookingRejectedAfterLookup(svc: Service, dto: BookingDTO, userId: string, bearerToken: Option<string>,
                                        now: int, reply: PriceReply, publish: Publish)
    requires dto.resourceId.Some? && dto.startTime.Some? && dto.endTime.Some?
    requires now <= dto.startTime.value < dto.endTime.value < dto.startTime.value + 60
    requires IsResourceAvailable(svc, dto.resourceId.value, dto.startTime.value, dto.endTime.value)
    requires GetResourcePrice(reply).Some?
    ensures CreateBooking(svc, dto, userId, bearerToken, now, reply, publish)
         == CreateOutcome(Failure(InvalidArgument(EndNotAfterStart)), svc,
                          Some(PriceRequestFor(svc.resourceServiceUrl, dto.resourceId.value, bearerToken)), None)
  {
  }

  /** The total is the hourly price times the whole hours of the window
      (`TimesWhole` keeps the value exact): the partial hour at the end is
      not billed, so ninety minutes cost one hour. */
  lemma PartialHoursAreNotBilled(svc: Service, dto: BookingDTO, userId: string, bearerToken: Option<string>,
                                 now: int, reply: PriceReply, publish: Publish, h: int)
    requires dto.resourceId.Some? && dto.startTime.Some? && dto.endTime.Some?
    requires CreateBooking(svc, dto, userId, bearerToken, now, reply, publish).result.Success?
    requires 60 * h <= dto.endTime.value - dto.startTime.value < 60 * (h + 1)
    ensures h >= 1
    ensures CreateBooking(svc, dto, userId, bearerToken, now, reply, publish).result.value.totalPrice
         == Some(TimesWhole(GetResourcePrice(reply).value, h))
  {
    WholeHoursIsTheHourCount(dto.startTime.value, dto.endTime.value, h);
  }

  /** When every check passes but the broker fails, the exception leaves
      create after the message was handed over; the save is rolled back and
      the cache kept. */
  lemma CreatePublishFailureRollsBack(svc: Service, dto: BookingDTO, userId: string, bearerToken: Option<string>,
                                      now: int, reply: PriceReply)
    requires dto.resourceId.Some? && dto.startTime.Some? && dto.endTime.Some?
    requires now <= dto.startTime.value && dto.startTime.value + 60 <= dto.endTime.value
    requires IsResourceAvailable(svc, dto.resourceId.value, dto.startTime.value, dto.endTime.value)
    requires GetResourcePrice(reply).Some?
    ensures var o := CreateBooking(svc, dto, userId, bearerToken, now, reply, BrokerFailure);
            o.result == Failure(PublishError) && o.next == svc && o.message.Some?
  {
  }

  // ---------------------------------------------------------------------------
  // Cancel
  // ---------------------------------------------------------------------------

  /** What both cancel variants do with the lookup's result. A publish
      failure after the save is logged and swallowed, so the broker's answer
      plays no part. */
  function CancelFound(svc: Service, found: Option<Booking>): CancelOutcome {
    match found
    case None => CancelOutcome(Success(None), svc.(cache := map[]), None)
    case Some(b) =>
      if b.status == CANCELLED then CancelOutcome(Failure(InvalidState(AlreadyCancelled)), svc, None)
      else if b.status == COMPLETED then CancelOutcome(Failure(InvalidState(CannotCancelCompleted)), svc, None)
      else
        var updated := b.(status := CANCELLED);
        CancelOutcome(Success(Some(ToDTO(updated))),
                      svc.(store := svc.store[b.id := updated], cache := map[]),
                      Some(BookingMessage(updated)))
  }

  /** `cancelBooking`: the booking must exist and belong to the caller. An
      absent or foreign booking is a normal empty return (the cache is still
      cleared); a cancelled or completed one raises, changing nothing; an
      active one becomes CANCELLED with every other field kept. */
  function CancelBooking(svc: Service, id: int, userId: string, publish: Publish): (o: CancelOutcome)
    ensures !(id in svc.store && svc.store[id].userId == userId) ==>
              o == CancelOutcome(Success(None), svc.(cache := map[]), None)
    ensures id in svc.store && svc.store[id].userId == userId && svc.store[id].status == CANCELLED ==>
              o == CancelOutcome(Failure(InvalidState(AlreadyCancelled)), svc, None)
    ensures id in svc.store && svc.store[id].userId == userId && svc.store[id].status == COMPLETED ==>
              o == CancelOutcome(Failure(InvalidState(CannotCancelCompleted)), svc, None)
    ensures WellKeyed(svc.store) && id in svc.store && svc.store[id].userId == userId && IsActive(svc.store[id].status) ==>
              var b := svc.store[id].(status := CANCELLED);
              o == CancelOutcome(Success(Some(ToDTO(b))), svc.(store := svc.store[id := b], cache := map[]),
                                 Some(BookingMessage(b)))
  {
    CancelFound(svc, FindByIdAndUserId(svc.store, id, userId))
  }

  /** `cancelBookingAsAdmin`: the same state machine without the owner
      check. */
  function CancelBookingAsAdmin(svc: Service, id: int, publish: Publish): (o: CancelOutcome)
    ensures id !in svc.store ==> o == CancelOutcome(Success(None), svc.(cache := map[]), None)
    ensures id in svc.store && svc.store[id].status == CANCELLED ==>
              o == CancelOutcome(Failure(InvalidState(AlreadyCancelled)), svc, None)
    ensures id in svc.store && svc.store[id].status == COMPLETED ==>
              o == CancelOutcome(Failure(InvalidState(CannotCancelCompleted)), svc, None)
    ensures WellKeyed(svc.store) && id in svc.store && IsActive(svc.store[id].status) ==>
              var b := svc.store[id].(status := CANCELLED);
              o == CancelOutcome(Success(Some(ToDTO(b))), svc.(store := svc.store[id := b], cache := map[]),
                                 Some(BookingMessage(b)))
  {
    CancelFound(svc, FindById(svc.store, id))
  }

  /** The administrator's cancel is the owner's cancel on behalf of the
      booking's owner; on a missing id both return empty. */
  lemma AdminCancelSkipsOwnership(svc: Service, id: int, userId: string, publish: Publish)
    ensures id in svc.store ==>
              CancelBookingAsAdmin(svc, id, publish) == CancelBooking(svc, id, svc.store[id].userId, publish)
    ensures id !in svc.store ==> CancelBookingAsAdmin(svc, id, publish) == CancelBooking(svc, id, userId, publish)
  {
  }

  /** Cancelling does not depend on the broker: a failed publish still
      returns the cancelled record. */
  lemma CancelSwallowsPublishFailure(svc: Service, id: int, userId: string)
    ensures CancelBooking(svc, id, userId, BrokerFailure) == CancelBooking(svc, id, userId, Delivered)
    ensures CancelBookingAsAdmin(svc, id, BrokerFailure) == CancelBookingAsAdmin(svc, id, Delivered)
  {
  }

  // ---------------------------------------------------------------------------
  // Cache and invariants
  // ---------------------------------------------------------------------------

  /** With a coherent cache, the cached read answers what the store holds,
      and leaves the cache coherent. */
  lemma ReadThroughIsStoreRead(svc: Service, id: int)
    requires CacheCoherent(svc)
    ensures GetBookingById(svc, id).result == (if id in svc.store then Some(ToDTO(svc.store[id])) else None)
    ensures CacheCoherent(GetBookingById(svc, id).next)
  {
  }

  /** Sequential create keeps the service consistent; in particular, no two
      active bookings of one resource overlap afterwards. */
  lemma CreatePreservesConsistent(svc: Service, dto: BookingDTO, userId: string, bearerToken: Option<string>,
                                  now: int, reply: PriceReply, publish: Publish)
    requires dto.resourceId.Some? && dto.startTime.Some? && dto.endTime.Some?
    requires Consistent(svc)
    ensures Consistent(CreateBooking(svc, dto, userId, bearerToken, now, reply, publish).next)
  {
    var o := CreateBooking(svc, dto, userId, bearerToken, now, reply, publish);
    if o.result.Success? {
      var b := o.next.store[svc.nextId];
      AvailableIffNoOverlap(svc, b.resourceId, b.startTime, b.endTime);
      InsertPreservesConsistent(svc, b, o.next);
    }
  }

  /** Saving a fresh booking with a non-empty window that overlaps no
      active booking of its resource, and clearing the cache, keeps the
      service consistent. */
  lemma InsertPreservesConsistent(svc: Service, b: Booking, next: Service)
    requires Consistent(svc)
    requires b.id == svc.nextId && b.startTime < b.endTime
    requires forall k :: (k in svc.store && svc.store[k].resourceId == b.resourceId && IsActive(svc.store[k].status))
                         ==> !HalfOpenOverlap(svc.store[k].startTime, svc.store[k].endTime, b.startTime, b.endTime)
    requires next.store == svc.store[b.id := b] && next.nextId == svc.nextId + 1 && next.cache == map[]
    ensures Consistent(next)
  {
    var n := b.id;
    var st := next.store;
    assert n !in svc.store;
    forall i, j | i in st && j in st && i != j && st[i].resourceId == st[j].resourceId
                  && IsActive(st[i].status) && IsActive(st[j].status)
      ensures !HalfOpenOverlap(st[i].startTime, st[i].endTime, st[j].startTime, st[j].endTime)
    {
      if i == n {
        HalfOpenOverlapSymmetric(st[i].startTime, st[i].endTime, st[j].startTime, st[j].endTime);
      }
    }
  }

  /** Sequential cancel, by owner or administrator, keeps the service
      consistent. */
  lemma CancelPreservesConsistent(svc: Service, found: Option<Booking>)
    requires Consistent(svc)
    requires found.Some? ==> found.value.id in svc.store && svc.store[found.value.id] == found.value
    ensures Consistent(CancelFound(svc, found).next)
  {
    var o := CancelFound(svc, found);
    if found.Some? && o.result.Success? {
      var b := found.value;
      var st := o.next.store;
      assert st == svc.store[b.id := b.(status := CANCELLED)];
      forall i, j | i in st && j in st && i != j && st[i].resourceId == st[j].resourceId
                    && IsActive(st[i].status) && IsActive(st[j].status)
        ensures !HalfOpenOverlap(st[i].startTime, st[i].endTime, st[j].startTime, st[j].endTime)
      {
        assert i != b.id && j != b.id;
      }
    }
  }

  /** A call of the service, as the controller issues them. */
  datatype Op =
    | CreateOp(dto: BookingDTO, userId: string, bearerToken: Option<string>, now: int, reply: PriceReply, publish: Publish)
    | CancelOp(id: int, userId: string, publish: Publish)
    | AdminCancelOp(id: int, publish: Publish)
    | GetOp(id: int)

  /** The state after one call. A create request without a resource id or
      times never reaches the service. */
  function Step(svc: Service, op: Op): Service {
    match op
    case CreateOp(dto, userId, bearerToken, now, reply, publish) =>
      if dto.resourceId.Some? && dto.startTime.Some? && dto.endTime.Some?
      then CreateBooking(svc, dto, userId, bearerToken, now, reply, publish).next
      else svc
    case CancelOp(id, userId, publish) => CancelBooking(svc, id, userId, publish).next
    case AdminCancelOp(id, publish) => CancelBookingAsAdmin(svc, id, publish).next
    case GetOp(id) => GetBookingById(svc, id).next
  }

  function Run(svc: Service, ops: seq<Op>): Service
    decreases |ops|
  {
    if |ops| == 0 then svc else Run(Step(svc, ops[0]), ops[1..])
  }

  lemma StepPreservesConsistent(svc: Service, op: Op)
    requires Consistent(svc)
    ensures Consistent(Step(svc, op))
  {
    match op
    case CreateOp(dto, userId, bearerToken, now, reply, publish) =>
      if dto.resourceId.Some? && dto.startTime.Some? && dto.endTime.Some? {
        CreatePreservesConsistent(svc, dto, userId, bearerToken, now, reply, publish);
      }
    case CancelOp(id, userId, publish) =>
      CancelPreservesConsistent(svc, FindByIdAndUserId(svc.store, id, userId));
    case AdminCancelOp(id, publish) =>
      CancelPreservesConsistent(svc, FindById(svc.store, id));
    case GetOp(id) =>
      ReadThroughIsStoreRead(svc, id);
  }

  /** Any sequence of creates, cancels and reads keeps the service
      consistent: no two active bookings of a resource ever overlap, and the
      cache never answers differently from the store. */
  lemma {:induction false} RunPreservesConsistent(svc: Service, ops: seq<Op>)
    requires Consistent(svc)
    ensures Consistent(Run(svc, ops))
    decreases |ops|
  {
    if |ops| > 0 {
      StepPreservesConsistent(svc, ops[0]);
      RunPreservesConsistent(Step(svc, ops[0]), ops[1..]);
    }
  }
}
