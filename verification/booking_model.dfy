/** The booking entity, its status, and the booking data-transfer record with
    its bean-validation rules. */
module BookingModel {
  import opened Wrappers
  import opened Decimals

  datatype BookingStatus = PENDING | CONFIRMED | CANCELLED | COMPLETED

  /** The enum constant's name, as `toString()` yields it. */
  function StatusName(s: BookingStatus): string {
    match s
    case PENDING => "PENDING"
    case CONFIRMED => "CONFIRMED"
    case CANCELLED => "CANCELLED"
    case COMPLETED => "COMPLETED"
  }

  lemma StatusNameInjective(a: BookingStatus, b: BookingStatus)
    ensures StatusName(a) == StatusName(b) <==> a == b
  {
  }

  /** The statuses that hold a resource's time window. */
  predicate IsActive(s: BookingStatus) {
    s == PENDING || s == CONFIRMED
  }

  /** A stored booking. Timestamps are whole minutes; `createdAt` and
      `updatedAt` are carried as the persistence layer left them. */
  datatype Booking = Booking(
    id: int,
    resourceId: int,
    userId: string,
    startTime: int,
    endTime: int,
    totalPrice: Decimal,
    status: BookingStatus,
    notes: Option<string>,
    createdAt: Option<int>,
    updatedAt: Option<int>)

  /** The booking record exchanged with clients; every field may be null. */
  datatype BookingDTO = BookingDTO(
    id: Option<int>,
    resourceId: Option<int>,
    userId: Option<string>,
    startTime: Option<int>,
    endTime: Option<int>,
    totalPrice: Option<Decimal>,
    status: Option<BookingStatus>,
    notes: Option<string>,
    createdAt: Option<int>,
    updatedAt: Option<int>)

  /** The bean-validation constraints on a booking request: a positive
      resource id, and both timestamps present. */
  predicate IsValidRequest(dto: BookingDTO) {
    && dto.resourceId.Some? && dto.resourceId.value > 0
    && dto.startTime.Some?
    && dto.endTime.Some?
  }

  /** Validation puts no order on the timestamps and does not ask for a
      future start: a request ending before it starts passes. */
  lemma ValidationIgnoresTimeOrder(resourceId: int, start: int, end: int)
    requires resourceId > 0
    ensures IsValidRequest(BookingDTO(None, Some(resourceId), None, Some(start), Some(end), None, None, None, None, None))
  {
  }

  /** Validation reads only the resource id and the two timestamps. */
  lemma ValidationIgnoresOtherFields(dto: BookingDTO, id: Option<int>, userId: Option<string>,
                                     totalPrice: Option<Decimal>, status: Option<BookingStatus>,
                                     notes: Option<string>, createdAt: Option<int>, updatedAt: Option<int>)
    ensures IsValidRequest(dto) == IsValidRequest(dto.(id := id, userId := userId, totalPrice := totalPrice,
                                                       status := status, notes := notes,
                                                       createdAt := createdAt, updatedAt := updatedAt))
  {
  }

  /** The record a service returns for a stored booking. */
  function ToDTO(b: Booking): BookingDTO {
    BookingDTO(Some(b.id), Some(b.resourceId), Some(b.userId), Some(b.startTime), Some(b.endTime),
               Some(b.totalPrice), Some(b.status), b.notes, b.createdAt, b.updatedAt)
  }

  /** The returned record mirrors the entity field for field: no two
      different bookings give the same record. */
  lemma ToDTOInjective(a: Booking, b: Booking)
    ensures ToDTO(a) == ToDTO(b) <==> a == b
  {
  }
}
