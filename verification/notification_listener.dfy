/** The consumer of booking notifications in the data processor: it reads
    four fields of the message and picks a branch by status. Logging, the
    only effect of each branch, is not modelled; the branch taken is. */
module NotificationListener {
  import opened Wrappers
  import opened Text
  import opened BookingModel
  import opened Notification

  datatype Branch = ConfirmationBranch | CancellationBranch | GenericBranch

  /** The four fields the listener reads. */
  datatype Notice = Notice(bookingId: int, userId: string, resourceId: int, status: string)

  /** Either the notice was decoded and a branch taken, or decoding threw and
      the handler caught the exception. Both end normally. */
  datatype Handling = Dispatched(notice: Notice, branch: Branch) | Caught

  /** `message.get(key).toString()`: a missing key or a null value throws a
      `NullPointerException`, modelled as `None`. */
  function FieldText(m: Message, key: string): (r: Option<string>)
    ensures r.Some? <==> key in m && !m[key].NullValue?
  {
    if key !in m then None
    else
      match m[key]
      case LongValue(n) => Some(LongText(n))
      case StringValue(s) => Some(s)
      case NullValue => None
  }

  /** `Long.valueOf(message.get(key).toString())`. */
  function FieldLong(m: Message, key: string): Option<int> {
    match FieldText(m, key)
    case None => None
    case Some(t) => ParseLong(t)
  }

  /** The switch on the status text. */
  function BranchFor(status: string): (b: Branch)
    ensures b == ConfirmationBranch <==> status == "CONFIRMED"
    ensures b == CancellationBranch <==> status == "CANCELLED"
  {
    if status == "CONFIRMED" then ConfirmationBranch
    else if status == "CANCELLED" then CancellationBranch
    else GenericBranch
  }

  /** Decode `bookingId`, `userId`, `resourceId` and `status`, then branch on
      the status; any failure along the way is caught. */
  function HandleBookingNotification(m: Message): (h: Handling)
    ensures h.Dispatched? ==> h.branch == BranchFor(h.notice.status)
    ensures h.Dispatched? ==> FieldText(m, "userId") == Some(h.notice.userId)
    ensures h.Dispatched? ==> FieldText(m, "status") == Some(h.notice.status)
    ensures h.Dispatched? ==> FieldLong(m, "bookingId") == Some(h.notice.bookingId)
    ensures h.Dispatched? ==> FieldLong(m, "resourceId") == Some(h.notice.resourceId)
  {
    match (FieldLong(m, "bookingId"), FieldText(m, "userId"), FieldLong(m, "resourceId"), FieldText(m, "status"))
    case (Some(bookingId), Some(userId), Some(resourceId), Some(status)) =>
      Dispatched(Notice(bookingId, userId, resourceId, status), BranchFor(status))
    case _ => Caught
  }

  /** The handler decodes exactly when all four fields are present, non-null,
      and both ids read as longs. */
  lemma DecodeSucceedsExactly(m: Message)
    ensures HandleBookingNotification(m).Dispatched? <==>
              && FieldLong(m, "bookingId").Some? && FieldLong(m, "resourceId").Some?
              && "userId" in m && !m["userId"].NullValue?
              && "status" in m && !m["status"].NullValue?
  {
  }

  /** A message without a status, or with a non-numeric booking id, is
      caught rather than thrown. */
  lemma MalformedMessagesAreCaught(m: Message)
    ensures "status" !in m ==> HandleBookingNotification(m) == Caught
    ensures "bookingId" in m && m["bookingId"] == StringValue("abc") ==> HandleBookingNotification(m) == Caught
  {
  }

  /** Round trip: decoding the message built for a booking yields its id,
      owner, resource and status name, and the branch its status selects. */
  lemma BookingMessageRoundTrip(b: Booking)
    requires IsLong(b.id) && IsLong(b.resourceId)
    ensures HandleBookingNotification(BookingMessage(b))
         == Dispatched(Notice(b.id, b.userId, b.resourceId, StatusName(b.status)), BranchFor(StatusName(b.status)))
  {
    var m := BookingMessage(b);
    assert m["bookingId"] == LongValue(b.id);
    assert m["resourceId"] == LongValue(b.resourceId);
    assert m["userId"] == StringValue(b.userId);
    assert m["status"] == StringValue(StatusName(b.status));
    ParseLongText(b.id);
    ParseLongText(b.resourceId);
    assert FieldLong(m, "bookingId") == Some(b.id);
    assert FieldLong(m, "resourceId") == Some(b.resourceId);
  }

  /** The status of a published booking picks its branch: confirmed bookings
      the confirmation branch, cancelled ones the cancellation branch,
      pending and completed ones the generic branch. */
  lemma StatusSelectsBranch(s: BookingStatus)
    ensures BranchFor(StatusName(s)) == match s
                                         case CONFIRMED => ConfirmationBranch
                                         case CANCELLED => CancellationBranch
                                         case _ => GenericBranch
  {
  }

  /** The handler never reads the times or the price: changing them, or any
      field other than the four it decodes, changes nothing. */
  lemma IgnoresOtherFields(m: Message, key: string, v: Value)
    requires key !in {"bookingId", "userId", "resourceId", "status"}
    ensures HandleBookingNotification(m[key := v]) == HandleBookingNotification(m)
  {
    var m' := m[key := v];
    assert FieldText(m', "bookingId") == FieldText(m, "bookingId");
    assert FieldText(m', "userId") == FieldText(m, "userId");
    assert FieldText(m', "resourceId") == FieldText(m, "resourceId");
    assert FieldText(m', "status") == FieldText(m, "status");
  }
}
