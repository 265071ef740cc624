/** The booking notification message: a map from field names to values,
    built by the booking service after every create and cancel. */
module Notification {
  import opened Text
  import opened Decimals
  import opened BookingModel

  /** A value in the message map: a Java `Long`, a `String`, or null. */
  datatype Value = LongValue(n: int) | StringValue(s: string) | NullValue

  type Message = map<string, Value>

  /** The seven field names of a booking notification. */
  const MessageKeys: set<string> :=
    {"bookingId", "userId", "resourceId", "startTime", "endTime", "status", "totalPrice"}

  /** The text a timestamp is sent as. The model's timestamps are minute
      counts, so their decimal spelling stands for `LocalDateTime.toString()`. */
  function TimeText(t: int): string {
    LongText(t)
  }

  /** The message the service publishes for a booking: ids as longs, the
      user id as given, and the times, status and price as text. */
  function BookingMessage(b: Booking): (m: Message)
    ensures m.Keys == MessageKeys
    ensures m["bookingId"].LongValue? && m["resourceId"].LongValue?
    ensures forall k :: k in m && k != "bookingId" && k != "resourceId" ==> m[k].StringValue?
  {
    map[
      "bookingId" := LongValue(b.id),
      "userId" := StringValue(b.userId),
      "resourceId" := LongValue(b.resourceId),
      "startTime" := StringValue(TimeText(b.startTime)),
      "endTime" := StringValue(TimeText(b.endTime)),
      "status" := StringValue(StatusName(b.status)),
      "totalPrice" := StringValue(DecimalText(b.totalPrice))
    ]
  }
}
