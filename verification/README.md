# Booking platform core, modelled in Dafny

The platform lets users book shared resources (meeting rooms, halls,
equipment, vehicles, workspaces) for a time window. Four services are
involved:

- The **booking service** checks a requested window against the current time
  and against the resource's active bookings. It asks the **resource
  catalogue** for the hourly price, bills whole hours, saves a CONFIRMED
  booking, and publishes a notification. It also cancels bookings, for their
  owner or for an administrator, and serves reads through a cache keyed by id.
- The **resource catalogue** keeps the resources (create, read through a
  cache, filtered listings, update, delete, an availability flag). Its file
  storage places uploads under a per-resource folder.
- The **data processor** decodes booking notifications and picks a branch by
  the booking's status.
- The **API gateway** validates access tokens (but never refuses one), lets
  a few paths through without a token, and routes requests to the services.
  It rewrites the paths of the identity provider's route.

Every call is a pure function. It takes the store, the cache and the
outside world's answers as inputs, and it returns the next state and the
effects it caused:

- the current time, the catalogue's price reply and the broker's answer are
  parameters;
- the price request that was sent and the message handed to the broker are
  part of the outcome.

Stores are maps keyed by id, plus the next id to hand out. Timestamps are
whole minutes. Prices are exact decimals: an unscaled integer with a scale,
as `BigDecimal` keeps them.

Modules, in dependency order:

| module | what it holds |
|---|---|
| `Wrappers` | `Option`, `Result` |
| `Text` | prefixes, suffixes, `String.replace`, decimal spelling and parsing of longs, blankness |
| `Decimals` | exact decimals, their plain-text spelling and parsing |
| `Http` | responses and status codes |
| `Intervals` | the repository's conflict test, half-open overlap, whole hours |
| `BookingModel` | booking, status, booking record, request validation |
| `BookingRepository` | the booking queries |
| `Notification` | the booking notification message |
| `PricePort` | the price request and the reading of the reply |
| `BookingService` | create, cancel, cached read, queries, the consistency invariant |
| `BookingController` | the booking endpoints and their status codes |
| `NotificationListener` | the data processor's decoding and dispatch |
| `ResourceModel` | resource, resource record, its validation |
| `ResourceRepository` | the resource queries |
| `ResourceService` | the catalogue's operations and cache |
| `Authorities` | the catalogue's mapping from token claims to authorities |
| `ResourceController` | the catalogue endpoints, admin-only mutations |
| `FileStorage` | object naming, upload, download, listing |
| `TokenValidation` | the services' issuer test, validator composition, path rule |
| `GatewaySecurity` | the gateway's validators and permit rules |
| `GatewayRoutes` | the gateway's route table and path rewrite |

## Model

| member | source | states |
|---|---|---|
| Intervals.ThreeClauseIsHalfOpenOverlap | services/service-two/src/main/java/com/example/platform/servicetwo/repository/BookingRepository.java:25-27 | For non-empty windows, the repository's three-clause conflict test holds exactly when the two windows overlap as half-open intervals. |
| Intervals.TouchingWindowsDoNotConflict | services/service-two/src/main/java/com/example/platform/servicetwo/repository/BookingRepository.java:25-27 | A booking ending where the request starts, or starting where it ends, is no conflict. |
| Intervals.InvertedRequestStillConflicts | services/service-two/src/main/java/com/example/platform/servicetwo/repository/BookingRepository.java:25-27 | The test does not need the request ordered: an inverted request conflicts with any booking that covers its start. |
| Intervals.WholeHours | services/service-two/src/main/java/com/example/platform/servicetwo/service/BookingService.java:76-77 | The hour count of an ordered window is the h with the window between h and h+1 hours long, truncated toward zero (and mirrored for an inverted one). |
| Intervals.WholeHoursIsTheHourCount | services/service-two/src/main/java/com/example/platform/servicetwo/service/BookingService.java:76-77 | That hour count is unique: any h bracketing the window's length is the count. |
| Intervals.WholeHoursTruncates | services/service-two/src/main/java/com/example/platform/servicetwo/service/BookingService.java:76-77 | Two examples of the truncation: ninety minutes count as one hour, fifty-nine minutes as none. |
| BookingModel.StatusNameInjective | services/service-two/src/main/java/com/example/platform/servicetwo/service/BookingService.java:218 | The status text sent in a notification identifies the status: two statuses give the same text only if they are equal. |
| BookingModel.ValidationIgnoresTimeOrder | services/service-two/src/main/java/com/example/platform/servicetwo/dto/BookingDTO.java:14-24 | Request validation asks only for a positive resource id and both times present; an inverted window passes. |
| BookingModel.ValidationIgnoresOtherFields | services/service-two/src/main/java/com/example/platform/servicetwo/dto/BookingDTO.java:12-34 | Id, user, price, status, notes and timestamps do not affect validation. |
| BookingModel.ToDTOInjective | services/service-two/src/main/java/com/example/platform/servicetwo/service/BookingService.java:225-238 | The record returned for a booking mirrors it field for field: distinct bookings give distinct records. |
| BookingModel.IsValidRequest | services/service-two/src/main/java/com/example/platform/servicetwo/dto/BookingDTO.java:14-24 | Bean validation of a booking request; ValidationIgnoresTimeOrder and ValidationIgnoresOtherFields state what it checks. |
| BookingModel.ToDTO | services/service-two/src/main/java/com/example/platform/servicetwo/service/BookingService.java:225-238 | The record of a booking, field for field; ToDTOInjective states that it loses nothing. |
| BookingModel.StatusName | services/service-two/src/main/java/com/example/platform/servicetwo/service/BookingService.java:218 | A status's enum-constant name; StatusNameInjective states that distinct statuses have distinct names. |
| BookingRepository.FindById | services/service-two/src/main/java/com/example/platform/servicetwo/repository/BookingRepository.java:15 | The inherited id lookup finds a booking exactly when one is stored under the id, and returns that booking. |
| BookingRepository.FindByIdAndUserId | services/service-two/src/main/java/com/example/platform/servicetwo/repository/BookingRepository.java:40 | Present exactly when the booking exists and belongs to the user, and then it is that booking. |
| BookingRepository.FindByUserId | services/service-two/src/main/java/com/example/platform/servicetwo/repository/BookingRepository.java:17 | Exactly the user's bookings, each unchanged. |
| BookingRepository.FindByResourceId | services/service-two/src/main/java/com/example/platform/servicetwo/repository/BookingRepository.java:19 | Exactly the resource's bookings, each unchanged. |
| BookingRepository.FindByUserIdAndStatus | services/service-two/src/main/java/com/example/platform/servicetwo/repository/BookingRepository.java:21 | Exactly the user's bookings in that status, each unchanged. |
| BookingRepository.FindConflictingBookings | services/service-two/src/main/java/com/example/platform/servicetwo/repository/BookingRepository.java:23-30 | Only stored, PENDING or CONFIRMED bookings of the resource are returned; among those, exactly the ones meeting the three-clause test. |
| BookingRepository.FindConfirmedBookingsInRange | services/service-two/src/main/java/com/example/platform/servicetwo/repository/BookingRepository.java:32-38 | Exactly the CONFIRMED bookings of the resource lying wholly inside [s, e]. |
| BookingRepository.ConflictsAreHalfOpenOverlaps | services/service-two/src/main/java/com/example/platform/servicetwo/repository/BookingRepository.java:23-30 | Over non-empty stored windows and a non-empty request, the conflict query returns exactly the active bookings of the resource that overlap the request. |
| BookingRepository.InactiveBookingsNeverConflict | services/service-two/src/main/java/com/example/platform/servicetwo/repository/BookingRepository.java:24 | CANCELLED and COMPLETED bookings are never conflicts. |
| BookingRepository.TouchingBookingIsNoConflict | services/service-two/src/main/java/com/example/platform/servicetwo/repository/BookingRepository.java:25-27 | A stored booking that only touches the request is not returned. |
| BookingRepository.ConflictsBelongToResource | services/service-two/src/main/java/com/example/platform/servicetwo/repository/BookingRepository.java:23 | Conflicts are a subset of the resource's bookings. |
| BookingRepository.ConfirmedInRangeAreConflicts | services/service-two/src/main/java/com/example/platform/servicetwo/repository/BookingRepository.java:32-35 | A confirmed booking inside a non-empty range is also a conflict for that range. |
| BookingRepository.UserQueriesAgree | services/service-two/src/main/java/com/example/platform/servicetwo/repository/BookingRepository.java:17-21 | The status query is the user query narrowed to that status, and the four status queries together give the user query. |
| BookingRepository.OwnedLookupIsFilteredLookup | services/service-two/src/main/java/com/example/platform/servicetwo/repository/BookingRepository.java:40 | The owner-checked lookup equals the plain lookup filtered by owner. |
| Notification.BookingMessage | services/service-two/src/main/java/com/example/platform/servicetwo/service/BookingService.java:211-219 | The message has exactly the seven keys; the two ids are longs and every other value is text. |
| Notification.TimeText | services/service-two/src/main/java/com/example/platform/servicetwo/service/BookingService.java:216-217 | A timestamp's text in the message, standing in for `LocalDateTime.toString()`; by Text.LongTextInjective, distinct times give distinct texts. |
| PricePort.PriceRequestFor | services/service-two/src/main/java/com/example/platform/servicetwo/service/BookingService.java:185-188 | The request goes to the catalogue's item address, whose last segment parses back to the resource id; a bearer credential is sent exactly when a token is given. |
| PricePort.GetResourcePrice | services/service-two/src/main/java/com/example/platform/servicetwo/service/BookingService.java:183-209 | A price is obtained only from a 2xx reply with a body holding `pricePerHour`. |
| PricePort.TextPriceIsParsed | services/service-two/src/main/java/com/example/platform/servicetwo/service/BookingService.java:199-200 | A price sent as decimal text is read back exactly, scale included. |
| PricePort.NumberPriceIsTaken | services/service-two/src/main/java/com/example/platform/servicetwo/service/BookingService.java:197-198 | A numeric price is taken as it is. |
| PricePort.NotFoundLooksLikeAnyFailure | services/service-two/src/main/java/com/example/platform/servicetwo/service/BookingService.java:203-208 | A missing resource and a failed exchange both give no price. |
| PricePort.UnsuccessfulOrEmptyRepliesGiveNoPrice | services/service-two/src/main/java/com/example/platform/servicetwo/service/BookingService.java:194 | A reply outside 2xx, or without a body, gives no price whatever it holds. |
| PricePort.TextPriceExample | services/service-two/src/main/java/com/example/platform/servicetwo/service/BookingService.java:199-200 | An example: the text "25.50" is read as 25.50 with two places. |
| Decimals.DecimalTextRoundTrip | services/service-two/src/main/java/com/example/platform/servicetwo/service/BookingService.java:219 | The plain text of any decimal, as sent in the notification's `totalPrice`, parses back to the same decimal. |
| Decimals.TimesWhole | services/service-two/src/main/java/com/example/platform/servicetwo/service/BookingService.java:78-80 | Multiplying a price by a whole number of hours is exact and keeps the price's scale. |
| Decimals.ParseDecimal | services/service-two/src/main/java/com/example/platform/servicetwo/service/BookingService.java:199-200 | Reading a price text as an exact decimal; a negative result has a leading minus, and DecimalTextRoundTrip reads back every spelled decimal. |
| Decimals.DecimalText | services/service-two/src/main/java/com/example/platform/servicetwo/service/BookingService.java:219 | A price's plain text; DecimalTextRoundTrip states that ParseDecimal inverts it. |
| Text.ParseLongText | services/data-processor/src/main/java/com/example/platform/dataprocessor/messaging/BookingNotificationListener.java:20-22 | The decimal text of any long reads back as that long. |
| Text.LongTextInjective | services/file-service/src/main/java/com/example/platform/fileservice/service/FileStorageService.java:103 | Distinct ids have distinct decimal spellings. |
| Text.ParseLong | services/data-processor/src/main/java/com/example/platform/dataprocessor/messaging/BookingNotificationListener.java:20-22 | `Long.valueOf`: a result is a 64-bit value read from digits with at most a leading sign; ParseLongText states it inverts a long's text. |
| Text.ReplaceAll | services/service-two/src/main/java/com/example/platform/servicetwo/config/SecurityConfig.java:40-41 | `String.replace` of every occurrence; RewriteKeepsRealmSuffix states what the issuer rewrite keeps. |
| Text.IsBlank | services/file-service/src/main/java/com/example/platform/fileservice/dto/ResourceDTO.java:14 | `@NotBlank`'s blank test; BlankNamesAreRefused gives examples. |
| Text.UnderPath | services/api-gateway/src/main/java/com/example/platform/gateway/config/SecurityConfig.java:123-124 | A `/x/**` pattern: the base path or a path under it; RoutesAreDisjoint and OnlyActuatorIsOpen rely on it. |
| BookingService.IsResourceAvailable | services/service-two/src/main/java/com/example/platform/servicetwo/service/BookingService.java:177-181 | Available exactly when no active booking of the resource meets the conflict test. |
| BookingService.NoConflictsMeansNoneMatch | services/service-two/src/main/java/com/example/platform/servicetwo/service/BookingService.java:179-180 | An empty conflict result means no active booking of the resource meets the test, and conversely. |
| BookingService.GetBookingById | services/service-two/src/main/java/com/example/platform/servicetwo/service/BookingService.java:100-105 | A cached record is returned without change; otherwise a found booking's record is returned and cached, other cache entries kept; a miss changes nothing. |
| BookingService.GetUserBookings | services/service-two/src/main/java/com/example/platform/servicetwo/service/BookingService.java:107-112 | Exactly the user's bookings, as records. |
| BookingService.GetResourceBookings | services/service-two/src/main/java/com/example/platform/servicetwo/service/BookingService.java:114-119 | Exactly the resource's bookings, as records. |
| BookingService.CreateBooking | services/service-two/src/main/java/com/example/platform/servicetwo/service/BookingService.java:54-98 | A failure leaves the service unchanged. Success holds exactly when start ≥ now, the window is at least an hour, the resource is free, a price is read and the broker accepts. Then a CONFIRMED booking under the next id is saved, the cache cleared, the price billed for whole hours, and that booking's message published. |
| BookingService.TimeChecksComeFirst | services/service-two/src/main/java/com/example/platform/servicetwo/service/BookingService.java:57-62 | A start before now, or an end not after the start, is refused before any price request or message; a start exactly at now passes the first check. |
| BookingService.ConflictRejectsWithoutSaving | services/service-two/src/main/java/com/example/platform/servicetwo/service/BookingService.java:65-67 | An overlap with an active booking of the resource is refused with "not available", before the price lookup, saving nothing. |
| BookingService.AvailableIffNoOverlap | services/service-two/src/main/java/com/example/platform/servicetwo/service/BookingService.java:177-181 | For a non-empty window over non-empty stored windows, availability is the absence of any half-open overlap with an active booking of the resource. |
| BookingService.PriceFailureIsResourceNotFound | services/service-two/src/main/java/com/example/platform/servicetwo/service/BookingService.java:70-73 | Every price failure ends as "Resource not found", after the request was sent, with nothing saved. |
| BookingService.ShortBookingRejectedAfterLookup | services/service-two/src/main/java/com/example/platform/servicetwo/service/BookingService.java:76-80 | A window under an hour is refused with the end-time message only after the price request. |
| BookingService.PartialHoursAreNotBilled | services/service-two/src/main/java/com/example/platform/servicetwo/service/BookingService.java:76-80 | The total of a created booking is the hourly price times the whole hours of its window, and that count is at least one. |
| BookingService.CreatePublishFailureRollsBack | services/service-two/src/main/java/com/example/platform/servicetwo/service/BookingService.java:92-97 | A broker failure escapes create after the message was handed over; the booking is not saved and the cache is kept. |
| BookingService.CancelBooking | services/service-two/src/main/java/com/example/platform/servicetwo/service/BookingService.java:121-147 | An absent or foreign booking gives an empty result and a cleared cache. A cancelled or completed one raises and changes nothing. An active one becomes CANCELLED with every other field kept, is published, and the cache is cleared. |
| BookingService.CancelBookingAsAdmin | services/service-two/src/main/java/com/example/platform/servicetwo/service/BookingService.java:149-175 | The same state machine with no ownership check. |
| BookingService.AdminCancelSkipsOwnership | services/service-two/src/main/java/com/example/platform/servicetwo/service/BookingService.java:149-175 | The administrator's cancel equals the owner's cancel called for the booking's owner. |
| BookingService.CancelSwallowsPublishFailure | services/service-two/src/main/java/com/example/platform/servicetwo/service/BookingService.java:139-146 | Cancelling ends the same whether the broker accepts or fails. |
| BookingService.CancelFound | services/service-two/src/main/java/com/example/platform/servicetwo/service/BookingService.java:127-146 | What both cancels do after the lookup; CancelBooking, CancelBookingAsAdmin and CancelSwallowsPublishFailure state its cases. |
| BookingService.ReadThroughIsStoreRead | services/service-two/src/main/java/com/example/platform/servicetwo/service/BookingService.java:100-105 | With a coherent cache, the cached read answers what the store holds and leaves the cache coherent. |
| BookingService.CreatePreservesConsistent | services/service-two/src/main/java/com/example/platform/servicetwo/service/BookingService.java:54-98 | Create keeps the service consistent: ids well keyed and below the next id, windows non-empty, no two active bookings of a resource overlapping, the cache coherent. |
| BookingService.InsertPreservesConsistent | services/service-two/src/main/java/com/example/platform/servicetwo/service/BookingService.java:83-92 | Saving a fresh, non-empty booking that overlaps no active booking of its resource, and clearing the cache, keeps the service consistent. |
| BookingService.CancelPreservesConsistent | services/service-two/src/main/java/com/example/platform/servicetwo/service/BookingService.java:121-175 | Either cancel keeps the service consistent. |
| BookingService.StepPreservesConsistent | services/service-two/src/main/java/com/example/platform/servicetwo/service/BookingService.java:54-175 | Every single create, cancel, admin cancel or read keeps the service consistent. |
| BookingService.RunPreservesConsistent | services/service-two/src/main/java/com/example/platform/servicetwo/service/BookingService.java:54-175 | Any sequence of those calls keeps the service consistent; in particular no two active bookings of one resource ever overlap. |
| BookingService.Step | services/service-two/src/main/java/com/example/platform/servicetwo/service/BookingService.java:55-175 | One creating or cancelling call; StepPreservesConsistent states the invariant it keeps. |
| BookingService.Run | services/service-two/src/main/java/com/example/platform/servicetwo/service/BookingService.java:55-175 | A sequence of such calls; RunPreservesConsistent states the invariant over any sequence. |
| BookingController.CreateBooking | services/service-two/src/main/java/com/example/platform/servicetwo/web/BookingController.java:24-35 | An invalid request is 400 with no change. Otherwise the service is called for the token's subject, and the answer is 201 with the record exactly on success, 400 exactly on an illegal argument, and 500 exactly on the broker failure. |
| BookingController.GetBooking | services/service-two/src/main/java/com/example/platform/servicetwo/web/BookingController.java:38-52 | As written, with `isAdmin` on the converted claim: a body is returned exactly with 200, and it is the cached read's record; GetBookingAccess states who gets it. |
| BookingController.ReadBooking | services/service-two/src/main/java/com/example/platform/servicetwo/web/BookingController.java:41-51 | The lookup and owner-or-admin test shared by both versions of the endpoint; a body comes back exactly with 200, and it is the cached read's record. |
| BookingController.GetBookingIntended | services/service-two/src/main/java/com/example/platform/servicetwo/web/BookingController.java:38-52 | The endpoint with the corrected admin test; a body comes back exactly with 200, the cached read's record. |
| BookingController.IsAdmin | services/service-two/src/main/java/com/example/platform/servicetwo/web/BookingController.java:95-98 | The admin test as intended, "admin" among the realm roles; AdminMatchesRealmAuthority ties it to the catalogue's `ROLE_admin`. |
| BookingController.StringListAsWritten | services/service-two/src/main/java/com/example/platform/servicetwo/web/BookingController.java:96-97 | `getClaimAsStringList`: an array's items, and for any other value the one-element list of its text. |
| BookingController.IsAdminAsWritten | services/service-two/src/main/java/com/example/platform/servicetwo/web/BookingController.java:95-98 | The admin test as written, on the converted claim; AdminOverrideIsDeadAsWritten states when it fails. |
| BookingController.AdminOverrideIsDeadAsWritten | services/service-two/src/main/java/com/example/platform/servicetwo/web/BookingController.java:95-98 | As written, an object-shaped `realm_access` never makes the caller an administrator; an array-shaped one does exactly when it lists "admin". |
| BookingController.KeycloakAdminIsMissedAsWritten | services/service-two/src/main/java/com/example/platform/servicetwo/web/BookingController.java:95-98 | The counterexample: a token with `realm_access` `{roles=[admin]}` is an administrator by its realm roles but not as written. |
| BookingController.AdminMatchesRealmAuthority | services/service-two/src/main/java/com/example/platform/servicetwo/web/BookingController.java:95-98 | The corrected test holds exactly when `ROLE_admin` is among the realm authorities the catalogue grants from the same token. |
| BookingController.GetMyBookings | services/service-two/src/main/java/com/example/platform/servicetwo/web/BookingController.java:54-59 | 200 with exactly the caller's bookings, those whose owner is the token's subject, each as its record. |
| BookingController.GetResourceBookings | services/service-two/src/main/java/com/example/platform/servicetwo/web/BookingController.java:61-65 | 200 with exactly the stored bookings of that resource, whoever owns them, each as its record. |
| BookingController.CancelBooking | services/service-two/src/main/java/com/example/platform/servicetwo/web/BookingController.java:67-78 | Always the owner's cancel, answered 204 or 400 with no body. |
| BookingController.CheckAvailability | services/service-two/src/main/java/com/example/platform/servicetwo/web/BookingController.java:80-93 | 400 exactly when a timestamp did not parse; otherwise 200 with the availability. |
| BookingController.UserIdComesFromSubject | services/service-two/src/main/java/com/example/platform/servicetwo/web/BookingController.java:27-28 | The user id in the request body changes nothing, and a created booking belongs to the token's subject. |
| BookingController.RefusedCreatesAreBadRequests | services/service-two/src/main/java/com/example/platform/servicetwo/web/BookingController.java:33-35 | Bad times, a window under an hour, a conflict and an unknown resource are all 400 with nothing saved. |
| BookingController.GetBookingAccess | services/service-two/src/main/java/com/example/platform/servicetwo/web/BookingController.java:42-51 | As written, with a coherent cache: 404 exactly when absent, 200 exactly for the owner or a caller whose converted `realm_access` lists "admin", 403 exactly otherwise. For an object-shaped or missing `realm_access`, only the owner gets 200. |
| BookingController.ReadBookingAccess | services/service-two/src/main/java/com/example/platform/servicetwo/web/BookingController.java:41-51 | For either admin test: 404 exactly when absent, 200 exactly for the owner or an administrator, 403 exactly otherwise. |
| BookingController.GetBookingIntendedAccess | services/service-two/src/main/java/com/example/platform/servicetwo/web/BookingController.java:42-51 | As intended: 200 exactly for the owner or a caller whose realm roles include "admin", 404 exactly when absent, 403 otherwise. |
| BookingController.KeycloakAdminIsRefusedAsWritten | services/service-two/src/main/java/com/example/platform/servicetwo/web/BookingController.java:48 | The endpoint counterexample: an administrator's `{roles=[admin]}` token reading another user's booking gets 403 as written and 200 as intended. |
| BookingController.CancelStatusCodes | services/service-two/src/main/java/com/example/platform/servicetwo/web/BookingController.java:71-77 | 204 exactly when the caller owns an active booking under the id; never 404. |
| BookingController.AvailabilityIgnoresOrder | services/service-two/src/main/java/com/example/platform/servicetwo/web/BookingController.java:85-92 | An inverted window is answered 200, and unavailable when an active booking covers its start. |
| BookingController.ResourceBookingsForAnyCaller | services/service-two/src/main/java/com/example/platform/servicetwo/web/BookingController.java:61-64 | A resource's booking is listed whoever asks. |
| NotificationListener.FieldText | services/data-processor/src/main/java/com/example/platform/dataprocessor/messaging/BookingNotificationListener.java:21-23 | A field reads as text exactly when its key is present with a non-null value. |
| NotificationListener.FieldLong | services/data-processor/src/main/java/com/example/platform/dataprocessor/messaging/BookingNotificationListener.java:20-22 | A message field read as a long; DecodeSucceedsExactly states when both ids read. |
| NotificationListener.BranchFor | services/data-processor/src/main/java/com/example/platform/dataprocessor/messaging/BookingNotificationListener.java:34-45 | The confirmation branch exactly for "CONFIRMED", the cancellation branch exactly for "CANCELLED". |
| NotificationListener.HandleBookingNotification | services/data-processor/src/main/java/com/example/platform/dataprocessor/messaging/BookingNotificationListener.java:16-50 | A dispatched notice carries the message's booking and resource ids as read, its user and status texts, and its branch is the status's branch. |
| NotificationListener.DecodeSucceedsExactly | services/data-processor/src/main/java/com/example/platform/dataprocessor/messaging/BookingNotificationListener.java:19-23 | Decoding succeeds exactly when both ids read as longs and user and status are present and non-null; anything else is caught. |
| NotificationListener.MalformedMessagesAreCaught | services/data-processor/src/main/java/com/example/platform/dataprocessor/messaging/BookingNotificationListener.java:47-49 | Any message without a status is caught, not thrown; and, as an example of a non-numeric id, a booking id "abc" is caught. |
| NotificationListener.BookingMessageRoundTrip | services/data-processor/src/main/java/com/example/platform/dataprocessor/messaging/BookingNotificationListener.java:20-23 | Decoding the message published for a booking gives back its id, owner, resource and status, and the branch of that status. |
| NotificationListener.StatusSelectsBranch | services/data-processor/src/main/java/com/example/platform/dataprocessor/messaging/BookingNotificationListener.java:34-45 | Confirmed bookings take the confirmation branch, cancelled ones the cancellation branch, pending and completed ones the generic one. |
| NotificationListener.IgnoresOtherFields | services/data-processor/src/main/java/com/example/platform/dataprocessor/messaging/BookingNotificationListener.java:20-23 | Changing any field other than the four decoded ones, the times and price among them, changes nothing. |
| ResourceModel.ToDTO | services/file-service/src/main/java/com/example/platform/fileservice/service/ResourceService.java:106-118 | The record always carries the availability flag. |
| ResourceModel.ToDTOInjective | services/file-service/src/main/java/com/example/platform/fileservice/dto/ResourceDTO.java:39-51 | Distinct resources give distinct records. |
| ResourceModel.ValidationIgnoresOtherFields | services/file-service/src/main/java/com/example/platform/fileservice/dto/ResourceDTO.java:12-34 | Id, description, availability and timestamps do not affect validation. |
| ResourceModel.BlankNamesAreRefused | services/file-service/src/main/java/com/example/platform/fileservice/dto/ResourceDTO.java:14-15 | Examples of the blank test: the empty name and a name of blanks are refused; a name with a visible character passes, surrounding blanks and all. |
| ResourceModel.NonPositiveAmountsAreRefused | services/file-service/src/main/java/com/example/platform/fileservice/dto/ResourceDTO.java:22-28 | A price or capacity of zero or below is refused. |
| ResourceModel.IsValidResource | services/file-service/src/main/java/com/example/platform/fileservice/dto/ResourceDTO.java:14-28 | Bean validation of a resource request; ValidationIgnoresOtherFields, BlankNamesAreRefused and NonPositiveAmountsAreRefused state what it checks. |
| ResourceRepository.FindById | services/file-service/src/main/java/com/example/platform/fileservice/repository/ResourceRepository.java:14 | The inherited id lookup finds exactly the stored resource under the id. |
| ResourceRepository.FindByType | services/file-service/src/main/java/com/example/platform/fileservice/repository/ResourceRepository.java:16 | Exactly the resources of the type. |
| ResourceRepository.FindByAvailableTrue | services/file-service/src/main/java/com/example/platform/fileservice/repository/ResourceRepository.java:18 | Exactly the available resources. |
| ResourceRepository.FindByTypeAndAvailableTrue | services/file-service/src/main/java/com/example/platform/fileservice/repository/ResourceRepository.java:20 | Only stored resources, unchanged. |
| ResourceRepository.FindAvailableByMinCapacity | services/file-service/src/main/java/com/example/platform/fileservice/repository/ResourceRepository.java:22-23 | Exactly the available resources whose capacity is known and at least the minimum. |
| ResourceRepository.FindByIdAndAvailableTrue | services/file-service/src/main/java/com/example/platform/fileservice/repository/ResourceRepository.java:25 | Present exactly when the resource exists and is available. |
| ResourceRepository.TypeAndAvailableIsIntersection | services/file-service/src/main/java/com/example/platform/fileservice/repository/ResourceRepository.java:16-20 | The combined query is the intersection of the type and availability queries. |
| ResourceRepository.MinCapacityIsMonotone | services/file-service/src/main/java/com/example/platform/fileservice/repository/ResourceRepository.java:22-23 | A higher minimum only narrows the result, and all results are available. |
| ResourceRepository.AvailableLookupIsFilteredLookup | services/file-service/src/main/java/com/example/platform/fileservice/repository/ResourceRepository.java:25 | The availability-checked lookup is the plain lookup filtered by the flag. |
| ResourceService.CreateResource | services/file-service/src/main/java/com/example/platform/fileservice/service/ResourceService.java:26-38 | One resource is added under the next id with the request's fields copied and the availability defaulting to true; the cache is cleared and the returned record is the saved one's. |
| ResourceService.GetResourceById | services/file-service/src/main/java/com/example/platform/fileservice/service/ResourceService.java:40-45 | A cached record is returned without change; otherwise a found record is cached; a miss changes nothing. |
| ResourceService.GetAllResources | services/file-service/src/main/java/com/example/platform/fileservice/service/ResourceService.java:47-52 | One record per stored resource, each the record of that resource. |
| ResourceService.GetAvailableResources | services/file-service/src/main/java/com/example/platform/fileservice/service/ResourceService.java:54-59 | Exactly the available resources, each as its record. |
| ResourceService.GetResourcesByType | services/file-service/src/main/java/com/example/platform/fileservice/service/ResourceService.java:61-66 | Exactly the resources of the type, each as its record. |
| ResourceService.GetAvailableResourcesByType | services/file-service/src/main/java/com/example/platform/fileservice/service/ResourceService.java:68-73 | Exactly the available resources of the type, each as its record. |
| ResourceService.UpdateResource | services/file-service/src/main/java/com/example/platform/fileservice/service/ResourceService.java:75-90 | A missing id changes no resource and gives nothing. Otherwise five fields are overwritten, the availability only when given, and the record returned. The cache is cleared either way. |
| ResourceService.DeleteResource | services/file-service/src/main/java/com/example/platform/fileservice/service/ResourceService.java:92-99 | True exactly when the id existed; afterwards it is gone, and the cache is cleared. |
| ResourceService.IsResourceAvailable | services/file-service/src/main/java/com/example/platform/fileservice/service/ResourceService.java:101-104 | True exactly when the resource exists and is flagged available. |
| ResourceService.CreatedResourceIsAvailableByDefault | services/file-service/src/main/java/com/example/platform/fileservice/service/ResourceService.java:34 | A request without a flag creates a resource that the availability check reports. |
| ResourceService.UpdateKeepsAvailabilityWhenAbsent | services/file-service/src/main/java/com/example/platform/fileservice/service/ResourceService.java:84-86 | An update without a flag leaves the availability answer unchanged. |
| ResourceService.DeleteIsIdempotent | services/file-service/src/main/java/com/example/platform/fileservice/service/ResourceService.java:92-99 | A second delete finds nothing and changes nothing. |
| ResourceService.ReadThroughIsStoreRead | services/file-service/src/main/java/com/example/platform/fileservice/service/ResourceService.java:40-45 | With a coherent cache, the cached read answers what the store holds and keeps the cache coherent. |
| ResourceService.MutationsPreserveConsistent | services/file-service/src/main/java/com/example/platform/fileservice/service/ResourceService.java:26-99 | Create, update, delete and read each keep ids well keyed and below the next id and the cache coherent. |
| ResourceService.TypeListingSplitsByAvailability | services/file-service/src/main/java/com/example/platform/fileservice/service/ResourceService.java:61-73 | The available listing of a type is the type listing intersected with the available listing. |
| Authorities.Member | services/file-service/src/main/java/com/example/platform/fileservice/config/SecurityConfig.java:71 | A map lookup is absent exactly when no entry has the key; otherwise it is the value of the first entry with that key. |
| Authorities.Prefixed | services/file-service/src/main/java/com/example/platform/fileservice/config/SecurityConfig.java:73-75 | One authority per role, in order, each the role with `ROLE_` in front. |
| Authorities.GrantedAuthorities | services/file-service/src/main/java/com/example/platform/fileservice/config/SecurityConfig.java:66-93 | The list is the realm roles, prefixed and in order, followed by exactly the client authorities. |
| Authorities.RealmRoles | services/file-service/src/main/java/com/example/platform/fileservice/config/SecurityConfig.java:69-77 | The realm's role list; GrantedAuthorities puts it first. |
| Authorities.ClientAuthorities | services/file-service/src/main/java/com/example/platform/fileservice/config/SecurityConfig.java:79-91 | The prefixed roles of every client in order; ClientAuthoritiesMembership states exactly which. |
| Authorities.HasRole | services/file-service/src/main/java/com/example/platform/fileservice/web/ResourceController.java:26 | `hasRole`: the prefixed role among the authorities; HasRoleIffListed states when it holds. |
| Authorities.PrefixCancels | services/file-service/src/main/java/com/example/platform/fileservice/config/SecurityConfig.java:74 | The prefix loses no information: equal authorities come from equal roles. |
| Authorities.PrefixedMembership | services/file-service/src/main/java/com/example/platform/fileservice/config/SecurityConfig.java:73-75 | A prefixed role is granted exactly when the role is listed. |
| Authorities.ClientAuthoritiesMembership | services/file-service/src/main/java/com/example/platform/fileservice/config/SecurityConfig.java:79-91 | A client authority is granted exactly when some client lists the role. |
| Authorities.HasRoleIffListed | services/file-service/src/main/java/com/example/platform/fileservice/config/SecurityConfig.java:66-93 | A role holds exactly when the realm lists it or some client does. |
| Authorities.ClientAuthoritiesArePrefixed | services/file-service/src/main/java/com/example/platform/fileservice/config/SecurityConfig.java:79-91 | Every client authority carries the `ROLE_` prefix. |
| Authorities.AllAuthoritiesArePrefixed | services/file-service/src/main/java/com/example/platform/fileservice/config/SecurityConfig.java:66-93 | Every granted authority, realm or client, carries the `ROLE_` prefix. |
| Authorities.WrongShapesContributeNothing | services/file-service/src/main/java/com/example/platform/fileservice/config/SecurityConfig.java:69-82 | Claims of the wrong shape give no authority and no error. |
| Authorities.DuplicatesAreKept | services/file-service/src/main/java/com/example/platform/fileservice/config/SecurityConfig.java:67-93 | For any claims, a role listed by the realm and by some client is granted at least twice: once among the realm authorities and once among the client authorities after them. |
| Authorities.DuplicateRoleExample | services/file-service/src/main/java/com/example/platform/fileservice/config/SecurityConfig.java:67-93 | An example: "admin" in the realm and in one client gives `ROLE_admin` twice and nothing else. |
| ResourceController.CreateResource | services/file-service/src/main/java/com/example/platform/fileservice/web/ResourceController.java:25-30 | 201 exactly for a valid request from an administrator; then the catalogue is the service's create result and the body its record of the new resource. An invalid request is 400 and a non-administrator 403, both with no change. |
| ResourceController.GetResource | services/file-service/src/main/java/com/example/platform/fileservice/web/ResourceController.java:32-37 | 200 with a body or 404 without; the store is unchanged. |
| ResourceController.GetAllResources | services/file-service/src/main/java/com/example/platform/fileservice/web/ResourceController.java:39-56 | Always 200, listing only stored resources as their records. |
| ResourceController.UpdateResource | services/file-service/src/main/java/com/example/platform/fileservice/web/ResourceController.java:58-65 | 400 for an invalid request, then 403 for a non-administrator, both with no change. Otherwise the catalogue is the service's update result, and the answer is 200 with the service's record or 404 without one. |
| ResourceController.DeleteResource | services/file-service/src/main/java/com/example/platform/fileservice/web/ResourceController.java:67-74 | 403 with no change for a non-administrator; otherwise 204 exactly when the id existed and 404 exactly when it did not, and the id is gone. |
| ResourceController.CheckAvailability | services/file-service/src/main/java/com/example/platform/fileservice/web/ResourceController.java:76-80 | Always 200; true exactly when the resource exists and is available. |
| ResourceController.ListingIsFilter | services/file-service/src/main/java/com/example/platform/fileservice/web/ResourceController.java:45-53 | The listing holds exactly the resources matching the type when given and the flag when it is true. |
| ResourceController.FalseFlagIsNoFilter | services/file-service/src/main/java/com/example/platform/fileservice/web/ResourceController.java:45-53 | `available=false` lists the same as no flag. |
| ResourceController.GetResourceStatus | services/file-service/src/main/java/com/example/platform/fileservice/web/ResourceController.java:32-37 | With a coherent cache, 200 exactly when the resource exists, with its record. |
| ResourceController.UpdateStatusCodes | services/file-service/src/main/java/com/example/platform/fileservice/web/ResourceController.java:58-65 | For a valid request: 200 exactly when an administrator updates an existing id, 404 exactly when the administrator names a missing one; the store changes only on 200. |
| ResourceController.ValidationBeforeAuthorisation | services/file-service/src/main/java/com/example/platform/fileservice/web/ResourceController.java:26-27 | An invalid body from a non-administrator is 400, not 403. |
| ResourceController.AdminFollowsRole | services/file-service/src/main/java/com/example/platform/fileservice/web/ResourceController.java:26 | A caller is an administrator exactly when the realm or some client lists the `admin` role. |
| ResourceController.IsAdmin | services/file-service/src/main/java/com/example/platform/fileservice/web/ResourceController.java:26 | `hasRole('admin')`; AdminFollowsRole states when it holds. |
| FileStorage.Folder | services/file-service/src/main/java/com/example/platform/fileservice/service/FileStorageService.java:72 | A resource's folder starts with `resource-`, has more after it, and ends with a slash. |
| FileStorage.BuildObjectName | services/file-service/src/main/java/com/example/platform/fileservice/service/FileStorageService.java:99-104 | Without a resource the name is unchanged; with one it is the resource's folder followed by the original name. |
| FileStorage.ListPrefix | services/file-service/src/main/java/com/example/platform/fileservice/service/FileStorageService.java:72 | A prefix exactly when a resource is given. |
| FileStorage.Upload | services/file-service/src/main/java/com/example/platform/fileservice/service/FileStorageService.java:41-53 | The returned name is the built name, and the store gains the content under it; nothing else changes. |
| FileStorage.Download | services/file-service/src/main/java/com/example/platform/fileservice/service/FileStorageService.java:65-68 | Content is found exactly when the built name is stored. |
| FileStorage.List | services/file-service/src/main/java/com/example/platform/fileservice/service/FileStorageService.java:70-87 | Every stored name under the prefix shows as its one-level entry, and every entry comes from a stored name under the prefix. |
| FileStorage.PrefixText | services/file-service/src/main/java/com/example/platform/fileservice/service/FileStorageService.java:72-76 | The prefix as applied: a name is under it exactly when the resource prefix, if any, begins the name. |
| FileStorage.FirstSlash | services/file-service/src/main/java/com/example/platform/fileservice/service/FileStorageService.java:73-77 | The first slash of a name, or its length when there is none: no slash comes before it. |
| FileStorage.EntryShape | services/file-service/src/main/java/com/example/platform/fileservice/service/FileStorageService.java:73-77 | A listing entry is under the prefix, one level deep, and is either the stored name or a folder that begins it. |
| FileStorage.ListMembership | services/file-service/src/main/java/com/example/platform/fileservice/service/FileStorageService.java:70-87 | An entry is listed exactly when it is under the prefix, one level deep, and is either stored or a folder beginning a stored name. |
| FileStorage.DownloadReadsUpload | services/file-service/src/main/java/com/example/platform/fileservice/service/FileStorageService.java:41-68 | Download reads back what upload wrote for the same name and resource. |
| FileStorage.UploadIsListed | services/file-service/src/main/java/com/example/platform/fileservice/service/FileStorageService.java:70-87 | A file uploaded under a name without a slash is listed for its resource; the unfiltered listing shows it, or its resource's folder when it has one. |
| FileStorage.FolderIsListed | services/file-service/src/main/java/com/example/platform/fileservice/service/FileStorageService.java:70-87 | Any stored name in a resource's folder makes the unfiltered listing show that folder. |
| FileStorage.NestedUploadShowsFolder | services/file-service/src/main/java/com/example/platform/fileservice/service/FileStorageService.java:70-87 | A name with a slash uploaded for a resource shows, in the resource's listing, as its sub-folder. |
| FileStorage.FoldersAreDisjoint | services/file-service/src/main/java/com/example/platform/fileservice/service/FileStorageService.java:72-103 | A name built for one resource is never listed for another, even when one id's digits begin the other's. |
| TokenValidation.JwkSetUri | services/service-two/src/main/java/com/example/platform/servicetwo/config/SecurityConfig.java:31 | The key-set address is the issuer address followed by the certificate path: it begins with one, ends with the other, and is exactly as long as both. |
| TokenValidation.IssuerValidator | services/service-two/src/main/java/com/example/platform/servicetwo/config/SecurityConfig.java:37-54 | It throws exactly on a missing issuer; it passes exactly for an accepted issuer; otherwise it reports one `invalid_token` error. |
| TokenValidation.Delegating | services/service-two/src/main/java/com/example/platform/servicetwo/config/SecurityConfig.java:56 | The composition passes exactly when both pass, and throws when either throws. |
| TokenValidation.ServiceValidator | services/file-service/src/main/java/com/example/platform/fileservice/config/SecurityConfig.java:60 | A token passes exactly when the timestamp check passes and the issuer is present and accepted. |
| TokenValidation.StrictIssuerIsAccepted | services/service-two/src/main/java/com/example/platform/servicetwo/config/SecurityConfig.java:43 | The configured issuer itself is always accepted. |
| TokenValidation.RewriteKeepsRealmSuffix | services/service-two/src/main/java/com/example/platform/servicetwo/config/SecurityConfig.java:40-41 | Rewriting the authority of an issuer ending in `/realms/app` keeps that ending. |
| TokenValidation.RealmIssuerReducesToSuffix | services/file-service/src/main/java/com/example/platform/fileservice/config/SecurityConfig.java:43-50 | With an issuer ending in `/realms/app`, a token issuer is accepted exactly when it ends that way too. |
| TokenValidation.ForeignHostPasses | services/service-two/src/main/java/com/example/platform/servicetwo/config/SecurityConfig.java:46 | An example: with the default issuer, a token from a foreign host ending in the realm path is accepted though the strict test refuses it. |
| TokenValidation.BothValidatorsMustPass | services/service-two/src/main/java/com/example/platform/servicetwo/config/SecurityConfig.java:56 | An expired token is refused whatever its issuer, and a refused issuer whatever the timestamps. |
| TokenValidation.OnlyActuatorIsOpen | services/service-two/src/main/java/com/example/platform/servicetwo/config/SecurityConfig.java:63-65 | Anonymous callers reach exactly `/actuator` and the paths under it; authenticated callers reach every path. |
| TokenValidation.IssuerAccepted | services/service-two/src/main/java/com/example/platform/servicetwo/config/SecurityConfig.java:39-46 | The services' issuer test; StrictIssuerIsAccepted and RealmIssuerReducesToSuffix state its cases. |
| TokenValidation.ServiceAdmits | services/service-two/src/main/java/com/example/platform/servicetwo/config/SecurityConfig.java:63-65 | The services' permit rule; OnlyActuatorIsOpen states it. |
| GatewaySecurity.GatewayIssuerValidator | services/api-gateway/src/main/java/com/example/platform/gateway/config/SecurityConfig.java:39-70 | It throws exactly on a missing issuer and otherwise passes, matching or not. |
| GatewaySecurity.LoggingValidator | services/api-gateway/src/main/java/com/example/platform/gateway/config/SecurityConfig.java:73-104 | It passes whatever the two validators report or throw. |
| GatewaySecurity.GatewayValidator | services/api-gateway/src/main/java/com/example/platform/gateway/config/SecurityConfig.java:106 | Every token passes the gateway's validation. |
| GatewaySecurity.GatewayTestExtendsServiceTest | services/api-gateway/src/main/java/com/example/platform/gateway/config/SecurityConfig.java:54-58 | Any issuer the services accept also matches the gateway's logged test. |
| GatewaySecurity.GatewayPassesWhatServicesRefuse | services/api-gateway/src/main/java/com/example/platform/gateway/config/SecurityConfig.java:91-103 | A token the services refuse, for its timestamps or its issuer, still passes the gateway. |
| GatewaySecurity.AnonymousAccess | services/api-gateway/src/main/java/com/example/platform/gateway/config/SecurityConfig.java:122-127 | Anonymous requests pass exactly for the actuator and `/auth` paths and for OPTIONS; authenticated requests always pass. |
| GatewaySecurity.BusinessPathsNeedAToken | services/api-gateway/src/main/java/com/example/platform/gateway/config/SecurityConfig.java:122-127 | A non-OPTIONS request for a booking, resource, file or notification path needs authentication. |
| GatewaySecurity.GatewayIssuerMatches | services/api-gateway/src/main/java/com/example/platform/gateway/config/SecurityConfig.java:42-58 | The gateway's issuer test; GatewayTestExtendsServiceTest relates it to the services' test. |
| GatewaySecurity.GatewayPermits | services/api-gateway/src/main/java/com/example/platform/gateway/config/SecurityConfig.java:123-125 | The paths let through without a token; AnonymousAccess states them. |
| GatewaySecurity.GatewayAdmits | services/api-gateway/src/main/java/com/example/platform/gateway/config/SecurityConfig.java:122-127 | Permitted or authenticated; BusinessPathsNeedAToken states it. |
| GatewayRoutes.RouteFor | services/api-gateway/src/main/java/com/example/platform/gateway/config/GatewayConfig.java:26-34 | A chosen route's patterns cover the path. |
| GatewayRoutes.RewriteAuthPath | services/api-gateway/src/main/java/com/example/platform/gateway/config/GatewayConfig.java:32 | A path under `/auth/` loses the `/auth` part and still starts with a slash; any other path is unchanged. |
| GatewayRoutes.Forward | services/api-gateway/src/main/java/com/example/platform/gateway/config/GatewayConfig.java:26-34 | Forwarded exactly when a route matches, with the path unchanged except on the identity provider's route. |
| GatewayRoutes.SecondCharOfMatch | services/api-gateway/src/main/java/com/example/platform/gateway/config/GatewayConfig.java:27-31 | A covered path shares its route base's second character. |
| GatewayRoutes.RoutesAreDisjoint | services/api-gateway/src/main/java/com/example/platform/gateway/config/GatewayConfig.java:27-33 | At most one route matches any path. |
| GatewayRoutes.RouteIsTheMatchingOne | services/api-gateway/src/main/java/com/example/platform/gateway/config/GatewayConfig.java:27-33 | The chosen route is exactly the one that matches; no route is chosen exactly when none matches. |
| GatewayRoutes.ServicePathsAreForwardedUnchanged | services/api-gateway/src/main/java/com/example/platform/gateway/config/GatewayConfig.java:27-30 | Service routes forward to their address with the path as it is. |
| GatewayRoutes.AuthPathsAreRewritten | services/api-gateway/src/main/java/com/example/platform/gateway/config/GatewayConfig.java:31-33 | `/auth/<rest>` goes to the identity provider as `/<rest>`, and putting `/auth` back in front gives the original path. |
| GatewayRoutes.BareAuthPathIsKept | services/api-gateway/src/main/java/com/example/platform/gateway/config/GatewayConfig.java:31-33 | `/auth` alone is routed to the identity provider with its path unchanged. |
| GatewayRoutes.FilesShareTheCatalogue | services/api-gateway/src/main/java/com/example/platform/gateway/config/GatewayConfig.java:12-28 | Under every configuration, any file path and any resource path are forwarded unchanged to the same catalogue address, `http://resource-service:8081` by default. |

## Left out

- HTTP transport, AMQP, Redis, JPA and MinIO calls are not modelled. Their answers are inputs, and stores and caches are maps. This leaves out serialisation, the cache's time-to-live and the broker binding.
- The producer's default queue differs from the consumer's, and a second listener competes on the consumer's queue. Both are broker configuration, so only the message map is modelled.
- TokenValidation.IssuerValidator: the issuer is taken as text, and only a missing one throws. `getIssuer()` reads the claim as a URL, and an `iss` that is not an absolute URL (say `foo/realms/app`) throws there and refuses the token, while the model accepts it by the suffix rule. The same holds for GatewaySecurity.GatewayIssuerValidator.
- TokenValidation.ServiceAdmits and GatewaySecurity.GatewayAdmits take one `authenticated` flag, which merges a request without a token with one whose token is rejected. The bearer-token filter answers 401 to a rejected token even on a permitted path (`/actuator/**`, and `/auth/**` at the gateway); the model admits such a request there.
- Token signatures, key fetching and the internals of the timestamp validator are not modelled. The timestamp and default validators' outcomes are inputs.
- Spring's path-matcher internals are not modelled. A `/x/**` pattern is taken to cover `/x` and every path under it.
- The `/auth` rewrite is a regular expression. A `/auth/` path whose rest holds a line break is not distinguished: the regular expression's `.` does not match one.
- `LocalDateTime`, `Duration`, `now()` and `parse` are library time. Timestamps are whole minutes, `now` is a parameter, and parsing is an `Option` input.
- Notification.TimeText: the minute count's decimal spelling stands in for `LocalDateTime.toString()`.
- `BigDecimal.valueOf(double)` on a numeric price is float conversion. A numeric price is taken as an exact decimal.
- Decimals.ParseDecimal: reads sign, digits and an optional fraction. Exponent notation is read as no price, where `new BigDecimal` would accept it. Only the ASCII digits `0`-`9` are read; `new BigDecimal` also takes any other Unicode decimal digit (through `Character.digit`), so a price such as `١٢` is no price here.
- Text.ParseLong: reads only the ASCII digits `0`-`9`. `Long.valueOf` also accepts any other Unicode decimal digit, so an id spelled in such digits is reported as not a number here.
- Decimals.DecimalText: spells decimals in plain notation. `BigDecimal.toString()` switches to exponent notation for very small magnitudes.
- Transactions and concurrency are not modelled. The check-then-save race between the availability check and the save is outside the sequential model, and the no-overlap invariant is proved for sequential calls only.
- Cache proxy mechanics beyond "clear all after a normal return" and "read through by id" are not modelled. Only present results are cached, and empty results are never cached.
- BookingController.ClaimText: a claim that is neither an object nor an array of strings (a string, number or boolean) is rendered as the empty text; its `toString()` is not modelled.
- BookingController.StringListAsWritten: the shared conversion service's converter is modelled for the claim shapes a token carries; the library's other converters are not.
- The converter's `"ROLE_" + r` on role objects that are not strings is not modelled; roles are strings.
- Spring's conversion of request parameters is not modelled. A `type` that names no resource kind is a 400 before the controller runs.
- The entity classes of bookings and resources are not part of this model. Creation and update timestamps are carried as absent. The resource kinds are the ones the client application offers.
- FileStorage.List: the listing is modelled as one level deep, MinIO's default, with folder entries named up to their slash. Paging, object metadata and the order of entries are not modelled.
- FileStorageService's `delete` and `ensureBucket` are left out: they are thin calls into the object store.
- The booking and resource records' constructors and setters are the datatypes' own constructors and field updates. Nothing further is stated about them.
- Logging, the gateway's filters, the registration proxy, the file controller, the CORS, cache and broker configuration, the data processor's security configuration, and the client application are left out.
- ResourceRepository.FindByTypeAndAvailableTrue: its own contract says only that results are stored resources, unchanged. ResourceRepository.TypeAndAvailableIsIntersection states the exact set.
- PricePort.GetResourcePrice: its own contract states only when a price can come back. The lemmas TextPriceIsParsed, NumberPriceIsTaken, NotFoundLooksLikeAnyFailure and UnsuccessfulOrEmptyRepliesGiveNoPrice state the cases.

## Findings

| source | as written | input that shows it | evidently intended | confidence | as-written member | corrected member |
|---|---|---|---|---|---|---|
| services/service-two/src/main/java/com/example/platform/servicetwo/web/BookingController.java:95-98 | `isAdmin` converts the `realm_access` claim with `getClaimAsStringList` and looks for "admin" in the result. That claim is an object holding `roles`, so the conversion yields the one string `{roles=[admin]}`, and the owner check in `GET /bookings/{id}` is never overridden. | a token with subject `other` and `realm_access` `{"roles": ["admin"]}`, reading a booking owned by `owner`: 403 | "admin" among `realm_access.roles`, as the catalogue's authority converter reads it | medium, not executed; it rests on the library's conversion of a non-list claim to a one-element list of its text | BookingController.IsAdminAsWritten, BookingController.GetBooking, BookingController.GetBookingAccess, BookingController.KeycloakAdminIsRefusedAsWritten | BookingController.IsAdmin, BookingController.GetBookingIntended, BookingController.GetBookingIntendedAccess, BookingController.AdminMatchesRealmAuthority |
