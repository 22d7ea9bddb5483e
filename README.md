# Room booking admission pipeline, in Dafny

This project models the admission pipeline of a room booking service and
proves properties of it. A client submits a request for a room and a time
interval. The service checks the request against a time policy and checks
that the room exists. It then stores the request as a `PENDING` booking and
puts it on an in-memory first-in first-out queue. A single worker takes
bookings off the queue one at a time and settles each one. A booking is
`REJECTED` when an `ACCEPTED` booking of the same room overlaps it, and
`ACCEPTED` otherwise. At start-up the queue is seeded with the bookings still
pending in the store, earliest request first.

The project has five modules, one file each:

- `validation.dfy`, module `Validation`: the time policy (`validateBookingTime`,
  `isWithinBusinessHours`, `isWeekday`), as pure functions.
- `booking.dfy`, module `BookingModel`: the mutable `Booking` entity. It is a
  class whose setters overwrite one field each. Its `equals` and `hashCode`
  look only at the id.
- `repository.dfy`, module `Repository`:
  - the bookings table, as a sequence of rows;
  - the two declared queries, as functions of that table;
  - a `BookingStore` class with the framework's `save`, `findById` and entity
    loading.
- `queue.dfy`, module `Queue`: the admission queue, as a class. It has ghost
  logs of what was added and what was consumed.
- `service.dfy`, module `Service`: the settlement decision, stated as functions
  of the table, and the `BookingService` class (submission, lookup,
  settlement, one worker step and start-up).

Conventions:

- **Instants** are whole minutes counted from midnight at the start of a
  Monday. The day of the week and the time of day are worked out
  arithmetically from that count.
- **Clock readings** are parameters. `now` is the clock reading validation
  compares against. `createdAt` is the instant the persistence layer stamps
  into `request_time`.
- **Nulls**: Java `null` is `Option.None`.
- **Rooms**: a room is its id. The rooms that exist form a fixed set of ids.

Behaviour of the code that one might not expect:

- **Zero-length request.** One might expect a request whose start equals its
  end to be refused. The code only refuses a start strictly after the end
  (`isAfter`), so `start == end` passes
  (`Validation.ZeroLengthIntervalPasses`). Such an empty interval still
  conflicts with an accepted booking that strictly contains its instant
  (`Repository.ZeroLengthCanConflict`).
- **End points equal to the clock reading pass.** `isBefore` is strict, so an
  end point equal to `now` passes.
- **Groupings in the business-hours rule.** In Java, `&&` binds tighter than
  `||`. So a request is refused when *both* ends fall on a weekend, or *both*
  ends fall outside business hours. Business hours are exclusive at 08:00 and
  18:00.
- **Wall-clock tests.** The service tests build their instants from a clock
  fixed at Monday 2024-11-25 09:00 (BookingServiceTest.java:40). Validation
  does not use that clock: it reads the real clock
  (BookingService.java:72). So whether such a request counts as in the past
  depends on the day the test runs, and some of them expect a refusal that
  the business-hours rule alone does not give. By the code, 07:00 to 09:00 on
  a weekday passes, because its end is within hours
  (`Validation.EarlyStartPasses`).

## Model

Source cells are paths relative to the repository root.

| member | source | states |
|---|---|---|
| Validation.TimeOfDay | booking_system/src/main/java/com/kmak/roombooking/booking/BookingService.java:90 | `toLocalTime()`: a minute of the day from 0 to 1439, and the instant is the start of its day plus that minute |
| Validation.IsWithinBusinessHours | booking_system/src/main/java/com/kmak/roombooking/booking/BookingService.java:87-92 | true exactly when the hour is 8 to 17 and the time is not 08:00 itself; 18:00 and later are outside |
| Validation.DayOfWeekOf | booking_system/src/main/java/com/kmak/roombooking/booking/BookingService.java:95 | `getDayOfWeek()`: the day's `getValue()` number, Monday 1 to Sunday 7, is one more than the day's position in its week |
| Validation.NextDayOfWeek | booking_system/src/main/java/com/kmak/roombooking/booking/BookingService.java:95 | consecutive days follow in week order, and the day after a Sunday is a Monday |
| Validation.IsWeekday | booking_system/src/main/java/com/kmak/roombooking/booking/BookingService.java:94-97 | true exactly for the first five days of each week, so false exactly on Saturday and Sunday |
| Validation.WeekdayIsWeekly | booking_system/src/main/java/com/kmak/roombooking/booking/BookingService.java:94-97 | the weekday test gives the same answer at instants whole weeks apart |
| Validation.ValidateBookingTime | booking_system/src/main/java/com/kmak/roombooking/booking/BookingService.java:67-85 | one iff per outcome: start after end fails first; then either end before `now`; then both ends off weekdays or both ends outside hours; it passes exactly when none of these holds, and never reports a missing room |
| Validation.Message | booking_system/src/main/java/com/kmak/roombooking/booking/BookingService.java:37-85 | the text each refusal carries: "Room not found" from the room lookup and the three messages of validation; `MessagesTellReasonsApart` states that they differ |
| Validation.MessagesTellReasonsApart | booking_system/src/main/java/com/kmak/roombooking/booking/BookingService.java:37-85 | the four refusal messages ("Room not found" and the three validation messages) are pairwise different, so each one names a single reason |
| Validation.ZeroLengthIntervalPasses | booking_system/src/main/java/com/kmak/roombooking/booking/BookingService.java:68-70 | a request with start equal to end, on a weekday within hours and not in the past, passes |
| Validation.StartAtNowPasses | booking_system/src/main/java/com/kmak/roombooking/booking/BookingService.java:74-76 | a request starting exactly at `now` is not refused as in the past |
| Validation.WeekendCrossingPasses | booking_system/src/main/java/com/kmak/roombooking/booking/BookingService.java:78-83 | any Saturday 17:00 to the following Monday 07:00, not in the past, passes, because only one end is on a weekday and only the other end is within hours |
| Validation.SaturdayRefused | booking_system/src/main/java/com/kmak/roombooking/booking/BookingService.java:78-83 | a request with both ends on a Saturday, start not after end and not in the past, is refused as outside business hours |
| Validation.EarlyStartPasses | booking_system/src/main/java/com/kmak/roombooking/booking/BookingService.java:78-83 | 07:00 to 09:00 on any Tuesday, not in the past, passes, because one end is within hours |
| Validation.AfterHoursRefused | booking_system/src/main/java/com/kmak/roombooking/booking/BookingService.java:78-83 | 18:01 to 19:00 on any Tuesday, not in the past, is refused, because both ends are after hours |
| BookingModel.ToInt32 | booking_system/src/main/java/com/kmak/roombooking/booking/model/Booking.java:97-100 | Java's narrowing to `int`: the result is in the 32-bit range, congruent to the input modulo 2^32, and equal to it when it already fits |
| BookingModel.LongHashCode | booking_system/src/main/java/com/kmak/roombooking/booking/model/Booking.java:97-100 | `Long.hashCode` is a 32-bit value |
| BookingModel.SmallLongHashCode | booking_system/src/main/java/com/kmak/roombooking/booking/model/Booking.java:97-100 | for ids from 0 to 2^31-1 the high word is zero, so `Long.hashCode` of the id is the id itself |
| BookingModel.Xor | booking_system/src/main/java/com/kmak/roombooking/booking/model/Booking.java:97-100 | the `^` of `Long.hashCode`, computed bit by bit on non-negative words; its bounds are stated by `XorBelow` and `XorWithZero` |
| BookingModel.XorBelow | booking_system/src/main/java/com/kmak/roombooking/booking/model/Booking.java:97-100 | the exclusive or of two numbers below 2^n is below 2^n |
| BookingModel.XorOfWords | booking_system/src/main/java/com/kmak/roombooking/booking/model/Booking.java:97-100 | the low and high 32-bit words of a `long` xor to a value below 2^32, before the cast to `int` |
| BookingModel.XorWithZero | booking_system/src/main/java/com/kmak/roombooking/booking/model/Booking.java:97-100 | exclusive or with zero leaves a number unchanged, so the high word of a small id adds nothing to its hash |
| BookingModel.IdHash | booking_system/src/main/java/com/kmak/roombooking/booking/model/Booking.java:97-100 | `Objects.hash(id)` is a 32-bit value: 31 for a null id and 31 + id for small ids |
| BookingModel.Booking.constructor | booking_system/src/main/java/com/kmak/roombooking/booking/model/Booking.java:16-39 | a new entity has every field null |
| BookingModel.Booking.Loaded | booking_system/src/main/java/com/kmak/roombooking/booking/model/Booking.java:18-39 | an entity as the persistence layer materialises it from a row: every field holds the given state |
| BookingModel.Booking.SetBookingId | booking_system/src/main/java/com/kmak/roombooking/booking/model/Booking.java:45-47 | only the id changes |
| BookingModel.Booking.SetRoom | booking_system/src/main/java/com/kmak/roombooking/booking/model/Booking.java:53-55 | only the room changes |
| BookingModel.Booking.SetStartTime | booking_system/src/main/java/com/kmak/roombooking/booking/model/Booking.java:61-63 | only the start time changes |
| BookingModel.Booking.SetEndTime | booking_system/src/main/java/com/kmak/roombooking/booking/model/Booking.java:69-71 | only the end time changes |
| BookingModel.Booking.SetRequestTime | booking_system/src/main/java/com/kmak/roombooking/booking/model/Booking.java:77-79 | only the request time changes |
| BookingModel.Booking.SetBookingStatus | booking_system/src/main/java/com/kmak/roombooking/booking/model/Booking.java:85-87 | only the status changes; id, room, times and request time stay |
| BookingModel.Booking.Equals | booking_system/src/main/java/com/kmak/roombooking/booking/model/Booking.java:89-95 | equal to a non-null booking exactly when the ids are equal, whatever the other fields hold; never equal to null |
| BookingModel.Booking.HashCode | booking_system/src/main/java/com/kmak/roombooking/booking/model/Booking.java:97-100 | the hash is a 32-bit value computed from the id alone |
| BookingModel.EqualsIsEquivalence | booking_system/src/main/java/com/kmak/roombooking/booking/model/Booking.java:89-95 | `equals` is reflexive, symmetric and transitive on non-null bookings |
| BookingModel.EqualBookingsHashAlike | booking_system/src/main/java/com/kmak/roombooking/booking/model/Booking.java:89-100 | equal bookings have equal hash codes |
| Repository.RowState | booking_system/src/main/java/com/kmak/roombooking/booking/model/Booking.java:18-39 | an entity built from a row has every non-null column set, and the row's id |
| Repository.Filter | booking_system/src/main/java/com/kmak/roombooking/booking/BookingRepository.java:15-22 | the `WHERE` clause of both queries: only rows satisfying the condition are kept, no more of them than stored |
| Repository.FilterCount | booking_system/src/main/java/com/kmak/roombooking/booking/BookingRepository.java:15-22 | each row satisfying the condition is kept as often as stored, and every other row is dropped |
| Repository.FilterMembership | booking_system/src/main/java/com/kmak/roombooking/booking/BookingRepository.java:15-22 | a row is in the filtered list exactly when it is stored and satisfies the condition |
| Repository.Overlap | booking_system/src/main/java/com/kmak/roombooking/booking/BookingRepository.java:19 | `:startTime < b.endTime AND :endTime > b.startTime`; two empty intervals never satisfy it |
| Repository.OverlapSharesMinute | booking_system/src/main/java/com/kmak/roombooking/booking/BookingRepository.java:19 | a shared minute always makes the predicate true, and for two non-empty intervals the predicate means they share a minute |
| Repository.Conflicts | booking_system/src/main/java/com/kmak/roombooking/booking/BookingRepository.java:18-19 | the row filter of the conflict query: only an accepted row of the requested room can conflict, and never a row the request only touches at an end point |
| Repository.ConflictingRows | booking_system/src/main/java/com/kmak/roombooking/booking/BookingRepository.java:18-19 | the rows counted are exactly the stored rows of the given room, with status `ACCEPTED`, whose interval satisfies `start < b.end && end > b.start` |
| Repository.ExistsConflictingBookings | booking_system/src/main/java/com/kmak/roombooking/booking/BookingRepository.java:18-22 | the conflict query is true exactly when some stored row is of the given room, `ACCEPTED`, and overlaps the interval |
| Repository.ExistsConflictingIff | booking_system/src/main/java/com/kmak/roombooking/booking/BookingRepository.java:18-22 | `existsConflictingBookings` is true exactly when some stored row conflicts |
| Repository.OverlapSymmetric | booking_system/src/main/java/com/kmak/roombooking/booking/BookingRepository.java:19 | the overlap test does not depend on which interval is the request |
| Repository.TouchingIntervalsDoNotOverlap | booking_system/src/main/java/com/kmak/roombooking/booking/BookingRepository.java:19 | intervals that only meet at an end point do not conflict |
| Repository.ZeroLengthCanConflict | booking_system/src/main/java/com/kmak/roombooking/booking/BookingRepository.java:19 | an empty request interval `[s, s)` conflicts with every interval that strictly contains `s` |
| Repository.IsPending | booking_system/src/main/java/com/kmak/roombooking/booking/BookingRepository.java:15 | the filter of the pending query: a row is pending exactly when it is neither accepted nor rejected |
| Repository.InsertByRequestTime | booking_system/src/main/java/com/kmak/roombooking/booking/BookingRepository.java:15-16 | inserting into a list sorted by request time keeps it sorted and adds exactly that row |
| Repository.SortByRequestTime | booking_system/src/main/java/com/kmak/roombooking/booking/BookingRepository.java:15-16 | the `ORDER BY requestTime` result is sorted ascending and is a permutation of its input |
| Repository.FindAllPendingBookings | booking_system/src/main/java/com/kmak/roombooking/booking/BookingRepository.java:15-16 | the pending query's result is in ascending request-time order |
| Repository.PendingQuery | booking_system/src/main/java/com/kmak/roombooking/booking/BookingRepository.java:15-16 | `findAllPendingBookings` is sorted by request time, holds every pending row as often as stored, and holds no other row |
| Repository.PendingIdsUnique | booking_system/src/main/java/com/kmak/roombooking/booking/BookingRepository.java:15-16 | when the table has unique ids, so does the pending query result |
| Repository.FindById | booking_system/src/main/java/com/kmak/roombooking/booking/BookingService.java:33-35 | `findById` finds a row exactly when the id is stored, and the row found has that id |
| Repository.FindByIdAt | booking_system/src/main/java/com/kmak/roombooking/booking/BookingService.java:33-35 | with unique ids, `findById` returns the row stored under that id |
| Repository.FindByIdAppend | booking_system/src/main/java/com/kmak/roombooking/booking/BookingService.java:48 | after a new row is appended, `findById` of a stored id finds what it found before, and the new id finds the new row |
| Repository.Updated | booking_system/src/main/java/com/kmak/roombooking/booking/model/Booking.java:33-35 | merging an entity rewrites only the row with its id, takes its room, times and status, and keeps every id and every request time (the column is not updatable) |
| Repository.AppendUnacceptedRow | booking_system/src/main/java/com/kmak/roombooking/booking/BookingService.java:43-48 | storing a new row that is not accepted adds its id and keeps accepted rows disjoint |
| Repository.BookingStore.constructor | booking_system/src/main/java/com/kmak/roombooking/booking/model/Booking.java:18-21 | the table starts empty, with identity ids generated from 1 and no save yet |
| Repository.BookingStore.Persist | booking_system/src/main/java/com/kmak/roombooking/booking/BookingService.java:48 | saving a new entity appends one row with the next id and the creation instant as request time, and writes both back into the entity |
| Repository.BookingStore.Merge | booking_system/src/main/java/com/kmak/roombooking/booking/BookingService.java:64 | saving a stored entity replaces the table by `Updated` of it and counts one save |
| Repository.BookingStore.FindEntity | booking_system/src/main/java/com/kmak/roombooking/booking/BookingService.java:33-35 | the lookup comes back empty exactly when the id is not stored, and otherwise returns a new entity holding that row |
| Repository.BookingStore.LoadPending | booking_system/src/main/java/com/kmak/roombooking/booking/BookingRepository.java:15-16 | the pending query as entities: one new entity per row of `FindAllPendingBookings`, in its order |
| Repository.Entities | booking_system/src/main/java/com/kmak/roombooking/booking/BookingRepository.java:15-16 | one new entity per row, holding that row, in order |
| Queue.BookingQueue.constructor | booking_system/src/main/java/com/kmak/roombooking/booking/BookingQueue.java:17-21 | the queue starts empty |
| Queue.BookingQueue.Init | booking_system/src/main/java/com/kmak/roombooking/booking/BookingQueue.java:23-26 | appends one new entity per pending row, in the query's order, after what was there; the log of additions grows by exactly those |
| Queue.BookingQueue.Add | booking_system/src/main/java/com/kmak/roombooking/booking/BookingQueue.java:28-31 | the booking goes at the tail; what was there stays in order |
| Queue.BookingQueue.Consume | booking_system/src/main/java/com/kmak/roombooking/booking/BookingQueue.java:33-35 | on a non-empty queue it returns the head and leaves the rest in order |
| Queue.ConsumedArePrefixOfAdded | booking_system/src/main/java/com/kmak/roombooking/booking/BookingQueue.java:17-35 | first in, first out: the bookings taken out are the first ones put in, in the same order |
| Service.HasConflict | booking_system/src/main/java/com/kmak/roombooking/booking/BookingService.java:59 | the conflict query on the entity's own room, start and end: true exactly when some stored row conflicts with them |
| Service.Settled | booking_system/src/main/java/com/kmak/roombooking/booking/BookingService.java:55-63 | a booking that is not pending is unchanged; a pending one becomes `REJECTED` exactly when the conflict query is true and `ACCEPTED` exactly when it is false, with every other field kept |
| Service.SettleRows | booking_system/src/main/java/com/kmak/roombooking/booking/BookingService.java:56-64 | the table after a settlement has as many rows and the same ids as before, and is unchanged when the booking is not pending |
| Service.SettleRowsFrame | booking_system/src/main/java/com/kmak/roombooking/booking/BookingService.java:55-64 | settling touches only the row with the booking's id, and keeps every id and request time |
| Service.SettleRowsAt | booking_system/src/main/java/com/kmak/roombooking/booking/BookingService.java:59-64 | the stored row of a settled pending booking holds its room and times, and the status the conflict query decided |
| Service.SettlePreservesDisjoint | booking_system/src/main/java/com/kmak/roombooking/booking/BookingService.java:55-65 | settling one booking keeps the ids unique and the `ACCEPTED` bookings of every room pairwise non-overlapping |
| Service.NewlyAcceptedClashesWithNothing | booking_system/src/main/java/com/kmak/roombooking/booking/BookingService.java:59-62 | a booking just accepted overlaps no other accepted booking of its room |
| Service.SettleKeepsDecided | booking_system/src/main/java/com/kmak/roombooking/booking/BookingService.java:55-65 | settling a booking whose row is still pending leaves every accepted and every rejected row as it was, so no decision is ever reversed |
| Service.DecidedKeptEach | booking_system/src/main/java/com/kmak/roombooking/booking/BookingService.java:55-65 | `DecidedKept` of two tables means: equal length, and every row that was accepted or rejected before is unchanged after |
| Service.NewRowAwaiting | booking_system/src/main/java/com/kmak/roombooking/booking/BookingService.java:43-50 | a freshly stored pending row under a new id is found by `findById` and awaits settlement |
| Service.EnqueueNewRow | booking_system/src/main/java/com/kmak/roombooking/booking/BookingService.java:43-50 | appending a new pending row and queueing its entity keeps every queued entity awaiting its own pending row, and keeps queued ids distinct |
| Service.SettleUnqueued | booking_system/src/main/java/com/kmak/roombooking/booking/BookingService.java:55-65 | settling a booking leaves every other queued booking, with another id, awaiting its still-pending row |
| Service.DequeueAndSettle | booking_system/src/main/java/com/kmak/roombooking/booking/BookingService.java:55-65 | the head of a valid queue awaits its row and appears nowhere in the rest; after it is settled the rest still await their pending rows with distinct ids, and no decided row has changed |
| Service.PendingRowsAwaiting | booking_system/src/main/java/com/kmak/roombooking/booking/BookingQueue.java:23-26 | every entity loaded from the pending query is pending and finds its own row, still pending, under its id |
| Service.SettleAll | booking_system/src/main/java/com/kmak/roombooking/booking/BookingService.java:55-65 | settling a queue of bookings one at a time keeps the number of rows and each row's id |
| Service.SettleAllPreservesDisjoint | booking_system/src/main/java/com/kmak/roombooking/booking/BookingService.java:55-65 | however many bookings are settled in turn, accepted bookings of each room stay pairwise non-overlapping |
| Service.SettleAllStep | booking_system/src/main/java/com/kmak/roombooking/booking/BookingService.java:55-65 | settling one more queued booking is one more settlement step on the table the earlier ones left |
| Service.SettleAllStable | booking_system/src/main/java/com/kmak/roombooking/booking/BookingService.java:55-65 | settling other bookings leaves a row alone |
| Service.SettledAtTurn | booking_system/src/main/java/com/kmak/roombooking/booking/BookingService.java:55-65 | a queued pending booking is decided at its own turn, against the table as the bookings ahead of it left it, and no later turn changes it |
| Service.FirstSubmittedWins | booking_system/src/main/java/com/kmak/roombooking/booking/BookingService.java:55-65 | of two overlapping pending requests for one room, both end up settled; the earlier is accepted exactly when nothing accepted blocked it; and if it is accepted, the later one is rejected |
| Service.AcceptedRowBlocks | booking_system/src/main/java/com/kmak/roombooking/booking/BookingRepository.java:18-19 | an accepted row of the same room with an overlapping interval makes the conflict query true |
| Service.SettleMirroredRow | booking_system/src/main/java/com/kmak/roombooking/booking/BookingService.java:55-65 | settling a booking loaded from its own pending row changes that row's status and nothing else |
| Service.NothingAcceptedNoConflict | booking_system/src/main/java/com/kmak/roombooking/booking/BookingRepository.java:18-19 | a table with no accepted row blocks no request |
| Repository.Mirror | booking_system/src/main/java/com/kmak/roombooking/booking/BookingQueue.java:23-26 | the entities loaded for a list of rows, one per row, each with its id |
| Service.ScenarioQueue | booking_system/src/main/java/com/kmak/roombooking/booking/BookingQueue.java:23-26 | the three example requests are pending, with distinct ids matching their rows |
| Service.ScenarioFirstAccepted | booking_system/src/main/java/com/kmak/roombooking/booking/BookingService.java:55-65 | the first of three example requests, 09:00 to 10:00, is accepted |
| Service.ScenarioSecondRejected | booking_system/src/main/java/com/kmak/roombooking/booking/BookingService.java:55-65 | the second, 09:30 to 10:30, overlaps the first and is rejected |
| Service.ScenarioThirdUnblocked | booking_system/src/main/java/com/kmak/roombooking/booking/BookingRepository.java:18-19 | at the third request's turn, 10:00 to 11:00, nothing accepted conflicts with it |
| Service.ScenarioThirdAccepted | booking_system/src/main/java/com/kmak/roombooking/booking/BookingService.java:55-65 | the third request, which only touches the first at 10:00, is accepted |
| Service.OverlapThenTouchScenario | booking_system/src/main/java/com/kmak/roombooking/booking/BookingService.java:55-65 | in queue order the three requests end accepted, rejected, accepted |
| Service.BookingService.Consistent | booking_system/src/main/java/com/kmak/roombooking/booking/BookingService.java:26-31 | the store has unique ids below the next id, the queue logs agree with its items, and accepted bookings of each room are pairwise non-overlapping |
| Service.BookingService.Valid | booking_system/src/main/java/com/kmak/roombooking/booking/BookingService.java:26-65 | `Consistent`, and every queued entity is pending and identified, its stored row is still pending, and no id is queued twice |
| Service.BookingService.constructor | booking_system/src/main/java/com/kmak/roombooking/booking/BookingService.java:26-31 | the service is built over a given queue, store and set of rooms, with its invariant holding |
| Service.BookingService.GetBooking | booking_system/src/main/java/com/kmak/roombooking/booking/BookingService.java:33-35 | the result is empty exactly when the id is not stored, and otherwise holds that row |
| Service.BookingService.CreateNewBooking | booking_system/src/main/java/com/kmak/roombooking/booking/BookingService.java:37-52 | a validation failure is returned with its reason, and the store and queue are untouched; an unknown room gives "Room not found", nothing is saved and nothing enqueued; otherwise one pending row is stored, its entity is enqueued and its id returned |
| Service.BookingService.Admit | booking_system/src/main/java/com/kmak/roombooking/booking/BookingService.java:43-51 | a pending row with the next id is stored once, its entity is appended to the queue, and the service invariant is kept |
| Service.BookingService.SaveNewBooking | booking_system/src/main/java/com/kmak/roombooking/booking/BookingService.java:39-49 | one pending row with the next id and the creation instant is stored, saved once, and written back into a new entity that, queued after the others, keeps every queued entity awaiting its own pending row with no id twice |
| Service.NewRequest | booking_system/src/main/java/com/kmak/roombooking/booking/BookingService.java:43-47 | the new entity is pending, has the given room and times, and has no id or request time yet |
| Service.BookingService.SettlePendingBooking | booking_system/src/main/java/com/kmak/roombooking/booking/BookingService.java:55-65 | the booking becomes `Settled` of it; the table becomes `SettleRows`; it is saved once if it was pending and not at all otherwise; the next id is kept; disjointness of accepted bookings is kept; a booking not on the queue leaves the queued entities as they were |
| Service.BookingService.ProcessNext | booking_system/src/main/java/com/kmak/roombooking/booking/BookingService.java:55-65 | one worker turn: the head of the queue is removed and logged as consumed, settled as above, saved once iff pending, the service invariant is kept, and every row already accepted or rejected is unchanged |
| Service.StartUp | booking_system/src/main/java/com/kmak/roombooking/booking/BookingQueue.java:23-26 | at start-up the queue holds one entity per pending row, in the query's order, and the service invariant holds |
| Service.QueueIsSettleable | booking_system/src/main/java/com/kmak/roombooking/booking/BookingQueue.java:17-35 | a valid service queue is identified, has distinct ids and holds only pending entities, so `FirstSubmittedWins` applies to it |

## Left out

- The wall clock. `LocalDateTime.now()` in validation and the framework's
  creation timestamp are the parameters `now` and `createdAt`.
- Time below a minute, time zones and calendar dates. Seconds and nanoseconds
  are not modelled; business hours are compared to the minute.
- The worker thread, the blocking `take` and its interruption. `Consume` and
  `ProcessNext` require a non-empty queue. Only one worker turn is modelled,
  not the endless loop.
- Transactions and their rollback. A failure inside the transaction leaves the
  store unchanged because the model checks the room before writing.
- Logging, the REST controller, the HTTP client, and the room and request
  types. A room is its id, and the existing rooms are a fixed set.
- Repository.BookingStore.Merge: requires the entity's id to be stored. The
  framework's merge of an unknown id is never reached from the core.
- Repository.SortByRequestTime: the database's order among equal request
  times is unspecified. The model uses a stable sort, which is one admissible
  order.
- Ids are unbounded integers. The range of Java `long` is not modelled, except
  in the hash code, where the 64-bit pattern is reduced explicitly.
- Null arguments to the setters, and `equals` with an object of another
  class. Neither arises in the core.
- Service.BookingService.CreateNewBooking: null arguments are not modelled,
  because the parameters are plain integers. In the source a null start or
  end throws a `NullPointerException` in validation, and a null room id makes
  the room lookup fail inside the transaction. In both cases nothing is
  stored and nothing is enqueued.
- Queue.BookingQueue.Add: the queue's capacity is not modelled. The source's
  `LinkedBlockingQueue` holds at most `Integer.MAX_VALUE` entries, and `add`
  or `addAll` throws `IllegalStateException` when it is full. The model's
  queue is unbounded.
- Service.SettleAll and the lemmas about it work on snapshots of the queued
  entities. They do not capture two queued objects that alias one row.
