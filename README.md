# Urban services booking: a Dafny model of the scheduling engine

This project models the back end of a marketplace where customers book home
services from independent professionals.

The centre of the model is the booking scheduling engine of
`BookingServiceImpl`:
- the conflict check that decides whether a professional is free for a window;
- the enumeration of free 30-minute-grid slots in a 09:00 to 17:00 working day;
- the booking lifecycle: create, reschedule, cancel and complete;
- the price of a booking: base price, matched add-ons and the whole-hour multiplier;
- the selection of tomorrow's bookings for the daily reminder.

The bookings table is an in-memory sequence. The JPQL queries of
`BookingRepository` are filters over it. Every state-changing method of the
service keeps one invariant: ids are distinct and no two bookings of one
professional meet.

Around the engine the project models smaller rules of the same system:
- the in-memory helpers of the `Booking`, `BookingAddon` and `Review` entities;
- a professional's availability window;
- the two address formatters;
- the customer mapper's name split and join;
- the customer service's account rules;
- the user service's account rules: unique email and phone, single-use tokens, soft delete;
- the professional service's flag and service-set edits;
- the review service's one-review-per-completed-booking guard.

Representation:
- Timestamps are integer minutes; the calendar day of `t` is `t / 1440`.
- Money is integer cents.
- A Java reference that may be null is an `Option`.
- A thrown exception is the `Err` of a `Result`; a `void` operation returns an `Outcome`.
- The clock, the password encoder and the token generator are parameters.

Each service is a class. Its fields are the tables it writes. A method that
reads and writes the stored objects is proved against a transition function
(`CreateOutcome`, `RescheduleOutcome`, …) on the old table. The properties
the source promises are then lemmas about those functions.

Five behaviours of the engine's code that are easy to misread, modelled as written:
- **Closed conflict test.** The conflict query uses `bookingDate <= end AND endDate >= start`, so two windows that only touch conflict.
- **No status filter.** The conflict query has no status condition, so CANCELLED and COMPLETED bookings still block their window.
- **90 minutes costs one hour.** `Duration.toHours()` truncates, so 90 minutes gives a multiplier of 1, and the multiplier first applies at two hours.
- **Reminders cover a calendar day.** The sweep selects bookings starting on the calendar day after `now`, not those in the 24 hours after `now`.
- **Strict close.** The slot loop stops when a slot would not end strictly before 17:00.

## Model

Source paths are relative to the repository root.

| member | source | states |
|---|---|---|
| BookingModel.Day | backend/src/main/java/com/urbanservices/booking/service/impl/BookingServiceImpl.java:260-261 | definition: the calendar day of a timestamp, by floor division of its minutes; its properties are DayStart and SameDayWindow |
| BookingModel.DayStart | backend/src/main/java/com/urbanservices/booking/service/impl/BookingServiceImpl.java:260 | `t.with(LocalTime.MIN)`: midnight of t's own day, at most t and less than a day before it |
| BookingModel.DayEnd | backend/src/main/java/com/urbanservices/booking/service/impl/BookingServiceImpl.java:261 | `t.with(LocalTime.MAX)` at minute resolution: the result falls on t's calendar day and the next minute falls on the following day, so it is that day's last minute |
| BookingModel.SameDayWindow | backend/src/main/java/com/urbanservices/booking/service/impl/BookingServiceImpl.java:260-263 | a time lies in [LocalTime.MIN, LocalTime.MAX] of a day exactly when it falls on that calendar day |
| BookingModel.NewBookingAddonDto | backend/src/main/java/com/urbanservices/booking/dto/BookingAddonDto.java:16 | a fresh add-on DTO has quantity 1 and every other field null |
| BookingModel.TotalPrice | backend/src/main/java/com/urbanservices/booking/dto/BookingAddonDto.java:22-27 | definition: price times quantity, zero when either is null; its properties are TotalPriceCases, FreshAddonDtoCostsItsPrice and TotalPriceAdditive |
| BookingModel.TotalPriceCases | backend/src/main/java/com/urbanservices/booking/dto/BookingAddonDto.java:22-27 | documentation, unfolding TotalPrice: a null price or a null quantity gives 0; otherwise the line costs price × quantity |
| BookingModel.FreshAddonDtoCostsItsPrice | backend/src/main/java/com/urbanservices/booking/dto/BookingAddonDto.java:16-26 | a fresh DTO whose price is set costs exactly that price |
| BookingModel.TotalPriceAdditive | backend/src/main/java/com/urbanservices/booking/dto/BookingAddonDto.java:26 | the line total is additive in the quantity |
| BookingModel.BookingDto.constructor | backend/src/main/java/com/urbanservices/booking/dto/BookingDto.java:16-47 | a request DTO holds the given parties, address, start and add-ons, with end date, status, total and cancellation reason still null |
| BookingModel.BookingDto.CalculateEndDate | backend/src/main/java/com/urbanservices/booking/dto/BookingDto.java:61-65 | with a date and a positive duration the end is date + duration; otherwise the end is unchanged; only endDate is written |
| BookingRepository.Filter | backend/src/main/java/com/urbanservices/booking/repository/BookingRepository.java:18-24 | a query returns exactly the stored rows that satisfy its predicate, never more rows than the table |
| BookingRepository.FindById | backend/src/main/java/com/urbanservices/booking/service/impl/BookingServiceImpl.java:169-170 | findById finds the first row with the id, or reports that no row has it |
| BookingRepository.FindByCustomerId | backend/src/main/java/com/urbanservices/booking/repository/BookingRepository.java:18 | definition: the rows of the customer, in table order; Filter's contract states that exactly those rows are kept |
| BookingRepository.FindByProfessionalId | backend/src/main/java/com/urbanservices/booking/repository/BookingRepository.java:20 | definition: the rows of the professional, in table order; Filter's contract states that exactly those rows are kept |
| BookingRepository.FindByServiceId | backend/src/main/java/com/urbanservices/booking/repository/BookingRepository.java:22 | definition: the rows of the service, in table order; Filter's contract states that exactly those rows are kept |
| BookingRepository.FindByStatus | backend/src/main/java/com/urbanservices/booking/repository/BookingRepository.java:24 | definition: the rows with the status, in table order; Filter's contract states that exactly those rows are kept |
| BookingRepository.FindCustomerBookingsBetweenDates | backend/src/main/java/com/urbanservices/booking/repository/BookingRepository.java:26-30 | definition: the customer's rows starting in the half-open window; its property is BetweenDatesHalfOpenBetweenClosed |
| BookingRepository.FindProfessionalBookingsBetweenDates | backend/src/main/java/com/urbanservices/booking/repository/BookingRepository.java:32-36 | definition: the professional's rows starting in the half-open window; its property is BetweenDatesHalfOpenBetweenClosed |
| BookingRepository.FindConflictingBookings | backend/src/main/java/com/urbanservices/booking/repository/BookingRepository.java:38-43 | definition: the professional's rows with bookingDate <= end and endDate >= start, any status; its properties are ConflictIsClosed, QueriesIncludeCancelled and SlotFinder.SlotAvailableIff |
| BookingRepository.FindCompletedBookingsByProfessional | backend/src/main/java/com/urbanservices/booking/repository/BookingRepository.java:45-48 | definition: the professional's COMPLETED rows; its property is CountCompletedMatchesFilter |
| BookingRepository.FindCustomerUpcomingBookings | backend/src/main/java/com/urbanservices/booking/repository/BookingRepository.java:50-54 | definition: the customer's rows from `now` on, sorted by start; its properties are UpcomingAndPastPartitionCustomer and UpcomingOrderedAscending |
| BookingRepository.FindProfessionalUpcomingBookings | backend/src/main/java/com/urbanservices/booking/repository/BookingRepository.java:56-60 | definition: the professional's rows from `now` on, sorted by start; its properties are UpcomingAndPastPartitionProfessional and UpcomingOrderedAscending |
| BookingRepository.FindCustomerPastBookings | backend/src/main/java/com/urbanservices/booking/repository/BookingRepository.java:62-66 | definition: the customer's rows starting before `now`; its property is UpcomingAndPastPartitionCustomer |
| BookingRepository.FindProfessionalPastBookings | backend/src/main/java/com/urbanservices/booking/repository/BookingRepository.java:68-72 | definition: the professional's rows starting before `now`; its property is UpcomingAndPastPartitionProfessional |
| BookingRepository.FindByProfessionalIdAndBookingDateBetween | backend/src/main/java/com/urbanservices/booking/repository/BookingRepository.java:74-78 | definition: the professional's rows starting in the closed window; its properties are BetweenDatesHalfOpenBetweenClosed and SlotFinder.DayOverlapIff |
| BookingRepository.FindByBookingDateBetween | backend/src/main/java/com/urbanservices/booking/repository/BookingRepository.java:80-83 | definition: all rows starting in the closed window; its properties are BetweenDatesHalfOpenBetweenClosed and Scheduling.TomorrowBookingsAreNextDay |
| BookingRepository.CountCompletedBookingsByProfessional | backend/src/main/java/com/urbanservices/booking/repository/BookingRepository.java:85-86 | definition: the COMPLETED rows of the professional counted one by one; its property is CountCompletedMatchesFilter |
| BookingRepository.FindCompletedBookingsByCustomer | backend/src/main/java/com/urbanservices/booking/repository/BookingRepository.java:88-91 | definition: the customer's COMPLETED rows; Filter's contract states that exactly those rows are kept |
| BookingRepository.FindUpcomingBookingsByProfessional | backend/src/main/java/com/urbanservices/booking/repository/BookingRepository.java:93-96 | definition: the professional's rows from the start date on, sorted by start; its property is UpcomingOrderedAscending |
| BookingRepository.SortedByDate | backend/src/main/java/com/urbanservices/booking/repository/BookingRepository.java:50 | definition of `ORDER BY b.bookingDate ASC`: no row starts later than a row after it; SortByDate and InsertByDateSorted establish it |
| BookingRepository.InsertByDate | backend/src/main/java/com/urbanservices/booking/repository/BookingRepository.java:50 | one insertion step of the sort adds exactly the inserted row to the multiset of rows; InsertByDateSorted shows it keeps the order |
| BookingRepository.SortByDate | backend/src/main/java/com/urbanservices/booking/repository/BookingRepository.java:50-93 | ORDER BY bookingDate ASC: the rows sorted by start, and a permutation of the input |
| BookingRepository.InsertByDateSorted | backend/src/main/java/com/urbanservices/booking/repository/BookingRepository.java:50 | inserting a row into a sorted result keeps it sorted |
| BookingRepository.FilterPartition | backend/src/main/java/com/urbanservices/booking/repository/BookingRepository.java:50-72 | a filter split by a second condition and its negation splits the rows, as multisets |
| BookingRepository.UpcomingAndPastPartitionCustomer | backend/src/main/java/com/urbanservices/booking/repository/BookingRepository.java:50-66 | a customer's upcoming (start ≥ now) and past (start < now) bookings are disjoint and together are all the customer's bookings |
| BookingRepository.UpcomingAndPastPartitionProfessional | backend/src/main/java/com/urbanservices/booking/repository/BookingRepository.java:56-72 | the same partition for a professional's bookings |
| BookingRepository.UpcomingOrderedAscending | backend/src/main/java/com/urbanservices/booking/repository/BookingRepository.java:50-96 | the three upcoming queries return rows in ascending start order, and exactly the matching rows |
| BookingRepository.CountCompletedMatchesFilter | backend/src/main/java/com/urbanservices/booking/repository/BookingRepository.java:45-86 | the COUNT query equals the size of the professional's COMPLETED filter |
| BookingRepository.ConflictIsClosed | backend/src/main/java/com/urbanservices/booking/repository/BookingRepository.java:38-43 | a booking that only touches the window at an endpoint is reported as conflicting |
| BookingRepository.QueriesIncludeCancelled | backend/src/main/java/com/urbanservices/booking/repository/BookingRepository.java:38-83 | the conflict and date-range queries return a booking whatever its status, CANCELLED included |
| BookingRepository.BetweenDatesHalfOpenBetweenClosed | backend/src/main/java/com/urbanservices/booking/repository/BookingRepository.java:26-83 | a booking starting exactly at the end bound is left out by the *BetweenDates queries and returned by the *Between queries |
| SlotFinder.SlotAvailable | backend/src/main/java/com/urbanservices/booking/service/impl/BookingServiceImpl.java:238-249 | definition: no conflicting booking is left once the excluded id is removed; its property is SlotAvailableIff |
| SlotFinder.SlotAvailableIff | backend/src/main/java/com/urbanservices/booking/service/impl/BookingServiceImpl.java:240-248 | a window is available exactly when every booking of the professional that meets it under the closed test is the excluded one |
| SlotFinder.IsTimeSlotOverlap | backend/src/main/java/com/urbanservices/booking/service/impl/BookingServiceImpl.java:318-321 | definition: start1 < end2 and start2 < end1, strict at both ends; its properties are DayOverlapIff, BookableCandidateIsOffered and OfferedSlotCanBeUnavailable |
| SlotFinder.SlotsFrom | backend/src/main/java/com/urbanservices/booking/service/impl/BookingServiceImpl.java:266-288 | definition: the slots the `while` loop emits from a start on; its properties are SlotsFromMembership and SlotsFromAscending |
| SlotFinder.AvailableSlots | backend/src/main/java/com/urbanservices/booking/service/impl/BookingServiceImpl.java:251-291 | definition: the loop run over the professional's bookings of the day from 09:00 to 17:00; its properties are AvailableSlotsIff, AvailableSlotsAscending, LongDurationHasNoSlots and FreeDayOneHourSlots |
| SlotFinder.SlotsFromMembership | backend/src/main/java/com/urbanservices/booking/service/impl/BookingServiceImpl.java:266-288 | the loop emits t exactly when t is on the 30-minute grid from its start, t + duration is before close, and no booking strictly overlaps |
| SlotFinder.SlotsFromAscending | backend/src/main/java/com/urbanservices/booking/service/impl/BookingServiceImpl.java:266-288 | the loop emits strictly ascending starts, none before its first |
| SlotFinder.DayOverlapIff | backend/src/main/java/com/urbanservices/booking/service/impl/BookingServiceImpl.java:260-279 | a slot strictly overlaps the day's bookings exactly when it strictly overlaps a booking of the professional that starts on that day |
| SlotFinder.AvailableSlotsIff | backend/src/main/java/com/urbanservices/booking/service/impl/BookingServiceImpl.java:256-321 | a start is offered iff it is 09:00 + 30k on that day, its slot ends strictly before 17:00, and it strictly overlaps no booking starting that day |
| SlotFinder.AvailableSlotsAscending | backend/src/main/java/com/urbanservices/booking/service/impl/BookingServiceImpl.java:266-290 | the offered starts are strictly ascending, from 09:00 on, each ending before 17:00 |
| SlotFinder.LongDurationHasNoSlots | backend/src/main/java/com/urbanservices/booking/service/impl/BookingServiceImpl.java:270 | a duration of 480 minutes or more yields no slot |
| SlotFinder.FreeDayOneHourSlots | backend/src/main/java/com/urbanservices/booking/service/impl/BookingServiceImpl.java:266-288 | example beside AvailableSlotsIff: a free day offers fourteen one-hour slots |
| SlotFinder.BookableCandidateIsOffered | backend/src/main/java/com/urbanservices/booking/service/impl/BookingServiceImpl.java:240-290 | a grid candidate that the conflict check accepts is offered by the slot finder |
| SlotFinder.OfferedSlotCanBeUnavailable | backend/src/main/java/com/urbanservices/booking/service/impl/BookingServiceImpl.java:318-321 | the converse fails: a slot right after a booking is offered, and the conflict check then refuses it |
| Pricing.AnyMatch | backend/src/main/java/com/urbanservices/booking/service/impl/BookingServiceImpl.java:379-380 | anyMatch on `getId()`: true only if some selection carries the id; false only if every selected id is non-null and differs from it; a null id it reaches is a NullPointerException; with no null ids the result is exactly whether some selection has the id |
| Pricing.MatchedAddons | backend/src/main/java/com/urbanservices/booking/service/impl/BookingServiceImpl.java:378-381 | a NullPointerException exactly when some catalog add-on's match test fails; otherwise at most the catalog's length, and an add-on is kept exactly when it is in the catalog and matched (in catalog order: see MatchedAddonsAppend) |
| Pricing.TruncDiv | backend/src/main/java/com/urbanservices/booking/service/impl/BookingServiceImpl.java:390 | Java's long division truncates toward zero, for both signs |
| Pricing.HourMultiplier | backend/src/main/java/com/urbanservices/booking/service/impl/BookingServiceImpl.java:389-395 | examples beside MultiplierCases: 90 and 119 minutes charge ×1, 120 and 150 charge ×2, 180 charges ×3, and a negative span charges ×1 |
| Pricing.MultiplierCases | backend/src/main/java/com/urbanservices/booking/service/impl/BookingServiceImpl.java:389-395 | without both dates there is no multiplier; with both, the whole-hour count multiplies exactly when the span is at least two hours |
| Pricing.NinetyMinuteExample | backend/src/main/java/com/urbanservices/booking/service/impl/BookingServiceImpl.java:374-397 | example: 50.00 base plus one selected 10.00 add-on for 90 minutes totals 60.00 |
| Pricing.AnyMatchReadsOnlyIds | backend/src/main/java/com/urbanservices/booking/service/impl/BookingServiceImpl.java:380 | matching depends only on the selection's BaseDto ids |
| Pricing.MatchedAddonsReadsOnlyIds | backend/src/main/java/com/urbanservices/booking/service/impl/BookingServiceImpl.java:378-381 | the matched add-ons depend only on the selection's ids |
| Pricing.TotalIgnoresQuantityAndAddonId | backend/src/main/java/com/urbanservices/booking/service/impl/BookingServiceImpl.java:377-386 | the total ignores each selection's quantity, addonId, name and price |
| Pricing.SelectionByAddonIdFails | backend/src/main/java/com/urbanservices/booking/service/impl/BookingServiceImpl.java:380 | a selection that names its add-ons only by addonId fails with a NullPointerException when the catalog has add-ons |
| Pricing.AnyMatchAppend | backend/src/main/java/com/urbanservices/booking/service/impl/BookingServiceImpl.java:380 | anyMatch over a concatenation: the first part decides unless it finds nothing |
| Pricing.DuplicateSelectionChargedOnce | backend/src/main/java/com/urbanservices/booking/service/impl/BookingServiceImpl.java:378-385 | selecting the same add-ons twice charges them once |
| Pricing.MatchedAddonsSameMatches | backend/src/main/java/com/urbanservices/booking/service/impl/BookingServiceImpl.java:378-381 | selections that answer every anyMatch alike match the same add-ons |
| Pricing.MatchedAddonsAppend | backend/src/main/java/com/urbanservices/booking/service/impl/BookingServiceImpl.java:378-381 | the filter of a concatenated catalog is the concatenation of the filters and fails when either part fails; with MatchedAddons' one-add-on case this makes the result the matched catalog add-ons in catalog order |
| Pricing.SumPrices | backend/src/main/java/com/urbanservices/booking/service/impl/BookingServiceImpl.java:383-385 | definition: the sum of the prices the `for` loop adds; its properties are SumPricesNonNegative and Scheduling.BookingService.AddPrices |
| Pricing.WholeHours | backend/src/main/java/com/urbanservices/booking/service/impl/BookingServiceImpl.java:390 | definition: `Duration.between(start, end).toHours()` as TruncDiv of the minutes by 60; its properties are HourMultiplier and MultiplierCases |
| Pricing.BookingTotal | backend/src/main/java/com/urbanservices/booking/service/impl/BookingServiceImpl.java:374-397 | definition: base price, plus the matched add-ons when the selection is non-empty, times the whole hours when they exceed one; its properties are HourMultiplier, MultiplierCases, NinetyMinuteExample, TotalIgnoresQuantityAndAddonId, DuplicateSelectionChargedOnce and TotalNonNegative |
| Pricing.SumPricesNonNegative | backend/src/main/java/com/urbanservices/booking/service/impl/BookingServiceImpl.java:383-385 | a sum of non-negative prices is non-negative |
| Pricing.TotalNonNegative | backend/src/main/java/com/urbanservices/booking/service/impl/BookingServiceImpl.java:374-397 | with non-negative catalog prices the total is never negative |
| Lifecycle.FindByIdAfterUpdate | backend/src/main/java/com/urbanservices/booking/service/impl/BookingServiceImpl.java:169-203 | overwriting the found row with one of the same id leaves findById where it was |
| Lifecycle.CreateDuration | backend/src/main/java/com/urbanservices/booking/service/impl/BookingServiceImpl.java:133 | definition: the service's duration, or 60 when it is null; its property is CreateSavesPendingBooking |
| Lifecycle.CreateOutcome | backend/src/main/java/com/urbanservices/booking/service/impl/BookingServiceImpl.java:120-162 | definition: the booking createBooking saves, or the exception of the first failing check; its properties are CreateSavesPendingBooking, CreateCheckOrder, CreatePreservesNoOverlap and SameSlotTwiceConflicts |
| Lifecycle.CreateSavesPendingBooking | backend/src/main/java/com/urbanservices/booking/service/impl/BookingServiceImpl.java:124-156 | a saved booking is PENDING, ends start + duration (60 if null), costs calculateBookingTotal and meets no booking of its professional |
| Lifecycle.CreateCheckOrder | backend/src/main/java/com/urbanservices/booking/service/impl/BookingServiceImpl.java:124-139 | documentation, unfolding CreateOutcome: unknown professional, then unknown service, fail NotFound; an unavailable window fails Conflict |
| Lifecycle.AppendAvailablePreservesNoOverlap | backend/src/main/java/com/urbanservices/booking/service/impl/BookingServiceImpl.java:137-156 | appending an available booking under a new id keeps ids distinct and bookings apart |
| Lifecycle.CreatePreservesNoOverlap | backend/src/main/java/com/urbanservices/booking/service/impl/BookingServiceImpl.java:120-162 | createBooking keeps the no-overlap invariant |
| Lifecycle.SameSlotTwiceConflicts | backend/src/main/java/com/urbanservices/booking/service/impl/BookingServiceImpl.java:137-139 | a second request for the same professional and start is refused with Conflict, whoever asks |
| Lifecycle.ServiceDuration | backend/src/main/java/com/urbanservices/booking/service/impl/BookingServiceImpl.java:178 | definition: the service's duration, None (a NullPointerException when unboxed) for a null duration or a missing service; RescheduleOutcomeWhenAvailable and RescheduleMovesOnlyThatBooking use it |
| Lifecycle.RescheduleOutcome | backend/src/main/java/com/urbanservices/booking/service/impl/BookingServiceImpl.java:164-197 | definition: the table after rescheduleBooking, or its exception; its properties are RescheduleOutcomeWhenAvailable, RescheduleMovesOnlyThatBooking, RescheduleOnlyOnce and ReschedulePreservesNoOverlap |
| Lifecycle.RescheduleOutcomeWhenAvailable | backend/src/main/java/com/urbanservices/booking/service/impl/BookingServiceImpl.java:169-191 | when lookup, status, duration and the conflict check pass, the found booking is moved and marked RESCHEDULED |
| Lifecycle.RescheduleMovesOnlyThatBooking | backend/src/main/java/com/urbanservices/booking/service/impl/BookingServiceImpl.java:173-191 | success needs PENDING or CONFIRMED; the window becomes [new, new + duration], status RESCHEDULED, price and other rows unchanged |
| Lifecycle.RescheduleOnlyOnce | backend/src/main/java/com/urbanservices/booking/service/impl/BookingServiceImpl.java:173-188 | a rescheduled booking cannot be rescheduled again |
| Lifecycle.MoveAvailablePreservesNoOverlap | backend/src/main/java/com/urbanservices/booking/service/impl/BookingServiceImpl.java:181-188 | moving a booking to a window available with its own id excluded keeps bookings apart |
| Lifecycle.ReschedulePreservesNoOverlap | backend/src/main/java/com/urbanservices/booking/service/impl/BookingServiceImpl.java:164-197 | rescheduleBooking keeps the no-overlap invariant |
| Lifecycle.CancelOutcome | backend/src/main/java/com/urbanservices/booking/service/impl/BookingServiceImpl.java:199-217 | definition: the table after cancelBooking, or NotFound; its properties are CancelSetsStatusAndReason, CancelIdempotent and CancelAndCompletePreserveNoOverlap |
| Lifecycle.CancelSetsStatusAndReason | backend/src/main/java/com/urbanservices/booking/service/impl/BookingServiceImpl.java:205-213 | cancel sets CANCELLED and the reason on that booking only; an already cancelled booking is untouched |
| Lifecycle.CancelIdempotent | backend/src/main/java/com/urbanservices/booking/service/impl/BookingServiceImpl.java:205-207 | cancelling twice is cancelling once, and the first reason is kept |
| Lifecycle.CompleteOutcome | backend/src/main/java/com/urbanservices/booking/service/impl/BookingServiceImpl.java:219-236 | definition: the table after completeBooking, or its exception; its properties are CompleteOnlyFromInProgress, CompleteFailsWithoutInProgress and CancelAndCompletePreserveNoOverlap |
| Lifecycle.CompleteOnlyFromInProgress | backend/src/main/java/com/urbanservices/booking/service/impl/BookingServiceImpl.java:222-232 | documentation, unfolding CompleteOutcome: complete succeeds iff the booking exists and is IN_PROGRESS, then sets only COMPLETED; otherwise it fails IllegalState |
| Lifecycle.CompleteFailsWithoutInProgress | backend/src/main/java/com/urbanservices/booking/service/impl/BookingServiceImpl.java:225-227 | on a table without CONFIRMED or IN_PROGRESS rows, complete always fails |
| Lifecycle.StatusChangePreservesNoOverlap | backend/src/main/java/com/urbanservices/booking/service/impl/BookingServiceImpl.java:209-229 | changing only a booking's status keeps bookings apart |
| Lifecycle.CancelAndCompletePreserveNoOverlap | backend/src/main/java/com/urbanservices/booking/service/impl/BookingServiceImpl.java:199-236 | cancel and complete keep the no-overlap invariant |
| Lifecycle.NoOperationReachesConfirmedOrInProgress | backend/src/main/java/com/urbanservices/booking/model/enums/BookingStatus.java:3-12 | no operation creates a CONFIRMED or IN_PROGRESS row; every such row was there before |
| Scheduling.TomorrowBookings | backend/src/main/java/com/urbanservices/booking/service/impl/BookingServiceImpl.java:302-309 | definition: findByBookingDateBetween over tomorrow's LocalTime.MIN to LocalTime.MAX; its property is TomorrowBookingsAreNextDay |
| Scheduling.TomorrowBookingsAreNextDay | backend/src/main/java/com/urbanservices/booking/service/impl/BookingServiceImpl.java:302-309 | the reminder sweep selects exactly the stored bookings starting on the calendar day after now, whatever their status |
| Scheduling.BookingService.constructor | backend/src/main/java/com/urbanservices/booking/service/impl/BookingServiceImpl.java:39-47 | the service starts with an empty bookings table, which satisfies the invariant, over the given professionals and services |
| Scheduling.BookingService.IsTimeSlotAvailable | backend/src/main/java/com/urbanservices/booking/service/impl/BookingServiceImpl.java:238-249 | the removeIf-then-isEmpty computation answers SlotAvailable |
| Scheduling.BookingService.FindAvailableTimeSlots | backend/src/main/java/com/urbanservices/booking/service/impl/BookingServiceImpl.java:251-291 | the nested loops return exactly AvailableSlots, whose properties are the SlotFinder lemmas |
| Scheduling.BookingService.CalculateBookingTotal | backend/src/main/java/com/urbanservices/booking/service/impl/BookingServiceImpl.java:366-398 | NotFound for an unknown service; otherwise the result of the accumulating loop is BookingTotal of the service, the selection and the two dates |
| Scheduling.BookingService.AddPrices | backend/src/main/java/com/urbanservices/booking/service/impl/BookingServiceImpl.java:383-385 | the `for` loop over the matched add-ons returns the start total plus SumPrices of the add-ons |
| Scheduling.BookingService.CreateBooking | backend/src/main/java/com/urbanservices/booking/service/impl/BookingServiceImpl.java:120-162 | the result is CreateOutcome; success appends that booking, failure saves nothing; the DTO's endDate, status and total are set as the source sets them; the invariant holds |
| Scheduling.BookingService.RescheduleBooking | backend/src/main/java/com/urbanservices/booking/service/impl/BookingServiceImpl.java:164-197 | the table becomes RescheduleOutcome's, or stays unchanged on any failure; the moved row is returned; the invariant holds |
| Scheduling.BookingService.CancelBooking | backend/src/main/java/com/urbanservices/booking/service/impl/BookingServiceImpl.java:199-217 | the table becomes CancelOutcome's, or stays unchanged with NotFound; the invariant holds |
| Scheduling.BookingService.CompleteBooking | backend/src/main/java/com/urbanservices/booking/service/impl/BookingServiceImpl.java:219-236 | the table becomes CompleteOutcome's, or stays unchanged with its error; the invariant holds |
| Scheduling.BookingService.SendReminderForUpcomingBookings | backend/src/main/java/com/urbanservices/booking/service/impl/BookingServiceImpl.java:300-315 | reminds the ids of TomorrowBookings, in query order |
| Scheduling.RemoveIfId | backend/src/main/java/com/urbanservices/booking/service/impl/BookingServiceImpl.java:245 | removeIf keeps exactly the bookings without the id, in order |
| Scheduling.BookingService.SaveNew | backend/src/main/java/com/urbanservices/booking/service/impl/BookingServiceImpl.java:156 | `save` of a new booking whose window is available appends it under the next id and keeps the table's invariant |
| Scheduling.BookingService.SaveMoved | backend/src/main/java/com/urbanservices/booking/service/impl/BookingServiceImpl.java:191 | `save` of a stored booking moved to a window free apart from itself replaces that row alone and keeps the invariant |
| Entities.ServiceAddon.constructor | backend/src/main/java/com/urbanservices/booking/model/ServiceAddon.java:12-26 | the all-arguments constructor sets service, name and price as given |
| Entities.ServiceAddon.SetPrice | backend/src/main/java/com/urbanservices/booking/model/ServiceAddon.java:26 | the setter writes only the price |
| Entities.ServiceAddon.SetName | backend/src/main/java/com/urbanservices/booking/model/ServiceAddon.java:20 | the setter writes only the name |
| Entities.BookingAddon.constructor | backend/src/main/java/com/urbanservices/booking/model/BookingAddon.java:33-39 | links booking and add-on, keeps the quantity, and snapshots the add-on's current price and name |
| Entities.BookingAddon.SetBooking | backend/src/main/java/com/urbanservices/booking/model/BookingAddon.java:11-18 | the Lombok setter sets the booking link and nothing else |
| Entities.Review.constructor | backend/src/main/java/com/urbanservices/booking/model/Review.java:35-39 | a new review is not anonymous and not admin-reviewed, with no links |
| Entities.Review.SetBooking | backend/src/main/java/com/urbanservices/booking/model/Review.java:42-49 | always links b; a non-null b hands over its customer, professional and service; null leaves them |
| Entities.Booking.constructor | backend/src/main/java/com/urbanservices/booking/model/Booking.java:43-52 | a new booking is PENDING, with no add-ons and no review |
| Entities.Booking.AddAddon | backend/src/main/java/com/urbanservices/booking/model/Booking.java:67-70 | the set gains one new line linked here, with quantity q and the add-on's current price and name; only the set changes |
| Entities.Booking.RemoveAddon | backend/src/main/java/com/urbanservices/booking/model/Booking.java:72-75 | the line leaves the set and its booking link becomes null |
| Entities.Booking.SetReview | backend/src/main/java/com/urbanservices/booking/model/Booking.java:77-86 | a non-null review is linked back and takes the booking's parties; null unlinks the previous review; a replaced review keeps its link and parties; only the link and party fields of the two reviews can change, so ratings, comments and flags are untouched |
| Entities.EditAddonAfterBooking | backend/src/main/java/com/urbanservices/booking/model/BookingAddon.java:37-38 | later edits of the catalog add-on's price and name leave the booked line's snapshot unchanged |
| Availabilities.DayOfWeekOf | backend/src/main/java/com/urbanservices/booking/model/Availability.java:51 | definition: the weekday of the day number, day 0 being a Thursday; its properties are EpochIsThursday and NewAvailabilityRecursWeekly |
| Availabilities.TimeOfDay | backend/src/main/java/com/urbanservices/booking/model/Availability.java:52 | toLocalTime is the minute within the day, between 0 and 1439 |
| Availabilities.NewAvailability | backend/src/main/java/com/urbanservices/booking/model/Availability.java:34-47 | the four-argument constructor gives a recurring window without a specific date |
| Availabilities.WithinWindow | backend/src/main/java/com/urbanservices/booking/model/Availability.java:52-53 | definition: the time of day is neither before the start nor after the end; its properties are EndpointsInclusive and InvertedWindowIsEmpty |
| Availabilities.IsAvailable | backend/src/main/java/com/urbanservices/booking/model/Availability.java:49-60 | definition: the weekday (recurring) or the date (one-off) matches and the time is within the window; its properties are RecurringIff, OneOffIff, EachBranchIgnoresTheOtherField and OneOffIsOneDay |
| Availabilities.RecurringIff | backend/src/main/java/com/urbanservices/booking/model/Availability.java:50-53 | documentation, unfolding IsAvailable: recurring: available iff the weekday matches and start ≤ time ≤ end |
| Availabilities.OneOffIff | backend/src/main/java/com/urbanservices/booking/model/Availability.java:54-58 | documentation, unfolding IsAvailable: one-off: available iff the date is set and equal and start ≤ time ≤ end |
| Availabilities.EndpointsInclusive | backend/src/main/java/com/urbanservices/booking/model/Availability.java:52-58 | both endpoints are admitted and the minutes just outside are not |
| Availabilities.DayAndTimeOf | backend/src/main/java/com/urbanservices/booking/model/Availability.java:51-53 | a timestamp m minutes into a day falls on that day at time m |
| Availabilities.InvertedWindowIsEmpty | backend/src/main/java/com/urbanservices/booking/model/Availability.java:52-58 | a window with start after end admits no time |
| Availabilities.EachBranchIgnoresTheOtherField | backend/src/main/java/com/urbanservices/booking/model/Availability.java:50-58 | recurring windows ignore specificDate, one-off windows ignore dayOfWeek |
| Availabilities.NewAvailabilityRecursWeekly | backend/src/main/java/com/urbanservices/booking/model/Availability.java:34-53 | a constructed window admits a time exactly when it admits the same time a week later |
| Availabilities.OneOffIsOneDay | backend/src/main/java/com/urbanservices/booking/model/Availability.java:55-56 | a one-off window admits times on one calendar day only |
| Availabilities.EpochIsThursday | backend/src/main/java/com/urbanservices/booking/model/Availability.java:51 | example: the weekday arithmetic puts 1970-01-01 on a Thursday |
| Addresses.AddressParts | backend/src/main/java/com/urbanservices/booking/model/Address.java:46-73 | the six parts in their fixed order, line1 to country |
| Addresses.Append | backend/src/main/java/com/urbanservices/booking/model/Address.java:50-53 | definition: one guarded append, writing the separator only when the builder is non-empty; its property is BuildIsJoin |
| Addresses.Build | backend/src/main/java/com/urbanservices/booking/model/Address.java:44-75 | definition: the builder after the six guarded appends; its properties are BuildIsJoin and NothingWrittenIsEmpty |
| Addresses.FullAddress | backend/src/main/java/com/urbanservices/booking/model/Address.java:43-76 | definition: Build over the six parts in their order; its properties are NullSameAsEmpty, NoLeadingSeparator, AllPartsPresent and PostalCodeAfterSpace |
| Addresses.Written | backend/src/main/java/com/urbanservices/booking/model/Address.java:46-73 | the written parts: no more pieces than parts, and each piece's text non-empty; BuildIsJoin relates them to the builder |
| Addresses.Join | backend/src/main/java/com/urbanservices/booking/model/Address.java:43-75 | definition: the first written piece bare, every later one after its own separator; its property is JoinShape |
| Addresses.JoinShape | backend/src/main/java/com/urbanservices/booking/model/Address.java:43-75 | a join of non-empty pieces is empty iff there are none, and starts with the first piece |
| Addresses.BuildIsJoin | backend/src/main/java/com/urbanservices/booking/model/Address.java:51-71 | the builder-length test amounts to joining exactly the written parts |
| Addresses.Address.constructor | backend/src/main/java/com/urbanservices/booking/model/Address.java:36 | a new address has every field null and is not the default |
| Addresses.Address.GetFullAddress | backend/src/main/java/com/urbanservices/booking/model/Address.java:43-76 | the six guarded appends compute FullAddress of the fields |
| Addresses.NothingWrittenIsEmpty | backend/src/main/java/com/urbanservices/booking/model/Address.java:43-75 | all parts null or empty gives "" |
| Addresses.NullSameAsEmpty | backend/src/main/java/com/urbanservices/booking/model/Address.java:46-70 | a null part and an empty part format identically |
| Addresses.NoLeadingSeparator | backend/src/main/java/com/urbanservices/booking/model/Address.java:51-71 | the result is empty or starts with the first written part's text, never with a separator |
| Addresses.AllPartsPresent | backend/src/main/java/com/urbanservices/booking/model/Address.java:43-75 | all parts present gives "l1, l2, city, state postal, country" |
| Addresses.PostalCodeAfterSpace | backend/src/main/java/com/urbanservices/booking/model/Address.java:65-67 | the space belongs to the postal code: without a state it follows the city after a space |
| Addresses.WritesLine2 | backend/src/main/java/com/urbanservices/booking/dto/AddressDto.java:51 | definition: the second line is non-null and not blank once trimmed; its property is DtoLine2 |
| Addresses.DtoTail | backend/src/main/java/com/urbanservices/booking/dto/AddressDto.java:55-58 | definition: ", city, state postalCode, country" with nulls printed as "null"; DtoFullAddress ends with it and DtoAllNull shows it |
| Addresses.DtoFullAddress | backend/src/main/java/com/urbanservices/booking/dto/AddressDto.java:47-61 | the DTO's address starts with line 1 ("null" if null) and always ends with ", city, state postal, country" |
| Addresses.DtoLine2 | backend/src/main/java/com/urbanservices/booking/dto/AddressDto.java:51-53 | line 2 is written after ", " only when it is non-null and not blank after trim |
| Addresses.DtoAllNull | backend/src/main/java/com/urbanservices/booking/dto/AddressDto.java:55-58 | an all-null DTO formats as "null, null, null null, null" |
| Addresses.DtoAgreesWithEntity | backend/src/main/java/com/urbanservices/booking/dto/AddressDto.java:47-61 | with every part present and line 2 not blank, the DTO and entity formats agree |
| Addresses.DtoDropsBlankLine2 | backend/src/main/java/com/urbanservices/booking/dto/AddressDto.java:51 | a line 2 of one space is dropped by the DTO |
| Addresses.EntityWritesBlankLine2 | backend/src/main/java/com/urbanservices/booking/model/Address.java:50-53 | the entity writes that same line 2, so the two formatters differ there |
| Common.TrimStart | backend/src/main/java/com/urbanservices/booking/dto/AddressDto.java:51 | drops exactly the leading characters at or below U+0020 |
| Common.TrimEnd | backend/src/main/java/com/urbanservices/booking/dto/AddressDto.java:51 | drops exactly the trailing characters at or below U+0020 |
| Common.Trim | backend/src/main/java/com/urbanservices/booking/dto/AddressDto.java:51 | String.trim leaves no trimmable character at either end and is never longer than its input; its slice property is TrimIsSlice |
| Common.TrimIsSlice | backend/src/main/java/com/urbanservices/booking/dto/AddressDto.java:51 | the trimmed string is one contiguous slice s[i..j] of the input, and every character outside that slice is at or below U+0020 |
| Common.TrimOfTrimmed | backend/target/generated-sources/annotations/com/urbanservices/booking/mapper/CustomerMapperImpl.java:33 | trimming a string with no trimmable ends gives it back |
| ProfessionalMapping.MapToAddress | backend/src/main/java/com/urbanservices/booking/mapper/ProfessionalMapper.java:64-80 | null for a null DTO or one without address fields; otherwise a new address with the five fields, not default, labelled "Professional Address" |
| ProfessionalMapping.UpdateAddressFromDto | backend/src/main/java/com/urbanservices/booking/mapper/ProfessionalMapper.java:101-118 | null without address fields, an existing address untouched; mapToAddress when none exists; otherwise the same object with the five fields overwritten and its label, default flag, line 2, customer and instructions kept |
| ProfessionalMapping.MapServices | backend/src/main/java/com/urbanservices/booking/mapper/ProfessionalMapper.java:120-133 | null service ids leave the services alone; otherwise the services are exactly those ids; nothing else changes |
| ProfessionalMapping.MapServicesIdempotent | backend/src/main/java/com/urbanservices/booking/mapper/ProfessionalMapper.java:120-133 | mapping twice equals mapping once, and the result ignores the previous services |
| ProfessionalMapping.MappedAddressFormat | backend/src/main/java/com/urbanservices/booking/mapper/ProfessionalMapper.java:70-79 | a mapped address formats as the DTO's fields with no second line |
| CustomerMapping.FirstSpace | backend/target/generated-sources/annotations/com/urbanservices/booking/mapper/CustomerMapperImpl.java:33 | the index of the first ASCII space (the only character the regex " +" matches), or the length when there is none |
| CustomerMapping.DropSpaces | backend/target/generated-sources/annotations/com/urbanservices/booking/mapper/CustomerMapperImpl.java:33 | drops a leading run of ASCII spaces, leaving a suffix that does not start with one |
| CustomerMapping.Tokens | backend/target/generated-sources/annotations/com/urbanservices/booking/mapper/CustomerMapperImpl.java:33-34 | `split(" +")` of a string not starting with a space: at least one token, and no token holds a space |
| CustomerMapping.IndexOf | backend/target/generated-sources/annotations/com/urbanservices/booking/mapper/CustomerMapperImpl.java:34 | indexOf is the first index of the character, or -1 when it is absent |
| CustomerMapping.ToDto | backend/target/generated-sources/annotations/com/urbanservices/booking/mapper/CustomerMapperImpl.java:17-37 | null maps to null; id, email, phone, password and image are copied; a null name gives a null first name and an empty last name; the split of a present name is ToDtoSplitsName |
| CustomerMapping.ToDtoSplitsName | backend/target/generated-sources/annotations/com/urbanservices/booking/mapper/CustomerMapperImpl.java:33-34 | for a present name, the first name is the trimmed name up to its first ASCII space and the last name what follows that space, "" without one |
| CustomerMapping.FirstName | backend/target/generated-sources/annotations/com/urbanservices/booking/mapper/CustomerMapperImpl.java:33 | definition: the first token of the trimmed name, or null; its properties are FirstNameCut and SplitCases |
| CustomerMapping.LastName | backend/target/generated-sources/annotations/com/urbanservices/booking/mapper/CustomerMapperImpl.java:34 | definition: with more than one token, the trimmed name after its first space, else ""; its properties are LastNameCut and SplitCases |
| CustomerMapping.JoinName | backend/target/generated-sources/annotations/com/urbanservices/booking/mapper/CustomerMapperImpl.java:56 | definition: the first name (null prints as "null"), then a space and the last name when it is neither null nor empty; its properties are JoinCases and JoinOfSplit |
| CustomerMapping.ToEntity | backend/target/generated-sources/annotations/com/urbanservices/booking/mapper/CustomerMapperImpl.java:39-59 | null maps to null; role ROLE_CUSTOMER and enabled are set; the password is not copied |
| CustomerMapping.TokensShape | backend/target/generated-sources/annotations/com/urbanservices/booking/mapper/CustomerMapperImpl.java:33-34 | a trimmed name has more than one token exactly when it contains an ASCII space; the first token is everything before the first one |
| CustomerMapping.DropSpacesDropsOnlySpaces | backend/target/generated-sources/annotations/com/urbanservices/booking/mapper/CustomerMapperImpl.java:33 | every character DropSpaces drops is an ASCII space |
| CustomerMapping.NullNameSplit | backend/target/generated-sources/annotations/com/urbanservices/booking/mapper/CustomerMapperImpl.java:33-34 | a null name gives first name null and last name "" |
| CustomerMapping.SplitCases | backend/target/generated-sources/annotations/com/urbanservices/booking/mapper/CustomerMapperImpl.java:33-34 | first name is the trimmed name up to its first ASCII space; last name is "" without a space, else what follows the first space |
| CustomerMapping.FirstNameCut | backend/target/generated-sources/annotations/com/urbanservices/booking/mapper/CustomerMapperImpl.java:33 | the first token is the trimmed name up to its first ASCII space |
| CustomerMapping.LastNameCut | backend/target/generated-sources/annotations/com/urbanservices/booking/mapper/CustomerMapperImpl.java:34 | the last name is what follows the first ASCII space of the trimmed name, "" when it has none |
| CustomerMapping.JoinCases | backend/target/generated-sources/annotations/com/urbanservices/booking/mapper/CustomerMapperImpl.java:56 | documentation, unfolding JoinName: the joined name is the first name alone when the last is null or empty, else first + " " + last |
| CustomerMapping.FirstSpaceIsIndexOfSpace | backend/target/generated-sources/annotations/com/urbanservices/booking/mapper/CustomerMapperImpl.java:33-34 | for every string, indexOf(' ') is the end of the first token, or -1 when there is no space: the split and the cut look at the same index |
| CustomerMapping.JoinAroundSpace | backend/target/generated-sources/annotations/com/urbanservices/booking/mapper/CustomerMapperImpl.java:56 | cutting around a space and joining with one space gives the string back |
| CustomerMapping.JoinOfSplit | backend/target/generated-sources/annotations/com/urbanservices/booking/mapper/CustomerMapperImpl.java:33-56 | splitting any trimmed string at its first ASCII space and joining the parts gives it back |
| CustomerMapping.RoundTrip | backend/target/generated-sources/annotations/com/urbanservices/booking/mapper/CustomerMapperImpl.java:33-56 | for every customer, toEntity(toDto(c)).name is the trimmed name, or "null" when the name is null |
| CustomerMapping.TabSeparatedName | backend/target/generated-sources/annotations/com/urbanservices/booking/mapper/CustomerMapperImpl.java:33-56 | a tab does not separate words: for words a and b without whitespace, "a\tb" is all first name, the last name is "", and the join gives "a\tb" back |
| Accounts.NewUser | backend/src/main/java/com/urbanservices/booking/model/User.java:55-67 | a new user is not enabled and not verified, is active, and has null references |
| Accounts.IndexOfId | backend/src/main/java/com/urbanservices/booking/service/impl/UserServiceImpl.java:138-139 | findById: the position of a row with the id, or none has it |
| Users.Find | backend/src/main/java/com/urbanservices/booking/repository/UserRepository.java:16-24 | findByEmail and the token lookups: a matching row, or none matches |
| Users.Saved | backend/src/main/java/com/urbanservices/booking/service/impl/UserServiceImpl.java:53-68 | the saved row: encoded password, null role defaulted to customer, no last login, the new verification token, not verified, active |
| Users.SaveOutcome | backend/src/main/java/com/urbanservices/booking/service/impl/UserServiceImpl.java:39-76 | a taken email is EmailInUse; otherwise a taken non-null phone is PhoneInUse; Ok exactly when neither is taken, and then the saved row is appended under the next id |
| Users.UpdateOutcome | backend/src/main/java/com/urbanservices/booking/service/impl/UserServiceImpl.java:148-177 | a null id is InvalidArgument and an unknown id NotFound; a stored row without an email is a NullPointerException; EmailInUse only for a changed email that is taken and PhoneInUse only for a changed non-null phone that is taken; accepted whenever the email is unchanged or free and the phone is null, unchanged or free; only name, email, phone and image change, never the role |
| Users.DeleteOutcome | backend/src/main/java/com/urbanservices/booking/service/impl/UserServiceImpl.java:135-146 | soft delete: the row stays with active false; NotFound for an unknown id |
| Users.ResetRequestOutcome | backend/src/main/java/com/urbanservices/booking/service/impl/UserServiceImpl.java:200-215 | the row with the email gets the token, expiring 24 hours after now; NotFound otherwise |
| Users.ResetOutcome | backend/src/main/java/com/urbanservices/booking/service/impl/UserServiceImpl.java:217-234 | only a stored token whose expiry is strictly after now resets; the password is encoded and token and expiry cleared |
| Users.VerifyOutcome | backend/src/main/java/com/urbanservices/booking/service/impl/UserServiceImpl.java:236-247 | the row with the token is verified and the token cleared; an unknown token is refused |
| Users.LoadOutcome | backend/src/main/java/com/urbanservices/booking/service/impl/UserServiceImpl.java:108-127 | a missing or inactive user is NotFound; otherwise the details of the row found by email: its email as username, its password and its enabled flag |
| Users.FindIsUnique | backend/src/main/java/com/urbanservices/booking/model/User.java:40-41 | in a consistent table only one row matches an email or a token |
| Users.IndexOfIdIsUnique | backend/src/main/java/com/urbanservices/booking/service/impl/UserServiceImpl.java:138 | in a consistent table only one row carries an id |
| Users.ResetTokenSingleUse | backend/src/main/java/com/urbanservices/booking/service/impl/UserServiceImpl.java:220-227 | after a successful reset the same token is refused |
| Users.VerifyTokenSingleUse | backend/src/main/java/com/urbanservices/booking/service/impl/UserServiceImpl.java:239-243 | after a verification the same token is refused |
| Users.FreshResetTokenWorksFor24Hours | backend/src/main/java/com/urbanservices/booking/service/impl/UserServiceImpl.java:207-222 | a freshly issued token resets the password exactly while the time is before now + 24 hours |
| Users.NewResetRequestRevokesOld | backend/src/main/java/com/urbanservices/booking/service/impl/UserServiceImpl.java:207-208 | a new reset request revokes that account's previous token |
| Users.DeletedUserCannotLogIn | backend/src/main/java/com/urbanservices/booking/service/impl/UserServiceImpl.java:114-142 | a deleted user can no longer log in, yet its row is kept |
| Users.ConsistentAfterSave | backend/src/main/java/com/urbanservices/booking/service/impl/UserServiceImpl.java:43-50 | saveUser keeps ids, emails, non-null phones and tokens unique |
| Users.ConsistentAfterUpdate | backend/src/main/java/com/urbanservices/booking/service/impl/UserServiceImpl.java:155-165 | updateUser keeps them unique |
| Users.ConsistentAfterRowEdit | backend/src/main/java/com/urbanservices/booking/service/impl/UserServiceImpl.java:142-243 | editing a row's flags or clearing its tokens keeps the table consistent |
| Users.UserService.SaveUser | backend/src/main/java/com/urbanservices/booking/service/impl/UserServiceImpl.java:39-76 | the table becomes SaveOutcome's and the saved row is returned, or the table is unchanged and SaveOutcome's EmailInUse or PhoneInUse is returned; consistency is kept |
| Users.UserService.LoadUserByUsername | backend/src/main/java/com/urbanservices/booking/service/impl/UserServiceImpl.java:108-127 | for any stored row with that email: Ok exactly when that row is active, and then its email, password and enabled flag are returned |
| Users.UserService.DeleteUser | backend/src/main/java/com/urbanservices/booking/service/impl/UserServiceImpl.java:135-146 | the table becomes DeleteOutcome's, or is unchanged; consistency is kept |
| Users.UserService.UpdateUser | backend/src/main/java/com/urbanservices/booking/service/impl/UserServiceImpl.java:148-177 | the table becomes UpdateOutcome's, or is unchanged; consistency is kept |
| Users.UserService.RequestPasswordReset | backend/src/main/java/com/urbanservices/booking/service/impl/UserServiceImpl.java:200-215 | the table becomes ResetRequestOutcome's, or is unchanged |
| Users.UserService.ResetPassword | backend/src/main/java/com/urbanservices/booking/service/impl/UserServiceImpl.java:217-234 | the table becomes ResetOutcome's, or is unchanged |
| Users.UserService.VerifyEmail | backend/src/main/java/com/urbanservices/booking/service/impl/UserServiceImpl.java:236-247 | the table becomes VerifyOutcome's, or is unchanged |
| Customers.FindByEmail | backend/src/main/java/com/urbanservices/booking/service/CustomerService.java:89-90 | the position of a customer with the email, or none has it |
| Customers.WithoutId | backend/src/main/java/com/urbanservices/booking/service/CustomerService.java:84 | deleteById keeps exactly the rows without the id |
| Customers.GetByIdOutcome | backend/src/main/java/com/urbanservices/booking/service/CustomerService.java:33-38 | NotFound exactly when no customer has the id; otherwise its DTO |
| Customers.GetByEmailOutcome | backend/src/main/java/com/urbanservices/booking/service/CustomerService.java:87-92 | NotFound exactly when no customer has the email; otherwise the DTO the mapper makes of the first row with that email |
| Customers.Created | backend/src/main/java/com/urbanservices/booking/service/CustomerService.java:48-51 | the new row has the assigned id, the encoded password, role ROLE_CUSTOMER and enabled |
| Customers.CreateOutcome | backend/src/main/java/com/urbanservices/booking/service/CustomerService.java:40-56 | a taken email is refused; otherwise the row is appended |
| Customers.FullName | backend/src/main/java/com/urbanservices/booking/service/CustomerService.java:65-66 | first + " " + last, a null part printing as "null" |
| Customers.Updated | backend/src/main/java/com/urbanservices/booking/service/CustomerService.java:65-72 | name and phone replaced; the password only when a non-empty one is given |
| Customers.UpdateOutcome | backend/src/main/java/com/urbanservices/booking/service/CustomerService.java:58-77 | NotFound, or the row updated in place with the rest of the table kept |
| Customers.DeleteOutcome | backend/src/main/java/com/urbanservices/booking/service/CustomerService.java:79-85 | NotFound exactly when absent; otherwise no row keeps the id, the table shrinks, and every other row is kept |
| Customers.WithoutIdShrinks | backend/src/main/java/com/urbanservices/booking/service/CustomerService.java:84 | deleting a present id removes at least one row |
| Customers.UpdateNameKeepsTrailingSpace | backend/src/main/java/com/urbanservices/booking/service/CustomerService.java:65-66 | with an empty last name the update keeps a trailing space that toEntity drops |
| Customers.NamesAgreeWithLastName | backend/src/main/java/com/urbanservices/booking/service/CustomerService.java:65-66 | with a non-empty last name the two joins agree |
| Customers.BlankPasswordKeepsStored | backend/src/main/java/com/urbanservices/booking/service/CustomerService.java:70-72 | a null or empty password keeps the stored one, whatever the encoder |
| Customers.CreatedIsFoundByEmail | backend/src/main/java/com/urbanservices/booking/service/CustomerService.java:40-92 | a created customer is found by its email with the id, email and phone it was given |
| Customers.DeletedIsGone | backend/src/main/java/com/urbanservices/booking/service/CustomerService.java:79-85 | a deleted customer is no longer found |
| Customers.ConsistentAfterCreate | backend/src/main/java/com/urbanservices/booking/service/CustomerService.java:43-45 | create keeps ids and emails unique |
| Customers.ConsistentAfterUpdate | backend/src/main/java/com/urbanservices/booking/service/CustomerService.java:58-77 | update keeps ids and emails unique |
| Customers.ConsistentAfterDelete | backend/src/main/java/com/urbanservices/booking/service/CustomerService.java:79-85 | delete keeps ids and emails unique |
| Customers.CustomerService.GetCustomerById | backend/src/main/java/com/urbanservices/booking/service/CustomerService.java:33-38 | answers GetByIdOutcome on the current table |
| Customers.CustomerService.GetCustomerByEmail | backend/src/main/java/com/urbanservices/booking/service/CustomerService.java:87-92 | NotFound exactly when no customer has the email; otherwise the DTO of the one stored row with that email, since emails are unique |
| Customers.CustomerService.CreateCustomer | backend/src/main/java/com/urbanservices/booking/service/CustomerService.java:40-56 | the table becomes CreateOutcome's; the saved row's DTO is returned |
| Customers.CustomerService.UpdateCustomer | backend/src/main/java/com/urbanservices/booking/service/CustomerService.java:58-77 | the table becomes UpdateOutcome's; the updated row's DTO is returned |
| Customers.CustomerService.DeleteCustomer | backend/src/main/java/com/urbanservices/booking/service/CustomerService.java:79-85 | the table becomes DeleteOutcome's, or is unchanged with NotFound |
| Professionals.NewProfessional | backend/src/main/java/com/urbanservices/booking/model/Professional.java:30-41 | a new professional is not verified, is available, and offers no service |
| Professionals.Registered | backend/src/main/java/com/urbanservices/booking/service/impl/ProfessionalServiceImpl.java:53-63 | the registered row has role ROLE_PROFESSIONAL, is enabled, not verified, not available, with no services |
| Professionals.VerificationOutcome | backend/src/main/java/com/urbanservices/booking/service/impl/ProfessionalServiceImpl.java:155-163 | NotFound for an unknown id; otherwise only the verified flag changes |
| Professionals.AvailabilityOutcome | backend/src/main/java/com/urbanservices/booking/service/impl/ProfessionalServiceImpl.java:165-173 | NotFound for an unknown id; otherwise only the available flag changes |
| Professionals.AddServiceOutcome | backend/src/main/java/com/urbanservices/booking/service/impl/ProfessionalServiceImpl.java:175-188 | NotFound for a missing professional, then service; otherwise the service joins the set |
| Professionals.RemoveIfId | backend/src/main/java/com/urbanservices/booking/service/impl/ProfessionalServiceImpl.java:196 | removeIf drops exactly the services with the id and reports whether any went |
| Professionals.RemoveServiceOutcome | backend/src/main/java/com/urbanservices/booking/service/impl/ProfessionalServiceImpl.java:190-204 | NotFound for a missing professional or when nothing was removed; otherwise the service is gone |
| Professionals.RegistrationStartsUnavailable | backend/src/main/java/com/urbanservices/booking/service/impl/ProfessionalServiceImpl.java:62 | registration overrides the entity default: a registered professional is unavailable |
| Professionals.RemoveUndoesAdd | backend/src/main/java/com/urbanservices/booking/service/impl/ProfessionalServiceImpl.java:175-204 | removing a just-added service restores the table |
| Professionals.AddServiceIdempotent | backend/src/main/java/com/urbanservices/booking/service/impl/ProfessionalServiceImpl.java:185 | adding a service twice equals adding it once |
| Professionals.RemoveTwiceFails | backend/src/main/java/com/urbanservices/booking/service/impl/ProfessionalServiceImpl.java:198-200 | removing the same service again fails NotFound |
| Professionals.FlagsCommute | backend/src/main/java/com/urbanservices/booking/service/impl/ProfessionalServiceImpl.java:155-173 | the two flag updates commute |
| Professionals.ProfessionalService.RegisterProfessional | backend/src/main/java/com/urbanservices/booking/service/impl/ProfessionalServiceImpl.java:49-81 | stores the Registered row under a new id and returns that id |
| Professionals.ProfessionalService.UpdateVerificationStatus | backend/src/main/java/com/urbanservices/booking/service/impl/ProfessionalServiceImpl.java:155-163 | the table becomes VerificationOutcome's, or is unchanged |
| Professionals.ProfessionalService.UpdateAvailabilityStatus | backend/src/main/java/com/urbanservices/booking/service/impl/ProfessionalServiceImpl.java:165-173 | the table becomes AvailabilityOutcome's, or is unchanged |
| Professionals.ProfessionalService.AddService | backend/src/main/java/com/urbanservices/booking/service/impl/ProfessionalServiceImpl.java:175-188 | the table becomes AddServiceOutcome's, or is unchanged |
| Professionals.ProfessionalService.RemoveService | backend/src/main/java/com/urbanservices/booking/service/impl/ProfessionalServiceImpl.java:190-204 | the table becomes RemoveServiceOutcome's, or is unchanged |
| Reviews.IndexOfReview | backend/src/main/java/com/urbanservices/booking/service/impl/ReviewServiceImpl.java:206-231 | findById: the position of the review with the id, or none has it |
| Reviews.Reviewed | backend/src/main/java/com/urbanservices/booking/service/impl/ReviewServiceImpl.java:169 | definition: some stored review carries the booking id; its properties are SecondReviewRefused and DeleteAllowsNewReview |
| Reviews.WithoutReview | backend/src/main/java/com/urbanservices/booking/service/impl/ReviewServiceImpl.java:237 | delete keeps exactly the other reviews |
| Reviews.ReviewOf | backend/src/main/java/com/urbanservices/booking/service/impl/ReviewServiceImpl.java:185-189 | the new review takes the DTO's rating, comment and anonymity and the booking's customer, professional and service |
| Reviews.CreateOutcome | backend/src/main/java/com/urbanservices/booking/service/impl/ReviewServiceImpl.java:164-201 | refused when the booking has a review, has no id, does not exist or is not COMPLETED, in that order; a found, unreviewed, COMPLETED booking is always accepted, and the review is appended with the booking's parties |
| Reviews.UpdateOutcome | backend/src/main/java/com/urbanservices/booking/service/impl/ReviewServiceImpl.java:203-225 | NotFound, or only rating, comment and anonymity change |
| Reviews.DeleteOutcome | backend/src/main/java/com/urbanservices/booking/service/impl/ReviewServiceImpl.java:227-241 | NotFound, or the review is removed |
| Reviews.MappedCustomer | backend/target/generated-sources/annotations/com/urbanservices/booking/mapper/ReviewMapperImpl.java:21-40 | toDto's customer name and image, both null without a customer |
| Reviews.DetailsAsWritten | backend/src/main/java/com/urbanservices/booking/service/impl/ReviewServiceImpl.java:243-265 | the name is "Anonymous" for an anonymous or customerless review, else the customer's; toDto's image stays |
| Reviews.Details | backend/src/main/java/com/urbanservices/booking/service/impl/ReviewServiceImpl.java:247-252 | as intended: name and image of the customer unless anonymous or customerless, then "Anonymous" and no image |
| Reviews.AnonymousReviewShowsImage | backend/target/generated-sources/annotations/com/urbanservices/booking/mapper/ReviewMapperImpl.java:30 | as written, an anonymous review still shows its customer's image |
| Reviews.DetailsDifferOnlyInAnonymousImage | backend/src/main/java/com/urbanservices/booking/service/impl/ReviewServiceImpl.java:247-252 | the intended details equal the written ones except for an anonymous review's image |
| Reviews.AnonymousHidesCustomer | backend/src/main/java/com/urbanservices/booking/service/impl/ReviewServiceImpl.java:250-251 | with the intended details an anonymous review shows the same thing whoever its customer is |
| Reviews.SecondReviewRefused | backend/src/main/java/com/urbanservices/booking/service/impl/ReviewServiceImpl.java:168-173 | once a booking has its review, a second is refused |
| Reviews.DeleteAllowsNewReview | backend/src/main/java/com/urbanservices/booking/service/impl/ReviewServiceImpl.java:168-237 | deleting a booking's review makes room for a new one |
| Reviews.UpdateKeepsLinks | backend/src/main/java/com/urbanservices/booking/service/impl/ReviewServiceImpl.java:206-224 | an update never moves a review to another booking, customer, professional or service |
| Reviews.ConsistentAfterCreate | backend/src/main/java/com/urbanservices/booking/service/impl/ReviewServiceImpl.java:168-191 | create keeps ids distinct and at most one review per booking |
| Reviews.ConsistentAfterDelete | backend/src/main/java/com/urbanservices/booking/service/impl/ReviewServiceImpl.java:237 | delete keeps them |
| Reviews.ReviewService.Create | backend/src/main/java/com/urbanservices/booking/service/impl/ReviewServiceImpl.java:164-201 | the table becomes CreateOutcome's, or is unchanged; the saved review is returned |
| Reviews.ReviewService.Update | backend/src/main/java/com/urbanservices/booking/service/impl/ReviewServiceImpl.java:203-225 | the table becomes UpdateOutcome's, or is unchanged |
| Reviews.ReviewService.Delete | backend/src/main/java/com/urbanservices/booking/service/impl/ReviewServiceImpl.java:227-241 | the table becomes DeleteOutcome's, or is unchanged |

## Left out

- `changePassword` of the user service (UserServiceImpl.java:179-198) is not modelled; it is outside the account rules this model covers.
- The paged read methods of BookingServiceImpl and their `toDtoWithDetails` mapping are not modelled beyond the repository queries they call.
- Persistence and transactions: Spring Data and JPA, `@Transactional`, paging, the generic base repositories. The tables are in-memory sequences and maps.
- Entity timestamps: createdAt, updatedAt and the `LocalDateTime.now()` calls that set them.
- Concurrency between the conflict check and the save: the model is sequential.
- Notifications and email: the println stubs and the email service. Sending is not modelled; the reminder sweep returns the ids it would remind.
- The cron schedule and the clock: `now` is a parameter.
- Floating point: average ratings and `hourlyRate`. `ProfessionalDto` omits both.
- Authentication and authorisation: JWT and AuthService.
- The password encoder and the UUID generator are function parameters. Their tokens are required to be new, because random UUIDs do not repeat.
- The remaining MapStruct code is not modelled. ReviewMapper's toEntity is assumed to copy rating, comment and anonymity; its customer columns are modelled as `MappedCustomer`.
- Bean-validation annotations and database constraints (unique, not null): they are enforced outside the code shown and are not modelled. The uniqueness the services check themselves is modelled.
- BaseEntity is not part of this model. Ids are naturals assigned from a counter, and entities compare by identity.
- Related entities are ids: a booking's customer, professional, service and address; a professional's services.
- The Service catalog is modelled only as the base price, duration and add-ons that pricing reads.
- Users, customers and professionals are separate tables. JPA's joined inheritance of one users table is not modelled, and neither is uniqueness across the three tables.
- Customers.CustomerService.CreateCustomer: the DTO's id is ignored and the table assigns a new one; `save` on an entity whose id toEntity copied from an existing row would merge into that row, which is not modelled.
- Users.UserService.SaveUser: the entity's id is ignored and a fresh id assigned; `save` on an entity with a set id merges into that row, which is not modelled.
- Users.UserService.SaveUser: requires that no stored row already hold the reset token of the entity being saved. saveUser copies that token unchanged, and the single-use property of reset tokens (Users.ResetTokenSingleUse) rests on reset tokens being unique; the model does not cover saving an entity whose reset token another row holds. Users.ConsistentAfterSave carries the same requirement.
- Reviews.CreateOutcome: `findById(null)` for a DTO without a booking id is modelled as InvalidArgument.
- Users.UpdateOutcome: `findById(null)` for a user without an id is modelled as InvalidArgument.
- ProfessionalMapping.MapServices: modelled on values. The professional is a datatype in a map, not an object updated in place.
- Reviews.ReviewService.Create: the display fields of toDtoWithDetails other than the customer name and image are not modelled.
- Scheduling.BookingService.CreateBooking: the returned value is the saved booking row, not the DTO that toDtoWithDetails builds from it.
- Availabilities.DayOfWeekOf: times are minutes from the epoch in one fixed time zone, and the weekday is computed from the day number.
- Pricing.AnyMatch: the selection (a `Set<BookingAddonDto>`, hashed by identity, BookingDto.java:44) and the catalog (a `HashSet<ServiceAddon>`, Service.java:42) are modelled as sequences. Which selected add-on anyMatch reaches first, and so whether a null id throws NullPointerException before a matching id is found, follows sequence order, not HashSet iteration order. When no selected id is null the result does not depend on order.
- Pricing.MatchedAddons: the same sequence order stands in for the catalog's HashSet order, both for which catalog add-on's failing match test is reached first and for the order of the kept add-ons.
- Times have minute resolution. LocalTime.MAX (23:59:59.999999999) is modelled as the day's last minute.
- The add-on rows of a booking the service saves (the DTO's add-ons) are not modelled; only pricing reads them.

## Findings

| source | as written | input that shows it | evidently intended | confidence | as-written member | corrected member |
|---|---|---|---|---|---|---|
| backend/src/main/java/com/urbanservices/booking/service/impl/ReviewServiceImpl.java:247-252 | toDtoWithDetails starts from ReviewMapper.toDto, which copies the customer's profile image (ReviewMapperImpl.java:30); for an anonymous review it overwrites only the name with "Anonymous" | an anonymous review by a customer whose profile image is set: the details show "Anonymous" next to that customer's image | an anonymous review shows nothing of its customer, the image included | not executed | Reviews.DetailsAsWritten, Reviews.AnonymousReviewShowsImage | Reviews.Details, Reviews.AnonymousHidesCustomer |
