/** The booking lifecycle of BookingServiceImpl (createBooking,
    rescheduleBooking, cancelBooking, completeBooking) as transition
    functions over the bookings table, and the invariant they keep: no two
    bookings of one professional meet, under the same closed test the
    conflict query uses, whatever their status. */
module Lifecycle {
  import opened Common
  import opened BookingModel
  import opened BookingRepository
  import opened SlotFinder
  import opened Pricing

  /** Booking ids are distinct (the primary key). */
  predicate UniqueIds(store: seq<Booking>) {
    forall i, j :: 0 <= i < j < |store| ==> store[i].id != store[j].id
  }

  /** Two windows are apart under the closed test: one ends strictly before
      the other starts. */
  predicate Apart(a: Booking, b: Booking) {
    a.endDate < b.bookingDate || b.endDate < a.bookingDate
  }

  /** No two bookings of the same professional meet. */
  predicate NoOverlap(store: seq<Booking>) {
    forall i, j ::
      0 <= i < |store| && 0 <= j < |store| && i != j && store[i].professionalId == store[j].professionalId ==>
        Apart(store[i], store[j])
  }

  /** The two statuses no operation of the service produces. */
  predicate Unreachable(status: BookingStatus) {
    status == Confirmed || status == InProgress
  }

  /** The table changes only by the operation producing no new booking in an
      unreachable status: every such row was already there. */
  predicate NoNewUnreachable(before: seq<Booking>, after: seq<Booking>) {
    forall j :: 0 <= j < |after| && Unreachable(after[j].status) ==> j < |before| && before[j] == after[j]
  }

  /** findById at a position that carries the id and is its first. */
  lemma FindByIdAt(s: seq<Booking>, id: nat, i: nat)
    requires i < |s| && s[i].id == id
    requires forall j :: 0 <= j < i ==> s[j].id != id
    ensures FindById(s, id) == Some(i)
  {
  }

  /** Overwriting the row findById found with a row of the same id leaves
      the lookup where it was. */
  lemma FindByIdAfterUpdate(s: seq<Booking>, id: nat, x: Booking)
    requires FindById(s, id).Some? && x.id == id
    ensures FindById(s[FindById(s, id).value := x], id) == FindById(s, id)
  {
    var i := FindById(s, id).value;
    FindByIdAt(s[i := x], id, i);
  }

  // ---------------------------------------------------------------------
  // createBooking

  /** The service duration createBooking uses: its own, or 60 when null. */
  function CreateDuration(service: CatalogService): (d: int)
  {
    if service.durationInMinutes.Some? then service.durationInMinutes.value else 60
  }

  /** What createBooking saves, or the exception it throws: unknown
      professional, unknown service, a null start (dereferenced by
      plusMinutes), an unavailable window, or a pricing failure. */
  function CreateOutcome(store: seq<Booking>, professionals: set<nat>, services: map<nat, CatalogService>,
                         nextId: nat, customerId: nat, professionalId: nat, serviceId: nat, addressId: nat,
                         bookingDate: Option<int>, addons: seq<BookingAddonDto>,
                         cancellationReason: Option<string>): Result<Booking>
  {
    if professionalId !in professionals then Err(NotFound)
    else if serviceId !in services then Err(NotFound)
    else if bookingDate.None? then Err(NullPointer)
    else
      var start := bookingDate.value;
      var end := start + CreateDuration(services[serviceId]);
      if !SlotAvailable(store, professionalId, start, end, None) then Err(Conflict)
      else match BookingTotal(services[serviceId], addons, Some(start), Some(end))
        case Err(e) => Err(e)
        case Ok(total) =>
          Ok(Booking(nextId, customerId, professionalId, serviceId, addressId, start, end,
                     Pending, total, cancellationReason))
  }

  /** A saved booking is PENDING, lasts the service duration (60 minutes when
      the service has none), is priced by calculateBookingTotal, and met no
      booking of its professional, of any status, under the closed test. */
  lemma CreateSavesPendingBooking(store: seq<Booking>, professionals: set<nat>, services: map<nat, CatalogService>,
                                  nextId: nat, customerId: nat, professionalId: nat, serviceId: nat, addressId: nat,
                                  bookingDate: Option<int>, addons: seq<BookingAddonDto>,
                                  cancellationReason: Option<string>)
    requires CreateOutcome(store, professionals, services, nextId, customerId, professionalId, serviceId, addressId,
                           bookingDate, addons, cancellationReason).Ok?
    ensures var b := CreateOutcome(store, professionals, services, nextId, customerId, professionalId, serviceId,
                                   addressId, bookingDate, addons, cancellationReason).value;
            professionalId in professionals && serviceId in services && bookingDate == Some(b.bookingDate) &&
            b.status == Pending && b.id == nextId && b.professionalId == professionalId &&
            b.endDate == b.bookingDate + (if services[serviceId].durationInMinutes.Some?
                                          then services[serviceId].durationInMinutes.value else 60) &&
            BookingTotal(services[serviceId], addons, Some(b.bookingDate), Some(b.endDate)) == Ok(b.totalAmount) &&
            forall i :: 0 <= i < |store| && store[i].professionalId == professionalId ==>
                          !ConflictsWith(store[i], professionalId, b.bookingDate, b.endDate)
  {
    var b := CreateOutcome(store, professionals, services, nextId, customerId, professionalId, serviceId,
                           addressId, bookingDate, addons, cancellationReason).value;
    SlotAvailableIff(store, professionalId, b.bookingDate, b.endDate, None);
  }

  /** The checks run in source order: an unknown professional wins over an
      unknown service, which wins over a conflict. */
  lemma CreateCheckOrder(store: seq<Booking>, professionals: set<nat>, services: map<nat, CatalogService>,
                         nextId: nat, customerId: nat, professionalId: nat, serviceId: nat, addressId: nat,
                         bookingDate: Option<int>, addons: seq<BookingAddonDto>,
                         cancellationReason: Option<string>)
    ensures professionalId !in professionals ==>
              CreateOutcome(store, professionals, services, nextId, customerId, professionalId, serviceId, addressId,
                            bookingDate, addons, cancellationReason) == Err(NotFound)
    ensures professionalId in professionals && serviceId !in services ==>
              CreateOutcome(store, professionals, services, nextId, customerId, professionalId, serviceId, addressId,
                            bookingDate, addons, cancellationReason) == Err(NotFound)
    ensures professionalId in professionals && serviceId in services && bookingDate.Some? &&
            !SlotAvailable(store, professionalId, bookingDate.value,
                           bookingDate.value + CreateDuration(services[serviceId]), None) ==>
              CreateOutcome(store, professionals, services, nextId, customerId, professionalId, serviceId, addressId,
                            bookingDate, addons, cancellationReason) == Err(Conflict)
  {
  }

  /** Appending a booking whose window is available for its professional,
      under an id above every stored one, keeps ids distinct and keeps every
      professional's bookings apart. */
  lemma {:induction false} AppendAvailablePreservesNoOverlap(store: seq<Booking>, b: Booking)
    requires UniqueIds(store) && NoOverlap(store)
    requires forall i :: 0 <= i < |store| ==> store[i].id < b.id
    requires SlotAvailable(store, b.professionalId, b.bookingDate, b.endDate, None)
    ensures UniqueIds(store + [b]) && NoOverlap(store + [b])
  {
    SlotAvailableIff(store, b.professionalId, b.bookingDate, b.endDate, None);
    var s := store + [b];
    forall i, j | 0 <= i < |s| && 0 <= j < |s| && i != j && s[i].professionalId == s[j].professionalId
      ensures Apart(s[i], s[j])
    {
      if i == |store| {
        assert !ConflictsWith(store[j], b.professionalId, b.bookingDate, b.endDate);
      } else if j == |store| {
        assert !ConflictsWith(store[i], b.professionalId, b.bookingDate, b.endDate);
      }
    }
  }

  /** So createBooking keeps the invariant. */
  lemma CreatePreservesNoOverlap(store: seq<Booking>, professionals: set<nat>, services: map<nat, CatalogService>,
                                 nextId: nat, customerId: nat, professionalId: nat, serviceId: nat, addressId: nat,
                                 bookingDate: Option<int>, addons: seq<BookingAddonDto>,
                                 cancellationReason: Option<string>)
    requires UniqueIds(store) && NoOverlap(store)
    requires forall i :: 0 <= i < |store| ==> store[i].id < nextId
    requires CreateOutcome(store, professionals, services, nextId, customerId, professionalId, serviceId, addressId,
                           bookingDate, addons, cancellationReason).Ok?
    ensures var b := CreateOutcome(store, professionals, services, nextId, customerId, professionalId, serviceId,
                                   addressId, bookingDate, addons, cancellationReason).value;
            UniqueIds(store + [b]) && NoOverlap(store + [b])
  {
    AppendAvailablePreservesNoOverlap(store, CreateOutcome(store, professionals, services, nextId, customerId,
                                      professionalId, serviceId, addressId, bookingDate, addons, cancellationReason).value);
  }

  /** Once a booking of non-negative length is saved, a second request for
      the same professional, service and start is refused as a conflict,
      whoever asks and whatever add-ons it selects. */
  lemma SameSlotTwiceConflicts(store: seq<Booking>, professionals: set<nat>, services: map<nat, CatalogService>,
                               nextId: nat, customerId: nat, professionalId: nat, serviceId: nat, addressId: nat,
                               bookingDate: Option<int>, addons: seq<BookingAddonDto>, cancellationReason: Option<string>,
                               otherCustomerId: nat, otherAddressId: nat, otherAddons: seq<BookingAddonDto>)
    requires CreateOutcome(store, professionals, services, nextId, customerId, professionalId, serviceId, addressId,
                           bookingDate, addons, cancellationReason).Ok?
    requires CreateDuration(services[serviceId]) >= 0
    ensures var b := CreateOutcome(store, professionals, services, nextId, customerId, professionalId, serviceId,
                                   addressId, bookingDate, addons, cancellationReason).value;
            CreateOutcome(store + [b], professionals, services, nextId + 1, otherCustomerId, professionalId, serviceId,
                          otherAddressId, bookingDate, otherAddons, None) == Err(Conflict)
  {
    var b := CreateOutcome(store, professionals, services, nextId, customerId, professionalId, serviceId,
                           addressId, bookingDate, addons, cancellationReason).value;
    var s := store + [b];
    assert s[|store|] == b && ConflictsWith(b, professionalId, b.bookingDate, b.endDate);
    SlotAvailableIff(s, professionalId, b.bookingDate, b.endDate, None);
  }

  // ---------------------------------------------------------------------
  // rescheduleBooking

  /** booking.getService().getDurationInMinutes(), unboxed: a null duration
      (or a booking without its service) is a NullPointerException. */
  function ServiceDuration(services: map<nat, CatalogService>, serviceId: nat): Option<int> {
    if serviceId in services then services[serviceId].durationInMinutes else None
  }

  /** The table after rescheduleBooking, or the exception it throws. */
  function RescheduleOutcome(store: seq<Booking>, services: map<nat, CatalogService>, bookingId: nat, newDateTime: int): Result<seq<Booking>>
  {
    match FindById(store, bookingId)
    case None => Err(NotFound)
    case Some(i) =>
      var b := store[i];
      if b.status != Pending && b.status != Confirmed then Err(InvalidState)
      else match ServiceDuration(services, b.serviceId)
        case None => Err(NullPointer)
        case Some(d) =>
          if !SlotAvailable(store, b.professionalId, newDateTime, newDateTime + d, Some(bookingId)) then Err(Conflict)
          else Ok(store[i := b.(bookingDate := newDateTime, endDate := newDateTime + d, status := Rescheduled)])
  }

  /** When the lookup, the status, the duration and the conflict check all
      pass, rescheduling moves the found booking. */
  lemma RescheduleOutcomeWhenAvailable(store: seq<Booking>, services: map<nat, CatalogService>, bookingId: nat,
                                       newDateTime: int, i: nat, d: int)
    requires FindById(store, bookingId) == Some(i)
    requires store[i].status == Pending || store[i].status == Confirmed
    requires ServiceDuration(services, store[i].serviceId) == Some(d)
    requires SlotAvailable(store, store[i].professionalId, newDateTime, newDateTime + d, Some(bookingId))
    ensures RescheduleOutcome(store, services, bookingId, newDateTime) ==
            Ok(store[i := store[i].(bookingDate := newDateTime, endDate := newDateTime + d, status := Rescheduled)])
  {
  }

  /** Rescheduling succeeds only from PENDING or CONFIRMED; it moves the
      window to [newDateTime, newDateTime + duration], marks the booking
      RESCHEDULED, keeps its price, and touches no other row. */
  lemma RescheduleMovesOnlyThatBooking(store: seq<Booking>, services: map<nat, CatalogService>, bookingId: nat, newDateTime: int)
    requires RescheduleOutcome(store, services, bookingId, newDateTime).Ok?
    ensures var s1 := RescheduleOutcome(store, services, bookingId, newDateTime).value;
            FindById(store, bookingId).Some? &&
            var i := FindById(store, bookingId).value;
            (store[i].status == Pending || store[i].status == Confirmed) &&
            ServiceDuration(services, store[i].serviceId).Some? &&
            |s1| == |store| &&
            s1[i] == store[i].(bookingDate := newDateTime,
                               endDate := newDateTime + ServiceDuration(services, store[i].serviceId).value,
                               status := Rescheduled) &&
            s1[i].totalAmount == store[i].totalAmount &&
            forall j :: 0 <= j < |store| && j != i ==> s1[j] == store[j]
  {
  }

  /** A rescheduled booking cannot be rescheduled again. */
  lemma RescheduleOnlyOnce(store: seq<Booking>, services: map<nat, CatalogService>, bookingId: nat, t1: int, t2: int)
    requires RescheduleOutcome(store, services, bookingId, t1).Ok?
    ensures RescheduleOutcome(RescheduleOutcome(store, services, bookingId, t1).value, services, bookingId, t2) == Err(InvalidState)
  {
    var i := FindById(store, bookingId).value;
    var s1 := RescheduleOutcome(store, services, bookingId, t1).value;
    FindByIdAfterUpdate(store, bookingId, s1[i]);
  }

  /** Replacing a booking by one with the same id and professional whose
      window is available when that id is excluded keeps ids distinct and
      every professional's bookings apart. */
  lemma {:induction false} MoveAvailablePreservesNoOverlap(store: seq<Booking>, i: nat, x: Booking)
    requires UniqueIds(store) && NoOverlap(store) && i < |store|
    requires x.id == store[i].id && x.professionalId == store[i].professionalId
    requires SlotAvailable(store, x.professionalId, x.bookingDate, x.endDate, Some(x.id))
    ensures UniqueIds(store[i := x]) && NoOverlap(store[i := x])
  {
    var p := x.professionalId;
    SlotAvailableIff(store, p, x.bookingDate, x.endDate, Some(x.id));
    var s1 := store[i := x];
    forall j, k | 0 <= j < |s1| && 0 <= k < |s1| && j != k && s1[j].professionalId == s1[k].professionalId
      ensures Apart(s1[j], s1[k])
    {
      if j == i {
        assert store[k].id != x.id;
        assert !ConflictsWith(store[k], p, x.bookingDate, x.endDate);
      } else if k == i {
        assert store[j].id != x.id;
        assert !ConflictsWith(store[j], p, x.bookingDate, x.endDate);
      } else {
        assert Apart(store[j], store[k]);
      }
    }
  }

  /** So rescheduleBooking keeps the invariant. */
  lemma ReschedulePreservesNoOverlap(store: seq<Booking>, services: map<nat, CatalogService>, bookingId: nat, newDateTime: int)
    requires UniqueIds(store) && NoOverlap(store)
    requires RescheduleOutcome(store, services, bookingId, newDateTime).Ok?
    ensures UniqueIds(RescheduleOutcome(store, services, bookingId, newDateTime).value)
    ensures NoOverlap(RescheduleOutcome(store, services, bookingId, newDateTime).value)
  {
    var i := FindById(store, bookingId).value;
    var s1 := RescheduleOutcome(store, services, bookingId, newDateTime).value;
    MoveAvailablePreservesNoOverlap(store, i, s1[i]);
  }

  // ---------------------------------------------------------------------
  // cancelBooking and completeBooking

  /** The table after cancelBooking, or NotFound. An already cancelled
      booking is left as it is. */
  function CancelOutcome(store: seq<Booking>, bookingId: nat, reason: Option<string>): Result<seq<Booking>>
  {
    match FindById(store, bookingId)
    case None => Err(NotFound)
    case Some(i) =>
      if store[i].status == Cancelled then Ok(store)
      else Ok(store[i := store[i].(status := Cancelled, cancellationReason := reason)])
  }

  /** Cancelling is allowed from every status but CANCELLED; it sets the
      status and the reason and nothing else, on that booking only. */
  lemma CancelSetsStatusAndReason(store: seq<Booking>, bookingId: nat, reason: Option<string>)
    requires FindById(store, bookingId).Some?
    ensures var i := FindById(store, bookingId).value;
            var s1 := CancelOutcome(store, bookingId, reason).value;
            CancelOutcome(store, bookingId, reason).Ok? && |s1| == |store| &&
            s1[i].status == Cancelled &&
            (store[i].status != Cancelled ==> s1[i] == store[i].(status := Cancelled, cancellationReason := reason)) &&
            (store[i].status == Cancelled ==> s1 == store) &&
            forall j :: 0 <= j < |store| && j != i ==> s1[j] == store[j]
  {
  }

  /** Cancelling twice is cancelling once, whatever the second reason: the
      first reason is kept. */
  lemma CancelIdempotent(store: seq<Booking>, bookingId: nat, reason1: Option<string>, reason2: Option<string>)
    requires CancelOutcome(store, bookingId, reason1).Ok?
    ensures CancelOutcome(CancelOutcome(store, bookingId, reason1).value, bookingId, reason2) == CancelOutcome(store, bookingId, reason1)
  {
    var i := FindById(store, bookingId).value;
    var s1 := CancelOutcome(store, bookingId, reason1).value;
    if store[i].status != Cancelled {
      FindByIdAfterUpdate(store, bookingId, s1[i]);
    }
  }

  /** The table after completeBooking, or the exception it throws. */
  function CompleteOutcome(store: seq<Booking>, bookingId: nat): Result<seq<Booking>>
  {
    match FindById(store, bookingId)
    case None => Err(NotFound)
    case Some(i) =>
      if store[i].status != InProgress then Err(InvalidState)
      else Ok(store[i := store[i].(status := Completed)])
  }

  /** Completing succeeds exactly for a stored IN_PROGRESS booking, and then
      changes only that booking's status, to COMPLETED. */
  lemma CompleteOnlyFromInProgress(store: seq<Booking>, bookingId: nat)
    ensures CompleteOutcome(store, bookingId).Ok? <==>
            FindById(store, bookingId).Some? && store[FindById(store, bookingId).value].status == InProgress
    ensures FindById(store, bookingId).Some? && store[FindById(store, bookingId).value].status != InProgress ==>
              CompleteOutcome(store, bookingId) == Err(InvalidState)
    ensures CompleteOutcome(store, bookingId).Ok? ==>
              var i := FindById(store, bookingId).value;
              CompleteOutcome(store, bookingId).value == store[i := store[i].(status := Completed)]
  {
  }

  /** Since no booking can reach IN_PROGRESS, completeBooking can only fail
      on a table whose every row was produced by the service. */
  lemma CompleteFailsWithoutInProgress(store: seq<Booking>, bookingId: nat)
    requires forall i :: 0 <= i < |store| ==> !Unreachable(store[i].status)
    ensures CompleteOutcome(store, bookingId).Err?
  {
  }

  /** Status-only changes keep every professional's bookings apart. */
  lemma {:induction false} StatusChangePreservesNoOverlap(store: seq<Booking>, i: nat, x: Booking)
    requires UniqueIds(store) && NoOverlap(store) && i < |store|
    requires x.id == store[i].id && x.professionalId == store[i].professionalId
    requires x.bookingDate == store[i].bookingDate && x.endDate == store[i].endDate
    ensures UniqueIds(store[i := x]) && NoOverlap(store[i := x])
  {
    var s1 := store[i := x];
    forall j, k | 0 <= j < |s1| && 0 <= k < |s1| && j != k && s1[j].professionalId == s1[k].professionalId
      ensures Apart(s1[j], s1[k])
    {
      assert Apart(store[j], store[k]);
    }
  }

  /** Cancelling and completing keep the invariant. */
  lemma CancelAndCompletePreserveNoOverlap(store: seq<Booking>, bookingId: nat, reason: Option<string>)
    requires UniqueIds(store) && NoOverlap(store)
    ensures CancelOutcome(store, bookingId, reason).Ok? ==>
              UniqueIds(CancelOutcome(store, bookingId, reason).value) && NoOverlap(CancelOutcome(store, bookingId, reason).value)
    ensures CompleteOutcome(store, bookingId).Ok? ==>
              UniqueIds(CompleteOutcome(store, bookingId).value) && NoOverlap(CompleteOutcome(store, bookingId).value)
  {
    match FindById(store, bookingId)
    case None =>
    case Some(i) =>
      StatusChangePreservesNoOverlap(store, i, store[i].(status := Cancelled, cancellationReason := reason));
      StatusChangePreservesNoOverlap(store, i, store[i].(status := Completed));
  }

  /** No operation produces CONFIRMED or IN_PROGRESS: create saves PENDING,
      reschedule sets RESCHEDULED, cancel CANCELLED and complete COMPLETED. */
  lemma {:induction false} NoOperationReachesConfirmedOrInProgress(store: seq<Booking>, services: map<nat, CatalogService>,
                                                                  bookingId: nat, newDateTime: int, reason: Option<string>,
                                                                  created: Booking)
    requires created.status == Pending
    ensures NoNewUnreachable(store, store + [created])
    ensures RescheduleOutcome(store, services, bookingId, newDateTime).Ok? ==>
              NoNewUnreachable(store, RescheduleOutcome(store, services, bookingId, newDateTime).value)
    ensures CancelOutcome(store, bookingId, reason).Ok? ==>
              NoNewUnreachable(store, CancelOutcome(store, bookingId, reason).value)
    ensures CompleteOutcome(store, bookingId).Ok? ==>
              NoNewUnreachable(store, CompleteOutcome(store, bookingId).value)
  {
    var s := store + [created];
    forall j | 0 <= j < |s| && Unreachable(s[j].status)
      ensures j < |store| && store[j] == s[j]
    {
    }
  }
}
