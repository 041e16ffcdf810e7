/** service/impl/BookingServiceImpl.java: the booking service over its
    bookings table, with the professional and service catalog it reads. The
    lifecycle methods are proved against the transition functions of
    Lifecycle, the two availability methods against SlotFinder and the
    pricing method against Pricing; every state-changing method keeps the
    invariant that a professional's bookings never meet. */
module Scheduling {
  import opened Common
  import opened BookingModel
  import opened BookingRepository
  import opened SlotFinder
  import opened Pricing
  import opened Lifecycle

  /** The bookings the daily reminder sweep selects: those starting on the
      calendar day after `now` (findByBookingDateBetween with tomorrow's
      LocalTime.MIN and LocalTime.MAX). */
  function TomorrowBookings(store: seq<Booking>, now: int): seq<Booking> {
    FindByBookingDateBetween(store, DayStart(now + MinutesPerDay), DayEnd(now + MinutesPerDay))
  }

  /** The sweep selects exactly the bookings whose start falls on the day
      after `now`, whatever their status. */
  lemma TomorrowBookingsAreNextDay(store: seq<Booking>, now: int, b: Booking)
    ensures b in TomorrowBookings(store, now) <==> b in store && Day(b.bookingDate) == Day(now) + 1
  {
    SameDayWindow(now + MinutesPerDay, b.bookingDate);
    assert Day(now + MinutesPerDay) == Day(now) + 1;
  }

  /** The bookings table's invariant: ids are distinct and below nextId,
      every booking's service exists, and no two bookings of one
      professional meet. */
  ghost predicate Stored(bookings: seq<Booking>, nextId: nat, services: map<nat, CatalogService>) {
    UniqueIds(bookings) && NoOverlap(bookings) &&
    (forall i :: 0 <= i < |bookings| ==> bookings[i].id < nextId) &&
    (forall i :: 0 <= i < |bookings| ==> bookings[i].serviceId in services)
  }

  /** Appending an available booking under the next id, for a known service,
      keeps the invariant with the counter moved on. */
  lemma StoredAfterAppend(bookings: seq<Booking>, nextId: nat, services: map<nat, CatalogService>, b: Booking)
    requires Stored(bookings, nextId, services) && b.id == nextId && b.serviceId in services
    requires SlotAvailable(bookings, b.professionalId, b.bookingDate, b.endDate, None)
    ensures Stored(bookings + [b], nextId + 1, services)
  {
    AppendAvailablePreservesNoOverlap(bookings, b);
  }

  /** Moving one booking to a window that is available when its own id is
      excluded, keeping its id, professional and service, keeps the
      invariant. */
  lemma StoredAfterMove(bookings: seq<Booking>, nextId: nat, services: map<nat, CatalogService>, i: nat, x: Booking)
    requires Stored(bookings, nextId, services) && i < |bookings|
    requires x.id == bookings[i].id && x.professionalId == bookings[i].professionalId && x.serviceId == bookings[i].serviceId
    requires SlotAvailable(bookings, x.professionalId, x.bookingDate, x.endDate, Some(x.id))
    ensures Stored(bookings[i := x], nextId, services)
  {
    MoveAvailablePreservesNoOverlap(bookings, i, x);
  }

  class BookingService {
    /** The bookings table, in insertion order. */
    var bookings: seq<Booking>
    /** The identity the next saved booking receives. */
    var nextId: nat
    /** Ids of the stored professionals (ProfessionalRepository.findById). */
    const professionals: set<nat>
    /** The stored services by id (ServiceRepository.findById). */
    const services: map<nat, CatalogService>

    /** The table keeps its invariant. */
    ghost predicate Valid()
      reads this
    {
      Stored(bookings, nextId, services)
    }

    constructor (professionals: set<nat>, services: map<nat, CatalogService>)
      ensures Valid()
      ensures bookings == [] && nextId == 1
      ensures this.professionals == professionals && this.services == services
    {
      bookings := [];
      nextId := 1;
      this.professionals := professionals;
      this.services := services;
    }

    /** isTimeSlotAvailable: fetch the conflicting bookings, drop the excluded
        id with removeIf, and answer whether none is left. */
    method IsTimeSlotAvailable(professionalId: nat, startTime: int, endTime: int, excludeBookingId: Option<nat>)
      returns (available: bool)
      ensures available == SlotAvailable(bookings, professionalId, startTime, endTime, excludeBookingId)
    {
      var conflicting := FindConflictingBookings(bookings, professionalId, startTime, endTime);
      if excludeBookingId.Some? {
        conflicting := RemoveIfId(conflicting, excludeBookingId.value);
      } else {
        FilterKeepsAll(conflicting, NotExcluded(None));
      }
      available := |conflicting| == 0;
    }

    /** findAvailableTimeSlots: step a slot of the given length through the
        working day in 30-minute strides and keep those that strictly overlap
        none of the professional's bookings of that day. */
    method FindAvailableTimeSlots(professionalId: nat, date: int, durationInMinutes: int)
      returns (slots: seq<int>)
      ensures slots == AvailableSlots(bookings, professionalId, date, durationInMinutes)
    {
      var dayBookings := FindByProfessionalIdAndBookingDateBetween(bookings, professionalId, DayStart(date), DayEnd(date));
      var close := DayStart(date) + WorkEndMinute;
      slots := [];
      var slotStart := DayStart(date) + WorkStartMinute;
      var slotEnd := slotStart + durationInMinutes;
      while slotEnd < close
        invariant slotEnd == slotStart + durationInMinutes
        invariant slots + SlotsFrom(dayBookings, close, durationInMinutes, slotStart)
               == AvailableSlots(bookings, professionalId, date, durationInMinutes)
        decreases close - slotEnd
      {
        var isAvailable := true;
        var k := 0;
        while k < |dayBookings|
          invariant 0 <= k <= |dayBookings|
          invariant isAvailable
          invariant forall j :: 0 <= j < k ==>
                      !IsTimeSlotOverlap(slotStart, slotEnd, dayBookings[j].bookingDate, dayBookings[j].endDate)
        {
          if IsTimeSlotOverlap(slotStart, slotEnd, dayBookings[k].bookingDate, dayBookings[k].endDate) {
            isAvailable := false;
            break;
          }
          k := k + 1;
        }
        assert isAvailable <==> !OverlapsAny(dayBookings, slotStart, slotEnd);
        if isAvailable {
          slots := slots + [slotStart];
        }
        slotStart := slotStart + SlotStep;
        slotEnd := slotStart + durationInMinutes;
      }
    }

    /** calculateBookingTotal's `for` loop over the matched add-ons: each
        price is added to the running total. */
    method AddPrices(start: int, addons: seq<CatalogAddon>) returns (total: int)
      ensures total == start + SumPrices(addons)
    {
      total := start;
      for i := 0 to |addons|
        invariant total == start + SumPrices(addons[..i])
      {
        assert addons[..i + 1][..i] == addons[..i];
        total := total + addons[i].price;
      }
      assert addons[..|addons|] == addons;
    }

    /** calculateBookingTotal: NotFound for an unknown service, otherwise the
        base price plus each matched catalog add-on, then the hour
        multiplier. */
    method CalculateBookingTotal(dto: BookingDto) returns (r: Result<int>)
      ensures dto.serviceId !in services ==> r == Err(NotFound)
      ensures dto.serviceId in services ==>
                r == BookingTotal(services[dto.serviceId], dto.addons, dto.bookingDate, dto.endDate)
    {
      if dto.serviceId !in services {
        return Err(NotFound);
      }
      var service := services[dto.serviceId];
      var total := service.basePrice;
      if |dto.addons| > 0 {
        var matched := MatchedAddons(service.addons, dto.addons);
        if matched.Err? {
          return Err(matched.error);
        }
        total := AddPrices(total, matched.value);
      }
      if dto.bookingDate.Some? && dto.endDate.Some? {
        var hours := WholeHours(dto.bookingDate.value, dto.endDate.value);
        if hours > 1 {
          total := total * hours;
        }
      }
      r := Ok(total);
    }

    /** createBooking. On success the table gains one PENDING booking with the
        next id; on any failure it is unchanged. Once the window has passed
        the conflict check the DTO carries the end date and PENDING, and on
        success also the total, as the source sets them before saving. */
    method CreateBooking(dto: BookingDto) returns (r: Result<Booking>)
      requires Valid()
      modifies this, dto`endDate, dto`status, dto`totalAmount
      ensures Valid()
      ensures r == CreateOutcome(old(bookings), professionals, services, old(nextId),
                                 dto.customerId, dto.professionalId, dto.serviceId, dto.addressId,
                                 dto.bookingDate, dto.addons, dto.cancellationReason)
      ensures r.Ok? ==> bookings == old(bookings) + [r.value] && nextId == old(nextId) + 1
      ensures r.Err? ==> bookings == old(bookings) && nextId == old(nextId)
      ensures r.Ok? || (r == Err(NullPointer) && dto.bookingDate.Some?) ==>
                dto.endDate == Some(dto.bookingDate.value + CreateDuration(services[dto.serviceId])) &&
                dto.status == Some(Pending)
      ensures !(r.Ok? || (r == Err(NullPointer) && dto.bookingDate.Some?)) ==>
                dto.endDate == old(dto.endDate) && dto.status == old(dto.status)
      ensures r.Ok? ==> dto.totalAmount == Some(r.value.totalAmount)
      ensures r.Err? ==> dto.totalAmount == old(dto.totalAmount)
    {
      ghost var outcome := CreateOutcome(bookings, professionals, services, nextId,
                                         dto.customerId, dto.professionalId, dto.serviceId, dto.addressId,
                                         dto.bookingDate, dto.addons, dto.cancellationReason);
      if dto.professionalId !in professionals {
        assert outcome == Err(NotFound);
        return Err(NotFound);
      }
      if dto.serviceId !in services {
        assert outcome == Err(NotFound);
        return Err(NotFound);
      }
      if dto.bookingDate.None? {
        assert outcome == Err(NullPointer);
        return Err(NullPointer);
      }
      var startTime := dto.bookingDate.value;
      var duration := CreateDuration(services[dto.serviceId]);
      var endTime := startTime + duration;
      var available := IsTimeSlotAvailable(dto.professionalId, startTime, endTime, None);
      if !available {
        assert outcome == Err(Conflict);
        return Err(Conflict);
      }
      dto.endDate := Some(endTime);
      dto.status := Some(Pending);
      var total := CalculateBookingTotal(dto);
      assert total == BookingTotal(services[dto.serviceId], dto.addons, Some(startTime), Some(endTime));
      if total.Err? {
        assert outcome == Err(total.error);
        return Err(total.error);
      }
      dto.totalAmount := Some(total.value);
      var booking := Booking(nextId, dto.customerId, dto.professionalId, dto.serviceId, dto.addressId,
                             startTime, endTime, Pending, total.value, dto.cancellationReason);
      assert outcome == Ok(booking);
      SaveNew(booking);
      r := Ok(booking);
    }

    /** rescheduleBooking: the table becomes the one RescheduleOutcome gives,
        and the moved booking is returned; on failure nothing changes. */
    method RescheduleBooking(bookingId: nat, newDateTime: int) returns (r: Result<Booking>)
      requires Valid()
      modifies this`bookings
      ensures Valid()
      ensures RescheduleOutcome(old(bookings), services, bookingId, newDateTime).Ok? ==>
                bookings == RescheduleOutcome(old(bookings), services, bookingId, newDateTime).value &&
                r == Ok(bookings[FindById(old(bookings), bookingId).value])
      ensures RescheduleOutcome(old(bookings), services, bookingId, newDateTime).Err? ==>
                bookings == old(bookings) &&
                r == Err(RescheduleOutcome(old(bookings), services, bookingId, newDateTime).error)
    {
      ghost var outcome := RescheduleOutcome(bookings, services, bookingId, newDateTime);
      var found := FindById(bookings, bookingId);
      if found.None? {
        assert outcome == Err(NotFound);
        return Err(NotFound);
      }
      var i := found.value;
      var booking := bookings[i];
      if booking.status != Pending && booking.status != Confirmed {
        assert outcome == Err(InvalidState);
        return Err(InvalidState);
      }
      var duration := ServiceDuration(services, booking.serviceId);
      if duration.None? {
        assert outcome == Err(NullPointer);
        return Err(NullPointer);
      }
      var newEndTime := newDateTime + duration.value;
      var available := IsTimeSlotAvailable(booking.professionalId, newDateTime, newEndTime, Some(bookingId));
      if !available {
        assert outcome == Err(Conflict);
        return Err(Conflict);
      }
      var updated := booking.(bookingDate := newDateTime, endDate := newEndTime, status := Rescheduled);
      RescheduleOutcomeWhenAvailable(bookings, services, bookingId, newDateTime, i, duration.value);
      SaveMoved(i, updated);
      r := Ok(updated);
      assert i == FindById(old(bookings), bookingId).value;
    }

    /** bookingRepository.save of a new booking: appended under the next
        id, which moves on. */
    method SaveNew(b: Booking)
      requires Valid() && b.id == nextId && b.serviceId in services
      requires SlotAvailable(bookings, b.professionalId, b.bookingDate, b.endDate, None)
      modifies this`bookings, this`nextId
      ensures Valid()
      ensures bookings == old(bookings) + [b] && nextId == old(nextId) + 1
    {
      StoredAfterAppend(bookings, nextId, services, b);
      bookings := bookings + [b];
      nextId := nextId + 1;
    }

    /** bookingRepository.save of a stored booking moved to a window that is
        free once the booking itself is excluded. */
    method SaveMoved(i: nat, x: Booking)
      requires Valid() && i < |bookings|
      requires x.id == bookings[i].id && x.professionalId == bookings[i].professionalId && x.serviceId == bookings[i].serviceId
      requires SlotAvailable(bookings, x.professionalId, x.bookingDate, x.endDate, Some(x.id))
      modifies this`bookings
      ensures Valid()
      ensures bookings == old(bookings)[i := x]
    {
      StoredAfterMove(bookings, nextId, services, i, x);
      bookings := bookings[i := x];
    }

    /** cancelBooking: NotFound, or the table CancelOutcome gives. */
    method CancelBooking(bookingId: nat, reason: Option<string>) returns (r: Outcome)
      requires Valid()
      modifies this`bookings
      ensures Valid()
      ensures CancelOutcome(old(bookings), bookingId, reason).Ok? ==>
                r == Pass && bookings == CancelOutcome(old(bookings), bookingId, reason).value
      ensures CancelOutcome(old(bookings), bookingId, reason).Err? ==>
                r == Fail(NotFound) && bookings == old(bookings)
    {
      CancelAndCompletePreserveNoOverlap(bookings, bookingId, reason);
      var found := FindById(bookings, bookingId);
      if found.None? {
        return Fail(NotFound);
      }
      var i := found.value;
      if bookings[i].status == Cancelled {
        return Pass;
      }
      bookings := bookings[i := bookings[i].(status := Cancelled, cancellationReason := reason)];
      r := Pass;
    }

    /** completeBooking: NotFound, IllegalState unless IN_PROGRESS, or the
        table CompleteOutcome gives. */
    method CompleteBooking(bookingId: nat) returns (r: Outcome)
      requires Valid()
      modifies this`bookings
      ensures Valid()
      ensures CompleteOutcome(old(bookings), bookingId).Ok? ==>
                r == Pass && bookings == CompleteOutcome(old(bookings), bookingId).value
      ensures CompleteOutcome(old(bookings), bookingId).Err? ==>
                r == Fail(CompleteOutcome(old(bookings), bookingId).error) && bookings == old(bookings)
    {
      CancelAndCompletePreserveNoOverlap(bookings, bookingId, None);
      var found := FindById(bookings, bookingId);
      if found.None? {
        return Fail(NotFound);
      }
      var i := found.value;
      if bookings[i].status != InProgress {
        return Fail(InvalidState);
      }
      bookings := bookings[i := bookings[i].(status := Completed)];
      r := Pass;
    }

    /** sendReminderForUpcomingBookings: the ids reminded, in the order the
        query returns tomorrow's bookings. The clock is the parameter. */
    method SendReminderForUpcomingBookings(now: int) returns (reminded: seq<nat>)
      ensures reminded == Ids(TomorrowBookings(bookings, now))
    {
      var tomorrowBookings := FindByBookingDateBetween(bookings, DayStart(now + MinutesPerDay), DayEnd(now + MinutesPerDay));
      reminded := [];
      for i := 0 to |tomorrowBookings|
        invariant |reminded| == i
        invariant forall k :: 0 <= k < i ==> reminded[k] == tomorrowBookings[k].id
      {
        reminded := reminded + [tomorrowBookings[i].id];
      }
    }
  }

  /** `list.removeIf(b -> b.getId().equals(id))` on a list of bookings. */
  method RemoveIfId(list: seq<Booking>, id: nat) returns (kept: seq<Booking>)
    ensures kept == Filter(list, NotExcluded(Some(id)))
  {
    kept := [];
    for k := 0 to |list|
      invariant kept == Filter(list[..k], NotExcluded(Some(id)))
    {
      FilterSnoc(list[..k], list[k], NotExcluded(Some(id)));
      assert list[..k + 1] == list[..k] + [list[k]];
      if list[k].id != id {
        kept := kept + [list[k]];
      }
    }
    assert list[..|list|] == list;
  }
}
