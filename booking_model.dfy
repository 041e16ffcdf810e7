/** The values the scheduling engine works on: booking status, the stored
    booking row, the catalog view of a service, the add-on selection DTO
    and the booking DTO. Timestamps are whole minutes since an epoch at
    midnight; money is whole cents. */
module BookingModel {
  import opened Common

  /** model/enums/BookingStatus.java */
  datatype BookingStatus = Pending | Confirmed | InProgress | Completed | Cancelled | Rejected | Expired | Rescheduled

  const MinutesPerDay: int := 1440
  const MinutesPerHour: int := 60

  /** The calendar day a timestamp falls on (floor division). */
  function Day(t: int): int {
    t / MinutesPerDay
  }

  /** `t.with(LocalTime.MIN)`: midnight at the start of t's day. */
  function DayStart(t: int): (r: int)
    ensures r <= t < r + MinutesPerDay
    ensures Day(r) == Day(t)
  {
    Day(t) * MinutesPerDay
  }

  /** `t.with(LocalTime.MAX)` at minute resolution: the day's last minute. */
  function DayEnd(t: int): (r: int)
    ensures Day(r) == Day(t) && Day(r + 1) == Day(t) + 1
  {
    DayStart(t) + MinutesPerDay - 1
  }

  /** A timestamp lies in the closed window [DayStart(d), DayEnd(d)] exactly
      when it falls on d's calendar day. */
  lemma SameDayWindow(d: int, t: int)
    ensures DayStart(d) <= t <= DayEnd(d) <==> Day(t) == Day(d)
  {
    if DayStart(d) <= t <= DayEnd(d) {
      assert Day(d) * MinutesPerDay <= t < (Day(d) + 1) * MinutesPerDay;
    }
  }

  /** A persisted row of the bookings table (model/Booking.java) as the
      service layer reads and writes it. */
  datatype Booking = Booking(
    id: nat,
    customerId: nat,
    professionalId: nat,
    serviceId: nat,
    addressId: nat,
    bookingDate: int,
    endDate: int,
    status: BookingStatus,
    totalAmount: int,
    cancellationReason: Option<string>)

  /** The part of a catalog add-on (model/ServiceAddon.java) pricing reads. */
  datatype CatalogAddon = CatalogAddon(id: nat, price: int)

  /** The part of a catalog service (model/Service.java) the engine reads:
      its base price, its nullable duration and its add-on set. */
  datatype CatalogService = CatalogService(basePrice: int, durationInMinutes: Option<int>, addons: seq<CatalogAddon>)

  /** dto/BookingAddonDto.java. `id` is the inherited BaseDto id, distinct
      from `addonId`. */
  datatype BookingAddonDto = BookingAddonDto(
    id: Option<nat>,
    addonId: Option<nat>,
    name: Option<string>,
    price: Option<int>,
    quantity: Option<int>)

  /** `new BookingAddonDto()`: every field null except quantity = 1. */
  function NewBookingAddonDto(): (d: BookingAddonDto)
    ensures d.quantity == Some(1)
    ensures d.id.None? && d.addonId.None? && d.name.None? && d.price.None?
  {
    BookingAddonDto(None, None, None, None, Some(1))
  }

  /** BookingAddonDto.getTotalPrice(): price x quantity, and zero as soon
      as either is null. */
  function TotalPrice(d: BookingAddonDto): int {
    if d.price.None? || d.quantity.None? then 0 else d.price.value * d.quantity.value
  }

  /** A null price or a null quantity prices the line at zero; otherwise the
      line costs price x quantity. */
  lemma TotalPriceCases(d: BookingAddonDto)
    ensures d.price.None? ==> TotalPrice(d) == 0
    ensures d.quantity.None? ==> TotalPrice(d) == 0
    ensures d.price.Some? && d.quantity.Some? ==> TotalPrice(d) == d.price.value * d.quantity.value
  {
  }

  /** A fresh DTO whose price has been set costs exactly that price, since
      its quantity starts at one. */
  lemma FreshAddonDtoCostsItsPrice(p: int)
    ensures TotalPrice(NewBookingAddonDto().(price := Some(p))) == p
  {
  }

  /** The line total is additive in the quantity. */
  lemma {:induction false} TotalPriceAdditive(d: BookingAddonDto, q1: int, q2: int)
    requires d.price.Some?
    ensures TotalPrice(d.(quantity := Some(q1 + q2)))
         == TotalPrice(d.(quantity := Some(q1))) + TotalPrice(d.(quantity := Some(q2)))
  {
    var p := d.price.value;
    assert p * (q1 + q2) == p * q1 + p * q2;
  }

  /** dto/BookingDto.java: the request and response shape of a booking. The
      service mutates it (endDate, status, totalAmount), so it is an object. */
  class BookingDto {
    var customerId: nat
    var professionalId: nat
    var serviceId: nat
    var addressId: nat
    var bookingDate: Option<int>
    var endDate: Option<int>
    var status: Option<BookingStatus>
    var totalAmount: Option<int>
    var addons: seq<BookingAddonDto>
    var cancellationReason: Option<string>

    constructor (customerId: nat, professionalId: nat, serviceId: nat, addressId: nat,
                 bookingDate: Option<int>, addons: seq<BookingAddonDto>)
      ensures this.customerId == customerId && this.professionalId == professionalId
      ensures this.serviceId == serviceId && this.addressId == addressId
      ensures this.bookingDate == bookingDate && this.addons == addons
      ensures endDate.None? && status.None? && totalAmount.None? && cancellationReason.None?
    {
      this.customerId := customerId;
      this.professionalId := professionalId;
      this.serviceId := serviceId;
      this.addressId := addressId;
      this.bookingDate := bookingDate;
      this.addons := addons;
      endDate := None;
      status := None;
      totalAmount := None;
      cancellationReason := None;
    }

    /** calculateEndDate: with a booking date and a positive duration the end
        becomes date + duration; otherwise nothing changes. Only endDate is
        ever written. */
    method CalculateEndDate(serviceDurationInMinutes: int)
      modifies this`endDate
      ensures bookingDate.Some? && serviceDurationInMinutes > 0 ==>
                endDate == Some(bookingDate.value + serviceDurationInMinutes)
      ensures bookingDate.None? || serviceDurationInMinutes <= 0 ==> endDate == old(endDate)
    {
      if bookingDate.Some? && serviceDurationInMinutes > 0 {
        endDate := Some(bookingDate.value + serviceDurationInMinutes);
      }
    }
  }
}
