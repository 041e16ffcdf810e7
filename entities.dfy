/** The helpers on the persistent entities that keep the object graph
    consistent in memory: the add-on price snapshot (model/BookingAddon.java),
    adding and removing a booking's add-ons and linking its review
    (model/Booking.java), and the review's back-link to its booking
    (model/Review.java). A reference to a customer, professional or service
    entity is represented by that entity's id. Entities compare by identity,
    as nothing here overrides equals. */
module Entities {
  import opened Common
  import BookingModel

  /** model/ServiceAddon.java: the catalog add-on, whose name and price the
      catalog may edit at any time. */
  class ServiceAddon {
    var serviceId: Option<nat>
    var name: Option<string>
    var price: int

    constructor (serviceId: Option<nat>, name: Option<string>, price: int)
      ensures this.serviceId == serviceId && this.name == name && this.price == price
    {
      this.serviceId := serviceId;
      this.name := name;
      this.price := price;
    }

    /** The Lombok setter setPrice. */
    method SetPrice(price: int)
      modifies this`price
      ensures this.price == price
    {
      this.price := price;
    }

    /** The Lombok setter setName. */
    method SetName(name: Option<string>)
      modifies this`name
      ensures this.name == name
    {
      this.name := name;
    }
  }

  /** model/BookingAddon.java: one add-on line of a booking, with the name
      and price the add-on had when the line was made. */
  class BookingAddon {
    var booking: Booking?
    var addon: ServiceAddon
    var quantity: int
    var priceAtBooking: int
    var nameAtBooking: Option<string>

    /** BookingAddon(booking, addon, quantity): links both and copies the
        add-on's current price and name. (A null add-on would throw; the
        parameter's type excludes it.) */
    constructor (booking: Booking?, addon: ServiceAddon, quantity: int)
      ensures this.booking == booking && this.addon == addon && this.quantity == quantity
      ensures priceAtBooking == addon.price && nameAtBooking == addon.name
    {
      this.booking := booking;
      this.addon := addon;
      this.quantity := quantity;
      priceAtBooking := addon.price;
      nameAtBooking := addon.name;
    }

    /** The Lombok setter setBooking. */
    method SetBooking(booking: Booking?)
      modifies this`booking
      ensures this.booking == booking
    {
      this.booking := booking;
    }
  }

  /** model/Review.java */
  class Review {
    var booking: Booking?
    var customerId: Option<nat>
    var professionalId: Option<nat>
    var serviceId: Option<nat>
    var rating: Option<int>
    var comment: Option<string>
    var isAnonymous: bool
    var adminReviewed: bool

    /** `new Review()`: no links, not anonymous, not yet reviewed by an
        administrator. */
    constructor ()
      ensures booking == null && customerId.None? && professionalId.None? && serviceId.None?
      ensures rating.None? && comment.None?
      ensures !isAnonymous && !adminReviewed
    {
      booking := null;
      customerId := None;
      professionalId := None;
      serviceId := None;
      rating := None;
      comment := None;
      isAnonymous := false;
      adminReviewed := false;
    }

    /** setBooking(b): always links b; a non-null b also hands over its
        customer, professional and service, while null leaves them. */
    method SetBooking(b: Booking?)
      modifies this`booking, this`customerId, this`professionalId, this`serviceId
      ensures booking == b
      ensures b != null ==> customerId == b.customerId && professionalId == b.professionalId && serviceId == b.serviceId
      ensures b == null ==> customerId == old(customerId) && professionalId == old(professionalId) &&
                            serviceId == old(serviceId)
    {
      booking := b;
      if b != null {
        customerId := b.customerId;
        professionalId := b.professionalId;
        serviceId := b.serviceId;
      }
    }
  }

  /** model/Booking.java, the fields its helpers touch. */
  class Booking {
    var customerId: Option<nat>
    var professionalId: Option<nat>
    var serviceId: Option<nat>
    var status: BookingModel.BookingStatus
    var addons: set<BookingAddon>
    var review: Review?

    /** `new Booking()`: status starts PENDING, with no add-ons and no
        review. */
    constructor ()
      ensures status == BookingModel.Pending
      ensures addons == {} && review == null
      ensures customerId.None? && professionalId.None? && serviceId.None?
    {
      customerId := None;
      professionalId := None;
      serviceId := None;
      status := BookingModel.Pending;
      addons := {};
      review := null;
    }

    /** addAddon(addon, quantity): a new line, linked to this booking, with
        the given quantity and the add-on's price and name of this moment,
        joins the add-on set. Nothing but the set changes. (The ghost result
        names the new line; the Java method returns nothing.) */
    method AddAddon(addon: ServiceAddon, quantity: int) returns (ghost entry: BookingAddon)
      modifies this`addons
      ensures fresh(entry) && addons == old(addons) + {entry}
      ensures entry.booking == this && entry.addon == addon && entry.quantity == quantity
      ensures entry.priceAtBooking == addon.price && entry.nameAtBooking == addon.name
    {
      var line := new BookingAddon(this, addon, quantity);
      addons := addons + {line};
      entry := line;
    }

    /** removeAddon(line): the line leaves the set and loses its booking
        link (whether or not it was in the set). */
    method RemoveAddon(line: BookingAddon)
      modifies this`addons, line`booking
      ensures addons == old(addons) - {line}
      ensures line.booking == null
    {
      addons := addons - {line};
      line.SetBooking(null);
    }

    /** setReview(r): a non-null r is linked back to this booking and takes
        over its customer, professional and service; null unlinks the
        previous review. Replacing one review by another does not unlink
        the previous one, which keeps pointing here. */
    method SetReview(r: Review?)
      modifies this`review
      modifies ({r, review} - {null})`booking, ({r, review} - {null})`customerId
      modifies ({r, review} - {null})`professionalId, ({r, review} - {null})`serviceId
      ensures review == r
      ensures r != null ==> r.booking == this && r.customerId == customerId &&
                            r.professionalId == professionalId && r.serviceId == serviceId
      ensures r == null && old(review) != null ==> old(review).booking == null
      ensures r != null && old(review) != null && old(review) != r ==>
                old(review).booking == old(review.booking)
      ensures old(review) != null && old(review) != r ==>
                old(review).customerId == old(review.customerId) &&
                old(review).professionalId == old(review.professionalId) &&
                old(review).serviceId == old(review.serviceId)
    {
      if r == null {
        if review != null {
          review.SetBooking(null);
        }
      } else {
        r.SetBooking(this);
      }
      review := r;
    }
  }

  /** The snapshot survives catalog edits: after an add-on is booked, its
      catalog price and name change, and the booked line still carries the
      old ones. */
  method EditAddonAfterBooking(booking: Booking, addon: ServiceAddon, quantity: int,
                               newPrice: int, newName: Option<string>) returns (ghost entry: BookingAddon)
    modifies booking`addons, addon`price, addon`name
    ensures entry in booking.addons && entry.addon == addon
    ensures addon.price == newPrice && addon.name == newName
    ensures entry.priceAtBooking == old(addon.price) && entry.nameAtBooking == old(addon.name)
  {
    entry := booking.AddAddon(addon, quantity);
    addon.SetPrice(newPrice);
    addon.SetName(newName);
  }
}
