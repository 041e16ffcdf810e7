/** service/impl/ReviewServiceImpl.java: the guards around the reviews
    table. A review is made only for an existing, completed booking that
    has none yet, and takes the booking's customer, professional and
    service; an update touches only rating, comment and anonymity; the
    details shown hide the customer of an anonymous review. The bookings
    table is read, not written. */
module Reviews {
  import opened Common
  import opened Accounts
  import BookingModel
  import BookingRepository

  /** A review row (model/Review.java): the booking, customer, professional
      and service it belongs to, by id. */
  datatype ReviewRecord = ReviewRecord(
    id: nat,
    bookingId: Option<nat>,
    customerId: Option<nat>,
    professionalId: Option<nat>,
    serviceId: Option<nat>,
    rating: Option<int>,
    comment: Option<string>,
    isAnonymous: bool,
    adminReviewed: bool)

  /** The fields of dto/ReviewDto.java that create and update read. */
  datatype ReviewDto = ReviewDto(bookingId: Option<nat>, rating: Option<int>, comment: Option<string>, isAnonymous: bool)

  /** The position of the review with the id, if any. */
  function IndexOfReview(reviews: seq<ReviewRecord>, id: nat): (r: Option<nat>)
    ensures r.Some? ==> r.value < |reviews| && reviews[r.value].id == id
    ensures r.None? ==> forall i :: 0 <= i < |reviews| ==> reviews[i].id != id
  {
    if reviews == [] then None
    else if reviews[|reviews| - 1].id == id then Some(|reviews| - 1)
    else IndexOfReview(reviews[..|reviews| - 1], id)
  }

  /** reviewRepository.findByBookingId(bookingId).isPresent() */
  predicate Reviewed(reviews: seq<ReviewRecord>, bookingId: nat) {
    exists i :: 0 <= i < |reviews| && reviews[i].bookingId == Some(bookingId)
  }

  /** The table without the rows carrying id (reviewRepository.delete). */
  function WithoutReview(reviews: seq<ReviewRecord>, id: nat): (r: seq<ReviewRecord>)
    ensures forall v :: v in r <==> v in reviews && v.id != id
  {
    if reviews == [] then []
    else if reviews[|reviews| - 1].id == id then WithoutReview(reviews[..|reviews| - 1], id)
    else WithoutReview(reviews[..|reviews| - 1], id) + [reviews[|reviews| - 1]]
  }

  /** The table's invariant: distinct ids below nextId, and at most one
      review per booking. */
  predicate Consistent(reviews: seq<ReviewRecord>, nextId: nat) {
    (forall i :: 0 <= i < |reviews| ==> reviews[i].id < nextId) &&
    (forall i, j :: 0 <= i < j < |reviews| ==> reviews[i].id != reviews[j].id) &&
    (forall i, j :: 0 <= i < j < |reviews| && reviews[i].bookingId.Some? ==> reviews[i].bookingId != reviews[j].bookingId)
  }

  /** The review create saves for a booking: the DTO's rating, comment and
      anonymity, and the booking's own customer, professional and service. */
  function ReviewOf(id: nat, dto: ReviewDto, booking: BookingModel.Booking): (v: ReviewRecord)
    ensures v.id == id && v.bookingId == Some(booking.id)
    ensures v.customerId == Some(booking.customerId) && v.professionalId == Some(booking.professionalId) &&
            v.serviceId == Some(booking.serviceId)
    ensures v.rating == dto.rating && v.comment == dto.comment && v.isAnonymous == dto.isAnonymous && !v.adminReviewed
  {
    ReviewRecord(id, Some(booking.id), Some(booking.customerId), Some(booking.professionalId), Some(booking.serviceId),
                 dto.rating, dto.comment, dto.isAnonymous, false)
  }

  /** create, in the order of its checks: a review already exists for the
      booking; no booking id (findById(null) is refused); no such booking;
      the booking is not completed. Otherwise the review is appended. */
  function CreateOutcome(reviews: seq<ReviewRecord>, bookings: seq<BookingModel.Booking>, nextId: nat, dto: ReviewDto)
    : (r: Result<seq<ReviewRecord>>)
    ensures dto.bookingId.Some? && Reviewed(reviews, dto.bookingId.value) ==> r == Err(AlreadyExists)
    ensures dto.bookingId.None? ==> r == Err(InvalidArgument)
    ensures (dto.bookingId.Some? && !Reviewed(reviews, dto.bookingId.value) &&
             BookingRepository.FindById(bookings, dto.bookingId.value).None?) ==> r == Err(NotFound)
    ensures r.Ok? ==> dto.bookingId.Some? && !Reviewed(reviews, dto.bookingId.value) &&
                      BookingRepository.FindById(bookings, dto.bookingId.value).Some? &&
                      var b := bookings[BookingRepository.FindById(bookings, dto.bookingId.value).value];
                      b.status == BookingModel.Completed &&
                      r.value == reviews + [ReviewOf(nextId, dto, b)]
    ensures r.Err? && r.error == InvalidState ==>
              bookings[BookingRepository.FindById(bookings, dto.bookingId.value).value].status != BookingModel.Completed
    ensures dto.bookingId.Some? && !Reviewed(reviews, dto.bookingId.value) &&
            BookingRepository.FindById(bookings, dto.bookingId.value).Some? &&
            bookings[BookingRepository.FindById(bookings, dto.bookingId.value).value].status == BookingModel.Completed
            ==> r.Ok?
  {
    if dto.bookingId.Some? && Reviewed(reviews, dto.bookingId.value) then Err(AlreadyExists)
    else if dto.bookingId.None? then Err(InvalidArgument)
    else
      var found := BookingRepository.FindById(bookings, dto.bookingId.value);
      if found.None? then Err(NotFound)
      else
        var booking := bookings[found.value];
        if booking.status != BookingModel.Completed then Err(InvalidState)
        else Ok(reviews + [ReviewOf(nextId, dto, booking)])
  }

  /** update: NotFound, or the row with the DTO's rating, comment and
      anonymity and everything else kept. */
  function UpdateOutcome(reviews: seq<ReviewRecord>, id: nat, dto: ReviewDto): (r: Result<seq<ReviewRecord>>)
    ensures r.Err? <==> IndexOfReview(reviews, id).None?
    ensures r.Err? ==> r.error == NotFound
    ensures r.Ok? ==> var i := IndexOfReview(reviews, id).value;
                      |r.value| == |reviews| &&
                      (forall k :: 0 <= k < |reviews| && k != i ==> r.value[k] == reviews[k]) &&
                      r.value[i].rating == dto.rating && r.value[i].comment == dto.comment &&
                      r.value[i].isAnonymous == dto.isAnonymous &&
                      r.value[i].(rating := reviews[i].rating, comment := reviews[i].comment,
                                  isAnonymous := reviews[i].isAnonymous) == reviews[i]
  {
    var found := IndexOfReview(reviews, id);
    if found.None? then Err(NotFound)
    else
      var i := found.value;
      Ok(reviews[i := reviews[i].(rating := dto.rating, comment := dto.comment, isAnonymous := dto.isAnonymous)])
  }

  /** delete: NotFound, or the table without the review. */
  function DeleteOutcome(reviews: seq<ReviewRecord>, id: nat): (r: Result<seq<ReviewRecord>>)
    ensures r.Err? <==> IndexOfReview(reviews, id).None?
    ensures r.Err? ==> r.error == NotFound
    ensures r.Ok? ==> IndexOfReview(r.value, id).None? &&
                      forall v :: v in reviews && v.id != id ==> v in r.value
  {
    if IndexOfReview(reviews, id).None? then Err(NotFound) else Ok(WithoutReview(reviews, id))
  }

  /** The customer columns of a review's details. */
  datatype ShownCustomer = ShownCustomer(customerName: Option<string>, customerImageUrl: Option<string>)

  const AnonymousName := "Anonymous"

  /** ReviewMapper.toDto's customer columns: the customer's name and image,
      both null without a customer. */
  function MappedCustomer(customer: Option<User>): (s: ShownCustomer)
    ensures customer.None? ==> s == ShownCustomer(None, None)
    ensures customer.Some? ==> s == ShownCustomer(customer.value.name, customer.value.profileImageUrl)
  {
    if customer.None? then ShownCustomer(None, None)
    else ShownCustomer(customer.value.name, customer.value.profileImageUrl)
  }

  /** toDtoWithDetails as written: start from toDto, then set name and image
      for a named review, or only the name "Anonymous" otherwise. The image
      toDto copied stays. */
  function DetailsAsWritten(review: ReviewRecord, customer: Option<User>): (s: ShownCustomer)
    ensures customer.Some? && !review.isAnonymous ==>
              s.customerName == customer.value.name && s.customerImageUrl == customer.value.profileImageUrl
    ensures customer.None? || review.isAnonymous ==>
              s.customerName == Some(AnonymousName) && s.customerImageUrl == MappedCustomer(customer).customerImageUrl
  {
    var dto := MappedCustomer(customer);
    if customer.Some? && !review.isAnonymous then
      dto.(customerName := customer.value.name, customerImageUrl := customer.value.profileImageUrl)
    else
      dto.(customerName := Some(AnonymousName))
  }

  /** The customer shown with a review, as evidently intended: the
      customer's name and image unless the review is anonymous or has no
      customer, in which case the name is "Anonymous" and no image is
      shown. */
  function Details(review: ReviewRecord, customer: Option<User>): (s: ShownCustomer)
    ensures customer.Some? && !review.isAnonymous ==>
              s.customerName == customer.value.name && s.customerImageUrl == customer.value.profileImageUrl
    ensures customer.None? || review.isAnonymous ==> s == ShownCustomer(Some(AnonymousName), None)
  {
    if customer.Some? && !review.isAnonymous then ShownCustomer(customer.value.name, customer.value.profileImageUrl)
    else ShownCustomer(Some(AnonymousName), None)
  }

  /** As written, an anonymous review still shows its customer's image, so
      the details of an anonymous review differ with the customer. */
  lemma AnonymousReviewShowsImage(review: ReviewRecord, customer: User)
    requires review.isAnonymous && customer.profileImageUrl.Some?
    ensures DetailsAsWritten(review, Some(customer)).customerImageUrl == customer.profileImageUrl
    ensures DetailsAsWritten(review, Some(customer)) != DetailsAsWritten(review, None)
  {
  }

  /** The intended details agree with the written ones except for the image
      of an anonymous review. */
  lemma DetailsDifferOnlyInAnonymousImage(review: ReviewRecord, customer: Option<User>)
    ensures Details(review, customer).customerName == DetailsAsWritten(review, customer).customerName
    ensures !review.isAnonymous ==> Details(review, customer) == DetailsAsWritten(review, customer)
  {
  }

  // ---------------------------------------------------------------------
  // Properties

  /** An anonymous review shows nothing of its customer: the details are the
      same whoever the customer is. */
  lemma AnonymousHidesCustomer(review: ReviewRecord, c1: Option<User>, c2: Option<User>)
    requires review.isAnonymous
    ensures Details(review, c1) == Details(review, c2)
  {
  }

  /** Once a booking has its review, a second one for it is refused. */
  lemma SecondReviewRefused(reviews: seq<ReviewRecord>, bookings: seq<BookingModel.Booking>, nextId: nat,
                            dto: ReviewDto, dto2: ReviewDto)
    requires CreateOutcome(reviews, bookings, nextId, dto).Ok? && dto2.bookingId == dto.bookingId
    ensures CreateOutcome(CreateOutcome(reviews, bookings, nextId, dto).value, bookings, nextId + 1, dto2)
            == Err(AlreadyExists)
  {
    var after := CreateOutcome(reviews, bookings, nextId, dto).value;
    assert after[|reviews|].bookingId == dto.bookingId;
  }

  /** Deleting a booking's review makes room for a new one. */
  lemma {:induction false} DeleteAllowsNewReview(reviews: seq<ReviewRecord>, bookings: seq<BookingModel.Booking>,
                                                 nextId: nat, dto: ReviewDto, dto2: ReviewDto)
    requires Consistent(reviews, nextId)
    requires CreateOutcome(reviews, bookings, nextId, dto).Ok? && dto2.bookingId == dto.bookingId
    ensures DeleteOutcome(CreateOutcome(reviews, bookings, nextId, dto).value, nextId).Ok?
    ensures CreateOutcome(DeleteOutcome(CreateOutcome(reviews, bookings, nextId, dto).value, nextId).value,
                          bookings, nextId + 1, dto2).Ok?
  {
    var after := CreateOutcome(reviews, bookings, nextId, dto).value;
    assert after[|reviews|].id == nextId;
    var left := DeleteOutcome(after, nextId).value;
    var bid := dto.bookingId.value;
    forall i | 0 <= i < |left| ensures left[i].bookingId != Some(bid) {
      assert left[i] in after && left[i].id != nextId;
      var j :| 0 <= j < |after| && after[j] == left[i];
      assert j < |reviews|;
      assert reviews[j] == left[i];
    }
  }

  /** An update never moves a review to another booking, customer,
      professional or service, and keeps the administrator's flag. */
  lemma UpdateKeepsLinks(reviews: seq<ReviewRecord>, id: nat, dto: ReviewDto)
    requires UpdateOutcome(reviews, id, dto).Ok?
    ensures var i := IndexOfReview(reviews, id).value;
            var v := UpdateOutcome(reviews, id, dto).value[i];
            v.id == reviews[i].id && v.bookingId == reviews[i].bookingId && v.customerId == reviews[i].customerId &&
            v.professionalId == reviews[i].professionalId && v.serviceId == reviews[i].serviceId &&
            v.adminReviewed == reviews[i].adminReviewed
  {
    var i := IndexOfReview(reviews, id).value;
    var v := UpdateOutcome(reviews, id, dto).value[i];
    assert v.(rating := reviews[i].rating, comment := reviews[i].comment, isAnonymous := reviews[i].isAnonymous) == reviews[i];
  }

  lemma ConsistentAfterCreate(reviews: seq<ReviewRecord>, bookings: seq<BookingModel.Booking>, nextId: nat, dto: ReviewDto)
    requires Consistent(reviews, nextId) && CreateOutcome(reviews, bookings, nextId, dto).Ok?
    ensures Consistent(CreateOutcome(reviews, bookings, nextId, dto).value, nextId + 1)
  {
    var after := CreateOutcome(reviews, bookings, nextId, dto).value;
    assert forall k :: 0 <= k < |reviews| ==> after[k] == reviews[k];
  }

  lemma {:induction false} ConsistentAfterDelete(reviews: seq<ReviewRecord>, nextId: nat, id: nat)
    requires Consistent(reviews, nextId)
    ensures Consistent(WithoutReview(reviews, id), nextId)
  {
    if reviews != [] {
      var n := |reviews|;
      ConsistentAfterDelete(reviews[..n - 1], nextId, id);
      if reviews[n - 1].id != id {
        var rest := WithoutReview(reviews[..n - 1], id);
        forall k | 0 <= k < |rest|
          ensures rest[k].id != reviews[n - 1].id
          ensures rest[k].bookingId.Some? ==> rest[k].bookingId != reviews[n - 1].bookingId
        {
          assert rest[k] in reviews[..n - 1];
          var j :| 0 <= j < n - 1 && reviews[..n - 1][j] == rest[k];
          assert reviews[j] == rest[k];
        }
        ConsistentSnoc(rest, reviews[n - 1], nextId);
      }
    }
  }

  /** A row whose id and booking differ from every row before it can be
      appended. */
  lemma ConsistentSnoc(rest: seq<ReviewRecord>, x: ReviewRecord, nextId: nat)
    requires Consistent(rest, nextId) && x.id < nextId
    requires forall k :: 0 <= k < |rest| ==> rest[k].id != x.id
    requires forall k :: 0 <= k < |rest| && rest[k].bookingId.Some? ==> rest[k].bookingId != x.bookingId
    ensures Consistent(rest + [x], nextId)
  {
  }

  class ReviewService {
    /** The reviews table, in insertion order. */
    var reviews: seq<ReviewRecord>
    /** The identity the next saved review receives. */
    var nextId: nat

    ghost predicate Valid()
      reads this
    {
      Consistent(reviews, nextId)
    }

    constructor ()
      ensures Valid() && reviews == [] && nextId == 1
    {
      reviews := [];
      nextId := 1;
    }

    /** create, against the current bookings table. */
    method Create(dto: ReviewDto, bookings: seq<BookingModel.Booking>) returns (r: Result<ReviewRecord>)
      requires Valid()
      modifies this
      ensures Valid()
      ensures CreateOutcome(old(reviews), bookings, old(nextId), dto).Ok? ==>
                reviews == CreateOutcome(old(reviews), bookings, old(nextId), dto).value &&
                nextId == old(nextId) + 1 && r == Ok(reviews[|old(reviews)|])
      ensures CreateOutcome(old(reviews), bookings, old(nextId), dto).Err? ==>
                r == Err(CreateOutcome(old(reviews), bookings, old(nextId), dto).error) &&
                reviews == old(reviews) && nextId == old(nextId)
    {
      if dto.bookingId.Some? {
        var k := 0;
        while k < |reviews|
          invariant 0 <= k <= |reviews|
          invariant forall j :: 0 <= j < k ==> reviews[j].bookingId != dto.bookingId
        {
          if reviews[k].bookingId == dto.bookingId {
            return Err(AlreadyExists);
          }
          k := k + 1;
        }
      }
      if dto.bookingId.None? {
        return Err(InvalidArgument);
      }
      var found := BookingRepository.FindById(bookings, dto.bookingId.value);
      if found.None? {
        return Err(NotFound);
      }
      var booking := bookings[found.value];
      if booking.status != BookingModel.Completed {
        return Err(InvalidState);
      }
      ConsistentAfterCreate(reviews, bookings, nextId, dto);
      var review := ReviewRecord(nextId, None, None, None, None, dto.rating, dto.comment, dto.isAnonymous, false);
      review := review.(bookingId := Some(booking.id), customerId := Some(booking.customerId),
                        professionalId := Some(booking.professionalId), serviceId := Some(booking.serviceId));
      reviews := reviews + [review];
      nextId := nextId + 1;
      r := Ok(review);
    }

    /** update */
    method Update(id: nat, dto: ReviewDto) returns (r: Result<ReviewRecord>)
      requires Valid()
      modifies this`reviews
      ensures Valid()
      ensures UpdateOutcome(old(reviews), id, dto).Ok? ==>
                reviews == UpdateOutcome(old(reviews), id, dto).value && r == Ok(reviews[IndexOfReview(old(reviews), id).value])
      ensures UpdateOutcome(old(reviews), id, dto).Err? ==> r == Err(NotFound) && reviews == old(reviews)
    {
      var found := IndexOfReview(reviews, id);
      if found.None? {
        return Err(NotFound);
      }
      var i := found.value;
      var existing := reviews[i].(rating := dto.rating, comment := dto.comment, isAnonymous := dto.isAnonymous);
      reviews := reviews[i := existing];
      r := Ok(existing);
    }

    /** delete */
    method Delete(id: nat) returns (r: Outcome)
      requires Valid()
      modifies this`reviews
      ensures Valid()
      ensures DeleteOutcome(old(reviews), id).Ok? ==> r == Pass && reviews == DeleteOutcome(old(reviews), id).value
      ensures DeleteOutcome(old(reviews), id).Err? ==> r == Fail(NotFound) && reviews == old(reviews)
    {
      if IndexOfReview(reviews, id).None? {
        return Fail(NotFound);
      }
      ConsistentAfterDelete(reviews, nextId, id);
      reviews := WithoutReview(reviews, id);
      r := Pass;
    }
  }
}
