/** repository/BookingRepository.java: the derived and JPQL queries as
    filters over the bookings table. The table is a sequence in insertion
    order; a query without ORDER BY returns its rows in table order, one
    with ORDER BY b.bookingDate ASC returns them sorted by start. Paging
    (Pageable) is not modelled. */
module BookingRepository {
  import opened Common
  import opened BookingModel

  /** The rows of `s` that satisfy `keep`, in table order. */
  function Filter(s: seq<Booking>, keep: Booking -> bool): (r: seq<Booking>)
    ensures |r| <= |s|
    ensures forall b {:trigger b in r} :: b in r <==> b in s && keep(b)
  {
    if s == [] then []
    else
      assert forall b :: b in s <==> b == s[0] || b in s[1..];
      (if keep(s[0]) then [s[0]] else []) + Filter(s[1..], keep)
  }

  /** Filtering distributes over concatenation. */
  lemma {:induction false} FilterAppend(a: seq<Booking>, b: seq<Booking>, keep: Booking -> bool)
    ensures Filter(a + b, keep) == Filter(a, keep) + Filter(b, keep)
  {
    if a == [] {
      assert a + b == b;
    } else {
      var head := if keep(a[0]) then [a[0]] else [];
      assert (a + b)[0] == a[0];
      assert (a + b)[1..] == a[1..] + b;
      assert Filter(a + b, keep) == head + Filter(a[1..] + b, keep);
      assert Filter(a, keep) == head + Filter(a[1..], keep);
      FilterAppend(a[1..], b, keep);
      assert head + (Filter(a[1..], keep) + Filter(b, keep)) == (head + Filter(a[1..], keep)) + Filter(b, keep);
    }
  }

  /** Filtering a table with one more row at its end. */
  lemma FilterSnoc(s: seq<Booking>, x: Booking, keep: Booking -> bool)
    ensures Filter(s + [x], keep) == Filter(s, keep) + (if keep(x) then [x] else [])
  {
    FilterAppend(s, [x], keep);
    assert [x][1..] == [];
  }

  /** A filter every row passes returns the table unchanged. */
  lemma {:induction false} FilterKeepsAll(s: seq<Booking>, keep: Booking -> bool)
    requires forall i :: 0 <= i < |s| ==> keep(s[i])
    ensures Filter(s, keep) == s
  {
    if s != [] {
      FilterKeepsAll(s[1..], keep);
    }
  }

  /** JpaRepository.findById: the position of the row with the given id. */
  function FindById(s: seq<Booking>, id: nat): (r: Option<nat>)
    ensures r.Some? ==> r.value < |s| && s[r.value].id == id
    ensures r.Some? ==> forall j :: 0 <= j < r.value ==> s[j].id != id
    ensures r.None? ==> forall i :: 0 <= i < |s| ==> s[i].id != id
  {
    if s == [] then None
    else if s[0].id == id then Some(0)
    else match FindById(s[1..], id)
      case None => None
      case Some(k) => Some(k + 1)
  }

  /** The ids of the rows, in order. */
  function Ids(s: seq<Booking>): (r: seq<nat>)
    ensures |r| == |s|
    ensures forall i :: 0 <= i < |s| ==> r[i] == s[i].id
  {
    if s == [] then [] else [s[0].id] + Ids(s[1..])
  }

  function FindByCustomerId(s: seq<Booking>, customerId: nat): seq<Booking> {
    Filter(s, (b: Booking) => b.customerId == customerId)
  }

  function FindByProfessionalId(s: seq<Booking>, professionalId: nat): seq<Booking> {
    Filter(s, (b: Booking) => b.professionalId == professionalId)
  }

  function FindByServiceId(s: seq<Booking>, serviceId: nat): seq<Booking> {
    Filter(s, (b: Booking) => b.serviceId == serviceId)
  }

  function FindByStatus(s: seq<Booking>, status: BookingStatus): seq<Booking> {
    Filter(s, (b: Booking) => b.status == status)
  }

  /** bookingDate >= :startDate AND bookingDate < :endDate */
  predicate InHalfOpen(t: int, start: int, end: int) {
    start <= t < end
  }

  /** bookingDate BETWEEN :startDate AND :endDate */
  predicate InClosed(t: int, start: int, end: int) {
    start <= t <= end
  }

  function FindCustomerBookingsBetweenDates(s: seq<Booking>, customerId: nat, startDate: int, endDate: int): seq<Booking> {
    Filter(s, (b: Booking) => b.customerId == customerId && InHalfOpen(b.bookingDate, startDate, endDate))
  }

  function FindProfessionalBookingsBetweenDates(s: seq<Booking>, professionalId: nat, startDate: int, endDate: int): seq<Booking> {
    Filter(s, (b: Booking) => b.professionalId == professionalId && InHalfOpen(b.bookingDate, startDate, endDate))
  }

  function FindByProfessionalIdAndBookingDateBetween(s: seq<Booking>, professionalId: nat, startDate: int, endDate: int): seq<Booking> {
    Filter(s, (b: Booking) => b.professionalId == professionalId && InClosed(b.bookingDate, startDate, endDate))
  }

  function FindByBookingDateBetween(s: seq<Booking>, startDate: int, endDate: int): seq<Booking> {
    Filter(s, (b: Booking) => InClosed(b.bookingDate, startDate, endDate))
  }

  /** The conflict predicate of findConflictingBookings:
      bookingDate <= :endTime AND endDate >= :startTime (closed, any status). */
  predicate ConflictsWith(b: Booking, professionalId: nat, startTime: int, endTime: int) {
    b.professionalId == professionalId && b.bookingDate <= endTime && b.endDate >= startTime
  }

  function FindConflictingBookings(s: seq<Booking>, professionalId: nat, startTime: int, endTime: int): seq<Booking> {
    Filter(s, (b: Booking) => ConflictsWith(b, professionalId, startTime, endTime))
  }

  function FindCompletedBookingsByProfessional(s: seq<Booking>, professionalId: nat): seq<Booking> {
    Filter(s, (b: Booking) => b.professionalId == professionalId && b.status == Completed)
  }

  function FindCompletedBookingsByCustomer(s: seq<Booking>, customerId: nat): seq<Booking> {
    Filter(s, (b: Booking) => b.customerId == customerId && b.status == Completed)
  }

  /** SELECT COUNT(b) ... status = 'COMPLETED', counted row by row. */
  function CountCompletedBookingsByProfessional(s: seq<Booking>, professionalId: nat): nat {
    if s == [] then 0
    else (if s[0].professionalId == professionalId && s[0].status == Completed then 1 else 0)
         + CountCompletedBookingsByProfessional(s[1..], professionalId)
  }

  predicate SortedByDate(s: seq<Booking>) {
    forall i, j :: 0 <= i < j < |s| ==> s[i].bookingDate <= s[j].bookingDate
  }

  /** One insertion step of the sort: `b` goes before the first row that
      does not start earlier. */
  function InsertByDate(b: Booking, s: seq<Booking>): (r: seq<Booking>)
    ensures multiset(r) == multiset(s) + multiset{b}
  {
    if s == [] then [b]
    else if b.bookingDate <= s[0].bookingDate then [b] + s
    else
      assert s == [s[0]] + s[1..];
      [s[0]] + InsertByDate(b, s[1..])
  }

  lemma {:induction false} InsertByDateSorted(b: Booking, s: seq<Booking>)
    requires SortedByDate(s)
    ensures SortedByDate(InsertByDate(b, s))
  {
    if s != [] && b.bookingDate > s[0].bookingDate {
      var rest := InsertByDate(b, s[1..]);
      InsertByDateSorted(b, s[1..]);
      assert s == [s[0]] + s[1..];
      forall i | 0 <= i < |rest|
        ensures s[0].bookingDate <= rest[i].bookingDate
      {
        assert rest[i] in multiset(rest);
        if rest[i] != b {
          assert rest[i] in multiset(s[1..]);
          var k :| 0 <= k < |s[1..]| && s[1..][k] == rest[i];
          assert s[k + 1] == rest[i];
        }
      }
      assert InsertByDate(b, s) == [s[0]] + rest;
    }
  }

  /** ORDER BY b.bookingDate ASC (rows with equal dates keep no promised order). */
  function SortByDate(s: seq<Booking>): (r: seq<Booking>)
    ensures SortedByDate(r)
    ensures multiset(r) == multiset(s)
  {
    if s == [] then []
    else
      assert s == [s[0]] + s[1..];
      var sorted := SortByDate(s[1..]);
      InsertByDateSorted(s[0], sorted);
      InsertByDate(s[0], sorted)
  }

  function FindCustomerUpcomingBookings(s: seq<Booking>, customerId: nat, now: int): seq<Booking> {
    SortByDate(Filter(s, (b: Booking) => b.customerId == customerId && b.bookingDate >= now))
  }

  function FindProfessionalUpcomingBookings(s: seq<Booking>, professionalId: nat, now: int): seq<Booking> {
    SortByDate(Filter(s, (b: Booking) => b.professionalId == professionalId && b.bookingDate >= now))
  }

  function FindCustomerPastBookings(s: seq<Booking>, customerId: nat, now: int): seq<Booking> {
    Filter(s, (b: Booking) => b.customerId == customerId && b.bookingDate < now)
  }

  function FindProfessionalPastBookings(s: seq<Booking>, professionalId: nat, now: int): seq<Booking> {
    Filter(s, (b: Booking) => b.professionalId == professionalId && b.bookingDate < now)
  }

  function FindUpcomingBookingsByProfessional(s: seq<Booking>, professionalId: nat, startDate: int): seq<Booking> {
    SortByDate(Filter(s, (b: Booking) => b.professionalId == professionalId && b.bookingDate >= startDate))
  }

  // ---------------------------------------------------------------------
  // Properties of the queries

  /** Splitting a filter by a second condition splits its rows (with their
      multiplicities) between the two halves. */
  lemma {:induction false} FilterPartition(s: seq<Booking>, whole: Booking -> bool, yes: Booking -> bool, no: Booking -> bool)
    requires forall b :: whole(b) == (yes(b) || no(b))
    requires forall b :: !(yes(b) && no(b))
    ensures multiset(Filter(s, yes)) + multiset(Filter(s, no)) == multiset(Filter(s, whole))
  {
    if s != [] {
      FilterPartition(s[1..], whole, yes, no);
    }
  }

  /** A customer's upcoming (start >= now) and past (start < now) bookings
      split the customer's bookings: together they are all of them, each
      exactly once, and no booking is in both. */
  lemma UpcomingAndPastPartitionCustomer(s: seq<Booking>, customerId: nat, now: int)
    ensures multiset(FindCustomerUpcomingBookings(s, customerId, now)) + multiset(FindCustomerPastBookings(s, customerId, now))
         == multiset(FindByCustomerId(s, customerId))
    ensures forall b :: !(b in FindCustomerUpcomingBookings(s, customerId, now) && b in FindCustomerPastBookings(s, customerId, now))
  {
    var up := Filter(s, (b: Booking) => b.customerId == customerId && b.bookingDate >= now);
    FilterPartition(s, (b: Booking) => b.customerId == customerId,
                    (b: Booking) => b.customerId == customerId && b.bookingDate >= now,
                    (b: Booking) => b.customerId == customerId && b.bookingDate < now);
    forall b | b in FindCustomerUpcomingBookings(s, customerId, now)
      ensures b in up
    {
      assert b in multiset(FindCustomerUpcomingBookings(s, customerId, now));
    }
  }

  /** The same partition for a professional's bookings. */
  lemma UpcomingAndPastPartitionProfessional(s: seq<Booking>, professionalId: nat, now: int)
    ensures multiset(FindProfessionalUpcomingBookings(s, professionalId, now)) + multiset(FindProfessionalPastBookings(s, professionalId, now))
         == multiset(FindByProfessionalId(s, professionalId))
    ensures forall b :: !(b in FindProfessionalUpcomingBookings(s, professionalId, now) && b in FindProfessionalPastBookings(s, professionalId, now))
  {
    var up := Filter(s, (b: Booking) => b.professionalId == professionalId && b.bookingDate >= now);
    FilterPartition(s, (b: Booking) => b.professionalId == professionalId,
                    (b: Booking) => b.professionalId == professionalId && b.bookingDate >= now,
                    (b: Booking) => b.professionalId == professionalId && b.bookingDate < now);
    forall b | b in FindProfessionalUpcomingBookings(s, professionalId, now)
      ensures b in up
    {
      assert b in multiset(FindProfessionalUpcomingBookings(s, professionalId, now));
    }
  }

  /** The upcoming queries return their rows in ascending start order, and
      exactly the rows the WHERE clause selects. */
  lemma UpcomingOrderedAscending(s: seq<Booking>, customerId: nat, professionalId: nat, now: int)
    ensures SortedByDate(FindCustomerUpcomingBookings(s, customerId, now))
    ensures SortedByDate(FindProfessionalUpcomingBookings(s, professionalId, now))
    ensures SortedByDate(FindUpcomingBookingsByProfessional(s, professionalId, now))
    ensures forall b :: b in FindCustomerUpcomingBookings(s, customerId, now)
                    <==> b in s && b.customerId == customerId && b.bookingDate >= now
  {
    var f := Filter(s, (b: Booking) => b.customerId == customerId && b.bookingDate >= now);
    forall b ensures b in FindCustomerUpcomingBookings(s, customerId, now) <==> b in f {
      assert b in multiset(FindCustomerUpcomingBookings(s, customerId, now)) <==> b in multiset(f);
    }
  }

  /** The COUNT query agrees with the size of the COMPLETED filter. */
  lemma {:induction false} CountCompletedMatchesFilter(s: seq<Booking>, professionalId: nat)
    ensures CountCompletedBookingsByProfessional(s, professionalId) == |FindCompletedBookingsByProfessional(s, professionalId)|
  {
    if s != [] {
      CountCompletedMatchesFilter(s[1..], professionalId);
    }
  }

  /** The conflict predicate is closed: a booking of the professional that
      only touches the requested window at an endpoint conflicts with it. */
  lemma ConflictIsClosed(b: Booking, startTime: int, endTime: int)
    requires b.bookingDate <= b.endDate && startTime <= endTime
    requires b.endDate == startTime || b.bookingDate == endTime
    ensures ConflictsWith(b, b.professionalId, startTime, endTime)
  {
  }

  /** No query of the conflict or date-range family looks at the status: a
      cancelled row is returned like any other. */
  lemma QueriesIncludeCancelled(s: seq<Booking>, i: nat, startTime: int, endTime: int)
    requires i < |s| && s[i].status == Cancelled
    ensures ConflictsWith(s[i], s[i].professionalId, startTime, endTime) ==>
              s[i] in FindConflictingBookings(s, s[i].professionalId, startTime, endTime)
    ensures InClosed(s[i].bookingDate, startTime, endTime) ==>
              s[i] in FindByProfessionalIdAndBookingDateBetween(s, s[i].professionalId, startTime, endTime) &&
              s[i] in FindByBookingDateBetween(s, startTime, endTime)
  {
  }

  /** The *BetweenDates queries exclude a booking that starts exactly at the
      upper bound; the *Between queries include it. */
  lemma BetweenDatesHalfOpenBetweenClosed(s: seq<Booking>, i: nat, startDate: int, endDate: int)
    requires i < |s| && startDate <= endDate && s[i].bookingDate == endDate
    ensures s[i] !in FindCustomerBookingsBetweenDates(s, s[i].customerId, startDate, endDate)
    ensures s[i] !in FindProfessionalBookingsBetweenDates(s, s[i].professionalId, startDate, endDate)
    ensures s[i] in FindByProfessionalIdAndBookingDateBetween(s, s[i].professionalId, startDate, endDate)
    ensures s[i] in FindByBookingDateBetween(s, startDate, endDate)
  {
  }
}
