/** The two availability questions of BookingServiceImpl: whether a window
    is free for a professional (isTimeSlotAvailable, which uses the closed
    conflict query) and which 30-minute-aligned slots of the 09:00-17:00
    working day are free (findAvailableTimeSlots, which uses the strict
    overlap test against that day's bookings). The loops themselves are
    methods of Scheduling.BookingService; this module holds the functions
    that specify them and what is proved about those functions. */
module SlotFinder {
  import opened Common
  import opened BookingModel
  import opened BookingRepository

  /** 09:00 and 17:00 as minutes after midnight, and the slot step. */
  const WorkStartMinute: int := 540
  const WorkEndMinute: int := 1020
  const SlotStep: int := 30

  // ---------------------------------------------------------------------
  // isTimeSlotAvailable

  /** The removeIf test: a booking survives unless it carries the excluded
      id (nothing is removed when no id is excluded). */
  function NotExcluded(exclude: Option<nat>): Booking -> bool {
    (b: Booking) => exclude.None? || b.id != exclude.value
  }

  /** The conflicting bookings left after removeIf drops the excluded id. */
  function RemainingConflicts(store: seq<Booking>, professionalId: nat, startTime: int, endTime: int, exclude: Option<nat>): seq<Booking> {
    Filter(FindConflictingBookings(store, professionalId, startTime, endTime), NotExcluded(exclude))
  }

  /** isTimeSlotAvailable: no conflicting booking remains. */
  predicate SlotAvailable(store: seq<Booking>, professionalId: nat, startTime: int, endTime: int, exclude: Option<nat>) {
    |RemainingConflicts(store, professionalId, startTime, endTime, exclude)| == 0
  }

  /** A window is available exactly when every booking of the professional
      that meets it under the closed test is the excluded one. */
  lemma SlotAvailableIff(store: seq<Booking>, professionalId: nat, startTime: int, endTime: int, exclude: Option<nat>)
    ensures SlotAvailable(store, professionalId, startTime, endTime, exclude) <==>
            forall i :: 0 <= i < |store| && ConflictsWith(store[i], professionalId, startTime, endTime) ==>
                          exclude == Some(store[i].id)
  {
    var rem := RemainingConflicts(store, professionalId, startTime, endTime, exclude);
    if |rem| == 0 {
      forall i | 0 <= i < |store| && ConflictsWith(store[i], professionalId, startTime, endTime)
        ensures exclude == Some(store[i].id)
      {
        assert store[i] in FindConflictingBookings(store, professionalId, startTime, endTime);
        assert store[i] !in rem;
      }
    } else {
      assert rem[0] in rem;
      var k :| 0 <= k < |store| && store[k] == rem[0];
      assert ConflictsWith(store[k], professionalId, startTime, endTime);
      assert exclude != Some(store[k].id);
    }
  }

  // ---------------------------------------------------------------------
  // findAvailableTimeSlots

  /** isTimeSlotOverlap: strict overlap of [start1, end1) and [start2, end2). */
  predicate IsTimeSlotOverlap(start1: int, end1: int, start2: int, end2: int) {
    start1 < end2 && start2 < end1
  }

  /** Some booking of `bs` strictly overlaps [slotStart, slotEnd). */
  predicate OverlapsAny(bs: seq<Booking>, slotStart: int, slotEnd: int) {
    exists j :: 0 <= j < |bs| && IsTimeSlotOverlap(slotStart, slotEnd, bs[j].bookingDate, bs[j].endDate)
  }

  /** The professional's bookings that start on the requested day
      (findByProfessionalIdAndBookingDateBetween with LocalTime.MIN/MAX). */
  function DayBookings(store: seq<Booking>, professionalId: nat, date: int): seq<Booking> {
    FindByProfessionalIdAndBookingDateBetween(store, professionalId, DayStart(date), DayEnd(date))
  }

  /** The slots the generation loop emits from `slotStart` on: while the slot
      ends strictly before `close`, emit it unless it overlaps a booking,
      then step 30 minutes. */
  function SlotsFrom(bs: seq<Booking>, close: int, duration: int, slotStart: int): seq<int>
    decreases close - (slotStart + duration)
  {
    if slotStart + duration < close then
      (if OverlapsAny(bs, slotStart, slotStart + duration) then [] else [slotStart])
      + SlotsFrom(bs, close, duration, slotStart + SlotStep)
    else []
  }

  /** What findAvailableTimeSlots returns. */
  function AvailableSlots(store: seq<Booking>, professionalId: nat, date: int, durationInMinutes: int): seq<int> {
    SlotsFrom(DayBookings(store, professionalId, date), DayStart(date) + WorkEndMinute,
              durationInMinutes, DayStart(date) + WorkStartMinute)
  }

  /** A slot start can be proposed at all: on the 30-minute grid from 09:00
      and ending strictly before 17:00. */
  predicate IsCandidate(date: int, durationInMinutes: int, t: int) {
    OnGrid(t, DayStart(date) + WorkStartMinute) && t + durationInMinutes < DayStart(date) + WorkEndMinute
  }

  /** t is reached from `from` by whole slot steps. */
  predicate OnGrid(t: int, from: int) {
    from <= t && (t - from) % SlotStep == 0
  }

  /** The grid from `from` is `from` itself and the grid one step later. */
  lemma OnGridStep(t: int, from: int)
    ensures OnGrid(t, from) <==> t == from || OnGrid(t, from + SlotStep)
  {
    if from < t && (t - from) % SlotStep == 0 {
      assert t - from >= SlotStep;
    }
  }

  /** The membership rule of the generation loop. */
  lemma {:induction false} SlotsFromMembership(bs: seq<Booking>, close: int, duration: int, slotStart: int, t: int)
    ensures t in SlotsFrom(bs, close, duration, slotStart) <==>
            OnGrid(t, slotStart) && t + duration < close && !OverlapsAny(bs, t, t + duration)
    decreases close - (slotStart + duration)
  {
    if slotStart + duration < close {
      var head: seq<int> := if OverlapsAny(bs, slotStart, slotStart + duration) then [] else [slotStart];
      var rest := SlotsFrom(bs, close, duration, slotStart + SlotStep);
      assert SlotsFrom(bs, close, duration, slotStart) == head + rest;
      assert t in head + rest <==> t in head || t in rest;
      SlotsFromMembership(bs, close, duration, slotStart + SlotStep, t);
      OnGridStep(t, slotStart);
    }
  }

  /** `r` is strictly ascending and nothing in it lies below `lo`. */
  predicate AscendingFrom(r: seq<int>, lo: int) {
    (forall i :: 0 <= i < |r| ==> lo <= r[i]) &&
    (forall i, j :: 0 <= i < j < |r| ==> r[i] < r[j])
  }

  /** The loop emits strictly ascending starts, none before its first. */
  lemma {:induction false} SlotsFromAscending(bs: seq<Booking>, close: int, duration: int, slotStart: int)
    ensures AscendingFrom(SlotsFrom(bs, close, duration, slotStart), slotStart)
    decreases close - (slotStart + duration)
  {
    if slotStart + duration < close {
      var rest := SlotsFrom(bs, close, duration, slotStart + SlotStep);
      SlotsFromAscending(bs, close, duration, slotStart + SlotStep);
      var head: seq<int> := if OverlapsAny(bs, slotStart, slotStart + duration) then [] else [slotStart];
      var r := SlotsFrom(bs, close, duration, slotStart);
      assert r == head + rest;
      forall i | 0 <= i < |r|
        ensures i >= |head| ==> r[i] == rest[i - |head|] && slotStart + SlotStep <= r[i]
        ensures i < |head| ==> r[i] == slotStart
      {
      }
    }
  }

  /** The strict overlap test against the day's bookings, restated over the
      whole store: the bookings of the professional that start on that day. */
  lemma DayOverlapIff(store: seq<Booking>, professionalId: nat, date: int, s: int, e: int)
    ensures OverlapsAny(DayBookings(store, professionalId, date), s, e) <==>
            exists i :: 0 <= i < |store| && store[i].professionalId == professionalId &&
                        Day(store[i].bookingDate) == Day(date) &&
                        IsTimeSlotOverlap(s, e, store[i].bookingDate, store[i].endDate)
  {
    var bs := DayBookings(store, professionalId, date);
    if OverlapsAny(bs, s, e) {
      var j :| 0 <= j < |bs| && IsTimeSlotOverlap(s, e, bs[j].bookingDate, bs[j].endDate);
      assert bs[j] in bs;
      var i :| 0 <= i < |store| && store[i] == bs[j];
      SameDayWindow(date, store[i].bookingDate);
    }
    if exists i :: 0 <= i < |store| && store[i].professionalId == professionalId &&
                   Day(store[i].bookingDate) == Day(date) &&
                   IsTimeSlotOverlap(s, e, store[i].bookingDate, store[i].endDate) {
      var i :| 0 <= i < |store| && store[i].professionalId == professionalId &&
               Day(store[i].bookingDate) == Day(date) &&
               IsTimeSlotOverlap(s, e, store[i].bookingDate, store[i].endDate);
      SameDayWindow(date, store[i].bookingDate);
      assert store[i] in bs;
      var j :| 0 <= j < |bs| && bs[j] == store[i];
    }
  }

  /** A start is offered exactly when it is a grid candidate of the working
      day and no booking of the professional starting that day strictly
      overlaps it. Bookings of any status count. */
  lemma AvailableSlotsIff(store: seq<Booking>, professionalId: nat, date: int, durationInMinutes: int, t: int)
    ensures t in AvailableSlots(store, professionalId, date, durationInMinutes) <==>
            IsCandidate(date, durationInMinutes, t) &&
            forall i :: 0 <= i < |store| && store[i].professionalId == professionalId &&
                        Day(store[i].bookingDate) == Day(date) ==>
                          !IsTimeSlotOverlap(t, t + durationInMinutes, store[i].bookingDate, store[i].endDate)
  {
    SlotsFromMembership(DayBookings(store, professionalId, date), DayStart(date) + WorkEndMinute,
                        durationInMinutes, DayStart(date) + WorkStartMinute, t);
    DayOverlapIff(store, professionalId, date, t, t + durationInMinutes);
  }

  /** The offered starts are strictly ascending and lie in the working day. */
  lemma AvailableSlotsAscending(store: seq<Booking>, professionalId: nat, date: int, durationInMinutes: int)
    ensures AscendingFrom(AvailableSlots(store, professionalId, date, durationInMinutes), DayStart(date) + WorkStartMinute)
    ensures forall t :: t in AvailableSlots(store, professionalId, date, durationInMinutes) ==>
                          t + durationInMinutes < DayStart(date) + WorkEndMinute
  {
    var r := AvailableSlots(store, professionalId, date, durationInMinutes);
    SlotsFromAscending(DayBookings(store, professionalId, date), DayStart(date) + WorkEndMinute,
                       durationInMinutes, DayStart(date) + WorkStartMinute);
    forall t | t in r
      ensures t + durationInMinutes < DayStart(date) + WorkEndMinute
    {
      AvailableSlotsIff(store, professionalId, date, durationInMinutes, t);
    }
  }

  /** The working day is eight hours and a slot must end strictly before
      17:00, so a duration of eight hours or more yields no slot at all. */
  lemma LongDurationHasNoSlots(store: seq<Booking>, professionalId: nat, date: int, durationInMinutes: int)
    requires durationInMinutes >= WorkEndMinute - WorkStartMinute
    ensures AvailableSlots(store, professionalId, date, durationInMinutes) == []
  {
  }

  /** With the day free, the loop offers every grid start whose slot ends
      before 17:00: for one hour, 09:00 through 15:30, fourteen slots. */
  lemma {:induction false} FreeDayOneHourSlots(date: int)
    requires DayStart(date) == date
    ensures |AvailableSlots([], 0, date, 60)| == 14
  {
    var empty: seq<Booking> := [];
    var close := date + WorkEndMinute;
    assert SlotsFrom(empty, close, 60, date + 960) == [];
    assert SlotsFrom(empty, close, 60, date + 930) == [date + 930];
    assert |SlotsFrom(empty, close, 60, date + 900)| == 2;
    assert |SlotsFrom(empty, close, 60, date + 870)| == 3;
    assert |SlotsFrom(empty, close, 60, date + 840)| == 4;
    assert |SlotsFrom(empty, close, 60, date + 810)| == 5;
    assert |SlotsFrom(empty, close, 60, date + 780)| == 6;
    assert |SlotsFrom(empty, close, 60, date + 750)| == 7;
    assert |SlotsFrom(empty, close, 60, date + 720)| == 8;
    assert |SlotsFrom(empty, close, 60, date + 690)| == 9;
    assert |SlotsFrom(empty, close, 60, date + 660)| == 10;
    assert |SlotsFrom(empty, close, 60, date + 630)| == 11;
    assert |SlotsFrom(empty, close, 60, date + 600)| == 12;
    assert |SlotsFrom(empty, close, 60, date + 570)| == 13;
    assert |SlotsFrom(empty, close, 60, date + 540)| == 14;
  }

  /** Strict overlap implies the closed conflict test, so a grid start whose
      window is available for booking is always offered. */
  lemma BookableCandidateIsOffered(store: seq<Booking>, professionalId: nat, date: int, durationInMinutes: int, t: int)
    requires IsCandidate(date, durationInMinutes, t)
    requires SlotAvailable(store, professionalId, t, t + durationInMinutes, None)
    ensures t in AvailableSlots(store, professionalId, date, durationInMinutes)
  {
    SlotAvailableIff(store, professionalId, t, t + durationInMinutes, None);
    AvailableSlotsIff(store, professionalId, date, durationInMinutes, t);
  }

  /** The converse fails: the two tests disagree on touching windows. On a
      day with one 10:00-11:00 booking, 11:00 is offered for an hour, yet
      isTimeSlotAvailable rejects 11:00-12:00 because the closed query sees
      the shared instant 11:00 as a conflict. */
  lemma OfferedSlotCanBeUnavailable()
    ensures var store := [Booking(1, 7, 3, 4, 5, 600, 660, Pending, 5000, None)];
            660 in AvailableSlots(store, 3, 0, 60) && !SlotAvailable(store, 3, 660, 720, None)
  {
    var store := [Booking(1, 7, 3, 4, 5, 600, 660, Pending, 5000, None)];
    AvailableSlotsIff(store, 3, 0, 60, 660);
    SlotAvailableIff(store, 3, 660, 720, None);
    assert ConflictsWith(store[0], 3, 660, 720);
  }
}
