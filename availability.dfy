/** model/Availability.java: a professional's working window, either on a
    weekday every week (recurring) or on one specific date. Times of day are
    minutes after midnight; dates are day numbers, as Day() computes them. */
module Availabilities {
  import opened Common
  import opened BookingModel

  datatype DayOfWeek = Monday | Tuesday | Wednesday | Thursday | Friday | Saturday | Sunday

  /** The weekday with ISO index i (0 = Monday). */
  function WeekdayAt(i: int): DayOfWeek
    requires 0 <= i < 7
  {
    [Monday, Tuesday, Wednesday, Thursday, Friday, Saturday, Sunday][i]
  }

  /** `dateTime.getDayOfWeek()`: day 0 of the epoch, 1970-01-01, was a
      Thursday. */
  function DayOfWeekOf(t: int): DayOfWeek {
    WeekdayAt((Day(t) + 3) % 7)
  }

  /** `dateTime.toLocalTime()` at minute resolution. */
  function TimeOfDay(t: int): (m: int)
    ensures 0 <= m < MinutesPerDay
    ensures t == DayStart(t) + m
  {
    t % MinutesPerDay
  }

  /** A LocalTime at minute resolution. */
  type MinuteOfDay = m: int | 0 <= m < 1440

  datatype Availability = Availability(
    professionalId: nat,
    dayOfWeek: DayOfWeek,
    startTime: MinuteOfDay,
    endTime: MinuteOfDay,
    isRecurring: bool,
    specificDate: Option<int>,
    notes: Option<string>)

  /** The four-argument constructor: the other fields keep their
      initialisers, so the window is recurring and has no specific date. */
  function NewAvailability(professionalId: nat, dayOfWeek: DayOfWeek,
                           startTime: MinuteOfDay, endTime: MinuteOfDay): (a: Availability)
    ensures a.isRecurring
    ensures a.specificDate.None? && a.notes.None?
    ensures a.professionalId == professionalId && a.dayOfWeek == dayOfWeek
    ensures a.startTime == startTime && a.endTime == endTime
  {
    Availability(professionalId, dayOfWeek, startTime, endTime, true, None, None)
  }

  /** `!time.isBefore(startTime) && !time.isAfter(endTime)` */
  predicate WithinWindow(a: Availability, t: int) {
    !(TimeOfDay(t) < a.startTime) && !(TimeOfDay(t) > a.endTime)
  }

  /** isAvailable(dateTime) */
  predicate IsAvailable(a: Availability, t: int) {
    if a.isRecurring then
      DayOfWeekOf(t) == a.dayOfWeek && WithinWindow(a, t)
    else
      a.specificDate.Some? && Day(t) == a.specificDate.value && WithinWindow(a, t)
  }

  // ---------------------------------------------------------------------
  // Properties

  /** A recurring window admits exactly the times on its weekday inside
      [startTime, endTime]. */
  lemma RecurringIff(a: Availability, t: int)
    requires a.isRecurring
    ensures IsAvailable(a, t) <==> DayOfWeekOf(t) == a.dayOfWeek && a.startTime <= TimeOfDay(t) <= a.endTime
  {
  }

  /** A one-off window admits exactly the times on its date inside
      [startTime, endTime], and nothing when it has no date. */
  lemma OneOffIff(a: Availability, t: int)
    requires !a.isRecurring
    ensures IsAvailable(a, t) <==>
              a.specificDate == Some(Day(t)) && a.startTime <= TimeOfDay(t) <= a.endTime
  {
  }

  /** Both ends of the window are admitted, and the minutes just outside
      it are not, on a day the window applies to. */
  lemma EndpointsInclusive(a: Availability, day: int)
    requires a.startTime <= a.endTime
    requires if a.isRecurring then DayOfWeekOf(day * MinutesPerDay) == a.dayOfWeek
             else a.specificDate == Some(day)
    ensures IsAvailable(a, day * MinutesPerDay + a.startTime)
    ensures IsAvailable(a, day * MinutesPerDay + a.endTime)
    ensures a.startTime > 0 ==> !IsAvailable(a, day * MinutesPerDay + a.startTime - 1)
    ensures a.endTime < MinutesPerDay - 1 ==> !IsAvailable(a, day * MinutesPerDay + a.endTime + 1)
  {
    DayAndTimeOf(day, a.startTime);
    DayAndTimeOf(day, a.endTime);
    if a.startTime > 0 {
      DayAndTimeOf(day, a.startTime - 1);
    }
    if a.endTime < MinutesPerDay - 1 {
      DayAndTimeOf(day, a.endTime + 1);
    }
  }

  /** The timestamp m minutes into a day falls on that day, at time m. */
  lemma DayAndTimeOf(day: int, m: int)
    requires 0 <= m < MinutesPerDay
    ensures Day(day * MinutesPerDay + m) == day && TimeOfDay(day * MinutesPerDay + m) == m
  {
  }

  /** A window that starts after it ends admits no time at all. */
  lemma InvertedWindowIsEmpty(a: Availability, t: int)
    requires a.startTime > a.endTime
    ensures !IsAvailable(a, t)
  {
  }

  /** A recurring window never looks at specificDate, and a one-off window
      never looks at dayOfWeek. */
  lemma EachBranchIgnoresTheOtherField(a: Availability, t: int, date: Option<int>, dow: DayOfWeek)
    ensures a.isRecurring ==> IsAvailable(a.(specificDate := date), t) == IsAvailable(a, t)
    ensures !a.isRecurring ==> IsAvailable(a.(dayOfWeek := dow), t) == IsAvailable(a, t)
  {
  }

  /** A window built by the four-argument constructor recurs: it admits a
      time exactly when it admits the same time one week later. */
  lemma NewAvailabilityRecursWeekly(professionalId: nat, dow: DayOfWeek, s: MinuteOfDay, e: MinuteOfDay, t: int)
    ensures IsAvailable(NewAvailability(professionalId, dow, s, e), t)
        <==> IsAvailable(NewAvailability(professionalId, dow, s, e), t + 7 * MinutesPerDay)
  {
    var u := t + 7 * MinutesPerDay;
    assert Day(u) == Day(t) + 7 by {
      assert DayStart(t) + 7 * MinutesPerDay <= u < DayStart(t) + 8 * MinutesPerDay;
      assert (Day(t) + 7) * MinutesPerDay <= u < (Day(t) + 8) * MinutesPerDay;
    }
    assert TimeOfDay(u) == TimeOfDay(t);
    assert (Day(u) + 3) % 7 == (Day(t) + 3) % 7;
  }

  /** A one-off window admits times on a single calendar day only. */
  lemma OneOffIsOneDay(a: Availability, t1: int, t2: int)
    requires !a.isRecurring && IsAvailable(a, t1) && IsAvailable(a, t2)
    ensures Day(t1) == Day(t2)
  {
  }

  /** The epoch itself is a Thursday, and the next day a Friday. */
  lemma EpochIsThursday()
    ensures DayOfWeekOf(0) == Thursday
    ensures DayOfWeekOf(MinutesPerDay) == Friday
  {
  }
}
