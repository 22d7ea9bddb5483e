/**
 * The time policy a booking request must pass before it is stored:
 * the private checks `validateBookingTime`, `isWithinBusinessHours` and
 * `isWeekday` of the booking service.
 *
 * An instant (a `LocalDateTime` in the source) is a whole number of minutes
 * counted from midnight at the start of a Monday. The day of the week and the
 * time of day are derived from it arithmetically; Dafny's `/` and `%` on a
 * positive divisor round towards minus infinity, so instants before the epoch
 * fall on the right day too.
 */
module Validation {

  const MinutesPerHour := 60
  const MinutesPerDay := 24 * MinutesPerHour
  const DaysPerWeek := 7

  /** `LocalTime.of(8, 0)` and `LocalTime.of(18, 0)`, in minutes after midnight. */
  const BusinessStart := 8 * MinutesPerHour
  const BusinessEnd := 18 * MinutesPerHour

  datatype DayOfWeek = Monday | Tuesday | Wednesday | Thursday | Friday | Saturday | Sunday

  /** The calendar day an instant falls on, counted from the epoch Monday. */
  function DayIndex(t: int): int {
    t / MinutesPerDay
  }

  /** `DayOfWeek.getValue()`: Monday is 1, Sunday is 7. */
  function DayValue(d: DayOfWeek): int {
    match d
    case Monday => 1
    case Tuesday => 2
    case Wednesday => 3
    case Thursday => 4
    case Friday => 5
    case Saturday => 6
    case Sunday => 7
  }

  /** `dateTime.getDayOfWeek()`: the position of the instant's day in its week. */
  function DayOfWeekOf(t: int): (r: DayOfWeek)
    ensures DayValue(r) == DayIndex(t) % DaysPerWeek + 1
  {
    match DayIndex(t) % DaysPerWeek
    case 0 => Monday
    case 1 => Tuesday
    case 2 => Wednesday
    case 3 => Thursday
    case 4 => Friday
    case 5 => Saturday
    case _ => Sunday
  }

  /** `dateTime.toLocalTime()`: minutes after midnight. */
  function TimeOfDay(t: int): (m: int)
    ensures 0 <= m < MinutesPerDay
    ensures t == DayIndex(t) * MinutesPerDay + m
  {
    t % MinutesPerDay
  }

  function HourOf(t: int): (h: int)
    ensures 0 <= h < 24
  {
    TimeOfDay(t) / MinutesPerHour
  }

  function MinuteOf(t: int): (m: int)
    ensures 0 <= m < MinutesPerHour
  {
    TimeOfDay(t) % MinutesPerHour
  }

  /**
   * Both bounds are exclusive: 08:00 and 18:00 themselves are outside
   * business hours, 08:01 and 17:59 are inside.
   */
  predicate IsWithinBusinessHours(t: int)
    ensures IsWithinBusinessHours(t) <==>
              8 <= HourOf(t) < 18 && !(HourOf(t) == 8 && MinuteOf(t) == 0)
  {
    var time := TimeOfDay(t);
    BusinessStart < time && time < BusinessEnd
  }

  /** False exactly on Saturdays and Sundays, the last two days of each week. */
  predicate IsWeekday(t: int)
    ensures IsWeekday(t) <==> DayIndex(t) % DaysPerWeek < 5
  {
    var day := DayOfWeekOf(t);
    day != Saturday && day != Sunday
  }

  /** The day after a Sunday is a Monday; otherwise the week advances by one day. */
  lemma NextDayOfWeek(t: int)
    ensures DayValue(DayOfWeekOf(t + MinutesPerDay)) == DayValue(DayOfWeekOf(t)) % DaysPerWeek + 1
  {
    assert DayIndex(t + MinutesPerDay) == DayIndex(t) + 1;
  }

  /** The weekday test repeats every seven days. */
  lemma WeekdayIsWeekly(t: int, weeks: int)
    ensures IsWeekday(t) == IsWeekday(t + weeks * DaysPerWeek * MinutesPerDay)
  {
    var u := t + weeks * DaysPerWeek * MinutesPerDay;
    assert u == (DayIndex(t) + weeks * DaysPerWeek) * MinutesPerDay + TimeOfDay(t);
    assert DayIndex(u) == DayIndex(t) + weeks * DaysPerWeek;
    assert DayIndex(u) % DaysPerWeek == DayIndex(t) % DaysPerWeek;
  }

  /**
   * Why a request is refused. All four are raised in the source as the same
   * exception type, told apart by the message.
   */
  datatype Rejection = StartAfterEnd | NotInFuture | OutsideBusinessHours | RoomNotFound

  function Message(r: Rejection): string {
    match r
    case StartAfterEnd => "Start time cannot be after end time"
    case NotInFuture => "Booking times must be in the future"
    case OutsideBusinessHours => "Booking must be within business hours"
    case RoomNotFound => "Room not found"
  }

  /** Each reason for a refusal has its own message, so a client can tell them apart. */
  lemma MessagesTellReasonsApart(a: Rejection, b: Rejection)
    ensures Message(a) == Message(b) <==> a == b
  {
  }

  datatype Outcome = Pass | Fail(reason: Rejection)

  /**
   * The three checks in the order the source makes them. The business-rule
   * test follows Java precedence: `&&` binds tighter than `||`, so a request
   * is refused when both ends are off weekdays, or both ends are outside
   * business hours. The comparisons `isAfter` and `isBefore` are strict, so
   * `start == end` and an end point equal to `now` both pass.
   */
  function ValidateBookingTime(start: int, end: int, now: int): (r: Outcome)
    ensures r == Fail(StartAfterEnd) <==> start > end
    ensures r == Fail(NotInFuture) <==> start <= end && (start < now || end < now)
    ensures r == Fail(OutsideBusinessHours) <==>
              start <= end && now <= start && now <= end &&
              ((!IsWeekday(start) && !IsWeekday(end)) ||
               (!IsWithinBusinessHours(start) && !IsWithinBusinessHours(end)))
    ensures r.Pass? <==>
              now <= start <= end &&
              (IsWeekday(start) || IsWeekday(end)) &&
              (IsWithinBusinessHours(start) || IsWithinBusinessHours(end))
    ensures r != Fail(RoomNotFound)
  {
    if start > end then
      Fail(StartAfterEnd)
    else if start < now || end < now then
      Fail(NotInFuture)
    else if (!IsWeekday(start) && !IsWeekday(end)) ||
            (!IsWithinBusinessHours(start) && !IsWithinBusinessHours(end)) then
      Fail(OutsideBusinessHours)
    else
      Pass
  }

  /** The instant at `hour:minute` on day `day` after the epoch Monday. */
  function At(day: int, hour: int, minute: int): int {
    day * MinutesPerDay + hour * MinutesPerHour + minute
  }

  /** A zero-length interval inside business hours on a weekday is accepted. */
  lemma ZeroLengthIntervalPasses(t: int, now: int)
    requires now <= t && IsWeekday(t) && IsWithinBusinessHours(t)
    ensures ValidateBookingTime(t, t, now) == Pass
  {
  }

  /** An end point equal to the current instant is not "in the past". */
  lemma StartAtNowPasses(now: int, end: int)
    requires now <= end && IsWeekday(now) && IsWithinBusinessHours(now)
    ensures ValidateBookingTime(now, end, now) == Pass
  {
  }

  /** `At` names the day it falls on and the minute of that day. */
  lemma AtParts(day: int, hour: int, minute: int)
    requires 0 <= hour < 24 && 0 <= minute < MinutesPerHour
    ensures DayIndex(At(day, hour, minute)) == day
    ensures TimeOfDay(At(day, hour, minute)) == hour * MinutesPerHour + minute
  {
  }

  /**
   * The compound rule lets through a booking from a Saturday 17:00 to the
   * following Monday 07:00: only the start is within business hours and only
   * the end is on a weekday, so neither conjunct of the refusal holds.
   */
  lemma WeekendCrossingPasses(day: int, now: int)
    requires day % DaysPerWeek == 5 && now <= At(day, 17, 0)
    ensures DayOfWeekOf(At(day, 17, 0)) == Saturday && DayOfWeekOf(At(day + 2, 7, 0)) == Monday
    ensures ValidateBookingTime(At(day, 17, 0), At(day + 2, 7, 0), now) == Pass
  {
    AtParts(day, 17, 0);
    AtParts(day + 2, 7, 0);
  }

  /** A request with both ends on a Saturday, not in the past, is refused: neither end is on a weekday. */
  lemma SaturdayRefused(start: int, end: int, now: int)
    requires DayOfWeekOf(start) == Saturday && DayOfWeekOf(end) == Saturday
    requires now <= start <= end
    ensures ValidateBookingTime(start, end, now) == Fail(OutsideBusinessHours)
  {
  }

  /** 07:00 to 09:00 on any Tuesday passes: the end point is within business hours. */
  lemma EarlyStartPasses(day: int, now: int)
    requires day % DaysPerWeek == 1 && now <= At(day, 7, 0)
    ensures ValidateBookingTime(At(day, 7, 0), At(day, 9, 0), now) == Pass
  {
    AtParts(day, 7, 0);
    AtParts(day, 9, 0);
  }

  /** 18:01 to 19:00 on any Tuesday is refused: both ends are after hours. */
  lemma AfterHoursRefused(day: int, now: int)
    requires day % DaysPerWeek == 1 && now <= At(day, 18, 1)
    ensures ValidateBookingTime(At(day, 18, 1), At(day, 19, 0), now) == Fail(OutsideBusinessHours)
  {
    AtParts(day, 18, 1);
    AtParts(day, 19, 0);
  }
}
