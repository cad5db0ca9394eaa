/**
 * Calendar dates of the proleptic Gregorian calendar (the one JavaScript's `Date`
 * uses), instants, and time zones. What calendar date an instant falls on in a
 * given zone is not computed here: the modelled code asks moment-timezone or the
 * JavaScript engine, so that projection is a parameter of type `CalendarIn`.
 */
module Calendar {

  /** A (year, month, day) triple; months and days count from 1. */
  datatype CalendarDate = CalendarDate(year: int, month: int, day: int)

  predicate IsLeapYear(y: int) {
    y % 4 == 0 && (y % 100 != 0 || y % 400 == 0)
  }

  function DaysInMonth(y: int, m: int): (n: int)
    requires 1 <= m <= 12
    ensures 28 <= n <= 31
    ensures m == 2 ==> (n == 29 <==> IsLeapYear(y))
  {
    if m == 2 then (if IsLeapYear(y) then 29 else 28)
    else if m == 4 || m == 6 || m == 9 || m == 11 then 30
    else 31
  }

  /** A triple that names a real day: a month from 1 to 12 and a day that month has. */
  predicate ValidDate(d: CalendarDate) {
    1 <= d.month <= 12 && 1 <= d.day <= DaysInMonth(d.year, d.month)
  }

  type Date = d: CalendarDate | ValidDate(d) witness CalendarDate(1970, 1, 1)

  /** A point in time: milliseconds since the epoch, as JavaScript's `Date` holds it. */
  type Instant = int

  /** An IANA zone name such as "UTC" or "Asia/Kolkata". */
  type Zone = string

  /** The calendar date an instant falls on in a zone (moment-timezone's projection). */
  type CalendarIn = (Instant, Zone) -> Date
}
