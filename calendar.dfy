/** Calendar dates as JavaScript's `Date` presents them (year, month 0-11, day of month,
    milliseconds into the day), and the month arithmetic of `Date.prototype.setMonth`. */
module Calendar {

  datatype Date = Date(year: int, month: int, day: int, millis: int)

  predicate IsLeapYear(y: int) {
    (y % 4 == 0 && y % 100 != 0) || y % 400 == 0
  }

  /** Days in month `month` (0 = January) of year `year`, in the Gregorian calendar. */
  function DaysInMonth(year: int, month: int): (n: int)
    requires 0 <= month < 12
    ensures 28 <= n <= 31
    ensures n == 29 <==> month == 1 && IsLeapYear(year)
  {
    if month == 1 then (if IsLeapYear(year) then 29 else 28)
    else if month == 3 || month == 5 || month == 8 || month == 10 then 30
    else 31
  }

  /** A date a JavaScript `Date` can hold: every field within range. */
  predicate ValidDate(d: Date) {
    0 <= d.month < 12 && 1 <= d.day <= DaysInMonth(d.year, d.month) && 0 <= d.millis < 86400000
  }

  /** The position of a date on the time line, used to order timestamp columns. */
  function Instant(d: Date): int {
    ((d.year * 12 + d.month) * 32 + d.day) * 86400000 + d.millis
  }

  /** Later in the calendar means later on the time line. */
  lemma InstantOrdersDates(a: Date, b: Date)
    requires ValidDate(a) && ValidDate(b)
    ensures Instant(a) < Instant(b) <==>
      a.year * 12 + a.month < b.year * 12 + b.month
      || (a.year * 12 + a.month == b.year * 12 + b.month && (a.day < b.day || (a.day == b.day && a.millis < b.millis)))
  {
  }

  /** `d.setMonth(m)`: move to month `m` (which may lie beyond December, carrying into
      the year), keep the day of month and the time; a day the target month does not have
      overflows into the following month, as `Date` does (31 August + 6 months is 3 March,
      or 2 March in a leap year). */
  function SetMonth(d: Date, m: int): (r: Date)
    requires ValidDate(d)
    ensures ValidDate(r)
    ensures r.millis == d.millis
    ensures r.year * 12 + r.month == d.year * 12 + m || r.year * 12 + r.month == d.year * 12 + m + 1
    ensures d.day <= DaysInMonth(d.year + m / 12, m % 12) ==> r == Date(d.year + m / 12, m % 12, d.day, d.millis)
    ensures d.day > DaysInMonth(d.year + m / 12, m % 12) ==>
      && r.year * 12 + r.month == d.year * 12 + m + 1
      && r.day == d.day - DaysInMonth(d.year + m / 12, m % 12)
  {
    var y := d.year + m / 12;
    var mo := m % 12;
    var dim := DaysInMonth(y, mo);
    if d.day <= dim then Date(y, mo, d.day, d.millis)
    else if mo == 11 then Date(y + 1, 0, d.day - dim, d.millis)
    else Date(y, mo + 1, d.day - dim, d.millis)
  }

  /** `d.setMonth(d.getMonth() + 6)`, the default password expiry. */
  function SixMonthsLater(now: Date): (r: Date)
    requires ValidDate(now)
    ensures r == SetMonth(now, now.month + 6)
    ensures ValidDate(r)
    ensures Instant(r) > Instant(now)
    ensures r.millis == now.millis
  {
    var r := SetMonth(now, now.month + 6);
    InstantOrdersDates(now, r);
    r
  }

  /** The expiry on 31 August 2025 is 3 March 2026, as `Date` computes it. */
  lemma SixMonthsAfterAugust31()
    ensures SixMonthsLater(Date(2025, 7, 31, 0)) == Date(2026, 2, 3, 0)
  {
  }
}
