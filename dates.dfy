/** Calendar dates as compared by the clinic module, and the `years` part of
    `relativedelta(today, birth)` used for a patient's age. */
module Dates {

  const MinYear := 1
  const MaxYear := 9999

  /** A `date` value: (year, month, day). */
  datatype Date = Date(year: int, month: int, day: int)

  predicate IsLeapYear(y: int) {
    y % 4 == 0 && (y % 100 != 0 || y % 400 == 0)
  }

  function DaysInMonth(y: int, m: int): (n: int)
    requires 1 <= m <= 12
    ensures 28 <= n <= 31
  {
    if m == 2 then (if IsLeapYear(y) then 29 else 28)
    else if m == 4 || m == 6 || m == 9 || m == 11 then 30
    else 31
  }

  /** The dates a `date` object can hold. */
  predicate ValidDate(d: Date) {
    MinYear <= d.year <= MaxYear && 1 <= d.month <= 12 && 1 <= d.day <= DaysInMonth(d.year, d.month)
  }

  /** `a < b`: lexicographic on (year, month, day). */
  predicate Before(a: Date, b: Date) {
    a.year < b.year || (a.year == b.year && MonthDayBefore(a, b))
  }

  /** `a <= b`. */
  predicate AtOrBefore(a: Date, b: Date) {
    !Before(b, a)
  }

  /** (a.month, a.day) < (b.month, b.day): the anniversary of `b` falls after the one of `a` within a year. */
  predicate MonthDayBefore(a: Date, b: Date) {
    a.month < b.month || (a.month == b.month && a.day < b.day)
  }

  /** The same month and day, `n` years later. */
  function AddYears(d: Date, n: int): Date {
    Date(d.year + n, d.month, d.day)
  }

  /** `relativedelta(dt1, dt2).years`, computed as dateutil does: the signed number of whole
      months from `dt2` to `dt1`, then its whole years, truncated toward zero. Adding months
      keeps the day of the month (the clipping of days past the end of a month is not modelled). */
  function RelativeDeltaYears(dt1: Date, dt2: Date): (r: int)
    ensures ValidDate(dt1) && ValidDate(dt2) && AtOrBefore(dt2, dt1) ==> 0 <= r <= dt1.year - dt2.year
    ensures ValidDate(dt1) && ValidDate(dt2) && Before(dt1, dt2) ==> dt1.year - dt2.year <= r <= 0
  {
    var months := (dt1.year - dt2.year) * 12 + (dt1.month - dt2.month);
    if !Before(dt1, dt2) then
      // dt2 + months lies after dt1 when dt1's day is the smaller: one month fewer
      var whole := if dt1.day < dt2.day then months - 1 else months;
      whole / 12
    else
      // dt2 + months lies before dt1 when dt1's day is the larger: one month more
      var whole := if dt1.day > dt2.day then months + 1 else months;
      -((-whole) / 12)
  }

  /** For a birth date on or before today, the age is the number of whole years elapsed: the
      birthday `n` years on has passed and the one `n + 1` years on has not. */
  lemma RelativeDeltaYearsIsWholeYears(today: Date, birth: Date)
    requires ValidDate(today) && ValidDate(birth) && AtOrBefore(birth, today)
    ensures var n := RelativeDeltaYears(today, birth);
      n >= 0 && AtOrBefore(AddYears(birth, n), today) && Before(today, AddYears(birth, n + 1))
  {
  }

  /** For a birth date after today, `relativedelta` counts the whole years back from the birth
      date and negates them. */
  lemma RelativeDeltaYearsForFutureBirth(today: Date, birth: Date)
    requires ValidDate(today) && ValidDate(birth) && Before(today, birth)
    ensures var n := RelativeDeltaYears(today, birth);
      n <= 0 && AtOrBefore(AddYears(today, -n), birth) && Before(birth, AddYears(today, -n + 1))
  {
  }

  /** At most one number of whole years separates two dates. */
  lemma WholeYearsUnique(from: Date, to: Date, n: int, m: int)
    requires AtOrBefore(AddYears(from, n), to) && Before(to, AddYears(from, n + 1))
    requires AtOrBefore(AddYears(from, m), to) && Before(to, AddYears(from, m + 1))
    ensures n == m
  {
  }
}
