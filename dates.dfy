/** The slice of java.time the lease term needs: ISO calendar dates, `plusMonths`,
    and the whole-month count of `Period.between(start, end)`. */
module Dates {

  datatype Date = Date(year: int, month: int, day: int)

  /** Gregorian leap years, as the ISO chronology defines them. */
  predicate IsLeapYear(y: int) {
    y % 4 == 0 && (y % 100 != 0 || y % 400 == 0)
  }

  function DaysInMonth(y: int, m: int): (n: int)
    requires 1 <= m <= 12
    ensures 28 <= n <= 31
  {
    if m == 2 then (if IsLeapYear(y) then 29 else 28)
    else if m == 4 || m == 6 || m == 9 || m == 11 then 30
    else 31
  }

  /** A date that `LocalDate` can represent: a real month and a day inside it. */
  predicate ValidDate(d: Date) {
    1 <= d.month <= 12 && 1 <= d.day <= DaysInMonth(d.year, d.month)
  }

  /** Months since year 0, as `LocalDate.getProlepticMonth`. */
  function ProlepticMonth(d: Date): int {
    d.year * 12 + d.month - 1
  }

  /** Chronological order of dates. */
  predicate OnOrBefore(a: Date, b: Date) {
    ProlepticMonth(a) < ProlepticMonth(b)
    || (ProlepticMonth(a) == ProlepticMonth(b) && a.day <= b.day)
  }

  /** `d.plusMonths(n)`: the same day `n` months later, clamped to the length of
      the target month. */
  function PlusMonths(d: Date, n: int): (r: Date)
    ensures ValidDate(r)
    ensures ProlepticMonth(r) == ProlepticMonth(d) + n
    ensures 1 <= d.day ==> r.day <= d.day
    ensures 1 <= d.day <= DaysInMonth(r.year, r.month) ==> r.day == d.day
  {
    var total := ProlepticMonth(d) + n;
    var y, m := total / 12, total % 12 + 1;
    var len := DaysInMonth(y, m);
    Date(y, m, if d.day < 1 then 1 else if d.day > len then len else d.day)
  }

  /** Java's `/` and `%` on `long`, which truncate toward zero. */
  function JavaDiv(a: int, b: int): int
    requires b > 0
  {
    if a >= 0 then a / b else -((-a) / b)
  }

  function JavaRem(a: int, b: int): int
    requires b > 0
  {
    if a >= 0 then a % b else -((-a) % b)
  }

  /** The total month count `Period.between(start, end)` is built from: the difference
      of the proleptic months, one fewer when the end day-of-month has not reached the
      start day (one more, going backwards, when it has passed it). */
  function PeriodTotalMonths(start: Date, end: Date): int {
    var total := ProlepticMonth(end) - ProlepticMonth(start);
    var days := end.day - start.day;
    if total > 0 && days < 0 then total - 1
    else if total < 0 && days > 0 then total + 1
    else total
  }

  /** `Period.between(start, end).getYears()` and `.getMonths()`. */
  function PeriodYears(start: Date, end: Date): int {
    JavaDiv(PeriodTotalMonths(start, end), 12)
  }

  function PeriodMonths(start: Date, end: Date): int {
    JavaRem(PeriodTotalMonths(start, end), 12)
  }

  /** `getYears() * 12 + getMonths()`, the lease term of `Lease.getTime`. */
  function MonthsBetween(start: Date, end: Date): int {
    PeriodYears(start, end) * 12 + PeriodMonths(start, end)
  }

  /** The years/months decomposition of the period adds back up to its month total,
      and the months part is a remainder of twelve with the sign of the total. */
  lemma MonthsBetweenIsTotal(start: Date, end: Date)
    ensures MonthsBetween(start, end) == PeriodTotalMonths(start, end)
    ensures -12 < PeriodMonths(start, end) < 12
    ensures PeriodTotalMonths(start, end) >= 0 ==> PeriodMonths(start, end) >= 0
  {
  }

  /** `end` has reached the `n`-th monthly anniversary of `start`: `n` months later
      on the same day of the month. */
  predicate ReachedAnniversary(start: Date, end: Date, n: int) {
    ProlepticMonth(start) + n < ProlepticMonth(end)
    || (ProlepticMonth(start) + n == ProlepticMonth(end) && start.day <= end.day)
  }

  /** The term counts whole months only: `end` has reached the term's anniversary of
      `start` but not the next one, and `start.plusMonths(term)` is not after `end`. */
  lemma MonthsBetweenIsWholeMonths(start: Date, end: Date)
    requires ValidDate(start) && ValidDate(end) && OnOrBefore(start, end)
    ensures MonthsBetween(start, end) >= 0
    ensures ReachedAnniversary(start, end, MonthsBetween(start, end))
    ensures !ReachedAnniversary(start, end, MonthsBetween(start, end) + 1)
    ensures OnOrBefore(PlusMonths(start, MonthsBetween(start, end)), end)
  {
    MonthsBetweenIsTotal(start, end);
    var m := MonthsBetween(start, end);
    var lo := PlusMonths(start, m);
    var total := ProlepticMonth(end) - ProlepticMonth(start);
    if end.day < start.day {
      assert total > 0 && m == total - 1;
      assert ProlepticMonth(lo) < ProlepticMonth(end);
    } else {
      assert m == total;
      assert lo.year == end.year && lo.month == end.month;
      assert lo.day == start.day;
    }
  }

  /** A six-month lease from 2024-01-01 to 2024-07-01 has a term of 6. */
  lemma SixMonthTerm()
    ensures MonthsBetween(Date(2024, 1, 1), Date(2024, 7, 1)) == 6
  {
  }

  /** Anniversaries are counted on the day of the month, with no clamping: from
      January 31 to February 28 is no whole month, although `plusMonths(1)` of
      January 31 is February 28. */
  lemma MonthEndIsNotAWholeMonth()
    ensures MonthsBetween(Date(2023, 1, 31), Date(2023, 2, 28)) == 0
    ensures PlusMonths(Date(2023, 1, 31), 1) == Date(2023, 2, 28)
  {
  }

  /** A trailing partial month is not counted: 2024-01-15 to 2024-03-14 is one month. */
  lemma PartialMonthNotCounted()
    ensures MonthsBetween(Date(2024, 1, 15), Date(2024, 3, 14)) == 1
  {
  }
}
