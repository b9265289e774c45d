/**
 * Python's `datetime.date` calendar: the proleptic Gregorian calendar, years
 * 1..9999, dates numbered by ordinal (0001-01-01 is day 1) exactly as
 * `date.toordinal()` numbers them, and `weekday()` with Monday = 0.
 */
module Dates {

  const MinYear := 1
  const MaxYear := 9999

  predicate IsLeap(year: int) {
    year % 4 == 0 && (year % 100 != 0 || year % 400 == 0)
  }

  function DaysInMonth(year: int, month: int): (n: int)
    requires 1 <= month <= 12
    ensures 28 <= n <= 31
  {
    if month == 2 then (if IsLeap(year) then 29 else 28)
    else if month == 4 || month == 6 || month == 9 || month == 11 then 30
    else 31
  }

  /** Days in the year before day 1 of `month`. */
  function DaysBeforeMonth(year: int, month: int): int
    requires 1 <= month <= 12
  {
    var table := [0, 31, 59, 90, 120, 151, 181, 212, 243, 273, 304, 334];
    table[month - 1] + (if month > 2 && IsLeap(year) then 1 else 0)
  }

  /** Days before January 1 of `year`. */
  function DaysBeforeYear(year: int): int
    requires year >= 1
  {
    var y := year - 1;
    y * 365 + y / 4 - y / 100 + y / 400
  }

  predicate ValidDate(year: int, month: int, day: int) {
    MinYear <= year <= MaxYear && 1 <= month <= 12 && 1 <= day <= DaysInMonth(year, month)
  }

  /** `date(year, month, day).toordinal()`. */
  function Ordinal(year: int, month: int, day: int): int
    requires ValidDate(year, month, day)
  {
    DaysBeforeYear(year) + DaysBeforeMonth(year, month) + day
  }

  /** `weekday()` of the date with this ordinal: Monday is 0, Sunday is 6. */
  function Weekday(ordinal: int): (w: int)
    ensures 0 <= w <= 6
  {
    (ordinal + 6) % 7
  }

  /** Going back `weekday` days always lands on a Monday. */
  lemma BackToMonday(ordinal: int)
    ensures Weekday(ordinal - Weekday(ordinal)) == 0
  {
    var q := (ordinal + 6) / 7;
    assert ordinal + 6 == 7 * q + Weekday(ordinal);
    assert ordinal - Weekday(ordinal) + 6 == 7 * q;
  }

  /** Six weeks later is the same weekday. */
  lemma SixWeeksLater(ordinal: int)
    ensures Weekday(ordinal + 42) == Weekday(ordinal)
  {
    var q := (ordinal + 6) / 7;
    assert ordinal + 6 == 7 * q + Weekday(ordinal);
    assert ordinal + 42 + 6 == 7 * (q + 6) + Weekday(ordinal);
  }

  /** The ordinal of 9999-12-31, the largest date Python can represent. */
  const MaxOrdinal := 3652059

  /** The month before (year, month), as a (year, month) pair. */
  function PreviousMonth(year: int, month: int): (ym: (int, int))
    requires 1 <= month <= 12
    ensures 1 <= ym.1 <= 12
  {
    if month == 1 then (year - 1, 12) else (year, month - 1)
  }

  /** `n / k` grows by one exactly when `n` is a multiple of `k` (for k = 4, 100, 400). */
  lemma {:induction false} DivStep(n: int, k: int)
    requires n >= 1 && (k == 4 || k == 100 || k == 400)
    ensures n / k - (n - 1) / k == if n % k == 0 then 1 else 0
  {
    if k == 4 {
      var q, r := (n - 1) / 4, (n - 1) % 4;
      assert n == 4 * q + r + 1;
    } else if k == 100 {
      var q, r := (n - 1) / 100, (n - 1) % 100;
      assert n == 100 * q + r + 1;
    } else {
      var q, r := (n - 1) / 400, (n - 1) % 400;
      assert n == 400 * q + r + 1;
    }
  }

  lemma ModChain(year: int)
    ensures year % 400 == 0 ==> year % 100 == 0
    ensures year % 100 == 0 ==> year % 4 == 0
  {
    if year % 400 == 0 {
      var q := year / 400;
      assert year == 100 * (4 * q);
    }
    if year % 100 == 0 {
      var q := year / 100;
      assert year == 4 * (25 * q);
    }
  }

  /** A year has 365 days, or 366 when it is a leap year. */
  lemma {:induction false} YearLength(year: int)
    requires year >= 1
    ensures DaysBeforeYear(year + 1) == DaysBeforeYear(year) + (if IsLeap(year) then 366 else 365)
  {
    DivStep(year, 4);
    DivStep(year, 100);
    DivStep(year, 400);
    ModChain(year);
    var d4, d100, d400 := year / 4 - (year - 1) / 4, year / 100 - (year - 1) / 100, year / 400 - (year - 1) / 400;
    assert DaysBeforeYear(year + 1) - DaysBeforeYear(year) == 365 + d4 - d100 + d400;
  }

  lemma {:induction false} DaysBeforeYearMonotone(a: int, b: int)
    requires 1 <= a <= b
    ensures DaysBeforeYear(a) <= DaysBeforeYear(b)
    decreases b - a
  {
    if a < b {
      YearLength(a);
      DaysBeforeYearMonotone(a + 1, b);
    }
  }

  /**
   * Day 1 of a month directly follows the last day of the month before it,
   * including across a year boundary.
   */
  lemma {:induction false} MonthFollowsPrevious(year: int, month: int)
    requires MinYear <= year <= MaxYear && 1 <= month <= 12
    requires (year, month) != (MinYear, 1)
    ensures var (py, pm) := PreviousMonth(year, month);
      ValidDate(py, pm, DaysInMonth(py, pm)) &&
      Ordinal(year, month, 1) == Ordinal(py, pm, DaysInMonth(py, pm)) + 1
  {
    if month == 1 {
      YearLength(year - 1);
    }
  }

  /** Consecutive days of one month have consecutive ordinals. */
  lemma OrdinalWithinMonth(year: int, month: int, day: int)
    requires ValidDate(year, month, day)
    ensures Ordinal(year, month, day) == Ordinal(year, month, 1) + day - 1
  {
  }
}
