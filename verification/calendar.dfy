/**
 * Calendar days as the JavaScript `Date` constructor and its local-time
 * getters see them: proleptic Gregorian years, months 1..12 (one more than
 * `getMonth()`), days 1..28-31. Day ordinals give an independent account of
 * "n days earlier"; month indices give one of "n months earlier".
 */
module Calendar {

  datatype Date = Date(year: int, month: int, day: int)

  predicate IsLeapYear(y: int) {
    y % 4 == 0 && (y % 100 != 0 || y % 400 == 0)
  }

  function DaysInMonth(y: int, m: int): (n: int)
    requires 1 <= m <= 12
    ensures 28 <= n <= 31
    ensures n == 29 <==> m == 2 && IsLeapYear(y)
  {
    if m == 2 then (if IsLeapYear(y) then 29 else 28)
    else if m == 4 || m == 6 || m == 9 || m == 11 then 30
    else 31
  }

  predicate ValidDate(d: Date) {
    1 <= d.month <= 12 && 1 <= d.day <= DaysInMonth(d.year, d.month)
  }

  function DaysInYear(y: int): int {
    if IsLeapYear(y) then 366 else 365
  }

  // ---------------------------------------------------------------- day ordinals

  /** Days from 1 January of year 1 to 1 January of year `y` (negative for earlier years). */
  function DaysBeforeYear(y: int): int
    decreases if y >= 1 then y - 1 else 1 - y
  {
    if y == 1 then 0
    else if y > 1 then DaysBeforeYear(y - 1) + DaysInYear(y - 1)
    else DaysBeforeYear(y + 1) - DaysInYear(y)
  }

  /** Days from 1 January to the first day of month `m` of year `y`. */
  function DaysBeforeMonth(y: int, m: int): int
    requires 1 <= m <= 12
  {
    if m == 1 then 0 else DaysBeforeMonth(y, m - 1) + DaysInMonth(y, m - 1)
  }

  /** The number of the day counted from 1 January of year 1 (which is day 0). */
  function Ordinal(d: Date): int
    requires 1 <= d.month <= 12
  {
    DaysBeforeYear(d.year) + DaysBeforeMonth(d.year, d.month) + d.day - 1
  }

  lemma DaysBeforeYearStep(y: int)
    ensures DaysBeforeYear(y) == DaysBeforeYear(y - 1) + DaysInYear(y - 1)
  {
  }

  lemma DaysBeforeDecember(y: int)
    ensures DaysBeforeMonth(y, 12) + 31 == DaysInYear(y)
  {
    assert DaysBeforeMonth(y, 2) == 31;
    assert DaysBeforeMonth(y, 4) == DaysBeforeMonth(y, 3) + 31;
    assert DaysBeforeMonth(y, 6) == DaysBeforeMonth(y, 5) + 31;
    assert DaysBeforeMonth(y, 8) == DaysBeforeMonth(y, 7) + 31;
    assert DaysBeforeMonth(y, 10) == DaysBeforeMonth(y, 9) + 30;
    assert DaysBeforeMonth(y, 12) == DaysBeforeMonth(y, 11) + 30;
  }

  // ---------------------------------------------------------------- sort key

  /**
   * A number that orders valid dates as the `YYYY-MM-DD` strings of
   * four-digit years order them (see IsoDate.ToYMDOrder).
   */
  function DateKey(d: Date): int {
    d.year * 512 + d.month * 32 + d.day
  }

  /** For valid dates the key orders by year, then month, then day. */
  lemma DateKeyLexicographic(a: Date, b: Date)
    requires ValidDate(a) && ValidDate(b)
    ensures DateKey(a) < DateKey(b) <==>
            a.year < b.year || (a.year == b.year && (a.month < b.month || (a.month == b.month && a.day < b.day)))
    ensures DateKey(a) == DateKey(b) <==> a == b
  {
  }

  // ---------------------------------------------------------------- stepping back

  /** The day before `d`, as `setDate(getDate() - 1)` normalises it. */
  function PrevDay(d: Date): (r: Date)
    requires ValidDate(d)
    ensures ValidDate(r)
    ensures Ordinal(r) == Ordinal(d) - 1
    ensures DateKey(r) < DateKey(d)
  {
    if d.day > 1 then Date(d.year, d.month, d.day - 1)
    else if d.month > 1 then Date(d.year, d.month - 1, DaysInMonth(d.year, d.month - 1))
    else
      DaysBeforeYearStep(d.year);
      DaysBeforeDecember(d.year - 1);
      Date(d.year - 1, 12, 31)
  }

  /** `n` days before `d`: `setDate(getDate() - n)`. */
  function DaysBack(d: Date, n: nat): (r: Date)
    requires ValidDate(d)
    ensures ValidDate(r)
    ensures Ordinal(r) == Ordinal(d) - n
    ensures DateKey(r) <= DateKey(d)
    decreases n
  {
    if n == 0 then d else DaysBack(PrevDay(d), n - 1)
  }

  // ---------------------------------------------------------------- months

  /** Months counted from January of year 0: the month part of the `YYYY-MM` trend key as one number. */
  function MonthIndex(d: Date): int {
    d.year * 12 + d.month - 1
  }

  /** `new Date(y, m, 1)` for any month number: JavaScript carries months outside 0..11 into the year. */
  function FirstOfMonth(i: int): (r: Date)
    ensures ValidDate(r) && r.day == 1
    ensures MonthIndex(r) == i
  {
    Date(i / 12, i % 12 + 1, 1)
  }

  /** The last day of the month with index `i`. */
  function LastOfMonth(i: int): (r: Date)
    ensures ValidDate(r) && MonthIndex(r) == i
    ensures r.day == DaysInMonth(r.year, r.month)
  {
    var f := FirstOfMonth(i);
    Date(f.year, f.month, DaysInMonth(f.year, f.month))
  }

  /**
   * `new Date(y, m, 0)`: day 0 of a month is the last day of the month
   * before; the two constructions agree.
   */
  lemma DayZeroIsLastOfPreviousMonth(i: int)
    ensures PrevDay(FirstOfMonth(i)) == LastOfMonth(i - 1)
  {
    var f := FirstOfMonth(i);
    var l := LastOfMonth(i - 1);
    if f.month > 1 {
      assert l.year == f.year && l.month == f.month - 1;
    } else {
      assert l.year == f.year - 1 && l.month == 12;
    }
  }
}
