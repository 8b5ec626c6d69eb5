/**
 * The period resolver: `periodDates` (src/App.jsx:191-202) and the `custom`
 * branch of the period scoping (src/App.jsx:881). "Today" is a parameter; an
 * instant is a calendar day plus milliseconds since local midnight.
 */
module Period {
  import opened Calendar
  import opened IsoDate
  import opened SeqUtil

  /** 23:59:59.999, what `setHours(23, 59, 59, 999)` sets. */
  const EndOfDay: int := 86_399_999
  /** 23:59:59.000, what `new Date(y, m, 0, 23, 59, 59)` gives (no milliseconds argument). */
  const LastSecond: int := 86_399_000

  datatype Instant = Instant(date: Date, ms: int)

  /** A closed interval `[from, to]` of instants. */
  datatype Range = Range(from: Instant, to: Instant)

  predicate ValidInstant(t: Instant) {
    ValidDate(t.date) && 0 <= t.ms <= EndOfDay
  }

  /** `a <= b` on `Date` objects: by day, then by time of day. */
  predicate InstantLe(a: Instant, b: Instant) {
    DateKey(a.date) < DateKey(b.date) || (DateKey(a.date) == DateKey(b.date) && a.ms <= b.ms)
  }

  predicate WellFormed(r: Range) {
    ValidInstant(r.from) && ValidInstant(r.to) && InstantLe(r.from, r.to)
  }

  /** `periodDates(pid)`: the range a period selector stands for, seen on day `today`. */
  function PeriodDates(pid: string, today: Date): (r: Range)
    requires ValidDate(today)
    ensures WellFormed(r)
    ensures r.from.ms == 0
  {
    var t := Instant(today, EndOfDay);
    var m := MonthIndex(today);
    if pid == "7d" then Range(Instant(DaysBack(today, 6), 0), t)
    else if pid == "lastm" then Range(Instant(FirstOfMonth(m - 1), 0), Instant(LastOfMonth(m - 1), LastSecond))
    else if pid == "3m" then Range(Instant(FirstOfMonth(m - 3), 0), t)
    else if pid == "ytd" then Range(Instant(Date(today.year, 1, 1), 0), t)
    else Range(Instant(FirstOfMonth(m), 0), t)  // "mtd" and every other selector
  }

  /** Every range but last month's ends at the last millisecond of today. */
  lemma PeriodEndsToday(pid: string, today: Date)
    requires ValidDate(today) && pid != "lastm"
    ensures PeriodDates(pid, today).to == Instant(today, EndOfDay)
  {
  }

  /** "mtd" and any selector the resolver does not know start on day 1 of the current month. */
  lemma MonthToDate(pid: string, today: Date)
    requires ValidDate(today)
    requires pid !in {"7d", "lastm", "3m", "ytd"}
    ensures var r := PeriodDates(pid, today);
            r.from == Instant(Date(today.year, today.month, 1), 0)
  {
    assert MonthIndex(Date(today.year, today.month, 1)) == MonthIndex(today);
  }

  /** "7d" starts at 00:00 six days before today: a seven-day window counting today. */
  lemma SevenDays(today: Date)
    requires ValidDate(today)
    ensures var r := PeriodDates("7d", today);
            r.from.ms == 0 && Ordinal(r.from.date) == Ordinal(today) - 6
  {
  }

  /**
   * "lastm" runs from day 1 of the previous month (December of the previous
   * year in January) to 23:59:59 on the day before the first of this month.
   */
  lemma LastMonth(today: Date)
    requires ValidDate(today)
    ensures var r := PeriodDates("lastm", today);
            && r.from.date.day == 1
            && MonthIndex(r.from.date) == MonthIndex(today) - 1
            && r.from.date.year == (if today.month == 1 then today.year - 1 else today.year)
            && r.from.date.month == (if today.month == 1 then 12 else today.month - 1)
            && r.to == Instant(PrevDay(Date(today.year, today.month, 1)), LastSecond)
  {
    DayZeroIsLastOfPreviousMonth(MonthIndex(today));
    assert FirstOfMonth(MonthIndex(today)) == Date(today.year, today.month, 1);
  }

  /** "3m" starts on day 1 of the month three months before the current one. */
  lemma ThreeMonths(today: Date)
    requires ValidDate(today)
    ensures var r := PeriodDates("3m", today);
            && r.from.date.day == 1
            && MonthIndex(r.from.date) == MonthIndex(today) - 3
            && r.from.date.year == (if today.month <= 3 then today.year - 1 else today.year)
            && r.from.date.month == (if today.month <= 3 then today.month + 9 else today.month - 3)
  {
  }

  /** "ytd" starts on 1 January of the current year. */
  lemma YearToDate(today: Date)
    requires ValidDate(today)
    ensures PeriodDates("ytd", today).from == Instant(Date(today.year, 1, 1), 0)
  {
  }

  // ---------------------------------------------------------------- custom range

  /**
   * The `custom` bounds: `cFrom` at 00:00:00.000 to `cTo` at 23:59:59.999.
   * A string that does not read as a date makes an invalid `Date`, which no
   * comparison accepts; that is `None` here.
   */
  function CustomRange(cFrom: string, cTo: string): (r: Option<Range>)
    ensures r.Some? <==> ParseYMD(cFrom).Some? && ParseYMD(cTo).Some?
    ensures r.Some? ==> ValidInstant(r.value.from) && ValidInstant(r.value.to)
                        && r.value.from == Instant(ParseYMD(cFrom).value, 0)
                        && r.value.to == Instant(ParseYMD(cTo).value, EndOfDay)
  {
    match (ParseYMD(cFrom), ParseYMD(cTo))
    case (Some(f), Some(t)) => Some(Range(Instant(f, 0), Instant(t, EndOfDay)))
    case _ => None
  }

  /** The range the period scoping uses: the custom bounds, or the selector's range. */
  function ActiveRange(period: string, cFrom: string, cTo: string, today: Date): (r: Option<Range>)
    requires ValidDate(today)
    ensures r.None? <==> period == "custom" && (ParseYMD(cFrom).None? || ParseYMD(cTo).None?)
    ensures r.Some? ==> r.value.from.ms == 0 && ValidInstant(r.value.from) && ValidInstant(r.value.to)
  {
    if period == "custom" then CustomRange(cFrom, cTo) else Some(PeriodDates(period, today))
  }

  /**
   * `d >= from && d <= to` for a transaction dated `d`, which `new Date(t.date)`
   * places at midnight; no date is inside a missing range.
   */
  predicate InRange(d: Date, r: Option<Range>) {
    r.Some? && InstantLe(r.value.from, Instant(d, 0)) && InstantLe(Instant(d, 0), r.value.to)
  }

  /**
   * For a range that starts at midnight, a day is inside exactly when it is
   * neither before the first day nor after the last.
   */
  lemma InRangeByDay(d: Date, r: Range)
    requires r.from.ms == 0 && r.to.ms >= 0
    ensures InRange(d, Some(r)) <==> DateKey(r.from.date) <= DateKey(d) <= DateKey(r.to.date)
  {
  }

  /** A custom range whose start is after its end contains no day at all. */
  lemma InvertedCustomRangeIsEmpty(cFrom: string, cTo: string, d: Date)
    requires ParseYMD(cFrom).Some? && ParseYMD(cTo).Some?
    requires DateKey(ParseYMD(cTo).value) < DateKey(ParseYMD(cFrom).value)
    ensures !InRange(d, CustomRange(cFrom, cTo))
  {
    InRangeByDay(d, CustomRange(cFrom, cTo).value);
  }

  /** Today always lies in the ranges that end today. */
  lemma TodayInPeriod(pid: string, today: Date)
    requires ValidDate(today) && pid != "lastm"
    ensures InRange(today, Some(PeriodDates(pid, today)))
  {
  }
}
