/** Gregorian calendar arithmetic behind the budget windows and the analytics series:
    month lengths, month stepping across year boundaries, month windows on instants,
    and the enumeration of the days of a month and of a run of months. */
module Calendar {

  /** A calendar day of the proleptic Gregorian calendar. */
  datatype Date = Date(year: int, month: int, day: int)

  /** A point in time, seen as the server's local calendar day and the
      milliseconds elapsed since local midnight on that day. */
  datatype Instant = Instant(local: Date, millisOfDay: int)

  /** A calendar month. */
  datatype YearMonth = YearMonth(year: int, month: int)

  const MillisPerDay: int := 86_400_000

  predicate IsLeapYear(y: int) {
    y % 4 == 0 && (y % 100 != 0 || y % 400 == 0)
  }

  function DaysInMonth(y: int, m: int): (n: int)
    requires 1 <= m <= 12
    ensures 28 <= n <= 31
  {
    if m == 2 then (if IsLeapYear(y) then 29 else 28)
    else if m == 4 || m == 6 || m == 9 || m == 11 then 30
    else 31
  }

  function DaysInYear(y: int): int {
    if IsLeapYear(y) then 366 else 365
  }

  /** The twelve month lengths add up to the length of the year. */
  lemma MonthsFillYear(y: int)
    ensures DaysInMonth(y, 1) + DaysInMonth(y, 2) + DaysInMonth(y, 3) + DaysInMonth(y, 4)
          + DaysInMonth(y, 5) + DaysInMonth(y, 6) + DaysInMonth(y, 7) + DaysInMonth(y, 8)
          + DaysInMonth(y, 9) + DaysInMonth(y, 10) + DaysInMonth(y, 11) + DaysInMonth(y, 12)
          == DaysInYear(y)
  {}

  predicate ValidDate(d: Date) {
    1 <= d.month <= 12 && 1 <= d.day <= DaysInMonth(d.year, d.month)
  }

  predicate ValidInstant(i: Instant) {
    ValidDate(i.local) && 0 <= i.millisOfDay < MillisPerDay
  }

  /** Strict chronological order of calendar days. */
  predicate DateBefore(a: Date, b: Date) {
    a.year < b.year
    || (a.year == b.year && (a.month < b.month || (a.month == b.month && a.day < b.day)))
  }

  /** Chronological order of instants (`a <= b` on JavaScript dates). */
  predicate InstantLe(a: Instant, b: Instant) {
    DateBefore(a.local, b.local) || (a.local == b.local && a.millisOfDay <= b.millisOfDay)
  }

  /** The closed interval `lo <= i && i <= hi`. */
  predicate Within(i: Instant, lo: Instant, hi: Instant) {
    InstantLe(lo, i) && InstantLe(i, hi)
  }

  /** date-fns `startOfMonth`: local midnight of the first day of the month. */
  function StartOfMonth(d: Date): (i: Instant)
    requires 1 <= d.month <= 12
    ensures ValidInstant(i) && i.local.year == d.year && i.local.month == d.month
    ensures forall j :: (ValidInstant(j) && j.local.year == d.year && j.local.month == d.month)
                          ==> InstantLe(i, j)
  {
    Instant(Date(d.year, d.month, 1), 0)
  }

  /** date-fns `endOfMonth`: the last millisecond of the last day of the month. */
  function EndOfMonth(d: Date): (i: Instant)
    requires 1 <= d.month <= 12
    ensures ValidInstant(i) && i.local.year == d.year && i.local.month == d.month
    ensures forall j :: (ValidInstant(j) && j.local.year == d.year && j.local.month == d.month)
                          ==> InstantLe(j, i)
  {
    Instant(Date(d.year, d.month, DaysInMonth(d.year, d.month)), MillisPerDay - 1)
  }

  /** Months counted from January of year 0. */
  function MonthIndex(y: int, m: int): int {
    12 * y + m - 1
  }

  /** The month with a given index; the inverse of MonthIndex. */
  function MonthAt(n: int): (ym: YearMonth)
    ensures 1 <= ym.month <= 12 && MonthIndex(ym.year, ym.month) == n
  {
    YearMonth(n / 12, n % 12 + 1)
  }

  lemma MonthIndexInjective(y1: int, m1: int, y2: int, m2: int)
    requires 1 <= m1 <= 12 && 1 <= m2 <= 12
    requires MonthIndex(y1, m1) == MonthIndex(y2, m2)
    ensures y1 == y2 && m1 == m2
  {}

  lemma MonthAtIndex(y: int, m: int)
    requires 1 <= m <= 12
    ensures MonthAt(MonthIndex(y, m)) == YearMonth(y, m)
  {
    var ym := MonthAt(MonthIndex(y, m));
    MonthIndexInjective(ym.year, ym.month, y, m);
  }

  /** The calendar month after `ym`, wrapping from December to January of the next year. */
  function NextMonth(ym: YearMonth): YearMonth {
    if ym.month == 12 then YearMonth(ym.year + 1, 1) else YearMonth(ym.year, ym.month + 1)
  }

  lemma MonthAtSucc(n: int)
    ensures MonthAt(n + 1) == NextMonth(MonthAt(n))
  {
    var next := NextMonth(MonthAt(n));
    var succ := MonthAt(n + 1);
    assert MonthIndex(next.year, next.month) == n + 1;
    MonthIndexInjective(next.year, next.month, succ.year, succ.month);
  }

  /** date-fns `subMonths`: step `k` months back; the day is clamped to the
      length of the month reached. */
  function SubMonths(d: Date, k: int): (r: Date)
    requires ValidDate(d)
    ensures ValidDate(r)
    ensures MonthIndex(r.year, r.month) == MonthIndex(d.year, d.month) - k
    ensures r.day <= d.day && (r.day < d.day ==> r.day == DaysInMonth(r.year, r.month))
  {
    var ym := MonthAt(MonthIndex(d.year, d.month) - k);
    var last := DaysInMonth(ym.year, ym.month);
    Date(ym.year, ym.month, if d.day <= last then d.day else last)
  }

  /** Stepping back up to a year stays in the same year while the month number
      allows it and otherwise wraps into December, November, ... of the year before. */
  lemma SubMonthsWrap(d: Date, k: int)
    requires ValidDate(d) && 0 <= k <= 12
    ensures var r := SubMonths(d, k);
      if k < d.month then r.year == d.year && r.month == d.month - k
      else r.year == d.year - 1 && r.month == d.month - k + 12
  {
    var r := SubMonths(d, k);
    if k < d.month {
      MonthIndexInjective(r.year, r.month, d.year, d.month - k);
    } else {
      MonthIndexInjective(r.year, r.month, d.year - 1, d.month - k + 12);
    }
  }

  /** An instant lies between the start of month `lo` and the end of month `hi`
      exactly when its local month lies in the closed range of months. */
  lemma MonthRangeWindow(i: Instant, lo: Date, hi: Date)
    requires ValidInstant(i) && 1 <= lo.month <= 12 && 1 <= hi.month <= 12
    ensures Within(i, StartOfMonth(lo), EndOfMonth(hi))
        <==> MonthIndex(lo.year, lo.month) <= MonthIndex(i.local.year, i.local.month)
                                            <= MonthIndex(hi.year, hi.month)
  {
  }

  /** The closed window [startOfMonth(d), endOfMonth(d)] holds exactly the
      instants of d's calendar month. */
  lemma MonthWindow(i: Instant, d: Date)
    requires ValidInstant(i) && 1 <= d.month <= 12
    ensures Within(i, StartOfMonth(d), EndOfMonth(d))
        <==> i.local.year == d.year && i.local.month == d.month
  {
    MonthRangeWindow(i, d, d);
    if MonthIndex(i.local.year, i.local.month) == MonthIndex(d.year, d.month) {
      MonthIndexInjective(i.local.year, i.local.month, d.year, d.month);
    }
  }

  /** date-fns `eachDayOfInterval` over one calendar month: its days in order. */
  function EachDayOfMonth(y: int, m: int): (days: seq<Date>)
    requires 1 <= m <= 12
    ensures |days| == DaysInMonth(y, m)
    ensures forall i :: 0 <= i < |days| ==> ValidDate(days[i]) && days[i].year == y && days[i].month == m
    ensures forall i, j :: 0 <= i < j < |days| ==> DateBefore(days[i], days[j])
  {
    seq(DaysInMonth(y, m), i => Date(y, m, i + 1))
  }

  /** Every day of the month is enumerated, at the position given by its day number. */
  lemma EachDayOfMonthComplete(d: Date)
    requires ValidDate(d)
    ensures EachDayOfMonth(d.year, d.month)[d.day - 1] == d
  {}

  /** date-fns `eachMonthOfInterval`: the months from the start's month through the end's month. */
  function EachMonthOfInterval(start: Instant, end: Instant): (months: seq<YearMonth>)
    requires 1 <= start.local.month <= 12 && 1 <= end.local.month <= 12
    requires InstantLe(start, end)
    ensures |months| == MonthIndex(end.local.year, end.local.month)
                        - MonthIndex(start.local.year, start.local.month) + 1
    ensures months[0] == YearMonth(start.local.year, start.local.month)
    ensures months[|months| - 1] == YearMonth(end.local.year, end.local.month)
  {
    var first := MonthIndex(start.local.year, start.local.month);
    var last := MonthIndex(end.local.year, end.local.month);
    assert first <= last by {
      if start.local.year < end.local.year {
        assert first < 12 * start.local.year + 12 <= 12 * end.local.year <= last;
      }
    }
    MonthAtIndex(start.local.year, start.local.month);
    MonthAtIndex(end.local.year, end.local.month);
    seq(last - first + 1, i => MonthAt(first + i))
  }

  /** Consecutive entries of the month enumeration are consecutive calendar months. */
  lemma EachMonthOfIntervalConsecutive(start: Instant, end: Instant, i: int)
    requires 1 <= start.local.month <= 12 && 1 <= end.local.month <= 12
    requires InstantLe(start, end)
    requires 0 <= i < |EachMonthOfInterval(start, end)| - 1
    ensures EachMonthOfInterval(start, end)[i + 1] == NextMonth(EachMonthOfInterval(start, end)[i])
  {
    MonthAtSucc(MonthIndex(start.local.year, start.local.month) + i);
  }

  /** Every month of the range is enumerated, at the position of its distance from the start. */
  lemma EachMonthOfIntervalAt(start: Instant, end: Instant, i: int)
    requires 1 <= start.local.month <= 12 && 1 <= end.local.month <= 12
    requires InstantLe(start, end)
    requires 0 <= i < |EachMonthOfInterval(start, end)|
    ensures var ym := EachMonthOfInterval(start, end)[i];
      1 <= ym.month <= 12
      && MonthIndex(ym.year, ym.month) == MonthIndex(start.local.year, start.local.month) + i
  {
    var first := MonthIndex(start.local.year, start.local.month);
    assert EachMonthOfInterval(start, end)[i] == MonthAt(first + i);
  }
}
