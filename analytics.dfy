/** The analytics report (`getAnalytics`): a gap-filled daily series for the
    previous month, a gap-filled monthly series for the twelve months ending with
    the previous month, and the last six months of it. */
module Analytics {
  import opened Wrappers
  import opened Calendar
  import opened Records
  import opened Grouping

  /** A daily category: the `'M/d'` label, month and day without leading zeros. */
  datatype DayLabel = DayLabel(month: int, day: int)

  /** A monthly category: the `'M/yyyy'` label. */
  datatype MonthLabel = MonthLabel(month: int, year: int)

  /** A chart series: the categories and, position by position, their totals. */
  datatype Series<L> = Series(categories: seq<L>, data: seq<int>)

  /** The response of `getAnalytics`. */
  datatype Report = Report(
    lastMonth: Series<DayLabel>,
    last6Months: Series<MonthLabel>,
    last12Months: Series<MonthLabel>,
    budgetLimit: Option<int>)

  /** `format(date, 'M/d')` */
  function FormatDay(d: Date): DayLabel {
    DayLabel(d.month, d.day)
  }

  /** `format(date, 'M/yyyy')` */
  function FormatMonth(ym: YearMonth): MonthLabel {
    MonthLabel(ym.month, ym.year)
  }

  /** Within one year, the `'M/d'` label identifies the day. */
  lemma DayLabelsIdentifyDays(a: Date, b: Date)
    requires a.year == b.year
    ensures FormatDay(a) == FormatDay(b) <==> a == b
  {
  }

  /** The `'M/yyyy'` label identifies the month. */
  lemma MonthLabelsIdentifyMonths(x: YearMonth, y: YearMonth)
    ensures FormatMonth(x) == FormatMonth(y) <==> x == y
  {
  }

  /** The label a month takes after `l`, wrapping from December into January. */
  function NextMonthLabel(l: MonthLabel): MonthLabel {
    if l.month == 12 then MonthLabel(1, l.year + 1) else MonthLabel(l.month + 1, l.year)
  }

  /** The day label in the server's own zone: what the grouping key gives when the
      request's time zone is the server's. */
  function LocalDayLabel(i: Instant): DayLabel {
    FormatDay(i.local)
  }

  /** The month label in the server's own zone: what the UTC grouping key gives
      when the server runs in UTC. */
  function LocalMonthLabel(i: Instant): MonthLabel {
    FormatMonth(YearMonth(i.local.year, i.local.month))
  }

  /** `Array.prototype.slice(k)`: the elements from position k on, none when
      the array is shorter than k. */
  function SliceFrom<T>(s: seq<T>, k: nat): (r: seq<T>)
    ensures |r| == if k <= |s| then |s| - k else 0
    ensures forall i :: 0 <= i < |r| ==> r[i] == s[k + i]
  {
    if k <= |s| then s[k..] else []
  }

  /** The previous month's window `[startOfMonth(subMonths(now, 1)), endOfMonth(subMonths(now, 1))]`. */
  function LastMonthStart(now: Date): Instant requires ValidDate(now) { StartOfMonth(SubMonths(now, 1)) }
  function LastMonthEnd(now: Date): Instant requires ValidDate(now) { EndOfMonth(SubMonths(now, 1)) }

  /** `startOfMonth(subMonths(now, 12))` */
  function Last12MonthsStart(now: Date): Instant requires ValidDate(now) { StartOfMonth(SubMonths(now, 12)) }

  /** The user's documents in the previous month. */
  function LastMonthDocs(rs: seq<Budget>, u: UserId, now: Date): seq<Budget>
    requires ValidDate(now)
  {
    DatedWithin(OwnedBy(rs, u), LastMonthStart(now), LastMonthEnd(now))
  }

  /** The user's documents in the twelve months ending with the previous month. */
  function Last12MonthsDocs(rs: seq<Budget>, u: UserId, now: Date): seq<Budget>
    requires ValidDate(now)
  {
    DatedWithin(OwnedBy(rs, u), Last12MonthsStart(now), LastMonthEnd(now))
  }

  /** `eachDayOfInterval` over the previous month, formatted `'M/d'`. */
  function DayCategories(now: Date): (cats: seq<DayLabel>)
    requires ValidDate(now)
    ensures |cats| == DaysInMonth(SubMonths(now, 1).year, SubMonths(now, 1).month)
  {
    var prev := SubMonths(now, 1);
    var days := EachDayOfMonth(prev.year, prev.month);
    seq(|days|, i requires 0 <= i < |days| => FormatDay(days[i]))
  }

  /** `eachMonthOfInterval` over the twelve months ending with the previous one, formatted `'M/yyyy'`. */
  function MonthCategories(now: Date): (cats: seq<MonthLabel>)
    requires ValidDate(now)
    ensures |cats| == 12
  {
    var start, end := Last12MonthsStart(now), LastMonthEnd(now);
    assert InstantLe(start, end) by {
      var a, b := SubMonths(now, 12), SubMonths(now, 1);
      assert MonthIndex(a.year, a.month) < MonthIndex(b.year, b.month);
      assert a.year < b.year || (a.year == b.year && a.month < b.month);
    }
    var months := EachMonthOfInterval(start, end);
    seq(|months|, i requires 0 <= i < |months| => FormatMonth(months[i]))
  }

  /** `getAnalytics` for the local date `now`; `dayInZone` renders a document's date
      as `$month/$dayOfMonth` in the request's time zone, `monthInUtc` as `$month/$year` in UTC. */
  function GetAnalytics(rs: seq<Budget>, users: Directory, u: UserId, now: Date,
                        dayInZone: Instant -> DayLabel, monthInUtc: Instant -> MonthLabel): (r: Report)
    requires ValidDate(now)
    ensures |r.lastMonth.categories| == |r.lastMonth.data|
            == DaysInMonth(SubMonths(now, 1).year, SubMonths(now, 1).month)
    ensures |r.last12Months.categories| == |r.last12Months.data| == 12
    ensures |r.last6Months.categories| == |r.last6Months.data| == 6
    ensures r.budgetLimit.Some? <==> u in users
    ensures r.budgetLimit == BudgetLimitOf(users, u)
  {
    var lastMonthGroups := GroupSum(LastMonthDocs(rs, u, now), dayInZone);
    var last12MonthsGroups := GroupSum(Last12MonthsDocs(rs, u, now), monthInUtc);
    var lastMonthCategories := DayCategories(now);
    var lastMonthData := GapFill(lastMonthGroups, lastMonthCategories);
    var last12MonthsCategories := MonthCategories(now);
    var last12MonthsData := GapFill(last12MonthsGroups, last12MonthsCategories);
    Report(
      Series(lastMonthCategories, lastMonthData),
      Series(SliceFrom(last12MonthsCategories, 6), SliceFrom(last12MonthsData, 6)),
      Series(last12MonthsCategories, last12MonthsData),
      BudgetLimitOf(users, u))
  }

  /** The daily series lists every day of the previous month in order, and each
      value is the price of the user's documents of that month whose date renders
      as that day in the request's time zone (0 when there is none). */
  lemma LastMonthSeries(rs: seq<Budget>, users: Directory, u: UserId, now: Date,
                        dayInZone: Instant -> DayLabel, monthInUtc: Instant -> MonthLabel)
    requires ValidDate(now)
    ensures var prev := SubMonths(now, 1);
      var s := GetAnalytics(rs, users, u, now, dayInZone, monthInUtc).lastMonth;
      && |s.categories| == |s.data| == DaysInMonth(prev.year, prev.month)
      && (forall i :: 0 <= i < |s.categories| ==> s.categories[i] == DayLabel(prev.month, i + 1))
      && (forall i :: 0 <= i < |s.data| ==>
            s.data[i] == PriceWhere(LastMonthDocs(rs, u, now), dayInZone, s.categories[i]))
  {
    var cats := DayCategories(now);
    forall i | 0 <= i < |cats|
      ensures GapFill(GroupSum(LastMonthDocs(rs, u, now), dayInZone), cats)[i]
           == PriceWhere(LastMonthDocs(rs, u, now), dayInZone, cats[i])
    {
      GapFillAt(LastMonthDocs(rs, u, now), dayInZone, cats, i);
    }
  }

  /** The monthly series lists the twelve calendar months that end with the
      previous month, oldest first, each the month after the one before it (across
      the year boundary), and each value is the price of the user's documents of
      those months whose UTC month is that month (0 when there is none). */
  lemma Last12MonthsSeries(rs: seq<Budget>, users: Directory, u: UserId, now: Date,
                           dayInZone: Instant -> DayLabel, monthInUtc: Instant -> MonthLabel)
    requires ValidDate(now)
    ensures var prev := SubMonths(now, 1);
      var s := GetAnalytics(rs, users, u, now, dayInZone, monthInUtc).last12Months;
      && |s.categories| == |s.data| == 12
      && s.categories[11] == MonthLabel(prev.month, prev.year)
      && (forall i :: 0 <= i < 12 ==>
            s.categories[i] == FormatMonth(MonthAt(MonthIndex(now.year, now.month) - 12 + i)))
      && (forall i :: 0 <= i < 11 ==> s.categories[i + 1] == NextMonthLabel(s.categories[i]))
      && (forall i :: 0 <= i < 12 ==>
            s.data[i] == PriceWhere(Last12MonthsDocs(rs, u, now), monthInUtc, s.categories[i]))
  {
    var start, end := Last12MonthsStart(now), LastMonthEnd(now);
    var cats := MonthCategories(now);
    var months := EachMonthOfInterval(start, end);
    forall i | 0 <= i < 12
      ensures cats[i] == FormatMonth(MonthAt(MonthIndex(now.year, now.month) - 12 + i))
    {
      EachMonthOfIntervalAt(start, end, i);
      var ym := months[i];
      var want := MonthAt(MonthIndex(now.year, now.month) - 12 + i);
      MonthIndexInjective(ym.year, ym.month, want.year, want.month);
    }
    forall i | 0 <= i < 11 ensures cats[i + 1] == NextMonthLabel(cats[i]) {
      EachMonthOfIntervalConsecutive(start, end, i);
    }
    forall i | 0 <= i < 12
      ensures GapFill(GroupSum(Last12MonthsDocs(rs, u, now), monthInUtc), cats)[i]
           == PriceWhere(Last12MonthsDocs(rs, u, now), monthInUtc, cats[i])
    {
      GapFillAt(Last12MonthsDocs(rs, u, now), monthInUtc, cats, i);
    }
  }

  /** The six-month series is the last six entries of the twelve-month series. */
  lemma Last6MonthsIsTail(rs: seq<Budget>, users: Directory, u: UserId, now: Date,
                          dayInZone: Instant -> DayLabel, monthInUtc: Instant -> MonthLabel)
    requires ValidDate(now)
    ensures var r := GetAnalytics(rs, users, u, now, dayInZone, monthInUtc);
      r.last6Months.categories == r.last12Months.categories[6..]
      && r.last6Months.data == r.last12Months.data[6..]
  {}

  /** A user without documents gets full-length series of zeros. */
  lemma NoDocumentsAllZero(rs: seq<Budget>, users: Directory, u: UserId, now: Date,
                           dayInZone: Instant -> DayLabel, monthInUtc: Instant -> MonthLabel)
    requires ValidDate(now)
    requires forall b :: b in rs ==> b.userId != u
    ensures var r := GetAnalytics(rs, users, u, now, dayInZone, monthInUtc);
      && |r.lastMonth.data| == DaysInMonth(SubMonths(now, 1).year, SubMonths(now, 1).month)
      && |r.last12Months.data| == 12
      && (forall i :: 0 <= i < |r.lastMonth.data| ==> r.lastMonth.data[i] == 0)
      && (forall i :: 0 <= i < |r.last12Months.data| ==> r.last12Months.data[i] == 0)
  {
    OwnedByOthers(rs, u);
    LastMonthSeries(rs, users, u, now, dayInZone, monthInUtc);
    Last12MonthsSeries(rs, users, u, now, dayInZone, monthInUtc);
  }

  /** Only the user's own documents matter to the report. */
  lemma OnlyOwnDocumentsMatter(rs: seq<Budget>, users: Directory, u: UserId, now: Date,
                               dayInZone: Instant -> DayLabel, monthInUtc: Instant -> MonthLabel)
    requires ValidDate(now)
    ensures GetAnalytics(rs, users, u, now, dayInZone, monthInUtc)
         == GetAnalytics(OwnedBy(rs, u), users, u, now, dayInZone, monthInUtc)
  {
    OwnedByIdempotent(rs, u);
  }

  /** Day categories are pairwise distinct, and when the request's time zone is
      the server's every document of the previous month has one of them. */
  lemma DayCategoriesCover(rs: seq<Budget>, u: UserId, now: Date)
    requires ValidDate(now) && ValidDates(rs)
    ensures Distinct(DayCategories(now))
    ensures forall b :: b in LastMonthDocs(rs, u, now) ==> LocalDayLabel(b.date) in DayCategories(now)
  {
    var prev := SubMonths(now, 1);
    var cats := DayCategories(now);
    forall b | b in LastMonthDocs(rs, u, now) ensures LocalDayLabel(b.date) in cats {
      assert b in rs;
      MonthWindow(b.date, prev);
      assert cats[b.date.local.day - 1] == LocalDayLabel(b.date);
    }
  }

  /** No month is enumerated twice. */
  lemma MonthCategoriesDistinct(now: Date)
    requires ValidDate(now)
    ensures Distinct(MonthCategories(now))
  {
    var cats := MonthCategories(now);
    var first := MonthIndex(now.year, now.month) - 12;
    Last12MonthsSeries([], map[], 0, now, LocalDayLabel, LocalMonthLabel);
    forall i, j | 0 <= i < j < |cats| ensures cats[i] != cats[j] {
      var a, b := MonthAt(first + i), MonthAt(first + j);
      assert MonthIndex(a.year, a.month) != MonthIndex(b.year, b.month);
    }
  }

  /** Month categories are pairwise distinct, and when the server runs in UTC
      every document of the twelve-month window has one of them. */
  lemma MonthCategoriesCover(rs: seq<Budget>, u: UserId, now: Date)
    requires ValidDate(now) && ValidDates(rs)
    ensures Distinct(MonthCategories(now))
    ensures forall b :: b in Last12MonthsDocs(rs, u, now) ==> LocalMonthLabel(b.date) in MonthCategories(now)
  {
    var cats := MonthCategories(now);
    var first := MonthIndex(now.year, now.month) - 12;
    MonthCategoriesDistinct(now);
    Last12MonthsSeries([], map[], u, now, LocalDayLabel, LocalMonthLabel);
    forall b | b in Last12MonthsDocs(rs, u, now) ensures LocalMonthLabel(b.date) in cats {
      assert b in rs;
      MonthRangeWindow(b.date, SubMonths(now, 12), SubMonths(now, 1));
      var k := MonthIndex(b.date.local.year, b.date.local.month) - first;
      assert 0 <= k < 12;
      MonthAtIndex(b.date.local.year, b.date.local.month);
      assert cats[k] == LocalMonthLabel(b.date);
    }
  }

  /** When the request's time zone is the server's, the daily series adds up to
      the price of all the user's documents of the previous month. */
  lemma LastMonthTotal(rs: seq<Budget>, users: Directory, u: UserId, now: Date,
                       dayInZone: Instant -> DayLabel, monthInUtc: Instant -> MonthLabel)
    requires ValidDate(now) && ValidDates(rs)
    requires forall i :: dayInZone(i) == LocalDayLabel(i)
    ensures Sum(GetAnalytics(rs, users, u, now, dayInZone, monthInUtc).lastMonth.data)
         == PriceOf(LastMonthDocs(rs, u, now))
  {
    DayCategoriesCover(rs, u, now);
    SeriesTotal(LastMonthDocs(rs, u, now), dayInZone, DayCategories(now));
  }

  /** When the server runs in UTC, the twelve-month series adds up to the price of
      all the user's documents of those twelve months. */
  lemma Last12MonthsTotal(rs: seq<Budget>, users: Directory, u: UserId, now: Date,
                          dayInZone: Instant -> DayLabel, monthInUtc: Instant -> MonthLabel)
    requires ValidDate(now) && ValidDates(rs)
    requires forall i :: monthInUtc(i) == LocalMonthLabel(i)
    ensures Sum(GetAnalytics(rs, users, u, now, dayInZone, monthInUtc).last12Months.data)
         == PriceOf(Last12MonthsDocs(rs, u, now))
  {
    MonthCategoriesCover(rs, u, now);
    SeriesTotal(Last12MonthsDocs(rs, u, now), monthInUtc, MonthCategories(now));
  }
}
