/** The current-month spend reported by `create` and `checkLimit`. */
module MonthlySpend {
  import opened Wrappers
  import opened Calendar
  import opened Records

  /** The result rows of `aggregate([{ $match: userId }, { $match: date window },
      { $group: { _id: null, total: { $sum: '$price' } } }])`: one total, or no row
      when no document matched. */
  function WindowTotalRows(rs: seq<Budget>, u: UserId, lo: Instant, hi: Instant): (rows: seq<int>)
    ensures |rows| <= 1
  {
    var matched := DatedWithin(OwnedBy(rs, u), lo, hi);
    if matched == [] then [] else [PriceOf(matched)]
  }

  /** `(rows[0] || {}).total || 0` */
  function TotalOrZero(rows: seq<int>): int {
    if rows == [] then 0 else rows[0]
  }

  /** The current-month sum of `create` and `checkLimit`, for the local date `now`. */
  function CurrentMonthTotal(rs: seq<Budget>, u: UserId, now: Date): (total: int)
    requires 1 <= now.month <= 12
    ensures (forall b :: b in rs && b.userId == u ==> !Within(b.date, StartOfMonth(now), EndOfMonth(now)))
            ==> total == 0
  {
    TotalOrZero(WindowTotalRows(rs, u, StartOfMonth(now), EndOfMonth(now)))
  }

  /** Reference definition: the price of the user's documents whose local date
      falls in month `m` of year `y`. */
  function SpentInMonth(rs: seq<Budget>, u: UserId, y: int, m: int): int {
    if rs == [] then 0
    else
      var last := rs[|rs| - 1];
      SpentInMonth(rs[..|rs| - 1], u, y, m)
      + (if last.userId == u && last.date.local.year == y && last.date.local.month == m
         then last.price else 0)
  }

  lemma {:induction false} PriceOfWindowIsSpentInMonth(rs: seq<Budget>, u: UserId, now: Date)
    requires 1 <= now.month <= 12 && ValidDates(rs)
    ensures PriceOf(DatedWithin(OwnedBy(rs, u), StartOfMonth(now), EndOfMonth(now)))
         == SpentInMonth(rs, u, now.year, now.month)
  {
    if rs != [] {
      var init, last := rs[..|rs| - 1], rs[|rs| - 1];
      var lo, hi := StartOfMonth(now), EndOfMonth(now);
      assert rs == init + [last];
      assert last in rs;
      assert ValidDates(init) by {
        forall b | b in init ensures ValidInstant(b.date) { assert b in rs; }
      }
      PriceOfWindowIsSpentInMonth(init, u, now);
      OwnedByAppend(init, [last], u);
      DatedWithinAppend(OwnedBy(init, u), OwnedBy([last], u), lo, hi);
      PriceOfAppend(DatedWithin(OwnedBy(init, u), lo, hi), DatedWithin(OwnedBy([last], u), lo, hi));
      OneDocumentInWindow(last, u, lo, hi);
      MonthWindow(last.date, now);
    }
  }

  /** The reported sum is the price of the user's documents dated in the current
      month, and 0 when there is none. */
  lemma CurrentMonthTotalIsSpend(rs: seq<Budget>, u: UserId, now: Date)
    requires 1 <= now.month <= 12 && ValidDates(rs)
    ensures CurrentMonthTotal(rs, u, now) == SpentInMonth(rs, u, now.year, now.month)
  {
    PriceOfWindowIsSpentInMonth(rs, u, now);
  }

  /** Documents of other users never contribute to a user's sum. */
  lemma OtherUsersDoNotCount(rs: seq<Budget>, others: seq<Budget>, u: UserId, now: Date)
    requires 1 <= now.month <= 12
    requires forall b :: b in others ==> b.userId != u
    ensures CurrentMonthTotal(rs + others, u, now) == CurrentMonthTotal(rs, u, now)
  {
    OwnedByAppend(rs, others, u);
    OwnedByOthers(others, u);
    assert OwnedBy(rs + others, u) == OwnedBy(rs, u);
  }

  /** Adding a document of the user dated in the current month raises the sum by its price;
      adding any other document leaves it unchanged. */
  lemma {:induction false} AddedEntry(rs: seq<Budget>, b: Budget, u: UserId, now: Date)
    requires 1 <= now.month <= 12 && ValidDates(rs) && ValidInstant(b.date)
    ensures CurrentMonthTotal(rs + [b], u, now)
         == CurrentMonthTotal(rs, u, now)
            + (if b.userId == u && b.date.local.year == now.year && b.date.local.month == now.month
               then b.price else 0)
  {
    assert ValidDates(rs + [b]);
    CurrentMonthTotalIsSpend(rs + [b], u, now);
    CurrentMonthTotalIsSpend(rs, u, now);
    assert (rs + [b])[..|rs + [b]| - 1] == rs;
  }

  /** The response of `create`. */
  datatype MonthSummary = MonthSummary(totalBudgetThisMonth: int, isCurrentMonth: bool, budgetLimit: Option<int>)

  /** The response of `checkLimit`. */
  datatype LimitReport = LimitReport(totalBudgetThisMonth: int, budgetLimit: Option<int>)

  /** `create`'s summary for a new entry dated `entryDate`, over the documents `seen`
      by its sum: the sum and the user lookup only run when the entry lies in the
      current month. */
  function CreateSummary(seen: seq<Budget>, users: Directory, u: UserId, entryDate: Instant, now: Date): (s: MonthSummary)
    requires ValidDate(now)
    ensures s.isCurrentMonth == Within(entryDate, StartOfMonth(now), EndOfMonth(now))
    ensures !s.isCurrentMonth ==> s.totalBudgetThisMonth == 0 && s.budgetLimit == None
    ensures s.isCurrentMonth ==> s.totalBudgetThisMonth == CurrentMonthTotal(seen, u, now)
                                 && s.budgetLimit == BudgetLimitOf(users, u)
  {
    var isCurrentMonth := Within(entryDate, StartOfMonth(now), EndOfMonth(now));
    var rows := if isCurrentMonth then WindowTotalRows(seen, u, StartOfMonth(now), EndOfMonth(now)) else [];
    var user := if isCurrentMonth then BudgetLimitOf(users, u) else None;
    MonthSummary(TotalOrZero(rows), isCurrentMonth, user)
  }

  /** An entry counts as current exactly when its local date is in the current month. */
  lemma CreateSummaryFlag(seen: seq<Budget>, users: Directory, u: UserId, entryDate: Instant, now: Date)
    requires ValidDate(now) && ValidInstant(entryDate)
    ensures CreateSummary(seen, users, u, entryDate, now).isCurrentMonth
        <==> entryDate.local.year == now.year && entryDate.local.month == now.month
  {
    MonthWindow(entryDate, now);
  }

  /** `checkLimit`: the current-month sum and the user's limit. */
  function CheckLimit(rs: seq<Budget>, users: Directory, u: UserId, now: Date): (r: LimitReport)
    requires ValidDate(now)
    ensures r.budgetLimit == BudgetLimitOf(users, u)
  {
    LimitReport(TotalOrZero(WindowTotalRows(rs, u, StartOfMonth(now), EndOfMonth(now))), BudgetLimitOf(users, u))
  }

  /** `checkLimit` reports the price of the user's documents dated in the current
      month (0 when there is none) together with the user's limit. */
  lemma CheckLimitTotal(rs: seq<Budget>, users: Directory, u: UserId, now: Date)
    requires ValidDate(now) && ValidDates(rs)
    ensures CheckLimit(rs, users, u, now).totalBudgetThisMonth == SpentInMonth(rs, u, now.year, now.month)
  {
    CurrentMonthTotalIsSpend(rs, u, now);
  }

  /** When the sum sees the new entry and the entry is dated in the current month,
      `create` reports the earlier current-month sum plus the entry's price. */
  lemma CreateCountsNewEntry(rs: seq<Budget>, users: Directory, b: Budget, now: Date)
    requires ValidDate(now) && ValidDates(rs) && ValidInstant(b.date)
    requires b.date.local.year == now.year && b.date.local.month == now.month
    ensures var s := CreateSummary(rs + [b], users, b.userId, b.date, now);
      s.isCurrentMonth
      && s.totalBudgetThisMonth == CurrentMonthTotal(rs, b.userId, now) + b.price
      && s.budgetLimit == BudgetLimitOf(users, b.userId)
  {
    MonthWindow(b.date, now);
    AddedEntry(rs, b, b.userId, now);
  }

  /** A user with limit 500 and entries of 100 and 250 this month (and one of
      another user) is told 350 of 500. */
  lemma CheckLimitExample()
    ensures var now := Date(2024, 5, 20);
      var rs := [Budget(0, "rent", 100, Instant(Date(2024, 5, 2), 0), 7, 1, 1),
                 Budget(1, "food", 250, Instant(Date(2024, 5, 19), 3600000), 7, 2, 2),
                 Budget(2, "car", 900, Instant(Date(2024, 5, 3), 0), 8, 3, 3)];
      CheckLimit(rs, map[7 := 500], 7, now) == LimitReport(350, Some(500))
  {
    var now := Date(2024, 5, 20);
    var a := Budget(0, "rent", 100, Instant(Date(2024, 5, 2), 0), 7, 1, 1);
    var b := Budget(1, "food", 250, Instant(Date(2024, 5, 19), 3600000), 7, 2, 2);
    var c := Budget(2, "car", 900, Instant(Date(2024, 5, 3), 0), 8, 3, 3);
    var rs := [a, b, c];
    assert ValidDates(rs) by {
      assert ValidInstant(a.date) && ValidInstant(b.date) && ValidInstant(c.date);
      assert forall x :: x in rs ==> x == a || x == b || x == c;
    }
    CurrentMonthTotalIsSpend(rs, 7, now);
    assert [a][..0] == [];
    assert SpentInMonth([a], 7, 2024, 5) == 100;
    assert [a, b][..1] == [a];
    assert SpentInMonth([a, b], 7, 2024, 5) == 350;
    assert rs[..2] == [a, b];
    assert SpentInMonth(rs, 7, 2024, 5) == 350;
  }

  /** `create`'s summary for a new entry `b`, whichever way the race went: current
      exactly when `b` is dated this month, and then the user's spend this month,
      counting `b` exactly when the sum saw it. */
  lemma CreateSummarySpend(rs: seq<Budget>, users: Directory, b: Budget, now: Date, saveFirst: bool)
    requires ValidDate(now) && ValidDates(rs) && ValidInstant(b.date)
    ensures var s := CreateSummary(if saveFirst then rs + [b] else rs, users, b.userId, b.date, now);
      && (s.isCurrentMonth <==> b.date.local.year == now.year && b.date.local.month == now.month)
      && s.totalBudgetThisMonth
         == if !s.isCurrentMonth then 0
            else if saveFirst then SpentInMonth(rs, b.userId, now.year, now.month) + b.price
            else SpentInMonth(rs, b.userId, now.year, now.month)
  {
    MonthWindow(b.date, now);
    if b.date.local.year == now.year && b.date.local.month == now.month {
      CurrentMonthTotalIsSpend(rs, b.userId, now);
      if saveFirst {
        AddedEntry(rs, b, b.userId, now);
      }
    }
  }
}
