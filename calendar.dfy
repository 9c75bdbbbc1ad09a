/**
  The financial calendar (src/components/dashboard/FinancialCalendar.tsx): the per-day statistics
  filled into a dictionary by a `forEach`, the colour classes of a day cell, the month grid
  (leading blank cells, one cell per day) and the month shown, which the three buttons change.
*/
module Calendar {
  import opened Wrappers
  import opened Dates
  import opened Types
  import opened Folds
  import opened Assoc
  import opened Ledger

  // ----- `dailyStats` -----

  /** `DayStats`. */
  datatype DayStats = DayStats(income: int, expense: int, balance: int, count: int)

  /** The entry a day gets when its first transaction is seen. */
  const EmptyDay: DayStats := DayStats(0, 0, 0, 0)

  /**
    The body of the `forEach` on a day's entry: an income adds to `income` and `balance`, an
    expense adds to `expense` and takes from `balance`, and every transaction adds 1 to `count`.
  */
  function Bump(s: DayStats, t: Transaction): DayStats {
    var s' :=
      if t.kind == Income then s.(income := s.income + t.amount, balance := s.balance + t.amount)
      else if t.kind == Expense then s.(expense := s.expense + t.amount, balance := s.balance - t.amount)
      else s;
    s'.(count := s'.count + 1)
  }

  /** A day's entry after the `forEach` has visited that day's transactions `ts`, in order. */
  function DayFold(ts: seq<Transaction>): DayStats {
    if ts == [] then EmptyDay else Bump(DayFold(ts[..|ts| - 1]), ts[|ts| - 1])
  }

  lemma {:induction false} DayFoldSnoc(ts: seq<Transaction>, t: Transaction)
    ensures DayFold(ts + [t]) == Bump(DayFold(ts), t)
  {
    assert (ts + [t])[..|ts|] == ts;
  }

  /**
    A day's entry holds the day's income total, its expense total, their difference as the
    balance, and the number of its transactions; saving and debt only count.
  */
  lemma {:induction false} DayFoldTotals(ts: seq<Transaction>)
    ensures DayFold(ts).income == KindTotal(ts, Income)
    ensures DayFold(ts).expense == KindTotal(ts, Expense)
    ensures DayFold(ts).balance == KindTotal(ts, Income) - KindTotal(ts, Expense)
    ensures DayFold(ts).count == |ts|
  {
    if ts != [] {
      var init := ts[..|ts| - 1];
      var t := ts[|ts| - 1];
      assert ts == init + [t];
      DayFoldTotals(init);
      KindTotalSnoc(init, t, Income);
      KindTotalSnoc(init, t, Expense);
    }
  }

  /** The days that have a transaction, in the order of their first transaction. */
  function Days(ts: seq<Transaction>): (r: seq<Date>)
    ensures Distinct(r)
  {
    if ts == [] then []
    else
      var r0 := Days(ts[..|ts| - 1]);
      var d := ts[|ts| - 1].date;
      if d !in r0 then r0 + [d] else r0
  }

  lemma {:induction false} DaysSnoc(ts: seq<Transaction>, t: Transaction)
    ensures Days(ts + [t]) == if t.date !in Days(ts) then Days(ts) + [t.date] else Days(ts)
  {
    assert (ts + [t])[..|ts|] == ts;
  }

  /** Some transaction of `ts` falls on day `d`. */
  ghost predicate HasDay(ts: seq<Transaction>, d: Date) {
    exists i :: 0 <= i < |ts| && ts[i].date == d
  }

  /** A day is listed exactly when a transaction falls on it; an unlisted day has no transaction. */
  lemma {:induction false} DaysExact(ts: seq<Transaction>, d: Date)
    ensures d in Days(ts) <==> HasDay(ts, d)
    ensures d !in Days(ts) ==> OnDay(ts, d) == []
  {
    if ts != [] {
      var init := ts[..|ts| - 1];
      var t := ts[|ts| - 1];
      assert ts == init + [t];
      DaysExact(init, d);
      DaysSnoc(init, t);
      FilterSnoc(init, t, DateIs(d));
      if HasDay(init, d) {
        var i :| 0 <= i < |init| && init[i].date == d;
        assert ts[i] == init[i];
      }
      if HasDay(ts, d) && t.date != d {
        var i :| 0 <= i < |ts| && ts[i].date == d;
        assert i < |init| && init[i] == ts[i];
      }
      if t.date == d {
        assert ts[|ts| - 1] == t;
      }
    }
  }

  /**
    The reference for `dailyStats`: one entry per day with a transaction, in the order of its
    first transaction, holding the fold of that day's transactions.
  */
  function DailyTable(ts: seq<Transaction>): (table: seq<(Date, DayStats)>)
    ensures DistinctKeys(table)
  {
    var ds := Days(ts);
    seq(|ds|, i requires 0 <= i < |ds| => (ds[i], DayFold(OnDay(ts, ds[i]))))
  }

  /** `stats[dateKey]`, with a missing entry read as the entry it is created with. */
  function OrEmpty(e: Option<DayStats>): DayStats {
    match e
    case None => EmptyDay
    case Some(s) => s
  }

  /** A day's entry is present exactly when a transaction falls on it, and it is the fold of that day's transactions. */
  lemma {:induction false} DailyLookup(ts: seq<Transaction>, d: Date)
    ensures Lookup(DailyTable(ts), d).Some? <==> HasDay(ts, d)
    ensures OrEmpty(Lookup(DailyTable(ts), d)) == DayFold(OnDay(ts, d))
  {
    var ds := Days(ts);
    var table := DailyTable(ts);
    DaysExact(ts, d);
    if d in ds {
      var j :| 0 <= j < |ds| && ds[j] == d;
      KeyIndexIs(table, d, j);
    } else {
      KeyIndexIs(table, d, -1);
    }
  }

  lemma {:induction false} OnDaySnoc(ts: seq<Transaction>, t: Transaction, e: Date)
    ensures OnDay(ts + [t], e) == OnDay(ts, e) + (if t.date == e then [t] else [])
  {
    FilterSnoc(ts, t, DateIs(e));
  }

  /** A transaction on a listed day changes that day's entry, in place, and no other. */
  lemma {:induction false} DailyTableSnocSeen(ts: seq<Transaction>, t: Transaction, j: int)
    requires 0 <= j < |Days(ts)| && Days(ts)[j] == t.date
    ensures DailyTable(ts + [t]) == DailyTable(ts)[j := (t.date, Bump(DayFold(OnDay(ts, t.date)), t))]
  {
    var ds := Days(ts);
    DaysSnoc(ts, t);
    var table' := DailyTable(ts + [t]);
    var r := DailyTable(ts)[j := (t.date, Bump(DayFold(OnDay(ts, t.date)), t))];
    assert |r| == |table'|;
    forall i | 0 <= i < |ds| ensures r[i] == table'[i] {
      OnDaySnoc(ts, t, ds[i]);
      if i == j {
        DayFoldSnoc(OnDay(ts, t.date), t);
      }
    }
  }

  /** A transaction on a new day appends that day's entry, holding the transaction alone. */
  lemma {:induction false} DailyTableSnocNew(ts: seq<Transaction>, t: Transaction)
    requires t.date !in Days(ts)
    ensures DailyTable(ts + [t]) == DailyTable(ts) + [(t.date, Bump(EmptyDay, t))]
  {
    var ds := Days(ts);
    DaysSnoc(ts, t);
    DaysExact(ts, t.date);
    var table' := DailyTable(ts + [t]);
    var r := DailyTable(ts) + [(t.date, Bump(EmptyDay, t))];
    assert |r| == |table'|;
    forall i | 0 <= i < |r| ensures r[i] == table'[i] {
      if i < |ds| {
        OnDaySnoc(ts, t, ds[i]);
      } else {
        OnDaySnoc(ts, t, t.date);
        DayFoldSnoc([], t);
      }
    }
  }

  /** One more transaction is one more run of the `forEach` body, on its own day's entry only. */
  lemma {:induction false} DailyTableSnoc(ts: seq<Transaction>, t: Transaction)
    ensures DailyTable(ts + [t])
            == Store(DailyTable(ts), t.date, Bump(OrEmpty(Lookup(DailyTable(ts), t.date)), t))
  {
    var ds := Days(ts);
    var table := DailyTable(ts);
    var d := t.date;
    DailyLookup(ts, d);
    if d in ds {
      var j :| 0 <= j < |ds| && ds[j] == d;
      KeyIndexIs(table, d, j);
      DailyTableSnocSeen(ts, t, j);
    } else {
      KeyIndexIs(table, d, -1);
      DailyTableSnocNew(ts, t);
    }
  }

  /** The `useMemo` computing `dailyStats`. */
  method ComputeDailyStats(ts: seq<Transaction>) returns (stats: seq<(Date, DayStats)>)
    ensures stats == DailyTable(ts)
  {
    stats := [];
    var i := 0;
    assert ts[..0] == [];
    while i < |ts|
      invariant 0 <= i <= |ts|
      invariant stats == DailyTable(ts[..i])
    {
      var t := ts[i];
      var entry := OrEmpty(Lookup(stats, t.date));
      ghost var before := entry;
      if t.kind == Income {
        entry := entry.(income := entry.income + t.amount, balance := entry.balance + t.amount);
      } else if t.kind == Expense {
        entry := entry.(expense := entry.expense + t.amount, balance := entry.balance - t.amount);
      }
      entry := entry.(count := entry.count + 1);
      assert entry == Bump(before, t);
      DailyTableSnoc(ts[..i], t);
      assert ts[..i + 1] == ts[..i] + [t];
      stats := Store(stats, t.date, entry);
      i := i + 1;
    }
    assert ts[..i] == ts;
  }

  /**
    A day with a transaction has an entry holding its income and expense totals, the balance
    `income - expense` and its number of transactions, at least 1.
  */
  lemma {:induction false} DailyEntryExact(ts: seq<Transaction>, d: Date)
    requires HasDay(ts, d)
    ensures Lookup(DailyTable(ts), d).Some?
    ensures var s := Lookup(DailyTable(ts), d).value;
            && s.income == KindTotal(OnDay(ts, d), Income)
            && s.expense == KindTotal(OnDay(ts, d), Expense)
            && s.balance == s.income - s.expense
            && s.count == |OnDay(ts, d)| >= 1
  {
    DailyLookup(ts, d);
    DayFoldTotals(OnDay(ts, d));
    var i :| 0 <= i < |ts| && ts[i].date == d;
    FilterElements(ts, DateIs(d));
    assert ts[i] in OnDay(ts, d);
  }

  /** A saving or a debt only adds 1 to its day's count. */
  lemma {:induction false} SavingAndDebtOnlyCount(ts: seq<Transaction>, t: Transaction)
    requires t.kind == Saving || t.kind == Debt
    ensures var before := OrEmpty(Lookup(DailyTable(ts), t.date));
            Lookup(DailyTable(ts + [t]), t.date) == Some(before.(count := before.count + 1))
  {
    DailyTableSnoc(ts, t);
    StoreThenLookup(DailyTable(ts), t.date, Bump(OrEmpty(Lookup(DailyTable(ts), t.date)), t));
  }

  /** The count of an entry. */
  function EntryCount(e: (Date, DayStats)): int {
    e.1.count
  }

  /** The counts over all days add up to the number of transactions. */
  lemma {:induction false} DailyCountsSum(ts: seq<Transaction>)
    ensures SumOf(DailyTable(ts), EntryCount) == |ts|
  {
    if ts != [] {
      var init := ts[..|ts| - 1];
      var t := ts[|ts| - 1];
      assert ts == init + [t];
      DailyCountsSum(init);
      DailyTableSnoc(init, t);
      var table := DailyTable(init);
      StoreSum(table, t.date, Bump(OrEmpty(Lookup(table, t.date)), t), EntryCount);
    }
  }

  // ----- A day cell -----

  const TodayRing := "ring-2 ring-blue-500"
  const HasTransactionsClass := "bg-linear-to-r"
  const PositiveTone := "from-green-50 to-green-100/50"
  const NegativeTone := "from-red-50 to-red-100/50"
  const ZeroTone := "from-gray-50 to-gray-100/50"

  /** `stats && stats.count > 0`. */
  predicate HasTransactions(stats: Option<DayStats>) {
    stats.Some? && stats.value.count > 0
  }

  /** The conditional class fragments of a day cell; an empty string is a class left out. */
  function CellClasses(stats: Option<DayStats>, isToday: bool): seq<string> {
    var has := HasTransactions(stats);
    [if isToday then TodayRing else "",
     if has then HasTransactionsClass else "",
     if has && stats.value.balance > 0 then PositiveTone else "",
     if has && stats.value.balance < 0 then NegativeTone else "",
     if has && stats.value.balance == 0 then ZeroTone else ""]
  }

  /** The tone class the sign of a balance selects. */
  function ToneOf(balance: int): string {
    if balance > 0 then PositiveTone else if balance < 0 then NegativeTone else ZeroTone
  }

  /**
    A cell with transactions carries exactly one tone class, the one its balance's sign selects;
    a cell without transactions carries none.
  */
  lemma {:induction false} CellToneExact(stats: Option<DayStats>, isToday: bool)
    ensures var cls := multiset(CellClasses(stats, isToday));
            && cls[PositiveTone] + cls[NegativeTone] + cls[ZeroTone]
               == (if HasTransactions(stats) then 1 else 0)
            && (HasTransactions(stats) ==> cls[ToneOf(stats.value.balance)] == 1)
  {
  }

  /** On the calendar, a day with transactions is green, red or gray as its income exceeds, falls short of or equals its expense. */
  lemma {:induction false} DayToneBySums(ts: seq<Transaction>, d: Date, isToday: bool)
    requires HasDay(ts, d)
    ensures HasTransactions(Lookup(DailyTable(ts), d))
    ensures ToneOf(Lookup(DailyTable(ts), d).value.balance)
            == if KindTotal(OnDay(ts, d), Income) > KindTotal(OnDay(ts, d), Expense) then PositiveTone
               else if KindTotal(OnDay(ts, d), Income) < KindTotal(OnDay(ts, d), Expense) then NegativeTone
               else ZeroTone
  {
    DailyEntryExact(ts, d);
  }

  // ----- The month grid -----

  /** The cells of the grid: `padding` blank cells, then one cell per day. */
  datatype Grid = Grid(padding: int, days: seq<Date>)

  /** `paddingDays` and `eachDayOfInterval({ start: monthStart, end: monthEnd })`. */
  function MonthGrid(current: Date): Grid
    requires ValidMonth(current.month)
  {
    var y := current.year;
    var m := current.month;
    Grid(Weekday(FirstOfMonth(y, m)), seq(DaysInMonth(y, m), i => Date(y, m, i + 1)))
  }

  /**
    The grid has as many blank cells as the weekday of the first day (0 for Sunday, the first
    column) and one cell per day of the month, from its first day to its last; so each day falls
    in the column of its own weekday, and the cells are exactly the valid dates of that month.
  */
  lemma {:induction false} MonthGridShape(current: Date, x: Date)
    requires ValidMonth(current.month) && ValidDate(x)
    ensures var g := MonthGrid(current);
            && 0 <= g.padding < 7 && g.padding == Weekday(FirstOfMonth(current.year, current.month))
            && |g.days| == DaysInMonth(current.year, current.month)
            && g.days[0] == FirstOfMonth(current.year, current.month)
            && g.days[|g.days| - 1] == LastOfMonth(current.year, current.month)
            && (forall i :: 0 <= i < |g.days| ==> ValidDate(g.days[i]))
            && (x in g.days <==> x.year == current.year && x.month == current.month)
  {
    var g := MonthGrid(current);
    assert DaysInMonth(current.year, current.month) >= 28;
    if x.year == current.year && x.month == current.month {
      assert g.days[x.day - 1] == x;
    }
  }

  /** Day `i + 1` sits in column `(padding + i) % 7`, the column of its weekday. */
  lemma {:induction false} MonthGridColumns(current: Date, i: int)
    requires ValidMonth(current.month) && 0 <= i < |MonthGrid(current).days|
    ensures Weekday(MonthGrid(current).days[i]) == (MonthGrid(current).padding + i) % 7
  {
    WeekdayInMonth(current.year, current.month, i + 1);
  }

  // ----- The month shown -----

  /** The calendar's `currentMonth` state. */
  class CalendarView {
    var currentMonth: Date

    ghost predicate Valid()
      reads this
    {
      ValidDate(currentMonth)
    }

    /** `useState(new Date())`: the calendar opens on today. */
    constructor(today: Date)
      requires ValidDate(today)
      ensures Valid() && currentMonth == today
    {
      currentMonth := today;
    }

    /** `handlePrevMonth`: `subMonths(currentMonth, 1)`. */
    method PrevMonth()
      requires Valid()
      modifies this
      ensures Valid() && currentMonth == AddMonths(old(currentMonth), -1)
    {
      currentMonth := AddMonths(currentMonth, -1);
    }

    /** `handleNextMonth`: `addMonths(currentMonth, 1)`. */
    method NextMonth()
      requires Valid()
      modifies this
      ensures Valid() && currentMonth == AddMonths(old(currentMonth), 1)
    {
      currentMonth := AddMonths(currentMonth, 1);
    }

    /** `handleToday`. */
    method Today(today: Date)
      requires ValidDate(today)
      modifies this
      ensures Valid() && currentMonth == today
    {
      currentMonth := today;
    }

    /** The grid shown for the current month. */
    function Shown(): Grid
      reads this
      requires Valid()
    {
      MonthGrid(currentMonth)
    }
  }

  /** The previous month and then the next one shows the same year, month and grid again. */
  lemma {:induction false} PrevThenNext(d: Date)
    requires ValidDate(d)
    ensures var r := AddMonths(AddMonths(d, -1), 1);
            r.year == d.year && r.month == d.month && MonthGrid(r) == MonthGrid(d)
  {
    var r := AddMonths(AddMonths(d, -1), 1);
    MonthIndexInjective(r, d);
  }

  /** The next month and then the previous one shows the same year, month and grid again. */
  lemma {:induction false} NextThenPrev(d: Date)
    requires ValidDate(d)
    ensures var r := AddMonths(AddMonths(d, 1), -1);
            r.year == d.year && r.month == d.month && MonthGrid(r) == MonthGrid(d)
  {
    var r := AddMonths(AddMonths(d, 1), -1);
    MonthIndexInjective(r, d);
  }

  /** The day of the month is not always restored: 31 March 2024 comes back as 29 March. */
  lemma {:induction false} PrevThenNextMovesDay()
    ensures AddMonths(AddMonths(Date(2024, 3, 31), -1), 1) == Date(2024, 3, 29)
  {
    var feb := AddMonths(Date(2024, 3, 31), -1);
    assert feb.year * 12 + feb.month - 1 == 2024 * 12 + 1;
    MonthIndexInjective(feb, Date(2024, 2, 1));
    assert feb == Date(2024, 2, 29);
    var mar := AddMonths(feb, 1);
    MonthIndexInjective(mar, Date(2024, 3, 1));
  }
}
