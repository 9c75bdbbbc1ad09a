/**
  The dashboard page (src/app/dashboard/page.tsx): the month statistics that `fetchData` folds
  from the fetched transactions, the five most recent transactions, the transactions of a
  clicked day and the category breakdown list.
*/
module Dashboard {
  import opened Wrappers
  import opened Dates
  import opened Types
  import opened Folds
  import opened Ledger

  /** The statistics `fetchData` computes, as a function of the fetched transactions. */
  function StatsOf(ts: seq<Transaction>): MonthlyStats {
    var income := KindTotal(ts, Income);
    var expense := KindTotal(ts, Expense);
    var saving := KindTotal(ts, Saving);
    var debt := KindTotal(ts, Debt);
    MonthlyStats(income, expense, saving, debt, income - expense - saving - debt, Buckets(ts))
  }

  /** One `case` of the `switch`: the statistics after one more transaction. */
  function Tally(s: MonthlyStats, t: Transaction): MonthlyStats {
    match t.kind
    case Income => s.(totalIncome := s.totalIncome + t.amount, balance := s.balance + t.amount)
    case Expense =>
      s.(totalExpense := s.totalExpense + t.amount, balance := s.balance - t.amount,
         expenseByCategory := WithAmount(s.expenseByCategory, t.category,
                                         Amount(s.expenseByCategory, t.category) + t.amount))
    case Saving => s.(totalSaving := s.totalSaving + t.amount, balance := s.balance - t.amount)
    case Debt => s.(totalDebt := s.totalDebt + t.amount, balance := s.balance - t.amount)
  }

  /** Folding one more transaction is one more `Tally`. */
  lemma {:induction false} StatsOfSnoc(ts: seq<Transaction>, t: Transaction)
    ensures StatsOf(ts + [t]) == Tally(StatsOf(ts), t)
  {
    KindTotalSnoc(ts, t, Income);
    KindTotalSnoc(ts, t, Expense);
    KindTotalSnoc(ts, t, Saving);
    KindTotalSnoc(ts, t, Debt);
    BucketsSnoc(ts, t);
  }

  /**
    The `forEach` / `switch` fold of `fetchData` over a local `newStats` record: every
    transaction adds its amount to its kind's total, an expense also to its category's bucket;
    the balance is computed once, after the fold.
  */
  method ComputeMonthlyStats(ts: seq<Transaction>) returns (stats: MonthlyStats)
    ensures stats == StatsOf(ts)
    ensures stats.balance
            == stats.totalIncome - stats.totalExpense - stats.totalSaving - stats.totalDebt
  {
    var income, expense, saving, debt := 0, 0, 0, 0;
    var buckets := NoAmounts;
    var i := 0;
    assert MonthlyStats(0, 0, 0, 0, 0, buckets) == StatsOf(ts[..0]) by {
      assert ts[..0] == [];
      StatsOfEmpty();
    }
    while i < |ts|
      invariant 0 <= i <= |ts|
      invariant MonthlyStats(income, expense, saving, debt, income - expense - saving - debt, buckets)
                == StatsOf(ts[..i])
    {
      var t := ts[i];
      ghost var before := MonthlyStats(income, expense, saving, debt, income - expense - saving - debt, buckets);
      match t.kind {
        case Income =>
          income := income + t.amount;
        case Expense =>
          expense := expense + t.amount;
          buckets := WithAmount(buckets, t.category, Amount(buckets, t.category) + t.amount);
        case Saving =>
          saving := saving + t.amount;
        case Debt =>
          debt := debt + t.amount;
      }
      assert MonthlyStats(income, expense, saving, debt, income - expense - saving - debt, buckets)
             == Tally(before, t);
      StatsOfSnoc(ts[..i], t);
      assert ts[..i + 1] == ts[..i] + [t];
      i := i + 1;
    }
    assert ts[..i] == ts;
    var balance := income - expense - saving - debt;
    stats := MonthlyStats(income, expense, saving, debt, balance, buckets);
  }

  /** The eight entries of a record, summed. */
  function AmountsTotal(r: CategoryAmounts): int {
    r.food + r.shopping + r.transport + r.education + r.health + r.debt + r.salary + r.other
  }

  /** The category buckets add up to `totalExpense`. */
  lemma {:induction false} BucketsSumToTotalExpense(ts: seq<Transaction>)
    ensures AmountsTotal(StatsOf(ts).expenseByCategory) == StatsOf(ts).totalExpense
  {
    CategoriesSumToExpense(ts);
  }

  /** On no transactions every total, every bucket and the balance are zero. */
  lemma {:induction false} StatsOfEmpty()
    ensures StatsOf([]) == MonthlyStats(0, 0, 0, 0, 0, NoAmounts)
  {
  }

  /** The statistics do not depend on the order of the fetched transactions. */
  lemma {:induction false} StatsPermutationInvariant(a: seq<Transaction>, b: seq<Transaction>)
    requires multiset(a) == multiset(b)
    ensures StatsOf(a) == StatsOf(b)
  {
    TotalsPermutation(a, b, Income, Food);
    TotalsPermutation(a, b, Expense, Food);
    TotalsPermutation(a, b, Saving, Food);
    TotalsPermutation(a, b, Debt, Food);
    BucketsPermutation(a, b);
  }

  /**
    Folding a concatenation adds the folds of its parts field by field, so the statistics of
    separately fetched parts of a month can be merged by adding.
  */
  lemma {:induction false} StatsOfAppend(a: seq<Transaction>, b: seq<Transaction>, c: Category)
    ensures StatsOf(a + b).totalIncome == StatsOf(a).totalIncome + StatsOf(b).totalIncome
    ensures StatsOf(a + b).totalExpense == StatsOf(a).totalExpense + StatsOf(b).totalExpense
    ensures StatsOf(a + b).totalSaving == StatsOf(a).totalSaving + StatsOf(b).totalSaving
    ensures StatsOf(a + b).totalDebt == StatsOf(a).totalDebt + StatsOf(b).totalDebt
    ensures StatsOf(a + b).balance == StatsOf(a).balance + StatsOf(b).balance
    ensures Amount(StatsOf(a + b).expenseByCategory, c)
            == Amount(StatsOf(a).expenseByCategory, c) + Amount(StatsOf(b).expenseByCategory, c)
  {
    BucketOf(a + b, c);
    BucketOf(a, c);
    BucketOf(b, c);
    TotalsAppend(a, b, Income, c);
    TotalsAppend(a, b, Expense, c);
    TotalsAppend(a, b, Saving, c);
    TotalsAppend(a, b, Debt, c);
  }

  /**
    One more transaction changes exactly its own kind's total by its amount, and, when it is an
    expense, exactly its own category's bucket.
  */
  lemma {:induction false} OneTransactionOneBucket(ts: seq<Transaction>, t: Transaction, k: TransactionType, c: Category)
    ensures KindTotal(ts + [t], k) - KindTotal(ts, k) == if t.kind == k then t.amount else 0
    ensures Amount(StatsOf(ts + [t]).expenseByCategory, c) - Amount(StatsOf(ts).expenseByCategory, c)
            == if t.kind == Expense && t.category == c then t.amount else 0
  {
    KindTotalSnoc(ts, t, k);
    CategoryTotalSnoc(ts, t, c);
    BucketOf(ts + [t], c);
    BucketOf(ts, c);
  }

  /** `transactions.slice(0, 5)`: the first five fetched transactions, in fetched order. */
  function Recent(ts: seq<Transaction>): (r: seq<Transaction>)
    ensures |r| == Min(5, |ts|)
    ensures forall i :: 0 <= i < |r| ==> r[i] == ts[i]
  {
    ts[..Min(5, |ts|)]
  }

  /** The clicked day keeps exactly the transactions of that day, with their multiplicity. */
  lemma {:induction false} OnDayExact(ts: seq<Transaction>, d: Date, t: Transaction)
    ensures multiset(OnDay(ts, d))[t] == if t.date == d then multiset(ts)[t] else 0
    ensures forall i :: 0 <= i < |OnDay(ts, d)| ==> OnDay(ts, d)[i].date == d
  {
    FilterMultiset(ts, DateIs(d), t);
    FilterElements(ts, DateIs(d));
  }

  /** One row of the category breakdown list. `None` stands for a non-finite percentage. */
  datatype BreakdownRow = BreakdownRow(category: Category, amount: int, percentage: Option<real>)

  /** The positive entries, largest first (`filter` then the stable `sort`). */
  function BreakdownEntries(stats: MonthlyStats): (r: seq<(Category, int)>)
    ensures multiset(r) == multiset(Filter(Entries(stats.expenseByCategory), IsPositiveEntry))
    ensures SortedDesc(r, EntryAmount)
  {
    SortDesc(Filter(Entries(stats.expenseByCategory), IsPositiveEntry), EntryAmount)
  }

  /** An entry is listed, once, exactly when it is a category with a positive amount. */
  lemma {:induction false} BreakdownEntryCount(stats: MonthlyStats, e: (Category, int))
    ensures multiset(BreakdownEntries(stats))[e]
            == if e.1 > 0 && e.1 == Amount(stats.expenseByCategory, e.0) then 1 else 0
  {
    FilterMultiset(Entries(stats.expenseByCategory), IsPositiveEntry, e);
    EntryCount(stats.expenseByCategory, e);
  }

  /**
    Every positive entry comes from a category with a positive bucket and carries that bucket's
    amount, and no category is listed twice.
  */
  lemma {:induction false} BreakdownEntriesSound(stats: MonthlyStats)
    ensures var es := BreakdownEntries(stats);
            && (forall i :: 0 <= i < |es| ==> 0 < es[i].1 == Amount(stats.expenseByCategory, es[i].0))
            && (forall i, j :: 0 <= i < j < |es| ==> es[i].0 != es[j].0)
  {
    var es := BreakdownEntries(stats);
    forall i | 0 <= i < |es| ensures 0 < es[i].1 == Amount(stats.expenseByCategory, es[i].0) {
      assert es[i] in multiset(es);
      BreakdownEntryCount(stats, es[i]);
    }
    forall i, j | 0 <= i < j < |es| ensures es[i].0 != es[j].0 {
      if es[i].0 == es[j].0 {
        assert es[i] in multiset(es) && es[j] in multiset(es);
        BreakdownEntryCount(stats, es[i]);
        BreakdownEntryCount(stats, es[j]);
        assert es[i] == es[j];
        TwiceCounted(es, i, j);
      }
    }
  }

  /**
    The category breakdown list of the dashboard. Every row is a category with a positive bucket,
    holding that bucket's amount and its percentage of `totalExpense`; rows are ordered by amount,
    largest first, and no category has two rows.
  */
  function Breakdown(stats: MonthlyStats): (rows: seq<BreakdownRow>)
    ensures forall i :: 0 <= i < |rows| ==>
              && 0 < rows[i].amount == Amount(stats.expenseByCategory, rows[i].category)
              && rows[i].percentage == Percentage(rows[i].amount, stats.totalExpense)
    ensures forall i, j :: 0 <= i < j < |rows| ==> rows[i].amount >= rows[j].amount
    ensures forall i, j :: 0 <= i < j < |rows| ==> rows[i].category != rows[j].category
  {
    var es := BreakdownEntries(stats);
    BreakdownEntriesSound(stats);
    assert forall i, j :: 0 <= i < j < |es| ==> EntryAmount(es[i]) >= EntryAmount(es[j]);
    seq(|es|, i requires 0 <= i < |es|
                => BreakdownRow(es[i].0, es[i].1, Percentage(es[i].1, stats.totalExpense)))
  }

  /** Every category with a positive bucket has a row. */
  lemma {:induction false} BreakdownRowsComplete(stats: MonthlyStats, c: Category)
    requires Amount(stats.expenseByCategory, c) > 0
    ensures exists i :: 0 <= i < |Breakdown(stats)| && Breakdown(stats)[i].category == c
  {
    var es := BreakdownEntries(stats);
    var e := (c, Amount(stats.expenseByCategory, c));
    BreakdownEntryCount(stats, e);
    assert e in multiset(es);
    var i :| 0 <= i < |es| && es[i] == e;
    assert Breakdown(stats)[i].category == c;
  }

  /** With no negative amount, a category's bucket lies between zero and the expense total. */
  lemma {:induction false} BucketBounded(ts: seq<Transaction>, c: Category)
    requires forall i :: 0 <= i < |ts| ==> ts[i].amount >= 0
    ensures 0 <= Amount(StatsOf(ts).expenseByCategory, c) <= StatsOf(ts).totalExpense
  {
    CategoriesSumToExpense(ts);
    TotalsNonNegative(ts, Expense, Food);
    TotalsNonNegative(ts, Expense, Shopping);
    TotalsNonNegative(ts, Expense, Transport);
    TotalsNonNegative(ts, Expense, Education);
    TotalsNonNegative(ts, Expense, Health);
    TotalsNonNegative(ts, Expense, DebtPayment);
    TotalsNonNegative(ts, Expense, Salary);
    TotalsNonNegative(ts, Expense, Other);
  }

  /** With no negative amount, every breakdown percentage is a finite number in [0, 100]. */
  lemma {:induction false} BreakdownPercentagesBounded(ts: seq<Transaction>)
    requires forall i :: 0 <= i < |ts| ==> ts[i].amount >= 0
    ensures var rows := Breakdown(StatsOf(ts));
            StatsOf(ts).totalExpense > 0 ==>
              forall i :: 0 <= i < |rows| ==>
                rows[i].percentage.Some? && 0.0 <= rows[i].percentage.value <= 100.0
  {
    var stats := StatsOf(ts);
    var rows := Breakdown(stats);
    forall i | 0 <= i < |rows| ensures rows[i].amount <= stats.totalExpense {
      BucketBounded(ts, rows[i].category);
    }
  }

  /** With no negative amount, a non-zero expense total has a category with a positive bucket. */
  lemma {:induction false} SomeBucketPositive(ts: seq<Transaction>)
    requires forall i :: 0 <= i < |ts| ==> ts[i].amount >= 0
    requires StatsOf(ts).totalExpense != 0
    ensures exists c: Category :: Amount(StatsOf(ts).expenseByCategory, c) > 0
  {
    var r := StatsOf(ts).expenseByCategory;
    BucketsSumToTotalExpense(ts);
    BucketBounded(ts, Food);
    BucketBounded(ts, Shopping);
    BucketBounded(ts, Transport);
    BucketBounded(ts, Education);
    BucketBounded(ts, Health);
    BucketBounded(ts, DebtPayment);
    BucketBounded(ts, Salary);
    BucketBounded(ts, Other);
    assert Amount(r, Food) > 0 || Amount(r, Shopping) > 0 || Amount(r, Transport) > 0
           || Amount(r, Education) > 0 || Amount(r, Health) > 0 || Amount(r, DebtPayment) > 0
           || Amount(r, Salary) > 0 || Amount(r, Other) > 0;
  }

  /**
    With no negative amount, the breakdown is empty exactly when the expense total is 0, which is
    when the "no expense this month" message shows.
  */
  lemma {:induction false} BreakdownEmptyExact(ts: seq<Transaction>)
    requires forall i :: 0 <= i < |ts| ==> ts[i].amount >= 0
    ensures Breakdown(StatsOf(ts)) == [] <==> StatsOf(ts).totalExpense == 0
  {
    var stats := StatsOf(ts);
    var rows := Breakdown(stats);
    if stats.totalExpense != 0 {
      SomeBucketPositive(ts);
      var c: Category :| Amount(stats.expenseByCategory, c) > 0;
      BreakdownRowsComplete(stats, c);
    } else if rows != [] {
      BucketBounded(ts, rows[0].category);
    }
  }

  /**
    The dashboard's query keeps the user's transactions dated on or after the first day of the
    current month, with no upper bound.
  */
  function DashboardQuery(all: seq<Transaction>, user: User, today: Date): seq<Transaction> {
    Filter(all, (t: Transaction) => t.userId == user.id
                                    && DateLe(FirstOfMonth(today.year, today.month), t.date))
  }

  /** The query bounded on both sides by the current month, as the reports page bounds its own. */
  function CurrentMonthQuery(all: seq<Transaction>, user: User, today: Date): seq<Transaction> {
    Filter(all, (t: Transaction) => t.userId == user.id
                                    && DateLe(FirstOfMonth(today.year, today.month), t.date)
                                    && DateLe(t.date, LastOfMonth(today.year, today.month)))
  }

  /**
    Any transaction of the user dated in a later month than today passes the query, so it counts
    in "this month", while the bounded query below leaves it out; 10 February 2024 on
    15 January 2024 is one instance.
  */
  lemma {:induction false} DashboardQueryHasNoUpperBound(user: User, t: Transaction, today: Date)
    requires t.userId == user.id && ValidMonth(t.date.month) && ValidMonth(today.month)
    requires MonthIndex(t.date) > MonthIndex(today)
    ensures DashboardQuery([t], user, today) == [t]
    ensures CurrentMonthQuery([t], user, today) == []
  {
    assert t.date.year > today.year || (t.date.year == today.year && t.date.month > today.month);
    assert [t][..0] == [];
  }

  /** The bounded query keeps exactly the user's transactions of the current month. */
  lemma {:induction false} CurrentMonthQueryExact(all: seq<Transaction>, user: User, today: Date, t: Transaction)
    requires ValidDate(today) && ValidDate(t.date)
    ensures multiset(CurrentMonthQuery(all, user, today))[t]
            == if t.userId == user.id && t.date.year == today.year && t.date.month == today.month
               then multiset(all)[t] else 0
  {
    MonthWindowExact(today.year, today.month, t.date);
    FilterMultiset(all, (t: Transaction) => t.userId == user.id
                                            && DateLe(FirstOfMonth(today.year, today.month), t.date)
                                            && DateLe(t.date, LastOfMonth(today.year, today.month)), t);
  }
}
