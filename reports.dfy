/**
  The reports page (src/app/reports/page.tsx): the month selected as a `yyyy-MM` key and its
  query window, the sparse `expenseByCategory` dictionary built by a `reduce`, the pie chart
  data sorted by value, the four totals and the balance, the twelve month options and the bar
  chart data.
*/
module Reports {
  import opened Wrappers
  import opened Dates
  import opened Text
  import opened Types
  import opened Folds
  import opened Assoc
  import opened Ledger
  import opened Dashboard

  // ----- The selected month and its query window -----

  /**
    `format(date, 'yyyy-MM')`. date-fns writes the year of the era, so the years 0, -1, ...
    are written as 1, 2, ...
  */
  function FormatMonthKey(d: Date): string
    requires ValidMonth(d.month)
  {
    Padded(if d.year > 0 then d.year else 1 - d.year, 4) + "-" + Padded(d.month, 2)
  }

  /**
    `selectedMonth.split('-')` and `parseInt` of the first two pieces. `None` stands for a
    `NaN` piece; a missing piece is `undefined`, which also parses to `NaN`.
  */
  function ParseMonthKey(key: string): Option<(int, int)> {
    var parts := Split(key, '-');
    if |parts| < 2 then None
    else
      match (ParseInt(parts[0]), ParseInt(parts[1]))
      case (Some(y), Some(m)) => Some((y, m))
      case _ => None
  }

  /**
    The year and month of `new Date(year, monthIndex)`: a year from 0 to 99 means 1900 to 1999,
    and a month index outside 0..11 carries into the year.
  */
  function JsYearMonth(year: int, monthIndex: int): (r: (int, int))
    ensures ValidMonth(r.1)
  {
    var y := if 0 <= year <= 99 then 1900 + year else year;
    var total := y * 12 + monthIndex;
    (total / 12, total % 12 + 1)
  }

  /**
    `startOfMonth` and `endOfMonth` of `new Date(year, month - 1)`: the first and the last day of
    the month, both included in the query. `None` when a piece is `NaN`: the `Date` is invalid,
    `toISOString` throws and the fetch leaves the list as it was.
  */
  function MonthWindow(key: string): Option<(Date, Date)> {
    match ParseMonthKey(key)
    case None => None
    case Some((y, m)) =>
      var ym := JsYearMonth(y, m - 1);
      Some((FirstOfMonth(ym.0, ym.1), LastOfMonth(ym.0, ym.1)))
  }

  lemma {:induction false} DigitsHaveNoDash(s: string)
    requires AllDigits(s)
    ensures '-' !in s
  {
  }

  /** Parsing a formatted key gives back its year and month, for every year from 1 on. */
  lemma {:induction false} MonthKeyRoundTrip(d: Date)
    requires ValidMonth(d.month) && d.year >= 1
    ensures ParseMonthKey(FormatMonthKey(d)) == Some((d.year, d.month))
  {
    var ys := Padded(d.year, 4);
    var ms := Padded(d.month, 2);
    DigitsHaveNoDash(ys);
    DigitsHaveNoDash(ms);
    assert FormatMonthKey(d) == ys + ['-'] + ms;
    SplitTwo(ys, ms, '-');
    PaddedRoundTrip(d.year, 4);
    PaddedRoundTrip(d.month, 2);
  }

  /** Two months from year 1 on have the same key only if they are the same month. */
  lemma {:induction false} MonthKeyInjective(a: Date, b: Date)
    requires ValidMonth(a.month) && a.year >= 1 && ValidMonth(b.month) && b.year >= 1
    requires FormatMonthKey(a) == FormatMonthKey(b)
    ensures a.year == b.year && a.month == b.month
  {
    MonthKeyRoundTrip(a);
    MonthKeyRoundTrip(b);
  }

  /** A key that parses to year `y` and month `m` selects month `m` of `y`, or of `1900 + y` for `y` in 0..99. */
  lemma {:induction false} WindowOfParsedKey(key: string, y: int, m: int)
    requires ParseMonthKey(key) == Some((y, m)) && ValidMonth(m)
    ensures var year := if 0 <= y <= 99 then 1900 + y else y;
            MonthWindow(key) == Some((FirstOfMonth(year, m), LastOfMonth(year, m)))
  {
    MonthIndexSplit(if 0 <= y <= 99 then 1900 + y else y, m);
  }

  /**
    From the year 100 on, the window of a month's key runs from its first to its last day (which
    follows the month length and leap years), and a valid date lies in it exactly when it is in
    that month.
  */
  lemma {:induction false} MonthWindowOfKey(d: Date, x: Date)
    requires ValidMonth(d.month) && d.year >= 100 && ValidDate(x)
    ensures MonthWindow(FormatMonthKey(d))
            == Some((FirstOfMonth(d.year, d.month), LastOfMonth(d.year, d.month)))
    ensures LastOfMonth(d.year, d.month).day == DaysInMonth(d.year, d.month)
    ensures DateLe(FirstOfMonth(d.year, d.month), x) && DateLe(x, LastOfMonth(d.year, d.month))
            <==> x.year == d.year && x.month == d.month
  {
    MonthKeyRoundTrip(d);
    WindowOfParsedKey(FormatMonthKey(d), d.year, d.month);
    MonthWindowExact(d.year, d.month, x);
  }

  /** A key with a year from 1 to 99 selects a month of the 20th century instead. */
  lemma {:induction false} TwoDigitYearsShift(d: Date)
    requires ValidMonth(d.month) && 1 <= d.year <= 99
    ensures MonthWindow(FormatMonthKey(d))
            == Some((FirstOfMonth(1900 + d.year, d.month), LastOfMonth(1900 + d.year, d.month)))
  {
    MonthKeyRoundTrip(d);
    WindowOfParsedKey(FormatMonthKey(d), d.year, d.month);
  }

  /** The query's condition: the user's own transactions dated inside the window. */
  function InReport(user: User, w: (Date, Date)): Transaction -> bool {
    (t: Transaction) => t.userId == user.id && DateLe(w.0, t.date) && DateLe(t.date, w.1)
  }

  /** The fetched list for the selected key; `None` when the fetch fails on an invalid date. */
  function ReportQuery(all: seq<Transaction>, user: User, key: string): Option<seq<Transaction>> {
    match MonthWindow(key)
    case None => None
    case Some(w) => Some(Filter(all, InReport(user, w)))
  }

  /**
    For the key of a month from the year 100 on, the query keeps exactly the user's transactions
    of that month, each as often as it occurs.
  */
  lemma {:induction false} ReportQueryExact(all: seq<Transaction>, user: User, d: Date, t: Transaction)
    requires ValidMonth(d.month) && d.year >= 100 && ValidDate(t.date)
    ensures ReportQuery(all, user, FormatMonthKey(d)).Some?
    ensures multiset(ReportQuery(all, user, FormatMonthKey(d)).value)[t]
            == if t.userId == user.id && t.date.year == d.year && t.date.month == d.month
               then multiset(all)[t] else 0
  {
    MonthWindowOfKey(d, t.date);
    var w := (FirstOfMonth(d.year, d.month), LastOfMonth(d.year, d.month));
    FilterMultiset(all, InReport(user, w), t);
  }

  // ----- `expenseByCategory`: a dictionary filled by `reduce` -----

  /** `expenseByCategory`: a dictionary from categories to numbers. */
  type Dict = seq<(Category, int)>

  /** `acc[c] || 0`: an absent key counts as 0. */
  function OrZero(v: Option<int>): int {
    match v
    case None => 0
    case Some(x) => x
  }

  /** Writing one entry changes the sum of the values by the difference. */
  lemma {:induction false} StoreValueSum(acc: Dict, c: Category, v: int)
    ensures SumOf(Store(acc, c, v), EntryAmount) == SumOf(acc, EntryAmount) - OrZero(Lookup(acc, c)) + v
  {
    StoreSum(acc, c, v, EntryAmount);
  }

  /** There is an expense of category `c` in `ts`. */
  ghost predicate HasExpenseIn(ts: seq<Transaction>, c: Category) {
    exists i :: 0 <= i < |ts| && ts[i].kind == Expense && ts[i].category == c
  }

  /** The categories that have an expense in `ts`, in the order of their first expense. */
  function ExpenseCategories(ts: seq<Transaction>): (r: seq<Category>)
    ensures Distinct(r)
  {
    if ts == [] then []
    else
      var r0 := ExpenseCategories(ts[..|ts| - 1]);
      var t := ts[|ts| - 1];
      if t.kind == Expense && t.category !in r0 then r0 + [t.category] else r0
  }

  lemma {:induction false} ExpenseCategoriesSnoc(ts: seq<Transaction>, t: Transaction)
    ensures ExpenseCategories(ts + [t])
            == if t.kind == Expense && t.category !in ExpenseCategories(ts)
               then ExpenseCategories(ts) + [t.category] else ExpenseCategories(ts)
  {
    assert (ts + [t])[..|ts|] == ts;
  }

  /** A category is listed exactly when it has an expense; an unlisted category totals 0. */
  lemma {:induction false} ExpenseCategoriesExact(ts: seq<Transaction>, c: Category)
    ensures c in ExpenseCategories(ts) <==> HasExpenseIn(ts, c)
    ensures c !in ExpenseCategories(ts) ==> CategoryTotal(ts, c) == 0
  {
    if ts != [] {
      var init := ts[..|ts| - 1];
      var t := ts[|ts| - 1];
      ExpenseCategoriesExact(init, c);
      if HasExpenseIn(init, c) {
        var i :| 0 <= i < |init| && init[i].kind == Expense && init[i].category == c;
        assert ts[i] == init[i];
      }
      if HasExpenseIn(ts, c) && !(t.kind == Expense && t.category == c) {
        var i :| 0 <= i < |ts| && ts[i].kind == Expense && ts[i].category == c;
        assert i < |init| && init[i] == ts[i];
      }
      if t.kind == Expense && t.category == c {
        assert ts[|ts| - 1] == t;
      }
    }
  }

  /**
    The reference for the report's `expenseByCategory`: one entry per category with an expense,
    in the order of first expense, holding that category's expense total.
  */
  function SparseBuckets(ts: seq<Transaction>): (acc: Dict)
    ensures DistinctKeys(acc)
  {
    var cs := ExpenseCategories(ts);
    seq(|cs|, i requires 0 <= i < |cs| => (cs[i], CategoryTotal(ts, cs[i])))
  }

  /** `acc[c] || 0` is the category's expense total; the key is present exactly when it has an expense. */
  lemma {:induction false} SparseLookup(ts: seq<Transaction>, c: Category)
    ensures Lookup(SparseBuckets(ts), c).Some? <==> HasExpenseIn(ts, c)
    ensures OrZero(Lookup(SparseBuckets(ts), c)) == CategoryTotal(ts, c)
  {
    var cs := ExpenseCategories(ts);
    var acc := SparseBuckets(ts);
    ExpenseCategoriesExact(ts, c);
    if c in cs {
      var j :| 0 <= j < |cs| && cs[j] == c;
      KeyIndexIs(acc, c, j);
    } else {
      KeyIndexIs(acc, c, -1);
    }
  }

  lemma {:induction false} CategoryTotalsSnoc(ts: seq<Transaction>, t: Transaction)
    ensures forall c: Category :: CategoryTotal(ts + [t], c) == CategoryTotal(ts, c) + CategoryShare(t, c)
  {
    forall c: Category ensures CategoryTotal(ts + [t], c) == CategoryTotal(ts, c) + CategoryShare(t, c) {
      CategoryTotalSnoc(ts, t, c);
    }
  }

  /** An expense in a listed category adds its amount to that entry, in place. */
  lemma {:induction false} SparseBucketsSnocSeen(ts: seq<Transaction>, t: Transaction, j: int)
    requires t.kind == Expense
    requires 0 <= j < |ExpenseCategories(ts)| && ExpenseCategories(ts)[j] == t.category
    ensures SparseBuckets(ts + [t])
            == SparseBuckets(ts)[j := (t.category, CategoryTotal(ts, t.category) + t.amount)]
  {
    SeenKeepsCategories(ts, t, j);
    var acc' := SparseBuckets(ts + [t]);
    var r := SparseBuckets(ts)[j := (t.category, CategoryTotal(ts, t.category) + t.amount)];
    forall i | 0 <= i < |r| ensures acc'[i] == r[i] {
      SeenEntry(ts, t, j, i);
    }
    SameElements(acc', r);
  }

  lemma {:induction false} SeenEntry(ts: seq<Transaction>, t: Transaction, j: int, i: int)
    requires t.kind == Expense
    requires 0 <= j < |ExpenseCategories(ts)| && ExpenseCategories(ts)[j] == t.category
    requires 0 <= i < |ExpenseCategories(ts)|
    ensures |SparseBuckets(ts + [t])| == |SparseBuckets(ts)|
    ensures SparseBuckets(ts + [t])[i]
            == SparseBuckets(ts)[j := (t.category, CategoryTotal(ts, t.category) + t.amount)][i]
  {
    SeenKeepsCategories(ts, t, j);
    SeenTotal(ts, t, ExpenseCategories(ts), j, i);
  }

  lemma {:induction false} SeenKeepsCategories(ts: seq<Transaction>, t: Transaction, j: int)
    requires 0 <= j < |ExpenseCategories(ts)| && ExpenseCategories(ts)[j] == t.category
    ensures ExpenseCategories(ts + [t]) == ExpenseCategories(ts)
  {
    ExpenseCategoriesSnoc(ts, t);
  }

  /** Only the expense's own category total grows. */
  lemma {:induction false} SeenTotal(ts: seq<Transaction>, t: Transaction, cs: seq<Category>, j: int, i: int)
    requires t.kind == Expense && Distinct(cs)
    requires 0 <= j < |cs| && cs[j] == t.category && 0 <= i < |cs|
    ensures CategoryTotal(ts + [t], cs[i]) == CategoryTotal(ts, cs[i]) + (if i == j then t.amount else 0)
  {
    CategoryTotalSnoc(ts, t, cs[i]);
    if i != j {
      assert cs[i] != cs[j];
    }
  }

  /** An expense in a new category appends that category's entry, holding its amount. */
  lemma {:induction false} SparseBucketsSnocNew(ts: seq<Transaction>, t: Transaction)
    requires t.kind == Expense && t.category !in ExpenseCategories(ts)
    ensures SparseBuckets(ts + [t]) == SparseBuckets(ts) + [(t.category, t.amount)]
  {
    var cs := ExpenseCategories(ts);
    ExpenseCategoriesSnoc(ts, t);
    ExpenseCategoriesExact(ts, t.category);
    var acc' := SparseBuckets(ts + [t]);
    var r := SparseBuckets(ts) + [(t.category, t.amount)];
    assert |r| == |acc'|;
    forall i | 0 <= i < |r| ensures r[i] == acc'[i] {
      if i < |cs| {
        CategoryTotalSnoc(ts, t, cs[i]);
      } else {
        CategoryTotalSnoc(ts, t, t.category);
      }
    }
  }

  /** A transaction that is not an expense leaves `expenseByCategory` as it was. */
  lemma {:induction false} NonExpenseKeepsBuckets(ts: seq<Transaction>, t: Transaction)
    requires t.kind != Expense
    ensures SparseBuckets(ts + [t]) == SparseBuckets(ts)
  {
    ExpenseCategoriesSnoc(ts, t);
    CategoryTotalsSnoc(ts, t);
  }

  /** One more transaction is one more step of the `reduce` callback. */
  lemma {:induction false} SparseBucketsSnoc(ts: seq<Transaction>, t: Transaction)
    ensures SparseBuckets(ts + [t])
            == if t.kind == Expense
               then Store(SparseBuckets(ts), t.category, OrZero(Lookup(SparseBuckets(ts), t.category)) + t.amount)
               else SparseBuckets(ts)
  {
    var cs := ExpenseCategories(ts);
    var acc := SparseBuckets(ts);
    if t.kind == Expense {
      var c := t.category;
      var j := KeyIndex(acc, c);
      if j == -1 {
        assert forall i :: 0 <= i < |cs| ==> acc[i].0 == cs[i];
        SparseBucketsSnocNew(ts, t);
      } else {
        SparseLookup(ts, c);
        SparseBucketsSnocSeen(ts, t, j);
      }
    } else {
      NonExpenseKeepsBuckets(ts, t);
    }
  }

  /**
    The `reduce` of the filtered expenses into `acc`: `acc[t.category] = (acc[t.category] || 0)
    + t.amount`. Skipping the transactions that are not expenses is the preceding `filter`.
  */
  method ExpenseByCategory(ts: seq<Transaction>) returns (acc: Dict)
    ensures acc == SparseBuckets(ts)
  {
    acc := [];
    var i := 0;
    assert ts[..0] == [];
    while i < |ts|
      invariant 0 <= i <= |ts|
      invariant acc == SparseBuckets(ts[..i])
    {
      var t := ts[i];
      assert ts[..i + 1] == ts[..i] + [t];
      SparseBucketsSnoc(ts[..i], t);
      if t.kind == Expense {
        acc := Store(acc, t.category, OrZero(Lookup(acc, t.category)) + t.amount);
      }
      i := i + 1;
    }
    assert ts[..i] == ts;
  }

  /**
    Where the report's dictionary has a key it agrees with the dashboard's bucket; the dashboard
    shows a pre-filled 0 for every category without an expense, where the report has no key.
  */
  lemma {:induction false} SparseAgreesWithDashboard(ts: seq<Transaction>, c: Category)
    ensures OrZero(Lookup(SparseBuckets(ts), c)) == Amount(StatsOf(ts).expenseByCategory, c)
    ensures Lookup(SparseBuckets(ts), c).None? ==> Amount(StatsOf(ts).expenseByCategory, c) == 0
  {
    SparseLookup(ts, c);
    BucketOf(ts, c);
  }

  /** One more transaction adds to the dictionary's values what it adds to the expense total. */
  lemma {:induction false} SparseBucketsSumSnoc(ts: seq<Transaction>, t: Transaction)
    ensures SumOf(SparseBuckets(ts + [t]), EntryAmount)
            == SumOf(SparseBuckets(ts), EntryAmount) + (if t.kind == Expense then t.amount else 0)
  {
    var acc := SparseBuckets(ts);
    SparseBucketsSnoc(ts, t);
    if t.kind == Expense {
      var v := OrZero(Lookup(acc, t.category)) + t.amount;
      assert SparseBuckets(ts + [t]) == Store(acc, t.category, v);
      StoreValueSum(acc, t.category, v);
    } else {
      assert SparseBuckets(ts + [t]) == acc;
    }
  }

  /** The dictionary's values add up to the expense total. */
  lemma {:induction false} SparseBucketsSum(ts: seq<Transaction>)
    ensures SumOf(SparseBuckets(ts), EntryAmount) == KindTotal(ts, Expense)
  {
    if ts != [] {
      var init := ts[..|ts| - 1];
      var t := ts[|ts| - 1];
      SparseBucketsSum(init);
      SparseBucketsSumSnoc(init, t);
      KindTotalSnoc(init, t, Expense);
      assert ts == init + [t];
    }
  }

  // ----- The pie chart -----

  /** One `pieChartData` element. */
  datatype PieSlice = PieSlice(name: string, value: int, color: string)

  function SliceOf(e: (Category, int)): PieSlice {
    PieSlice(CategoryLabel(e.0), e.1, CategoryColor(e.0))
  }

  function SliceValue(s: PieSlice): int {
    s.value
  }

  /** `Object.entries(acc).map(...)`, in key order. */
  function Slices(acc: Dict): (r: seq<PieSlice>)
    ensures |r| == |acc|
    ensures forall i :: 0 <= i < |r| ==> r[i] == SliceOf(acc[i])
  {
    if acc == [] then [] else Slices(acc[..|acc| - 1]) + [SliceOf(acc[|acc| - 1])]
  }

  /** `pieChartData`: the slices, largest value first (the sort is stable). */
  function PieChartData(acc: Dict): (r: seq<PieSlice>)
    ensures multiset(r) == multiset(Slices(acc))
    ensures SortedDesc(r, SliceValue)
  {
    SortDesc(Slices(acc), SliceValue)
  }

  lemma {:induction false} SlicesSum(acc: Dict)
    ensures SumOf(Slices(acc), SliceValue) == SumOf(acc, EntryAmount)
  {
    if acc != [] {
      var init := acc[..|acc| - 1];
      SlicesSum(init);
      SumSnoc(Slices(init), SliceOf(acc[|acc| - 1]), SliceValue);
      assert acc == init + [acc[|acc| - 1]];
      SumSnoc(init, acc[|acc| - 1], EntryAmount);
    }
  }

  /** The pie chart's values add up to the month's expense total. */
  lemma {:induction false} PieValuesSumToTotalExpense(ts: seq<Transaction>)
    ensures SumOf(PieChartData(SparseBuckets(ts)), SliceValue) == SummaryOf(ts).totalExpense
  {
    var acc := SparseBuckets(ts);
    SumPermutation(PieChartData(acc), Slices(acc), SliceValue);
    SlicesSum(acc);
    SparseBucketsSum(ts);
    KindTotalIsFilterSum(ts, Expense);
  }

  /** Every slice of the pie chart is the slice of a category that has an expense. */
  lemma {:induction false} PieSlicesSound(ts: seq<Transaction>, i: int)
    requires 0 <= i < |PieChartData(SparseBuckets(ts))|
    ensures exists d: Category :: HasExpenseIn(ts, d)
              && PieChartData(SparseBuckets(ts))[i] == SliceOf((d, CategoryTotal(ts, d)))
  {
    var acc := SparseBuckets(ts);
    var cs := ExpenseCategories(ts);
    var sl := Slices(acc);
    var pie := PieChartData(acc);
    assert pie[i] in multiset(sl);
    var k :| 0 <= k < |sl| && sl[k] == pie[i];
    ExpenseCategoriesExact(ts, cs[k]);
    assert pie[i] == SliceOf((cs[k], CategoryTotal(ts, cs[k])));
  }

  /** Every category with an expense has a slice, valued at its expense total. */
  lemma {:induction false} PieSlicesComplete(ts: seq<Transaction>, c: Category)
    requires HasExpenseIn(ts, c)
    ensures exists i :: 0 <= i < |PieChartData(SparseBuckets(ts))|
              && PieChartData(SparseBuckets(ts))[i] == SliceOf((c, CategoryTotal(ts, c)))
  {
    var acc := SparseBuckets(ts);
    var cs := ExpenseCategories(ts);
    var pie := PieChartData(acc);
    ExpenseCategoriesExact(ts, c);
    var k :| 0 <= k < |cs| && cs[k] == c;
    assert Slices(acc)[k] in multiset(pie);
  }

  /** The slices are sorted by value, largest first. */
  lemma {:induction false} PieSlicesByValue(ts: seq<Transaction>)
    ensures var pie := PieChartData(SparseBuckets(ts));
            forall i, j :: 0 <= i < j < |pie| ==> pie[i].value >= pie[j].value
  {
    var pie := PieChartData(SparseBuckets(ts));
    forall i, j | 0 <= i < j < |pie| ensures pie[i].value >= pie[j].value {
      assert SliceValue(pie[i]) >= SliceValue(pie[j]);
    }
  }

  /** No two slices have the same name. */
  lemma {:induction false} PieNamesDistinct(ts: seq<Transaction>, i: int, j: int)
    requires 0 <= i < j < |PieChartData(SparseBuckets(ts))|
    ensures PieChartData(SparseBuckets(ts))[i].name != PieChartData(SparseBuckets(ts))[j].name
  {
    var acc := SparseBuckets(ts);
    var pie := PieChartData(acc);
    if pie[i].name == pie[j].name {
      SlicesDistinct(acc);
      SameNameSameSlice(acc, pie[i], pie[j]);
      TwiceCounted(pie, i, j);
      DistinctCount(Slices(acc), pie[i]);
    }
  }

  /** Two slices of a dictionary with the same name are the same slice. */
  lemma {:induction false} SameNameSameSlice(acc: Dict, x: PieSlice, y: PieSlice)
    requires DistinctKeys(acc)
    requires x in multiset(Slices(acc)) && y in multiset(Slices(acc)) && x.name == y.name
    ensures x == y
  {
    var sl := Slices(acc);
    assert x in sl && y in sl;
    var a :| 0 <= a < |sl| && sl[a] == x;
    var b :| 0 <= b < |sl| && sl[b] == y;
    CategoryLabelsDistinct(acc[a].0, acc[b].0);
    assert acc[a].0 == acc[b].0;
    assert a == b;
  }

  /** The pie chart is empty (and the page shows its empty message) exactly when there is no expense. */
  lemma {:induction false} PieEmptyIffNoExpense(ts: seq<Transaction>)
    ensures PieChartData(SparseBuckets(ts)) == [] <==> forall k :: 0 <= k < |ts| ==> ts[k].kind != Expense
  {
    var cs := ExpenseCategories(ts);
    var pie := PieChartData(SparseBuckets(ts));
    assert |pie| == |cs|;
    if cs == [] {
      forall k | 0 <= k < |ts| ensures ts[k].kind != Expense {
        ExpenseCategoriesExact(ts, ts[k].category);
      }
    } else {
      ExpenseCategoriesExact(ts, cs[0]);
    }
  }

  /** Distinct keys give distinct slices. */
  lemma {:induction false} SlicesDistinct(acc: Dict)
    requires DistinctKeys(acc)
    ensures Distinct(Slices(acc))
  {
    var sl := Slices(acc);
    forall i, j | 0 <= i < j < |sl| ensures sl[i] != sl[j] {
      CategoryLabelsDistinct(acc[i].0, acc[j].0);
    }
  }

  /**
    With no negative amount, each slice's value lies between 0 and the expense total, so the
    percentage shown next to it, `value / totalExpense * 100`, is a number in [0, 100] whenever
    the total is not 0.
  */
  lemma {:induction false} PieShareBounded(ts: seq<Transaction>, i: int)
    requires forall k :: 0 <= k < |ts| ==> ts[k].amount >= 0
    requires 0 <= i < |PieChartData(SparseBuckets(ts))|
    ensures 0 <= PieChartData(SparseBuckets(ts))[i].value <= SummaryOf(ts).totalExpense
    ensures SummaryOf(ts).totalExpense != 0 ==>
              var p := Percentage(PieChartData(SparseBuckets(ts))[i].value, SummaryOf(ts).totalExpense);
              p.Some? && 0.0 <= p.value <= 100.0
  {
    PieSlicesSound(ts, i);
    var pie := PieChartData(SparseBuckets(ts));
    var d: Category :| HasExpenseIn(ts, d) && pie[i] == SliceOf((d, CategoryTotal(ts, d)));
    BucketBounded(ts, d);
    BucketOf(ts, d);
    SummaryAgreesWithDashboard(ts);
  }

  // ----- Totals and the bar chart -----

  /** The four totals and the balance of the report. */
  datatype Summary = Summary(totalIncome: int, totalExpense: int, totalSaving: int, totalDebt: int, balance: int)

  /** `transactions.filter(t => t.type === k).reduce((sum, t) => sum + t.amount, 0)`. */
  function KindSum(ts: seq<Transaction>, k: TransactionType): int {
    SumOf(Filter(ts, KindIs(k)), AmountOf)
  }

  function SummaryOf(ts: seq<Transaction>): Summary {
    var income := KindSum(ts, Income);
    var expense := KindSum(ts, Expense);
    var saving := KindSum(ts, Saving);
    var debt := KindSum(ts, Debt);
    Summary(income, expense, saving, debt, income - expense - saving - debt)
  }

  /** The report's totals and balance agree with the dashboard's fold over the same list. */
  lemma {:induction false} SummaryAgreesWithDashboard(ts: seq<Transaction>)
    ensures SummaryOf(ts).totalIncome == StatsOf(ts).totalIncome
    ensures SummaryOf(ts).totalExpense == StatsOf(ts).totalExpense
    ensures SummaryOf(ts).totalSaving == StatsOf(ts).totalSaving
    ensures SummaryOf(ts).totalDebt == StatsOf(ts).totalDebt
    ensures SummaryOf(ts).balance == StatsOf(ts).balance
  {
    KindTotalIsFilterSum(ts, Income);
    KindTotalIsFilterSum(ts, Expense);
    KindTotalIsFilterSum(ts, Saving);
    KindTotalIsFilterSum(ts, Debt);
  }

  /** One `barChartData` element. */
  datatype Bar = Bar(name: string, amount: int, fill: string)

  function BarChartData(s: Summary): seq<Bar> {
    [Bar("Thu nhập", s.totalIncome, "#10b981"), Bar("Chi tiêu", s.totalExpense, "#ef4444"),
     Bar("Tiết kiệm", s.totalSaving, "#8b5cf6"), Bar("Trả nợ", s.totalDebt, "#f59e0b")]
  }

  /**
    The bar chart has one bar per kind, in the order income, expense, saving, debt: bar `i` is
    named by the label of the `i`-th kind and carries that kind's total.
  */
  lemma {:induction false} BarChartFollowsKinds(ts: seq<Transaction>, i: int)
    requires 0 <= i < 4
    ensures |BarChartData(SummaryOf(ts))| == 4
    ensures BarChartData(SummaryOf(ts))[i].name == TypeLabel(AllKinds[i])
    ensures BarChartData(SummaryOf(ts))[i].amount == KindTotal(ts, AllKinds[i])
  {
    KindTotalIsFilterSum(ts, AllKinds[i]);
  }

  /** The four bars have four distinct colours. */
  lemma {:induction false} BarFillsDistinct(s: Summary, i: int, j: int)
    requires 0 <= i < j < 4
    ensures BarChartData(s)[i].fill != BarChartData(s)[j].fill
  {
  }

  // ----- The month options -----

  /** `monthOptions` values: the keys of `subMonths(now, i)` for i = 0 .. 11. */
  function MonthOptions(today: Date): (opts: seq<string>)
    requires 1 <= today.day
    ensures |opts| == 12
  {
    seq(12, i requires 0 <= i < 12 => FormatMonthKey(AddMonths(today, -i)))
  }

  /** The month number of a parsed key, counted from year 0. */
  function KeyMonthIndex(ym: (int, int)): int {
    ym.0 * 12 + ym.1 - 1
  }

  /** From the year 2 on, option `i` parses back to the month `i` months before today. */
  lemma {:induction false} MonthOptionAt(today: Date, i: int)
    requires ValidDate(today) && today.year >= 2 && 0 <= i < 12
    ensures ParseMonthKey(MonthOptions(today)[i]).Some?
    ensures KeyMonthIndex(ParseMonthKey(MonthOptions(today)[i]).value) == MonthIndex(today) - i
  {
    var d := AddMonths(today, -i);
    assert MonthOptions(today)[i] == FormatMonthKey(d);
    assert d.year >= 1;
    MonthKeyRoundTrip(d);
    assert KeyMonthIndex((d.year, d.month)) == MonthIndex(d);
  }

  lemma {:induction false} FirstOptionIsToday(today: Date)
    requires ValidDate(today)
    ensures MonthOptions(today)[0] == FormatMonthKey(today)
  {
    var d := AddMonths(today, 0);
    MonthIndexInjective(d, today);
    assert d == today;
  }

  /**
    From the year 2 on, the first option is the current month (the initial selection), each
    further option is one calendar month earlier than the one before, and all twelve differ.
  */
  lemma {:induction false} MonthOptionsShape(today: Date)
    requires ValidDate(today) && today.year >= 2
    ensures MonthOptions(today)[0] == FormatMonthKey(today)
    ensures forall i :: 0 <= i < 12 ==>
              ParseMonthKey(MonthOptions(today)[i]).Some?
              && KeyMonthIndex(ParseMonthKey(MonthOptions(today)[i]).value) == MonthIndex(today) - i
    ensures forall i, j :: 0 <= i < j < 12 ==> MonthOptions(today)[i] != MonthOptions(today)[j]
  {
    var opts := MonthOptions(today);
    FirstOptionIsToday(today);
    forall i | 0 <= i < 12
      ensures ParseMonthKey(opts[i]).Some?
              && KeyMonthIndex(ParseMonthKey(opts[i]).value) == MonthIndex(today) - i
    {
      MonthOptionAt(today, i);
    }
    forall i, j | 0 <= i < j < 12 ensures opts[i] != opts[j] {
      MonthOptionAt(today, i);
      MonthOptionAt(today, j);
    }
  }
}
