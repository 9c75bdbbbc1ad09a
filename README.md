# Money manager: transaction aggregation and record rules

A Dafny model of the client-side logic of the money-manager web app. The app records incomes,
expenses, savings and debt payments in Vietnamese đồng.

The model covers:

- **Domain tables:** the four kinds, the eight categories, and their labels and colours.
- **Aggregation folds:**
  - the dashboard's monthly statistics;
  - the reports page's sparse expense dictionary, pie chart, totals, bar chart and month options;
  - the calendar's per-day statistics and cell colours;
  - the selected-day card;
  - the transactions page's type filter;
  - the expense pie component.
- **Calendar arithmetic:** month windows, the month grid, and month navigation.
- **Write side:** the dialog's schema and record, the add and edit pages' guards and records, and the sign-up page's checks.

How each kind of operation is modelled:

- **Folds** that the source runs as a `forEach` or `reduce` that changes an accumulator are `method`s with loop invariants. Each is proved equal to a function on the input list, and the lemmas state what the source promises about that function.
- **Pure `filter` / `map` / `sort` chains** are functions.
- **Pages whose handlers update state** are classes:
  - the add page's and edit form's `isSubmitting`;
  - the sign-up page's form, error and loading flag;
  - the calendar's month.

Modelling conventions:

- Amounts are whole `int` đồng.
- A date is a `(year, month, day)` value in the proleptic Gregorian calendar.
- A JavaScript object used as a dictionary is an insertion-ordered association list, because `Object.entries` follows insertion order.
- `Array.prototype.sort` is modelled by an insertion sort.
- Database writes are modelled as the record that would be sent (`Records.Write`).

Files, in dependency order:

- `wrappers.dfy`
- `dates.dfy`
- `text.dfy`
- `types.dfy`
- `folds.dfy`
- `assoc.dfy`
- `ledger.dfy`
- `iso_dates.dfy`
- `records.dfy`
- one file per page or component:
  - `dashboard.dfy`
  - `reports.dfy`
  - `calendar.dfy`
  - `daily_stats.dfy`
  - `transactions_page.dfy`
  - `category_chart.dfy`
  - `transaction_form.dfy`
  - `add_transaction.dfy`
  - `edit_transaction.dfy`
  - `register.dfy`

## Model

The definitions are cited through the rows of the lemmas and methods that state their properties. Each definition models these source lines:

- Dashboard:
  - `StatsOf` and `Tally`: src/app/dashboard/page.tsx:85-126 and 104-119.
  - `Recent`: 130.
  - `DashboardQuery`: 66-76, as written.
  - `CurrentMonthQuery`: the same query with the upper bound added.
  - `BreakdownEntries` and `Breakdown`: 274-279.
- Ledger:
  - `OnDay`: src/app/dashboard/page.tsx:161-166.
  - `KindTotal`: src/app/reports/page.tsx:115-129.
  - `CategoryTotal`: src/app/reports/page.tsx:99-104.
- Reports, all in src/app/reports/page.tsx:
  - `FormatMonthKey`: 48-50.
  - `ParseMonthKey`: 57.
  - `JsYearMonth` and `MonthWindow`: 58-63.
  - `ReportQuery`: 66-72.
  - `SparseBuckets`: 99-104.
  - `Slices` and `PieChartData`: 106-112.
  - `SummaryOf`: 115-131.
  - `MonthOptions`: 134-140.
  - `BarChartData`: 143-164.
- Calendar, all in src/components/dashboard/FinancialCalendar.tsx:
  - `Bump` and `DayFold`: 58-66.
  - `DailyTable`: 40-70.
  - `MonthGrid`: 73-82.
  - `CellClasses` and `ToneOf`: 168-197.
  - `CalendarView`: 37 and 91-101.
- DailyStats, all in src/components/dashboard/DailyStats.tsx:
  - `DailyIncome`: 15-17.
  - `DailyExpense`: 19-21.
  - `DailyViewOf`: 38-41 and 80.
  - `DetailRows`: 88-110.
- TransactionsPage, all in src/app/transactions/page.tsx:
  - `FilterByType`: 88-96.
  - `TypeColor`: 130-143.
  - `ShowsEmptyState`: 222-227.
  - `AmountSign`: 277.
- CategoryChart, all in src/components/reports/ExpenseByCategoryChart.tsx:
  - `ChartData`: 24-29.
  - `Rendered`: 31-33.
  - `SliceColor`: 69.
- TransactionForm, all in src/components/transactions/TransactionForm.tsx:
  - `Issues` and `Validate`: 43-58.
  - `Defaults`: 88-104.
  - `Submit`: 110-139.
- Records:
  - `NormaliseCategory`: src/app/add-transaction/page.tsx:59 and src/components/transactions/EditTransactionForm.tsx:52.
  - `ExpenseCategoryOptions`: src/app/add-transaction/page.tsx:117-118.
  - `Filled`: src/app/add-transaction/page.tsx:46 and src/components/transactions/EditTransactionForm.tsx:40.
- AddTransaction:
  - `PassesGuard`: src/app/add-transaction/page.tsx:46-50.
  - `AddRecord`: 55-64.
- EditTransaction:
  - `EditRecord`: src/components/transactions/EditTransactionForm.tsx:48-56.
- Register, all in src/app/register/page.tsx:
  - `WithField`: 32-37.
  - `PasswordCheck`: 44-52.
  - `ErrorMessage`: 64-70.
  - `SubmitError`: 41-70.
- IsoDates:
  - `IsoDay`: src/components/transactions/EditTransactionForm.tsx:35.
  - `ParseIsoDay`: src/app/add-transaction/page.tsx:61.
- Text:
  - `Padded`: src/app/reports/page.tsx:49.
  - `Split` and `ParseInt`: src/app/reports/page.tsx:57.

| member | source | states |
|---|---|---|
| Types.ExactlyFourKinds | src/types/index.ts:3 | there are exactly four kinds, each listed once |
| Types.ExactlyEightCategories | src/types/index.ts:5-13 | there are exactly eight categories, each listed once |
| Types.NamesRoundTrip | src/types/index.ts:3-13 | reading a kind's or a category's raw string gives it back |
| Types.ParseKind | src/types/index.ts:3 | a recognised raw kind string is the name of the kind returned |
| Types.ParseCategory | src/types/index.ts:5-13 | a recognised raw category string is the name of the category returned |
| Types.CategoryLabelsDistinct | src/types/index.ts:55-64 | no two categories share a label |
| Types.CategoryColorsDistinct | src/types/index.ts:75-84 | no two categories share a colour |
| Types.TypeLabelsDistinct | src/types/index.ts:67-72 | the four kinds have four distinct labels |
| Types.FindByLabel | src/components/reports/ExpenseByCategoryChart.tsx:69 | the key found has the label searched for; when none is found, no category in the list has it |
| Types.FindByLabelRecovers | src/types/index.ts:55-64 | looking a category's label up again recovers that category |
| Types.WithAmount | src/types/index.ts:41 | setting one category's amount changes that entry and no other |
| Types.AmountsExtensional | src/types/index.ts:41 | two category records with the same amount for every category are equal |
| Types.EntryMembership | src/types/index.ts:41 | the entries of a category record are exactly the (category, amount) pairs |
| Types.EntryCount | src/types/index.ts:41 | each category has exactly one entry, holding its amount |
| Ledger.KindTotalIsFilterSum | src/app/reports/page.tsx:115-129 | the total of a kind equals `filter` by that kind followed by a summing `reduce` |
| Ledger.CategoryTotalIsFilterSum | src/app/reports/page.tsx:99-104 | a category's expense total equals `filter` on expenses of that category followed by a sum |
| Ledger.BucketsSnoc | src/app/dashboard/page.tsx:108-111 | one more expense adds its amount to its own category's bucket; any other transaction leaves the buckets as they were |
| Ledger.BucketsPermutation | src/app/dashboard/page.tsx:103-120 | the category buckets do not depend on the order of the transactions |
| Ledger.TotalsAppend | src/app/dashboard/page.tsx:103-120 | the totals of a concatenation are the sums of the totals of its parts |
| Ledger.TotalsPermutation | src/app/dashboard/page.tsx:103-120 | the kind and category totals do not depend on the order of the transactions |
| Ledger.CategoriesSumToExpense | src/app/dashboard/page.tsx:108-112 | the eight category totals add up to the expense total |
| Ledger.TotalsNonNegative | src/app/dashboard/page.tsx:103-120 | with no negative amount, no total is negative |
| Ledger.Percentage | src/app/dashboard/page.tsx:278-279 | the percentage is finite exactly when the total is not 0, and lies in [0, 100] when the amount lies between 0 and the total |
| Folds.FilterAppend | src/app/transactions/page.tsx:92-94 | `filter` distributes over concatenation, so it keeps the input order |
| Folds.FilterIdempotent | src/app/transactions/page.tsx:92-94 | filtering twice with the same predicate is filtering once |
| Folds.FilterMultiset | src/app/transactions/page.tsx:92-94 | `filter` keeps every occurrence of an element that satisfies the predicate and none of the others |
| Folds.FilterElements | src/app/dashboard/page.tsx:163-165 | every kept element satisfies the predicate and comes from the input, and none that satisfies it is dropped |
| Folds.FilterComplement | src/app/transactions/page.tsx:92-94 | the kept part and the dropped part together are as long as the input |
| Folds.FilterPermutation | src/app/reports/page.tsx:99-104 | filtering permuted inputs gives permuted outputs |
| Folds.SumPermutation | src/app/reports/page.tsx:115-129 | a summing `reduce` does not depend on the order of its terms |
| Folds.FilterKeepsAscending | src/components/reports/ExpenseByCategoryChart.tsx:24-25 | a list strictly ascending by a key is still strictly ascending after filtering |
| Folds.InsertDesc | src/app/reports/page.tsx:112 | inserting adds exactly the inserted element to the multiset |
| Folds.InsertDescSorted | src/app/reports/page.tsx:112 | inserting into a descending sequence keeps it descending |
| Folds.SortDesc | src/app/dashboard/page.tsx:276 | the sort result is a permutation of its input, in descending key order |
| Dashboard.ComputeMonthlyStats | src/app/dashboard/page.tsx:85-126 | the `forEach`/`switch` fold over a local record computes `StatsOf`: each kind's total, each category's expense total and income − expense − saving − debt as the balance |
| Dashboard.StatsOfSnoc | src/app/dashboard/page.tsx:104-119 | one more transaction is one more `switch` step on the record |
| Dashboard.BucketsSumToTotalExpense | src/app/dashboard/page.tsx:108-112 | the eight buckets add up to `totalExpense` |
| Dashboard.StatsOfEmpty | src/app/dashboard/page.tsx:85-101 | with no transactions, every total, every bucket and the balance are 0 |
| Dashboard.StatsPermutationInvariant | src/app/dashboard/page.tsx:103-120 | the statistics are the same for any permutation of the fetched list |
| Dashboard.StatsOfAppend | src/app/dashboard/page.tsx:103-126 | the statistics of a concatenation are the field-by-field sums of the parts' statistics |
| Dashboard.OneTransactionOneBucket | src/app/dashboard/page.tsx:103-120 | one transaction changes exactly its own kind's total by its amount, and if it is an expense exactly its own category's bucket |
| Dashboard.Recent | src/app/dashboard/page.tsx:130 | the recent list is the first min(5, n) transactions, in fetched order |
| Dashboard.OnDayExact | src/app/dashboard/page.tsx:161-166 | the clicked day keeps exactly the transactions dated that day, each as often as it occurs |
| Dashboard.BreakdownEntries | src/app/dashboard/page.tsx:274-276 | the breakdown entries are a permutation of the positive entries, in descending amount order |
| Dashboard.BreakdownEntryCount | src/app/dashboard/page.tsx:274-276 | an entry is listed once exactly when it is a category with a positive amount, and otherwise not at all |
| Dashboard.Breakdown | src/app/dashboard/page.tsx:274-279 | every row is a category with a positive bucket, holding that bucket's amount and its percentage of `totalExpense`; rows are ordered by amount, largest first; no category has two rows |
| Dashboard.BreakdownRowsComplete | src/app/dashboard/page.tsx:274-277 | every category with a positive bucket has a row |
| Dashboard.BucketBounded | src/app/dashboard/page.tsx:103-120 | with no negative amount, each bucket lies between 0 and `totalExpense` |
| Dashboard.BreakdownPercentagesBounded | src/app/dashboard/page.tsx:278-279 | with no negative amount and a positive `totalExpense`, every row's percentage is finite and in [0, 100] |
| Dashboard.SomeBucketPositive | src/app/dashboard/page.tsx:108-112 | with no negative amount, a non-zero expense total has some positive bucket |
| Dashboard.BreakdownEmptyExact | src/app/dashboard/page.tsx:274-307 | with no negative amount, the breakdown is empty exactly when `totalExpense` is 0, the case where the empty message shows |
| Dashboard.DashboardQueryHasNoUpperBound | src/app/dashboard/page.tsx:66-76 | any transaction of the user dated in a later month than today passes the "current month" query, while the bounded query leaves it out |
| Dashboard.CurrentMonthQueryExact | src/app/dashboard/page.tsx:66-76 | the bounded query keeps exactly the user's transactions of the current month |
| Reports.MonthKeyRoundTrip | src/app/reports/page.tsx:48-50 | from year 1 on, splitting and `parseInt` of a `yyyy-MM` key give back its year and month |
| Reports.MonthKeyInjective | src/app/reports/page.tsx:137 | two months from year 1 on with the same key are the same month |
| Reports.JsYearMonth | src/app/reports/page.tsx:59 | `new Date(year, monthIndex)` always lands on a valid month |
| Reports.WindowOfParsedKey | src/app/reports/page.tsx:57-63 | a key parsing to (y, m) selects month m of y, or of 1900 + y when y is in 0..99 |
| Reports.MonthWindowOfKey | src/app/reports/page.tsx:57-70 | from year 100 on, the window runs from the first to the last day of the key's month, respecting month lengths and leap years, and a date lies in it exactly when it is in that month |
| Reports.TwoDigitYearsShift | src/app/reports/page.tsx:59-63 | a key with a year from 1 to 99 selects the same month of 1900 + year |
| Reports.ReportQueryExact | src/app/reports/page.tsx:66-72 | from year 100 on, the query succeeds and keeps exactly the user's transactions of the selected month, each as often as it occurs |
| Reports.ExpenseCategories | src/app/reports/page.tsx:101-104 | the dictionary's keys have no repetition |
| Reports.ExpenseCategoriesExact | src/app/reports/page.tsx:99-104 | a category is a key exactly when it has an expense; a category that is not a key totals 0 |
| Reports.SparseBuckets | src/app/reports/page.tsx:99-104 | the reference dictionary has distinct keys |
| Reports.SparseLookup | src/app/reports/page.tsx:99-104 | `acc[c] \|\| 0` is c's expense total, and the key is present exactly when c has an expense |
| Reports.NonExpenseKeepsBuckets | src/app/reports/page.tsx:100 | a transaction that is not an expense leaves the dictionary unchanged |
| Reports.SparseBucketsSnoc | src/app/reports/page.tsx:101-103 | one more transaction is one more `reduce` step: an expense stores `(acc[c] \|\| 0) + amount` |
| Reports.ExpenseByCategory | src/app/reports/page.tsx:99-104 | the `reduce` with an accumulator changed in place builds the reference dictionary |
| Reports.SparseAgreesWithDashboard | src/app/reports/page.tsx:101-104 | where the report has a key it agrees with the dashboard's bucket; where it has none the dashboard shows 0 |
| Reports.SparseBucketsSum | src/app/reports/page.tsx:99-121 | the dictionary's values add up to the expense total |
| Reports.Slices | src/app/reports/page.tsx:106-111 | one slice per dictionary entry, in key order, named by the category's label and coloured by its colour |
| Reports.PieChartData | src/app/reports/page.tsx:106-112 | the pie data is a permutation of the slices, sorted by value, descending |
| Reports.PieValuesSumToTotalExpense | src/app/reports/page.tsx:106-121 | the pie's values add up to `totalExpense` |
| Reports.PieSlicesSound | src/app/reports/page.tsx:106-112 | every slice is the slice of a category that has an expense, valued at its total |
| Reports.PieSlicesComplete | src/app/reports/page.tsx:106-112 | every category with an expense has a slice |
| Reports.PieSlicesByValue | src/app/reports/page.tsx:112 | slices are ordered by value, largest first |
| Reports.PieNamesDistinct | src/app/reports/page.tsx:106-111 | no two slices share a name |
| Reports.SameNameSameSlice | src/app/reports/page.tsx:108 | two slices of one dictionary with the same name are the same slice |
| Reports.SlicesDistinct | src/app/reports/page.tsx:106-111 | distinct keys give distinct slices |
| Reports.PieEmptyIffNoExpense | src/app/reports/page.tsx:306-382 | the pie is empty, and the empty message shows, exactly when there is no expense |
| Reports.PieShareBounded | src/app/reports/page.tsx:349-350 | with no negative amount, each slice lies between 0 and `totalExpense`, and its percentage lies in [0, 100] |
| Reports.SummaryAgreesWithDashboard | src/app/reports/page.tsx:115-131 | the report's four totals and balance equal the dashboard fold's on the same list |
| Reports.BarChartFollowsKinds | src/app/reports/page.tsx:143-164 | four bars in the order income, expense, saving, debt; bar i has kind i's label and total |
| Reports.BarFillsDistinct | src/app/reports/page.tsx:143-164 | the four bars have four distinct colours |
| Reports.MonthOptions | src/app/reports/page.tsx:134-140 | there are twelve month options |
| Reports.MonthOptionAt | src/app/reports/page.tsx:134-137 | from year 2 on, option i parses back to the month i months before today |
| Reports.FirstOptionIsToday | src/app/reports/page.tsx:48-50 | the first option is the current month's key, the initial selection |
| Reports.MonthOptionsShape | src/app/reports/page.tsx:134-140 | from year 2 on, the first option is the current month, option i is i calendar months earlier, and all twelve differ |
| Calendar.DayFoldTotals | src/components/dashboard/FinancialCalendar.tsx:58-66 | a day's entry holds its income total, its expense total, their difference as balance, and its number of transactions |
| Calendar.Days | src/components/dashboard/FinancialCalendar.tsx:49-56 | the days with an entry have no repetition |
| Calendar.DaysExact | src/components/dashboard/FinancialCalendar.tsx:43-56 | a day has an entry exactly when some transaction falls on it |
| Calendar.DailyTable | src/components/dashboard/FinancialCalendar.tsx:41-69 | the reference table has distinct day keys |
| Calendar.DailyLookup | src/components/dashboard/FinancialCalendar.tsx:43-67 | a day's entry is present exactly when a transaction falls on it, and it is the fold of that day's transactions |
| Calendar.DailyTableSnoc | src/components/dashboard/FinancialCalendar.tsx:49-66 | one more transaction creates its day's entry if missing, then bumps it |
| Calendar.ComputeDailyStats | src/components/dashboard/FinancialCalendar.tsx:40-70 | the `forEach` that fills `stats` computes the reference table |
| Calendar.DailyEntryExact | src/components/dashboard/FinancialCalendar.tsx:43-66 | a day with transactions has an entry with its income and expense totals, balance = income − expense, and count ≥ 1 equal to its number of transactions |
| Calendar.SavingAndDebtOnlyCount | src/components/dashboard/FinancialCalendar.tsx:58-66 | a saving or a debt only adds 1 to its day's count |
| Calendar.DailyCountsSum | src/components/dashboard/FinancialCalendar.tsx:43-67 | the counts over all days add up to the number of transactions |
| Calendar.CellToneExact | src/components/dashboard/FinancialCalendar.tsx:169-197 | a cell with transactions gets exactly one tone class, the one its balance's sign selects; a cell without transactions gets none |
| Calendar.DayToneBySums | src/components/dashboard/FinancialCalendar.tsx:169-197 | a day is green, red or gray as its income exceeds, falls short of or equals its expense |
| Calendar.MonthGridShape | src/components/dashboard/FinancialCalendar.tsx:73-82 | padding = weekday of the 1st (0 = Sunday, by Dates.WeekdayFromEpoch); one cell per day of the month, from the first day to the last; the cells are exactly that month's dates |
| Calendar.MonthGridColumns | src/components/dashboard/FinancialCalendar.tsx:159-166 | each day falls in the column of its own weekday |
| Calendar.CalendarView.constructor | src/components/dashboard/FinancialCalendar.tsx:37 | the calendar opens on today |
| Calendar.CalendarView.PrevMonth | src/components/dashboard/FinancialCalendar.tsx:91-93 | the shown date moves one month back |
| Calendar.CalendarView.NextMonth | src/components/dashboard/FinancialCalendar.tsx:95-97 | the shown date moves one month forward |
| Calendar.CalendarView.Today | src/components/dashboard/FinancialCalendar.tsx:99-101 | the shown date becomes today |
| Calendar.PrevThenNext | src/components/dashboard/FinancialCalendar.tsx:91-97 | previous then next shows the same year, month and grid again |
| Calendar.NextThenPrev | src/components/dashboard/FinancialCalendar.tsx:91-97 | next then previous shows the same year, month and grid again |
| Calendar.PrevThenNextMovesDay | src/components/dashboard/FinancialCalendar.tsx:91-97 | the day of the month is not always restored: 31 March 2024 comes back as 29 March |
| Dates.Weekday | src/components/dashboard/FinancialCalendar.tsx:81 | the weekday lies in 0..6 |
| Dates.WeekdayFromEpoch | src/components/dashboard/FinancialCalendar.tsx:81 | the weekday is `getDay`'s: the epoch-day number plus 4, mod 7, so 1 January 1970 is a Thursday (4), 1 January 2024 a Monday (1), and 0 is Sunday, the first column of the header row |
| Dates.WeekdayOfNextDay | src/components/dashboard/FinancialCalendar.tsx:81 | the weekday advances by one from each day to the next |
| Dates.WeekdayInMonth | src/components/dashboard/FinancialCalendar.tsx:75-82 | day k of a month is k − 1 weekdays after the 1st |
| Dates.NextDayOrdinal | src/components/dashboard/FinancialCalendar.tsx:75-78 | consecutive days, across month and year ends, have consecutive day numbers |
| Dates.DaysBeforeMonthStep | src/components/dashboard/FinancialCalendar.tsx:73-78 | the days before each month agree with the month lengths and sum to the year length |
| Dates.DaysBeforeYearStep | src/components/dashboard/FinancialCalendar.tsx:81 | the closed form for whole years agrees with the Gregorian leap-year rule |
| Dates.MonthWindowExact | src/app/reports/page.tsx:58-70 | the first and last day of a month are valid dates, and a date lies between them exactly when it is in that month |
| Dates.AddMonths | src/components/dashboard/FinancialCalendar.tsx:92-96 | `addMonths` moves the month index by n and keeps the day, clamped to the last day of a shorter month |
| Dates.MonthIndexInjective | src/components/dashboard/FinancialCalendar.tsx:92-96 | the month index determines year and month |
| DailyStats.DailyViewAgreesWithCalendar | src/components/dashboard/DailyStats.tsx:15-41 | for one day's transactions the card shows the empty message exactly when the calendar has no entry, and otherwise the entry's income, expense and balance |
| DailyStats.SavingAndDebtLeaveTotals | src/components/dashboard/DailyStats.tsx:15-21 | adding a saving or a debt to a non-empty day changes none of the card's totals |
| DailyStats.DetailRows | src/components/dashboard/DailyStats.tsx:88-110 | one row per transaction |
| DailyStats.DetailRowsExact | src/components/dashboard/DailyStats.tsx:94-108 | row i shows transaction i's description, its category label and its amount, with '+' exactly for an income |
| TransactionsPage.FilterByTypeExact | src/app/transactions/page.tsx:88-95 | 'all' shows the list unchanged; a kind shows every occurrence of a transaction of that kind and nothing else |
| TransactionsPage.FilterByTypeKeepsOrder | src/app/transactions/page.tsx:92-94 | filtering keeps the list's order |
| TransactionsPage.FilterByTypeIdempotent | src/app/transactions/page.tsx:92-94 | filtering the filtered list again changes nothing |
| TransactionsPage.KindFiltersPartition | src/app/transactions/page.tsx:92-94 | the lengths of the four kind filters add up to the list's length |
| TransactionsPage.EmptyStateExact | src/app/transactions/page.tsx:222-227 | the empty message shows exactly when no transaction matches the filter |
| TransactionsPage.TypeColorsExact | src/app/transactions/page.tsx:130-143 | four kinds, four distinct classes, none of them the gray default; any other value gets the default |
| TransactionsPage.AmountSignExact | src/app/transactions/page.tsx:277 | '+' exactly for an income, '-' for every other kind |
| CategoryChart.MapEntries | src/components/reports/ExpenseByCategoryChart.tsx:26-29 | slice i is entry i's label and value |
| CategoryChart.ChartSlicesSound | src/components/reports/ExpenseByCategoryChart.tsx:24-29 | every slice is a category with a positive value, named by its label, carrying its value unchanged, and filled with its own colour from the lookup by label |
| CategoryChart.ChartSlicesComplete | src/components/reports/ExpenseByCategoryChart.tsx:25 | a category has a slice exactly when its value is positive |
| CategoryChart.ChartKeepsKeyOrder | src/components/reports/ExpenseByCategoryChart.tsx:24-29 | at most eight slices, in the record's key order |
| CategoryChart.RenderedNothingExact | src/components/reports/ExpenseByCategoryChart.tsx:31-33 | the component renders nothing exactly when no category has a positive value |
| Text.PaddedRoundTrip | src/app/reports/page.tsx:57-59 | `parseInt` reads back the zero-padded number that `format` writes |
| Text.SplitJoin | src/app/reports/page.tsx:57 | joining the pieces of `split` gives the string back |
| Text.SplitTwo | src/app/reports/page.tsx:57 | splitting `a-b`, where neither part holds '-', gives the two parts |
| Text.Padded | src/app/reports/page.tsx:49 | the padded number is all digits, at least `width` long |
| IsoDates.IsoDayRoundTrip | src/components/transactions/EditTransactionForm.tsx:35 | for the years 0 to 9999, reading back the `yyyy-MM-dd` string of a date gives the same date |
| IsoDates.ParseIsoDay | src/components/transactions/EditTransactionForm.tsx:54 | a date that is read is always a valid date |
| IsoDates.EmptyIsInvalid | src/app/add-transaction/page.tsx:61 | an empty date input is an invalid date |
| Records.NormaliseCategoryExact | src/app/add-transaction/page.tsx:59 | an expense keeps its category; every other kind is filed under `other`; normalising twice is normalising once |
| Records.ExpenseCategoryOptionsExact | src/app/add-transaction/page.tsx:117-118 | the expense options are the seven categories other than `salary`, in key order; the edit form offers the same list (src/components/transactions/EditTransactionForm.tsx:101-102) |
| TransactionForm.ValidateExact | src/components/transactions/TransactionForm.tsx:43-58 | accepted exactly when the kind is one of the four, the category one of the eight, the amount > 0 and the description non-empty; accepted values are the entered ones; each broken rule, and only those, is reported |
| TransactionForm.EditDefaultsCopy | src/components/transactions/TransactionForm.tsx:88-97 | editing starts from the transaction's kind, category, amount, description and date; the untouched form is accepted exactly when the stored amount is positive and the description non-empty |
| TransactionForm.NewDefaultsRefused | src/components/transactions/TransactionForm.tsx:98-104 | an untouched new form is refused for its 0 amount and its empty description |
| TransactionForm.SubmitExact | src/components/transactions/TransactionForm.tsx:110-139 | something is written only for an accepted form, a user and a valid date; the record has the user's id and the entered values; an edit updates the edited id without `createdAt`; a new entry is created with it |
| TransactionForm.IncomeKeepsItsCategory | src/components/transactions/TransactionForm.tsx:117-125 | the dialog writes an income under the category it was given, unlike the add and edit pages |
| AddTransaction.AddRecordExact | src/app/add-transaction/page.tsx:55-64 | a valid date is always written, as a new document owned by the user, with the entered values, the normalised category and `createdAt` |
| AddTransaction.NonPositiveAmountsPass | src/app/add-transaction/page.tsx:46-64 | an amount of 0 or below passes the page's guard and is written, though the dialog's schema refuses it |
| AddTransaction.AddTransactionPage.constructor | src/app/add-transaction/page.tsx:37-42 | the page starts as expense, empty amount, `food`, empty description, today, not submitting |
| AddTransaction.AddTransactionPage.HandleSubmit | src/app/add-transaction/page.tsx:44-76 | an incomplete form only raises the alert; otherwise the flag is up during the write and down afterwards, the write is `AddRecord` of the inputs, and the alert reports success or failure |
| EditTransaction.EditRecordExact | src/components/transactions/EditTransactionForm.tsx:48-56 | a valid date is always written, as an update of the given id, with neither `userId` nor `createdAt`, the entered values and the normalised category |
| EditTransaction.UntouchedEdit | src/components/transactions/EditTransactionForm.tsx:31-56 | saving untouched rewrites the transaction as it was, except that a non-expense filed under a category other than `other` moves to `other` |
| EditTransaction.EditTransactionForm.constructor | src/components/transactions/EditTransactionForm.tsx:31-36 | the inputs mirror the transaction's kind, amount, category, description and day |
| EditTransaction.EditTransactionForm.HandleSubmit | src/components/transactions/EditTransactionForm.tsx:38-66 | an incomplete form only raises the alert; otherwise the flag is up during the update of the edited id and down afterwards, whatever the outcome |
| Register.WithFieldExact | src/app/register/page.tsx:32-37 | setting a field changes that field and no other; setting it to its own value changes nothing; the later of two settings wins |
| Register.FormExtensional | src/app/register/page.tsx:23-28 | two forms with the same four fields are equal |
| Register.PasswordCheckExact | src/app/register/page.tsx:44-52 | a mismatch is reported whatever the length; a matching password is refused exactly when shorter than 6; the password checks pass exactly when both hold |
| Register.ErrorMessageExact | src/app/register/page.tsx:64-70 | the two known codes get their own messages; every other code gets the generic one |
| Register.SubmitErrorExact | src/app/register/page.tsx:41-70 | no error banner exactly when both checks pass and the sign-up succeeds; a failed check shows its message |
| Register.RegisterPage.constructor | src/app/register/page.tsx:23-30 | empty form, no error, not loading |
| Register.RegisterPage.HandleChange | src/app/register/page.tsx:32-37 | only the named field of the form changes |
| Register.RegisterPage.HandleSubmit | src/app/register/page.tsx:39-75 | the form is kept; the error ends as the failed check's message, the sign-up code's message, or empty; sign-up is called with (email, password, displayName) exactly when the password checks pass, with loading up during the call and down after it |

## Left out

- **Database and authentication:** queries, `addDoc`, `updateDoc`, sign-up and the current user are not called. A fetch is a list given as a parameter, a write is the record it would send, and a failing call's outcome or error code is a parameter.
- **Server timestamps:** `serverTimestamp()` is not modelled. `Records.Fields` says only whether `createdAt` is added; `updatedAt` is always set.
- **Time and time zones:** the clock is not read and time zones are not modelled, so today is a parameter, and every page's today is taken to be one and the same local calendar day. `toISOString()` is read as that local day, and its shift to UTC is not modelled. A stored date is the UTC midnight of its day, because `new Date('yyyy-MM-dd')` reads the day as UTC. The page bounds are local midnights. With these the dashboard query and the report window are exact for UTC offsets of 0 or more; west of UTC both bounds move one day later, and the first day of the month drops out of both. Three effects of the offset are outside the model. (1) East of UTC, the add page's initial date and the dialog's default date for a new entry (src/app/add-transaction/page.tsx:41, src/components/transactions/TransactionForm.tsx:103) are the UTC day of the current instant, which between local midnight and the hour of the offset is the previous local day, while the model sets both to `IsoDay(today)`; an untouched submission made in those hours is stored under the previous day, and on the 1st of a month under the previous month. (2) West of UTC, `format(new Date(t.date), ...)` and `isSameDay` (src/components/dashboard/FinancialCalendar.tsx:44-45, src/app/dashboard/page.tsx:164, src/app/transactions/page.tsx:247-248) read every stored date as the previous local day, so the calendar's day keys, the selected-day filter and the dates shown in the transactions table are one day early, while the model reads each transaction on its own day. (3) The model is therefore exact for every page only at offset 0.
- **Calendar "today" ring and date keys:** `isToday` is a parameter. Calendar keys are `Date` values rather than the `yyyy-MM-dd` strings `format` writes.
- **Number parsing:** `parseFloat` and fractional amounts are not modelled; amounts are whole `int`. A number field's value is `Blank` or `Entered(n)`, and `valueAsNumber`'s `NaN` is `None`.
- **`parseInt` whitespace:** leading blanks are not skipped, because keys written by `format` have none.
- **Display:** currency formatting, `toFixed`, the Vietnamese month names of `format(..., 'MMMM yyyy')`, chart geometry and all markup are not modelled.
- **String length:** it is counted in code points, not UTF-16 units. It only matters for the password length and the description check.
- **Dates before year 1:** they are not modelled, nor is the JavaScript `Date` range. The month key of the years 1 to 99 is modelled and shown to select 1901 to 1999.
- **Non-ISO date strings:** `new Date(s)` on anything but an exact `yyyy-MM-dd` string is treated as an invalid date.
- **Query order:** `orderBy('date', 'desc')` is not modelled. The dashboard and report statistics are proved independent of the list order, and the recent and daily lists keep the given order.
- **React state:** effect scheduling, the async race between fetches, loading spinners and the dialog's `loading`/`error` state are not modelled.
- **Navigation and alerts:** router pushes are not modelled; alerts are the strings shown.
- **Add and edit setters:** the input setters of the add page and the edit form are plain assignments of one field, so they are not modelled as methods.
- Folds.SortDesc: proves a permutation in descending key order. It does not state that equal keys keep their input order, though `Array.prototype.sort` is stable.
- Reports.PieChartData: the order of slices with equal values is not stated, for the same reason as Folds.SortDesc.
- Dashboard.BreakdownEntries: the order of categories with equal amounts is not stated, for the same reason as Folds.SortDesc.
- Dashboard.Breakdown: its rows follow the order of Dashboard.BreakdownEntries, so the order of rows with equal amounts is not stated either.
- **Unknown kinds and categories:** only the four kinds and the eight categories are modelled (`TransactionType`, `Category`). The app's own writers keep these values closed, through the form's enums, its fixed selects and the category normalisation. A stored document with any other `type` or `category` is not modelled; the pages read it with an unchecked cast. Such a document would add to no total on the dashboard, would add a ninth `NaN` bucket for an unknown expense category, and would give a pie slice named `undefined`.
- **`handleChange` ids:** on the sign-up page, `handleChange` takes one of the four input ids, the only inputs it is attached to. An unknown id, which would add a fifth key, is not modelled.

## Findings

| source | as written | input that shows it | evidently intended | confidence | as-written member | corrected member |
|---|---|---|---|---|---|---|
| src/app/dashboard/page.tsx:66-76 | the "current month" query has only a lower bound, the first day of the month | any transaction of the user dated in a later month, for instance 10 February 2024 on 15 January 2024, passes the query | only that month's transactions, up to its last day, as the reports page bounds its query | medium, not executed | Dashboard.DashboardQueryHasNoUpperBound | Dashboard.CurrentMonthQueryExact |
