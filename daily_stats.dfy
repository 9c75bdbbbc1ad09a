/**
  The selected day's card (src/components/dashboard/DailyStats.tsx): the day's income and
  expense totals, its balance and the list of its transactions, or an empty message.
*/
module DailyStats {
  import opened Wrappers
  import opened Dates
  import opened Types
  import opened Folds
  import opened Assoc
  import opened Ledger
  import opened Calendar
  import opened TransactionsPage

  /** `dailyIncome`. */
  function DailyIncome(ts: seq<Transaction>): int {
    SumOf(Filter(ts, KindIs(Income)), AmountOf)
  }

  /** `dailyExpense`. */
  function DailyExpense(ts: seq<Transaction>): int {
    SumOf(Filter(ts, KindIs(Expense)), AmountOf)
  }

  /** What the card shows: the empty message, or the three totals. */
  datatype DailyView = NoTransactions | Totals(income: int, expense: int, balance: int)

  function DailyViewOf(ts: seq<Transaction>): DailyView {
    if |ts| == 0 then NoTransactions
    else Totals(DailyIncome(ts), DailyExpense(ts), DailyIncome(ts) - DailyExpense(ts))
  }

  /**
    For the transactions of one day, the card shows the empty message exactly when the calendar
    has no entry for that day, and otherwise the calendar entry's income, expense and balance.
  */
  lemma {:induction false} DailyViewAgreesWithCalendar(ts: seq<Transaction>, d: Date)
    ensures DailyViewOf(OnDay(ts, d))
            == match Lookup(DailyTable(ts), d)
               case None => NoTransactions
               case Some(s) => Totals(s.income, s.expense, s.balance)
  {
    var day := OnDay(ts, d);
    DailyLookup(ts, d);
    DayFoldTotals(day);
    KindTotalIsFilterSum(day, Income);
    KindTotalIsFilterSum(day, Expense);
    FilterElements(ts, DateIs(d));
    if HasDay(ts, d) {
      var i :| 0 <= i < |ts| && ts[i].date == d;
      assert ts[i] in day;
    }
  }

  /** The balance leaves savings and debts out: adding one to a non-empty day changes no total. */
  lemma {:induction false} SavingAndDebtLeaveTotals(ts: seq<Transaction>, t: Transaction)
    requires |ts| > 0 && (t.kind == Saving || t.kind == Debt)
    ensures DailyViewOf(ts + [t]) == DailyViewOf(ts)
  {
    FilterSnoc(ts, t, KindIs(Income));
    FilterSnoc(ts, t, KindIs(Expense));
  }

  /** One line of the card's list. */
  datatype DetailRow = DetailRow(description: string, categoryLabel: string, sign: string, amount: int)

  function DetailRows(ts: seq<Transaction>): (rows: seq<DetailRow>)
    ensures |rows| == |ts|
  {
    seq(|ts|, i requires 0 <= i < |ts|
      => DetailRow(ts[i].description, CategoryLabel(ts[i].category), AmountSign(ts[i].kind), ts[i].amount))
  }

  /**
    The list shows every transaction in order with its description, its category's label and
    its amount; the sign is `'+'` exactly for an income.
  */
  lemma {:induction false} DetailRowsExact(ts: seq<Transaction>, i: int)
    requires 0 <= i < |ts|
    ensures DetailRows(ts)[i].description == ts[i].description
    ensures FindByLabel(AllCategories, DetailRows(ts)[i].categoryLabel) == Some(ts[i].category)
    ensures DetailRows(ts)[i].sign == "+" <==> ts[i].kind == Income
    ensures DetailRows(ts)[i].amount == ts[i].amount
  {
    FindByLabelRecovers(ts[i].category);
    AmountSignExact(ts[i].kind);
  }
}
