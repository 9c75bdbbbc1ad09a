/**
  The totals every page computes with `filter(t => t.type === k).reduce((s, t) => s + t.amount, 0)`:
  the amount of one kind, and the amount of expenses in one category. They are the reference
  definitions the stateful folds of the dashboard and the calendar are proved against.
*/
module Ledger {
  import opened Wrappers
  import opened Dates
  import opened Types
  import opened Folds

  function AmountOf(t: Transaction): int {
    t.amount
  }

  function KindIs(k: TransactionType): Transaction -> bool {
    (t: Transaction) => t.kind == k
  }

  function ExpenseIn(c: Category): Transaction -> bool {
    (t: Transaction) => t.kind == Expense && t.category == c
  }

  function DateIs(d: Date): Transaction -> bool {
    (t: Transaction) => t.date == d
  }

  /** The transactions dated on day `d`, in their order (`isSameDay(new Date(t.date), d)`). */
  function OnDay(ts: seq<Transaction>, d: Date): seq<Transaction> {
    Filter(ts, DateIs(d))
  }

  /** The contribution of one transaction to the total of kind `k`. */
  function KindShare(t: Transaction, k: TransactionType): int {
    if t.kind == k then t.amount else 0
  }

  /** The contribution of one transaction to the expense total of category `c`. */
  function CategoryShare(t: Transaction, c: Category): int {
    if t.kind == Expense && t.category == c then t.amount else 0
  }

  /** Sum of the amounts of the transactions of kind `k`, visited in list order. */
  function KindTotal(ts: seq<Transaction>, k: TransactionType): int {
    if ts == [] then 0 else KindTotal(ts[..|ts| - 1], k) + KindShare(ts[|ts| - 1], k)
  }

  /** Sum of the amounts of the expenses in category `c`, visited in list order. */
  function CategoryTotal(ts: seq<Transaction>, c: Category): int {
    if ts == [] then 0 else CategoryTotal(ts[..|ts| - 1], c) + CategoryShare(ts[|ts| - 1], c)
  }

  /** One more transaction adds its amount to its own kind's total and to no other. */
  lemma {:induction false} KindTotalSnoc(ts: seq<Transaction>, t: Transaction, k: TransactionType)
    ensures KindTotal(ts + [t], k) == KindTotal(ts, k) + (if t.kind == k then t.amount else 0)
  {
    assert (ts + [t])[..|ts|] == ts;
  }

  /** One more expense adds its amount to its own category's total; nothing else changes one. */
  lemma {:induction false} CategoryTotalSnoc(ts: seq<Transaction>, t: Transaction, c: Category)
    ensures CategoryTotal(ts + [t], c)
            == CategoryTotal(ts, c) + (if t.kind == Expense && t.category == c then t.amount else 0)
  {
    assert (ts + [t])[..|ts|] == ts;
  }

  /** The kind total is `ts.filter(t => t.type === k).reduce((sum, t) => sum + t.amount, 0)`. */
  lemma {:induction false} KindTotalIsFilterSum(ts: seq<Transaction>, k: TransactionType)
    ensures KindTotal(ts, k) == SumOf(Filter(ts, KindIs(k)), AmountOf)
  {
    if ts != [] {
      var init := ts[..|ts| - 1];
      var t := ts[|ts| - 1];
      KindTotalIsFilterSum(init, k);
      if t.kind == k {
        SumSnoc(Filter(init, KindIs(k)), t, AmountOf);
      }
    }
  }

  /** The category total is the sum over the expenses of that category. */
  lemma {:induction false} CategoryTotalIsFilterSum(ts: seq<Transaction>, c: Category)
    ensures CategoryTotal(ts, c) == SumOf(Filter(ts, ExpenseIn(c)), AmountOf)
  {
    if ts != [] {
      var init := ts[..|ts| - 1];
      var t := ts[|ts| - 1];
      CategoryTotalIsFilterSum(init, c);
      var kept := Filter(init, ExpenseIn(c));
      if ExpenseIn(c)(t) {
        assert Filter(ts, ExpenseIn(c)) == kept + [t];
        SumSnoc(kept, t, AmountOf);
      } else {
        assert Filter(ts, ExpenseIn(c)) == kept;
      }
    }
  }

  /** `expenseByCategory`: the expense total of every category. */
  function Buckets(ts: seq<Transaction>): CategoryAmounts {
    CategoryAmounts(
      CategoryTotal(ts, Food), CategoryTotal(ts, Shopping), CategoryTotal(ts, Transport),
      CategoryTotal(ts, Education), CategoryTotal(ts, Health), CategoryTotal(ts, DebtPayment),
      CategoryTotal(ts, Salary), CategoryTotal(ts, Other))
  }

  lemma {:induction false} BucketOf(ts: seq<Transaction>, c: Category)
    ensures Amount(Buckets(ts), c) == CategoryTotal(ts, c)
  {
  }

  /** One more transaction adds its amount to its own category's bucket when it is an expense. */
  lemma {:induction false} BucketsSnoc(ts: seq<Transaction>, t: Transaction)
    ensures Buckets(ts + [t])
            == if t.kind == Expense
               then WithAmount(Buckets(ts), t.category, Amount(Buckets(ts), t.category) + t.amount)
               else Buckets(ts)
  {
    var m := Buckets(ts);
    var m' := if t.kind == Expense then WithAmount(m, t.category, Amount(m, t.category) + t.amount) else m;
    forall c: Category ensures Amount(m', c) == Amount(Buckets(ts + [t]), c) {
      CategoryTotalSnoc(ts, t, c);
      BucketOf(ts, c);
      BucketOf(ts + [t], c);
    }
    AmountsExtensional(m', Buckets(ts + [t]));
  }

  /** The buckets do not depend on the order of the transactions. */
  lemma {:induction false} BucketsPermutation(a: seq<Transaction>, b: seq<Transaction>)
    requires multiset(a) == multiset(b)
    ensures Buckets(a) == Buckets(b)
  {
    forall c: Category ensures Amount(Buckets(a), c) == Amount(Buckets(b), c) {
      TotalsPermutation(a, b, Expense, c);
      BucketOf(a, c);
      BucketOf(b, c);
    }
    AmountsExtensional(Buckets(a), Buckets(b));
  }

  /** Totals of a concatenation are the sums of the totals of its parts (shards merge by adding). */
  lemma {:induction false} TotalsAppend(a: seq<Transaction>, b: seq<Transaction>, k: TransactionType, c: Category)
    ensures KindTotal(a + b, k) == KindTotal(a, k) + KindTotal(b, k)
    ensures CategoryTotal(a + b, c) == CategoryTotal(a, c) + CategoryTotal(b, c)
  {
    if b == [] {
      assert a + b == a;
    } else {
      var b' := b[..|b| - 1];
      var t := b[|b| - 1];
      assert b == b' + [t];
      assert a + b == (a + b') + [t];
      TotalsAppend(a, b', k, c);
      KindTotalSnoc(a + b', t, k);
      CategoryTotalSnoc(a + b', t, c);
      KindTotalSnoc(b', t, k);
      CategoryTotalSnoc(b', t, c);
    }
  }

  /** Totals do not depend on the order of the transactions. */
  lemma {:induction false} TotalsPermutation(a: seq<Transaction>, b: seq<Transaction>, k: TransactionType, c: Category)
    requires multiset(a) == multiset(b)
    ensures KindTotal(a, k) == KindTotal(b, k)
    ensures CategoryTotal(a, c) == CategoryTotal(b, c)
  {
    KindTotalIsFilterSum(a, k);
    KindTotalIsFilterSum(b, k);
    FilterPermutation(a, b, KindIs(k));
    SumPermutation(Filter(a, KindIs(k)), Filter(b, KindIs(k)), AmountOf);
    CategoryTotalIsFilterSum(a, c);
    CategoryTotalIsFilterSum(b, c);
    FilterPermutation(a, b, ExpenseIn(c));
    SumPermutation(Filter(a, ExpenseIn(c)), Filter(b, ExpenseIn(c)), AmountOf);
  }

  /** The eight category totals, summed. */
  function SumOverCategories(ts: seq<Transaction>): int {
    CategoryTotal(ts, Food) + CategoryTotal(ts, Shopping) + CategoryTotal(ts, Transport)
    + CategoryTotal(ts, Education) + CategoryTotal(ts, Health) + CategoryTotal(ts, DebtPayment)
    + CategoryTotal(ts, Salary) + CategoryTotal(ts, Other)
  }

  /** The category totals partition the expense total. */
  lemma {:induction false} CategoriesSumToExpense(ts: seq<Transaction>)
    ensures SumOverCategories(ts) == KindTotal(ts, Expense)
  {
    if ts != [] {
      var init := ts[..|ts| - 1];
      var t := ts[|ts| - 1];
      assert ts == init + [t];
      CategoriesSumToExpense(init);
      KindTotalSnoc(init, t, Expense);
      CategoryTotalSnoc(init, t, Food);
      CategoryTotalSnoc(init, t, Shopping);
      CategoryTotalSnoc(init, t, Transport);
      CategoryTotalSnoc(init, t, Education);
      CategoryTotalSnoc(init, t, Health);
      CategoryTotalSnoc(init, t, DebtPayment);
      CategoryTotalSnoc(init, t, Salary);
      CategoryTotalSnoc(init, t, Other);
    }
  }

  /** With no negative amount, no total is negative. */
  lemma {:induction false} TotalsNonNegative(ts: seq<Transaction>, k: TransactionType, c: Category)
    requires forall i :: 0 <= i < |ts| ==> ts[i].amount >= 0
    ensures KindTotal(ts, k) >= 0 && CategoryTotal(ts, c) >= 0
  {
    if ts != [] {
      var init := ts[..|ts| - 1];
      assert ts == init + [ts[|ts| - 1]];
      TotalsNonNegative(init, k, c);
      KindTotalSnoc(init, ts[|ts| - 1], k);
      CategoryTotalSnoc(init, ts[|ts| - 1], c);
    }
  }

  /** The amount of an `Object.entries` pair of a category record. */
  function EntryAmount(e: (Category, int)): int {
    e.1
  }

  /** `(amount / total) * 100`; dividing by a zero total gives no finite number. */
  function Percentage(amount: int, total: int): (p: Option<real>)
    ensures total != 0 <==> p.Some?
    ensures 0 <= amount <= total ==> p.Some? ==> 0.0 <= p.value <= 100.0
  {
    if total == 0 then None
    else
      var q := amount as real / total as real;
      assert 0 <= amount <= total ==> 0.0 <= q <= 1.0 by {
        if 0 <= amount <= total {
          assert total as real > 0.0;
          assert q * total as real == amount as real;
        }
      }
      Some(q * 100.0)
  }
}
