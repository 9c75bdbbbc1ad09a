/**
  What the three write paths send to the document database, and the two rules the add and edit
  pages share: the category is kept only for an expense, and the expense category choices leave
  out `salary`. The database call itself is not modelled; a write is the record it would send.
*/
module Records {
  import opened Wrappers
  import opened Dates
  import opened Types
  import opened Folds

  /**
    The fields of a written transaction. `userId` is `None` when the write does not set it;
    `createdAt` says whether the write adds the creation timestamp. Every write also sets
    `updatedAt` to the server time.
  */
  datatype Fields = Fields(
    userId: Option<string>,
    kind: TransactionType,
    category: Category,
    amount: int,
    description: string,
    date: Date,
    createdAt: bool)

  /** `addDoc` of a new document, or `updateDoc` of the document with the given id. */
  datatype Write = Create(fields: Fields) | Update(id: string, fields: Fields)

  /** The value of an `<input type="number">`: empty, or a number. */
  datatype AmountField = Blank | Entered(value: int)

  /** The alert of an incomplete add or edit form. */
  const IncompleteAlert := "Vui lòng điền đầy đủ thông tin."
  /** The alert of a failed add or edit. */
  const FailureAlert := "Có lỗi xảy ra, vui lòng thử lại."

  /** `amount && description`: both strings are non-empty (an amount of 0 is the non-empty `'0'`). */
  predicate Filled(amount: AmountField, description: string) {
    amount.Entered? && |description| > 0
  }

  /** `type === 'expense' ? category : 'other'`. */
  function NormaliseCategory(k: TransactionType, c: Category): Category {
    if k == Expense then c else Other
  }

  /** An expense keeps its chosen category; every other kind is filed under `other`. */
  lemma {:induction false} NormaliseCategoryExact(k: TransactionType, c: Category)
    ensures k == Expense ==> NormaliseCategory(k, c) == c
    ensures k != Expense ==> NormaliseCategory(k, c) == Other
    ensures NormaliseCategory(k, NormaliseCategory(k, c)) == NormaliseCategory(k, c)
  {
  }

  function NotSalary(c: Category): bool {
    c != Salary
  }

  /** `Object.entries(CATEGORY_LABELS).filter(([key]) => key !== 'salary')`. */
  function ExpenseCategoryOptions(): seq<Category> {
    Filter(AllCategories, NotSalary)
  }

  /** The expense choices are the seven categories other than `salary`, each once, in key order. */
  lemma {:induction false} ExpenseCategoryOptionsExact(c: Category)
    ensures ExpenseCategoryOptions() == [Food, Shopping, Transport, Education, Health, DebtPayment, Other]
    ensures c in ExpenseCategoryOptions() <==> c != Salary
  {
    var s := AllCategories;
    assert s[..7] == [Food, Shopping, Transport, Education, Health, DebtPayment, Salary];
    assert s == s[..7] + [Other];
    FilterSnoc(s[..7], Other, NotSalary);
    assert s[..7] == s[..6] + [Salary];
    FilterSnoc(s[..6], Salary, NotSalary);
    FilterKeepsAll(s[..6], NotSalary);
  }
}
