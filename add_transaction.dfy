/**
  The add-transaction page (src/app/add-transaction/page.tsx): its initial state, the guard of
  `handleSubmit`, the record it creates and the `isSubmitting` flag around the write.
*/
module AddTransaction {
  import opened Wrappers
  import opened Dates
  import opened Types
  import opened IsoDates
  import opened Records
  import TransactionForm

  const AddedAlert := "Thêm giao dịch thành công!"

  /** `!user || !amount || !description` is false: the page goes on to write. */
  predicate PassesGuard(user: Option<User>, amount: AmountField, description: string) {
    user.Some? && Filled(amount, description)
  }

  /**
    The document `addDoc` is given, or `None` when `new Date(date).toISOString()` throws on an
    invalid date before the call.
  */
  function AddRecord(user: User, kind: TransactionType, amount: int, category: Category, description: string, date: string): Option<Write> {
    match ParseIsoDay(date)
    case None => None
    case Some(d) => Some(Create(Fields(Some(user.id), kind, NormaliseCategory(kind, category), amount, description, d, true)))
  }

  /**
    A valid date is always written, as a new document owned by the user, with the entered kind,
    amount, description and date, the category kept for an expense and `other` for every other
    kind, and the creation time stamped.
  */
  lemma {:induction false} AddRecordExact(user: User, kind: TransactionType, amount: int, category: Category, description: string, date: string)
    ensures AddRecord(user, kind, amount, category, description, date).Some? <==> ParseIsoDay(date).Some?
    ensures AddRecord(user, kind, amount, category, description, date).Some? ==>
              var w := AddRecord(user, kind, amount, category, description, date).value;
              && w.Create? && w.fields.userId == Some(user.id) && w.fields.createdAt
              && w.fields.kind == kind && w.fields.amount == amount && w.fields.description == description
              && w.fields.date == ParseIsoDay(date).value
              && (kind == Expense ==> w.fields.category == category)
              && (kind != Expense ==> w.fields.category == Other)
  {
    NormaliseCategoryExact(kind, category);
  }

  /**
    The guard asks only for a user and two non-empty strings: an amount of 0 or below is
    written, while the transaction dialog's schema refuses it.
  */
  lemma {:induction false} NonPositiveAmountsPass(user: User, kind: TransactionType, amount: int, category: Category, description: string, date: string)
    requires amount <= 0 && |description| > 0 && ParseIsoDay(date).Some?
    ensures PassesGuard(Some(user), Entered(amount), description)
    ensures AddRecord(user, kind, amount, category, description, date).Some?
    ensures TransactionForm.Validate(TransactionForm.FormData(KindName(kind), CategoryName(category), Some(amount), description, date)).Err?
  {
    TransactionForm.ValidateExact(TransactionForm.FormData(KindName(kind), CategoryName(category), Some(amount), description, date));
  }

  /** The page's state: the five inputs and the submitting flag. */
  class AddTransactionPage {
    var kind: TransactionType
    var amount: AmountField
    var category: Category
    var description: string
    var date: string
    var isSubmitting: bool

    /** Expense, no amount, `food`, no description, today, not submitting. */
    constructor(today: Date)
      requires 0 <= today.year && 0 <= today.month && 0 <= today.day
      ensures kind == Expense && amount == Blank && category == Food && description == ""
      ensures date == IsoDay(today) && !isSubmitting
    {
      kind := Expense;
      amount := Blank;
      category := Food;
      description := "";
      date := IsoDay(today);
      isSubmitting := false;
    }

    /**
      `handleSubmit`, with the outcome of `addDoc` given as `writeOk`. An incomplete form only
      raises the alert. Otherwise the flag is up while the record is written and down afterwards,
      whether the write succeeds or fails; the inputs are left as they were.
    */
    method HandleSubmit(user: Option<User>, writeOk: bool) returns (write: Option<Write>, submittingDuringWrite: bool, alert: string)
      modifies this
      ensures kind == old(kind) && amount == old(amount) && category == old(category)
      ensures description == old(description) && date == old(date)
      ensures !PassesGuard(user, amount, description) ==>
                write.None? && alert == IncompleteAlert && isSubmitting == old(isSubmitting)
      ensures PassesGuard(user, amount, description) ==>
                && write == AddRecord(user.value, kind, amount.value, category, description, date)
                && submittingDuringWrite && !isSubmitting
                && alert == (if write.Some? && writeOk then AddedAlert else FailureAlert)
    {
      write := None;
      submittingDuringWrite := false;
      if !PassesGuard(user, amount, description) {
        alert := IncompleteAlert;
        return;
      }
      isSubmitting := true;
      write := AddRecord(user.value, kind, amount.value, category, description, date);
      submittingDuringWrite := isSubmitting;
      if write.Some? && writeOk {
        alert := AddedAlert;
      } else {
        alert := FailureAlert;
      }
      isSubmitting := false;
    }
  }
}
