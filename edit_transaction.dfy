/**
  The inline edit form (src/components/transactions/EditTransactionForm.tsx): it starts from the
  edited transaction, checks that amount and description are filled in and updates that
  transaction's document.
*/
module EditTransaction {
  import opened Wrappers
  import opened Dates
  import opened Types
  import opened IsoDates
  import opened Records

  const UpdatedAlert := "Cập nhật giao dịch thành công!"

  /**
    The update `updateDoc` is given for the document `id`, or `None` when the date does not
    convert. It sets neither `userId` nor `createdAt`.
  */
  function EditRecord(id: string, kind: TransactionType, amount: int, category: Category, description: string, date: string): Option<Write> {
    match ParseIsoDay(date)
    case None => None
    case Some(d) => Some(Update(id, Fields(None, kind, NormaliseCategory(kind, category), amount, description, d, false)))
  }

  /**
    A valid date is always written, as an update of the given document that leaves its owner and
    creation time alone, with the entered kind, amount, description and date and the category
    kept for an expense, `other` for every other kind.
  */
  lemma {:induction false} EditRecordExact(id: string, kind: TransactionType, amount: int, category: Category, description: string, date: string)
    ensures EditRecord(id, kind, amount, category, description, date).Some? <==> ParseIsoDay(date).Some?
    ensures EditRecord(id, kind, amount, category, description, date).Some? ==>
              var w := EditRecord(id, kind, amount, category, description, date).value;
              && w.Update? && w.id == id && w.fields.userId.None? && !w.fields.createdAt
              && w.fields.kind == kind && w.fields.amount == amount && w.fields.description == description
              && w.fields.date == ParseIsoDay(date).value
              && (kind == Expense ==> w.fields.category == category)
              && (kind != Expense ==> w.fields.category == Other)
  {
    NormaliseCategoryExact(kind, category);
  }

  /**
    Saving the form untouched rewrites the transaction as it was, except that a transaction of
    another kind than expense that was filed under a category other than `other` is moved to
    `other`.
  */
  lemma {:induction false} UntouchedEdit(t: Transaction)
    requires ValidDate(t.date) && 0 <= t.date.year <= 9999
    ensures EditRecord(t.id, t.kind, t.amount, t.category, t.description, IsoDay(t.date))
            == Some(Update(t.id, Fields(None, t.kind, NormaliseCategory(t.kind, t.category), t.amount, t.description, t.date, false)))
    ensures NormaliseCategory(t.kind, t.category) == t.category <==> t.kind == Expense || t.category == Other
  {
    IsoDayRoundTrip(t.date);
  }

  /** The form's state: the transaction being edited, the five inputs and the submitting flag. */
  class EditTransactionForm {
    const transaction: Transaction
    var kind: TransactionType
    var amount: AmountField
    var category: Category
    var description: string
    var date: string
    var isSubmitting: bool

    /** The inputs start from the transaction's own kind, amount, category, description and day. */
    constructor(t: Transaction)
      requires 0 <= t.date.year && 0 <= t.date.month && 0 <= t.date.day
      ensures transaction == t
      ensures kind == t.kind && amount == Entered(t.amount) && category == t.category
      ensures description == t.description && date == IsoDay(t.date) && !isSubmitting
    {
      transaction := t;
      kind := t.kind;
      amount := Entered(t.amount);
      category := t.category;
      description := t.description;
      date := IsoDay(t.date);
      isSubmitting := false;
    }

    /**
      `handleSubmit`, with the outcome of `updateDoc` given as `writeOk`. An incomplete form only
      raises the alert; otherwise the flag is up while the edited transaction's document is
      updated and down afterwards, whether the write succeeds or fails.
    */
    method HandleSubmit(writeOk: bool) returns (write: Option<Write>, submittingDuringWrite: bool, alert: string)
      modifies this
      ensures kind == old(kind) && amount == old(amount) && category == old(category)
      ensures description == old(description) && date == old(date)
      ensures !Filled(amount, description) ==>
                write.None? && alert == IncompleteAlert && isSubmitting == old(isSubmitting)
      ensures Filled(amount, description) ==>
                && write == EditRecord(transaction.id, kind, amount.value, category, description, date)
                && submittingDuringWrite && !isSubmitting
                && alert == (if write.Some? && writeOk then UpdatedAlert else FailureAlert)
    {
      write := None;
      submittingDuringWrite := false;
      if !Filled(amount, description) {
        alert := IncompleteAlert;
        return;
      }
      isSubmitting := true;
      write := EditRecord(transaction.id, kind, amount.value, category, description, date);
      submittingDuringWrite := isSubmitting;
      if write.Some? && writeOk {
        alert := UpdatedAlert;
      } else {
        alert := FailureAlert;
      }
      isSubmitting := false;
    }
  }
}
