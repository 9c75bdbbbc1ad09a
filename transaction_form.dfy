/**
  The create/edit dialog of src/components/transactions/TransactionForm.tsx: the schema every
  submission is checked against, the form's default values, and the record `onSubmit` builds and
  writes.
*/
module TransactionForm {
  import opened Wrappers
  import opened Dates
  import opened Text
  import opened Types
  import opened IsoDates
  import opened Records

  /**
    The raw form values. `kind` and `category` are the selected raw strings; `amount` is the
    number field read with `valueAsNumber`, `None` standing for the `NaN` of an empty field.
  */
  datatype FormData = FormData(kind: string, category: string, amount: Option<int>, description: string, date: string)

  /** What the schema can report about one field. */
  datatype Issue = InvalidKind | InvalidCategory | AmountNotNumber | AmountNotPositive | DescriptionEmpty

  /** The values once the schema accepts them. */
  datatype Accepted = Accepted(kind: TransactionType, category: Category, amount: int, description: string, date: string)

  /** Every complaint of `transactionSchema`, field by field (`date` is any string). */
  function Issues(f: FormData): seq<Issue> {
    (if ParseKind(f.kind).None? then [InvalidKind] else [])
    + (if ParseCategory(f.category).None? then [InvalidCategory] else [])
    + (match f.amount
       case None => [AmountNotNumber]
       case Some(a) => if a > 0 then [] else [AmountNotPositive])
    + (if |f.description| < 1 then [DescriptionEmpty] else [])
  }

  /** `zodResolver(transactionSchema)`: the accepted values, or all the complaints. */
  function Validate(f: FormData): Result<Accepted, seq<Issue>> {
    var issues := Issues(f);
    if issues != [] then Err(issues)
    else Ok(Accepted(ParseKind(f.kind).value, ParseCategory(f.category).value, f.amount.value, f.description, f.date))
  }

  /**
    The form is accepted exactly when the kind is one of the four, the category one of the eight,
    the amount a number greater than 0 and the description not empty; the accepted values are
    the entered ones. Otherwise each broken rule is reported, and only those.
  */
  lemma {:induction false} ValidateExact(f: FormData)
    ensures Validate(f).Ok? <==>
              ParseKind(f.kind).Some? && ParseCategory(f.category).Some?
              && f.amount.Some? && f.amount.value > 0 && |f.description| >= 1
    ensures Validate(f).Ok? ==>
              var v := Validate(f).value;
              KindName(v.kind) == f.kind && CategoryName(v.category) == f.category
              && v.amount == f.amount.value && v.description == f.description && v.date == f.date
    ensures Validate(f).Err? ==>
              (InvalidKind in Validate(f).error <==> ParseKind(f.kind).None?)
              && (InvalidCategory in Validate(f).error <==> ParseCategory(f.category).None?)
              && (AmountNotNumber in Validate(f).error <==> f.amount.None?)
              && (AmountNotPositive in Validate(f).error <==> f.amount.Some? && f.amount.value <= 0)
              && (DescriptionEmpty in Validate(f).error <==> |f.description| < 1)
  {
  }

  /**
    `defaultValues`: an edited transaction's own values, or expense, `other`, 0, an empty
    description and today.
  */
  function Defaults(existing: Option<Transaction>, today: Date): FormData
    requires existing.Some? ==> 0 <= existing.value.date.year && 0 <= existing.value.date.month && 0 <= existing.value.date.day
    requires 0 <= today.year && 0 <= today.month && 0 <= today.day
  {
    match existing
    case Some(t) => FormData(KindName(t.kind), CategoryName(t.category), Some(t.amount), t.description, IsoDay(t.date))
    case None => FormData("expense", "other", Some(0), "", IsoDay(today))
  }

  /**
    Editing starts from the transaction's kind, category, amount, description and date; the
    untouched form is accepted exactly when the stored amount is positive and the description
    not empty.
  */
  lemma {:induction false} EditDefaultsCopy(t: Transaction, today: Date)
    requires ValidDate(t.date) && 0 <= t.date.year <= 9999
    requires 0 <= today.year && 0 <= today.month && 0 <= today.day
    ensures var f := Defaults(Some(t), today);
            && ParseKind(f.kind) == Some(t.kind) && ParseCategory(f.category) == Some(t.category)
            && f.amount == Some(t.amount) && f.description == t.description
            && ParseIsoDay(f.date) == Some(t.date)
            && (Validate(f).Ok? <==> t.amount > 0 && |t.description| >= 1)
  {
    NamesRoundTrip(t.kind, t.category);
    IsoDayRoundTrip(t.date);
    ValidateExact(Defaults(Some(t), today));
  }

  /** An untouched new form is refused: its amount is 0 and its description empty. */
  lemma {:induction false} NewDefaultsRefused(today: Date)
    requires 0 <= today.year && 0 <= today.month && 0 <= today.day
    ensures Validate(Defaults(None, today)) == Err([AmountNotPositive, DescriptionEmpty])
  {
    NamesRoundTrip(Expense, Other);
    assert KindName(Expense) == "expense" && CategoryName(Other) == "other";
    var f := Defaults(None, today);
    assert f.kind == KindName(Expense) && f.category == CategoryName(Other);
    assert ParseKind(f.kind).Some? && ParseCategory(f.category).Some?;
    assert Issues(f) == [] + [] + [AmountNotPositive] + [DescriptionEmpty];
    assert Issues(f) == [AmountNotPositive, DescriptionEmpty];
  }

  /** How a submission ends. `SaveError` is the caught error of an invalid date. */
  datatype Outcome = Refused(issues: seq<Issue>) | NoUser | SaveError | Wrote(write: Write)

  /**
    `handleSubmit(onSubmit)`: the schema first; then nothing without a user; then the record,
    whose `new Date(data.date).toISOString()` throws on an invalid date; then an update of the
    edited transaction, or a create that also stamps `createdAt`.
  */
  function Submit(f: FormData, user: Option<User>, existing: Option<Transaction>): Outcome {
    match Validate(f)
    case Err(issues) => Refused(issues)
    case Ok(v) =>
      if user.None? then NoUser
      else
        match ParseIsoDay(v.date)
        case None => SaveError
        case Some(d) =>
          var fields := Fields(Some(user.value.id), v.kind, v.category, v.amount, v.description, d, existing.None?);
          match existing
          case Some(t) => Wrote(Update(t.id, fields))
          case None => Wrote(Create(fields))
  }

  /**
    Something is written only for an accepted form, a signed-in user and a valid date. The
    record carries the user's id and the entered values, the category as chosen whatever the
    kind; an edit updates the edited transaction's id without `createdAt`, a new entry is created
    with it.
  */
  lemma {:induction false} SubmitExact(f: FormData, user: Option<User>, existing: Option<Transaction>)
    ensures Submit(f, user, existing).Wrote? <==>
              Validate(f).Ok? && user.Some? && ParseIsoDay(f.date).Some?
    ensures Submit(f, user, existing).Wrote? ==>
              var w := Submit(f, user, existing).write;
              var v := Validate(f).value;
              && w.fields == Fields(Some(user.value.id), v.kind, v.category, v.amount, v.description,
                                    ParseIsoDay(f.date).value, existing.None?)
              && (existing.Some? ==> w == Update(existing.value.id, w.fields))
              && (existing.None? ==> w.Create?)
    ensures user.None? ==> !Submit(f, user, existing).Wrote?
  {
    ValidateExact(f);
  }

  /** Unlike the add and edit pages, the dialog writes an income under the category it was given. */
  lemma {:induction false} IncomeKeepsItsCategory(user: User)
    ensures Submit(FormData("income", "food", Some(100), "lunch", "2024-05-01"), Some(user), None)
            == Wrote(Create(Fields(Some(user.id), Income, Food, 100, "lunch", Date(2024, 5, 1), true)))
  {
    var f := FormData("income", "food", Some(100), "lunch", "2024-05-01");
    assert Validate(f) == Ok(Accepted(Income, Food, 100, "lunch", "2024-05-01"));
    assert IsoDay(Date(2024, 5, 1)) == "2024-05-01" by {
      assert Padded(2024, 4) == "2024";
      assert Padded(5, 2) == "05";
      assert Padded(1, 2) == "01";
    }
    IsoDayRoundTrip(Date(2024, 5, 1));
  }
}
