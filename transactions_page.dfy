/**
  The transactions page (src/app/transactions/page.tsx): the list restricted by the type filter,
  the badge class of a kind and the sign shown before an amount.
*/
module TransactionsPage {
  import opened Wrappers
  import opened Types
  import opened Folds
  import opened Ledger

  /** `filterType`: `'all'` or one kind. */
  datatype TypeFilter = All | OnlyKind(kind: TransactionType)

  /** The effect that sets `filteredTransactions`. */
  function FilterByType(ts: seq<Transaction>, f: TypeFilter): seq<Transaction> {
    match f
    case All => ts
    case OnlyKind(k) => Filter(ts, KindIs(k))
  }

  /**
    `'all'` shows the whole list; a kind shows each transaction of that kind as often as it
    occurs and nothing else. Both keep the list's order: filtering a concatenation concatenates
    the filtered parts.
  */
  lemma {:induction false} FilterByTypeExact(ts: seq<Transaction>, f: TypeFilter, t: Transaction)
    ensures f.All? ==> FilterByType(ts, f) == ts
    ensures multiset(FilterByType(ts, f))[t]
            == if f.All? || t.kind == f.kind then multiset(ts)[t] else 0
  {
    if f.OnlyKind? {
      FilterMultiset(ts, KindIs(f.kind), t);
    }
  }

  /** The filter keeps the list's order. */
  lemma {:induction false} FilterByTypeKeepsOrder(a: seq<Transaction>, b: seq<Transaction>, f: TypeFilter)
    ensures FilterByType(a + b, f) == FilterByType(a, f) + FilterByType(b, f)
  {
    if f.OnlyKind? {
      FilterAppend(a, b, KindIs(f.kind));
    }
  }

  /** Choosing the same filter again on the filtered list changes nothing. */
  lemma {:induction false} FilterByTypeIdempotent(ts: seq<Transaction>, f: TypeFilter)
    ensures FilterByType(FilterByType(ts, f), f) == FilterByType(ts, f)
  {
    if f.OnlyKind? {
      FilterIdempotent(ts, KindIs(f.kind));
    }
  }

  /** The four kind filters split the list: their lengths add up to its length. */
  lemma {:induction false} KindFiltersPartition(ts: seq<Transaction>)
    ensures |FilterByType(ts, OnlyKind(Income))| + |FilterByType(ts, OnlyKind(Expense))|
            + |FilterByType(ts, OnlyKind(Saving))| + |FilterByType(ts, OnlyKind(Debt))| == |ts|
  {
    if ts != [] {
      var init := ts[..|ts| - 1];
      var t := ts[|ts| - 1];
      KindFiltersPartition(init);
      KindFilterSnocLength(init, t, Income);
      KindFilterSnocLength(init, t, Expense);
      KindFilterSnocLength(init, t, Saving);
      KindFilterSnocLength(init, t, Debt);
      assert ts == init + [t];
    }
  }

  /** One more transaction lengthens the filter of its own kind by one and no other. */
  lemma {:induction false} KindFilterSnocLength(ts: seq<Transaction>, t: Transaction, k: TransactionType)
    ensures |FilterByType(ts + [t], OnlyKind(k))| == |FilterByType(ts, OnlyKind(k))| + (if t.kind == k then 1 else 0)
  {
    FilterSnoc(ts, t, KindIs(k));
  }

  /** The table shows its empty message (`filteredTransactions.length === 0`). */
  predicate ShowsEmptyState(filtered: seq<Transaction>) {
    |filtered| == 0
  }

  /** A kind filter shows the empty message exactly when the list has no transaction of that kind. */
  lemma {:induction false} EmptyStateExact(ts: seq<Transaction>, f: TypeFilter)
    ensures ShowsEmptyState(FilterByType(ts, f))
            <==> forall i :: 0 <= i < |ts| ==> !(f.All? || ts[i].kind == f.kind)
  {
    var r := FilterByType(ts, f);
    if |r| > 0 {
      if f.OnlyKind? {
        FilterElements(ts, KindIs(f.kind));
      }
      assert r[0] in ts;
      var i :| 0 <= i < |ts| && ts[i] == r[0];
      assert f.All? || ts[i].kind == f.kind;
    } else if f.OnlyKind? {
      FilterElements(ts, KindIs(f.kind));
      assert forall i :: 0 <= i < |ts| ==> ts[i].kind != f.kind;
    }
  }

  const IncomeBadge := "bg-green-100 text-green-700"
  const ExpenseBadge := "bg-red-100 text-red-700"
  const SavingBadge := "bg-purple-100 text-purple-700"
  const DebtBadge := "bg-orange-100 text-orange-700"
  const DefaultBadge := "bg-gray-100 text-gray-700"

  /** `getTypeColor`, on the raw value stored with the transaction. */
  function TypeColor(raw: string): string {
    match ParseKind(raw)
    case Some(Income) => IncomeBadge
    case Some(Expense) => ExpenseBadge
    case Some(Saving) => SavingBadge
    case Some(Debt) => DebtBadge
    case None => DefaultBadge
  }

  /**
    The four kinds get four different classes, none of them the gray default; every other raw
    value gets the default.
  */
  lemma {:induction false} TypeColorsExact(a: TransactionType, b: TransactionType, raw: string)
    ensures TypeColor(KindName(a)) == TypeColor(KindName(b)) ==> a == b
    ensures TypeColor(KindName(a)) != DefaultBadge
    ensures TypeColor(raw) == DefaultBadge <==> ParseKind(raw).None?
  {
    NamesRoundTrip(a, Food);
    NamesRoundTrip(b, Food);
  }

  /** The sign written before an amount: `'+'` for an income, `'-'` for every other kind. */
  function AmountSign(k: TransactionType): string {
    if k == Income then "+" else "-"
  }

  lemma {:induction false} AmountSignExact(k: TransactionType)
    ensures AmountSign(k) == "+" <==> k == Income
    ensures AmountSign(k) == "-" <==> k != Income
  {
  }
}
