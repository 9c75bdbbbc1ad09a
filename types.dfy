/**
  The domain vocabulary of src/types/index.ts: the four transaction kinds, the eight categories,
  the transaction record, the monthly statistics record and the three lookup tables (labels in
  Vietnamese, chart colours). Each enumeration also has its raw string form, because several
  pages switch on the raw value stored in the document database.
*/
module Types {
  import opened Wrappers
  import opened Dates
  import opened Folds

  /** `TransactionType`. */
  datatype TransactionType = Income | Expense | Saving | Debt

  /** `Category`; the category `'debt'` is called `DebtPayment` here (its label is "Trả nợ"). */
  datatype Category = Food | Shopping | Transport | Education | Health | DebtPayment | Salary | Other

  /** The keys of `TRANSACTION_TYPE_LABELS`, in declaration order. */
  const AllKinds: seq<TransactionType> := [Income, Expense, Saving, Debt]

  /** The keys of `CATEGORY_LABELS` (and of `CATEGORY_COLORS`), in declaration order. */
  const AllCategories: seq<Category> :=
    [Food, Shopping, Transport, Education, Health, DebtPayment, Salary, Other]

  /** A stored transaction. `createdAt` and `updatedAt` are server timestamps and are left out. */
  datatype Transaction = Transaction(
    id: string,
    userId: string,
    kind: TransactionType,
    category: Category,
    amount: int,
    description: string,
    date: Date)

  /** The signed-in user, as far as the core uses it. */
  datatype User = User(id: string)

  /**
    A `Record<Category, number>`: exactly one number per category. The fields follow the key
    order of the object literals the pages build, which is the order `Object.entries` visits.
  */
  datatype CategoryAmounts = CategoryAmounts(
    food: int, shopping: int, transport: int, education: int,
    health: int, debt: int, salary: int, other: int)

  /** `record[c]`. */
  function Amount(r: CategoryAmounts, c: Category): int {
    match c
    case Food => r.food
    case Shopping => r.shopping
    case Transport => r.transport
    case Education => r.education
    case Health => r.health
    case DebtPayment => r.debt
    case Salary => r.salary
    case Other => r.other
  }

  /** `record[c] = v`: only the entry of `c` changes. */
  function WithAmount(r: CategoryAmounts, c: Category, v: int): (r': CategoryAmounts)
    ensures Amount(r', c) == v
    ensures forall d: Category :: d != c ==> Amount(r', d) == Amount(r, d)
  {
    match c
    case Food => r.(food := v)
    case Shopping => r.(shopping := v)
    case Transport => r.(transport := v)
    case Education => r.(education := v)
    case Health => r.(health := v)
    case DebtPayment => r.(debt := v)
    case Salary => r.(salary := v)
    case Other => r.(other := v)
  }

  /** The record with every entry `0`. */
  const NoAmounts: CategoryAmounts := CategoryAmounts(0, 0, 0, 0, 0, 0, 0, 0)

  /** Two records are equal when they agree on every category. */
  lemma {:induction false} AmountsExtensional(r: CategoryAmounts, s: CategoryAmounts)
    requires forall c: Category :: Amount(r, c) == Amount(s, c)
    ensures r == s
  {
    assert Amount(r, Food) == Amount(s, Food) && Amount(r, Shopping) == Amount(s, Shopping);
    assert Amount(r, Transport) == Amount(s, Transport) && Amount(r, Education) == Amount(s, Education);
    assert Amount(r, Health) == Amount(s, Health) && Amount(r, DebtPayment) == Amount(s, DebtPayment);
    assert Amount(r, Salary) == Amount(s, Salary) && Amount(r, Other) == Amount(s, Other);
  }

  /** `Object.entries(record)`, in the key order of the object literals that build a record. */
  function Entries(r: CategoryAmounts): seq<(Category, int)> {
    [(Food, r.food), (Shopping, r.shopping), (Transport, r.transport), (Education, r.education),
     (Health, r.health), (DebtPayment, r.debt), (Salary, r.salary), (Other, r.other)]
  }

  /** No two entries share a category. */
  lemma {:induction false} EntriesDistinct(r: CategoryAmounts)
    ensures Distinct(Entries(r))
  {
    var s := Entries(r);
    forall i, j | 0 <= i < j < |s| ensures s[i] != s[j] {
      assert s[i].0 != s[j].0;
    }
  }

  /** The entries are exactly the pairs of a category and its amount. */
  lemma {:induction false} EntryMembership(r: CategoryAmounts, e: (Category, int))
    ensures e in Entries(r) <==> e.1 == Amount(r, e.0)
  {
    var s := Entries(r);
    if e.1 == Amount(r, e.0) {
      match e.0
      case Food => assert e == s[0];
      case Shopping => assert e == s[1];
      case Transport => assert e == s[2];
      case Education => assert e == s[3];
      case Health => assert e == s[4];
      case DebtPayment => assert e == s[5];
      case Salary => assert e == s[6];
      case Other => assert e == s[7];
    }
  }

  /** Every category has exactly one entry, holding its amount. */
  lemma {:induction false} EntryCount(r: CategoryAmounts, e: (Category, int))
    ensures multiset(Entries(r))[e] == if e.1 == Amount(r, e.0) then 1 else 0
  {
    EntriesDistinct(r);
    DistinctCount(Entries(r), e);
    EntryMembership(r, e);
  }

  function IsPositiveEntry(e: (Category, int)): bool {
    e.1 > 0
  }

  /** `MonthlyStats`. */
  datatype MonthlyStats = MonthlyStats(
    totalIncome: int,
    totalExpense: int,
    totalSaving: int,
    totalDebt: int,
    balance: int,
    expenseByCategory: CategoryAmounts)

  function KindName(k: TransactionType): string {
    match k
    case Income => "income"
    case Expense => "expense"
    case Saving => "saving"
    case Debt => "debt"
  }

  function CategoryName(c: Category): string {
    match c
    case Food => "food"
    case Shopping => "shopping"
    case Transport => "transport"
    case Education => "education"
    case Health => "health"
    case DebtPayment => "debt"
    case Salary => "salary"
    case Other => "other"
  }

  /** Reads a raw kind value; anything but the four names is not a kind. */
  function ParseKind(s: string): (r: Option<TransactionType>)
    ensures r.Some? ==> KindName(r.value) == s
  {
    if s == "income" then Some(Income)
    else if s == "expense" then Some(Expense)
    else if s == "saving" then Some(Saving)
    else if s == "debt" then Some(Debt)
    else None
  }

  /** Reads a raw category value; anything but the eight names is not a category. */
  function ParseCategory(s: string): (r: Option<Category>)
    ensures r.Some? ==> CategoryName(r.value) == s
  {
    if s == "food" then Some(Food)
    else if s == "shopping" then Some(Shopping)
    else if s == "transport" then Some(Transport)
    else if s == "education" then Some(Education)
    else if s == "health" then Some(Health)
    else if s == "debt" then Some(DebtPayment)
    else if s == "salary" then Some(Salary)
    else if s == "other" then Some(Other)
    else None
  }

  /** `CATEGORY_LABELS`. */
  function CategoryLabel(c: Category): string {
    match c
    case Food => "Ăn uống"
    case Shopping => "Mua sắm"
    case Transport => "Đi lại"
    case Education => "Giáo dục"
    case Health => "Y tế"
    case DebtPayment => "Trả nợ"
    case Salary => "Lương"
    case Other => "Khác"
  }

  /** `TRANSACTION_TYPE_LABELS`. */
  function TypeLabel(k: TransactionType): string {
    match k
    case Income => "Thu nhập"
    case Expense => "Chi tiêu"
    case Saving => "Tiết kiệm"
    case Debt => "Trả nợ"
  }

  /** `CATEGORY_COLORS`. */
  function CategoryColor(c: Category): string {
    match c
    case Food => "#ef4444"
    case Shopping => "#f59e0b"
    case Transport => "#3b82f6"
    case Education => "#8b5cf6"
    case Health => "#ec4899"
    case DebtPayment => "#6366f1"
    case Salary => "#10b981"
    case Other => "#6b7280"
  }

  /** There are exactly four kinds, each listed once. */
  lemma {:induction false} ExactlyFourKinds(k: TransactionType)
    ensures |AllKinds| == 4 && Distinct(AllKinds) && k in AllKinds
  {
  }

  /** There are exactly eight categories, each listed once. */
  lemma {:induction false} ExactlyEightCategories(c: Category)
    ensures |AllCategories| == 8 && Distinct(AllCategories) && c in AllCategories
  {
  }

  /** The raw names and the parsers are inverse to each other. */
  lemma {:induction false} NamesRoundTrip(k: TransactionType, c: Category)
    ensures ParseKind(KindName(k)) == Some(k)
    ensures ParseCategory(CategoryName(c)) == Some(c)
  {
  }

  /** No two categories share a label. */
  lemma {:induction false} CategoryLabelsDistinct(a: Category, b: Category)
    ensures CategoryLabel(a) == CategoryLabel(b) ==> a == b
  {
  }

  /** No two categories share a colour. */
  lemma {:induction false} CategoryColorsDistinct(a: Category, b: Category)
    ensures CategoryColor(a) == CategoryColor(b) ==> a == b
  {
  }

  /** The four kinds have four distinct labels. */
  lemma {:induction false} TypeLabelsDistinct(a: TransactionType, b: TransactionType)
    ensures TypeLabel(a) == TypeLabel(b) ==> a == b
  {
  }

  /**
    `Object.keys(CATEGORY_LABELS).find(key => CATEGORY_LABELS[key] === name)`, over the key list
    `cs`: the first category whose label is `name`.
  */
  function FindByLabel(cs: seq<Category>, name: string): (r: Option<Category>)
    ensures r.Some? ==> r.value in cs && CategoryLabel(r.value) == name
    ensures r.None? ==> forall c :: c in cs ==> CategoryLabel(c) != name
  {
    if cs == [] then None
    else if CategoryLabel(cs[0]) == name then Some(cs[0])
    else FindByLabel(cs[1..], name)
  }

  /** The reverse lookup by label recovers the category, because labels are distinct. */
  lemma {:induction false} FindByLabelRecovers(c: Category)
    ensures FindByLabel(AllCategories, CategoryLabel(c)) == Some(c)
  {
    var r := FindByLabel(AllCategories, CategoryLabel(c));
    assert c in AllCategories;
    CategoryLabelsDistinct(r.value, c);
  }
}
