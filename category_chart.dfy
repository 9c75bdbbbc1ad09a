/**
  The expense pie of src/components/reports/ExpenseByCategoryChart.tsx: one slice per category
  with a positive amount, in the record's key order, coloured by looking its label up again.
  The record's key order is taken to be food..other (Types.Entries): this assumes a caller that
  builds the record as the dashboard's literal does (src/app/dashboard/page.tsx:91-100). No caller
  of the component is part of this model.
*/
module CategoryChart {
  import opened Wrappers
  import opened Types
  import opened Folds

  /** One `chartData` element. */
  datatype ChartSlice = ChartSlice(name: string, value: int)

  function SliceOfEntry(e: (Category, int)): ChartSlice {
    ChartSlice(CategoryLabel(e.0), e.1)
  }

  /** `.map(([key, value]) => ({ name: CATEGORY_LABELS[key], value }))`. */
  function MapEntries(es: seq<(Category, int)>): (r: seq<ChartSlice>)
    ensures |r| == |es|
    ensures forall i :: 0 <= i < |r| ==> r[i] == SliceOfEntry(es[i])
  {
    if es == [] then [] else MapEntries(es[..|es| - 1]) + [SliceOfEntry(es[|es| - 1])]
  }

  /** `chartData`: the entries with a positive value, as slices. */
  function ChartData(data: CategoryAmounts): seq<ChartSlice> {
    MapEntries(Filter(Entries(data), IsPositiveEntry))
  }

  /** What the component renders: `null` when there is no slice, the pie otherwise. */
  function Rendered(data: CategoryAmounts): Option<seq<ChartSlice>> {
    var slices := ChartData(data);
    if |slices| == 0 then None else Some(slices)
  }

  /** A `Cell`'s fill: the colour of the first category whose label is the slice's name. */
  function SliceColor(s: ChartSlice): Option<string> {
    match FindByLabel(AllCategories, s.name)
    case None => None
    case Some(c) => Some(CategoryColor(c))
  }

  /** The position of a category among the keys of the record. */
  function Rank(c: Category): int {
    match c
    case Food => 0
    case Shopping => 1
    case Transport => 2
    case Education => 3
    case Health => 4
    case DebtPayment => 5
    case Salary => 6
    case Other => 7
  }

  /** The category a slice was made from, recovered from its label. */
  function SliceRank(s: ChartSlice): int {
    match FindByLabel(AllCategories, s.name)
    case None => -1
    case Some(c) => Rank(c)
  }

  /**
    Every slice is a category with a positive value, named by its label, carrying that value
    unchanged and filled with that category's own colour.
  */
  lemma {:induction false} ChartSlicesSound(data: CategoryAmounts, i: int)
    requires 0 <= i < |ChartData(data)|
    ensures exists d: Category :: Amount(data, d) > 0
              && ChartData(data)[i] == ChartSlice(CategoryLabel(d), Amount(data, d))
              && SliceColor(ChartData(data)[i]) == Some(CategoryColor(d))
  {
    var es := Filter(Entries(data), IsPositiveEntry);
    assert es[i] in multiset(es);
    FilterMultiset(Entries(data), IsPositiveEntry, es[i]);
    EntryCount(data, es[i]);
    FindByLabelRecovers(es[i].0);
    assert ChartData(data)[i] == ChartSlice(CategoryLabel(es[i].0), Amount(data, es[i].0));
  }

  /** A category has a slice exactly when its value is positive. */
  lemma {:induction false} ChartSlicesComplete(data: CategoryAmounts, c: Category)
    ensures Amount(data, c) > 0 <==>
              exists i :: 0 <= i < |ChartData(data)| && ChartData(data)[i] == ChartSlice(CategoryLabel(c), Amount(data, c))
  {
    var es := Filter(Entries(data), IsPositiveEntry);
    var r := ChartData(data);
    var e := (c, Amount(data, c));
    FilterMultiset(Entries(data), IsPositiveEntry, e);
    EntryCount(data, e);
    if Amount(data, c) > 0 {
      assert e in multiset(es);
      var k :| 0 <= k < |es| && es[k] == e;
      assert r[k] == ChartSlice(CategoryLabel(c), Amount(data, c));
    } else {
      forall i | 0 <= i < |r| ensures r[i] != ChartSlice(CategoryLabel(c), Amount(data, c)) {
        ChartSlicesSound(data, i);
        var d: Category :| Amount(data, d) > 0 && r[i] == ChartSlice(CategoryLabel(d), Amount(data, d));
        CategoryLabelsDistinct(d, c);
      }
    }
  }

  /** There are at most eight slices, and they follow the record's key order. */
  lemma {:induction false} ChartKeepsKeyOrder(data: CategoryAmounts)
    ensures |ChartData(data)| <= 8
    ensures StrictlyAscending(ChartData(data), SliceRank)
  {
    var rank := (e: (Category, int)) => Rank(e.0);
    assert StrictlyAscending(Entries(data), rank);
    FilterKeepsAscending(Entries(data), IsPositiveEntry, rank);
    var es := Filter(Entries(data), IsPositiveEntry);
    var r := ChartData(data);
    forall i | 0 <= i < |r| ensures SliceRank(r[i]) == rank(es[i]) {
      FindByLabelRecovers(es[i].0);
    }
  }

  /** The component renders nothing exactly when no category has a positive value. */
  lemma {:induction false} RenderedNothingExact(data: CategoryAmounts)
    ensures Rendered(data).None? <==> forall c: Category :: Amount(data, c) <= 0
  {
    forall c: Category ensures Amount(data, c) > 0 ==> |ChartData(data)| > 0 {
      ChartSlicesComplete(data, c);
    }
    if |ChartData(data)| > 0 {
      ChartSlicesSound(data, 0);
    }
  }
}
