/**
  The `yyyy-MM-dd` strings of the date inputs: `new Date(d).toISOString().split('T')[0]` writes
  one, and `new Date(s)` reads one back before `toISOString()` stores the date. Only the exact
  `yyyy-MM-dd` form is read; any other string, the empty one included, is an invalid date, on
  which `toISOString()` throws.
*/
module IsoDates {
  import opened Wrappers
  import opened Dates
  import opened Text

  /** The date part of `toISOString()`, for the years 0 to 9999. */
  function IsoDay(d: Date): string
    requires 0 <= d.year && 0 <= d.month && 0 <= d.day
  {
    Padded(d.year, 4) + "-" + Padded(d.month, 2) + "-" + Padded(d.day, 2)
  }

  /** A piece of `width` decimal digits, read as a number. */
  function DigitsField(p: string, width: nat): Option<int> {
    if |p| == width && forall i :: 0 <= i < |p| ==> IsDigit(p[i]) then ParseInt(p) else None
  }

  /** `new Date(s)` on a date input's value; `None` is an invalid date. */
  function ParseIsoDay(s: string): (r: Option<Date>)
    ensures r.Some? ==> ValidDate(r.value)
  {
    var parts := Split(s, '-');
    if |parts| != 3 then None
    else
      match (DigitsField(parts[0], 4), DigitsField(parts[1], 2), DigitsField(parts[2], 2))
      case (Some(y), Some(m), Some(d)) =>
        if 1 <= m <= 12 && 1 <= d <= DaysInMonth(y, m) then Some(Date(y, m, d)) else None
      case _ => None
  }

  lemma {:induction false} PaddedField(n: nat, width: nat)
    requires 1 <= width && n < Pow10(width)
    ensures DigitsField(Padded(n, width), width) == Some(n)
    ensures '-' !in Padded(n, width)
  {
    PaddedWidth(n, width);
    PaddedRoundTrip(n, width);
  }

  /** Reading back the string a date input is given yields the same date. */
  lemma {:induction false} IsoDayRoundTrip(d: Date)
    requires ValidDate(d) && 0 <= d.year <= 9999
    ensures ParseIsoDay(IsoDay(d)) == Some(d)
  {
    var y := Padded(d.year, 4);
    var m := Padded(d.month, 2);
    var day := Padded(d.day, 2);
    assert Pow10(2) == 100 && Pow10(4) == 10000;
    PaddedField(d.year, 4);
    PaddedField(d.month, 2);
    PaddedField(d.day, 2);
    assert IsoDay(d) == y + ['-'] + (m + ['-'] + day);
    SplitCons(y, m + ['-'] + day, '-');
    SplitTwo(m, day, '-');
  }

  /** An empty date input is an invalid date. */
  lemma {:induction false} EmptyIsInvalid()
    ensures ParseIsoDay("") == None
  {
  }
}
