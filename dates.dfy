/**
 * The deconstructed-date coercer: a date field `f` may be submitted as the
 * three keys `f(1i)`, `f(2i)` and `f(3i)` holding year, month and day.
 */
module DateParams {
  import opened Wrappers
  import opened Numerals

  /** A calendar date as the raw (year, month, day) triple; range checks are not modelled. */
  datatype Date = Date(year: int, month: int, day: int)

  /** A date part counts as left blank when it is missing or the empty string. */
  predicate BlankPart(part: Option<string>) {
    part.None? || part.value == ""
  }

  /** The payload key of part 1 (year), 2 (month) or 3 (day) of the date field `name`. */
  function PartKey(name: string, part: nat): (k: string)
    requires 1 <= part <= 3
    ensures |k| == |name| + 4 && k[..|name|] == name
    ensures k[|name|] == '(' && k[|name| + 2] == 'i' && k[|name| + 3] == ')'
    ensures IsDigit(k[|name| + 1]) && k[|name| + 1] as int - '0' as int == part
  {
    name + "(" + [DigitChar(part)] + "i)"
  }

  /**
   * Combine the three parts into one date, or reject the date (None) as
   * soon as any one of them is left blank, whatever the other two are.
   */
  function CoerceDate(year: Option<string>, month: Option<string>, day: Option<string>): (r: Option<Date>)
    ensures r.None? <==> BlankPart(year) || BlankPart(month) || BlankPart(day)
    ensures r.Some? ==> r.value.year >= 0 && r.value.month >= 0 && r.value.day >= 0
  {
    if BlankPart(year) || BlankPart(month) || BlankPart(day) then None
    else Some(Date(LeadingInt(year.value), LeadingInt(month.value), LeadingInt(day.value)))
  }

  /** The three decimal strings a date with non-negative parts is submitted as. */
  function Deconstruct(d: Date): (parts: (string, string, string))
    requires d.year >= 0 && d.month >= 0 && d.day >= 0
    ensures parts.0 != "" && parts.1 != "" && parts.2 != ""
  {
    (Decimal(d.year), Decimal(d.month), Decimal(d.day))
  }

  /** Submitting a date as its three decimal parts gives back that date. */
  lemma DateRoundTrip(d: Date)
    requires d.year >= 0 && d.month >= 0 && d.day >= 0
    ensures var (y, m, dd) := Deconstruct(d); CoerceDate(Some(y), Some(m), Some(dd)) == Some(d)
  {
    DecimalRoundTrip(d.year);
    DecimalRoundTrip(d.month);
    DecimalRoundTrip(d.day);
  }

  /** A part key determines both the field it belongs to and which part it is. */
  lemma PartKeyInjective(a: string, i: nat, b: string, j: nat)
    requires 1 <= i <= 3 && 1 <= j <= 3
    ensures PartKey(a, i) == PartKey(b, j) <==> a == b && i == j
  {
    if PartKey(a, i) == PartKey(b, j) {
      assert |a| == |b|;
      assert a == PartKey(a, i)[..|a|];
      assert PartKey(a, i)[|a| + 1] == DigitChar(i);
    }
  }
}
