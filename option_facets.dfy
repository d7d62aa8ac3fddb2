/**
 * What the two option classes (option.h/option.cpp and the `cfg::` version in
 * configoption.h/configoption.cpp) have in common: the facets an option
 * stores (text, integer, decimal, boolean, quote flag), the optional range
 * that gates every assignment, the numeric template `operator=`, the range
 * setters and `toStringWithQuotes`.
 *
 * `double` is modelled as `real` and `long` as `int`; reading a number from
 * text with `std::istringstream` and rendering one with `strlib::toString`
 * are not modelled: their outcomes are inputs (a NumberReader, a `shown`
 * string).
 */
module OptionFacets {
  import StrLib

  /**
   * What `stream >> value` makes of a string: no number, or the value of the
   * leading number and whether it used up the whole string.
   */
  datatype LeadingNumber = NoNumber | Number(value: real, whole: bool)

  /** The stream read of a `double` from a string, left abstract. */
  type NumberReader = string -> LeadingNumber

  /** The value the stream leaves in the target variable: 0 when nothing parses. */
  function Candidate(n: LeadingNumber): (r: real)
    ensures n.NoNumber? ==> r == 0.0
  {
    if n.Number? then n.value else 0.0
  }

  /** Conversion of a `double` to an integer type: truncation toward zero. */
  function Trunc(x: real): (r: int)
    ensures 0.0 <= x ==> 0 <= r && r as real <= x < r as real + 1.0
    ensures x < 0.0 ==> r <= 0 && r as real - 1.0 < x <= r as real
  {
    if x >= 0.0 then x.Floor else -((-x).Floor)
  }

  /** `RangeType` */
  datatype RangeType = NoRange | MinRange | MinMaxRange

  /** The fields of an option, as one value. */
  datatype Facets = Facets(
    str: string,
    number: int,
    decimal: real,
    logical: bool,
    quotes: bool,
    range: RangeType,
    rangeMin: real,
    rangeMax: real)

  /** A default-constructed option: empty text, zeros, false, no range. */
  const Default := Facets("", 0, 0.0, false, false, NoRange, 0.0, 0.0)

  /** The integer facet is the truncation of the decimal facet. */
  predicate Coherent(f: Facets) {
    f.number == Trunc(f.decimal)
  }

  /** The value facets of `f` and `g` agree. */
  predicate SameValue(f: Facets, g: Facets) {
    f.str == g.str && f.number == g.number && f.decimal == g.decimal && f.logical == g.logical
  }

  /** The range fields of `f` and `g` agree. */
  predicate SameRange(f: Facets, g: Facets) {
    f.range == g.range && f.rangeMin == g.rangeMin && f.rangeMax == g.rangeMax
  }

  /** `isInRange`: the range check every assignment passes through. */
  predicate InRange(f: Facets, num: real) {
    f.range == NoRange
    || (f.range == MinRange && num >= f.rangeMin)
    || (f.range == MinMaxRange && num >= f.rangeMin && num <= f.rangeMax)
  }

  /** `setRange(num1)`: a lower bound only. */
  function SetMin(f: Facets, min: real): (r: Facets) {
    f.(rangeMin := min, range := MinRange)
  }

  /** `setRange(num1, num2)`: an inclusive lower and upper bound. */
  function SetMinMax(f: Facets, min: real, max: real): (r: Facets) {
    f.(rangeMin := min, rangeMax := max, range := MinMaxRange)
  }

  /** `removeRange` */
  function RemoveRange(f: Facets): (r: Facets) {
    f.(range := NoRange)
  }

  /** `setQuotes` */
  function SetQuotes(f: Facets, setting: bool): (r: Facets) {
    f.(quotes := setting)
  }

  /**
   * After each range setter, isInRange accepts exactly: every number, the
   * numbers at least `min`, the numbers between `min` and `max` inclusive.
   */
  lemma {:induction false} RangeSettersDecide(f: Facets, min: real, max: real, x: real)
    ensures InRange(RemoveRange(f), x)
    ensures InRange(SetMin(f, min), x) <==> min <= x
    ensures InRange(SetMinMax(f, min, max), x) <==> min <= x <= max
  {
  }

  /**
   * The range setters and setQuotes never touch the stored value and never
   * re-check it: a value outside a newly set range stays.
   */
  lemma {:induction false} SettersKeepValue(f: Facets, min: real, max: real, q: bool)
    ensures SameValue(SetMin(f, min), f) && SetMin(f, min).quotes == f.quotes
    ensures SameValue(SetMinMax(f, min, max), f) && SetMinMax(f, min, max).quotes == f.quotes
    ensures SameValue(RemoveRange(f), f) && RemoveRange(f).quotes == f.quotes
    ensures SameValue(SetQuotes(f, q), f) && SameRange(SetQuotes(f, q), f)
  {
  }

  /**
   * The numeric template `operator=(Type data)`, for a `data` whose value is
   * `value` and which `strlib::toString` renders as `shown`.  It reports
   * whether it assigned.
   */
  function AssignNumber(f: Facets, value: real, shown: string): (r: (Facets, bool)) {
    if InRange(f, value) then
      (f.(number := Trunc(value), decimal := value, logical := value != 0.0, str := shown, quotes := false), true)
    else (f, false)
  }

  /**
   * Numeric assignment is all or nothing: out of range it changes nothing;
   * in range it stores the number in every facet, without quotes.  The range
   * is never changed.
   */
  lemma {:induction false} AssignNumberAllOrNothing(f: Facets, value: real, shown: string)
    ensures var (g, ok) := AssignNumber(f, value, shown);
      && (ok <==> InRange(f, value))
      && (!ok ==> g == f)
      && (ok ==> g.decimal == value && Coherent(g) && (g.logical <==> value != 0.0)
                 && g.str == shown && !g.quotes)
      && SameRange(g, f)
  {
  }

  /** Without a range, numeric assignment always succeeds. */
  lemma {:induction false} AssignNumberUnranged(f: Facets, value: real, shown: string)
    requires f.range == NoRange
    ensures AssignNumber(f, value, shown).1
  {
  }

  /** The text `toStringWithQuotes` gives: wrapped in `"` iff the quote flag is set. */
  function WithQuotes(str: string, quotes: bool): (r: string) {
    if quotes then "\"" + str + "\"" else str
  }

  /**
   * trimQuotes undoes toStringWithQuotes when the quote flag is set, and a
   * text that is not itself quoted comes back unchanged when it is not.
   */
  lemma {:induction false} WithQuotesRoundTrip(str: string, quotes: bool)
    requires !quotes ==> !StrLib.TrimQuotes(str).1
    ensures StrLib.TrimQuotes(WithQuotes(str, quotes)) == (str, quotes)
  {
    if quotes {
      StrLib.TrimQuotesOfQuoted(str);
    }
  }

  /** A value written to an option: text, or a number with its rendering. */
  datatype Datum = Text(text: string) | Numeric(value: real, shown: string)

  /** Every operation on the facets keeps the integer facet the truncation of the decimal one. */
  lemma {:induction false} SettersKeepCoherent(f: Facets, min: real, max: real, q: bool, value: real, shown: string)
    requires Coherent(f)
    ensures Coherent(SetMin(f, min)) && Coherent(SetMinMax(f, min, max))
    ensures Coherent(RemoveRange(f)) && Coherent(SetQuotes(f, q))
    ensures Coherent(AssignNumber(f, value, shown).0)
  {
  }
}
