/**
 * The scalar `Option` of option.h/option.cpp, the value type configfile.cpp
 * stores: a class whose fields the assignments update together, all or
 * nothing, behind the range check.  Each method is specified by a function
 * on the option's facets (OptionFacets.Facets), which is also what a
 * ConfigFile section holds.
 */
module OptionCell {
  import StrLib
  import opened OptionFacets

  /**
   * `setString`: the candidate checked against the range is the leading
   * number of `data`, or 0 when none parses; on success the text is kept,
   * the number goes to the numeric facets, the quote flag is set iff no
   * number parsed, and the boolean is the number's truth or, for non-numbers,
   * strToBool.
   */
  function SetStringFacets(f: Facets, data: string, read: NumberReader): (r: (Facets, bool)) {
    var n := read(data);
    var value := Candidate(n);
    if InRange(f, value) then
      (f.(decimal := value, number := Trunc(value), quotes := !n.Number?,
          logical := if n.Number? then value != 0.0 else StrLib.StrToBool(data), str := data), true)
    else (f, false)
  }

  /**
   * setString is all or nothing: it fails, changing no field, exactly when
   * the leading number (0 if none) is out of range; it never changes the
   * range.
   */
  lemma {:induction false} SetStringAllOrNothing(f: Facets, data: string, read: NumberReader)
    ensures var (g, ok) := SetStringFacets(f, data, read);
      && (ok <==> InRange(f, Candidate(read(data))))
      && (!ok ==> g == f)
      && SameRange(g, f)
  {
  }

  /**
   * A successful setString keeps the text as given, stores the leading
   * number (0 if none) in both numeric facets, and sets the quote flag iff no
   * number parsed.  Text that is not a number has value 0 and a boolean from
   * strToBool.
   */
  lemma {:induction false} SetStringStores(f: Facets, data: string, read: NumberReader)
    requires SetStringFacets(f, data, read).1
    ensures var g := SetStringFacets(f, data, read).0;
      && g.str == data && g.decimal == Candidate(read(data)) && Coherent(g)
      && (g.quotes <==> read(data).NoNumber?)
      && (read(data).NoNumber? ==> g.decimal == 0.0 && g.number == 0 && (g.logical <==> StrLib.StrToBool(data)))
      && (read(data).Number? ==> (g.logical <==> g.decimal != 0.0))
  {
  }

  /**
   * Even text that is no number at all is range-checked, as the value 0: a
   * range that excludes 0 rejects every such text.
   */
  lemma {:induction false} TextCheckedAsZero(f: Facets, data: string, read: NumberReader)
    requires read(data).NoNumber? && !InRange(f, 0.0)
    ensures SetStringFacets(f, data, read) == (f, false)
  {
  }

  /** Without a range, setString always succeeds. */
  lemma {:induction false} SetStringUnranged(f: Facets, data: string, read: NumberReader)
    requires f.range == NoRange
    ensures SetStringFacets(f, data, read).1
  {
  }

  /** `operator=` for any datum: setString for text, the template for numbers. */
  function Assign(f: Facets, d: Datum, read: NumberReader): (r: (Facets, bool)) {
    match d
    case Text(s) => SetStringFacets(f, s, read)
    case Numeric(v, shown) => AssignNumber(f, v, shown)
  }

  /** Every assignment keeps the integer facet the truncation of the decimal one. */
  lemma {:induction false} AssignKeepsCoherent(f: Facets, d: Datum, read: NumberReader)
    requires Coherent(f)
    ensures Coherent(Assign(f, d, read).0)
  {
  }

  /** `reset`: no range, then the number 0 (rendered "0"), which always succeeds. */
  function ResetFacets(f: Facets): (r: Facets) {
    AssignNumber(RemoveRange(f), 0.0, "0").0
  }

  /** reset leaves value 0, no quotes and no range, whatever came before. */
  lemma {:induction false} ResetClears(f: Facets)
    ensures var g := ResetFacets(f);
      g.range == NoRange && g.str == "0" && g.number == 0 && g.decimal == 0.0 && !g.logical && !g.quotes
  {
  }

  /** `Option(const std::string&)`: quotes off, no range, the number 0, then setString. */
  function FromString(data: string, read: NumberReader): (r: Facets) {
    SetStringFacets(ResetFacets(Default), data, read).0
  }

  /** The string constructor always takes its argument: nothing can reject it. */
  lemma {:induction false} FromStringTakesData(data: string, read: NumberReader)
    ensures FromString(data, read) == SetStringFacets(Default, data, read).0
    ensures FromString(data, read).str == data && FromString(data, read).range == NoRange
  {
  }

  /** `makeOption(data)`: a default option assigned `data`. */
  function Make(d: Datum, read: NumberReader): (r: Facets) {
    Assign(Default, d, read).0
  }

  /** `makeOption(data, num1)`: assigned first, the lower bound installed after. */
  function MakeMin(d: Datum, read: NumberReader, min: real): (r: Facets) {
    SetMin(Assign(Default, d, read).0, min)
  }

  /** `makeOption(data, num1, num2)`: assigned first, the bounds installed after. */
  function MakeMinMax(d: Datum, read: NumberReader, min: real, max: real): (r: Facets) {
    SetMinMax(Assign(Default, d, read).0, min, max)
  }

  /**
   * The factories never range-check the initial value: it is stored as given
   * even when the installed range excludes it.
   */
  lemma {:induction false} MakeUnchecked(value: real, shown: string, read: NumberReader, min: real, max: real)
    ensures MakeMin(Numeric(value, shown), read, min).decimal == value
    ensures MakeMinMax(Numeric(value, shown), read, min, max).decimal == value
    ensures max < value ==> !InRange(MakeMinMax(Numeric(value, shown), read, min, max), value)
  {
  }

  /** makeOption(data) has no range and the facets of assigning `data` to a default option. */
  lemma {:induction false} MakeIsAssign(d: Datum, read: NumberReader)
    ensures Make(d, read).range == NoRange && Assign(Default, d, read).1
  {
  }

  /** The `Option` class. */
  class Option {
    var str: string
    var number: int
    var decimal: real
    var logical: bool
    var quotes: bool
    var range: RangeType
    var rangeMin: real
    var rangeMax: real

    /** The fields as one value. */
    function Value(): Facets
      reads this
    {
      Facets(str, number, decimal, logical, quotes, range, rangeMin, rangeMax)
    }

    /** `Option()` (the bounds, left indeterminate by the source, start at 0). */
    constructor ()
      ensures Value() == Default
    {
      str, number, decimal, logical, quotes := "", 0, 0.0, false, false;
      range, rangeMin, rangeMax := NoRange, 0.0, 0.0;
    }

    /** `Option(const std::string&)` */
    constructor FromText(data: string, read: NumberReader)
      ensures Value() == FromString(data, read)
    {
      str, number, decimal, logical := "", 0, 0.0, false;
      rangeMin, rangeMax := 0.0, 0.0;
      quotes := false;
      range := NoRange;
      new;
      var zeroed := AssignNumber(0.0, "0");
      var ok := SetString(data, read);
    }

    /** `reset` */
    method Reset()
      modifies this
      ensures Value() == ResetFacets(old(Value()))
    {
      range := NoRange;
      var ok := AssignNumber(0.0, "0");
    }

    /** `setString`, and `operator=` for `const char*` and `std::string`, which forward to it. */
    method SetString(data: string, read: NumberReader) returns (ok: bool)
      modifies this
      ensures (Value(), ok) == SetStringFacets(old(Value()), data, read)
    {
      var n := read(data);
      var tmpDec := Candidate(n);
      if IsInRange(tmpDec) {
        decimal := tmpDec;
        number := Trunc(decimal);
        quotes := !n.Number?;
        logical := if n.Number? then decimal != 0.0 else StrLib.StrToBool(data);
        str := data;
        return true;
      }
      return false;
    }

    /** The numeric template `operator=(Type data)`. */
    method AssignNumber(value: real, shown: string) returns (ok: bool)
      modifies this
      ensures (Value(), ok) == OptionFacets.AssignNumber(old(Value()), value, shown)
    {
      if IsInRange(value) {
        number := Trunc(value);
        decimal := value;
        logical := value != 0.0;
        str := shown;
        quotes := false;
        return true;
      }
      return false;
    }

    /** `toStringWithQuotes` */
    function ToStringWithQuotes(): (r: string)
      reads this
      ensures r == WithQuotes(Value().str, Value().quotes)
    {
      if quotes then "\"" + str + "\"" else str
    }

    /** `setQuotes` */
    method SetQuotes(setting: bool)
      modifies this
      ensures Value() == OptionFacets.SetQuotes(old(Value()), setting)
    {
      quotes := setting;
    }

    /** `hasQuotes` */
    function HasQuotes(): (r: bool)
      reads this
      ensures r == Value().quotes
    {
      quotes
    }

    /** `setRange(double num1)` */
    method SetMin(num1: real)
      modifies this
      ensures Value() == OptionFacets.SetMin(old(Value()), num1)
    {
      rangeMin := num1;
      range := MinRange;
    }

    /** `setRange(double num1, double num2)` */
    method SetRange(num1: real, num2: real)
      modifies this
      ensures Value() == SetMinMax(old(Value()), num1, num2)
    {
      rangeMin := num1;
      rangeMax := num2;
      range := MinMaxRange;
    }

    /** `removeRange` */
    method RemoveRange()
      modifies this
      ensures Value() == OptionFacets.RemoveRange(old(Value()))
    {
      range := NoRange;
    }

    /** `isInRange` */
    predicate IsInRange(num: real)
      reads this
    {
      range == NoRange
      || (range == MinRange && num >= rangeMin)
      || (range == MinMaxRange && num >= rangeMin && num <= rangeMax)
    }
  }

  /** `makeOption(data)` */
  method MakeOption(d: Datum, read: NumberReader) returns (o: Option)
    ensures fresh(o) && o.Value() == Make(d, read)
  {
    o := new Option();
    match d {
      case Text(s) =>
        var ok := o.SetString(s, read);
      case Numeric(v, shown) =>
        var ok := o.AssignNumber(v, shown);
    }
  }

  /** `makeOption(data, num1)` */
  method MakeOptionMin(d: Datum, read: NumberReader, num1: real) returns (o: Option)
    ensures fresh(o) && o.Value() == MakeMin(d, read, num1)
  {
    o := MakeOption(d, read);
    o.SetMin(num1);
  }

  /** `makeOption(data, num1, num2)` */
  method MakeOptionRange(d: Datum, read: NumberReader, num1: real, num2: real) returns (o: Option)
    ensures fresh(o) && o.Value() == MakeMinMax(d, read, num1, num2)
  {
    o := MakeOption(d, read);
    o.SetRange(num1, num2);
  }
}
