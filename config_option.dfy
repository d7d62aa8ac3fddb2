/**
 * `cfg::Option` of configoption.h/configoption.cpp: the same facets and
 * range as the scalar option, a different setString rule, and an optional
 * array of child options, allocated on the first push and rendered by
 * buildArrayString.
 *
 * The child array holds options by value (`std::vector<Option>` behind a
 * `unique_ptr`, deep-copied on copy), so the model keeps the children as a
 * value: `Children`, where `NoArray` is the null pointer.
 */
module CfgOption {
  import StrLib
  import opened OptionFacets

  /** The `options` pointer: not allocated, or a vector of child options. */
  datatype Children = NoArray | Array(elems: seq<CfgValue>)

  /** An option with its children, as one value. */
  datatype CfgValue = CfgValue(facets: Facets, options: Children)

  /** A default-constructed option: default facets and no array. */
  const DefaultValue := CfgValue(Default, NoArray)

  /**
   * `setString` as intended: the candidate checked against the range is the
   * value the stream read (0 if none); `success` means a number used up the
   * whole text (the source's test of that is always false; see
   * SetStringFacetsAsWritten).  On success the text is kept, the quote flag is set unless the
   * text is a whole number or a boolean word, and the boolean is the
   * number's truth or, otherwise, strToBool.
   */
  function SetStringFacets(f: Facets, data: string, read: NumberReader): (r: (Facets, bool)) {
    var n := read(data);
    var success := n.Number? && n.whole;
    var value := Candidate(n);
    if InRange(f, value) then
      (f.(decimal := value, number := Trunc(value), quotes := !(success || StrLib.IsBool(data)),
          logical := if success then value != 0.0 else StrLib.StrToBool(data), str := data), true)
    else (f, false)
  }

  /**
   * setString is all or nothing: it fails, changing no field, exactly when
   * the value read (0 if none) is out of range; it never changes the range.
   */
  lemma {:induction false} SetStringAllOrNothing(f: Facets, data: string, read: NumberReader)
    ensures var (g, ok) := SetStringFacets(f, data, read);
      && (ok <==> InRange(f, Candidate(read(data))))
      && (!ok ==> g == f)
      && SameRange(g, f)
  {
  }

  /**
   * A successful setString: whole numbers and the words true/false (in any
   * case) are unquoted, everything else is quoted; a number followed by more
   * text keeps the number's value but counts as text.
   */
  lemma {:induction false} SetStringQuoting(f: Facets, data: string, read: NumberReader)
    requires SetStringFacets(f, data, read).1
    ensures var g := SetStringFacets(f, data, read).0;
      && g.str == data && g.decimal == Candidate(read(data)) && Coherent(g)
      && (!g.quotes <==> (read(data).Number? && read(data).whole) || StrLib.IsBool(data))
      && (read(data).Number? && !read(data).whole ==>
            g.decimal == read(data).value && (g.logical <==> StrLib.StrToBool(data)))
  {
  }

  /**
   * `setString` exactly as written: `gcount()` counts only unformatted input,
   * so after the formatted `stream >> value` it is still 0, and `success`
   * (which compares it with the length of `data`) can hold only for empty
   * text, which no number reads from.
   */
  function SetStringFacetsAsWritten(f: Facets, data: string, read: NumberReader): (r: (Facets, bool)) {
    var n := read(data);
    var gcount := 0;
    var success := n.Number? && gcount == |data|;
    var value := Candidate(n);
    if InRange(f, value) then
      (f.(decimal := value, number := Trunc(value), quotes := !(success || StrLib.IsBool(data)),
          logical := if success then value != 0.0 else StrLib.StrToBool(data), str := data), true)
    else (f, false)
  }

  /**
   * As written, every non-empty text except true/false is quoted and every
   * boolean comes from strToBool, numbers included: "1" is stored quoted and false,
   * where the intended setString stores it unquoted and true.
   */
  lemma {:induction false} WholeNumberNeverSeen(f: Facets, data: string, read: NumberReader)
    requires SetStringFacetsAsWritten(f, data, read).1
    ensures var g := SetStringFacetsAsWritten(f, data, read).0;
      data != [] ==> (g.quotes <==> !StrLib.IsBool(data)) && (g.logical <==> StrLib.StrToBool(data))
    ensures data == "1" && read(data) == Number(1.0, true) && f.range == NoRange ==>
      && SetStringFacetsAsWritten(f, data, read).0.quotes
      && !SetStringFacetsAsWritten(f, data, read).0.logical
      && !SetStringFacets(f, data, read).0.quotes
      && SetStringFacets(f, data, read).0.logical
  {
    if data == "1" {
      assert StrLib.Lowered(data)[0] == '1';
    }
  }

  /** The same reading, never reported as using up the whole text. */
  function NotWhole(n: LeadingNumber): (r: LeadingNumber)
    ensures r.Number? <==> n.Number?
    ensures r.Number? ==> r.value == n.value && !r.whole
  {
    match n
    case NoNumber => NoNumber
    case Number(v, _) => Number(v, false)
  }

  /**
   * For non-empty text, setString as written is the intended setString given
   * a reader that never reports a whole number; so Option.SetString, which
   * takes the reader as a parameter, also covers the code as written.
   */
  lemma {:induction false} AsWrittenIgnoresWhole(f: Facets, data: string, read: NumberReader)
    requires data != []
    ensures SetStringFacetsAsWritten(f, data, read) == SetStringFacets(f, data, s => NotWhole(read(s)))
  {
    var read' := (s: string) => NotWhole(read(s));
    assert Candidate(read'(data)) == Candidate(read(data));
  }

  /** `operator=` for any datum: setString for text, the template for numbers. */
  function AssignFacets(f: Facets, d: Datum, read: NumberReader): (r: (Facets, bool)) {
    match d
    case Text(s) => SetStringFacets(f, s, read)
    case Numeric(v, shown) => AssignNumber(f, v, shown)
  }

  /** The children, empty when no array is allocated. */
  function Elems(c: Children): (r: seq<CfgValue>) {
    if c.Array? then c.elems else []
  }

  /** `size`: 0 when no array is allocated. */
  function SizeOf(v: CfgValue): (r: nat)
    ensures v.options.NoArray? ==> r == 0
  {
    |Elems(v.options)|
  }

  /** `push(opt)`: allocates the array if needed and appends a copy; also returns the new last child. */
  function PushValue(v: CfgValue, opt: CfgValue): (r: (CfgValue, CfgValue)) {
    (v.(options := Array(Elems(v.options) + [opt])), opt)
  }

  /** `pop`: drops the last child if there is one. */
  function PopValue(v: CfgValue): (r: CfgValue) {
    if v.options.Array? && |v.options.elems| > 0 then
      v.(options := Array(v.options.elems[..|v.options.elems| - 1]))
    else v
  }

  /** `clear`: releases the array. */
  function ClearArray(v: CfgValue): (r: CfgValue) {
    v.(options := NoArray)
  }

  /**
   * push appends exactly one child, the one given, and returns it; the
   * earlier children and the option's own facets are untouched.
   */
  lemma {:induction false} PushAppends(v: CfgValue, opt: CfgValue)
    ensures var (w, last) := PushValue(v, opt);
      && SizeOf(w) == SizeOf(v) + 1 && last == opt && Elems(w.options)[SizeOf(v)] == opt
      && Elems(w.options)[..SizeOf(v)] == Elems(v.options)
      && w.facets == v.facets
  {
    var w := PushValue(v, opt).0;
    assert Elems(w.options) == Elems(v.options) + [opt];
  }

  /**
   * pop undoes push, except that the array allocated by the first push stays
   * allocated; on an option without children it does nothing.
   */
  lemma {:induction false} PopUndoesPush(v: CfgValue, opt: CfgValue)
    ensures PopValue(PushValue(v, opt).0) == v.(options := Array(Elems(v.options)))
    ensures SizeOf(v) == 0 ==> PopValue(v) == v
  {
    var w := PushValue(v, opt).0;
    assert w.options.elems[..|w.options.elems| - 1] == Elems(v.options);
  }

  /** clear drops every child but leaves the option's own facets. */
  lemma {:induction false} ClearKeepsFacets(v: CfgValue)
    ensures SizeOf(ClearArray(v)) == 0 && ClearArray(v).facets == v.facets
  {
  }

  /** `reset`: quotes off, no range, no array, then the number 0, which always succeeds. */
  function ResetValue(v: CfgValue): (r: CfgValue) {
    CfgValue(AssignNumber(v.facets.(quotes := false, range := NoRange), 0.0, "0").0, NoArray)
  }

  /** reset leaves the value 0 with no quotes, no range and no children. */
  lemma {:induction false} ResetClears(v: CfgValue)
    ensures var w := ResetValue(v);
      && w.facets.range == NoRange && !w.facets.quotes && w.facets.decimal == 0.0
      && w.facets.number == 0 && !w.facets.logical && w.facets.str == "0" && SizeOf(w) == 0
  {
  }

  /**
   * `operator<<(data)`: push a default option, then assign `data` to it,
   * which never fails since the new child has no range.
   */
  function AppendValue(v: CfgValue, d: Datum, read: NumberReader): (r: CfgValue) {
    PushValue(v, CfgValue(AssignFacets(Default, d, read).0, NoArray)).0
  }

  /** Chained `<<` appends the data in order, each as a leaf child without range. */
  lemma {:induction false} AppendInOrder(v: CfgValue, a: Datum, b: Datum, read: NumberReader)
    ensures var w := AppendValue(AppendValue(v, a, read), b, read);
      && Elems(w.options) == Elems(v.options)
           + [CfgValue(AssignFacets(Default, a, read).0, NoArray), CfgValue(AssignFacets(Default, b, read).0, NoArray)]
      && w.facets == v.facets
  {
    var x := CfgValue(AssignFacets(Default, a, read).0, NoArray);
    var y := CfgValue(AssignFacets(Default, b, read).0, NoArray);
    assert Elems(AppendValue(v, a, read).options) == Elems(v.options) + [x];
    assert Elems(v.options) + [x] + [y] == Elems(v.options) + [x, y];
  }

  /** Assigning to a fresh child always succeeds: a default option has no range. */
  lemma {:induction false} AppendAlwaysAssigns(d: Datum, read: NumberReader)
    ensures AssignFacets(Default, d, read).1
  {
  }

  /**
   * `buildArrayString(indentStr)`: a leaf is its text with quotes; an array
   * is `{`, a line per child indented one tab deeper, the lines separated by
   * commas, and `}` on a line of its own at the current indentation.
   */
  function ArrayText(v: CfgValue, indent: string): (r: string)
    decreases v, 1
  {
    match v.options
    case NoArray => WithQuotes(v.facets.str, v.facets.quotes)
    case Array(elems) => "{\n" + ItemsText(v, indent + "\t", |elems|) + "\n" + indent + "}"
  }

  /** The text buildArrayString's loop has built after `i` children of `v`. */
  function ItemsText(v: CfgValue, next: string, i: nat): (r: string)
    requires v.options.Array? && i <= |v.options.elems|
    decreases v, 0, i
  {
    if i == 0 then ""
    else
      var elems := v.options.elems;
      ItemsText(v, next, i - 1) + next + ArrayText(elems[i - 1], next)
        + (if i - 1 < |elems| - 1 then ",\n" else "")
  }

  /** The children's lines, each indented by `next`. */
  function ItemLines(elems: seq<CfgValue>, next: string): (r: seq<string>)
    ensures |r| == |elems|
  {
    seq(|elems|, i requires 0 <= i < |elems| => next + ArrayText(elems[i], next))
  }

  /**
   * What the loop builds is the children's lines joined by ",\n": one line
   * per child, in order, a separator between neighbours and none after the
   * last.
   */
  lemma {:induction false} ItemsTextJoins(v: CfgValue, next: string, i: nat)
    requires v.options.Array? && 0 < i <= |v.options.elems|
    ensures i < |v.options.elems| ==>
      ItemsText(v, next, i) == StrLib.Join(ItemLines(v.options.elems[..i], next), ",\n") + ",\n"
    ensures i == |v.options.elems| ==>
      ItemsText(v, next, i) == StrLib.Join(ItemLines(v.options.elems[..i], next), ",\n")
    decreases i
  {
    var elems := v.options.elems;
    var line := next + ArrayText(elems[i - 1], next);
    if i == 1 {
      assert ItemLines(elems[..1], next) == [line];
    } else {
      var prev := ItemLines(elems[..i - 1], next);
      var sep := if i - 1 < |elems| - 1 then ",\n" else "";
      ItemsTextJoins(v, next, i - 1);
      ItemLinesSnoc(elems, next, i);
      JoinStep(ItemsText(v, next, i - 1), prev, line, sep);
      ItemsTextStep(v, next, i);
    }
  }

  /** One more child: its line, then the separator unless it is the last. */
  lemma {:induction false} ItemsTextStep(v: CfgValue, next: string, i: nat)
    requires v.options.Array? && 0 < i <= |v.options.elems|
    ensures ItemsText(v, next, i) == ItemsText(v, next, i - 1) + (next + ArrayText(v.options.elems[i - 1], next))
      + (if i - 1 < |v.options.elems| - 1 then ",\n" else "")
  {
  }

  /** Text ending in the separator after joined lines, followed by one more line. */
  lemma {:induction false} JoinStep(x: string, prev: seq<string>, line: string, sep: string)
    requires |prev| > 0 && x == StrLib.Join(prev, ",\n") + ",\n"
    ensures x + line + sep == StrLib.Join(prev + [line], ",\n") + sep
  {
    StrLib.JoinSnoc(prev, line, ",\n");
  }

  /** The lines of the first `i` children: those of the first `i - 1`, then the last one's. */
  lemma {:induction false} ItemLinesSnoc(elems: seq<CfgValue>, next: string, i: nat)
    requires 0 < i <= |elems|
    ensures ItemLines(elems[..i], next) == ItemLines(elems[..i - 1], next) + [next + ArrayText(elems[i - 1], next)]
  {
  }

  /** buildArrayString of an array is `{`, the children's lines joined by ",\n", and `}`. */
  lemma {:induction false} ArrayTextShape(v: CfgValue, indent: string)
    requires v.options.Array?
    ensures ArrayText(v, indent)
      == "{\n" + StrLib.Join(ItemLines(v.options.elems, indent + "\t"), ",\n") + "\n" + indent + "}"
  {
    var elems := v.options.elems;
    if elems == [] {
      assert ItemLines(elems, indent + "\t") == [];
    } else {
      ItemsTextJoins(v, indent + "\t", |elems|);
      assert elems[..|elems|] == elems;
    }
  }

  /** buildArrayString, recursing over the children as the source does. */
  method BuildArrayText(v: CfgValue, indentStr: string) returns (arrayStr: string)
    ensures arrayStr == ArrayText(v, indentStr)
    decreases v
  {
    if v.options.Array? {
      var elems := v.options.elems;
      var nextIndentStr := indentStr + "\t";
      arrayStr := "{\n";
      var arraySize := |elems|;
      for i := 0 to arraySize
        invariant arrayStr == "{\n" + ItemsText(v, nextIndentStr, i)
      {
        arrayStr := arrayStr + nextIndentStr;
        var child := BuildArrayText(elems[i], nextIndentStr);
        arrayStr := arrayStr + child;
        if i < arraySize - 1 {
          arrayStr := arrayStr + ",\n";
        }
      }
      arrayStr := arrayStr + "\n" + indentStr + "}";
    } else {
      arrayStr := if v.facets.quotes then "\"" + v.facets.str + "\"" else v.facets.str;
    }
  }

  /** The `cfg::Option` class. */
  class Option {
    var str: string
    var number: int
    var decimal: real
    var logical: bool
    var quotes: bool
    var range: RangeType
    var rangeMin: real
    var rangeMax: real
    var options: Children

    /** The fields as one value. */
    function Value(): CfgValue
      reads this
    {
      CfgValue(Facets(str, number, decimal, logical, quotes, range, rangeMin, rangeMax), options)
    }

    /** Stores the facets `f`, leaving the children. */
    method StoreFacets(f: Facets)
      modifies this
      ensures Value() == old(Value()).(facets := f)
    {
      str, number, decimal, logical, quotes := f.str, f.number, f.decimal, f.logical, f.quotes;
      range, rangeMin, rangeMax := f.range, f.rangeMin, f.rangeMax;
    }

    /** `Option()`: every field zero-initialised, no array. */
    constructor ()
      ensures Value() == DefaultValue
    {
      str, number, decimal, logical, quotes := "", 0, 0.0, false, false;
      range, rangeMin, rangeMax := NoRange, 0.0, 0.0;
      options := NoArray;
    }

    /** `Option(const std::string&)`: setString on a default option, which always succeeds. */
    constructor FromText(data: string, read: NumberReader)
      ensures Value() == CfgValue(SetStringFacets(Default, data, read).0, NoArray)
    {
      str, number, decimal, logical, quotes := "", 0, 0.0, false, false;
      range, rangeMin, rangeMax := NoRange, 0.0, 0.0;
      options := NoArray;
      new;
      var ok := SetString(data, read);
    }

    /** The copy constructor: a deep copy, children included. */
    constructor Copy(data: Option)
      ensures Value() == data.Value()
    {
      var v := data.Value();
      str, number, decimal, logical, quotes := v.facets.str, v.facets.number, v.facets.decimal, v.facets.logical, v.facets.quotes;
      range, rangeMin, rangeMax := v.facets.range, v.facets.rangeMin, v.facets.rangeMax;
      options := v.options;
    }

    /** Copy assignment: every field, and a deep copy of the children (or none). */
    method CopyAssign(data: Option)
      modifies this
      ensures Value() == old(data.Value())
    {
      var v := data.Value();
      StoreFacets(v.facets);
      options := v.options;
    }

    /** `reset` */
    method Reset()
      modifies this
      ensures Value() == ResetValue(old(Value()))
    {
      quotes := false;
      range := NoRange;
      options := NoArray;
      var ok := AssignNumber(0.0, "0");
    }

    /** `setString`, and `operator=` for `const char*` and `std::string`, which forward to it. */
    method SetString(data: string, read: NumberReader) returns (ok: bool)
      modifies this
      ensures (Value().facets, ok) == SetStringFacets(old(Value()).facets, data, read)
      ensures options == old(options)
    {
      var n := read(data);
      var success := n.Number? && n.whole;
      var value := Candidate(n);
      if IsInRange(value) {
        decimal := value;
        number := Trunc(decimal);
        quotes := !(success || StrLib.IsBool(data));
        logical := if success then decimal != 0.0 else StrLib.StrToBool(data);
        str := data;
        return true;
      }
      return false;
    }

    /** The numeric template `operator=(Type data)`. */
    method AssignNumber(value: real, shown: string) returns (ok: bool)
      modifies this
      ensures (Value().facets, ok) == OptionFacets.AssignNumber(old(Value()).facets, value, shown)
      ensures options == old(options)
    {
      if IsInRange(value) {
        number := Trunc(value);
        decimal := value;
        logical := value != 0.0;
        str := shown;
        quotes := false;
        return true;
      }
      return false;
    }

    /** `toStringWithQuotes` */
    function ToStringWithQuotes(): (r: string)
      reads this
      ensures r == WithQuotes(Value().facets.str, Value().facets.quotes)
    {
      if quotes then "\"" + str + "\"" else str
    }

    /** `setQuotes` */
    method SetQuotes(setting: bool)
      modifies this
      ensures Value() == old(Value()).(facets := OptionFacets.SetQuotes(old(Value()).facets, setting))
    {
      quotes := setting;
    }

    /** `hasQuotes` */
    function HasQuotes(): (r: bool)
      reads this
      ensures r == Value().facets.quotes
    {
      quotes
    }

    /** `setRange(double num1)`, which the header declares as `setMin`. */
    method SetMin(num1: real)
      modifies this
      ensures Value() == old(Value()).(facets := OptionFacets.SetMin(old(Value()).facets, num1))
    {
      rangeMin := num1;
      range := MinRange;
    }

    /** `setRange(double num1, double num2)` */
    method SetRange(num1: real, num2: real)
      modifies this
      ensures Value() == old(Value()).(facets := SetMinMax(old(Value()).facets, num1, num2))
    {
      rangeMin := num1;
      rangeMax := num2;
      range := MinMaxRange;
    }

    /** `removeRange` */
    method RemoveRange()
      modifies this
      ensures Value() == old(Value()).(facets := OptionFacets.RemoveRange(old(Value()).facets))
    {
      range := NoRange;
    }

    /** `isInRange` */
    predicate IsInRange(num: real)
      reads this
    {
      range == NoRange
      || (range == MinRange && num >= rangeMin)
      || (range == MinMaxRange && num >= rangeMin && num <= rangeMax)
    }

    /** `push(opt)`; the returned child is a copy, not a reference into the array. */
    method Push(opt: CfgValue) returns (last: CfgValue)
      modifies this
      ensures (Value(), last) == PushValue(old(Value()), opt)
    {
      if options.NoArray? {
        options := Array([]);
      }
      options := Array(options.elems + [opt]);
      last := opt;
    }

    /** `pop` */
    method Pop()
      modifies this
      ensures Value() == PopValue(old(Value()))
    {
      if options.Array? && |options.elems| > 0 {
        options := Array(options.elems[..|options.elems| - 1]);
      }
    }

    /** `operator[]` (a copy of the child; the source leaves a missing array or index undefined). */
    function At(pos: nat): (r: CfgValue)
      reads this
      requires options.Array? && pos < |options.elems|
      ensures r == Elems(Value().options)[pos]
    {
      options.elems[pos]
    }

    /** `back` (undefined in the source without children). */
    function Back(): (r: CfgValue)
      reads this
      requires options.Array? && |options.elems| > 0
      ensures r == Elems(Value().options)[SizeOf(Value()) - 1]
    {
      options.elems[|options.elems| - 1]
    }

    /** `size` */
    function Size(): (r: nat)
      reads this
      ensures r == SizeOf(Value())
    {
      if options.Array? then |options.elems| else 0
    }

    /** `clear` */
    method Clear()
      modifies this
      ensures Value() == ClearArray(old(Value()))
    {
      options := NoArray;
    }

    /** `operator<<(data)`: `push() = data`. */
    method Append(d: Datum, read: NumberReader)
      modifies this
      ensures Value() == AppendValue(old(Value()), d, read)
    {
      var child := Push(DefaultValue);
      var stored := AssignFacets(child.facets, d, read).0;
      options := Array(options.elems[..|options.elems| - 1] + [child.(facets := stored)]);
    }

    /** `buildArrayString(indentStr)` */
    method BuildArrayString(indentStr: string) returns (r: string)
      ensures r == ArrayText(Value(), indentStr)
    {
      r := BuildArrayText(Value(), indentStr);
    }
  }

  /** `makeOption(data)` */
  method MakeOption(d: Datum, read: NumberReader) returns (o: Option)
    ensures fresh(o) && o.Value() == CfgValue(AssignFacets(Default, d, read).0, NoArray)
  {
    o := new Option();
    match d {
      case Text(s) =>
        var ok := o.SetString(s, read);
      case Numeric(v, shown) =>
        var ok := o.AssignNumber(v, shown);
    }
  }

  /** `makeOption(data, minimum)`: assigned first, the bound installed after, unchecked. */
  method MakeOptionMin(d: Datum, read: NumberReader, minimum: real) returns (o: Option)
    ensures fresh(o) && o.Value() == CfgValue(SetMin(AssignFacets(Default, d, read).0, minimum), NoArray)
  {
    o := MakeOption(d, read);
    o.SetMin(minimum);
  }

  /** `makeOption(data, minimum, maximum)`: assigned first, the bounds installed after, unchecked. */
  method MakeOptionRange(d: Datum, read: NumberReader, minimum: real, maximum: real) returns (o: Option)
    ensures fresh(o) && o.Value() == CfgValue(SetMinMax(AssignFacets(Default, d, read).0, minimum, maximum), NoArray)
  {
    o := MakeOption(d, read);
    o.SetRange(minimum, maximum);
  }
}
