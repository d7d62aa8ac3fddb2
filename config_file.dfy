/**
 * The class `ConfigFile` of configfile.cpp: a store of sections of options
 * and the name of the section in use, with the parser, the writer and the
 * map operations as methods that update the store in place.  Each method is
 * proved against the function of ConfigText that specifies it.
 *
 * Files, console warnings and the autosave and warning settings are not
 * modelled: loading starts from the text, writing ends with the text.
 */
module Config {
  import StrLib
  import LexOrder
  import opened OptionFacets
  import OptionCell
  import opened ConfigText

  /** parseLines' loop state: parsing the lines still to come from `st` reaches `goal`. */
  ghost predicate ParseReaches(st: ParseState, lines: seq<string>, i: nat, read: NumberReader, goal: ParseState)
    requires i <= |lines|
  {
    ParseAll(st, lines[i..], read) == goal
  }

  /** One pass of parseLines' loop moves the loop state on by one line. */
  lemma {:induction false} ParseStep(st: ParseState, lines: seq<string>, i: nat, read: NumberReader, goal: ParseState)
    requires i < |lines| && ParseReaches(st, lines, i, read, goal)
    ensures ParseReaches(ParseLine(st, lines[i], read), lines, i + 1, read, goal)
  {
    assert lines[i..][0] == lines[i] && lines[i..][1..] == lines[i + 1..];
  }

  /** writeToString's loop state: `res` followed by the text still to come is the whole text. */
  ghost predicate WriteReaches(res: string, rest: string, goal: string) {
    res + rest == goal
  }

  /** Appending a piece of the text still to come keeps the loop state. */
  lemma {:induction false} WriteStep(res: string, piece: string, rest: string, goal: string)
    requires WriteReaches(res, piece + rest, goal)
    ensures WriteReaches(res + piece, rest, goal)
  {
    assert res + (piece + rest) == res + piece + rest;
  }

  class ConfigFile {
    var options: ConfigMap
    var currentSection: string

    /** `ConfigFile()`: an empty store, the default section in use. */
    constructor ()
      ensures options == map[] && currentSection == ""
    {
      options := map[];
      currentSection := "";
    }

    /** `ConfigFile(defaultOptions, warnings)` */
    constructor FromDefaults(defaultOptions: ConfigMap)
      ensures options == WithDefaults(map[], defaultOptions) && currentSection == ""
    {
      options := map[];
      currentSection := "";
      new;
      SetDefaultOptions(defaultOptions);
    }

    /** `loadFromString`: split the text into lines, empty ones dropped, and parse them. */
    method LoadFromString(str: string, read: NumberReader)
      modifies this
      ensures options == LoadedStore(old(options), str, read)
      ensures currentSection == old(currentSection)
    {
      var lines := StrLib.GetLinesFromString(str, [], false);
      assert lines == StrLib.Lines(str, false);
      ParseLines(lines, read);
    }

    /** `parseLines`: always starts in section `""`, outside any comment. */
    method ParseLines(lines: seq<string>, read: NumberReader)
      modifies this
      ensures options == ParsedStore(old(options), lines, read)
      ensures currentSection == old(currentSection)
    {
      var section := "";
      var multiLineComment := false;
      ghost var goal := ParseAll(ParseState(options, section, multiLineComment), lines, read);
      for i := 0 to |lines|
        invariant ParseReaches(ParseState(options, section, multiLineComment), lines, i, read, goal)
        invariant currentSection == old(currentSection)
      {
        ParseStep(ParseState(options, section, multiLineComment), lines, i, read, goal);
        section, multiLineComment := ParseOne(lines[i], section, multiLineComment, read);
      }
      assert lines[|lines|..] == [];
    }

    /** The body of parseLines' loop, for one line. */
    method ParseOne(line: string, section: string, multiLineComment: bool, read: NumberReader)
      returns (section': string, multiLineComment': bool)
      modifies this
      ensures ParseState(options, section', multiLineComment') ==
        ParseLine(ParseState(old(options), section, multiLineComment), line, read)
      ensures currentSection == old(currentSection)
    {
      section', multiLineComment' := section, multiLineComment;
      var trimmed := StrLib.TrimWhitespace(line);
      ghost var st := ParseState(options, section, multiLineComment);
      assert ParseLine(st, line, read) == ParseTrimmed(st, trimmed, read);
      var text, commentType := StripComments(trimmed, multiLineComment);
      if commentType == Start {
        multiLineComment' := true;
      }
      if !multiLineComment' && text != "" {
        if IsSection(text) {
          section' := ParseSectionLine(text);
        } else {
          ParseOptionLine(text, section, read);
        }
      }
      if commentType == End {
        multiLineComment' := false;
      }
    }

    /** `parseSectionLine`: the text between the brackets becomes the section, which is created. */
    method ParseSectionLine(line: string) returns (section: string)
      requires |line| >= 2
      modifies this
      ensures section == line[1..|line| - 1]
      ensures options == TouchSection(old(options), section)
      ensures currentSection == old(currentSection)
    {
      section := line[1..|line| - 1];
      if section !in options {
        options := options[section := map[]];
      }
    }

    /** `parseOptionLine` */
    method ParseOptionLine(line: string, section: string, read: NumberReader)
      modifies this
      ensures options == OptionLine(old(options), section, line, read)
      ensures currentSection == old(currentSection)
    {
      var equalPos := StrLib.FindFrom(line, "=", 0);
      if equalPos.FoundAt? && equalPos.index >= 1 {
        var name := StrLib.TrimWhitespace(line[..equalPos.index]);
        var value := StrLib.TrimWhitespace(line[equalPos.index + 1..]);
        SetOption(name, section, value, read);
      }
    }

    /** The second half of parseOptionLine: strip quotes, get or create the option, assign, re-quote. */
    method SetOption(name: string, section: string, value: string, read: NumberReader)
      modifies this
      ensures options == StoreOption(old(options), section, name, value, read)
      ensures currentSection == old(currentSection)
    {
      var (text, trimmedQuotes) := StrLib.TrimQuotes(value);
      var option := Lookup(options, section, name);
      var (updated, optionSet) := OptionCell.SetStringFacets(option, text, read);
      option := updated;
      if trimmedQuotes {
        option := SetQuotes(option, true);
      }
      options := options[section := SectionOf(options, section)[name := option]];
    }

    /** `writeToString(str)`: appends the sections in key order, then drops one final newline. */
    method WriteToString(str: string) returns (res: string)
      ensures res == Written(str, options)
    {
      ghost var goal := str + Body(options);
      res := str;
      var keys := LexOrder.SortedKeys(options.Keys);
      LexOrder.SortedKeysMembers(options.Keys);
      for i := 0 to |keys|
        invariant WriteReaches(res, SectionsText(options, keys[i..]), goal)
      {
        var name := keys[i];
        assert name in keys;
        assert keys[i..][0] == name && keys[i..][1..] == keys[i + 1..];
        WriteStep(res, SectionText(name, options[name]), SectionsText(options, keys[i + 1..]), goal);
        res := WriteSection(res, name, options[name]);
      }
      assert keys[|keys|..] == [];
      if |res| > 0 && res[|res| - 1] == '\n' {
        res := res[..|res| - 1];
      }
    }

    /** `buildString`: what writeToString appends to an empty string. */
    method BuildString() returns (configStr: string)
      ensures configStr == Written("", options)
    {
      configStr := WriteToString("");
    }

    /** `operator()(name, section)`: the option, created as a default option if missing (returned as a copy). */
    method Get(name: string, section: string) returns (option: Facets)
      modifies this
      ensures options == TouchOption(old(options), section, name)
      ensures option == Lookup(old(options), section, name)
      ensures currentSection == old(currentSection)
    {
      option := Lookup(options, section, name);
      options := options[section := SectionOf(options, section)[name := option]];
    }

    /** `operator()(name)`: the same in the section in use. */
    method GetHere(name: string) returns (option: Facets)
      modifies this
      ensures options == TouchOption(old(options), old(currentSection), name)
      ensures option == Lookup(old(options), old(currentSection), name)
      ensures currentSection == old(currentSection)
    {
      option := Get(name, currentSection);
    }

    /** `getSection(section)`: the section, created empty if missing (returned as a copy). */
    method GetSection(section: string) returns (s: Section)
      modifies this
      ensures options == TouchSection(old(options), section)
      ensures s == SectionOf(old(options), section)
      ensures currentSection == old(currentSection)
    {
      s := SectionOf(options, section);
      options := options[section := s];
    }

    /** `getSection()`: the same for the section in use. */
    method GetSectionHere() returns (s: Section)
      modifies this
      ensures options == TouchSection(old(options), old(currentSection))
      ensures s == SectionOf(old(options), old(currentSection))
      ensures currentSection == old(currentSection)
    {
      s := GetSection(currentSection);
    }

    /** `optionExists(name, section)`: a lookup that creates nothing. */
    function OptionExists(name: string, section: string): (r: bool)
      reads this
      ensures r <==> HasOption(options, section, name)
    {
      section in options && name in options[section]
    }

    /** `optionExists(name)` in the section in use. */
    function OptionExistsHere(name: string): (r: bool)
      reads this
      ensures r <==> HasOption(options, currentSection, name)
    {
      OptionExists(name, currentSection)
    }

    /** `sectionExists(section)` */
    function SectionExists(section: string): (r: bool)
      reads this
      ensures r <==> section in options
    {
      section in options
    }

    /** `sectionExists()` for the section in use. */
    function SectionExistsHere(): (r: bool)
      reads this
      ensures r <==> currentSection in options
    {
      SectionExists(currentSection)
    }

    /** `eraseOption(name, section)` */
    method EraseOption(name: string, section: string) returns (status: bool)
      modifies this
      ensures (options, status) == ConfigText.EraseOption(old(options), section, name)
      ensures currentSection == old(currentSection)
    {
      status := false;
      if section in options {
        status := name in options[section];
        options := options[section := options[section] - {name}];
      }
    }

    /** `eraseOption(name)` in the section in use. */
    method EraseOptionHere(name: string) returns (status: bool)
      modifies this
      ensures (options, status) == ConfigText.EraseOption(old(options), old(currentSection), name)
      ensures currentSection == old(currentSection)
    {
      status := EraseOption(name, currentSection);
    }

    /** `eraseSection(section)` */
    method EraseSection(section: string) returns (status: bool)
      modifies this
      ensures (options, status) == ConfigText.EraseSection(old(options), section)
      ensures currentSection == old(currentSection)
    {
      status := section in options;
      options := options - {section};
    }

    /** `eraseSection()` for the section in use. */
    method EraseSectionHere() returns (status: bool)
      modifies this
      ensures (options, status) == ConfigText.EraseSection(old(options), old(currentSection))
      ensures currentSection == old(currentSection)
    {
      status := EraseSection(currentSection);
    }

    /** `setDefaultOptions(defaultOptions)` */
    method SetDefaultOptions(defaultOptions: ConfigMap)
      modifies this
      ensures options == WithDefaults(old(options), defaultOptions)
      ensures currentSection == old(currentSection)
    {
      options := map s | s in options.Keys + defaultOptions.Keys :: if s in options then options[s] else defaultOptions[s];
    }

    /** `useSection(section)`: only the section in use changes. */
    method UseSection(section: string)
      modifies this
      ensures currentSection == section && options == old(options)
    {
      currentSection := section;
    }

    /** `clear()`: every section goes; the section in use stays selected. */
    method Clear()
      modifies this
      ensures options == map[] && currentSection == old(currentSection)
    {
      options := map[];
    }
  }

  /** One pass of writeToString's outer loop: a section's header, its options in key order, a blank line. */
  method WriteSection(str: string, name: string, section: Section) returns (res: string)
    ensures res == str + SectionText(name, section)
  {
    ghost var goal := str + SectionText(name, section);
    var names := LexOrder.SortedKeys(section.Keys);
    HeaderStep(str, name, section, goal);
    res := str;
    if name != "" {
      res := res + ("[" + name + "]\n");
    }
    assert res == str + Header(name) && names[0..] == names;
    for j := 0 to |names|
      invariant WriteReaches(res, OptionsText(section, names[j..]) + "\n", goal)
    {
      var o := names[j];
      SortedKeyIn(section.Keys, j);
      var line := o + " = " + WithQuotes(section[o].str, section[o].quotes) + "\n";
      OptionStep(res, section, names, j, goal);
      res := res + line;
    }
    assert names[|names|..] == [];
    res := res + "\n";
  }

  /** Every key in the sorted order is a key of the map. */
  lemma {:induction false} SortedKeyIn(keys: set<string>, j: nat)
    requires j < |LexOrder.SortedKeys(keys)|
    ensures LexOrder.SortedKeys(keys)[j] in keys
  {
    LexOrder.SortedKeysMembers(keys);
    assert LexOrder.SortedKeys(keys)[j] in LexOrder.SortedKeys(keys);
  }

  /** The header starts a section's text. */
  lemma {:induction false} HeaderStep(str: string, name: string, section: Section, goal: string)
    requires goal == str + SectionText(name, section)
    ensures WriteReaches(str + Header(name), OptionsText(section, LexOrder.SortedKeys(section.Keys)) + "\n", goal)
  {
  }

  /** Writing the option at `j` keeps the inner loop state. */
  lemma {:induction false} OptionStep(res: string, s: Section, names: seq<string>, j: nat, goal: string)
    requires j < |names| && names[j] in s
    requires WriteReaches(res, OptionsText(s, names[j..]) + "\n", goal)
    ensures WriteReaches(res + OptionText(names[j], s[names[j]]), OptionsText(s, names[j + 1..]) + "\n", goal)
  {
    assert names[j..][0] == names[j] && names[j..][1..] == names[j + 1..];
    WriteStep(res, OptionText(names[j], s[names[j]]), OptionsText(s, names[j + 1..]) + "\n", goal);
  }
}
