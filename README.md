# config-file in Dafny

A model of the core of ayebear/config-file, a C++ reader and writer for
INI-style configuration text. It covers four parts:

- the string helpers of `strlib` (trimming, quote stripping, find and
  replace, split, line splitting, case folding, boolean words);
- the scalar option class `Option` of option.h and option.cpp. It holds one
  value as text, integer, decimal and boolean at once, with an optional range
  that gates every assignment;
- the array-capable `cfg::Option` of configoption.h and configoption.cpp;
- the `ConfigFile` class of configfile.cpp. Its store maps section names to
  sections, and sections map option names to options. It has the comment
  classifier, the line-by-line parser (`parseLines`), the writer
  (`writeToString`), the flat array codec (`splitArrayString` and
  `joinArrayString`) and the map operations.

Modules and files:

| file | module | models |
|---|---|---|
| strlib.dfy | `StrLib` | strlib.cpp |
| lex_order.dfy | `LexOrder` | the key order of `std::map<std::string, …>`, which fixes the order `writeToString` writes in |
| option_facets.dfy | `OptionFacets` | what both option classes share: the facets, the range, the numeric `operator=`, `toStringWithQuotes` |
| option.dfy | `OptionCell` | option.h and option.cpp: class `Option` |
| config_option.dfy | `CfgOption` | configoption.h and configoption.cpp: class `Option` with its child array |
| config_text.dfy | `ConfigText` | configfile.cpp as functions on values: comments, headers, option lines, the parse, the written text, the array codec, the map operations |
| config_file.dfy | `Config` | configfile.cpp: class `ConfigFile`, whose methods update the store in place and are proved against `ConfigText` |

Loops in the source are methods with loop invariants. Each such method is
proved equal to a specification function, and the properties are lemmas about
that function. This covers `trimWhitespace`, `stripNewLines`, `replaceAll`,
`split`, `toLower`, `getLinesFromString`, `getCommentType`, `parseLines`,
`writeToString`, `splitArrayString`, `joinArrayString` and
`buildArrayString`.

Objects whose fields the source updates in place are classes: both option
classes and `ConfigFile`. A string the source edits through a reference
(`trimWhitespace(str)`, `trimQuotes(str)`) is returned as a new value, paired
with the status flag when there is one.

A few choices are made throughout:

- `double` is `real` and `long` is `int`.
- `std::istringstream >> double` is a parameter, `read: NumberReader`. For a
  string it returns either no number, or the leading number's value and
  whether that number used up the whole string.
- The template `operator=(Type data)` takes the value and its
  `strlib::toString` rendering as inputs.

Where the format's written description and the code disagree, the model
follows the code:

- `writeToString` writes sections and options in `std::map` key order
  (`LexOrder.SortedKeys`), not in insertion order.
- The scalar `Option::setString` sets the quote flag exactly when no leading
  number parses. So `"true"` is quoted, while `"12abc"` is unquoted and keeps
  the value 12.
- `cfg::Option::setString` keeps the partially read number as its value when
  the text is not a whole number.
- configoption.h declares `setMin(double)`, `setMax(double)` and fields named
  `text`, `integer` and `boolean`. configoption.cpp defines
  `setRange(double)` instead and uses the fields `str`, `number`, `logical`
  and `range`. The model follows configoption.cpp and treats `setMin` as that
  `setRange(double)`.

## Model

| member | source | states |
|---|---|---|
| StrLib.FindFromSpec | strlib.cpp:50 | `find(pat, from)` reports an occurrence, the least one at or after `from`, and reports `npos` only when there is none |
| StrLib.TrimWhitespace | strlib.cpp:12-18 | the two loops (trailing whitespace popped, then leading whitespace erased) yield `Trim(s)` |
| StrLib.TrimEndDropsSpaces | strlib.cpp:14-15 | every character the first loop removes is whitespace |
| StrLib.TrimStartDropsSpaces | strlib.cpp:16-17 | every character the second loop removes is whitespace |
| StrLib.TrimKeepsCore | strlib.cpp:12-18 | the result is one contiguous slice of the input, everything around it is whitespace, and the result has no whitespace at either end |
| StrLib.TrimUnchanged | strlib.cpp:12-18 | a string with no whitespace at either end is left unchanged |
| StrLib.TrimIdempotent | strlib.cpp:12-18 | trimming twice equals trimming once |
| StrLib.TrimSpaced | strlib.cpp:12-18 | a trimmed string with one space added at either end trims back to itself |
| StrLib.TrimKeepsFirst | strlib.cpp:12-18 | a string starting with a non-space keeps that first character |
| StrLib.TrimKeepsPattern | strlib.cpp:12-18 | trimming neither creates nor destroys an occurrence of a pattern without whitespace (such as `*/`) |
| StrLib.TrimQuotes | strlib.cpp:20-34 | reports a change iff the string has at least two characters and they form a matching `"` or `'` pair; then exactly the first and last characters are removed, otherwise nothing is |
| StrLib.TrimQuotesOfQuoted | strlib.cpp:20-34 | trimQuotes undoes wrapping a string in double quotes |
| StrLib.Erased | strlib.cpp:41 | erase-remove of `c` leaves no `c` and keeps the count of every other character |
| StrLib.StripNewLines | strlib.cpp:36-43 | the result is the input with every CR erased and then every LF erased; it contains neither, and the count of every other character is unchanged |
| StrLib.ReplaceAll | strlib.cpp:45-58 | the loop's result and count equal `Replaced`: each occurrence found from the current position is replaced, and the search resumes after the inserted text |
| StrLib.ReplacedNothing | strlib.cpp:45-58 | the count is 0 iff the pattern does not occur, and then the string is unchanged |
| StrLib.ReplacedLength | strlib.cpp:45-58 | the length changes by count × (replacement length − pattern length) |
| StrLib.ReplacedDoesNotRescan | strlib.cpp:53-54 | inserted text is not searched again: one pass over CR CR LF replacing CRLF by LF gives CR LF, with count 1 |
| StrLib.ReplacedRemovesChar | strlib.cpp:45-58 | replacing a one-character pattern by text that does not contain it removes that character entirely |
| StrLib.SplitInto | strlib.cpp:60-74 | the loop appends exactly `Split(inStr, delim, allowEmpty)` to the output vector |
| StrLib.SplitFromClean | strlib.cpp:60-74 | no piece contains the delimiter, and no piece is empty unless `allowEmpty` |
| StrLib.SplitAvoidsChar | strlib.cpp:60-74 | a piece lacks every character the input lacks |
| StrLib.SplitJoin | strlib.cpp:60-74 | with empty pieces allowed, split by a one-character delimiter undoes joining, provided no part contains the delimiter and the last part is not empty |
| StrLib.JoinSplit | strlib.cpp:60-74 | the converse round trip: with empty pieces allowed, joining the pieces that split by a one-character delimiter returns gives back the string, provided it is non-empty and does not end with the delimiter |
| StrLib.JoinSnoc | strlib.cpp:60-74 | joining one more part adds the separator and that part (the inverse partner of split) |
| StrLib.CrLfToLfClean | strlib.cpp:108 | once the repeated CRLF → LF replacement stops, no CRLF is left |
| StrLib.GetLinesFromString | strlib.cpp:105-112 | appends `Lines(inStr, allowEmpty)`: the text with CRLF and then lone CR turned into LF, split on LF |
| StrLib.LinesAreClean | strlib.cpp:105-112 | no line contains CR or LF, and no line is empty unless allowed |
| StrLib.LinesOfJoined | strlib.cpp:105-112 | getLinesFromString undoes joining lines with LF when no line holds CR or LF and the last line is not empty |
| StrLib.LinesOfUnlines | strlib.cpp:105-112 | getLinesFromString of lines each ended by LF gives back exactly the non-empty lines, in order, when no line holds CR or LF |
| StrLib.ToLower | strlib.cpp:76-82 | the in-place loop gives `Lowered(s)`: same length, each character mapped by C-locale `tolower` |
| StrLib.BoolWords | strlib.cpp:148-159 | strToBool holds exactly for "true" in any ASCII case, isBool for "true" or "false" in any case; strToBool implies isBool |
| StrLib.MustEndWith | strlib.cpp:92-103 | as written: it appends and returns false exactly when the string is shorter than the ending or already ends with it; otherwise it returns true and leaves the string |
| StrLib.MustEndWithInverted | strlib.cpp:97 | "a.cfg" with ".cfg" becomes "a.cfg.cfg", while "a.txt" is left without ".cfg" and reported as ending with it |
| StrLib.MustEndWithIntended | strlib.h:22 | corrected: the result always ends with the ending, the status says whether it already did, and the text is appended only when it did not |
| LexOrder.LessIrreflexive | configfile.h:38-39 | `std::less<std::string>` is irreflexive |
| LexOrder.LessAsymmetric | configfile.h:38-39 | the key order is asymmetric |
| LexOrder.LessTransitive | configfile.h:38-39 | the key order is transitive |
| LexOrder.LessTotal | configfile.h:38-39 | any two different keys are ordered one way or the other |
| LexOrder.EmptyFirst | configfile.h:38-39 | the empty key precedes every other key |
| LexOrder.LeastExists | configfile.h:38-39 | every non-empty key set has a least key |
| LexOrder.SortedKeysFirst | configfile.h:38-39 | iteration starts at the least key, then continues with the rest |
| LexOrder.SortedKeysMembers | configfile.h:38-39 | iteration visits exactly the map's keys |
| LexOrder.SortedKeysAscending | configfile.h:38-39 | iteration order is strictly ascending, so each key is visited once |
| LexOrder.EmptyKeyFirst | configfile.cpp:74-77 | the default section `""` is visited, and so written, first |
| OptionFacets.Trunc | option.cpp:48 | `number = decimal` truncates toward zero: the result is within 1 of the decimal, on the zero side |
| OptionFacets.Candidate | option.cpp:43-44 | the value the range check sees is 0 when no number is read |
| OptionFacets.RangeSettersDecide | option.cpp:108-128 | after removeRange every number is in range; after setRange(min) exactly those ≥ min; after setRange(min, max) exactly those in [min, max] |
| OptionFacets.SettersKeepValue | option.cpp:98-121 | the range setters and setQuotes never touch or re-check the stored value |
| OptionFacets.AssignNumberAllOrNothing | option.h:71-85 | numeric `operator=` succeeds iff the value is in range; on failure nothing changes; on success every facet holds the number, without quotes; the range never changes |
| OptionFacets.AssignNumberUnranged | option.h:71-85 | without a range, numeric assignment always succeeds |
| OptionFacets.WithQuotesRoundTrip | option.cpp:62-66 | trimQuotes undoes toStringWithQuotes when the quote flag is set; unquoted text that is not itself quote-wrapped comes back unchanged |
| OptionFacets.SettersKeepCoherent | option.cpp:98-121 | every setter and numeric assignment keeps the integer facet equal to the truncated decimal |
| OptionCell.SetStringAllOrNothing | option.cpp:40-55 | setString succeeds iff the leading number (0 if none) is in range; on failure nothing changes; the range never changes |
| OptionCell.SetStringStores | option.cpp:40-55 | a successful setString keeps the text as given and stores the leading number in both numeric facets; the quote flag is set iff no number parsed; non-numbers get value 0 and a boolean from strToBool |
| OptionCell.TextCheckedAsZero | option.cpp:42-45 | text with no number is range-checked as 0, so a range excluding 0 rejects it |
| OptionCell.SetStringUnranged | option.cpp:40-55 | without a range, setString always succeeds |
| OptionCell.AssignKeepsCoherent | option.cpp:30-55 | every `operator=` keeps the integer facet equal to the truncated decimal |
| OptionCell.ResetClears | option.cpp:24-28 | reset leaves the value 0 (text "0"), no quotes and no range |
| OptionCell.FromStringTakesData | option.cpp:16-22 | the string constructor always takes its argument as the text, with no range |
| OptionCell.MakeUnchecked | option.h:103-119 | the factories never range-check the initial value, which stays even when the new range excludes it |
| OptionCell.MakeIsAssign | option.h:95-101 | makeOption(data) has no range and its assignment always succeeds |
| OptionCell.Option.constructor | option.cpp:6-14 | a default option: empty text, zeros, false, no quotes, no range |
| OptionCell.Option.FromText | option.cpp:16-22 | the fields are those of `FromString(data)` |
| OptionCell.Option.Reset | option.cpp:24-28 | the new fields are `ResetFacets` of the old ones |
| OptionCell.Option.SetString | option.cpp:40-55 | the new fields and the result are `SetStringFacets` of the old fields |
| OptionCell.Option.AssignNumber | option.h:71-85 | the new fields and the result are `AssignNumber` of the old fields |
| OptionCell.Option.ToStringWithQuotes | option.cpp:62-66 | the text, wrapped in `"` iff the quote flag is set |
| OptionCell.Option.SetQuotes | option.cpp:98-101 | only the quote flag changes |
| OptionCell.Option.HasQuotes | option.cpp:103-106 | returns the quote flag |
| OptionCell.Option.SetMin | option.cpp:108-112 | installs a lower bound and nothing else |
| OptionCell.Option.SetRange | option.cpp:114-119 | installs both bounds and nothing else |
| OptionCell.Option.RemoveRange | option.cpp:121 | clears the range kind and nothing else |
| OptionCell.MakeOption | option.h:95-101 | a fresh option holding `Make(data)` |
| OptionCell.MakeOptionMin | option.h:103-110 | a fresh option, assigned first, then given the lower bound |
| OptionCell.MakeOptionRange | option.h:112-119 | a fresh option, assigned first, then given both bounds |
| CfgOption.SetStringAllOrNothing | configoption.cpp:56-75 | setString succeeds iff the value read (0 if none) is in range; on failure nothing changes; the range never changes |
| CfgOption.SetStringQuoting | configoption.cpp:56-75 | corrected rule: whole numbers and true/false in any case are unquoted and everything else is quoted; a number followed by more text keeps its value, with a boolean from strToBool |
| CfgOption.WholeNumberNeverSeen | configoption.cpp:62 | as written, every non-empty text except true/false is quoted and takes its boolean from strToBool: "1" is stored quoted and false, where the corrected rule stores it unquoted and true |
| CfgOption.AsWrittenIgnoresWhole | configoption.cpp:56-75 | for non-empty text, the rule as written is the corrected rule under a number reader that never reports a whole-text number |
| CfgOption.SizeOf | configoption.cpp:175-178 | size is 0 when no array is allocated |
| CfgOption.PushAppends | configoption.cpp:151-157 | push appends exactly the given child and returns it; earlier children and the option's own facets are untouched |
| CfgOption.PopUndoesPush | configoption.cpp:159-163 | pop undoes push, though the array stays allocated; with no children it does nothing |
| CfgOption.ClearKeepsFacets | configoption.cpp:180-183 | clear drops every child and keeps the option's own facets |
| CfgOption.ResetClears | configoption.cpp:21-27 | reset leaves the value 0, no quotes, no range and no children |
| CfgOption.AppendInOrder | configoption.h:157-162 | chained `<<` appends the data in order, each as a leaf child |
| CfgOption.AppendAlwaysAssigns | configoption.h:157-162 | assigning to the freshly pushed child always succeeds |
| CfgOption.ItemsTextJoins | configoption.cpp:222-228 | after the loop, the text is the children's indented lines joined by ",\n", with no separator after the last |
| CfgOption.ArrayTextShape | configoption.cpp:213-234 | an array, empty or not, renders as `{`, its children's lines joined by ",\n", a newline, the indentation and `}`; an allocated array with no children (as push then pop leaves it) is `{`, two newlines, the indentation and `}` |
| CfgOption.BuildArrayText | configoption.cpp:213-234 | the recursive loop builds `ArrayText(v, indent)` |
| CfgOption.Option.constructor | configoption.h:21 | a default option with no array |
| CfgOption.Option.FromText | configoption.cpp:11-14 | setString of the text on a default option |
| CfgOption.Option.Copy | configoption.cpp:16-19 | a deep copy, children included |
| CfgOption.Option.CopyAssign | configoption.cpp:39-54 | every field, and the children or none, equal the source option's |
| CfgOption.Option.Reset | configoption.cpp:21-27 | the new value is `ResetValue` of the old |
| CfgOption.Option.SetString | configoption.cpp:56-75 | the facets and result are the corrected `SetStringFacets`; the children are kept |
| CfgOption.Option.AssignNumber | configoption.h:104-118 | the facets and result are `AssignNumber`; the children are kept |
| CfgOption.Option.ToStringWithQuotes | configoption.cpp:82-86 | the text, wrapped in `"` iff the quote flag is set |
| CfgOption.Option.SetQuotes | configoption.cpp:123-126 | only the quote flag changes |
| CfgOption.Option.HasQuotes | configoption.cpp:128-131 | returns the quote flag |
| CfgOption.Option.SetMin | configoption.cpp:133-137 | installs a lower bound and nothing else |
| CfgOption.Option.SetRange | configoption.cpp:139-144 | installs both bounds and nothing else |
| CfgOption.Option.RemoveRange | configoption.cpp:146-149 | clears the range kind and nothing else |
| CfgOption.Option.Push | configoption.cpp:151-157 | the new value and the returned child are `PushValue` |
| CfgOption.Option.Pop | configoption.cpp:159-163 | the new value is `PopValue` |
| CfgOption.Option.At | configoption.cpp:165-168 | returns the child at `pos` |
| CfgOption.Option.Back | configoption.cpp:170-173 | returns the last child |
| CfgOption.Option.Size | configoption.cpp:175-178 | the number of children, 0 without an array |
| CfgOption.Option.Clear | configoption.cpp:180-183 | releases the array and nothing else |
| CfgOption.Option.Append | configoption.h:157-162 | the new value is `AppendValue`: a default child is pushed, then assigned the datum |
| CfgOption.Option.BuildArrayString | configoption.cpp:213-234 | returns `ArrayText` of the option |
| CfgOption.MakeOption | configoption.h:131-137 | a fresh option holding the datum, without array or range |
| CfgOption.MakeOptionMin | configoption.h:139-146 | a fresh option, assigned first, then given the lower bound |
| CfgOption.MakeOptionRange | configoption.h:148-155 | a fresh option, assigned first, then given both bounds |
| ConfigText.PrefixTypeCases | configfile.cpp:268-282 | the symbol loop finds Start exactly for `/*` and Single exactly for `//`, `#`, `::` or `;` (without `/*`), and never End |
| ConfigText.IsEndCommentOccurs | configfile.cpp:260-263 | isEndComment holds iff `*/` occurs somewhere in the line |
| ConfigText.CommentTypeCases | configfile.cpp:265-289 | End iff a block is open and the line holds `*/`; Start iff the line starts with `/*` and holds no `*/`; Single iff another symbol leads, or `/*…*/` appears outside a block; otherwise NoComment |
| ConfigText.GetCommentType | configfile.cpp:265-289 | the symbol-table loop returns `CommentTypeOf(str, checkEnd)` |
| ConfigText.Stripped | configfile.cpp:291-297 | the line is emptied exactly when it is a single-line comment |
| ConfigText.StripComments | configfile.cpp:291-297 | returns `Stripped(str, checkEnd)` |
| ConfigText.SectionName | configfile.cpp:232 | the section name is two characters shorter than its header |
| ConfigText.SectionNameRoundTrip | configfile.cpp:225-234 | headers and names correspond one to one: `[` + name + `]` is a header naming exactly that text |
| ConfigText.BracketIsNoComment | configfile.cpp:265-289 | a line starting with `[` is never a comment (it can only close a block) |
| ConfigText.Lookup | configfile.cpp:109-112 | a missing section or option reads as a default option |
| ConfigText.TouchSectionSpec | configfile.cpp:150-153 | `options[section]` creates the section, empty, iff it is missing, and changes nothing else |
| ConfigText.TouchOptionSpec | configfile.cpp:109-112 | `options[section][name]` makes the option exist, keeps an existing one, creates a missing one as a default option, and changes no other entry |
| ConfigText.OptionPartsSpec | configfile.cpp:238-247 | a line is ignored iff it has no `=` or starts with `=`; otherwise the name is the trimmed text before the first `=` and holds no `=`, and the value is the trimmed text after it |
| ConfigText.OptionNameShape | configfile.cpp:238-247 | in a trimmed line, an option name is non-empty, holds no `=` and has no whitespace at either end |
| ConfigText.StoreOptionSpec | configfile.cpp:249-254 | storing a value creates the option if needed and changes nothing else; on an accepted value the option holds the unquoted text; on a rejected one it keeps its old value and range; either way the quote flag is forced on if quotes were stripped |
| ConfigText.ParseAllAppend | configfile.cpp:204-222 | parsing two runs of lines in turn equals parsing them joined |
| ConfigText.SkippedLine | configfile.cpp:206-212 | outside a block, a blank line or single-line comment changes nothing |
| ConfigText.OpeningLine | configfile.cpp:207-210 | a line opening a block comment adds nothing and opens the block |
| ConfigText.LineInBlock | configfile.cpp:207-221 | inside a block a line adds nothing, and it closes the block iff it holds `*/` |
| ConfigText.BlockBodyAddsNothing | configfile.cpp:204-222 | lines without `*/` inside a block add nothing and keep it open |
| ConfigText.BlockCommentAddsNothing | configfile.cpp:204-222 | a whole block comment (opening line, body, closing line) leaves the store, the section and the comment state as they were |
| ConfigText.HeaderLine | configfile.cpp:212-215 | outside a block, a header switches to its section and creates it if missing; `[]` switches back to `""` |
| ConfigText.AssignmentLine | configfile.cpp:212-217 | outside a block, a non-blank, non-comment, non-header line is an option line for the current section |
| ConfigText.ParseLineGrows | configfile.cpp:204-222 | one line never removes a section or an option |
| ConfigText.ParseAllGrows | configfile.cpp:199-223 | parseLines, and so loadFromString, only ever adds sections and options |
| ConfigText.DropFinalNewline | configfile.cpp:82-83 | exactly one final newline is removed if there is one; otherwise the text is unchanged |
| ConfigText.SectionsTextEnds | configfile.cpp:74-81 | the text of one or more sections ends with a newline |
| ConfigText.BodyEnds | configfile.cpp:74-81 | the text of a non-empty store ends with a newline |
| ConfigText.WrittenSpec | configfile.cpp:72-84 | for a non-empty store, writeToString appends every section and takes back exactly the final newline; for an empty store it still drops a newline that ends the given string |
| ConfigText.DefaultSectionFirst | configfile.cpp:74-77 | the default section is written first and without a header |
| ConfigText.EmptySectionWritten | configfile.cpp:76-80 | a section with no options is still written: its header and a blank line |
| ConfigText.OptionTextParts | configfile.cpp:79 | the line written for an option splits back into the same name and the written value, and trimQuotes gives back the text and quote flag |
| ConfigText.SpacedAssignment | configfile.cpp:238-247 | `name = value`, as written, splits back into that name and value |
| ConfigText.WrittenLineParses | configfile.cpp:212-217 | the line written for an option, parsed outside a comment, assigns the written value to that name in the current section, an empty value included |
| ConfigText.OptionLineStores | configfile.cpp:212-217 | a written option line is, to the parser, an assignment of its value, an empty value included |
| ConfigText.EmptyValueLine | configfile.cpp:206-217 | the line `name = ` written for an empty unquoted text is trimmed to `name =`, which the parser still reads as an assignment of the empty text to that name |
| ConfigText.EmptyValueTrimmed | configfile.cpp:238-247 | `name = ` trims to `name =`, which is no header and whose first `=` splits it into the name and the empty value |
| ConfigText.StoredReadBack | configfile.cpp:249-254 | storing the written value gives back the option's text; the quote flag comes back set iff it was set or the text is no number; an empty unquoted text is included |
| ConfigText.OptionLineReadBack | configfile.cpp:236-254 | a written option line, parsed outside a comment, stores the option's text under its name in the current section, with the quote flag as above |
| ConfigText.HeaderReadBack | configfile.cpp:225-234 | a written header, parsed outside a comment, switches to that section and creates it if missing |
| ConfigText.WrittenLines | configfile.cpp:72-84 | the text written from a non-empty store is its lines, each ended by LF, where the lines are every section's header, option lines and blank line, with the last blank line's LF removed |
| ConfigText.BlankLine | configfile.cpp:206-222 | an empty line changes nothing: no comment starts or ends and nothing is parsed |
| ConfigText.ParseNonBlank | configfile.cpp:199-223 | parsing only the non-empty lines gives the same state as parsing all of them |
| ConfigText.OptionsReadBack | configfile.cpp:78-79 | a section's written option lines, parsed outside a comment, store every option of the section with its text and the read-back quote flag, stay in the section and change no other option |
| ConfigText.SectionReadBack | configfile.cpp:74-81 | a written section, parsed outside a comment, switches to it, creates it when named, reads back each of its options and keeps every option of the other sections |
| ConfigText.BodyReadBack | configfile.cpp:74-81 | the written sections in key order, parsed from the default section, create every named section, read back every option and keep every option of the sections not written |
| ConfigText.WrittenStoreReadBack | configfile.cpp:57-84 | loading the text written from a store gives back every option of every section, with the same text and the read-back quote flag, and every section except the default one |
| ConfigText.TerminatedJoin | configfile.cpp:321-325 | the loop's "element," sequence is the elements joined by commas plus one final comma, which the code pops |
| ConfigText.ArrayRoundTrip | configfile.cpp:299-328 | splitArrayString undoes joinArrayString when no element holds a comma, has surrounding whitespace or is quote-wrapped, and the last is non-empty |
| ConfigText.ArrayStringEmpty | configfile.cpp:318-328 | no elements encode as `{}`, which decodes to no elements |
| ConfigText.SplitArrayString | configfile.cpp:299-316 | the loop returns `ArrayElems(str)`: the optional outer braces removed, split on commas, each piece trimmed and stripped of one quote pair |
| ConfigText.JoinArrayString | configfile.cpp:318-328 | returns `{`, the elements joined by commas, `}` |
| ConfigText.EraseOptionSpec | configfile.cpp:170-177 | true iff the option existed; afterwards it does not; every other option is unchanged; no section is added or removed |
| ConfigText.EraseSectionSpec | configfile.cpp:184-187 | true iff the section existed; afterwards it does not; every other section is unchanged |
| ConfigText.WithDefaultsSpec | configfile.cpp:130-133 | missing sections are added whole, existing sections are never merged into, and applying the same defaults again changes nothing |
| Config.ConfigFile.constructor | configfile.cpp:9-12 | an empty store with the default section in use |
| Config.ConfigFile.FromDefaults | configfile.cpp:21-26 | the store is the defaults |
| Config.ConfigFile.LoadFromString | configfile.cpp:57-62 | the store becomes `LoadedStore`: the text's non-empty lines parsed from section `""`; the section in use is kept |
| Config.ConfigFile.ParseLines | configfile.cpp:199-223 | the loop's store equals `ParsedStore` of the old store and the lines |
| Config.ConfigFile.ParseOne | configfile.cpp:206-221 | one pass of the loop body is `ParseLine` |
| Config.ConfigFile.ParseSectionLine | configfile.cpp:230-234 | the section is the text between the brackets, and it is created if missing |
| Config.ConfigFile.ParseOptionLine | configfile.cpp:236-258 | the store becomes `OptionLine` of the old store |
| Config.ConfigFile.SetOption | configfile.cpp:249-254 | the store becomes `StoreOption` of the old store |
| Config.ConfigFile.WriteToString | configfile.cpp:72-84 | the result is `Written(str, options)` |
| Config.ConfigFile.BuildString | configfile.cpp:86-91 | the result is `Written("", options)` |
| Config.WriteSection | configfile.cpp:76-80 | one pass of the outer loop appends the section's header, its options in key order and a blank line |
| Config.ConfigFile.Get | configfile.cpp:109-112 | returns the option, or a default one, and creates it if missing |
| Config.ConfigFile.GetHere | configfile.cpp:114-117 | the same in the section in use |
| Config.ConfigFile.GetSection | configfile.cpp:150-153 | returns the section, or an empty one, and creates it if missing |
| Config.ConfigFile.GetSectionHere | configfile.cpp:155-158 | the same for the section in use |
| Config.ConfigFile.OptionExists | configfile.cpp:119-123 | true iff the section exists and holds the option; creates nothing |
| Config.ConfigFile.OptionExistsHere | configfile.cpp:125-128 | the same in the section in use |
| Config.ConfigFile.SectionExists | configfile.cpp:160-163 | true iff the section exists |
| Config.ConfigFile.SectionExistsHere | configfile.cpp:165-168 | the same for the section in use |
| Config.ConfigFile.EraseOption | configfile.cpp:170-177 | the store and result are `EraseOption` |
| Config.ConfigFile.EraseOptionHere | configfile.cpp:179-182 | the same in the section in use |
| Config.ConfigFile.EraseSection | configfile.cpp:184-187 | the store and result are `EraseSection` |
| Config.ConfigFile.EraseSectionHere | configfile.cpp:189-192 | the same for the section in use |
| Config.ConfigFile.SetDefaultOptions | configfile.cpp:130-133 | the store becomes `WithDefaults` of the old store |
| Config.ConfigFile.UseSection | configfile.cpp:135-138 | only the section in use changes |
| Config.ConfigFile.Clear | configfile.cpp:194-197 | the store is emptied; the section in use stays selected |

## Left out

- File I/O: `loadFromFile`, `writeToFile`, the file-name constructors, the autosaving destructor, `readLinesFromFile` and `writeStringToFile`. Loading starts from text and writing ends with text.
- Console warnings and the settings that control them: `setShowWarnings`, `setAutosave`, `resetSettings`. They only affect output the model does not produce.
- Iterators: `begin`, `end`, `cbegin` and `cend` of both classes. The model exposes the store and the child array as values.
- Reading a number with `std::istringstream` and rendering one with `strlib::toString`. These are parameters: `NumberReader`, and the `shown` text of a numeric datum.
- The getters `toString`, `toInt`, `toDouble` and `toBool` and the string conversion operator (option.cpp:57-91, configoption.cpp:77-121). They return the stored `str`, `number`, `decimal` and `logical` fields unchanged, and the model exposes those fields directly as the option's facets. `toLong`, `toFloat` and `toChar` cast `number` or `decimal` to `long`, `float` or `char`, and `to<Type>` casts `decimal` to any type. The model does not represent those C++ conversions.
- Config.ConfigFile.Get: returns a copy, not a reference. Writes a caller makes through the returned reference are not modelled.
- Config.ConfigFile.GetHere: returns a copy, not a reference. Writes a caller makes through the returned reference are not modelled.
- Config.ConfigFile.GetSection: returns a copy, not a reference. Writes a caller makes through the returned reference are not modelled.
- Config.ConfigFile.GetSectionHere: returns a copy, not a reference. Writes a caller makes through the returned reference are not modelled.
- CfgOption.Option.Push: returns a copy, not a reference. Writes a caller makes through the returned reference are not modelled.
- CfgOption.Option.At: returns a copy, not a reference. Writes a caller makes through the returned reference are not modelled.
- CfgOption.Option.Back: returns a copy, not a reference. Writes a caller makes through the returned reference are not modelled.
- ConfigText.WrittenStoreReadBack: states that every written option and every named section comes back, not that the loaded store holds nothing else. It requires single-line section and option names and texts, plain option names and values that read back, because other texts are written in a form the parser reads differently.
- CfgOption.Option.Append: takes text or a number only. `operator<<` is a template, and with a whole `cfg::Option` argument its `push() = data` copy-assigns that option, range and children included. The model reaches that state through CfgOption.Option.Push with the option's value instead.
- Config.ConfigFile.ParseSectionLine: requires two characters. Its only caller, `parseLines`, calls it only after `isSection`.
- StrLib.ReplaceAll, StrLib.SplitInto: require a non-empty pattern or delimiter. With an empty one the source never terminates.
- CfgOption.Option.At, CfgOption.Option.Back: require an allocated array and a valid index. The source's behaviour is undefined otherwise.
- `cfg::Option::setMax` is declared but defined nowhere, so it is not modelled. `setMin` is modelled as the `setRange(double)` that configoption.cpp defines.
- OptionCell.Option.constructor: the source leaves the range bounds uninitialised; the model starts them at 0. This cannot be observed, because the range kind is NoRange.
- StrLib.ReplaceAll: the `unsigned` count and `size_t` positions are unbounded integers. Wrap-around past 2^32 replacements is not modelled.
- Config.ConfigFile.SetDefaultOptions: `std::map::insert` of a range is one map comprehension, not a loop over the defaults.

## Findings

| source | as written | input that shows it | evidently intended | confidence | as-written member | corrected member |
|---|---|---|---|---|---|---|
| strlib.cpp:97 | `!str.compare(...)` is true when the string already ends with the suffix, so the suffix is appended then, and omitted when it is missing | `mustEndWith("a.cfg", ".cfg")` gives "a.cfg.cfg"; `mustEndWith("a.txt", ".cfg")` leaves "a.txt" and returns true | append the suffix only when it is missing, and return whether it was already there | high; not executed | StrLib.MustEndWithInverted | StrLib.MustEndWithIntended |
| configoption.cpp:62 | `stream.gcount()` counts only unformatted input, so after `stream >> value` it is 0 and `success` is false for every non-empty text | `setString("1")` stores quote flag true and boolean false | success iff a number used up the whole text: "1" unquoted and true | high; not executed | CfgOption.WholeNumberNeverSeen | CfgOption.SetStringQuoting |
