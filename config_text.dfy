/**
 * What configfile.cpp does to a configuration, as functions on values: the
 * comment classifier, section headers, option lines, the line-by-line parse,
 * the text writeToString produces, the array-string codec and the map
 * operations behind optionExists, eraseOption, setDefaultOptions and the
 * rest.  The class in config_file.dfy is proved against these.
 *
 * The store is `std::map<string, std::map<string, Option>>`; an Option is
 * held by value, so a section maps names to the option's facets.
 */
module ConfigText {
  import StrLib
  import LexOrder
  import opened OptionFacets
  import OptionCell

  /** `ConfigFile::Section` */
  type Section = map<string, Facets>

  /** `ConfigFile::ConfigMap` */
  type ConfigMap = map<string, Section>

  // ---------------------------------------------------------------------------
  // Comments

  /** `ConfigFile::Comment` */
  datatype Comment = NoComment | Single | Start | End

  /** The comment symbols, in the order getCommentType tries them. */
  const Symbols: seq<string> := ["/*", "//", "#", "::", ";"]

  /** The comment type of each symbol. */
  const Types: seq<Comment> := [Start, Single, Single, Single, Single]

  /** `s.compare(0, p.size(), p) == 0` */
  predicate StartsWith(s: string, p: string) {
    |p| <= |s| && s[..|p|] == p
  }

  /** The type of the first symbol from index `i` on that `s` starts with. */
  function PrefixTypeFrom(s: string, i: nat): (r: Comment)
    requires i <= |Symbols|
    decreases |Symbols| - i
  {
    if i == |Symbols| then NoComment
    else if StartsWith(s, Symbols[i]) then Types[i]
    else PrefixTypeFrom(s, i + 1)
  }

  /** `s` starts with one of the single-line comment symbols. */
  predicate SinglePrefix(s: string) {
    StartsWith(s, "//") || StartsWith(s, "#") || StartsWith(s, "::") || StartsWith(s, ";")
  }

  // The comment type the symbol loop finds: Start for `/*`, Single for the
  // other symbols, NoComment when `s` starts with none of them.
  lemma {:induction false} PrefixTypeCases(s: string)
    ensures PrefixTypeFrom(s, 0) == Start <==> StartsWith(s, "/*")
    ensures PrefixTypeFrom(s, 0) == Single <==> !StartsWith(s, "/*") && SinglePrefix(s)
    ensures PrefixTypeFrom(s, 0) != End
  {
    assert PrefixTypeFrom(s, 4) == (if StartsWith(s, ";") then Single else NoComment);
    assert PrefixTypeFrom(s, 3) == (if StartsWith(s, "::") then Single else PrefixTypeFrom(s, 4));
    assert PrefixTypeFrom(s, 2) == (if StartsWith(s, "#") then Single else PrefixTypeFrom(s, 3));
    assert PrefixTypeFrom(s, 1) == (if StartsWith(s, "//") then Single else PrefixTypeFrom(s, 2));
  }

  /** `isEndComment`: the text holds the block-comment end symbol. */
  predicate IsEndComment(s: string) {
    StrLib.Contains(s, "*/")
  }

  // isEndComment holds exactly when `*/` occurs somewhere in the text.
  lemma {:induction false} IsEndCommentOccurs(s: string)
    ensures IsEndComment(s) <==> exists j: nat :: StrLib.OccursAt(s, "*/", j)
  {
    StrLib.FindFromSpec(s, "*/", 0);
  }

  // `getCommentType(str, checkEnd)`: End for a line holding `*/` while a block
  // is open; otherwise the type of its leading symbol, with a line that both
  // opens and closes a block read as a single-line comment.
  function CommentTypeOf(s: string, checkEnd: bool): (r: Comment) {
    if checkEnd && IsEndComment(s) then End
    else
      var t := PrefixTypeFrom(s, 0);
      if !checkEnd && t == Start && IsEndComment(s) then Single else t
  }

  // The comment type, case by case: End iff a block is open and the line
  // holds `*/`; Start iff the line starts with `/*` and holds no `*/` (open
  // block or not); Single iff it starts with another comment symbol, or with
  // `/*` and holds `*/` while no block is open.
  lemma {:induction false} CommentTypeCases(s: string, checkEnd: bool)
    ensures CommentTypeOf(s, checkEnd) == End <==> checkEnd && IsEndComment(s)
    ensures CommentTypeOf(s, checkEnd) == Start <==> StartsWith(s, "/*") && !IsEndComment(s)
    ensures CommentTypeOf(s, checkEnd) == Single <==>
      !(checkEnd && IsEndComment(s)) && (SinglePrefix(s) || (StartsWith(s, "/*") && IsEndComment(s)))
    ensures CommentTypeOf(s, checkEnd) == NoComment <==>
      !(checkEnd && IsEndComment(s)) && !SinglePrefix(s) && !StartsWith(s, "/*")
  {
    PrefixTypeCases(s);
    if StartsWith(s, "/*") {
      assert s[..1] == "/" && s[1] == '*';
      assert !StartsWith(s, "//") && !StartsWith(s, "#") && !StartsWith(s, "::") && !StartsWith(s, ";");
    }
  }

  /** `getCommentType`, with its loop over the symbol table. */
  method GetCommentType(str: string, checkEnd: bool) returns (commentType: Comment)
    ensures commentType == CommentTypeOf(str, checkEnd)
  {
    commentType := NoComment;
    if checkEnd && IsEndComment(str) {
      commentType := End;
    }
    var i := 0;
    while commentType == NoComment && i < |Symbols|
      invariant i <= |Symbols|
      invariant commentType == NoComment ==> !(checkEnd && IsEndComment(str)) && PrefixTypeFrom(str, i) == PrefixTypeFrom(str, 0)
      invariant commentType != NoComment ==>
        commentType == if checkEnd && IsEndComment(str) then End else PrefixTypeFrom(str, 0)
      decreases |Symbols| - i
    {
      if |Symbols[i]| <= |str| && str[..|Symbols[i]|] == Symbols[i] {
        commentType := Types[i];
      }
      i := i + 1;
    }
    if !checkEnd && commentType == Start && IsEndComment(str) {
      commentType := Single;
    }
  }

  /** `stripComments`: the line, emptied when it is a single-line comment, and its type. */
  function Stripped(s: string, checkEnd: bool): (r: (string, Comment))
    ensures r.1 == CommentTypeOf(s, checkEnd)
    ensures r.1 == Single ==> r.0 == ""
    ensures r.1 != Single ==> r.0 == s
  {
    var t := CommentTypeOf(s, checkEnd);
    (if t == Single then "" else s, t)
  }

  /** `stripComments` */
  method StripComments(str: string, checkEnd: bool) returns (res: string, commentType: Comment)
    ensures (res, commentType) == Stripped(str, checkEnd)
  {
    res := str;
    commentType := GetCommentType(str, checkEnd);
    if commentType == Single {
      res := "";
    }
  }

  // ---------------------------------------------------------------------------
  // Section headers

  /** `isSection`: at least two characters, `[` first and `]` last. */
  predicate IsSection(s: string) {
    |s| >= 2 && s[0] == '[' && s[|s| - 1] == ']'
  }

  /** The section a header names: the text between the brackets, as it is. */
  function SectionName(s: string): (r: string)
    requires IsSection(s)
    ensures |r| + 2 == |s|
  {
    s[1..|s| - 1]
  }

  /**
   * Headers and names correspond one to one: every header is `[` + its
   * name + `]`, and `[` + any text + `]` is a header naming that text.
   */
  lemma {:induction false} SectionNameRoundTrip(s: string, name: string)
    ensures IsSection(s) ==> "[" + SectionName(s) + "]" == s
    ensures IsSection("[" + name + "]") && SectionName("[" + name + "]") == name
  {
    if IsSection(s) {
      assert ("[" + SectionName(s) + "]")[1..|s| - 1] == SectionName(s);
    }
    var h := "[" + name + "]";
    assert h[1..|h| - 1] == name;
  }

  /** No line starting with `[` is a comment, so no header is one. */
  lemma {:induction false} BracketIsNoComment(s: string, checkEnd: bool)
    requires |s| > 0 && s[0] == '['
    ensures CommentTypeOf(s, checkEnd) == if checkEnd && IsEndComment(s) then End else NoComment
  {
    PrefixTypeCases(s);
    assert s[..1][0] == '[';
  }

  // ---------------------------------------------------------------------------
  // The store

  /** The section `sec`, or an empty one when it does not exist. */
  function SectionOf(m: ConfigMap, sec: string): (r: Section)
    ensures sec !in m ==> r == map[]
  {
    if sec in m then m[sec] else map[]
  }

  /** The option `name` of section `sec`, or a default option when either does not exist. */
  function Lookup(m: ConfigMap, sec: string, name: string): (r: Facets)
    ensures sec !in m || name !in m[sec] ==> r == Default
  {
    if sec in m && name in m[sec] then m[sec][name] else Default
  }

  /** `optionExists(name, section)` */
  predicate HasOption(m: ConfigMap, sec: string, name: string) {
    sec in m && name in m[sec]
  }

  /** `options[section]`: the store with section `sec` created empty if it is missing. */
  function TouchSection(m: ConfigMap, sec: string): (r: ConfigMap) {
    m[sec := SectionOf(m, sec)]
  }

  /** `options[section][name]`: the store with the option created as a default option if it is missing. */
  function TouchOption(m: ConfigMap, sec: string, name: string): (r: ConfigMap) {
    m[sec := SectionOf(m, sec)[name := Lookup(m, sec, name)]]
  }

  /** Every entry of `m` is in `m'` with the same value. */
  predicate Keeps(m: ConfigMap, m': ConfigMap) {
    forall s :: s in m ==> s in m' && forall n :: n in m[s] ==> n in m'[s] && m'[s][n] == m[s][n]
  }

  /**
   * `options[section]` creates the section, empty, if and only if it is
   * missing, and changes nothing else.
   */
  lemma {:induction false} TouchSectionSpec(m: ConfigMap, sec: string)
    ensures TouchSection(m, sec).Keys == m.Keys + {sec}
    ensures sec in m ==> TouchSection(m, sec) == m
    ensures sec !in m ==> TouchSection(m, sec)[sec] == map[]
    ensures Keeps(m, TouchSection(m, sec))
  {
  }

  /**
   * `options[section][name]` makes the option exist, keeps an existing one
   * as it is, creates a missing one as a default option, and changes no
   * other entry.
   */
  lemma {:induction false} TouchOptionSpec(m: ConfigMap, sec: string, name: string)
    ensures HasOption(TouchOption(m, sec, name), sec, name)
    ensures TouchOption(m, sec, name)[sec][name] == Lookup(m, sec, name)
    ensures HasOption(m, sec, name) ==> TouchOption(m, sec, name) == m
    ensures TouchOption(m, sec, name).Keys == m.Keys + {sec}
    ensures TouchOption(m, sec, name)[sec].Keys == SectionOf(m, sec).Keys + {name}
    ensures Keeps(m, TouchOption(m, sec, name))
  {
    if HasOption(m, sec, name) {
      assert m[sec][name := m[sec][name]] == m[sec];
    }
  }

  // ---------------------------------------------------------------------------
  // Option lines

  /** What parseOptionLine takes from a line: nothing, or a name and a value. */
  datatype Assignment = NoAssignment | NameValue(name: string, value: string)

  /**
   * The name and value of an option line: the trimmed text before the first
   * `=` and the trimmed text after it, when there is an `=` past index 0.
   */
  function OptionParts(line: string): (r: Assignment) {
    var eq := StrLib.FindFrom(line, "=", 0);
    if eq.FoundAt? && eq.index >= 1 then SplitAt(line, eq.index) else NoAssignment
  }

  /** The trimmed text before and after index `i` of `line`. */
  function SplitAt(line: string, i: nat): (r: Assignment)
    requires i < |line|
  {
    NameValue(StrLib.Trim(line[..i]), StrLib.Trim(line[i + 1..]))
  }

  /**
   * `options[section][name] = value`, with the quotes stripped from the value
   * first and the quote flag forced on afterwards if there were any (even
   * when the option's range rejected the value).
   */
  function StoreOption(m: ConfigMap, sec: string, name: string, value: string, read: NumberReader): (r: ConfigMap) {
    var (text, quoted) := StrLib.TrimQuotes(value);
    var (f, ok) := OptionCell.SetStringFacets(Lookup(m, sec, name), text, read);
    m[sec := SectionOf(m, sec)[name := if quoted then SetQuotes(f, true) else f]]
  }

  /** `parseOptionLine(line, section)` */
  function OptionLine(m: ConfigMap, sec: string, line: string, read: NumberReader): (r: ConfigMap) {
    match OptionParts(line)
    case NoAssignment => m
    case NameValue(name, value) => StoreOption(m, sec, name, value, read)
  }

  /**
   * A line without `=`, or with `=` first, is ignored; otherwise the name is
   * the trimmed text before the first `=` and holds no `=`, and the value is
   * the trimmed text after it.
   */
  lemma {:induction false} OptionPartsSpec(line: string)
    ensures OptionParts(line).NoAssignment? <==> !StrLib.Contains(line, "=") || line[0] == '='
    ensures OptionParts(line).NameValue? ==>
      var i := StrLib.FindFrom(line, "=", 0).index;
      && StrLib.OccursAt(line, "=", i)
      && OptionParts(line) == NameValue(StrLib.Trim(line[..i]), StrLib.Trim(line[i + 1..]))
      && '=' !in line[..i]
  {
    StrLib.FindFromSpec(line, "=", 0);
    var eq := StrLib.FindFrom(line, "=", 0);
    if eq.FoundAt? {
      if eq.index == 0 {
        assert line[0] == line[..1][0];
      } else {
        assert line[0] != '=' by {
          assert !StrLib.OccursAt(line, "=", 0);
          assert line[..1] == [line[0]];
        }
        forall k | 0 <= k < eq.index ensures line[..eq.index][k] != '=' {
          assert !StrLib.OccursAt(line, "=", k);
          assert line[k..k + 1] == [line[k]];
        }
      }
    }
  }

  /** A name as parseOptionLine can produce one: not empty, no `=`, no whitespace at either end. */
  predicate IsOptionName(n: string) {
    n != [] && '=' !in n && !StrLib.IsSpace(n[0]) && !StrLib.IsSpace(n[|n| - 1])
  }

  /**
   * In a trimmed line (as parseLines passes it), an option's name is never
   * empty, holds no `=` and has no whitespace at either end.
   */
  lemma {:induction false} OptionNameShape(line: string)
    requires |line| > 0 && !StrLib.IsSpace(line[0])
    requires OptionParts(line).NameValue?
    ensures IsOptionName(OptionParts(line).name)
  {
    OptionPartsSpec(line);
    var i := StrLib.FindFrom(line, "=", 0).index;
    assert line[..i][0] == line[0];
    TrimmedName(line[..i]);
  }

  /** Trimming a prefix that starts with a non-space and holds no `=` gives a name of that shape. */
  lemma {:induction false} TrimmedName(before: string)
    requires |before| > 0 && !StrLib.IsSpace(before[0])
    requires '=' !in before
    ensures IsOptionName(StrLib.Trim(before))
  {
    StrLib.TrimKeepsFirst(before);
    StrLib.TrimIsSlice(before);
    var name := StrLib.Trim(before);
    forall k | 0 <= k < |name| ensures name[k] != '=' {
      assert name[k] == before[StrLib.TrimOffset(before) + k];
      assert name[k] in before;
    }
    StrLib.TrimIdempotent(before);
    TrimmedEnds(name);
  }

  /** A non-empty trimmed string has no whitespace at either end. */
  lemma {:induction false} TrimmedEnds(s: string)
    requires s != [] && StrLib.Trim(s) == s
    ensures !StrLib.IsSpace(s[0]) && !StrLib.IsSpace(s[|s| - 1])
  {
    var e := StrLib.TrimEnd(s);
    assert StrLib.TrimStart(e) == s;
    assert |e| == |s|;
    assert e == s;
  }

  /**
   * What an option line does to the store: the option exists afterwards
   * (created as a default option if it was missing) and nothing else
   * changes; when its range accepts the value it holds the value without
   * quotes, and when it rejects it the option keeps its old value and range.
   * Either way the quote flag is on if quotes were stripped.
   */
  lemma {:induction false} StoreOptionSpec(m: ConfigMap, sec: string, name: string, value: string, read: NumberReader)
    ensures var m' := StoreOption(m, sec, name, value, read);
      var (text, quoted) := StrLib.TrimQuotes(value);
      var prev := Lookup(m, sec, name);
      var (f, ok) := OptionCell.SetStringFacets(prev, text, read);
      && HasOption(m', sec, name)
      && m'.Keys == m.Keys + {sec}
      && m'[sec].Keys == SectionOf(m, sec).Keys + {name}
      && (forall s :: s in m && s != sec ==> m'[s] == m[s])
      && (forall n :: n in SectionOf(m, sec) && n != name ==> m'[sec][n] == m[sec][n])
      && SameRange(m'[sec][name], prev)
      && (ok ==> SameValue(m'[sec][name], f) && m'[sec][name].str == text)
      && (!ok ==> SameValue(m'[sec][name], prev))
      && m'[sec][name].quotes == (if quoted then true else if ok then f.quotes else prev.quotes)
  {
    var (text, quoted) := StrLib.TrimQuotes(value);
    OptionCell.SetStringAllOrNothing(Lookup(m, sec, name), text, read);
  }

  // ---------------------------------------------------------------------------
  // parseLines

  /** The variables of parseLines: the store, the current section and whether a block comment is open. */
  datatype ParseState = ParseState(store: ConfigMap, section: string, inComment: bool)

  /** `parseSectionLine(line, section)` */
  function SectionLine(st: ParseState, line: string): (r: ParseState)
    requires IsSection(line)
  {
    var name := SectionName(line);
    st.(store := TouchSection(st.store, name), section := name)
  }

  /** One pass of the parseLines loop. */
  function ParseLine(st: ParseState, line: string, read: NumberReader): (r: ParseState) {
    ParseTrimmed(st, StrLib.Trim(line), read)
  }

  /** The same for a line whose whitespace is already trimmed. */
  function ParseTrimmed(st: ParseState, t: string, read: NumberReader): (r: ParseState) {
    var (text, kind) := Stripped(t, st.inComment);
    var inBlock := st.inComment || kind == Start;
    var st' :=
      if inBlock || text == "" then st
      else if IsSection(text) then SectionLine(st, text)
      else st.(store := OptionLine(st.store, st.section, text, read));
    st'.(inComment := if kind == End then false else inBlock)
  }

  /** The state after parseLines has gone through `lines`. */
  function ParseAll(st: ParseState, lines: seq<string>, read: NumberReader): (r: ParseState)
    decreases |lines|
  {
    if lines == [] then st else ParseAll(ParseLine(st, lines[0], read), lines[1..], read)
  }

  /** `parseLines`: starts in section `""` outside any comment, whatever section is in use. */
  function ParsedStore(m: ConfigMap, lines: seq<string>, read: NumberReader): (r: ConfigMap) {
    ParseAll(ParseState(m, "", false), lines, read).store
  }

  /** `loadFromString`: the lines of the text, empty ones dropped, then parseLines. */
  function LoadedStore(m: ConfigMap, str: string, read: NumberReader): (r: ConfigMap) {
    ParsedStore(m, StrLib.Lines(str, false), read)
  }

  /** Parsing two runs of lines one after the other is parsing them joined. */
  lemma {:induction false} ParseAllAppend(st: ParseState, a: seq<string>, b: seq<string>, read: NumberReader)
    ensures ParseAll(st, a + b, read) == ParseAll(ParseAll(st, a, read), b, read)
    decreases |a|
  {
    if a == [] {
      assert a + b == b;
    } else {
      var next := ParseLine(st, a[0], read);
      ConsAppend(a, b);
      assert ParseAll(st, a + b, read) == ParseAll(next, a[1..] + b, read);
      assert ParseAll(st, a, read) == ParseAll(next, a[1..], read);
      ParseAllAppend(next, a[1..], b, read);
    }
  }

  /** The head and tail of `a + b` when `a` is not empty. */
  lemma {:induction false} ConsAppend<T>(a: seq<T>, b: seq<T>)
    requires a != []
    ensures (a + b)[0] == a[0] && (a + b)[1..] == a[1..] + b
  {
  }

  /** Outside a block, a blank line and a single-line comment change nothing. */
  lemma {:induction false} SkippedLine(st: ParseState, line: string, read: NumberReader)
    requires !st.inComment
    requires StrLib.Trim(line) == "" || CommentTypeOf(StrLib.Trim(line), false) == Single
    ensures ParseLine(st, line, read) == st
  {
    if StrLib.Trim(line) == "" {
      CommentTypeCases("", false);
      assert !StartsWith("", "/*") && !SinglePrefix("");
    }
  }

  /** The line that opens a block comment adds nothing, and opens the block. */
  lemma {:induction false} OpeningLine(st: ParseState, line: string, read: NumberReader)
    requires !st.inComment
    requires StartsWith(StrLib.Trim(line), "/*") && !IsEndComment(StrLib.Trim(line))
    ensures ParseLine(st, line, read) == st.(inComment := true)
  {
    CommentTypeCases(StrLib.Trim(line), false);
  }

  // Inside a block comment a line adds nothing; it closes the block iff it holds `*/`.
  lemma {:induction false} LineInBlock(st: ParseState, line: string, read: NumberReader)
    requires st.inComment
    ensures ParseLine(st, line, read) == st.(inComment := !IsEndComment(StrLib.Trim(line)))
  {
    CommentTypeCases(StrLib.Trim(line), true);
  }

  // Lines without `*/` inside an open block comment add nothing and leave it open.
  lemma {:induction false} BlockBodyAddsNothing(st: ParseState, lines: seq<string>, read: NumberReader)
    requires st.inComment
    requires forall k :: 0 <= k < |lines| ==> !IsEndComment(StrLib.Trim(lines[k]))
    ensures ParseAll(st, lines, read) == st
    decreases |lines|
  {
    if lines != [] {
      LineInBlock(st, lines[0], read);
      BlockBodyAddsNothing(st, lines[1..], read);
    }
  }

  /**
   * A whole block comment -- the line opening it, the lines inside and the
   * line closing it -- adds nothing to the store and leaves the section.
   */
  lemma {:induction false} BlockCommentAddsNothing(st: ParseState, open: string, body: seq<string>, close: string, read: NumberReader)
    requires !st.inComment
    requires StartsWith(StrLib.Trim(open), "/*") && !IsEndComment(StrLib.Trim(open))
    requires forall k :: 0 <= k < |body| ==> !IsEndComment(StrLib.Trim(body[k]))
    requires IsEndComment(StrLib.Trim(close))
    ensures ParseAll(st, [open] + body + [close], read) == st
  {
    var inBlock := st.(inComment := true);
    AppendAssoc([open], body, [close]);
    ParseAllAppend(st, [open], body + [close], read);
    ParseAllSingle(st, open, read);
    OpeningLine(st, open, read);
    ParseAllAppend(inBlock, body, [close], read);
    BlockBodyAddsNothing(inBlock, body, read);
    ParseAllSingle(inBlock, close, read);
    LineInBlock(inBlock, close, read);
  }

  /** Concatenation of three sequences, grouped to the right. */
  lemma {:induction false} AppendAssoc<T>(a: seq<T>, b: seq<T>, c: seq<T>)
    ensures a + b + c == a + (b + c)
  {
  }

  /** Parsing a single line. */
  lemma {:induction false} ParseAllSingle(st: ParseState, line: string, read: NumberReader)
    ensures ParseAll(st, [line], read) == ParseLine(st, line, read)
  {
    assert [line][1..] == [];
  }

  /**
   * Outside a block comment, a header line switches to the section it names
   * and creates that section, empty, if it is missing; the store is
   * otherwise unchanged.  `[]` switches back to the default section `""`.
   */
  lemma {:induction false} HeaderLine(st: ParseState, line: string, read: NumberReader)
    requires !st.inComment && IsSection(StrLib.Trim(line))
    ensures var name := SectionName(StrLib.Trim(line));
      ParseLine(st, line, read) == ParseState(TouchSection(st.store, name), name, false)
    ensures StrLib.Trim(line) == "[]" ==> ParseLine(st, line, read).section == ""
  {
    BracketIsNoComment(StrLib.Trim(line), false);
  }

  /**
   * Outside a block comment, a trimmed line that is neither blank, nor a
   * comment, nor a header is an option line for the current section.
   */
  lemma {:induction false} AssignmentLine(st: ParseState, line: string, read: NumberReader)
    requires !st.inComment
    requires var t := StrLib.Trim(line); t != "" && !IsSection(t) && !StartsWith(t, "/*") && !SinglePrefix(t)
    ensures ParseLine(st, line, read) == st.(store := OptionLine(st.store, st.section, StrLib.Trim(line), read))
  {
    CommentTypeCases(StrLib.Trim(line), false);
  }

  // ---------------------------------------------------------------------------
  // writeToString

  /** One option line: the name, ` = `, toStringWithQuotes, a newline. */
  function OptionText(name: string, f: Facets): (r: string) {
    name + " = " + WithQuotes(f.str, f.quotes) + "\n"
  }

  /** The option lines for `names`, in that order (a name not in the section gives none). */
  function OptionsText(s: Section, names: seq<string>): (r: string)
    decreases |names|
  {
    if names == [] then ""
    else (if names[0] in s then OptionText(names[0], s[names[0]]) else "") + OptionsText(s, names[1..])
  }

  /** The header line of a section; the default section `""` has none. */
  function Header(name: string): (r: string) {
    if name == "" then "" else "[" + name + "]\n"
  }

  /** A section as writeToString writes it: header, options in key order, a blank line. */
  function SectionText(name: string, s: Section): (r: string) {
    Header(name) + OptionsText(s, LexOrder.SortedKeys(s.Keys)) + "\n"
  }

  /** The sections `names` of `m`, in that order (a name not in the store gives none). */
  function SectionsText(m: ConfigMap, names: seq<string>): (r: string)
    decreases |names|
  {
    if names == [] then ""
    else (if names[0] in m then SectionText(names[0], m[names[0]]) else "") + SectionsText(m, names[1..])
  }

  /** Every section of the store, in key order. */
  function Body(m: ConfigMap): (r: string) {
    SectionsText(m, LexOrder.SortedKeys(m.Keys))
  }

  /** `if (!str.empty() && str.back() == '\n') str.pop_back();` */
  function DropFinalNewline(s: string): (r: string)
    ensures |s| > 0 && s[|s| - 1] == '\n' ==> r + "\n" == s
    ensures !(|s| > 0 && s[|s| - 1] == '\n') ==> r == s
  {
    if |s| > 0 && s[|s| - 1] == '\n' then s[..|s| - 1] else s
  }

  /** `writeToString(str)`: what `str` holds afterwards. */
  function Written(str: string, m: ConfigMap): (r: string) {
    DropFinalNewline(str + Body(m))
  }

  /** The text of one or more sections ends with the blank line of the last one. */
  lemma {:induction false} SectionsTextEnds(m: ConfigMap, names: seq<string>)
    requires names != [] && names[|names| - 1] in m
    ensures var t := SectionsText(m, names); |t| > 0 && t[|t| - 1] == '\n'
    decreases |names|
  {
    var rest := names[1..];
    if rest == [] {
      var t := SectionText(names[0], m[names[0]]);
      assert t[|t| - 1] == '\n';
      assert SectionsText(m, names) == t + "";
    } else {
      assert rest[|rest| - 1] == names[|names| - 1];
      SectionsTextEnds(m, rest);
    }
  }

  /**
   * writeToString appends to `str`: for a non-empty store it appends every
   * section and then takes back exactly the final newline; for an empty
   * store it appends nothing, yet still drops a newline ending `str`.
   */
  lemma {:induction false} WrittenSpec(str: string, m: ConfigMap)
    ensures m != map[] ==> Written(str, m) + "\n" == str + Body(m)
    ensures m == map[] ==> Written(str, m) == DropFinalNewline(str)
  {
    if m != map[] {
      BodyEnds(m);
      NewlineDropped(str, Body(m));
    } else {
      assert m.Keys == {};
      assert str + Body(m) == str;
    }
  }

  /** The text of a store with sections ends with a newline. */
  lemma {:induction false} BodyEnds(m: ConfigMap)
    requires m != map[]
    ensures var b := Body(m); |b| > 0 && b[|b| - 1] == '\n'
  {
    var keys := LexOrder.SortedKeys(m.Keys);
    LexOrder.SortedKeysMembers(m.Keys);
    assert keys != [] by {
      var k :| k in m;
    }
    assert keys[|keys| - 1] in keys;
    SectionsTextEnds(m, keys);
  }

  /** Text ending in a newline, appended and then the final newline dropped. */
  lemma {:induction false} NewlineDropped(str: string, b: string)
    requires |b| > 0 && b[|b| - 1] == '\n'
    ensures DropFinalNewline(str + b) + "\n" == str + b
  {
    assert (str + b)[|str + b| - 1] == b[|b| - 1];
  }

  /**
   * When the store has the default section `""`, writeToString starts with
   * its options, under no header, and then the other sections follow.
   */
  lemma {:induction false} DefaultSectionFirst(m: ConfigMap)
    requires "" in m
    ensures var keys := LexOrder.SortedKeys(m.Keys);
      && keys[0] == ""
      && Body(m) == SectionText("", m[""]) + SectionsText(m, keys[1..])
    ensures Header("") == ""
  {
    var keys := LexOrder.SortedKeys(m.Keys);
    LexOrder.SortedKeysMembers(m.Keys);
    LexOrder.EmptyKeyFirst(m.Keys);
    assert keys[0] in m;
  }

  /** A section with no options is still written: its header and a blank line. */
  lemma {:induction false} EmptySectionWritten(name: string)
    ensures name != "" ==> SectionText(name, map[]) == "[" + name + "]\n\n"
  {
    LexOrder.SortedKeysMembers({});
    assert LexOrder.SortedKeys({}) == [];
  }

  /** A value that comes back unchanged from the trimming and quote stripping of parseOptionLine. */
  predicate ReadsBack(f: Facets) {
    !f.quotes ==> (f.str == [] || (!StrLib.IsSpace(f.str[0]) && !StrLib.IsSpace(f.str[|f.str| - 1])))
                  && !StrLib.TrimQuotes(f.str).1
  }

  /** A name the parser reads back from an option line: not a header, not a comment. */
  predicate IsPlainName(name: string) {
    IsOptionName(name) && name[0] != '[' && !StartsWith(name, "/*") && !SinglePrefix(name)
  }

  /**
   * What writeToString writes for an option, parseOptionLine reads back: the
   * same name, and the value text with the quote flag as it was.
   */
  lemma {:induction false} OptionTextParts(name: string, f: Facets)
    requires IsOptionName(name) && ReadsBack(f)
    ensures var w := WithQuotes(f.str, f.quotes);
      && OptionParts(name + " = " + w) == NameValue(name, w)
      && StrLib.TrimQuotes(w) == (f.str, f.quotes)
  {
    var w := WithQuotes(f.str, f.quotes);
    if f.quotes {
      assert w[0] == '"' && w[|w| - 1] == '"';
    }
    SpacedAssignment(name, w);
    WithQuotesRoundTrip(f.str, f.quotes);
  }

  /** `name = w`, as writeToString spaces it, splits back into `name` and `w`. */
  lemma {:induction false} SpacedAssignment(name: string, w: string)
    requires IsOptionName(name)
    requires w == [] || (!StrLib.IsSpace(w[0]) && !StrLib.IsSpace(w[|w| - 1]))
    ensures OptionParts(name + " = " + w) == NameValue(name, w)
  {
    var line := name + " = " + w;
    var i := |name| + 1;
    SpacedSlices(name, w);
    StrLib.TrimSpaced(name);
    StrLib.TrimSpaced(w);
    SpacedEquals(name, w);
    assert OptionParts(line) == SplitAt(line, i);
  }

  /** The first `=` of `name = w` is the one writeToString put after the name. */
  lemma {:induction false} SpacedEquals(name: string, w: string)
    requires '=' !in name
    ensures StrLib.FindFrom(name + " = " + w, "=", 0) == StrLib.FoundAt(|name| + 1)
  {
    FirstEquals(name, name + " = " + w);
  }

  /** The text on either side of the `=` that writeToString puts after a name. */
  lemma {:induction false} SpacedSlices(name: string, w: string)
    ensures (name + " = " + w)[..|name| + 1] == name + " "
    ensures (name + " = " + w)[|name| + 2..] == " " + w
  {
    var line := name + " = " + w;
    assert line[..|name| + 1] == name + " ";
    assert line[|name| + 2..] == " " + w;
  }

  /** The first `=` of a line that starts with `name =` is the one after the name, when the name holds none. */
  lemma {:induction false} FirstEquals(name: string, line: string)
    requires '=' !in name && |line| > |name| + 1 && line[|name|] == ' ' && line[|name| + 1] == '='
    requires forall j :: 0 <= j < |name| ==> line[j] == name[j]
    ensures StrLib.FindFrom(line, "=", 0) == StrLib.FoundAt(|name| + 1)
  {
    var i := |name| + 1;
    assert line[i..i + 1] == "=";
    forall j | 0 <= j < i ensures !StrLib.OccursAt(line, "=", j) {
      assert line[j..j + 1][0] == line[j];
      if j < |name| {
        assert line[j] == name[j];
      }
    }
    StrLib.FindFromIs(line, "=", 0, i);
  }



  /**
   * An option line as writeToString writes it, read by parseLines outside a
   * comment, stores the option's text back under its name in the current
   * section; the quote flag comes back set if it was, or if the text is no
   * number.
   */
  lemma {:induction false} OptionLineReadBack(st: ParseState, name: string, f: Facets, read: NumberReader)
    requires !st.inComment && IsPlainName(name) && ReadsBack(f)
    requires Lookup(st.store, st.section, name).range == NoRange
    ensures var st' := ParseLine(st, name + " = " + WithQuotes(f.str, f.quotes), read);
      && st'.section == st.section && !st'.inComment
      && HasOption(st'.store, st.section, name)
      && st'.store[st.section][name].str == f.str
      && (st'.store[st.section][name].quotes <==> f.quotes || read(f.str).NoNumber?)
  {
    WrittenLineParses(st, name, f, read);
    StoredReadBack(st.store, st.section, name, f, read);
  }

  /** The line writeToString writes for an option is, to parseLines, an assignment of the written value. */
  lemma {:induction false} WrittenLineParses(st: ParseState, name: string, f: Facets, read: NumberReader)
    requires !st.inComment && IsPlainName(name) && ReadsBack(f)
    ensures var w := WithQuotes(f.str, f.quotes);
      ParseLine(st, name + " = " + w, read) == st.(store := StoreOption(st.store, st.section, name, w, read))
  {
    var w := WithQuotes(f.str, f.quotes);
    if w != [] {
      assert !StrLib.IsSpace(w[|w| - 1]);
    }
    OptionTextParts(name, f);
    OptionLineStores(st, name, w, read);
  }

  /** Storing the text writeToString gives an option keeps its text and, mostly, its quote flag. */
  lemma {:induction false} StoredReadBack(m: ConfigMap, sec: string, name: string, f: Facets, read: NumberReader)
    requires ReadsBack(f) && Lookup(m, sec, name).range == NoRange
    ensures var m' := StoreOption(m, sec, name, WithQuotes(f.str, f.quotes), read);
      && HasOption(m', sec, name) && m'[sec][name].str == f.str
      && (m'[sec][name].quotes <==> f.quotes || read(f.str).NoNumber?)
  {
    var w := WithQuotes(f.str, f.quotes);
    WithQuotesRoundTrip(f.str, f.quotes);
    var prev := Lookup(m, sec, name);
    StoreOptionSpec(m, sec, name, w, read);
    OptionCell.SetStringUnranged(prev, f.str, read);
    OptionCell.SetStringStores(prev, f.str, read);
  }

  /** An option line as writeToString writes it is, to parseLines, an assignment of that value. */
  lemma {:induction false} OptionLineStores(st: ParseState, name: string, w: string, read: NumberReader)
    requires !st.inComment && IsPlainName(name) && (w == [] || !StrLib.IsSpace(w[|w| - 1]))
    requires OptionParts(name + " = " + w) == NameValue(name, w)
    ensures ParseLine(st, name + " = " + w, read) == st.(store := StoreOption(st.store, st.section, name, w, read))
  {
    if w == [] {
      assert name + " = " + w == name + " = ";
      EmptyValueLine(st, name, read);
    } else {
      ValueLine(st, name, w, read);
    }
  }

  /** With a value, the line `name = w` is already trimmed, and it is an assignment. */
  lemma {:induction false} ValueLine(st: ParseState, name: string, w: string, read: NumberReader)
    requires !st.inComment && IsPlainName(name) && w != [] && !StrLib.IsSpace(w[|w| - 1])
    requires OptionParts(name + " = " + w) == NameValue(name, w)
    ensures ParseLine(st, name + " = " + w, read) == st.(store := StoreOption(st.store, st.section, name, w, read))
  {
    var line := name + " = " + w;
    assert line == name + (" = " + w);
    assert StrLib.Trim(line) == line by {
      assert line[0] == name[0];
      assert line[|line| - 1] == w[|w| - 1];
      StrLib.TrimUnchanged(line);
    }
    assert !IsSection(line) by {
      assert line[0] == name[0];
    }
    PaddedPrefix(name, " = " + w);
    AssignmentLine(st, line, read);
  }

  /**
   * With an empty value, the line is `name = `; parseLines trims it to
   * `name =`, which parseOptionLine still reads as an assignment of the
   * empty text.
   */
  lemma {:induction false} EmptyValueLine(st: ParseState, name: string, read: NumberReader)
    requires !st.inComment && IsPlainName(name)
    ensures ParseLine(st, name + " = ", read) == st.(store := StoreOption(st.store, st.section, name, "", read))
  {
    EmptyValueTrimmed(name);
    PaddedPrefix(name, " =");
    AssignmentLine(st, name + " = ", read);
  }

  /** `name = ` trims to `name =`, which is no header and splits into the name and the empty text. */
  lemma {:induction false} EmptyValueTrimmed(name: string)
    requires IsOptionName(name)
    ensures var t := name + " =";
      && StrLib.Trim(name + " = ") == t && t[0] == name[0] && !IsSection(t)
      && OptionParts(t) == NameValue(name, "")
  {
    var t := name + " =";
    assert name + " = " == t + " ";
    assert t[0] == name[0] && t[|t| - 1] == '=';
    StrLib.TrimSpaced(t);
    EmptyValueParts(name);
  }

  /** The first `=` of `name =` splits it into the name and the empty text. */
  lemma {:induction false} EmptyValueParts(name: string)
    requires IsOptionName(name)
    ensures OptionParts(name + " =") == NameValue(name, "")
  {
    var t := name + " =";
    FirstEquals(name, t);
    assert t[..|name| + 1] == name + " " && t[|name| + 2..] == "";
    StrLib.TrimSpaced(name);
    assert OptionParts(t) == SplitAt(t, |name| + 1);
  }




  /** A line starts with a comment symbol only if its name does, when a space follows the name. */
  lemma {:induction false} PaddedPrefix(name: string, rest: string)
    requires name != [] && rest != [] && rest[0] == ' '
    ensures StartsWith(name + rest, "/*") ==> StartsWith(name, "/*")
    ensures SinglePrefix(name + rest) ==> SinglePrefix(name)
  {
    var line := name + rest;
    assert line[..1] == name[..1];
    if |name| >= 2 {
      assert line[..2] == name[..2];
    } else {
      assert |line| >= 2 && line[..2][1] == ' ';
    }
  }

  /**
   * A header as writeToString writes it, read by parseLines outside a
   * comment, switches to that section and makes sure it exists.
   */
  lemma {:induction false} HeaderReadBack(st: ParseState, name: string, read: NumberReader)
    requires !st.inComment
    ensures ParseLine(st, "[" + name + "]", read) == ParseState(TouchSection(st.store, name), name, false)
  {
    var h := "[" + name + "]";
    SectionNameRoundTrip(h, name);
    StrLib.TrimUnchanged(h);
    HeaderLine(st, h, read);
  }

  // ---------------------------------------------------------------------------
  // The whole store read back

  /** The line writeToString writes for an option, without its newline. */
  function OptionLineText(name: string, f: Facets): (r: string)
    ensures OptionText(name, f) == r + "\n"
  {
    name + " = " + WithQuotes(f.str, f.quotes)
  }

  /** The option lines for `names`, in that order. */
  function OptionLines(s: Section, names: seq<string>): (r: seq<string>)
    ensures |r| <= |names|
    decreases |names|
  {
    if names == [] then []
    else (if names[0] in s then [OptionLineText(names[0], s[names[0]])] else []) + OptionLines(s, names[1..])
  }

  /** The header line of a section, none for the default section. */
  function HeaderLines(name: string): (r: seq<string>)
    ensures |r| <= 1
  {
    if name == "" then [] else ["[" + name + "]"]
  }

  /** The lines of one section: header, options in key order, a blank line. */
  function SectionLines(name: string, s: Section): (r: seq<string>)
    ensures r != [] && r[|r| - 1] == ""
  {
    HeaderLines(name) + OptionLines(s, LexOrder.SortedKeys(s.Keys)) + [""]
  }

  /** The lines of the sections `names` of `m`, in that order. */
  function BodyLines(m: ConfigMap, names: seq<string>): (r: seq<string>)
    decreases |names|
  {
    if names == [] then []
    else (if names[0] in m then SectionLines(names[0], m[names[0]]) else []) + BodyLines(m, names[1..])
  }

  /** The option text is its lines, each ended by LF. */
  lemma {:induction false} OptionsTextLines(s: Section, names: seq<string>)
    ensures OptionsText(s, names) == StrLib.Unlines(OptionLines(s, names))
    decreases |names|
  {
    if names != [] {
      var head := if names[0] in s then [OptionLineText(names[0], s[names[0]])] else [];
      OptionsTextLines(s, names[1..]);
      StrLib.UnlinesAppend(head, OptionLines(s, names[1..]));
      assert head != [] ==> StrLib.Unlines(head) == head[0] + "\n" + StrLib.Unlines([]);
    }
  }

  /** The header text is its line, ended by LF, or nothing. */
  lemma {:induction false} HeaderTextLines(name: string)
    ensures Header(name) == StrLib.Unlines(HeaderLines(name))
  {
    if name != "" {
      assert HeaderLines(name)[1..] == [];
    }
  }

  /** A lone blank line is a lone LF. */
  lemma {:induction false} BlankUnlines()
    ensures StrLib.Unlines([""]) == "\n"
  {
    assert [""][1..] == [];
  }

  /** A section's text is its lines, each ended by LF. */
  lemma {:induction false} SectionTextLines(name: string, s: Section)
    ensures SectionText(name, s) == StrLib.Unlines(SectionLines(name, s))
  {
    var keys := LexOrder.SortedKeys(s.Keys);
    var hs, os := HeaderLines(name), OptionLines(s, keys);
    HeaderTextLines(name);
    OptionsTextLines(s, keys);
    BlankUnlines();
    StrLib.UnlinesAppend(hs + os, [""]);
    StrLib.UnlinesAppend(hs, os);
  }

  /** The text of the sections `names` is their lines, each ended by LF. */
  lemma {:induction false} SectionsTextLines(m: ConfigMap, names: seq<string>)
    ensures SectionsText(m, names) == StrLib.Unlines(BodyLines(m, names))
    decreases |names|
  {
    if names != [] {
      var head := if names[0] in m then SectionLines(names[0], m[names[0]]) else [];
      if names[0] in m {
        SectionTextLines(names[0], m[names[0]]);
      }
      SectionsTextLines(m, names[1..]);
      StrLib.UnlinesAppend(head, BodyLines(m, names[1..]));
    }
  }

  /** The lines of one or more sections end with the blank line of the last one. */
  lemma {:induction false} BodyLinesEnd(m: ConfigMap, names: seq<string>)
    requires names != [] && names[|names| - 1] in m
    ensures var bl := BodyLines(m, names); bl != [] && bl == bl[..|bl| - 1] + [""]
  {
    BodyLinesLast(m, names);
    EndsBlank(BodyLines(m, names));
  }

  /** A sequence of lines whose last line is blank is its other lines and a blank one. */
  lemma EndsBlank(ls: seq<string>)
    requires ls != [] && ls[|ls| - 1] == ""
    ensures ls == ls[..|ls| - 1] + [""]
  {
    assert ls == ls[..|ls| - 1] + [ls[|ls| - 1]];
  }

  /** The last line written for sections ending in a section of the store is blank. */
  lemma {:induction false} BodyLinesLast(m: ConfigMap, names: seq<string>)
    requires names != [] && names[|names| - 1] in m
    ensures var bl := BodyLines(m, names); bl != [] && bl[|bl| - 1] == ""
    decreases |names|
  {
    var rest := names[1..];
    var head := if names[0] in m then SectionLines(names[0], m[names[0]]) else [];
    assert BodyLines(m, names) == head + BodyLines(m, rest);
    if rest == [] {
      assert BodyLines(m, rest) == [];
    } else {
      assert rest[|rest| - 1] == names[|names| - 1];
      BodyLinesLast(m, rest);
    }
  }


  /**
   * writeToString into an empty string, for a store with sections, writes the
   * lines of every section in key order, each ended by LF, except that the
   * final blank line loses its LF.
   */
  lemma {:induction false} WrittenLines(m: ConfigMap)
    requires m != map[]
    ensures var bl := BodyLines(m, LexOrder.SortedKeys(m.Keys));
      && bl != [] && bl == bl[..|bl| - 1] + [""]
      && Written("", m) == StrLib.Unlines(bl[..|bl| - 1])
  {
    var keys := LexOrder.SortedKeys(m.Keys);
    LexOrder.SortedKeysMembers(m.Keys);
    assert keys != [] by {
      var k :| k in m;
    }
    assert keys[|keys| - 1] in keys;
    BodyLinesEnd(m, keys);
    var bl := BodyLines(m, keys);
    SectionsTextLines(m, keys);
    StrLib.UnlinesAppend(bl[..|bl| - 1], [""]);
    BlankUnlines();
    DropsLastBlank(Body(m), StrLib.Unlines(bl[..|bl| - 1]));
  }

  /** Appending text that ends in a blank line and dropping the final newline leaves the text before it. */
  lemma {:induction false} DropsLastBlank(b: string, t: string)
    requires b == t + "\n"
    ensures DropFinalNewline("" + b) == t
  {
    assert "" + b == b;
    assert b[..|b| - 1] == t;
  }

  /** Text without CR or LF. */
  predicate OneLine(t: string) {
    '\r' !in t && '\n' !in t
  }

  /** An option writeToString writes as one line that parseLines reads back. */
  predicate WritableOption(name: string, f: Facets) {
    && IsPlainName(name) && OneLine(name)
    && ReadsBack(f) && OneLine(f.str)
  }

  /** A store whose section names and options are all written as lines that read back. */
  predicate WritableStore(m: ConfigMap) {
    forall sec :: sec in m ==> OneLine(sec) && forall name :: name in m[sec] ==> WritableOption(name, m[sec][name])
  }

  /** The written line of a writable option is one line. */
  lemma {:induction false} OptionLineOneLine(name: string, f: Facets)
    requires WritableOption(name, f)
    ensures OneLine(OptionLineText(name, f))
  {
    var w := WithQuotes(f.str, f.quotes);
    assert forall c :: c in w ==> c == '"' || c in f.str;
    assert forall c :: c in name + " = " + w ==> c in name || c == ' ' || c == '=' || c in w;
  }

  /** The option lines of a writable section are single lines. */
  lemma {:induction false} OptionLinesOneLine(s: Section, names: seq<string>)
    requires forall n :: n in s ==> WritableOption(n, s[n])
    ensures forall l :: l in OptionLines(s, names) ==> OneLine(l)
    decreases |names|
  {
    if names != [] {
      if names[0] in s {
        OptionLineOneLine(names[0], s[names[0]]);
      }
      OptionLinesOneLine(s, names[1..]);
    }
  }

  /** The lines written for a writable section are single lines. */
  lemma {:induction false} SectionLinesOneLine(name: string, s: Section)
    requires OneLine(name) && forall n :: n in s ==> WritableOption(n, s[n])
    ensures forall l :: l in SectionLines(name, s) ==> OneLine(l)
  {
    OptionLinesOneLine(s, LexOrder.SortedKeys(s.Keys));
    assert forall c :: c in "[" + name + "]" ==> c in name || c == '[' || c == ']';
  }

  /** The lines written for a writable store are single lines. */
  lemma {:induction false} BodyLinesOneLine(m: ConfigMap, names: seq<string>)
    requires WritableStore(m)
    ensures forall l :: l in BodyLines(m, names) ==> OneLine(l)
    decreases |names|
  {
    if names != [] {
      var k := names[0];
      var head := if k in m then SectionLines(k, m[k]) else [];
      if k in m {
        SectionLinesOneLine(k, m[k]);
      }
      BodyLinesOneLine(m, names[1..]);
      assert BodyLines(m, names) == head + BodyLines(m, names[1..]);
    }
  }

  /** A blank line changes nothing, inside a block comment or not. */
  lemma {:induction false} BlankLine(st: ParseState, read: NumberReader)
    ensures ParseLine(st, "", read) == st
  {
    BlankNoComment(st.inComment);
    assert StrLib.Trim("") == "";
  }

  /** A blank line is no comment of any kind. */
  lemma {:induction false} BlankNoComment(checkEnd: bool)
    ensures Stripped("", checkEnd) == ("", NoComment)
  {
    CommentTypeCases("", checkEnd);
    assert !StartsWith("", "/*") && !SinglePrefix("");
  }

  /** Dropping blank lines does not change what parseLines does. */
  lemma {:induction false} ParseNonBlank(st: ParseState, ls: seq<string>, read: NumberReader)
    ensures ParseAll(st, StrLib.NonBlank(ls), read) == ParseAll(st, ls, read)
    decreases |ls|
  {
    if ls != [] {
      var next := ParseLine(st, ls[0], read);
      assert ParseAll(st, ls, read) == ParseAll(next, ls[1..], read);
      ParseNonBlank(next, ls[1..], read);
      if ls[0] == [] {
        BlankLine(st, read);
        assert StrLib.NonBlank(ls) == StrLib.NonBlank(ls[1..]);
      } else {
        var nb := StrLib.NonBlank(ls);
        assert nb == [ls[0]] + StrLib.NonBlank(ls[1..]);
        ConsAppend([ls[0]], StrLib.NonBlank(ls[1..]));
        assert ParseAll(st, nb, read) == ParseAll(next, nb[1..], read);
      }
    }
  }

  /** Every option in the store has no range (true of options parseLines creates). */
  ghost predicate NoRanges(m: ConfigMap) {
    forall sec, name :: HasOption(m, sec, name) ==> m[sec][name].range == NoRange
  }

  /**
   * The option `name` of section `sec` holds the text of `f`, with the quote
   * flag set iff it was set in `f` or the text is no number.
   */
  predicate ReadBackOf(m: ConfigMap, sec: string, name: string, f: Facets, read: NumberReader) {
    && HasOption(m, sec, name) && m[sec][name].str == f.str
    && (m[sec][name].quotes <==> f.quotes || read(f.str).NoNumber?)
  }

  /** Every option of `m` outside section `sec`'s options `names` is in `m'` unchanged. */
  ghost predicate KeepsExcept(m: ConfigMap, m': ConfigMap, sec: string, names: seq<string>) {
    forall s, n :: HasOption(m, s, n) && (s != sec || n !in names) ==> HasOption(m', s, n) && m'[s][n] == m[s][n]
  }

  /** Every option of `m` outside the sections `secs` is in `m'` unchanged. */
  ghost predicate KeepsBut(m: ConfigMap, m': ConfigMap, secs: seq<string>) {
    forall s, n :: HasOption(m, s, n) && s !in secs ==> HasOption(m', s, n) && m'[s][n] == m[s][n]
  }

  /** Storing a value leaves every other option as it was, and adds no range. */
  lemma {:induction false} StoreOptionFrame(m: ConfigMap, sec: string, name: string, value: string, read: NumberReader)
    requires NoRanges(m)
    ensures var m' := StoreOption(m, sec, name, value, read);
      NoRanges(m') && KeepsExcept(m, m', sec, [name])
  {
    var (text, quoted) := StrLib.TrimQuotes(value);
    OptionCell.SetStringAllOrNothing(Lookup(m, sec, name), text, read);
  }

  /** One written option line, parsed outside a comment, reads that option back. */
  lemma {:induction false} OptionStep(st: ParseState, name: string, f: Facets, read: NumberReader)
    requires !st.inComment && NoRanges(st.store) && WritableOption(name, f)
    ensures var st' := ParseLine(st, OptionLineText(name, f), read);
      && st'.section == st.section && !st'.inComment && NoRanges(st'.store)
      && ReadBackOf(st'.store, st.section, name, f, read)
      && KeepsExcept(st.store, st'.store, st.section, [name])
  {
    WrittenLineParses(st, name, f, read);
    StoredReadBack(st.store, st.section, name, f, read);
    StoreOptionFrame(st.store, st.section, name, WithQuotes(f.str, f.quotes), read);
  }

  /**
   * The option lines of a section, parsed outside a comment, read back every
   * option they list into the current section and leave the other options
   * alone.
   */
  lemma {:induction false} OptionsReadBack(st: ParseState, s: Section, names: seq<string>, read: NumberReader)
    requires !st.inComment && NoRanges(st.store)
    requires forall n :: n in s ==> WritableOption(n, s[n])
    requires forall n :: n in names ==> n in s
    ensures var st' := ParseAll(st, OptionLines(s, names), read);
      && st'.section == st.section && !st'.inComment && NoRanges(st'.store)
      && (forall n :: n in names ==> ReadBackOf(st'.store, st.section, n, s[n], read))
      && KeepsExcept(st.store, st'.store, st.section, names)
    decreases |names|
  {
    if names == [] {
      assert OptionLines(s, names) == [];
    } else {
      var n0, rest := names[0], names[1..];
      assert names == [n0] + rest;
      OptionLinesCons(st, s, names, read);
      OptionStep(st, n0, s[n0], read);
      var st1 := ParseLine(st, OptionLineText(n0, s[n0]), read);
      OptionsReadBack(st1, s, rest, read);
      var st' := ParseAll(st1, OptionLines(s, rest), read);
      OptionsCombine(s, st.section, n0, rest, st.store, st1.store, st'.store, read);
    }
  }

  /** Parsing the option lines of `names` is parsing the first one's line, then the others'. */
  lemma {:induction false} OptionLinesCons(st: ParseState, s: Section, names: seq<string>, read: NumberReader)
    requires names != [] && names[0] in s
    ensures ParseAll(st, OptionLines(s, names), read)
         == ParseAll(ParseLine(st, OptionLineText(names[0], s[names[0]]), read), OptionLines(s, names[1..]), read)
  {
    var ls := OptionLines(s, names);
    assert ls == [OptionLineText(names[0], s[names[0]])] + OptionLines(s, names[1..]);
    assert ls[1..] == OptionLines(s, names[1..]);
  }

  /** What one option line and the lines after it read back together is what all of them read back. */
  lemma {:induction false} OptionsCombine(s: Section, sec: string, n0: string, rest: seq<string>,
                                          m: ConfigMap, m1: ConfigMap, m2: ConfigMap, read: NumberReader)
    requires n0 in s && ReadBackOf(m1, sec, n0, s[n0], read) && KeepsExcept(m, m1, sec, [n0])
    requires KeepsExcept(m1, m2, sec, rest)
    requires forall n :: n in rest && n in s ==> ReadBackOf(m2, sec, n, s[n], read)
    ensures forall n :: n in [n0] + rest && n in s ==> ReadBackOf(m2, sec, n, s[n], read)
    ensures KeepsExcept(m, m2, sec, [n0] + rest)
  {
    forall n | n in [n0] + rest && n in s
      ensures ReadBackOf(m2, sec, n, s[n], read)
    {
      if n !in rest {
        assert n == n0 && HasOption(m1, sec, n0);
      }
    }
  }

  /** The header line, if any, switches to the section and creates it, keeping every entry. */
  lemma {:induction false} HeaderRun(st: ParseState, name: string, read: NumberReader)
    requires !st.inComment && NoRanges(st.store) && (name == "" ==> st.section == "")
    ensures var st' := ParseAll(st, HeaderLines(name), read);
      && st'.section == name && !st'.inComment && NoRanges(st'.store)
      && (name != "" ==> name in st'.store) && Keeps(st.store, st'.store)
  {
    if name != "" {
      ParseAllSingle(st, "[" + name + "]", read);
      HeaderReadBack(st, name, read);
      TouchSectionSpec(st.store, name);
    }
  }

  /** A run holding one blank line changes nothing. */
  lemma {:induction false} BlankRun(st: ParseState, read: NumberReader)
    ensures ParseAll(st, [""], read) == st
  {
    ParseAllSingle(st, "", read);
    BlankLine(st, read);
  }

  /** Keeping every entry, then every entry outside section `sec`'s `names`, keeps every entry outside `sec`. */
  lemma {:induction false} KeepsThenExcept(m: ConfigMap, m1: ConfigMap, m2: ConfigMap, sec: string, names: seq<string>)
    requires Keeps(m, m1) && KeepsExcept(m1, m2, sec, names)
    ensures KeepsBut(m, m2, [sec])
  {
  }

  /**
   * The lines of one section, parsed outside a comment (from the default
   * section when it is the default one), switch to that section, create it
   * unless it is the default one, and read back every option of it; options
   * of other sections stay as they were.
   */
  lemma {:induction false} SectionReadBack(st: ParseState, name: string, s: Section, read: NumberReader)
    requires !st.inComment && NoRanges(st.store) && (name == "" ==> st.section == "")
    requires forall n :: n in s ==> WritableOption(n, s[n])
    ensures var st' := ParseAll(st, SectionLines(name, s), read);
      && st'.section == name && !st'.inComment && NoRanges(st'.store)
      && (name != "" ==> name in st'.store)
      && (forall n :: n in s ==> ReadBackOf(st'.store, name, n, s[n], read))
      && KeepsBut(st.store, st'.store, [name])
  {
    var keys := LexOrder.SortedKeys(s.Keys);
    LexOrder.SortedKeysMembers(s.Keys);
    var hs, os := HeaderLines(name), OptionLines(s, keys);
    ParseAllAppend(st, hs + os, [""], read);
    ParseAllAppend(st, hs, os, read);
    HeaderRun(st, name, read);
    var st1 := ParseAll(st, hs, read);
    OptionsReadBack(st1, s, keys, read);
    var st2 := ParseAll(st1, os, read);
    ParseAllGrows(st1, os, read);
    BlankRun(st2, read);
    KeepsThenExcept(st.store, st1.store, st2.store, name, keys);
  }

  /** Properties of the sections after the first follow from those of the whole list. */
  lemma {:induction false} TailKeys(names: seq<string>)
    requires names != []
    requires forall i :: 0 < i < |names| ==> names[i] != ""
    requires forall i, j :: 0 <= i < j < |names| ==> names[i] != names[j]
    ensures var rest := names[1..];
      && (forall i :: 0 < i < |rest| ==> rest[i] != "")
      && (forall i, j :: 0 <= i < j < |rest| ==> rest[i] != rest[j])
      && names[0] !in rest
      && (rest != [] ==> rest[0] != "")
  {
    var rest := names[1..];
    forall i, j | 0 <= i < j < |rest| ensures rest[i] != rest[j] {
      assert rest[i] == names[i + 1] && rest[j] == names[j + 1];
    }
    forall i | 0 <= i < |rest| ensures rest[i] != "" && rest[i] != names[0] {
      assert rest[i] == names[i + 1];
    }
  }

  /** What one section and the sections after it read back together is what the whole list reads back. */
  lemma {:induction false} BodyCombine(m: ConfigMap, k: string, rest: seq<string>, m1: ConfigMap, m2: ConfigMap, read: NumberReader)
    requires k in m && k !in rest
    requires k != "" ==> k in m1
    requires forall n :: n in m[k] ==> ReadBackOf(m1, k, n, m[k][n], read)
    requires Grows(m1, m2) && KeepsBut(m1, m2, rest)
    requires forall sec :: sec in rest && sec in m && sec != "" ==> sec in m2
    requires forall sec, n :: sec in rest && sec in m && n in m[sec] ==> ReadBackOf(m2, sec, n, m[sec][n], read)
    ensures forall sec :: sec in [k] + rest && sec in m && sec != "" ==> sec in m2
    ensures forall sec, n :: sec in [k] + rest && sec in m && n in m[sec] ==> ReadBackOf(m2, sec, n, m[sec][n], read)
  {
    forall sec, n | sec in [k] + rest && sec in m && n in m[sec]
      ensures ReadBackOf(m2, sec, n, m[sec][n], read)
    {
      if sec !in rest {
        assert sec == k && HasOption(m1, k, n);
      }
    }
  }

  /** Keeping the options outside `k`, then outside `rest`, keeps those outside `[k] + rest`. */
  lemma {:induction false} KeepsButCompose(m: ConfigMap, m1: ConfigMap, m2: ConfigMap, k: string, rest: seq<string>)
    requires KeepsBut(m, m1, [k]) && KeepsBut(m1, m2, rest)
    ensures KeepsBut(m, m2, [k] + rest)
  {
  }

  /**
   * The lines of the sections `names` of `m`, parsed from outside a comment,
   * read back every option of those sections and create every non-default
   * one, when the sections are distinct and only the first may be the
   * default section (parsed from the default section).
   */
  lemma {:induction false} BodyReadBack(st: ParseState, m: ConfigMap, names: seq<string>, read: NumberReader)
    requires !st.inComment && NoRanges(st.store) && WritableStore(m)
    requires forall sec :: sec in names ==> sec in m
    requires names != [] && names[0] == "" ==> st.section == ""
    requires forall i :: 0 < i < |names| ==> names[i] != ""
    requires forall i, j :: 0 <= i < j < |names| ==> names[i] != names[j]
    ensures var st' := ParseAll(st, BodyLines(m, names), read);
      && !st'.inComment && NoRanges(st'.store)
      && (forall sec :: sec in names && sec != "" ==> sec in st'.store)
      && (forall sec, n :: sec in names && n in m[sec] ==> ReadBackOf(st'.store, sec, n, m[sec][n], read))
      && KeepsBut(st.store, st'.store, names)
    decreases |names|
  {
    if names == [] {
      assert BodyLines(m, names) == [];
    } else {
      var k, rest := names[0], names[1..];
      TailKeys(names);
      assert names == [k] + rest;
      ParseAllAppend(st, SectionLines(k, m[k]), BodyLines(m, rest), read);
      SectionReadBack(st, k, m[k], read);
      var st1 := ParseAll(st, SectionLines(k, m[k]), read);
      BodyReadBack(st1, m, rest, read);
      var st2 := ParseAll(st1, BodyLines(m, rest), read);
      ParseAllGrows(st1, BodyLines(m, rest), read);
      BodyCombine(m, k, rest, st1.store, st2.store, read);
      KeepsButCompose(st.store, st1.store, st2.store, k, rest);
    }
  }

  /** The lines of a store's text as getLinesFromString returns them parse like all its written lines. */
  lemma {:induction false} LoadedWritten(m: ConfigMap, read: NumberReader)
    requires WritableStore(m) && m != map[]
    ensures LoadedStore(map[], Written("", m), read)
      == ParseAll(ParseState(map[], "", false), BodyLines(m, LexOrder.SortedKeys(m.Keys)), read).store
  {
    var keys := LexOrder.SortedKeys(m.Keys);
    var bl := BodyLines(m, keys);
    WrittenLines(m);
    var bl' := bl[..|bl| - 1];
    BodyLinesOneLine(m, keys);
    assert forall l :: l in bl' ==> l in bl;
    StrLib.LinesOfUnlines(bl');
    DropLastBlank(ParseState(map[], "", false), bl', read);
  }

  /** Parsing the non-blank lines of `ls` is parsing `ls` and a final blank line. */
  lemma {:induction false} DropLastBlank(st: ParseState, ls: seq<string>, read: NumberReader)
    ensures ParseAll(st, StrLib.NonBlank(ls), read) == ParseAll(st, ls + [""], read)
  {
    ParseNonBlank(st, ls, read);
    ParseAllAppend(st, ls, [""], read);
    BlankRun(ParseAll(st, ls, read), read);
  }

  /**
   * writeToString then loadFromString: every option of the store comes back
   * in its section with its text, its quote flag set iff it was set or the
   * text is no number, and every section but the default one comes back
   * (an empty default section is written as a blank line only, which
   * getLinesFromString drops).  Names and texts must be single lines, names
   * must be plain option names and the written values must read back.
   */
  lemma {:induction false} WrittenStoreReadBack(m: ConfigMap, read: NumberReader)
    requires WritableStore(m)
    ensures var m' := LoadedStore(map[], Written("", m), read);
      && (forall sec :: sec in m && sec != "" ==> sec in m')
      && (forall sec, n :: sec in m && n in m[sec] ==> ReadBackOf(m', sec, n, m[sec][n], read))
  {
    if m != map[] {
      var keys := LexOrder.SortedKeys(m.Keys);
      LoadedWritten(m, read);
      KeysDistinct(m);
      LexOrder.SortedKeysMembers(m.Keys);
      BodyReadBack(ParseState(map[], "", false), m, keys, read);
    }
  }

  /** The keys in writing order are distinct, and only the first can be the default section. */
  lemma {:induction false} KeysDistinct(m: ConfigMap)
    ensures var keys := LexOrder.SortedKeys(m.Keys);
      && (forall i, j :: 0 <= i < j < |keys| ==> keys[i] != keys[j])
      && (forall i :: 0 < i < |keys| ==> keys[i] != "")
  {
    var keys := LexOrder.SortedKeys(m.Keys);
    LexOrder.SortedKeysAscending(m.Keys);
    LexOrder.SortedKeysMembers(m.Keys);
    forall i, j | 0 <= i < j < |keys| ensures keys[i] != keys[j] {
      LexOrder.LessIrreflexive(keys[i]);
    }
    if "" in m {
      LexOrder.EmptyKeyFirst(m.Keys);
    } else {
      assert "" !in keys;
    }
  }

  // ---------------------------------------------------------------------------
  // splitArrayString, joinArrayString

  /** The text between the braces, when the string is braced. */
  function Unbraced(s: string): (r: string) {
    if |s| >= 2 && s[0] == '{' && s[|s| - 1] == '}' then s[1..|s| - 1] else s
  }

  /** `splitArrayString`: the comma-separated pieces, each trimmed and stripped of one quote pair. */
  function ArrayElems(s: string): (r: seq<string>) {
    var parts := StrLib.Split(Unbraced(s), ",", true);
    seq(|parts|, k requires 0 <= k < |parts| => StrLib.TrimQuotes(StrLib.Trim(parts[k])).0)
  }

  /** `joinArrayString`: the elements between braces, separated by commas. */
  function ArrayString(v: seq<string>): (r: string) {
    "{" + StrLib.Join(v, ",") + "}"
  }

  /** Each part followed by the separator (the string joinArrayString builds in its loop). */
  function Terminated(parts: seq<string>, sep: string): (r: string)
    decreases |parts|
  {
    if parts == [] then ""
    else Terminated(parts[..|parts| - 1], sep) + parts[|parts| - 1] + sep
  }

  /** Each part followed by the separator is the parts joined, plus one separator at the end. */
  lemma {:induction false} TerminatedJoin(parts: seq<string>, sep: string)
    requires parts != []
    ensures Terminated(parts, sep) == StrLib.Join(parts, sep) + sep
    decreases |parts|
  {
    var init := parts[..|parts| - 1];
    var last := parts[|parts| - 1];
    assert parts == init + [last];
    if init == [] {
      assert Terminated(init, sep) == "";
      assert StrLib.Join(parts, sep) == last;
    } else {
      TerminatedJoin(init, sep);
      StrLib.JoinSnoc(init, last, sep);
    }
  }

  /** An element joinArrayString and splitArrayString carry through unchanged. */
  predicate PlainElem(e: string) {
    ',' !in e && (e == [] || (!StrLib.IsSpace(e[0]) && !StrLib.IsSpace(e[|e| - 1]))) && !StrLib.TrimQuotes(e).1
  }

  /**
   * splitArrayString undoes joinArrayString when no element holds a comma,
   * has whitespace at either end or is wrapped in quotes, and the last
   * element is not empty.
   */
  lemma {:induction false} ArrayRoundTrip(v: seq<string>)
    requires |v| > 0 ==> v[|v| - 1] != []
    requires forall k :: 0 <= k < |v| ==> PlainElem(v[k])
    ensures ArrayElems(ArrayString(v)) == v
  {
    var j := StrLib.Join(v, ",");
    var a := ArrayString(v);
    assert a[0] == '{' && a[|a| - 1] == '}';
    assert Unbraced(a) == j;
    StrLib.SplitJoin(v, ',');
    var r := ArrayElems(a);
    forall k | 0 <= k < |v| ensures r[k] == v[k] {
      StrLib.TrimUnchanged(v[k]);
    }
  }

  /** joinArrayString of no elements is `{}`. */
  lemma {:induction false} ArrayStringEmpty()
    ensures ArrayString([]) == "{}" && ArrayElems("{}") == []
  {
    assert Unbraced("{}") == "";
  }

  /** `splitArrayString` */
  method SplitArrayString(str: string) returns (vec: seq<string>)
    ensures vec == ArrayElems(str)
  {
    var s := str;
    if |s| >= 2 && s[0] == '{' && s[|s| - 1] == '}' {
      s := s[..|s| - 1];
      s := s[1..];
      assert s == str[1..|str| - 1];
    }
    ghost var parts := StrLib.Split(Unbraced(str), ",", true);
    vec := StrLib.SplitInto(s, ",", [], true);
    assert vec == parts;
    for k := 0 to |vec|
      invariant |vec| == |parts|
      invariant forall j :: 0 <= j < k ==> vec[j] == StrLib.TrimQuotes(StrLib.Trim(parts[j])).0
      invariant forall j :: k <= j < |vec| ==> vec[j] == parts[j]
    {
      var elem := StrLib.TrimWhitespace(vec[k]);
      elem := StrLib.TrimQuotes(elem).0;
      vec := vec[k := elem];
    }
  }

  /** `joinArrayString` */
  method JoinArrayString(vec: seq<string>) returns (str: string)
    ensures str == ArrayString(vec)
  {
    str := "{";
    for k := 0 to |vec|
      invariant str == "{" + Terminated(vec[..k], ",")
    {
      assert vec[..k + 1][..k] == vec[..k];
      str := str + vec[k] + ",";
    }
    assert vec[..|vec|] == vec;
    if vec != [] {
      TerminatedJoin(vec, ",");
    }
    if str[|str| - 1] == ',' {
      str := str[..|str| - 1];
    }
    str := str + "}";
  }

  // ---------------------------------------------------------------------------
  // eraseOption, eraseSection, setDefaultOptions

  /** `eraseOption(name, section)`: the new store and whether an option was removed. */
  function EraseOption(m: ConfigMap, sec: string, name: string): (r: (ConfigMap, bool)) {
    if sec in m then (m[sec := m[sec] - {name}], name in m[sec]) else (m, false)
  }

  /**
   * eraseOption reports true iff the option existed; afterwards it does not,
   * every other option is as it was, and no section is added or removed (an
   * emptied section stays).
   */
  lemma {:induction false} EraseOptionSpec(m: ConfigMap, sec: string, name: string)
    ensures var (m', ok) := EraseOption(m, sec, name);
      && (ok <==> HasOption(m, sec, name))
      && !HasOption(m', sec, name)
      && m'.Keys == m.Keys
      && (forall s, n :: HasOption(m, s, n) && (s != sec || n != name) ==> HasOption(m', s, n) && m'[s][n] == m[s][n])
      && (forall s, n :: HasOption(m', s, n) ==> HasOption(m, s, n))
      && (!ok ==> m' == m)
  {
    if sec in m && name !in m[sec] {
      assert m[sec] - {name} == m[sec];
    }
  }

  /** `eraseSection(section)`: the new store and whether a section was removed. */
  function EraseSection(m: ConfigMap, sec: string): (r: (ConfigMap, bool)) {
    (m - {sec}, sec in m)
  }

  /**
   * eraseSection reports true iff the section existed; afterwards it does
   * not, and every other section is as it was.
   */
  lemma {:induction false} EraseSectionSpec(m: ConfigMap, sec: string)
    ensures var (m', ok) := EraseSection(m, sec);
      && (ok <==> sec in m)
      && sec !in m'
      && m'.Keys == m.Keys - {sec}
      && (forall s :: s in m' ==> m'[s] == m[s])
      && (!ok ==> m' == m)
  {
  }

  /**
   * `setDefaultOptions(defaults)`, i.e. `std::map::insert` of a range: a
   * section is taken from the defaults only if the store lacks it.
   */
  function WithDefaults(m: ConfigMap, defaults: ConfigMap): (r: ConfigMap) {
    map s | s in m.Keys + defaults.Keys :: if s in m then m[s] else defaults[s]
  }

  /**
   * setDefaultOptions adds the missing sections whole and never merges into
   * a section that exists; applying the same defaults again changes nothing.
   */
  lemma {:induction false} WithDefaultsSpec(m: ConfigMap, defaults: ConfigMap)
    ensures WithDefaults(m, defaults).Keys == m.Keys + defaults.Keys
    ensures forall s :: s in m ==> WithDefaults(m, defaults)[s] == m[s]
    ensures forall s :: s in defaults && s !in m ==> WithDefaults(m, defaults)[s] == defaults[s]
    ensures WithDefaults(WithDefaults(m, defaults), defaults) == WithDefaults(m, defaults)
  {
  }

  /** Every section and option of `m` is still in `m'` (values may differ). */
  predicate Grows(m: ConfigMap, m': ConfigMap) {
    forall s :: s in m ==> s in m' && m[s].Keys <= m'[s].Keys
  }

  /** Replacing a section by one with at least its options keeps every entry's key. */
  lemma {:induction false} GrowsByUpdate(m: ConfigMap, sec: string, s': Section)
    requires SectionOf(m, sec).Keys <= s'.Keys
    ensures Grows(m, m[sec := s'])
  {
  }

  /** One line of parseLines never removes a section or an option. */
  lemma {:induction false} ParseLineGrows(st: ParseState, line: string, read: NumberReader)
    ensures Grows(st.store, ParseLine(st, line, read).store)
  {
    var (text, kind) := Stripped(StrLib.Trim(line), st.inComment);
    var inBlock := st.inComment || kind == Start;
    var m := st.store;
    var m' :=
      if inBlock || text == "" then m
      else if IsSection(text) then TouchSection(m, SectionName(text))
      else OptionLine(m, st.section, text, read);
    assert ParseLine(st, line, read).store == m';
    if inBlock || text == "" {
    } else if IsSection(text) {
      GrowsByUpdate(m, SectionName(text), SectionOf(m, SectionName(text)));
    } else {
      match OptionParts(text)
      case NoAssignment =>
      case NameValue(name, value) =>
        var v := StoreOption(m, st.section, name, value, read)[st.section][name];
        GrowsByUpdate(m, st.section, SectionOf(m, st.section)[name := v]);
    }
  }

  /** parseLines, and so loadFromString, only ever adds sections and options: it removes none. */
  lemma {:induction false} ParseAllGrows(st: ParseState, lines: seq<string>, read: NumberReader)
    ensures Grows(st.store, ParseAll(st, lines, read).store)
    decreases |lines|
  {
    if lines != [] {
      var next := ParseLine(st, lines[0], read);
      ParseLineGrows(st, lines[0], read);
      ParseAllGrows(next, lines[1..], read);
      assert ParseAll(st, lines, read) == ParseAll(next, lines[1..], read);
    }
  }
}
