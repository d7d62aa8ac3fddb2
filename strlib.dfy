/**
 * The string helpers of strlib.cpp, on `string` (= `seq<char>`).
 *
 * The helpers that loop (trimWhitespace, stripNewLines, replaceAll, split,
 * toLower, getLinesFromString) are methods proved against a specification
 * function of the same concept; the loop-free ones (trimQuotes, areQuotes,
 * mustEndWith, strToBool, isBool) are functions.  A string the source edits in
 * place through a reference is returned as a new value.
 */
module StrLib {

  /** The outcome of `std::string::find`: `NotFound` stands for `npos`. */
  datatype Found = NotFound | FoundAt(index: nat)

  /** `isspace` in the C locale. */
  predicate IsSpace(c: char) {
    c == ' ' || c == '\t' || c == '\n' || c == '\U{B}' || c == '\U{C}' || c == '\r'
  }

  /** `pat` occurs in `s` starting at index `i`. */
  predicate OccursAt(s: string, pat: string, i: nat) {
    i + |pat| <= |s| && s[i..i + |pat|] == pat
  }

  /** `s.find(pat, from)`: the first index at or after `from` where `pat` occurs. */
  function FindFrom(s: string, pat: string, from: nat): (r: Found)
    ensures r.FoundAt? ==> from <= r.index && r.index + |pat| <= |s|
    decreases |s| - from
  {
    if from + |pat| > |s| then NotFound
    else if s[from..from + |pat|] == pat then FoundAt(from)
    else FindFrom(s, pat, from + 1)
  }

  /** `s.find(pat) != npos` */
  predicate Contains(s: string, pat: string) {
    FindFrom(s, pat, 0).FoundAt?
  }

  /**
   * `find` reports an occurrence, the least one at or after `from`, and
   * reports `npos` only when there is none.
   */
  lemma {:induction false} FindFromSpec(s: string, pat: string, from: nat)
    ensures FindFrom(s, pat, from).FoundAt? ==> OccursAt(s, pat, FindFrom(s, pat, from).index)
    ensures FindFrom(s, pat, from).FoundAt? ==>
      forall j :: from <= j < FindFrom(s, pat, from).index ==> !OccursAt(s, pat, j)
    ensures FindFrom(s, pat, from).NotFound? ==> forall j :: from <= j ==> !OccursAt(s, pat, j)
    decreases |s| - from
  {
    if from + |pat| <= |s| && s[from..from + |pat|] != pat {
      FindFromSpec(s, pat, from + 1);
    }
  }

  /** The least occurrence at or after `from` is the one `find` reports. */
  lemma {:induction false} FindFromIs(s: string, pat: string, from: nat, i: nat)
    requires from <= i && OccursAt(s, pat, i)
    requires forall j :: from <= j < i ==> !OccursAt(s, pat, j)
    ensures FindFrom(s, pat, from) == FoundAt(i)
    decreases i - from
  {
    if from < i {
      assert !OccursAt(s, pat, from);
      FindFromIs(s, pat, from + 1, i);
    }
  }

  /** With no occurrence at or after `from`, `find` reports `npos`. */
  lemma {:induction false} FindFromNone(s: string, pat: string, from: nat)
    requires forall j :: from <= j ==> !OccursAt(s, pat, j)
    ensures FindFrom(s, pat, from) == NotFound
    decreases |s| - from
  {
    if from + |pat| <= |s| {
      assert !OccursAt(s, pat, from);
      FindFromNone(s, pat, from + 1);
    }
  }

  /** Searching `p + t` from inside `t` is searching `t`, shifted by `|p|`. */
  lemma {:induction false} FindFromShift(p: string, t: string, pat: string, k: nat)
    ensures FindFrom(p + t, pat, |p| + k).FoundAt? == FindFrom(t, pat, k).FoundAt?
    ensures FindFrom(t, pat, k).FoundAt? ==> FindFrom(p + t, pat, |p| + k).index == |p| + FindFrom(t, pat, k).index
    decreases |t| - k
  {
    if k + |pat| <= |t| {
      assert (p + t)[|p| + k..|p| + k + |pat|] == t[k..k + |pat|];
      if t[k..k + |pat|] != pat {
        FindFromShift(p, t, pat, k + 1);
      }
    }
  }

  /** A one-character pattern occurs exactly where that character is. */
  lemma {:induction false} OccursSingle(s: string, c: char, i: nat)
    ensures OccursAt(s, [c], i) <==> i < |s| && s[i] == c
  {
    if i < |s| {
      assert s[i..i + 1] == [s[i]];
    }
  }

  /** An occurrence inside a slice is an occurrence in the whole string. */
  lemma {:induction false} OccursInSlice(s: string, a: nat, b: nat, pat: string, j: nat)
    requires a <= b <= |s|
    ensures OccursAt(s[a..b], pat, j) <==> j + |pat| <= b - a && OccursAt(s, pat, a + j)
  {
    if j + |pat| <= b - a {
      var t := s[a..b];
      assert forall x :: a + j <= x < a + j + |pat| ==> s[x] == t[x - a];
      assert t[j..j + |pat|] == s[a + j..a + j + |pat|];
    }
  }

  /** An occurrence anywhere means `find` succeeds. */
  lemma {:induction false} OccursContains(s: string, pat: string, j: nat)
    requires OccursAt(s, pat, j)
    ensures Contains(s, pat)
  {
    FindFromSpec(s, pat, 0);
  }

  // ---------------------------------------------------------------------------

  /** `s` without its trailing whitespace (the first loop of trimWhitespace). */
  function TrimEnd(s: string): (r: string)
    ensures |r| <= |s| && r == s[..|r|]
    ensures r == [] || !IsSpace(r[|r| - 1])
  {
    if |s| > 0 && IsSpace(s[|s| - 1]) then TrimEnd(s[..|s| - 1]) else s
  }

  /** What TrimEnd drops is whitespace. */
  lemma {:induction false} TrimEndDropsSpaces(s: string)
    ensures forall k :: |TrimEnd(s)| <= k < |s| ==> IsSpace(s[k])
    decreases |s|
  {
    if |s| > 0 && IsSpace(s[|s| - 1]) {
      TrimEndDropsSpaces(s[..|s| - 1]);
    }
  }

  /** `s` without its leading whitespace (the second loop of trimWhitespace). */
  function TrimStart(s: string): (r: string)
    ensures |r| <= |s| && r == s[|s| - |r|..]
    ensures r == [] || !IsSpace(r[0])
  {
    if |s| > 0 && IsSpace(s[0]) then TrimStart(s[1..]) else s
  }

  /** What TrimStart drops is whitespace. */
  lemma {:induction false} TrimStartDropsSpaces(s: string)
    ensures forall k :: 0 <= k < |s| - |TrimStart(s)| ==> IsSpace(s[k])
    decreases |s|
  {
    if |s| > 0 && IsSpace(s[0]) {
      var t := s[1..];
      TrimStartDropsSpaces(t);
      assert TrimStart(s) == TrimStart(t);
      forall k | 0 <= k < |s| - |TrimStart(s)| ensures IsSpace(s[k]) {
        if k > 0 {
          assert s[k] == t[k - 1];
        }
      }
    }
  }

  /** What trimWhitespace leaves of `s`. */
  function Trim(s: string): string {
    TrimStart(TrimEnd(s))
  }

  /** A suffix `r` of a prefix `e` of `s` is the slice of `s` that ends where `e` does. */
  lemma {:induction false} SuffixOfPrefix(s: string, e: string, r: string)
    requires |e| <= |s| && e == s[..|e|] && |r| <= |e| && r == e[|e| - |r|..]
    ensures r == s[|e| - |r|..|e|]
  {
    assert forall k :: 0 <= k < |r| ==> r[k] == e[|e| - |r| + k] == s[|e| - |r| + k];
  }

  /** What trimWhitespace keeps is the slice of `s` at TrimOffset(s). */
  lemma {:induction false} TrimIsSlice(s: string)
    ensures TrimOffset(s) + |Trim(s)| <= |s| && Trim(s) == s[TrimOffset(s)..TrimOffset(s) + |Trim(s)|]
  {
    var e := TrimEnd(s);
    var r := TrimStart(e);
    assert Trim(s) == r && TrimOffset(s) == |e| - |r|;
    SuffixOfPrefix(s, e, r);
  }

  /** `r` is the slice of `s` at `i`, and all of `s` around it is whitespace. */
  predicate CoreOf(s: string, i: nat, r: string) {
    && i + |r| <= |s| && r == s[i..i + |r|]
    && (forall k :: 0 <= k < i ==> IsSpace(s[k]))
    && (forall k :: i + |r| <= k < |s| ==> IsSpace(s[k]))
  }

  /**
   * trimWhitespace keeps one contiguous piece of its input, removes only
   * whitespace, and leaves no whitespace at either end.
   */
  lemma {:induction false} TrimKeepsCore(s: string)
    ensures CoreOf(s, TrimOffset(s), Trim(s))
    ensures var r := Trim(s); r == [] || (!IsSpace(r[0]) && !IsSpace(r[|r| - 1]))
  {
    var e := TrimEnd(s);
    var r := TrimStart(e);
    var i := |e| - |r|;
    TrimIsSlice(s);
    TrimEndDropsSpaces(s);
    TrimStartDropsSpaces(e);
    forall k | 0 <= k < i ensures IsSpace(s[k]) {
      assert e[k] == s[k];
    }
    if r != [] {
      assert r[|r| - 1] == e[|e| - 1];
    }
  }

  /** How many leading characters trimWhitespace removes. */
  function TrimOffset(s: string): nat {
    |TrimEnd(s)| - |Trim(s)|
  }

  /** A string with no whitespace at either end is left as it is. */
  lemma {:induction false} TrimUnchanged(s: string)
    requires s == [] || (!IsSpace(s[0]) && !IsSpace(s[|s| - 1]))
    ensures Trim(s) == s
  {
  }

  /** trimWhitespace is idempotent. */
  lemma {:induction false} TrimIdempotent(s: string)
    ensures Trim(Trim(s)) == Trim(s)
  {
    TrimKeepsCore(s);
    TrimUnchanged(Trim(s));
  }

  /** A string without whitespace at its ends is what trimming it with one space added at either end gives. */
  lemma {:induction false} TrimSpaced(s: string)
    requires s == [] || (!IsSpace(s[0]) && !IsSpace(s[|s| - 1]))
    ensures Trim(s + " ") == s && Trim(" " + s) == s
  {
    var e := s + " ";
    assert e[..|e| - 1] == s;
    assert TrimEnd(e) == TrimEnd(s);
    TrimUnchanged(s);
    var b := " " + s;
    assert b[1..] == s;
    if s == [] {
      assert TrimEnd(b) == TrimEnd(b[..0]);
    } else {
      assert TrimEnd(b) == b;
    }
    assert TrimStart(b) == TrimStart(s);
  }

  /** A string that starts with a non-space character keeps that character first. */
  lemma {:induction false} TrimKeepsFirst(s: string)
    requires |s| > 0 && !IsSpace(s[0])
    ensures |Trim(s)| > 0 && Trim(s)[0] == s[0]
  {
    var e := TrimEnd(s);
    TrimEndDropsSpaces(s);
    assert |e| > 0 && e[0] == s[0];
  }

  /**
   * An occurrence of a pattern that starts and ends with non-space characters
   * lies inside the part of `s` between runs of spaces `s[..i]` and `s[i + n..]`.
   */
  lemma {:induction false} OccursBetweenSpaces(s: string, pat: string, i: nat, n: nat, j: nat)
    requires i + n <= |s| && |pat| > 0 && !IsSpace(pat[0]) && !IsSpace(pat[|pat| - 1])
    requires forall k :: 0 <= k < i ==> IsSpace(s[k])
    requires forall k :: i + n <= k < |s| ==> IsSpace(s[k])
    requires OccursAt(s, pat, j)
    ensures i <= j && j + |pat| <= i + n
  {
    assert s[j] == s[j..j + |pat|][0];
    assert s[j + |pat| - 1] == s[j..j + |pat|][|pat| - 1];
  }

  /** An occurrence in a slice of `s` is one in `s`. */
  lemma {:induction false} SliceOccurrence(s: string, i: nat, n: nat, pat: string)
    requires i + n <= |s| && Contains(s[i..i + n], pat)
    ensures Contains(s, pat)
  {
    var j := FindFrom(s[i..i + n], pat, 0).index;
    FindFromSpec(s[i..i + n], pat, 0);
    OccursInSlice(s, i, i + n, pat, j);
    OccursContains(s, pat, i + j);
  }

  /**
   * An occurrence in `s` of a pattern that starts and ends with non-space
   * characters is one in the slice `r` of `s` at `i` between runs of spaces.
   */
  lemma {:induction false} CoreOccurrence(s: string, i: nat, r: string, pat: string)
    requires CoreOf(s, i, r)
    requires |pat| > 0 && !IsSpace(pat[0]) && !IsSpace(pat[|pat| - 1])
    requires Contains(s, pat)
    ensures Contains(r, pat)
  {
    var j := FindFrom(s, pat, 0).index;
    FindFromSpec(s, pat, 0);
    OccursBetweenSpaces(s, pat, i, |r|, j);
    OccursInSlice(s, i, i + |r|, pat, j - i);
    OccursContains(r, pat, j - i);
  }

  /** An occurrence in the trimmed string is one in the original. */
  lemma {:induction false} TrimmedOccurrence(s: string, pat: string)
    requires Contains(Trim(s), pat)
    ensures Contains(s, pat)
  {
    TrimIsSlice(s);
    SliceOccurrence(s, TrimOffset(s), |Trim(s)|, pat);
  }

  /** An occurrence of a pattern without spaces in the original survives trimming. */
  lemma {:induction false} OriginalOccurrence(s: string, pat: string)
    requires |pat| > 0 && !IsSpace(pat[0]) && !IsSpace(pat[|pat| - 1])
    requires Contains(s, pat)
    ensures Contains(Trim(s), pat)
  {
    TrimKeepsCore(s);
    CoreOccurrence(s, TrimOffset(s), Trim(s), pat);
  }

  /** Trimming cannot create or destroy an occurrence of a pattern without spaces. */
  lemma {:induction false} TrimKeepsPattern(s: string, pat: string)
    requires |pat| > 0 && forall k :: 0 <= k < |pat| ==> !IsSpace(pat[k])
    ensures Contains(Trim(s), pat) <==> Contains(s, pat)
  {
    if Contains(Trim(s), pat) {
      TrimmedOccurrence(s, pat);
    }
    if Contains(s, pat) {
      OriginalOccurrence(s, pat);
    }
  }

  /** strlib::trimWhitespace: pops trailing, then erases leading, whitespace. */
  method TrimWhitespace(s: string) returns (r: string)
    ensures r == Trim(s)
  {
    r := s;
    while |r| > 0 && IsSpace(r[|r| - 1])
      invariant TrimEnd(r) == TrimEnd(s)
      decreases |r|
    {
      r := r[..|r| - 1];
    }
    ghost var e := r;
    while |r| > 0 && IsSpace(r[0])
      invariant TrimStart(r) == TrimStart(e)
      decreases |r|
    {
      r := r[1..];
    }
  }

  // ---------------------------------------------------------------------------
  // trimQuotes, areQuotes

  /** strlib::areQuotes: the same character, and either `"` or `'`. */
  predicate AreQuotes(c1: char, c2: char) {
    c1 == c2 && (c1 == '"' || c1 == '\'')
  }

  /**
   * strlib::trimQuotes: the new string and whether it changed.  It strips
   * exactly the first and last character, iff there are at least two and they
   * are a matching quote pair.
   */
  function TrimQuotes(s: string): (r: (string, bool))
    ensures r.1 <==> |s| >= 2 && AreQuotes(s[0], s[|s| - 1])
    ensures r.1 ==> |r.0| + 2 == |s| && [s[0]] + r.0 + [s[|s| - 1]] == s
    ensures !r.1 ==> r.0 == s
  {
    if |s| >= 2 && AreQuotes(s[0], s[|s| - 1]) then (s[1..|s| - 1], true) else (s, false)
  }

  /** trimQuotes undoes wrapping a string in double quotes. */
  lemma {:induction false} TrimQuotesOfQuoted(t: string)
    ensures TrimQuotes("\"" + t + "\"") == (t, true)
  {
    var q := "\"" + t + "\"";
    assert q[1..|q| - 1] == t;
  }

  // ---------------------------------------------------------------------------
  // stripNewLines

  /** `s.erase(std::remove(s.begin(), s.end(), c), s.end())` */
  function Erased(s: string, c: char): (r: string)
    ensures c !in r
    ensures forall x :: x in r ==> x in s
    ensures forall x :: x != c ==> multiset(r)[x] == multiset(s)[x]
  {
    if s == [] then []
    else
      assert s == [s[0]] + s[1..];
      (if s[0] == c then [] else [s[0]]) + Erased(s[1..], c)
  }

  /** The characters stripNewLines removes, in the order it removes them. */
  const NewLineChars: seq<char> := ['\r', '\n']

  /**
   * strlib::stripNewLines: erases every CR, then every LF, keeping the other
   * characters in order; so it deletes every CR and LF and nothing else.
   */
  method StripNewLines(s: string) returns (r: string)
    ensures r == Erased(Erased(s, '\r'), '\n')
    ensures '\r' !in r && '\n' !in r
    ensures forall x :: x != '\r' && x != '\n' ==> multiset(r)[x] == multiset(s)[x]
  {
    r := s;
    assert NewLineChars == ['\r', '\n'];
    if |r| > 0 {
      for i := 0 to |NewLineChars|
        invariant i == 0 ==> r == s
        invariant i == 1 ==> r == Erased(s, '\r')
        invariant i == 2 ==> r == Erased(Erased(s, '\r'), '\n')
        invariant forall k :: 0 <= k < i ==> NewLineChars[k] !in r
        invariant forall x :: x != '\r' && x != '\n' ==> multiset(r)[x] == multiset(s)[x]
      {
        r := Erased(r, NewLineChars[i]);
      }
      assert NewLineChars[0] !in r && NewLineChars[1] !in r;
    }
  }

  // ---------------------------------------------------------------------------

  /**
   * What replaceAll makes of `s` once the search has reached `pos`, with the
   * number of replacements still to come: the next occurrence of `f` at or
   * after `pos` is replaced and the search resumes after the inserted text,
   * so the inserted text is never searched again.
   */
  function ReplacedFrom(s: string, f: string, r: string, pos: nat): (res: (string, nat))
    requires |f| > 0 && pos <= |s|
    decreases |s| - pos
  {
    var found := FindFrom(s, f, pos);
    if found.NotFound? then (s, 0)
    else
      var i := found.index;
      var rest := ReplacedFrom(s[..i] + r + s[i + |f|..], f, r, i + |r|);
      (rest.0, rest.1 + 1)
  }

  /** What replaceAll makes of `s`, with the number of replacements. */
  function Replaced(s: string, f: string, r: string): (res: (string, nat))
    requires |f| > 0
  {
    ReplacedFrom(s, f, r, 0)
  }

  /**
   * replaceAll reports zero replacements exactly when `f` does not occur, and
   * then leaves the string unchanged.
   */
  lemma {:induction false} ReplacedNothing(s: string, f: string, r: string)
    requires |f| > 0
    ensures Replaced(s, f, r).1 == 0 <==> !Contains(s, f)
    ensures !Contains(s, f) ==> Replaced(s, f, r).0 == s
  {
    var found := FindFrom(s, f, 0);
    if found.FoundAt? {
      var i := found.index;
      assert Replaced(s, f, r).1 == ReplacedFrom(s[..i] + r + s[i + |f|..], f, r, i + |r|).1 + 1;
    }
  }

  /** Each replacement changes the length by `|r| - |f|`. */
  lemma {:induction false} ReplacedFromLength(s: string, f: string, r: string, pos: nat)
    requires |f| > 0 && pos <= |s|
    ensures |ReplacedFrom(s, f, r, pos).0| == |s| + ReplacedFrom(s, f, r, pos).1 * (|r| - |f|)
    decreases |s| - pos
  {
    var found := FindFrom(s, f, pos);
    if found.FoundAt? {
      var i := found.index;
      var s' := s[..i] + r + s[i + |f|..];
      var rest := ReplacedFrom(s', f, r, i + |r|);
      assert ReplacedFrom(s, f, r, pos) == (rest.0, rest.1 + 1);
      assert |rest.0| == |s'| + rest.1 * (|r| - |f|) by {
        ReplacedFromLength(s', f, r, i + |r|);
      }
      MulSucc(rest.1, |r| - |f|);
    }
  }

  /** `(n + 1) * d == n * d + d` */
  lemma MulSucc(n: int, d: int)
    ensures (n + 1) * d == n * d + d
  {
  }

  /** Each replacement changes the length by `|r| - |f|`. */
  lemma {:induction false} ReplacedLength(s: string, f: string, r: string)
    requires |f| > 0
    ensures |Replaced(s, f, r).0| == |s| + Replaced(s, f, r).1 * (|r| - |f|)
  {
    ReplacedFromLength(s, f, r, 0);
  }

  /** One pass of CRLF -> LF over CR CR LF leaves a CRLF: the inserted LF is not searched again. */
  lemma {:induction false} ReplacedDoesNotRescan()
    ensures Replaced("\r\r\n", "\r\n", "\n") == ("\r\n", 1)
  {
    var s := "\r\r\n";
    assert s[0..2][1] == '\r';
    assert !OccursAt(s, "\r\n", 0);
    assert s[1..3] == "\r\n";
    FindFromIs(s, "\r\n", 0, 1);
    var s' := s[..1] + "\n" + s[3..];
    assert s' == "\r\n";
    assert FindFrom(s', "\r\n", 2) == NotFound;
  }

  /** Replacing a one-character pattern by text without it removes that character. */
  lemma {:induction false} ReplacedRemovesChar(s: string, c: char, r: string, pos: nat)
    requires c !in r && pos <= |s| && c !in s[..pos]
    ensures c !in ReplacedFrom(s, [c], r, pos).0
    decreases |s| - pos
  {
    FindFromSpec(s, [c], pos);
    var found := FindFrom(s, [c], pos);
    var end := if found.FoundAt? then found.index else |s|;
    forall j | pos <= j < end ensures s[j] != c {
      OccursSingle(s, c, j);
    }
    NoCharUpTo(s, c, pos, end);
    if found.NotFound? {
      assert s[..end] == s;
    } else {
      var s' := s[..end] + r + s[end + 1..];
      assert s'[..end + |r|] == s[..end] + r;
      ReplacedRemovesChar(s', c, r, end + |r|);
    }
  }

  /** A prefix without `c`, extended by characters other than `c`, still has no `c`. */
  lemma {:induction false} NoCharUpTo(s: string, c: char, pos: nat, end: nat)
    requires pos <= end <= |s| && c !in s[..pos]
    requires forall j :: pos <= j < end ==> s[j] != c
    ensures c !in s[..end]
  {
    assert forall j :: 0 <= j < pos ==> s[j] == s[..pos][j];
    assert forall x :: x in s[..end] ==> exists j :: 0 <= j < end && s[j] == x;
  }

  /**
   * replaceAll's loop state: `count` replacements made so far, the string
   * `s` searched from `pos`, ends in the final outcome `goal`.
   */
  ghost predicate ReplaceReaches(s: string, f: string, r: string, pos: nat, count: nat, goal: (string, nat))
    requires |f| > 0
  {
    pos <= |s| && ReplacedFrom(s, f, r, pos).0 == goal.0 && count + ReplacedFrom(s, f, r, pos).1 == goal.1
  }

  /**
   * One iteration of replaceAll's loop: replacing at `i` and resuming after
   * the inserted text keeps the final outcome `goal`.
   */
  lemma {:induction false} ReplaceStep(s: string, f: string, r: string, pos: nat, i: nat, count: nat, goal: (string, nat))
    requires |f| > 0 && ReplaceReaches(s, f, r, pos, count, goal) && FindFrom(s, f, pos) == FoundAt(i)
    ensures i + |f| <= |s| && |s[..i] + r + s[i + |f|..]| - (i + |r|) < |s| - pos
    ensures ReplaceReaches(s[..i] + r + s[i + |f|..], f, r, i + |r|, count + 1, goal)
  {
  }

  /** When no occurrence is left, replaceAll's loop state is its final outcome. */
  lemma {:induction false} ReplaceDone(s: string, f: string, r: string, pos: nat, count: nat, goal: (string, nat))
    requires |f| > 0 && ReplaceReaches(s, f, r, pos, count, goal) && FindFrom(s, f, pos).NotFound?
    ensures (s, count) == goal
  {
  }

  /** strlib::replaceAll (the source loops forever on an empty `findStr`). */
  method ReplaceAll(str: string, findStr: string, replaceStr: string) returns (res: string, count: nat)
    requires |findStr| > 0
    ensures (res, count) == Replaced(str, findStr, replaceStr)
  {
    res, count := str, 0;
    var pos: nat := 0;
    var found := FindFrom(res, findStr, pos);
    ghost var goal := Replaced(str, findStr, replaceStr);
    while found.FoundAt?
      invariant found == FindFrom(res, findStr, pos)
      invariant ReplaceReaches(res, findStr, replaceStr, pos, count, goal)
      decreases |res| - pos
    {
      res, pos, count, found := ReplaceOnce(res, findStr, replaceStr, pos, count, found, goal);
    }
    ReplaceDone(res, findStr, replaceStr, pos, count, goal);
  }

  /** One pass of replaceAll's loop: replace the occurrence found, search again after the inserted text. */
  method ReplaceOnce(s: string, f: string, r: string, pos: nat, count: nat, found: Found, ghost goal: (string, nat))
    returns (s': string, pos': nat, count': nat, found': Found)
    requires |f| > 0 && found.FoundAt? && found == FindFrom(s, f, pos) && ReplaceReaches(s, f, r, pos, count, goal)
    ensures found' == FindFrom(s', f, pos') && ReplaceReaches(s', f, r, pos', count', goal)
    ensures |s'| - pos' < |s| - pos
  {
    var i := found.index;
    ReplaceStep(s, f, r, pos, i, count, goal);
    s' := s[..i] + r + s[i + |f|..];
    pos' := i + |r|;
    count' := count + 1;
    found' := FindFrom(s', f, pos');
  }

  // ---------------------------------------------------------------------------
  // split and join

  /** A slice that ends before the next occurrence at or after its start contains none. */
  lemma {:induction false} SliceBeforeFound(s: string, pat: string, start: nat, end: nat)
    requires |pat| > 0 && start <= end <= |s|
    requires forall j :: start <= j < end ==> !OccursAt(s, pat, j)
    ensures !Contains(s[start..end], pat)
  {
    forall j: nat ensures !OccursAt(s[start..end], pat, j) {
      OccursInSlice(s, start, end, pat, j);
    }
    FindFromNone(s[start..end], pat, 0);
  }

  /**
   * What split appends, for the part of `s` from `start` on: every piece up to
   * the next delimiter (skipped when empty unless `allowEmpty`), then the rest
   * of the string if it is not empty.
   */
  function SplitFrom(s: string, delim: string, allowEmpty: bool, start: nat): (r: seq<string>)
    requires |delim| > 0
    decreases |s| - start
  {
    var found := FindFrom(s, delim, start);
    if found.FoundAt? then
      var end := found.index;
      (if allowEmpty || start != end then [s[start..end]] else []) + SplitFrom(s, delim, allowEmpty, end + |delim|)
    else if start < |s| then [s[start..]]
    else []
  }

  /** The pieces strlib::split appends to its output vector. */
  function Split(s: string, delim: string, allowEmpty: bool): (r: seq<string>)
    requires |delim| > 0
  {
    SplitFrom(s, delim, allowEmpty, 0)
  }

  /** No piece of split contains the delimiter, and no piece is empty unless `allowEmpty`. */
  lemma {:induction false} SplitFromClean(s: string, delim: string, allowEmpty: bool, start: nat)
    requires |delim| > 0
    ensures forall p :: p in SplitFrom(s, delim, allowEmpty, start) ==> !Contains(p, delim)
    ensures !allowEmpty ==> forall p :: p in SplitFrom(s, delim, allowEmpty, start) ==> p != []
    decreases |s| - start
  {
    FindFromSpec(s, delim, start);
    var found := FindFrom(s, delim, start);
    if found.FoundAt? {
      var end := found.index;
      SliceBeforeFound(s, delim, start, end);
      SplitFromClean(s, delim, allowEmpty, end + |delim|);
    } else if start < |s| {
      SliceBeforeFound(s, delim, start, |s|);
      assert s[start..] == s[start..|s|];
    }
  }

  /** `parts` joined with `sep` between consecutive parts. */
  function Join(parts: seq<string>, sep: string): (r: string) {
    if |parts| == 0 then ""
    else if |parts| == 1 then parts[0]
    else parts[0] + sep + Join(parts[1..], sep)
  }

  /** Joining one more part adds the separator and that part. */
  lemma {:induction false} JoinSnoc(parts: seq<string>, x: string, sep: string)
    requires |parts| > 0
    ensures Join(parts + [x], sep) == Join(parts, sep) + sep + x
  {
    if |parts| > 1 {
      assert (parts + [x])[1..] == parts[1..] + [x];
      JoinSnoc(parts[1..], x, sep);
    } else {
      assert (parts + [x])[1..] == [x];
    }
  }

  /** A piece of `s` lacks every character `s` lacks. */
  lemma {:induction false} SplitAvoidsChar(s: string, delim: string, allowEmpty: bool, start: nat, c: char)
    requires |delim| > 0 && c !in s
    ensures forall p :: p in SplitFrom(s, delim, allowEmpty, start) ==> c !in p
    decreases |s| - start
  {
    var found := FindFrom(s, delim, start);
    if found.FoundAt? {
      var end := found.index;
      var head := if allowEmpty || start != end then [s[start..end]] else [];
      var tail := SplitFrom(s, delim, allowEmpty, end + |delim|);
      assert SplitFrom(s, delim, allowEmpty, start) == head + tail;
      SliceLacks(s, start, end, c);
      SplitAvoidsChar(s, delim, allowEmpty, end + |delim|, c);
      forall p | p in head + tail ensures c !in p {
        if p !in tail {
          assert p == s[start..end];
        }
      }
    } else if start < |s| {
      SliceLacks(s, start, |s|, c);
      assert SplitFrom(s, delim, allowEmpty, start) == [s[start..]];
      assert s[start..] == s[start..|s|];
    } else {
      assert SplitFrom(s, delim, allowEmpty, start) == [];
    }
  }

  /** A slice of `s` lacks every character `s` lacks. */
  lemma {:induction false} SliceLacks(s: string, a: nat, b: nat, c: char)
    requires a <= b <= |s| && c !in s
    ensures c !in s[a..b]
  {
    assert forall x :: x in s[a..b] ==> x in s;
  }

  /** No occurrence of `[d]` inside a stretch of `s` that lacks `d`. */
  lemma {:induction false} NoCharOccurs(s: string, d: char, a: nat, b: nat)
    requires a <= b <= |s| && forall k :: a <= k < b ==> s[k] != d
    ensures forall j :: a <= j < b ==> !OccursAt(s, [d], j)
  {
    forall j | a <= j < b ensures !OccursAt(s, [d], j) {
      OccursSingle(s, d, j);
    }
  }

  /** The last part: the split of `pre + e` from `|pre|` is `[e]`. */
  lemma {:induction false} SplitJoinLast(pre: string, e: string, d: char)
    requires e != [] && d !in e
    ensures SplitFrom(pre + e, [d], true, |pre|) == [e]
  {
    var s := pre + e;
    forall k | |pre| <= k < |s| ensures s[k] != d {
      assert s[k] == e[k - |pre|];
    }
    NoCharOccurs(s, d, |pre|, |s|);
    forall j | |s| <= j ensures !OccursAt(s, [d], j) {
      OccursSingle(s, d, j);
    }
    FindFromNone(s, [d], |pre|);
    assert s[|pre|..] == e;
  }

  /**
   * A part followed by the delimiter: the split from `|pre|` finds the
   * delimiter right after `e`, and takes `e` as a piece unless it is an empty
   * piece that is not allowed.
   */
  lemma {:induction false} SplitJoinFirst(pre: string, e: string, d: char, rest: string, allowEmpty: bool)
    requires d !in e
    ensures SplitFrom(pre + e + [d] + rest, [d], allowEmpty, |pre|)
      == (if allowEmpty || e != [] then [e] else []) + SplitFrom(pre + e + [d] + rest, [d], allowEmpty, |pre + e + [d]|)
  {
    var s := pre + e + [d] + rest;
    DelimAfterPart(pre, e, d, rest);
    assert s[|pre|..|pre| + |e|] == e;
  }

  /** The first `d` from `|pre|` on in `pre + e + [d] + rest` is the one right after `e`. */
  lemma {:induction false} DelimAfterPart(pre: string, e: string, d: char, rest: string)
    requires d !in e
    ensures FindFrom(pre + e + [d] + rest, [d], |pre|) == FoundAt(|pre| + |e|)
  {
    var s := pre + e + [d] + rest;
    forall k | |pre| <= k < |pre| + |e| ensures s[k] != d {
      assert s[k] == e[k - |pre|];
    }
    NoCharOccurs(s, d, |pre|, |pre| + |e|);
    OccursSingle(s, d, |pre| + |e|);
    FindFromIs(s, [d], |pre|, |pre| + |e|);
  }

  /**
   * With a one-character delimiter and empty pieces allowed, split undoes
   * join when no part contains the delimiter and the last part is not empty
   * (an empty last part is dropped).
   */
  lemma {:induction false} SplitJoinFrom(pre: string, v: seq<string>, d: char)
    requires |v| > 0 ==> v[|v| - 1] != []
    requires forall e :: e in v ==> d !in e
    ensures SplitFrom(pre + Join(v, [d]), [d], true, |pre|) == v
    decreases |v|
  {
    if |v| == 0 {
      assert pre + Join(v, [d]) == pre;
      FindFromNone(pre, [d], |pre|);
    } else if |v| == 1 {
      assert v[0] in v;
      SplitJoinLast(pre, v[0], d);
    } else {
      var e, rest := v[0], Join(v[1..], [d]);
      assert e in v;
      assert pre + Join(v, [d]) == pre + e + [d] + rest;
      SplitJoinFirst(pre, e, d, rest, true);
      var pre' := pre + e + [d];
      assert pre + e + [d] + rest == pre' + rest;
      assert forall x :: x in v[1..] ==> x in v;
      SplitJoinFrom(pre', v[1..], d);
      assert v == [e] + v[1..];
    }
  }

  /** Split undoes Join for a one-character delimiter (see SplitJoinFrom). */
  lemma {:induction false} SplitJoin(v: seq<string>, d: char)
    requires |v| > 0 ==> v[|v| - 1] != []
    requires forall e :: e in v ==> d !in e
    ensures Split(Join(v, [d]), [d], true) == v
  {
    SplitJoinFrom("", v, d);
    assert "" + Join(v, [d]) == Join(v, [d]);
  }

  /**
   * Joining the pieces split off from `start` on gives back the rest of the
   * string, when empty pieces are kept and the string does not end with the
   * delimiter (a final delimiter leaves no trailing empty piece).
   */
  lemma {:induction false} JoinSplitFrom(s: string, d: char, start: nat)
    requires start < |s| && s[|s| - 1] != d
    ensures SplitFrom(s, [d], true, start) != []
    ensures Join(SplitFrom(s, [d], true, start), [d]) == s[start..]
    decreases |s| - start
  {
    FindFromSpec(s, [d], start);
    var found := FindFrom(s, [d], start);
    if found.FoundAt? {
      var end := found.index;
      OccursSingle(s, d, end);
      var tail := SplitFrom(s, [d], true, end + 1);
      JoinSplitFrom(s, d, end + 1);
      assert SplitFrom(s, [d], true, start) == [s[start..end]] + tail;
      assert ([s[start..end]] + tail)[1..] == tail;
      assert s[start..] == s[start..end] + [d] + s[end + 1..];
    } else {
      assert SplitFrom(s, [d], true, start) == [s[start..]];
    }
  }

  /** Join undoes Split for a one-character delimiter, with empty pieces kept (see JoinSplitFrom). */
  lemma {:induction false} JoinSplit(s: string, d: char)
    requires s != [] && s[|s| - 1] != d
    ensures Join(Split(s, [d], true), [d]) == s
  {
    JoinSplitFrom(s, d, 0);
  }

  /**
   * split's loop state: the output so far, `out`, followed by the pieces still
   * to come from `start` on, is the final output `goal`.
   */
  ghost predicate SplitReaches(s: string, delim: string, allowEmpty: bool, start: nat, out: seq<string>, goal: seq<string>)
    requires |delim| > 0
  {
    out + SplitFrom(s, delim, allowEmpty, start) == goal
  }

  /** One iteration of split's loop: the piece before the delimiter at `end` moves to the output. */
  lemma {:induction false} SplitStep(s: string, delim: string, allowEmpty: bool, start: nat, out: seq<string>, goal: seq<string>, end: nat)
    requires |delim| > 0 && SplitReaches(s, delim, allowEmpty, start, out, goal)
    requires FindFrom(s, delim, start) == FoundAt(end)
    ensures start <= end <= |s|
    ensures SplitReaches(s, delim, allowEmpty, end + |delim|,
      if allowEmpty || start != end then out + [s[start..end]] else out, goal)
  {
    var rest := SplitFrom(s, delim, allowEmpty, end + |delim|);
    if allowEmpty || start != end {
      assert out + ([s[start..end]] + rest) == (out + [s[start..end]]) + rest;
    } else {
      assert [] + rest == rest;
    }
  }

  /** After split's loop: the rest of the string, if any, completes the output. */
  lemma {:induction false} SplitLast(s: string, delim: string, allowEmpty: bool, start: nat, out: seq<string>, goal: seq<string>)
    requires |delim| > 0 && SplitReaches(s, delim, allowEmpty, start, out, goal)
    requires FindFrom(s, delim, start).NotFound?
    ensures (if start < |s| then out + [s[start..]] else out) == goal
  {
    if start >= |s| {
      assert out + [] == out;
    }
  }

  /** strlib::split (the source loops forever on an empty delimiter). */
  method SplitInto(inStr: string, delim: string, outVec: seq<string>, allowEmpty: bool) returns (out: seq<string>)
    requires |delim| > 0
    ensures out == outVec + Split(inStr, delim, allowEmpty)
  {
    out := outVec;
    var start: nat := 0;
    var found := FindFrom(inStr, delim, start);
    ghost var goal := outVec + Split(inStr, delim, allowEmpty);
    while found.FoundAt?
      invariant found == FindFrom(inStr, delim, start)
      invariant SplitReaches(inStr, delim, allowEmpty, start, out, goal)
      decreases |inStr| - start
    {
      var end := found.index;
      SplitStep(inStr, delim, allowEmpty, start, out, goal, end);
      if allowEmpty || start != end {
        out := out + [inStr[start..end]];
      }
      start := end + |delim|;
      found := FindFrom(inStr, delim, start);
    }
    SplitLast(inStr, delim, allowEmpty, start, out, goal);
    if start < |inStr| {
      out := out + [inStr[start..]];
    }
  }

  // ---------------------------------------------------------------------------
  // getLinesFromString

  /** The text after `while (replaceAll(s, "\r\n", "\n"));`. */
  function CrLfToLf(s: string): (r: string)
    decreases |s|
  {
    var once := Replaced(s, "\r\n", "\n");
    if once.1 == 0 then s
    else
      ReplacedLength(s, "\r\n", "\n");
      CrLfToLf(once.0)
  }

  /** No CRLF is left once the repeated replacement stops. */
  lemma {:induction false} CrLfToLfClean(s: string)
    ensures !Contains(CrLfToLf(s), "\r\n")
    decreases |s|
  {
    var once := Replaced(s, "\r\n", "\n");
    ReplacedNothing(s, "\r\n", "\n");
    if once.1 != 0 {
      ReplacedLength(s, "\r\n", "\n");
      CrLfToLfClean(once.0);
    }
  }

  /** The text getLinesFromString splits: CRLF, then lone CR, turned into LF. */
  function LineText(s: string): (r: string) {
    Replaced(CrLfToLf(s), "\r", "\n").0
  }

  /** The lines strlib::getLinesFromString appends. */
  function Lines(s: string, allowEmpty: bool): (r: seq<string>) {
    Split(LineText(s), "\n", allowEmpty)
  }

  /** getLinesFromString yields lines without CR or LF, and no empty line unless allowed. */
  lemma {:induction false} LinesAreClean(s: string, allowEmpty: bool)
    ensures forall l :: l in Lines(s, allowEmpty) ==> '\r' !in l && '\n' !in l
    ensures !allowEmpty ==> forall l :: l in Lines(s, allowEmpty) ==> l != []
  {
    ReplacedRemovesChar(CrLfToLf(s), '\r', "\n", 0);
    assert LineText(s) == ReplacedFrom(CrLfToLf(s), "\r", "\n", 0).0;
    SplitAvoidsChar(LineText(s), "\n", allowEmpty, 0, '\r');
    SplitFromClean(LineText(s), "\n", allowEmpty, 0);
    forall l | l in Lines(s, allowEmpty) ensures '\n' !in l {
      FindFromSpec(l, "\n", 0);
      forall k | 0 <= k < |l| ensures l[k] != '\n' {
        OccursSingle(l, '\n', k);
      }
    }
  }

  /** Text without CR is its own line text. */
  lemma {:induction false} LineTextPlain(s: string)
    requires '\r' !in s
    ensures LineText(s) == s
  {
    forall j: nat ensures !OccursAt(s, "\r\n", j) {
      if j + 2 <= |s| {
        assert s[j..j + 2][0] == s[j];
      }
    }
    FindFromNone(s, "\r\n", 0);
    ReplacedNothing(s, "\r\n", "\n");
    assert CrLfToLf(s) == s;
    forall j: nat ensures !OccursAt(s, "\r", j) {
      OccursSingle(s, '\r', j);
    }
    FindFromNone(s, "\r", 0);
    ReplacedNothing(s, "\r", "\n");
  }

  /**
   * getLinesFromString undoes joining lines with LF, when no line holds a CR
   * or LF and the last line is not empty.
   */
  lemma {:induction false} LinesOfJoined(ls: seq<string>)
    requires |ls| > 0 ==> ls[|ls| - 1] != []
    requires forall l :: l in ls ==> '\r' !in l && '\n' !in l
    ensures Lines(Join(ls, "\n"), true) == ls
  {
    JoinAvoidsChar(ls, "\n", '\r');
    LineTextPlain(Join(ls, "\n"));
    SplitJoin(ls, '\n');
  }

  /** Each line followed by LF: text as writeToString builds it, line by line. */
  function Unlines(ls: seq<string>): (r: string)
    ensures ls != [] ==> |r| > 0 && r[|r| - 1] == '\n'
    decreases |ls|
  {
    if ls == [] then "" else ls[0] + "\n" + Unlines(ls[1..])
  }

  /** The lines that are not empty, in order. */
  function NonBlank(ls: seq<string>): (r: seq<string>)
    ensures forall l :: l in r ==> l in ls && l != []
    decreases |ls|
  {
    if ls == [] then [] else (if ls[0] == [] then [] else [ls[0]]) + NonBlank(ls[1..])
  }

  /** Unlines of two runs of lines is the concatenation of their texts. */
  lemma {:induction false} UnlinesAppend(a: seq<string>, b: seq<string>)
    ensures Unlines(a + b) == Unlines(a) + Unlines(b)
    decreases |a|
  {
    if a != [] {
      assert (a + b)[0] == a[0] && (a + b)[1..] == a[1..] + b;
      UnlinesAppend(a[1..], b);
    } else {
      assert a + b == b;
    }
  }

  /** Lines that lack a character other than LF give text that lacks it. */
  lemma {:induction false} UnlinesAvoidsChar(ls: seq<string>, c: char)
    requires c != '\n' && forall l :: l in ls ==> c !in l
    ensures c !in Unlines(ls)
    decreases |ls|
  {
    if ls != [] {
      assert ls[0] in ls;
      assert forall l :: l in ls[1..] ==> l in ls;
      UnlinesAvoidsChar(ls[1..], c);
    }
  }

  /** Splitting `pre + Unlines(ls)` on LF from `|pre|` without empty pieces gives the non-empty lines. */
  lemma {:induction false} SplitUnlinesFrom(pre: string, ls: seq<string>)
    requires forall l :: l in ls ==> '\n' !in l
    ensures SplitFrom(pre + Unlines(ls), "\n", false, |pre|) == NonBlank(ls)
    decreases |ls|
  {
    if ls == [] {
      assert pre + Unlines(ls) == pre;
      FindFromNone(pre, "\n", |pre|);
    } else {
      var e, rest := ls[0], Unlines(ls[1..]);
      assert e in ls;
      assert pre + Unlines(ls) == pre + e + ['\n'] + rest;
      SplitJoinFirst(pre, e, '\n', rest, false);
      var pre' := pre + e + ['\n'];
      assert pre + e + ['\n'] + rest == pre' + rest;
      assert forall l :: l in ls[1..] ==> l in ls;
      SplitUnlinesFrom(pre', ls[1..]);
    }
  }

  /**
   * getLinesFromString without empty lines, given lines each ended by LF,
   * gives back exactly the lines that are not empty, when no line holds a CR
   * or LF.
   */
  lemma {:induction false} LinesOfUnlines(ls: seq<string>)
    requires forall l :: l in ls ==> '\r' !in l && '\n' !in l
    ensures Lines(Unlines(ls), false) == NonBlank(ls)
  {
    UnlinesAvoidsChar(ls, '\r');
    LineTextPlain(Unlines(ls));
    SplitUnlinesFrom("", ls);
    assert "" + Unlines(ls) == Unlines(ls);
  }

  /** Joining parts that lack a character, with a separator that lacks it, gives text that lacks it. */
  lemma {:induction false} JoinAvoidsChar(parts: seq<string>, sep: string, c: char)
    requires c !in sep && forall p :: p in parts ==> c !in p
    ensures c !in Join(parts, sep)
  {
    if |parts| > 1 {
      assert parts[0] in parts;
      assert forall p :: p in parts[1..] ==> p in parts;
      JoinAvoidsChar(parts[1..], sep, c);
    } else if |parts| == 1 {
      assert parts[0] in parts;
    }
  }

  /** strlib::getLinesFromString: appends the lines of `inStr` to `lines`. */
  method GetLinesFromString(inStr: string, lines: seq<string>, allowEmpty: bool) returns (out: seq<string>)
    ensures out == lines + Lines(inStr, allowEmpty)
  {
    ghost var prev := inStr;
    var s, count := ReplaceAll(inStr, "\r\n", "\n");
    ReplacedLength(prev, "\r\n", "\n");
    while count > 0
      invariant (s, count) == Replaced(prev, "\r\n", "\n")
      invariant |s| + count == |prev|
      invariant CrLfToLf(prev) == CrLfToLf(inStr)
      decreases |prev|
    {
      prev := s;
      s, count := ReplaceAll(s, "\r\n", "\n");
      ReplacedLength(prev, "\r\n", "\n");
    }
    var text, _ := ReplaceAll(s, "\r", "\n");
    out := SplitInto(text, "\n", lines, allowEmpty);
  }

  // ---------------------------------------------------------------------------
  // toLower, strToBool, isBool

  /** `tolower` in the C locale. */
  function LowerChar(c: char): char {
    if 'A' <= c <= 'Z' then (c as int + 32) as char else c
  }

  /** strlib::toLower, character by character; the length is kept. */
  function Lowered(s: string): (r: string)
    ensures |r| == |s|
    ensures forall i :: 0 <= i < |s| ==> r[i] == LowerChar(s[i])
  {
    seq(|s|, i requires 0 <= i < |s| => LowerChar(s[i]))
  }

  /** strlib::toLower, as the source loops over the characters of its copy. */
  method ToLower(s: string) returns (r: string)
    ensures r == Lowered(s)
  {
    r := s;
    for i := 0 to |r|
      invariant |r| == |s|
      invariant forall k :: 0 <= k < i ==> r[k] == LowerChar(s[k])
      invariant forall k :: i <= k < |r| ==> r[k] == s[k]
    {
      r := r[i := LowerChar(r[i])];
    }
  }

  /** strlib::strToBool */
  predicate StrToBool(s: string) {
    Lowered(s) == "true"
  }

  /** strlib::isBool */
  predicate IsBool(s: string) {
    Lowered(s) == "true" || Lowered(s) == "false"
  }

  /** `s` equals the lower-case word `w`, ignoring ASCII case. */
  predicate EqualsIgnoringCase(s: string, w: string) {
    |s| == |w| && forall i :: 0 <= i < |s| ==> LowerChar(s[i]) == w[i]
  }

  /**
   * strToBool holds exactly for the case-insensitive word "true", isBool for it
   * and "false"; so strToBool implies isBool.
   */
  lemma {:induction false} BoolWords(s: string)
    ensures StrToBool(s) <==> EqualsIgnoringCase(s, "true")
    ensures IsBool(s) <==> EqualsIgnoringCase(s, "true") || EqualsIgnoringCase(s, "false")
    ensures StrToBool(s) ==> IsBool(s)
  {
    var l := Lowered(s);
    if EqualsIgnoringCase(s, "true") {
      assert l == "true";
    }
    if EqualsIgnoringCase(s, "false") {
      assert l == "false";
    }
  }

  // ---------------------------------------------------------------------------
  // mustEndWith

  /** `s` ends with `e`. */
  predicate EndsWith(s: string, e: string) {
    |s| >= |e| && s[|s| - |e|..] == e
  }

  /**
   * strlib::mustEndWith as written: it appends `e`, and returns false, when
   * `s` is shorter than `e` or ALREADY ends with `e` (the comparison result is
   * negated); otherwise it leaves `s` and returns true.
   */
  function MustEndWith(s: string, e: string): (r: (string, bool))
    ensures !r.1 <==> |s| < |e| || EndsWith(s, e)
    ensures r.0 == if r.1 then s else s + e
  {
    if |s| < |e| || s[|s| - |e|..] == e then (s + e, false) else (s, true)
  }

  /** mustEndWith as written doubles a suffix that is there and omits one that is not. */
  lemma {:induction false} MustEndWithInverted()
    ensures MustEndWith("a.cfg", ".cfg") == ("a.cfg.cfg", false)
    ensures MustEndWith("a.txt", ".cfg") == ("a.txt", true) && !EndsWith("a.txt", ".cfg")
  {
    assert "a.cfg"[1..] == ".cfg";
    assert "a.cfg" + ".cfg" == "a.cfg.cfg";
    assert "a.txt"[1..][3] == 't';
  }

  /**
   * mustEndWith as its declaration describes it: append `e` unless `s`
   * already ends with it, and return whether it did.
   */
  function MustEndWithIntended(s: string, e: string): (r: (string, bool))
    ensures EndsWith(r.0, e)
    ensures r.1 == EndsWith(s, e)
    ensures r.0 == if r.1 then s else s + e
  {
    if EndsWith(s, e) then (s, true)
    else
      assert (s + e)[|s + e| - |e|..] == e;
      (s + e, false)
  }
}
