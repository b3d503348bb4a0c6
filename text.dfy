/**
 * String primitives the scraper relies on from Python: character classes of `re` and
 * `str`, `strip`, `split`, `replace`, `title`, `lower`, `int()` and `str()` of integers.
 * Character classes cover ASCII, the Latin-1 whitespace characters and the Swedish
 * letters å ä ö Å Ä Ö; wider Unicode is not modelled.
 */
module Text {
  import opened Wrappers

  // ---------------------------------------------------------------- characters

  /** Whitespace as `\s`, `str.strip` and `str.split` see it (Latin-1 part). */
  predicate IsSpace(c: char) {
    c == ' ' || ('\t' <= c <= '\r') || ('\U{1C}' <= c <= '\U{1F}') || c == '\U{85}' || c == '\U{A0}'
  }

  predicate IsDigit(c: char) {
    '0' <= c <= '9'
  }

  predicate IsAsciiLetter(c: char) {
    ('a' <= c <= 'z') || ('A' <= c <= 'Z')
  }

  predicate IsSwedishLetter(c: char) {
    c == 'å' || c == 'ä' || c == 'ö' || c == 'Å' || c == 'Ä' || c == 'Ö'
  }

  /** A character that has an upper- and a lower-case form. */
  predicate IsCased(c: char) {
    IsAsciiLetter(c) || IsSwedishLetter(c)
  }

  /** `\w`: letters, digits and the underscore. */
  predicate IsWordChar(c: char) {
    IsAsciiLetter(c) || IsDigit(c) || c == '_' || IsSwedishLetter(c)
  }

  function Lower(c: char): (r: char)
    ensures IsCased(r) == IsCased(c)
    ensures IsWordChar(r) == IsWordChar(c) && IsSpace(r) == IsSpace(c)
    ensures !IsCased(c) ==> r == c
  {
    if 'A' <= c <= 'Z' then (c as int + 32) as char
    else if c == 'Å' then 'å'
    else if c == 'Ä' then 'ä'
    else if c == 'Ö' then 'ö'
    else c
  }

  function Upper(c: char): (r: char)
    ensures IsCased(r) == IsCased(c)
    ensures IsWordChar(r) == IsWordChar(c) && IsSpace(r) == IsSpace(c)
    ensures !IsCased(c) ==> r == c
  {
    if 'a' <= c <= 'z' then (c as int - 32) as char
    else if c == 'å' then 'Å'
    else if c == 'ä' then 'Ä'
    else if c == 'ö' then 'Ö'
    else c
  }

  /** `str.lower()`. */
  function LowerString(s: string): (r: string)
    ensures |r| == |s|
    ensures forall i :: 0 <= i < |s| ==> r[i] == Lower(s[i])
  {
    if s == [] then [] else [Lower(s[0])] + LowerString(s[1..])
  }

  // ---------------------------------------------------------------- trimming

  /** `s.lstrip()`. */
  function TrimLeft(s: string): (r: string)
    ensures |r| <= |s| && r == s[|s| - |r|..]
    ensures r == [] || !IsSpace(r[0])
    ensures forall i :: 0 <= i < |s| - |r| ==> IsSpace(s[i])
  {
    if s != [] && IsSpace(s[0]) then TrimLeft(s[1..]) else s
  }

  /** `s.rstrip()`. */
  function TrimRight(s: string): (r: string)
    ensures |r| <= |s| && r == s[..|r|]
    ensures r == [] || !IsSpace(r[|r| - 1])
    ensures forall i :: |r| <= i < |s| ==> IsSpace(s[i])
  {
    if s != [] && IsSpace(s[|s| - 1]) then TrimRight(s[..|s| - 1]) else s
  }

  /** `s.strip()`: a slice of `s` that neither starts nor ends with whitespace. */
  function Strip(s: string): (r: string)
    ensures |r| <= |s|
    ensures r == [] || (!IsSpace(r[0]) && !IsSpace(r[|r| - 1]))
  {
    TrimRight(TrimLeft(s))
  }

  // ---------------------------------------------------------------- rewriting

  /** `re.sub(r'\s+', ' ', s)`: every maximal run of whitespace becomes one space. */
  function CollapseSpaces(s: string): (r: string)
    ensures |r| <= |s|
    ensures forall i :: 0 <= i < |r| && IsSpace(r[i]) ==> r[i] == ' '
    decreases |s|
  {
    if s == [] then []
    else if IsSpace(s[0]) then
      var rest := TrimLeft(s);
      assert |rest| < |s|;
      [' '] + CollapseSpaces(rest)
    else [s[0]] + CollapseSpaces(s[1..])
  }

  /** No two whitespace characters stand next to each other. */
  predicate SingleSpaced(s: string) {
    forall i :: 0 <= i < |s| - 1 ==> !(IsSpace(s[i]) && IsSpace(s[i + 1]))
  }

  /** After collapsing, no two whitespace characters stand next to each other. */
  lemma {:induction false} CollapseSingle(s: string)
    ensures SingleSpaced(CollapseSpaces(s))
    decreases |s|
  {
    if s != [] {
      if IsSpace(s[0]) {
        var rest := TrimLeft(s);
        CollapseSingle(rest);
      } else {
        CollapseSingle(s[1..]);
      }
    }
  }

  /** A string that ends in a non-space still does after collapsing. */
  lemma {:induction false} CollapseLast(s: string)
    requires s != [] && !IsSpace(s[|s| - 1])
    ensures CollapseSpaces(s) != [] && !IsSpace(CollapseSpaces(s)[|CollapseSpaces(s)| - 1])
    decreases |s|
  {
    if IsSpace(s[0]) {
      var rest := TrimLeft(s);
      assert rest != [] && rest[|rest| - 1] == s[|s| - 1];
      CollapseLast(rest);
    } else if |s| > 1 {
      CollapseLast(s[1..]);
    }
  }

  /**
   * `re.sub(r'\s+', ' ', s.strip())` has no surrounding whitespace, no whitespace run and no
   * whitespace but the plain space.
   */
  lemma CollapseStripped(s: string)
    ensures var r := CollapseSpaces(Strip(s));
      && (r == [] || (!IsSpace(r[0]) && !IsSpace(r[|r| - 1])))
      && SingleSpaced(r)
      && (forall i :: 0 <= i < |r| && IsSpace(r[i]) ==> r[i] == ' ')
  {
    var t := Strip(s);
    CollapseSingle(t);
    if t != [] {
      CollapseLast(t);
      assert CollapseSpaces(t)[0] == t[0];
    }
  }

  /** Dropping the first character keeps a string single-spaced with only plain spaces. */
  lemma SpacedTail(s: string)
    requires s != [] && SingleSpaced(s)
    requires forall i :: 0 <= i < |s| && IsSpace(s[i]) ==> s[i] == ' '
    ensures SingleSpaced(s[1..])
    ensures forall i :: 0 <= i < |s| - 1 && IsSpace(s[1..][i]) ==> s[1..][i] == ' '
    ensures IsSpace(s[0]) ==> |s| == 1 || !IsSpace(s[1])
  {
    var tail := s[1..];
    forall i | 0 <= i < |tail| - 1
      ensures !(IsSpace(tail[i]) && IsSpace(tail[i + 1]))
    {
      assert tail[i] == s[i + 1] && tail[i + 1] == s[i + 2];
    }
  }

  /** Collapsing leaves a string alone when its only whitespace is single plain spaces. */
  lemma {:induction false} CollapseFixed(s: string)
    requires SingleSpaced(s)
    requires forall i :: 0 <= i < |s| && IsSpace(s[i]) ==> s[i] == ' '
    ensures CollapseSpaces(s) == s
    decreases |s|
  {
    if s != [] {
      var tail := s[1..];
      SpacedTail(s);
      CollapseFixed(tail);
      if IsSpace(s[0]) {
        assert TrimLeft(tail) == tail;
        assert CollapseSpaces(s) == [' '] + CollapseSpaces(tail);
      } else {
        assert CollapseSpaces(s) == [s[0]] + CollapseSpaces(tail);
      }
      assert [s[0]] + tail == s;
    }
  }

  /** `s.replace(pat, rep)`: non-overlapping occurrences, scanned left to right. */
  function Replace(s: string, pat: string, rep: string): (r: string)
    requires |pat| > 0
    ensures |rep| <= |pat| ==> |r| <= |s|
    decreases |s|
  {
    if |s| < |pat| then s
    else if s[..|pat|] == pat then rep + Replace(s[|pat|..], pat, rep)
    else [s[0]] + Replace(s[1..], pat, rep)
  }

  /**
   * `str.title()` from a given context: a cased character is upper-cased when the character
   * before it is uncased (or there is none) and lower-cased otherwise.
   */
  function TitleFrom(s: string, afterCased: bool): (r: string)
    ensures |r| == |s|
  {
    if s == [] then []
    else [if afterCased then Lower(s[0]) else Upper(s[0])] + TitleFrom(s[1..], IsCased(s[0]))
  }

  /** `str.title()`. */
  function Title(s: string): string {
    TitleFrom(s, false)
  }

  /**
   * Character `i` of `TitleFrom(s, afterCased)`: upper-cased at the start of a run of cased
   * characters, lower-cased inside one, and left alone when uncased.
   */
  lemma {:induction false} TitleFromAt(s: string, afterCased: bool, i: nat)
    requires i < |s|
    ensures TitleFrom(s, afterCased)[i] ==
      if (if i == 0 then afterCased else IsCased(s[i - 1])) then Lower(s[i]) else Upper(s[i])
  {
    if i > 0 {
      TitleFromAt(s[1..], IsCased(s[0]), i - 1);
    }
  }

  /** `str.title()` keeps every character's class: cased, word character, whitespace, other. */
  lemma TitleKeepsClasses(s: string)
    ensures |Title(s)| == |s|
    ensures forall i :: 0 <= i < |s| ==>
      && IsCased(Title(s)[i]) == IsCased(s[i])
      && IsWordChar(Title(s)[i]) == IsWordChar(s[i])
      && IsSpace(Title(s)[i]) == IsSpace(s[i])
      && (!IsCased(s[i]) ==> Title(s)[i] == s[i])
  {
    forall i | 0 <= i < |s|
      ensures IsCased(Title(s)[i]) == IsCased(s[i]) && IsWordChar(Title(s)[i]) == IsWordChar(s[i])
      ensures IsSpace(Title(s)[i]) == IsSpace(s[i]) && (!IsCased(s[i]) ==> Title(s)[i] == s[i])
    {
      TitleFromAt(s, false, i);
    }
  }

  // ---------------------------------------------------------------- tokens

  predicate StartsWith(s: string, prefix: string) {
    |prefix| <= |s| && s[..|prefix|] == prefix
  }

  /** `k in s` for strings. */
  predicate Contains(s: string, k: string)
    decreases |s|
  {
    StartsWith(s, k) || (s != [] && Contains(s[1..], k))
  }

  /** Length of the leading run of non-whitespace characters. */
  function WordLength(s: string): (n: nat)
    ensures n <= |s|
    ensures forall i :: 0 <= i < n ==> !IsSpace(s[i])
    ensures n == |s| || IsSpace(s[n])
  {
    if s == [] || IsSpace(s[0]) then 0 else 1 + WordLength(s[1..])
  }

  /** A word of `split()`: a non-empty run of non-whitespace characters. */
  predicate IsWord(w: string) {
    |w| > 0 && forall j :: 0 <= j < |w| ==> !IsSpace(w[j])
  }

  /** `s.split()`: the maximal runs of non-whitespace characters, in order. */
  function Split(s: string): seq<string>
    decreases |s|
  {
    var t := TrimLeft(s);
    if t == [] then []
    else
      var n := WordLength(t);
      [t[..n]] + Split(t[n..])
  }

  /** The leading run of a string that starts with a non-space is a word. */
  lemma FirstWord(t: string)
    requires t != [] && !IsSpace(t[0])
    ensures WordLength(t) > 0 && IsWord(t[..WordLength(t)])
  {
  }

  /** Every part of `split()` is a word. */
  lemma {:induction false} SplitWords(s: string)
    ensures forall i :: 0 <= i < |Split(s)| ==> IsWord(Split(s)[i])
    decreases |s|
  {
    var t := TrimLeft(s);
    if t != [] {
      var n := WordLength(t);
      FirstWord(t);
      SplitWords(t[n..]);
      var rest := Split(t[n..]);
      assert Split(s) == [t[..n]] + rest;
      forall i | 0 <= i < |Split(s)|
        ensures IsWord(Split(s)[i])
      {
        if i > 0 {
          assert Split(s)[i] == rest[i - 1];
        }
      }
    }
  }

  /** `sep.join(parts)`. */
  function Join(sep: string, parts: seq<string>): string {
    if parts == [] then ""
    else if |parts| == 1 then parts[0]
    else parts[0] + sep + Join(sep, parts[1..])
  }

  // ---------------------------------------------------------------- numbers

  function DigitChar(d: nat): (c: char)
    requires d < 10
    ensures IsDigit(c)
  {
    ('0' as int + d) as char
  }

  /** `str(n)` for a non-negative integer. */
  function NatToString(n: nat): (r: string)
    ensures |r| >= 1
    ensures forall i :: 0 <= i < |r| ==> IsDigit(r[i])
  {
    if n < 10 then [DigitChar(n)] else NatToString(n / 10) + [DigitChar(n % 10)]
  }

  /** `str(i)` for an integer. */
  function IntToString(i: int): string {
    if i < 0 then "-" + NatToString(-i) else NatToString(i)
  }

  predicate AllDigits(s: string) {
    forall i :: 0 <= i < |s| ==> IsDigit(s[i])
  }

  /**
   * The digits of an integer literal as `int()` accepts them: at least one digit, and an
   * underscore only between two digits.
   */
  predicate IsDigitGroup(s: string) {
    |s| > 0 &&
    forall i :: 0 <= i < |s| ==>
      IsDigit(s[i]) || (s[i] == '_' && 0 < i && i + 1 < |s| && IsDigit(s[i + 1]))
  }

  /** The decimal value of the digits of `s`, underscores skipped. */
  function DigitsValue(s: string): nat {
    if s == [] then 0
    else
      var c := s[|s| - 1];
      if IsDigit(c) then 10 * DigitsValue(s[..|s| - 1]) + (c as int - '0' as int)
      else DigitsValue(s[..|s| - 1])
  }

  /**
   * `int(s)` in base 10: whitespace around the number is ignored and one leading sign is
   * allowed; anything else raises `ValueError`, here `None`.
   */
  function PyInt(s: string): Option<int> {
    var t := Strip(s);
    if t != [] && (t[0] == '+' || t[0] == '-') then
      if IsDigitGroup(t[1..]) then
        var v: int := DigitsValue(t[1..]);
        Some(if t[0] == '-' then -v else v)
      else None
    else if IsDigitGroup(t) then Some(DigitsValue(t))
    else None
  }

  /** A plain run of digits is read as its decimal value. */
  lemma PyIntOfDigits(s: string)
    requires s != [] && AllDigits(s)
    ensures PyInt(s) == Some(DigitsValue(s))
  {
    assert IsDigit(s[0]) && IsDigit(s[|s| - 1]);
    assert TrimLeft(s) == s;
    assert TrimRight(s) == s;
    assert Strip(s) == s;
    assert s[0] != '+' && s[0] != '-';
    assert IsDigitGroup(s);
  }
}
