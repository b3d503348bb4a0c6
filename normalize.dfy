/**
 * `normalize_svensk_namn`: how the scraper cleans a first name, surname, city or street before
 * it builds a search query.
 */
module Normalize {
  import opened Text

  /** The digraph rewrites, applied one after the other in this order; each is case-sensitive. */
  const Digraphs: seq<(string, string)> :=
    [("aa", "å"), ("ae", "ä"), ("oe", "ö"), ("AA", "Å"), ("AE", "Ä"), ("OE", "Ö")]

  /** Every pattern is non-empty and no replacement is longer than its pattern. */
  predicate Shrinking(table: seq<(string, string)>) {
    forall i :: 0 <= i < |table| ==> |table[i].0| > 0 && |table[i].1| <= |table[i].0|
  }

  /** Apply `s.replace(pat, rep)` for each pair of `table` in turn. */
  function ReplaceEach(s: string, table: seq<(string, string)>): (r: string)
    requires Shrinking(table)
    ensures |r| <= |s|
    decreases |table|
  {
    if table == [] then s
    else ReplaceEach(Replace(s, table[0].0, table[0].1), table[1..])
  }

  /** The characters `[\w\såäöÅÄÖ-]` lets through. */
  predicate Allowed(c: char) {
    IsWordChar(c) || IsSpace(c) || IsSwedishLetter(c) || c == '-'
  }

  /** `re.sub(r'[^\w\såäöÅÄÖ-]', '', s)`: drop every character that is not allowed. */
  function KeepAllowed(s: string): (r: string)
    ensures |r| <= |s|
    ensures forall i :: 0 <= i < |r| ==> Allowed(r[i])
  {
    if s == [] then []
    else if Allowed(s[0]) then [s[0]] + KeepAllowed(s[1..])
    else KeepAllowed(s[1..])
  }

  /** Dropping characters never brings in a whitespace character other than the plain space. */
  lemma {:induction false} KeepAllowedSpaces(s: string)
    requires forall i :: 0 <= i < |s| && IsSpace(s[i]) ==> s[i] == ' '
    ensures forall i :: 0 <= i < |KeepAllowed(s)| && IsSpace(KeepAllowed(s)[i]) ==> KeepAllowed(s)[i] == ' '
  {
    if s != [] {
      KeepAllowedSpaces(s[1..]);
    }
  }

  /**
   * `normalize_svensk_namn(namn)`: empty input stays empty; otherwise strip, rewrite the
   * digraphs, collapse whitespace runs to one space, drop disallowed characters and title-case.
   */
  function NormalizeSvenskNamn(namn: string): string {
    if namn == "" then ""
    else Title(KeepAllowed(CollapseSpaces(ReplaceEach(Strip(namn), Digraphs))))
  }

  /** The `replace` calls in turn, one per pair of the table. */
  method RewriteAll(s0: string, table0: seq<(string, string)>) returns (s: string)
    requires Shrinking(table0)
    ensures s == ReplaceEach(s0, table0)
  {
    s := s0;
    var table := table0;
    while table != []
      invariant Shrinking(table)
      invariant ReplaceEach(s, table) == ReplaceEach(s0, table0)
    {
      s := Replace(s, table[0].0, table[0].1);
      table := table[1..];
    }
  }

  /** The normaliser as the scraper runs it: strip, one `replace` per digraph in turn, then clean up. */
  method NormalizeName(namn: string) returns (r: string)
    ensures r == NormalizeSvenskNamn(namn)
  {
    if namn == "" {
      return "";
    }
    var s := RewriteAll(Strip(namn), Digraphs);
    s := CollapseSpaces(s);
    s := KeepAllowed(s);
    r := Title(s);
  }

  /** Only word characters, åäöÅÄÖ, '-' and plain spaces. */
  predicate Clean(s: string) {
    forall i :: 0 <= i < |s| ==> Allowed(s[i]) && (IsSpace(s[i]) ==> s[i] == ' ')
  }

  /** Title-casing keeps a clean string clean. */
  lemma TitleClean(s: string)
    requires Clean(s)
    ensures Clean(Title(s))
  {
    TitleKeepsClasses(s);
    var t := Title(s);
    forall i | 0 <= i < |t|
      ensures Allowed(t[i]) && (IsSpace(t[i]) ==> t[i] == ' ')
    {
      assert Allowed(s[i]);
      if IsCased(s[i]) {
        assert IsCased(t[i]) && !IsSpace(t[i]);
      } else {
        assert t[i] == s[i];
      }
    }
  }

  /** The result is clean and never longer than the input. */
  lemma NormalizeShape(namn: string)
    ensures |NormalizeSvenskNamn(namn)| <= |namn|
    ensures namn == "" ==> NormalizeSvenskNamn(namn) == ""
    ensures Clean(NormalizeSvenskNamn(namn))
  {
    if namn != "" {
      var c := CollapseSpaces(ReplaceEach(Strip(namn), Digraphs));
      KeepAllowedSpaces(c);
      var k := KeepAllowed(c);
      assert Clean(k);
      TitleClean(k);
      TitleKeepsClasses(k);
      assert NormalizeSvenskNamn(namn) == Title(k);
    }
  }

  /** `pat` occurs in `s` at index `i`. */
  predicate OccursAt(s: string, pat: string, i: nat) {
    i + |pat| <= |s| && s[i..i + |pat|] == pat
  }

  /** `s` has no occurrence of `pat`. */
  ghost predicate Absent(s: string, pat: string) {
    forall i: nat :: !OccursAt(s, pat, i)
  }

  /** `s.replace(pat, rep)` leaves `s` alone when `pat` does not occur in it. */
  lemma {:induction false} ReplaceAbsent(s: string, pat: string, rep: string)
    requires |pat| > 0 && Absent(s, pat)
    ensures Replace(s, pat, rep) == s
    decreases |s|
  {
    if |s| >= |pat| {
      assert !OccursAt(s, pat, 0);
      var tail := s[1..];
      forall i: nat
        ensures !OccursAt(tail, pat, i)
      {
        assert !OccursAt(s, pat, i + 1);
        if i + |pat| <= |tail| {
          assert tail[i..i + |pat|] == s[i + 1..i + 1 + |pat|];
        }
      }
      ReplaceAbsent(tail, pat, rep);
      assert [s[0]] + tail == s;
    }
  }

  /** The rewrites of a table none of whose patterns occur leave `s` alone. */
  lemma {:induction false} ReplaceEachAbsent(s: string, table: seq<(string, string)>)
    requires Shrinking(table)
    requires forall k :: 0 <= k < |table| ==> Absent(s, table[k].0)
    ensures ReplaceEach(s, table) == s
    decreases |table|
  {
    if table != [] {
      ReplaceAbsent(s, table[0].0, table[0].1);
      ReplaceEachAbsent(s, table[1..]);
    }
  }

  /** Dropping disallowed characters leaves a string of allowed ones alone. */
  lemma {:induction false} KeepAllowedFixed(s: string)
    requires forall i :: 0 <= i < |s| ==> Allowed(s[i])
    ensures KeepAllowed(s) == s
  {
    if s != [] {
      KeepAllowedFixed(s[1..]);
      assert [s[0]] + s[1..] == s;
    }
  }

  /** A two-character pattern is absent when no two neighbours of `s` spell it. */
  lemma AbsentPair(s: string, pat: string)
    requires |pat| == 2
    requires forall i :: 0 <= i < |s| - 1 ==> s[i] != pat[0] || s[i + 1] != pat[1]
    ensures Absent(s, pat)
  {
    forall i: nat
      ensures !OccursAt(s, pat, i)
    {
      if i + 2 <= |s| {
        assert s[i..i + 2][0] == s[i] && s[i..i + 2][1] == s[i + 1];
      }
    }
  }

  /** None of the six digraph patterns occurs in `s`. */
  ghost predicate NoDigraph(s: string) {
    forall k :: 0 <= k < |Digraphs| ==> Absent(s, Digraphs[k].0)
  }

  /**
   * A name that is already clean, has no surrounding whitespace, no whitespace run and no
   * digraph is only title-cased.
   */
  lemma NormalizeFixed(namn: string)
    requires namn != "" && Clean(namn) && SingleSpaced(namn) && NoDigraph(namn)
    requires !IsSpace(namn[0]) && !IsSpace(namn[|namn| - 1])
    ensures NormalizeSvenskNamn(namn) == Title(namn)
  {
    assert TrimLeft(namn) == namn;
    assert Strip(namn) == namn;
    ReplaceEachAbsent(namn, Digraphs);
    CollapseFixed(namn);
    KeepAllowedFixed(namn);
  }

  /** "baAb" holds no digraph, so it is only title-cased, to "Baab". */
  lemma NormalizeBaAb()
    ensures NormalizeSvenskNamn("baAb") == "Baab"
  {
    forall k | 0 <= k < |Digraphs|
      ensures Absent("baAb", Digraphs[k].0)
    {
      AbsentPair("baAb", Digraphs[k].0);
    }
    NormalizeFixed("baAb");
    TitleBaAb();
  }

  lemma TitleBaAb()
    ensures Title("baAb") == "Baab"
  {
    assert TitleFrom("b", true) == "b";
    assert TitleFrom("Ab", true) == "ab";
    assert TitleFrom("aAb", false) == "Aab";
  }

  /** The rewrites turn the "aa" of "Baab" into "å" and find nothing else. */
  lemma RewriteBaab()
    ensures ReplaceEach("Baab", Digraphs) == "Båb"
  {
    assert Replace("Baab", "aa", "å") == "Båb" by {
      assert "Baab"[..2][0] == 'B';
      assert "Baab"[1..] == "aab" && "aab"[..2] == "aa" && "aab"[2..] == "b";
    }
    forall k | 1 <= k < |Digraphs|
      ensures Absent("Båb", Digraphs[k].0)
    {
      AbsentPair("Båb", Digraphs[k].0);
    }
    ReplaceEachAbsent("Båb", Digraphs[1..]);
  }

  /** "Båb" is already clean, single-spaced and title-cased. */
  lemma CleanupBab()
    ensures Title(KeepAllowed(CollapseSpaces("Båb"))) == "Båb"
  {
    CollapseFixed("Båb");
    KeepAllowedFixed("Båb");
  }

  /** "Baab" has the digraph "aa", which becomes "å". */
  lemma NormalizeBaab()
    ensures NormalizeSvenskNamn("Baab") == "Båb"
  {
    assert Strip("Baab") == "Baab";
    RewriteBaab();
    CleanupBab();
  }

  /**
   * Normalising is not idempotent: title-casing "baAb" gives "Baab", whose "aa" a second
   * pass rewrites.
   */
  lemma NormalizeNotIdempotent()
    ensures NormalizeSvenskNamn(NormalizeSvenskNamn("baAb")) == "Båb"
    ensures NormalizeSvenskNamn("baAb") != NormalizeSvenskNamn(NormalizeSvenskNamn("baAb"))
  {
    NormalizeBaAb();
    NormalizeBaab();
  }
}
