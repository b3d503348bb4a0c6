/**
 * `intelligent_search_builder`: from the search parameters, the (query, confidence) pairs the
 * scraper tries, best first, at most four of them.
 */
module Strategy {
  import opened Wrappers
  import opened Text
  import opened Normalize

  /** The optional search parameters of `search_person`; `None` is Python's `None`. */
  datatype SearchInput = SearchInput(
    fornamn: Option<string>,
    efternamn: Option<string>,
    ort: Option<string>,
    gata: Option<string>,
    alder: Option<int>)

  /** A query string and the confidence the builder gives it. */
  datatype Candidate = Candidate(query: string, confidence: real)

  /** A parameter after the builder's normalisation; "" stands for every falsy value. */
  function Norm(s: Option<string>): (r: string)
    ensures !Truthy(s) ==> r == ""
  {
    if Truthy(s) then NormalizeSvenskNamn(s.value) else ""
  }

  /** The birth year the builder searches for: `2025 - ålder`. */
  const ReferenceYear: int := 2025

  /** `[c]` when `b` holds, else `[]`: one `if ...: sökstrategier.append(c)`. */
  function Opt(b: bool, c: Candidate): (r: seq<Candidate>)
    ensures b ==> r == [c]
    ensures !b ==> r == []
  {
    if b then [c] else []
  }

  /**
   * The candidates the builder appends, in order, from the normalised first name `f`, surname
   * `e`, city `o` and street `g` ("" for a falsy value) and the age.
   */
  function Generated(f: string, e: string, o: string, g: string, age: Option<int>): seq<Candidate> {
    Opt(|f| > 0 && |e| > 0 && |o| > 0, Candidate(f + "+" + e + "+" + o, 1.0))
    + Opt(|g| > 0 && |o| > 0 && |f| > 0 && |e| > 0, Candidate(f + "+" + e + "+" + g + "+" + o, 0.95))
    + Opt(|g| > 0 && |o| > 0 && |f| > 0 && |e| == 0, Candidate(f + "+" + g + "+" + o, 0.8))
    + Opt(|f| > 0 && |o| > 0, Candidate(f + "+" + o, 0.7))
    + Opt(|e| > 0 && |o| > 0, Candidate(e + "+" + o, 0.6))
    + Opt(AgeTruthy(age) && |f| > 0 && |e| > 0,
          Candidate(f + "+" + e + "+" + IntToString(ReferenceYear - age.GetOr(0)), 0.5))
  }

  /** Confidences do not increase along `s`. */
  predicate NonIncreasing(s: seq<Candidate>) {
    forall i, j :: 0 <= i < j < |s| ==> s[i].confidence >= s[j].confidence
  }

  /** Confidences strictly decrease along `s`. */
  predicate Decreasing(s: seq<Candidate>) {
    forall i, j :: 0 <= i < j < |s| ==> s[i].confidence > s[j].confidence
  }

  /** Put `c` before the first element of `s` whose confidence it reaches. */
  function Insert(c: Candidate, s: seq<Candidate>): (r: seq<Candidate>)
    ensures |r| == |s| + 1
    ensures r[0] == c || (s != [] && r[0] == s[0])
    ensures multiset(r) == multiset(s) + multiset{c}
  {
    if s == [] || c.confidence >= s[0].confidence then [c] + s
    else
      assert s == [s[0]] + s[1..];
      [s[0]] + Insert(c, s[1..])
  }

  /** Inserting into a best-first list keeps it best-first. */
  lemma {:induction false} InsertSorted(c: Candidate, s: seq<Candidate>)
    requires NonIncreasing(s)
    ensures NonIncreasing(Insert(c, s))
  {
    if s != [] && c.confidence < s[0].confidence {
      InsertSorted(c, s[1..]);
      var t := Insert(c, s[1..]);
      assert t[0].confidence <= s[0].confidence;
      assert forall j :: 0 <= j < |t| ==> t[j].confidence <= t[0].confidence;
    }
  }

  /**
   * `list.sort(key=confidence, reverse=True)`: a stable sort, best first, where an element
   * goes ahead of the later elements it ties with.
   */
  function SortByConfidence(s: seq<Candidate>): (r: seq<Candidate>)
    ensures multiset(r) == multiset(s)
  {
    if s == [] then []
    else
      assert s == [s[0]] + s[1..];
      Insert(s[0], SortByConfidence(s[1..]))
  }

  /** The sort puts the list best first. */
  lemma {:induction false} SortSorts(s: seq<Candidate>)
    ensures NonIncreasing(SortByConfidence(s))
  {
    if s != [] {
      SortSorts(s[1..]);
      InsertSorted(s[0], SortByConfidence(s[1..]));
    }
  }

  /** Sorting a list that is already best-first leaves it as it is. */
  lemma {:induction false} SortKeepsSorted(s: seq<Candidate>)
    requires NonIncreasing(s)
    ensures SortByConfidence(s) == s
  {
    if s != [] {
      SortKeepsSorted(s[1..]);
    }
  }

  /** `s[:4]`. */
  function Take4(s: seq<Candidate>): (r: seq<Candidate>)
    ensures |r| <= 4 && |r| <= |s| && r == s[..|r|]
    ensures |s| <= 4 ==> r == s
  {
    if |s| <= 4 then s else s[..4]
  }

  /** Every confidence in `s` is above `lo`. */
  predicate AllAbove(s: seq<Candidate>, lo: real) {
    forall i :: 0 <= i < |s| ==> s[i].confidence > lo
  }

  /** A rule's candidate alone is strictly decreasing and above any lower confidence. */
  lemma FirstRule(b: bool, c: Candidate, lo: real)
    requires c.confidence > lo
    ensures Decreasing(Opt(b, c)) && AllAbove(Opt(b, c), lo)
  {
  }

  /**
   * Appending a rule's candidate below everything already there keeps the list strictly
   * decreasing, and above any confidence below the candidate's.
   */
  lemma NextRule(s: seq<Candidate>, b: bool, c: Candidate, lo: real)
    requires Decreasing(s) && AllAbove(s, c.confidence) && c.confidence > lo
    ensures Decreasing(s + Opt(b, c)) && AllAbove(s + Opt(b, c), lo)
  {
  }

  /** The rules come in strictly decreasing confidence, so the candidates do too. */
  lemma GeneratedDecreasing(f: string, e: string, o: string, g: string, age: Option<int>)
    ensures Decreasing(Generated(f, e, o, g, age))
  {
    var c1 := Candidate(f + "+" + e + "+" + o, 1.0);
    var c2 := Candidate(f + "+" + e + "+" + g + "+" + o, 0.95);
    var c3 := Candidate(f + "+" + g + "+" + o, 0.8);
    var c4 := Candidate(f + "+" + o, 0.7);
    var c5 := Candidate(e + "+" + o, 0.6);
    var c6 := Candidate(f + "+" + e + "+" + IntToString(ReferenceYear - age.GetOr(0)), 0.5);
    var s1 := Opt(|f| > 0 && |e| > 0 && |o| > 0, c1);
    FirstRule(|f| > 0 && |e| > 0 && |o| > 0, c1, 0.95);
    var s2 := s1 + Opt(|g| > 0 && |o| > 0 && |f| > 0 && |e| > 0, c2);
    NextRule(s1, |g| > 0 && |o| > 0 && |f| > 0 && |e| > 0, c2, 0.8);
    var s3 := s2 + Opt(|g| > 0 && |o| > 0 && |f| > 0 && |e| == 0, c3);
    NextRule(s2, |g| > 0 && |o| > 0 && |f| > 0 && |e| == 0, c3, 0.7);
    var s4 := s3 + Opt(|f| > 0 && |o| > 0, c4);
    NextRule(s3, |f| > 0 && |o| > 0, c4, 0.6);
    var s5 := s4 + Opt(|e| > 0 && |o| > 0, c5);
    NextRule(s4, |e| > 0 && |o| > 0, c5, 0.5);
    NextRule(s5, AgeTruthy(age) && |f| > 0 && |e| > 0, c6, 0.0);
    assert Generated(f, e, o, g, age) == s5 + Opt(AgeTruthy(age) && |f| > 0 && |e| > 0, c6);
  }

  /** What the builder returns for the normalised parameters. */
  function Build(f: string, e: string, o: string, g: string, age: Option<int>): seq<Candidate> {
    Take4(SortByConfidence(Generated(f, e, o, g, age)))
  }

  /** The builder's sort leaves the generation order unchanged. */
  lemma BuildIsPrefix(f: string, e: string, o: string, g: string, age: Option<int>)
    ensures Build(f, e, o, g, age) == Take4(Generated(f, e, o, g, age))
    ensures Decreasing(Build(f, e, o, g, age))
  {
    GeneratedDecreasing(f, e, o, g, age);
    SortKeepsSorted(Generated(f, e, o, g, age));
  }

  /** What the builder returns for the given parameters. */
  function Strategies(input: SearchInput): seq<Candidate> {
    Build(Norm(input.fornamn), Norm(input.efternamn), Norm(input.ort), Norm(input.gata), input.alder)
  }

  /** The "Bygg strategier" step: append each rule's candidate when its parameters are non-empty. */
  method AppendCandidates(f: string, e: string, o: string, g: string, alder: Option<int>)
    returns (strategies: seq<Candidate>)
    ensures strategies == Generated(f, e, o, g, alder)
    ensures Decreasing(strategies)
  {
    var c1 := Candidate(f + "+" + e + "+" + o, 1.0);
    var c2 := Candidate(f + "+" + e + "+" + g + "+" + o, 0.95);
    var c3 := Candidate(f + "+" + g + "+" + o, 0.8);
    var c4 := Candidate(f + "+" + o, 0.7);
    var c5 := Candidate(e + "+" + o, 0.6);
    strategies := [];
    if |f| > 0 && |e| > 0 && |o| > 0 {
      strategies := strategies + [c1];
    }
    assert strategies == Opt(|f| > 0 && |e| > 0 && |o| > 0, c1);
    ghost var s := strategies;
    if |g| > 0 && |o| > 0 {
      if |f| > 0 && |e| > 0 {
        strategies := strategies + [c2];
      } else if |f| > 0 {
        strategies := strategies + [c3];
      }
    }
    assert strategies == s + Opt(|g| > 0 && |o| > 0 && |f| > 0 && |e| > 0, c2)
      + Opt(|g| > 0 && |o| > 0 && |f| > 0 && |e| == 0, c3);
    s := strategies;
    if |f| > 0 && |o| > 0 {
      strategies := strategies + [c4];
    }
    assert strategies == s + Opt(|f| > 0 && |o| > 0, c4);
    s := strategies;
    if |e| > 0 && |o| > 0 {
      strategies := strategies + [c5];
    }
    assert strategies == s + Opt(|e| > 0 && |o| > 0, c5);
    s := strategies;
    ghost var c6 := Candidate(f + "+" + e + "+" + IntToString(ReferenceYear - alder.GetOr(0)), 0.5);
    if AgeTruthy(alder) && |f| > 0 && |e| > 0 {
      var year := ReferenceYear - alder.value;
      strategies := strategies + [Candidate(f + "+" + e + "+" + IntToString(year), 0.5)];
    }
    assert strategies == s + Opt(AgeTruthy(alder) && |f| > 0 && |e| > 0, c6);
    GeneratedDecreasing(f, e, o, g, alder);
  }

  /** `if x: x = self.normalize_svensk_namn(x)`, with every falsy value read as "". */
  method NormalizeParam(s: Option<string>) returns (r: string)
    ensures r == Norm(s)
  {
    r := "";
    if Truthy(s) {
      r := NormalizeName(s.value);
    }
  }

  /**
   * The builder: normalise the truthy parameters, append the candidate of each rule whose
   * parameters are all non-empty, sort best first and keep the first four.
   */
  method IntelligentSearchBuilder(input: SearchInput) returns (r: seq<Candidate>)
    ensures r == Strategies(input)
    ensures |r| <= 4 && Decreasing(r)
  {
    var f := NormalizeParam(input.fornamn);
    var e := NormalizeParam(input.efternamn);
    var o := NormalizeParam(input.ort);
    var g := NormalizeParam(input.gata);
    var strategies := AppendCandidates(f, e, o, g, input.alder);
    BuildIsPrefix(f, e, o, g, input.alder);
    strategies := SortByConfidence(strategies);
    r := if |strategies| <= 4 then strategies else strategies[..4];
  }

  /** The confidences along `s`. */
  function Confidences(s: seq<Candidate>): (r: seq<real>)
    ensures |r| == |s|
  {
    if s == [] then [] else [s[0].confidence] + Confidences(s[1..])
  }

  /** A candidate at confidence `k` is in `s`. */
  predicate HasConfidence(s: seq<Candidate>, k: real) {
    k in Confidences(s)
  }

  function OptConf(b: bool, k: real): seq<real> {
    if b then [k] else []
  }

  /** The confidences of a concatenation are the two lists' confidences, concatenated. */
  lemma {:induction false} ConfidencesAppend(a: seq<Candidate>, b: seq<Candidate>)
    ensures Confidences(a + b) == Confidences(a) + Confidences(b)
  {
    if a == [] {
      assert a + b == b;
    } else {
      var ab := a + b;
      assert ab[0] == a[0] && ab[1..] == a[1..] + b;
      ConfidencesAppend(a[1..], b);
      calc {
        Confidences(ab);
        [a[0].confidence] + Confidences(a[1..] + b);
        [a[0].confidence] + (Confidences(a[1..]) + Confidences(b));
        ([a[0].confidence] + Confidences(a[1..])) + Confidences(b);
      }
    }
  }

  lemma OptConfidences(b: bool, c: Candidate)
    ensures Confidences(Opt(b, c)) == OptConf(b, c.confidence)
  {
  }

  /** The confidences of six optional candidates in a row. */
  lemma ConfidencesOfRules(b1: bool, c1: Candidate, b2: bool, c2: Candidate, b3: bool, c3: Candidate,
                           b4: bool, c4: Candidate, b5: bool, c5: Candidate, b6: bool, c6: Candidate)
    ensures Confidences(Opt(b1, c1) + Opt(b2, c2) + Opt(b3, c3) + Opt(b4, c4) + Opt(b5, c5) + Opt(b6, c6))
      == OptConf(b1, c1.confidence) + OptConf(b2, c2.confidence) + OptConf(b3, c3.confidence)
      + OptConf(b4, c4.confidence) + OptConf(b5, c5.confidence) + OptConf(b6, c6.confidence)
  {
    OptConfidences(b1, c1);
    OptConfidences(b2, c2);
    OptConfidences(b3, c3);
    OptConfidences(b4, c4);
    OptConfidences(b5, c5);
    OptConfidences(b6, c6);
    var s := Opt(b1, c1) + Opt(b2, c2);
    ConfidencesAppend(Opt(b1, c1), Opt(b2, c2));
    ConfidencesAppend(s, Opt(b3, c3));
    s := s + Opt(b3, c3);
    ConfidencesAppend(s, Opt(b4, c4));
    s := s + Opt(b4, c4);
    ConfidencesAppend(s, Opt(b5, c5));
    s := s + Opt(b5, c5);
    ConfidencesAppend(s, Opt(b6, c6));
  }

  /** Which confidences the builder generates, and in what order. */
  lemma GeneratedConfidences(f: string, e: string, o: string, g: string, age: Option<int>)
    ensures Confidences(Generated(f, e, o, g, age)) ==
      OptConf(|f| > 0 && |e| > 0 && |o| > 0, 1.0)
      + OptConf(|g| > 0 && |o| > 0 && |f| > 0 && |e| > 0, 0.95)
      + OptConf(|g| > 0 && |o| > 0 && |f| > 0 && |e| == 0, 0.8)
      + OptConf(|f| > 0 && |o| > 0, 0.7)
      + OptConf(|e| > 0 && |o| > 0, 0.6)
      + OptConf(AgeTruthy(age) && |f| > 0 && |e| > 0, 0.5)
  {
    ConfidencesOfRules(
      |f| > 0 && |e| > 0 && |o| > 0, Candidate(f + "+" + e + "+" + o, 1.0),
      |g| > 0 && |o| > 0 && |f| > 0 && |e| > 0, Candidate(f + "+" + e + "+" + g + "+" + o, 0.95),
      |g| > 0 && |o| > 0 && |f| > 0 && |e| == 0, Candidate(f + "+" + g + "+" + o, 0.8),
      |f| > 0 && |o| > 0, Candidate(f + "+" + o, 0.7),
      |e| > 0 && |o| > 0, Candidate(e + "+" + o, 0.6),
      AgeTruthy(age) && |f| > 0 && |e| > 0,
      Candidate(f + "+" + e + "+" + IntToString(ReferenceYear - age.GetOr(0)), 0.5));
  }

  /** A prefix carries the prefix of the confidences. */
  lemma {:induction false} ConfidencesPrefix(s: seq<Candidate>, n: nat)
    requires n <= |s|
    ensures Confidences(s[..n]) == Confidences(s)[..n]
  {
    if n > 0 {
      ConfidencesPrefix(s[1..], n - 1);
      assert s[..n][1..] == s[1..][..n - 1];
    }
  }

  /** The first four candidates carry the first four confidences. */
  lemma Take4Confidences(s: seq<Candidate>)
    ensures Confidences(Take4(s)) == Confidences(s)[..|Take4(s)|]
  {
    ConfidencesPrefix(s, |Take4(s)|);
  }

  /** A confidence among the first four candidates is among all of them. */
  lemma Take4Has(s: seq<Candidate>, k: real)
    ensures HasConfidence(Take4(s), k) ==> HasConfidence(s, k)
  {
    Take4Confidences(s);
  }

  /** A confidence is among those the rules generate exactly when one of its rules applies. */
  lemma InConfidences(b1: bool, b2: bool, b3: bool, b4: bool, b5: bool, b6: bool, k: real)
    ensures (k in OptConf(b1, 1.0) + OptConf(b2, 0.95) + OptConf(b3, 0.8) + OptConf(b4, 0.7)
               + OptConf(b5, 0.6) + OptConf(b6, 0.5)) <==>
      (b1 && k == 1.0) || (b2 && k == 0.95) || (b3 && k == 0.8) || (b4 && k == 0.7)
      || (b5 && k == 0.6) || (b6 && k == 0.5)
  {
  }

  /** Which rule a generated confidence comes from. */
  lemma GeneratedHas(f: string, e: string, o: string, g: string, age: Option<int>)
    ensures HasConfidence(Generated(f, e, o, g, age), 0.95) ==> |e| > 0 && |f| > 0 && |g| > 0 && |o| > 0
    ensures HasConfidence(Generated(f, e, o, g, age), 0.8) ==> |e| == 0 && |f| > 0 && |g| > 0 && |o| > 0
    ensures HasConfidence(Generated(f, e, o, g, age), 0.5) <==> AgeTruthy(age) && |f| > 0 && |e| > 0
  {
    GeneratedConfidences(f, e, o, g, age);
    var b1, b2, b3 := |f| > 0 && |e| > 0 && |o| > 0, |g| > 0 && |o| > 0 && |f| > 0 && |e| > 0,
      |g| > 0 && |o| > 0 && |f| > 0 && |e| == 0;
    var b4, b5, b6 := |f| > 0 && |o| > 0, |e| > 0 && |o| > 0, AgeTruthy(age) && |f| > 0 && |e| > 0;
    InConfidences(b1, b2, b3, b4, b5, b6, 0.95);
    InConfidences(b1, b2, b3, b4, b5, b6, 0.8);
    InConfidences(b1, b2, b3, b4, b5, b6, 0.5);
  }

  /** The 0.95 and 0.8 candidates never come together; 0.8 needs an empty surname. */
  lemma StreetRulesExclusive(f: string, e: string, o: string, g: string, age: Option<int>)
    ensures !(HasConfidence(Build(f, e, o, g, age), 0.95) && HasConfidence(Build(f, e, o, g, age), 0.8))
    ensures HasConfidence(Build(f, e, o, g, age), 0.8) ==> |e| == 0 && |f| > 0 && |g| > 0 && |o| > 0
    ensures HasConfidence(Build(f, e, o, g, age), 0.95) ==> |e| > 0 && |f| > 0 && |g| > 0 && |o| > 0
  {
    var gen := Generated(f, e, o, g, age);
    BuildIsPrefix(f, e, o, g, age);
    GeneratedHas(f, e, o, g, age);
    Take4Has(gen, 0.95);
    Take4Has(gen, 0.8);
  }

  /** Without a first name and a surname, there is nothing to search for. */
  lemma CityOnlyGivesNothing(input: SearchInput)
    requires Norm(input.fornamn) == "" && Norm(input.efternamn) == ""
    ensures Strategies(input) == []
  {
  }

  /** With every parameter given, four better candidates fill the output. */
  lemma FullInputFillsOutput(f: string, e: string, o: string, g: string, age: Option<int>)
    requires |f| > 0 && |e| > 0 && |o| > 0 && |g| > 0
    ensures Confidences(Take4(Generated(f, e, o, g, age))) == [1.0, 0.95, 0.7, 0.6]
  {
    var gen := Generated(f, e, o, g, age);
    GeneratedConfidences(f, e, o, g, age);
    var cs := Confidences(gen);
    assert cs == [1.0, 0.95, 0.7, 0.6] + OptConf(AgeTruthy(age) && |f| > 0 && |e| > 0, 0.5);
    Take4Confidences(gen);
    assert |Take4(gen)| == 4;
  }

  /** Otherwise at most four candidates are generated, so none is cut. */
  lemma PartialInputFits(f: string, e: string, o: string, g: string, age: Option<int>)
    requires |f| == 0 || |e| == 0 || |o| == 0 || |g| == 0
    ensures Take4(Generated(f, e, o, g, age)) == Generated(f, e, o, g, age)
  {
    GeneratedConfidences(f, e, o, g, age);
    assert |Confidences(Generated(f, e, o, g, age))| <= 4;
  }

  /**
   * The birth-year candidate is searched exactly when the age is truthy, first name and surname
   * are non-empty, and the city and street are not both given (otherwise four better candidates
   * push it out).
   */
  lemma BirthYearCandidate(f: string, e: string, o: string, g: string, age: Option<int>)
    ensures HasConfidence(Build(f, e, o, g, age), 0.5) <==>
      (AgeTruthy(age) && |f| > 0 && |e| > 0 && (|o| == 0 || |g| == 0))
  {
    BuildIsPrefix(f, e, o, g, age);
    GeneratedHas(f, e, o, g, age);
    if |f| > 0 && |e| > 0 && |o| > 0 && |g| > 0 {
      FullInputFillsOutput(f, e, o, g, age);
    } else {
      PartialInputFits(f, e, o, g, age);
    }
  }
}
