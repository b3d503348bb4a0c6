/**
 * `calculate_quality_score` and `generate_suggestions`: how good a set of hits is, and what
 * the caller could add to narrow it down. Scores are in hundredths: 50 stands for 0.5.
 */
module Score {
  import opened Wrappers
  import opened Text
  import opened Records

  // ---------------------------------------------------------------- quality

  /** How many of address, age and gender a person has (each tested for Python truthiness). */
  function Completeness(p: PersonResult): (n: nat)
    ensures n <= 3
  {
    (if p.adress != "" then 1 else 0) + (if AgeTruthy(p.alder) then 1 else 0) + (if Truthy(p.kon) then 1 else 0)
  }

  /** The completeness of every person, summed. */
  function CompletenessSum(ps: seq<PersonResult>): (n: nat)
    ensures n <= 3 * |ps|
  {
    if ps == [] then 0 else CompletenessSum(ps[..|ps| - 1]) + Completeness(ps[|ps| - 1])
  }

  /** The bonus for the number of hits: 0.3 for exactly one, 0.1 for two or three. */
  function CountBonus(n: nat): int {
    if n == 1 then 30 else if n <= 3 then 10 else 0
  }

  /**
   * The score: 0 without persons; otherwise 0.5, plus the count bonus, plus 0.2 when there are
   * vehicles, plus 0.05 per field present per person, capped at 1.0.
   */
  function QualityScore(personer: seq<PersonResult>, fordon: seq<FordonResult>): (q: int)
    ensures personer == [] ==> q == 0
    ensures personer != [] ==> 50 <= q <= 100
  {
    if personer == [] then 0
    else
      var raw := 50 + CountBonus(|personer|) + (if fordon != [] then 20 else 0) + 5 * CompletenessSum(personer);
      if raw < 100 then raw else 100
  }

  /** The score loop as the scraper runs it. */
  method CalculateQualityScore(personer: seq<PersonResult>, fordon: seq<FordonResult>) returns (q: int)
    ensures q == QualityScore(personer, fordon)
  {
    if personer == [] {
      return 0;
    }
    var poang := 50;
    if |personer| == 1 {
      poang := poang + 30;
    } else if |personer| <= 3 {
      poang := poang + 10;
    }
    if fordon != [] {
      poang := poang + 20;
    }
    ghost var base := poang;
    for i := 0 to |personer|
      invariant poang == base + 5 * CompletenessSum(personer[..i])
    {
      var p := personer[i];
      if p.adress != "" {
        poang := poang + 5;
      }
      if AgeTruthy(p.alder) {
        poang := poang + 5;
      }
      if Truthy(p.kon) {
        poang := poang + 5;
      }
      assert personer[..i + 1][..i] == personer[..i];
    }
    assert personer[..|personer|] == personer;
    q := if poang < 100 then poang else 100;
  }

  /** Vehicles add 0.2, up to the cap; they never lower the score. */
  lemma VehiclesRaiseScore(personer: seq<PersonResult>, fordon: seq<FordonResult>)
    requires personer != [] && fordon != []
    ensures var without := QualityScore(personer, []);
      QualityScore(personer, fordon) == (if without + 20 < 100 then without + 20 else 100)
  {
  }

  /** One person scores 0.8 plus 0.05 per field present, and 1.0 once vehicles are found. */
  lemma SingleHitScore(p: PersonResult, fordon: seq<FordonResult>)
    ensures fordon == [] ==> QualityScore([p], fordon) == 80 + 5 * Completeness(p)
    ensures fordon != [] ==> QualityScore([p], fordon) == 100
  {
    assert [p][..0] == [];
  }

  /** An age of 0 counts as missing, as do an empty address and an empty gender. */
  lemma ZeroAgeIsMissing(p: PersonResult)
    ensures Completeness(p.(alder := Some(0))) == Completeness(p.(alder := None))
    ensures Completeness(p) == 0 <==> p.adress == "" && !AgeTruthy(p.alder) && !Truthy(p.kon)
  {
  }

  /** The sum over persons does not depend on how they are split. */
  lemma {:induction false} CompletenessSumAppend(a: seq<PersonResult>, b: seq<PersonResult>)
    ensures CompletenessSum(a + b) == CompletenessSum(a) + CompletenessSum(b)
    decreases |b|
  {
    if b != [] {
      var b' := b[..|b| - 1];
      assert (a + b)[..|a + b| - 1] == a + b';
      assert (a + b)[|a + b| - 1] == b[|b| - 1];
      assert b[..|b| - 1] == b';
      CompletenessSumAppend(a, b');
    } else {
      assert a + b == a;
    }
  }

  // ---------------------------------------------------------------- suggestions

  /** `t` is the non-empty street of one of the persons. */
  predicate IsStreetOf(ps: seq<PersonResult>, t: string) {
    t != "" && exists j :: 0 <= j < |ps| && ps[j].gata == t
  }

  /** `t` is the decimal text of the truthy age of one of the persons. */
  predicate IsAgeOf(ps: seq<PersonResult>, t: string) {
    exists j :: 0 <= j < |ps| && AgeTruthy(ps[j].alder) && t == IntToString(ps[j].alder.value)
  }

  /** A street or age of the persons but the last is one of all the persons. */
  lemma OfPrefix(ps: seq<PersonResult>)
    requires ps != []
    ensures forall t :: IsStreetOf(ps[..|ps| - 1], t) ==> IsStreetOf(ps, t)
    ensures forall t :: IsAgeOf(ps[..|ps| - 1], t) ==> IsAgeOf(ps, t)
  {
    var q := ps[..|ps| - 1];
    forall t | IsStreetOf(q, t)
      ensures IsStreetOf(ps, t)
    {
      var j :| 0 <= j < |q| && q[j].gata == t;
      assert ps[j] == q[j];
    }
    forall t | IsAgeOf(q, t)
      ensures IsAgeOf(ps, t)
    {
      var j :| 0 <= j < |q| && AgeTruthy(q[j].alder) && t == IntToString(q[j].alder.value);
      assert ps[j] == q[j];
    }
  }

  /** The non-empty streets of the persons, in order. */
  function Streets(ps: seq<PersonResult>): (r: seq<string>)
    ensures forall i :: 0 <= i < |r| ==> IsStreetOf(ps, r[i])
    ensures forall j :: 0 <= j < |ps| && ps[j].gata != "" ==> ps[j].gata in r
  {
    if ps == [] then []
    else
      var last := ps[|ps| - 1];
      var rest := Streets(ps[..|ps| - 1]);
      OfPrefix(ps);
      assert forall j :: 0 <= j < |ps| - 1 ==> ps[j] == ps[..|ps| - 1][j];
      assert IsStreetOf(ps, last.gata) || last.gata == "";
      if last.gata != "" then rest + [last.gata] else rest
  }

  /** The decimal texts of the truthy ages of the persons, in order. */
  function AgeTexts(ps: seq<PersonResult>): (r: seq<string>)
    ensures forall i :: 0 <= i < |r| ==> IsAgeOf(ps, r[i])
    ensures forall j :: 0 <= j < |ps| && AgeTruthy(ps[j].alder) ==> IntToString(ps[j].alder.value) in r
  {
    if ps == [] then []
    else
      var last := ps[|ps| - 1];
      var rest := AgeTexts(ps[..|ps| - 1]);
      OfPrefix(ps);
      assert forall j :: 0 <= j < |ps| - 1 ==> ps[j] == ps[..|ps| - 1][j];
      assert AgeTruthy(last.alder) ==> IsAgeOf(ps, IntToString(last.alder.value));
      if AgeTruthy(last.alder) then rest + [IntToString(last.alder.value)] else rest
  }

  /** No element twice. */
  predicate Distinct<T(==)>(s: seq<T>) {
    forall i, j :: 0 <= i < j < |s| ==> s[i] != s[j]
  }

  /** `list(set(s))`, in the order of first occurrence. */
  function Dedup(s: seq<string>): (r: seq<string>)
    ensures Distinct(r) && |r| <= |s|
    ensures forall x :: x in r <==> x in s
  {
    if s == [] then []
    else
      var d := Dedup(s[..|s| - 1]);
      assert forall x :: x in s <==> x in s[..|s| - 1] || x == s[|s| - 1];
      if s[|s| - 1] in d then d else d + [s[|s| - 1]]
  }

  /** `s[:5]`. */
  function First5<T>(s: seq<T>): (r: seq<T>)
    ensures |r| <= 5 && |r| <= |s| && r == s[..|r|]
    ensures |s| <= 5 ==> r == s
  {
    if |s| <= 5 then s else s[..5]
  }

  /** The streets a suggestion lists. */
  function StreetChoices(ps: seq<PersonResult>): seq<string> {
    First5(Dedup(Streets(ps)))
  }

  /** The ages a suggestion lists. */
  function AgeChoices(ps: seq<PersonResult>): seq<string> {
    First5(Dedup(AgeTexts(ps)))
  }

  /** The street suggestion: the listed streets, comma-separated. */
  function StreetSuggestion(ps: seq<PersonResult>): string {
    "Specificera gata: " + Join(", ", StreetChoices(ps))
  }

  /** The age suggestion: the listed ages, comma-separated. */
  function AgeSuggestion(ps: seq<PersonResult>): string {
    "Specificera ålder: " + Join(", ", AgeChoices(ps))
  }

  /**
   * `generate_suggestions(personer)`: for more than one person, a street suggestion when some
   * person has a street and an age suggestion when some person has an age.
   */
  function GenerateSuggestions(personer: seq<PersonResult>): (r: seq<string>)
    ensures |r| <= 2
    ensures |personer| <= 1 ==> r == []
  {
    if |personer| <= 1 then []
    else
      (if Streets(personer) != [] then [StreetSuggestion(personer)] else [])
      + (if AgeTexts(personer) != [] then [AgeSuggestion(personer)] else [])
  }

  /** Some person has a non-empty street. */
  predicate HasStreet(ps: seq<PersonResult>) {
    exists j :: 0 <= j < |ps| && ps[j].gata != ""
  }

  /** Some person has a truthy age. */
  predicate HasAge(ps: seq<PersonResult>) {
    exists j :: 0 <= j < |ps| && AgeTruthy(ps[j].alder)
  }

  lemma StreetsPresent(ps: seq<PersonResult>)
    ensures Streets(ps) != [] <==> HasStreet(ps)
  {
    if HasStreet(ps) {
      var j :| 0 <= j < |ps| && ps[j].gata != "";
      assert ps[j].gata in Streets(ps);
    }
  }

  lemma AgesPresent(ps: seq<PersonResult>)
    ensures AgeTexts(ps) != [] <==> HasAge(ps)
  {
    if HasAge(ps) {
      var j :| 0 <= j < |ps| && AgeTruthy(ps[j].alder);
      assert IntToString(ps[j].alder.value) in AgeTexts(ps);
    }
  }

  /**
   * The suggestions for several persons: one for streets exactly when some person has a street,
   * then one for ages exactly when some person has a truthy age.
   */
  lemma SuggestionsPresent(personer: seq<PersonResult>)
    requires |personer| > 1
    ensures var r := GenerateSuggestions(personer);
      && |r| == (if HasStreet(personer) then 1 else 0) + (if HasAge(personer) then 1 else 0)
      && (HasStreet(personer) ==> r[0] == StreetSuggestion(personer))
      && (HasAge(personer) ==> r[|r| - 1] == AgeSuggestion(personer))
  {
    StreetsPresent(personer);
    AgesPresent(personer);
  }

  /**
   * The listed streets are at most five, all different, each the non-empty street of one of the
   * persons; when the persons have at most five different streets, every one is listed.
   */
  lemma StreetChoicesSound(personer: seq<PersonResult>)
    ensures var c := StreetChoices(personer);
      && |c| <= 5 && Distinct(c)
      && (forall i :: 0 <= i < |c| ==> IsStreetOf(personer, c[i]))
      && (|Dedup(Streets(personer))| <= 5 ==>
            forall j :: 0 <= j < |personer| && personer[j].gata != "" ==> personer[j].gata in c)
  {
    var d := Dedup(Streets(personer));
    var c := First5(d);
    forall i | 0 <= i < |c|
      ensures c[i] in Streets(personer)
    {
      assert c[i] == d[i];
    }
  }

  /** Likewise for the listed ages: at most five, all different, each the age of one of the persons. */
  lemma AgeChoicesSound(personer: seq<PersonResult>)
    ensures var c := AgeChoices(personer);
      && |c| <= 5 && Distinct(c)
      && (forall i :: 0 <= i < |c| ==> IsAgeOf(personer, c[i]))
      && (|Dedup(AgeTexts(personer))| <= 5 ==>
            forall j :: 0 <= j < |personer| && AgeTruthy(personer[j].alder) ==> IntToString(personer[j].alder.value) in c)
  {
    var d := Dedup(AgeTexts(personer));
    var c := First5(d);
    forall i | 0 <= i < |c|
      ensures c[i] in AgeTexts(personer)
    {
      assert c[i] == d[i];
    }
  }
}
