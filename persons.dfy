/**
 * `extract_person_data_robust`, `extract_additional_person_data` and
 * `extract_all_persons_robust`: turning the person containers of a results page into
 * `PersonResult`s.
 */
module Persons {
  import opened Wrappers
  import opened Text
  import opened Records
  import opened Html

  const SiteRoot: string := "https://www.merinfo.se"

  /** The name link: the styled link, else a `/person/` link, else a link with a word in it. */
  function NameLink(c: Container): Option<Link> {
    if c.styledLink.Some? then c.styledLink
    else if c.personLink.Some? then c.personLink
    else c.wordLink
  }

  /** `href`, prefixed with the site root when it is non-empty and does not start with "http". */
  function ProfileUrl(href: Option<string>): Option<string> {
    match href
    case None => None
    case Some(h) => if h != "" && !StartsWith(h, "http") then Some(SiteRoot + h) else Some(h)
  }

  /**
   * A missing href stays missing and an empty one stays empty; any other result starts with
   * "http", keeps the href as its tail, and is unchanged by a second pass.
   */
  lemma ProfileUrlShape(href: Option<string>)
    ensures ProfileUrl(href).None? <==> href.None?
    ensures href == Some("") ==> ProfileUrl(href) == Some("")
    ensures href.Some? && href.value != "" ==>
      var u := ProfileUrl(href).value;
      StartsWith(u, "http") && |href.value| <= |u| && u[|u| - |href.value|..] == href.value
    ensures href.Some? && StartsWith(href.value, "http") ==> ProfileUrl(href) == href
    ensures ProfileUrl(ProfileUrl(href)) == ProfileUrl(href)
  {
    if href.Some? && href.value != "" && !StartsWith(href.value, "http") {
      var u := SiteRoot + href.value;
      assert u[..4] == "http";
      assert u[|u| - |href.value|..] == href.value;
    }
  }

  /** Length of the leading run of non-digits of `s`. */
  function NonDigitPrefix(s: string): (n: nat)
    ensures n <= |s|
    ensures forall i :: 0 <= i < n ==> !IsDigit(s[i])
    ensures n == |s| || IsDigit(s[n])
  {
    if s == [] || IsDigit(s[0]) then 0 else 1 + NonDigitPrefix(s[1..])
  }

  /**
   * `re.match(r'^([^\d]+)', part).group(1).strip()`, or "" when `part` is empty or starts with
   * a digit: the street name in front of the house number.
   */
  function StreetOf(part: string): (r: string)
    ensures |r| <= |part|
    ensures forall i :: 0 <= i < |r| ==> !IsDigit(r[i])
  {
    var n := NonDigitPrefix(part);
    StripSlice(part[..n]);
    Strip(part[..n])
  }

  /** Stripping keeps a slice of its input, so a property of every character carries over. */
  lemma StripSlice(s: string)
    ensures var k := |s| - |TrimLeft(s)|;
      k + |Strip(s)| <= |s| && Strip(s) == s[k..k + |Strip(s)|]
  {
    var l := TrimLeft(s);
    var k := |s| - |l|;
    var r := TrimRight(l);
    SliceOfSuffix(s, k, |r|);
  }

  /** A prefix of a suffix is a slice. */
  lemma SliceOfSuffix(s: string, k: nat, n: nat)
    requires k + n <= |s|
    ensures s[k..][..n] == s[k..k + n]
  {
  }

  /** The stripped, non-empty texts among `parts`, in order (`filter(None, ...)`). */
  function NonEmpty(parts: seq<string>): (r: seq<string>)
    ensures |r| <= |parts|
    ensures forall i :: 0 <= i < |r| ==> r[i] != ""
  {
    if parts == [] then []
    else if parts[0] != "" then [parts[0]] + NonEmpty(parts[1..])
    else NonEmpty(parts[1..])
  }

  function StripAll(parts: seq<string>): (r: seq<string>)
    ensures |r| == |parts| && forall i :: 0 <= i < |parts| ==> r[i] == Strip(parts[i])
  {
    if parts == [] then [] else [Strip(parts[0])] + StripAll(parts[1..])
  }

  /** Joining non-empty parts gives "" only when there are none. */
  lemma {:induction false} JoinEmpty(sep: string, parts: seq<string>)
    requires forall i :: 0 <= i < |parts| ==> parts[i] != ""
    ensures Join(sep, parts) == "" <==> parts == []
  {
    if |parts| > 1 {
      JoinEmpty(sep, parts[1..]);
      assert |Join(sep, parts)| >= |parts[0]| > 0;
    }
  }

  /**
   * The address and street of a container: the non-empty span texts of the address element
   * joined by ", ", and the street from the first span; when that address is empty, the
   * first postal-code span instead.
   */
  function AddressAndStreet(c: Container): (string, string) {
    var parts := if c.addressSpans.Some? then StripAll(c.addressSpans.value) else [];
    var adress := if c.addressSpans.Some? then Join(", ", NonEmpty(parts)) else "";
    var gata := if c.addressSpans.Some? && |parts| > 0 then StreetOf(parts[0]) else "";
    if adress == "" && |c.postalSpans| > 0 then (Strip(c.postalSpans[0]), gata) else (adress, gata)
  }

  /**
   * The fallback postal span is read only when the address element gives nothing: no element,
   * or no span with text in it.
   */
  lemma AddressFallback(c: Container)
    ensures var parts := if c.addressSpans.Some? then StripAll(c.addressSpans.value) else [];
      NonEmpty(parts) != [] ==> AddressAndStreet(c).0 == Join(", ", NonEmpty(parts))
    ensures var parts := if c.addressSpans.Some? then StripAll(c.addressSpans.value) else [];
      NonEmpty(parts) == [] ==>
        AddressAndStreet(c).0 == (if |c.postalSpans| > 0 then Strip(c.postalSpans[0]) else "")
  {
    var parts := if c.addressSpans.Some? then StripAll(c.addressSpans.value) else [];
    JoinEmpty(", ", NonEmpty(parts));
  }

  /** The year the age is counted to. */
  const CurrentYear: int := 2025

  /**
   * The birth year of a stripped personnummer of at least 8 characters: its first four
   * characters read as an integer when it starts with "19" or "20", else its first two read as
   * `yy`, meaning 20yy up to 25 and 19yy above; `None` where `int()` raises.
   */
  function BirthYear(pn: string): Option<int>
    requires |pn| >= 8
  {
    if StartsWith(pn, "19") || StartsWith(pn, "20") then PyInt(pn[..4]) else PivotYear(PyInt(pn[..2]))
  }

  /** A two-digit year read as 20yy up to 25 and as 19yy above. */
  function PivotYear(yy: Option<int>): Option<int> {
    match yy
    case None => None
    case Some(v) => Some(if v <= 25 then 2000 + v else 1900 + v)
  }

  /** The age in `CurrentYear` from the personnummer span, when its birth year is 1900..2025. */
  function AgeFromPersonnummer(idSpan: Option<string>): (age: Option<int>)
    ensures idSpan.None? || |Strip(idSpan.value)| < 8 ==> age == None
    ensures age.Some? ==>
      idSpan.Some? && |Strip(idSpan.value)| >= 8 && BirthYear(Strip(idSpan.value)) == Some(CurrentYear - age.value)
    ensures age.Some? ==> 0 <= age.value <= CurrentYear - 1900
  {
    if idSpan.None? then None
    else
      var pn := Strip(idSpan.value);
      if |pn| < 8 then None
      else
        match BirthYear(pn)
        case Some(y) => if 1900 <= y <= CurrentYear then Some(CurrentYear - y) else None
        case None => None
  }

  /** A string that neither starts nor ends with whitespace is its own `strip()`. */
  lemma StripUnchanged(s: string)
    requires s != [] && !IsSpace(s[0]) && !IsSpace(s[|s| - 1])
    ensures Strip(s) == s
  {
    assert TrimLeft(s) == s;
    assert TrimRight(s) == s;
  }

  function DigitAt(s: string, i: nat): int
    requires i < |s|
  {
    s[i] as int - '0' as int
  }

  /** The value of four digits, place by place. */
  lemma FourDigits(s: string)
    requires |s| == 4 && AllDigits(s)
    ensures DigitsValue(s) == 1000 * DigitAt(s, 0) + 100 * DigitAt(s, 1) + 10 * DigitAt(s, 2) + DigitAt(s, 3)
  {
    DigitsStep(s);
    DigitsStep(s[..3]);
    assert s[..3][..2] == s[..2];
    TwoDigits(s[..2]);
  }

  /** The value of two digits, place by place. */
  lemma TwoDigits(s: string)
    requires |s| == 2 && AllDigits(s)
    ensures DigitsValue(s) == 10 * DigitAt(s, 0) + DigitAt(s, 1)
  {
    DigitsStep(s);
    DigitsStep(s[..1]);
    assert s[..1][..0] == [];
  }

  /** The last digit is the units place. */
  lemma DigitsStep(s: string)
    requires s != [] && AllDigits(s)
    ensures AllDigits(s[..|s| - 1])
    ensures DigitsValue(s) == 10 * DigitsValue(s[..|s| - 1]) + DigitAt(s, |s| - 1)
  {
    assert IsDigit(s[|s| - 1]);
  }

  /** A personnummer starting "19" or "20" has its four leading digits as birth year, 1900..2099. */
  lemma BirthYearFull(pn: string)
    requires |pn| >= 8 && AllDigits(pn[..4])
    requires StartsWith(pn, "19") || StartsWith(pn, "20")
    ensures BirthYear(pn) == Some(DigitsValue(pn[..4]))
    ensures 1900 <= DigitsValue(pn[..4]) <= 2099
  {
    var y := pn[..4];
    PyIntOfDigits(y);
    assert BirthYear(pn) == PyInt(y);
    assert pn[..2] == "19" || pn[..2] == "20";
    assert y[0] == pn[..2][0] && y[1] == pn[..2][1];
    CenturyYear(y);
  }

  /** Four digits starting "19" or "20" are a year of 1900..2099. */
  lemma CenturyYear(y: string)
    requires |y| == 4 && AllDigits(y)
    requires (y[0] == '1' && y[1] == '9') || (y[0] == '2' && y[1] == '0')
    ensures 1900 <= DigitsValue(y) <= 2099
  {
    FourDigits(y);
    assert IsDigit(y[2]) && IsDigit(y[3]);
  }

  /** A 12-digit personnummer "19yymmdd..." or "20yymmdd..." gives 2025 minus its first four digits. */
  lemma AgeFromFullYear(pn: string)
    requires |pn| >= 8 && AllDigits(pn[..4]) && !IsSpace(pn[|pn| - 1])
    requires StartsWith(pn, "19") || StartsWith(pn, "20")
    ensures DigitsValue(pn[..4]) <= CurrentYear ==>
      AgeFromPersonnummer(Some(pn)) == Some(CurrentYear - DigitsValue(pn[..4]))
    ensures DigitsValue(pn[..4]) > CurrentYear ==> AgeFromPersonnummer(Some(pn)) == None
  {
    assert pn[0] == pn[..2][0];
    StripUnchanged(pn);
    BirthYearFull(pn);
  }

  /** Otherwise the first two digits are a year that pivots at 25: 00..25 this century, 26..99 the last. */
  lemma BirthYearShort(pn: string)
    requires |pn| >= 8 && AllDigits(pn[..2])
    requires !StartsWith(pn, "19") && !StartsWith(pn, "20")
    ensures var yy := DigitsValue(pn[..2]);
      BirthYear(pn) == Some(if yy <= 25 then 2000 + yy else 1900 + yy) && yy <= 99
  {
    PivotOfDigits(pn[..2]);
  }

  /** Two digits read by `int()` and pivoted at 25. */
  lemma PivotOfDigits(y: string)
    requires |y| == 2 && AllDigits(y)
    ensures var yy := DigitsValue(y);
      PivotYear(PyInt(y)) == Some(if yy <= 25 then 2000 + yy else 1900 + yy) && yy <= 99
  {
    TwoDigits(y);
    assert IsDigit(y[0]) && IsDigit(y[1]);
    PyIntOfDigits(y);
  }

  /** So a short-form personnummer always yields an age of 0..99. */
  lemma AgeFromShortYear(pn: string)
    requires |pn| >= 8 && AllDigits(pn[..2]) && !IsSpace(pn[|pn| - 1])
    requires !StartsWith(pn, "19") && !StartsWith(pn, "20")
    ensures var yy := DigitsValue(pn[..2]);
      AgeFromPersonnummer(Some(pn)) == Some(if yy <= 25 then 25 - yy else 125 - yy)
  {
    assert IsDigit(pn[..2][0]);
    StripUnchanged(pn);
    BirthYearShort(pn);
  }

  /**
   * Python's `int()` accepts a sign, so a short form whose first two characters are "-d"
   * reads as the year 2000 - d: "-5123456" gives 1995 and an age of 30.
   */
  lemma AgeFromSignedYear(pn: string)
    requires |pn| >= 8 && pn[0] == '-' && IsDigit(pn[1]) && !IsSpace(pn[|pn| - 1])
    ensures var d := DigitsValue(pn[1..2]);
      d <= 9 && AgeFromPersonnummer(Some(pn)) == Some(CurrentYear - (2000 - d))
  {
    StripUnchanged(pn);
    var y := pn[..2];
    assert y[0] == '-' && y[1..] == pn[1..2];
    assert !StartsWith(pn, "19") && !StartsWith(pn, "20") by {
      assert pn[..2][0] == '-';
    }
    assert Strip(y) == y by {
      StripUnchanged(y);
    }
    assert PyInt(y) == Some(-(DigitsValue(pn[1..2]) as int)) by {
      assert AllDigits(pn[1..2]) && IsDigitGroup(pn[1..2]);
    }
  }

  /** "Man" when the male tooltip is present, else "Kvinna" when the female one is. */
  function Gender(c: Container): (kon: Option<string>)
    ensures c.maleTip ==> kon == Some("Man")
    ensures !c.maleTip && c.femaleTip ==> kon == Some("Kvinna")
    ensures !c.maleTip && !c.femaleTip ==> kon == None
  {
    if c.maleTip then Some("Man") else if c.femaleTip then Some("Kvinna") else None
  }

  /**
   * `extract_person_data_robust(container)`: `None` without a name link; otherwise the person
   * with the link's whitespace-collapsed text as name and the derived fields.
   */
  function ExtractPersonData(c: Container): (p: Option<PersonResult>)
    ensures p.None? <==> NameLink(c).None?
  {
    match NameLink(c)
    case None => None
    case Some(link) =>
      var (adress, gata) := AddressAndStreet(c);
      Some(PersonResult(
        CollapseSpaces(Strip(link.text)),
        ProfileUrl(link.href),
        adress,
        gata,
        if c.idSpan.Some? then Strip(c.idSpan.value) else "",
        AgeFromPersonnummer(c.idSpan),
        Gender(c),
        c.companyTip))
  }

  /**
   * The person of a container with a name link takes its fields from the link, the address
   * element, the personnummer span and the tooltips.
   */
  lemma ExtractedFields(c: Container)
    requires NameLink(c).Some?
    ensures ExtractPersonData(c).Some?
    ensures var p := ExtractPersonData(c).value;
      && p.namn == CollapseSpaces(Strip(NameLink(c).value.text))
      && p.profilUrl == ProfileUrl(NameLink(c).value.href)
      && (p.adress, p.gata) == AddressAndStreet(c)
      && p.personnummer == (if c.idSpan.Some? then Strip(c.idSpan.value) else "")
      && p.alder == AgeFromPersonnummer(c.idSpan)
      && p.kon == Gender(c)
      && p.bolagsengagemang == c.companyTip
  {
  }

  /** The name of an extracted person has no surrounding whitespace, no runs and only plain spaces. */
  lemma ExtractedName(c: Container)
    requires ExtractPersonData(c).Some?
    ensures var n := ExtractPersonData(c).value.namn;
      && (n == [] || (!IsSpace(n[0]) && !IsSpace(n[|n| - 1])))
      && SingleSpaced(n)
      && (forall i :: 0 <= i < |n| && IsSpace(n[i]) ==> n[i] == ' ')
  {
    ExtractedFields(c);
    CollapseStripped(NameLink(c).value.text);
  }

  /**
   * Whatever the page holds, an extracted person's name has no surrounding whitespace and no
   * whitespace run, its only whitespace being plain spaces; the street has no digit, the
   * personnummer is stripped, the age lies in 0..125, the gender is "Man", "Kvinna" or absent
   * and the person counts as having company engagements exactly when the container says so.
   */
  lemma ExtractedBounds(c: Container)
    requires ExtractPersonData(c).Some?
    ensures var p := ExtractPersonData(c).value;
      && (p.namn == [] || (!IsSpace(p.namn[0]) && !IsSpace(p.namn[|p.namn| - 1])))
      && SingleSpaced(p.namn)
      && (forall i :: 0 <= i < |p.namn| && IsSpace(p.namn[i]) ==> p.namn[i] == ' ')
      && (p.bolagsengagemang <==> c.companyTip)
      && (forall i :: 0 <= i < |p.gata| ==> !IsDigit(p.gata[i]))
      && (p.personnummer == [] || (!IsSpace(p.personnummer[0]) && !IsSpace(p.personnummer[|p.personnummer| - 1])))
      && (p.alder.Some? ==> 0 <= p.alder.value <= 125)
      && (p.kon == None || p.kon == Some("Man") || p.kon == Some("Kvinna"))
  {
    ExtractedName(c);
    ExtractedFields(c);
    var p := ExtractPersonData(c).value;
    var parts := if c.addressSpans.Some? then StripAll(c.addressSpans.value) else [];
    assert p.gata == (if c.addressSpans.Some? && |parts| > 0 then StreetOf(parts[0]) else "");
  }

  /** The containers of the first selector that matches anything; none if no selector does. */
  function FirstMatch(hits: seq<seq<Container>>): (cs: seq<Container>)
    ensures cs == [] <==> forall i :: 0 <= i < |hits| ==> hits[i] == []
    ensures cs != [] ==>
      exists i :: 0 <= i < |hits| && hits[i] == cs && (forall j :: 0 <= j < i ==> hits[j] == [])
  {
    if hits == [] then []
    else if hits[0] != [] then hits[0]
    else
      var cs := FirstMatch(hits[1..]);
      if cs != [] then
        var i :| 0 <= i < |hits[1..]| && hits[1..][i] == cs && (forall j :: 0 <= j < i ==> hits[1..][j] == []);
        assert hits[i + 1] == cs && forall j :: 0 <= j < i + 1 ==> hits[j] == [];
        cs
      else cs
  }

  /** What the extractor gives for each container. */
  function Extracted(cs: seq<Container>): (os: seq<Option<PersonResult>>)
    ensures |os| == |cs| && forall i :: 0 <= i < |cs| ==> os[i] == ExtractPersonData(cs[i])
  {
    seq(|cs|, i requires 0 <= i < |cs| => ExtractPersonData(cs[i]))
  }

  /** The persons of the containers that have a name link, in container order. */
  function PersonsOf(cs: seq<Container>): (ps: seq<PersonResult>)
    ensures |ps| <= |cs|
  {
    Somes(Extracted(cs))
  }

  /**
   * Every extracted person is the person of a container, and the containers they come from
   * appear in the same order as the persons.
   */
  lemma PersonsOfOrigin(cs: seq<Container>)
    ensures var idx := Origins(Extracted(cs), 0);
      && |idx| == |PersonsOf(cs)|
      && (forall k :: 0 <= k < |idx| ==> idx[k] < |cs| && ExtractPersonData(cs[idx[k]]) == Some(PersonsOf(cs)[k]))
      && (forall k, l :: 0 <= k < l < |idx| ==> idx[k] < idx[l])
  {
    SomesOrigins(Extracted(cs));
  }

  /** So the persons are as many as the containers less those without a name link. */
  lemma PersonsOfCount(cs: seq<Container>)
    ensures |PersonsOf(cs)| == |cs| - CountNone(Extracted(cs))
    ensures (forall i :: 0 <= i < |cs| ==> NameLink(cs[i]).Some?) ==> |PersonsOf(cs)| == |cs|
  {
    SomesCount(Extracted(cs));
    if forall i :: 0 <= i < |cs| ==> NameLink(cs[i]).Some? {
      NoNoneCount(Extracted(cs));
    }
  }

  /** The selector loop: the containers of the first selector that matches anything. */
  method FirstMatching(hits: seq<seq<Container>>) returns (containers: seq<Container>)
    ensures containers == FirstMatch(hits)
  {
    containers := [];
    var s := 0;
    while s < |hits|
      invariant 0 <= s <= |hits|
      invariant FirstMatch(hits) == FirstMatch(hits[s..])
    {
      var found := hits[s];
      assert hits[s..] == [found] + hits[s + 1..];
      if found != [] {
        return found;
      }
      s := s + 1;
    }
  }

  /** The container loop: keep the person of each container that has a name link. */
  method KeepPersons(containers: seq<Container>) returns (personer: seq<PersonResult>)
    ensures personer == PersonsOf(containers)
  {
    ghost var os := Extracted(containers);
    personer := [];
    var i := 0;
    while i < |containers|
      invariant 0 <= i <= |containers|
      invariant personer == Somes(os[..i])
    {
      var person := ExtractPersonData(containers[i]);
      SomesPrefix(os, i);
      if person.Some? {
        personer := personer + [person.value];
      }
      i := i + 1;
    }
    assert os[..i] == os;
  }

  /**
   * `extract_all_persons_robust(soup)`: take the containers of the first selector that matches,
   * and keep the person of each container that has a name link.
   */
  method ExtractAllPersons(page: Page) returns (personer: seq<PersonResult>)
    ensures personer == PersonsOf(FirstMatch(page.personHits))
    ensures |personer| <= |FirstMatch(page.personHits)|
  {
    var containers := FirstMatching(page.personHits);
    personer := KeepPersons(containers);
  }
}
