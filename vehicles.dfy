/**
 * `parse_vehicle_table_robust` and `classify_vehicle_type`: turning the vehicle table of a
 * profile page into `FordonResult`s, each classified by keywords in its make and model.
 */
module Vehicles {
  import opened Wrappers
  import opened Text
  import opened Records
  import opened Html

  // ---------------------------------------------------------------- classification

  /** The categories in the order they are tried, each with its keywords (lower case). */
  const Categories: seq<(string, seq<string>)> := [
    ("Motorcykel", ["motorcykel", "mc", "moped", "yamaha", "honda", "kawasaki", "suzuki", "harley"]),
    ("Lastbil", ["lastbil", "truck", "scania", "volvo fl", "volvo fh", "man tg", "mercedes actros"]),
    ("Släpvagn", ["släpvagn", "trailer", "kärra", "släp"]),
    ("Husbil", ["husbil", "camping", "motorhome", "autocruiser", "dethleffs"]),
    ("Traktor", ["traktor", "john deere", "massey ferguson", "valtra"]),
    ("Buss", ["buss", "omnibus", "coach"])]

  /** `any(ord in s for ord in keywords)`. */
  predicate AnyIn(s: string, keywords: seq<string>) {
    exists k :: 0 <= k < |keywords| && Contains(s, keywords[k])
  }

  /** The name of the first category one of whose keywords occurs in `s`. */
  function FirstCategory(s: string, cats: seq<(string, seq<string>)>): (r: Option<string>)
    ensures r.None? <==> forall i :: 0 <= i < |cats| ==> !AnyIn(s, cats[i].1)
    ensures r.Some? ==> exists i :: 0 <= i < |cats| && r.value == cats[i].0 && AnyIn(s, cats[i].1)
  {
    if cats == [] then None
    else if AnyIn(s, cats[0].1) then Some(cats[0].0)
    else
      var r := FirstCategory(s, cats[1..]);
      assert forall i :: 1 <= i < |cats| ==> cats[i] == cats[1..][i - 1];
      r
  }

  /** The first category that matches wins: no earlier category can have matched. */
  lemma {:induction false} FirstCategoryIsFirst(s: string, cats: seq<(string, seq<string>)>, i: nat)
    requires i < |cats| && AnyIn(s, cats[i].1)
    requires forall j :: 0 <= j < i ==> !AnyIn(s, cats[j].1)
    ensures FirstCategory(s, cats) == Some(cats[i].0)
  {
    if i > 0 {
      FirstCategoryIsFirst(s, cats[1..], i - 1);
    }
  }

  /**
   * `classify_vehicle_type(märke_modell)`: "Okänt" for an empty name, otherwise the first
   * category with a keyword in the lower-cased name, and "Personbil" when there is none.
   */
  function VehicleCategory(markeModell: string): (typ: string)
    ensures markeModell == "" <==> typ == "Okänt"
  {
    if markeModell == "" then "Okänt"
    else FirstCategory(LowerString(markeModell), Categories).GetOr("Personbil")
  }

  /** The category is "Okänt", "Personbil" or the name of one of the categories. */
  lemma CategoryNames(markeModell: string)
    ensures var typ := VehicleCategory(markeModell);
      typ == "Personbil" || typ == "Okänt" || exists i :: 0 <= i < |Categories| && typ == Categories[i].0
  {
  }

  /** `classify_vehicle_type` as the scraper runs it: try the categories in order. */
  method ClassifyVehicleType(markeModell: string) returns (typ: string)
    ensures typ == VehicleCategory(markeModell)
  {
    if markeModell == "" {
      return "Okänt";
    }
    var lower := LowerString(markeModell);
    for i := 0 to |Categories|
      invariant FirstCategory(lower, Categories[i..]) == FirstCategory(lower, Categories)
    {
      assert Categories[i..][1..] == Categories[i + 1..];
      if AnyIn(lower, Categories[i].1) {
        return Categories[i].0;
      }
    }
    assert Categories[|Categories|..] == [];
    return "Personbil";
  }

  /**
   * For a non-empty name, category `i` is chosen exactly when one of its keywords occurs in the
   * lower-cased name and no keyword of an earlier category does; "Personbil" when none occurs.
   */
  lemma ClassifyChoice(markeModell: string, i: nat)
    requires markeModell != "" && i < |Categories|
    ensures var s := LowerString(markeModell);
      (AnyIn(s, Categories[i].1) && forall j :: 0 <= j < i ==> !AnyIn(s, Categories[j].1))
      ==> VehicleCategory(markeModell) == Categories[i].0
    ensures (forall j :: 0 <= j < |Categories| ==> !AnyIn(LowerString(markeModell), Categories[j].1))
      ==> VehicleCategory(markeModell) == "Personbil"
  {
    var s := LowerString(markeModell);
    if AnyIn(s, Categories[i].1) && forall j :: 0 <= j < i ==> !AnyIn(s, Categories[j].1) {
      FirstCategoryIsFirst(s, Categories, i);
    }
  }

  /** Matching ignores case: the name and its lower-cased form get the same category. */
  lemma ClassifyIgnoresCase(markeModell: string)
    ensures VehicleCategory(LowerString(markeModell)) == VehicleCategory(markeModell)
  {
    LowerIdempotent(markeModell);
  }

  lemma LowerIdempotent(s: string)
    ensures LowerString(LowerString(s)) == LowerString(s)
  {
    var l := LowerString(s);
    forall i | 0 <= i < |s|
      ensures LowerString(l)[i] == l[i]
    {
      assert !IsCased(l[i]) || ('a' <= l[i] <= 'z') || l[i] in "åäö";
    }
  }

  /** "honda" is a motorcycle keyword, so every "Honda ..." name, a Civic too, is a motorcycle. */
  lemma HondaIsMotorcycle(model: string)
    ensures VehicleCategory("Honda" + model) == "Motorcykel"
  {
    var name := "Honda" + model;
    var s := LowerString(name);
    assert name[0] == 'H' && name[1] == 'o' && name[2] == 'n' && name[3] == 'd' && name[4] == 'a';
    assert s[0] == 'h' && s[1] == 'o' && s[2] == 'n' && s[3] == 'd' && s[4] == 'a';
    assert s[..5] == "honda";
    assert Contains(s, Categories[0].1[4]);
    FirstCategoryIsFirst(s, Categories, 0);
  }

  // ---------------------------------------------------------------- years

  /** `(dddd)` starts at index `i` of `t`. */
  predicate YearAt(t: string, i: int) {
    0 <= i && i + 6 <= |t| && t[i] == '(' && AllDigits(t[i + 1..i + 5]) && t[i + 5] == ')'
  }

  /** `re.search(r'\((\d{4})\)', t)` from index `from`: the digits of the leftmost match. */
  function FindYear(t: string, from: nat): (r: Option<string>)
    requires from <= |t|
    ensures r.Some? ==> |r.value| == 4 && AllDigits(r.value)
    decreases |t| - from
  {
    if from == |t| then None
    else if YearAt(t, from) then Some(t[from + 1..from + 5])
    else FindYear(t, from + 1)
  }

  /**
   * The search finds nothing exactly when there is no `(dddd)` from `from` on, and otherwise
   * the digits of the leftmost one.
   */
  lemma {:induction false} FindYearLeftmost(t: string, from: nat)
    requires from <= |t|
    ensures FindYear(t, from).None? <==> forall i :: from <= i < |t| ==> !YearAt(t, i)
    ensures FindYear(t, from).Some? ==> exists i :: (from <= i < |t| && YearAt(t, i)
      && FindYear(t, from).value == t[i + 1..i + 5] && (forall j :: from <= j < i ==> !YearAt(t, j)))
    decreases |t| - from
  {
    if from < |t| && !YearAt(t, from) {
      FindYearLeftmost(t, from + 1);
    }
  }

  /** `re.match(r'^\d{4}$', s)` on a stripped text. */
  predicate IsFourDigits(s: string) {
    |s| == 4 && AllDigits(s)
  }

  // ---------------------------------------------------------------- rows

  /** The first span that is a single string holding `(dddd)`: `find('span', string=...)`. */
  function YearSpan(spans: seq<Span>): (r: Option<string>)
    ensures r.Some? ==> FindYear(r.value, 0).Some?
    ensures r.None? <==> forall i :: 0 <= i < |spans| ==> !(spans[i].simple && FindYear(spans[i].text, 0).Some?)
  {
    if spans == [] then None
    else if spans[0].simple && FindYear(spans[0].text, 0).Some? then Some(spans[0].text)
    else
      var r := YearSpan(spans[1..]);
      assert forall i :: 1 <= i < |spans| ==> spans[i] == spans[1..][i - 1];
      r
  }

  /** The make and model: the stripped text of the first span of the first cell. */
  function MakeOf(first: Cell): string {
    if |first.spans| > 0 then Strip(first.spans[0].text) else ""
  }

  /**
   * The year: from a year span of the first cell; without one, the stripped last cell when
   * there are two cells or more and it is four digits; otherwise "".
   */
  function YearOf(cells: seq<Cell>): (ar: string)
    requires |cells| >= 1
    ensures ar == "" || IsFourDigits(ar)
  {
    var span := YearSpan(cells[0].spans);
    if span.Some? then FindYear(span.value, 0).value
    else if |cells| >= 2 && IsFourDigits(Strip(cells[|cells| - 1].text)) then Strip(cells[|cells| - 1].text)
    else ""
  }

  /** The owner: the stripped next-to-last cell when there are three cells or more, else the first cell's `dd`. */
  function OwnerOf(cells: seq<Cell>): string
    requires |cells| >= 1
  {
    if |cells| >= 3 then Strip(cells[|cells| - 2].text)
    else if cells[0].dd.Some? then Strip(cells[0].dd.value)
    else ""
  }

  /** One table row: a vehicle when it has a cell and a non-empty make and model. */
  function ParseRow(row: Row): (v: Option<FordonResult>)
    ensures v.Some? <==> |row.cells| >= 1 && MakeOf(row.cells[0]) != ""
  {
    if |row.cells| < 1 then None
    else
      var make := MakeOf(row.cells[0]);
      if make == "" then None
      else Some(FordonResult(make, YearOf(row.cells), OwnerOf(row.cells),
                             Some(VehicleCategory(make)), None))
  }

  /**
   * A parsed vehicle has a make and model without edge whitespace, a year that is "" or four
   * digits, a category other than "Okänt", and no registration number.
   */
  lemma ParsedVehicleShape(row: Row)
    requires ParseRow(row).Some?
    ensures var v := ParseRow(row).value;
      && v.markeModell == MakeOf(row.cells[0]) && v.markeModell != ""
      && !IsSpace(v.markeModell[0]) && !IsSpace(v.markeModell[|v.markeModell| - 1])
      && (v.ar == "" || IsFourDigits(v.ar))
      && v.agare == OwnerOf(row.cells)
      && v.fordontyp.Some? && v.fordontyp.value != "Okänt"
      && v.fordontyp == Some(VehicleCategory(v.markeModell))
      && v.registreringsnummer.None?
  {
  }

  /** A year span wins over a four-digit last cell. */
  lemma YearSpanFirst(cells: seq<Cell>)
    requires |cells| >= 1 && YearSpan(cells[0].spans).Some?
    ensures YearOf(cells) == FindYear(YearSpan(cells[0].spans).value, 0).value
  {
  }

  /** What each row gives. */
  function RowResults(rows: seq<Row>): (os: seq<Option<FordonResult>>)
    ensures |os| == |rows| && forall i :: 0 <= i < |rows| ==> os[i] == ParseRow(rows[i])
  {
    seq(|rows|, i requires 0 <= i < |rows| => ParseRow(rows[i]))
  }

  /** The vehicles of a container: none without a table or a body, else those of its rows in order. */
  function VehiclesOf(container: VehicleContainer): (vs: seq<FordonResult>)
  {
    match container.table
    case None => []
    case Some(None) => []
    case Some(Some(rows)) => Somes(RowResults(rows))
  }

  /** The table holds at most one vehicle per row, and each one is a row's vehicle, in row order. */
  lemma VehiclesOfRows(rows: seq<Row>)
    ensures var vs := Somes(RowResults(rows));
      var idx := Origins(RowResults(rows), 0);
      && |vs| <= |rows| && |idx| == |vs|
      && (forall k :: 0 <= k < |idx| ==> idx[k] < |rows| && ParseRow(rows[idx[k]]) == Some(vs[k]))
      && (forall k, l :: 0 <= k < l < |idx| ==> idx[k] < idx[l])
  {
    SomesOrigins(RowResults(rows));
  }

  /** The row loop: keep the vehicle of each row that has one. */
  method KeepVehicles(rows: seq<Row>) returns (fordon: seq<FordonResult>)
    ensures fordon == Somes(RowResults(rows))
  {
    ghost var os := RowResults(rows);
    fordon := [];
    var i := 0;
    while i < |rows|
      invariant 0 <= i <= |rows|
      invariant fordon == Somes(os[..i])
    {
      var v := ParseRow(rows[i]);
      assert v == os[i];
      SomesPrefix(os, i);
      if v.Some? {
        fordon := fordon + [v.value];
      }
      i := i + 1;
    }
    assert os[..i] == os;
  }

  /**
   * `parse_vehicle_table_robust(container)`: no vehicles without a table or a body, else walk
   * the rows of the body.
   */
  method ParseVehicleTable(container: VehicleContainer) returns (fordon: seq<FordonResult>)
    ensures fordon == VehiclesOf(container)
    ensures container.table.None? || container.table.value.None? ==> fordon == []
    ensures container.table.Some? && container.table.value.Some? ==>
      |fordon| <= |container.table.value.value|
  {
    if container.table.None? || container.table.value.None? {
      return [];
    }
    fordon := KeepVehicles(container.table.value.value);
  }

  /** The first vehicle selector that matches an element: `select_one` over the selectors in order. */
  function FirstContainer(hits: seq<Option<VehicleContainer>>): (r: Option<VehicleContainer>)
    ensures r.None? <==> forall i :: 0 <= i < |hits| ==> hits[i].None?
    ensures r.Some? ==> exists i :: 0 <= i < |hits| && hits[i] == r && forall j :: 0 <= j < i ==> hits[j].None?
  {
    if hits == [] then None
    else if hits[0].Some? then hits[0]
    else
      var r := FirstContainer(hits[1..]);
      assert forall i :: 1 <= i < |hits| ==> hits[i] == hits[1..][i - 1];
      r
  }

  /** The vehicles of a fetched profile page: those of the first vehicle container, or none. */
  function VehiclesOfPage(page: Page): seq<FordonResult> {
    match FirstContainer(page.vehicleHits)
    case None => []
    case Some(c) => VehiclesOf(c)
  }
}
