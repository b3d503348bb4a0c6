/**
 * The scraper's result records (`PersonResult`, `FordonResult`, `SearchResult`) and their
 * `to_dict` serialisation into JSON-shaped values, with decoders that invert it for persons
 * and vehicles.
 */
module Records {
  import opened Wrappers

  /** One person found on a results page. `ålder` and `kön` are optional. */
  datatype PersonResult = PersonResult(
    namn: string,
    profilUrl: Option<string>,   // `None` when the name link has no href
    adress: string,
    gata: string,
    personnummer: string,
    alder: Option<int>,
    kon: Option<string>,
    bolagsengagemang: bool)

  /** One vehicle row of a profile page. */
  datatype FordonResult = FordonResult(
    markeModell: string,
    ar: string,
    agare: string,
    fordontyp: Option<string>,
    registreringsnummer: Option<string>)

  /** The outcome of one search; `qualityScore` is in hundredths (0..100 stands for 0.0..1.0). */
  datatype SearchResult = SearchResult(
    success: bool,
    persons: seq<PersonResult>,
    vehicles: seq<FordonResult>,
    qualityScore: int,
    errorMessage: Option<string>,
    searchStrategy: Option<string>,
    responseTime: Option<real>,
    suggestions: Option<seq<string>>)

  /** `PersonResult(namn, profil_url, adress, gata, personnummer)` with the dataclass defaults. */
  function NewPerson(namn: string, profilUrl: Option<string>, adress: string, gata: string,
                     personnummer: string): (p: PersonResult)
    ensures p.alder == None && p.kon == None && !p.bolagsengagemang
    ensures p.namn == namn && p.profilUrl == profilUrl && p.adress == adress
    ensures p.gata == gata && p.personnummer == personnummer
  {
    PersonResult(namn, profilUrl, adress, gata, personnummer, None, None, false)
  }

  /** `FordonResult(märke_modell, år, ägare)` with the dataclass defaults. */
  function NewVehicle(markeModell: string, ar: string, agare: string): (v: FordonResult)
    ensures v.fordontyp == None && v.registreringsnummer == None
    ensures v.markeModell == markeModell && v.ar == ar && v.agare == agare
  {
    FordonResult(markeModell, ar, agare, None, None)
  }

  /** `SearchResult(success, persons, vehicles, quality_score)` with the dataclass defaults. */
  function NewSearchResult(success: bool, persons: seq<PersonResult>, vehicles: seq<FordonResult>,
                           qualityScore: int): (r: SearchResult)
    ensures r.errorMessage == None && r.searchStrategy == None
    ensures r.responseTime == None && r.suggestions == None
    ensures r.success == success && r.persons == persons && r.vehicles == vehicles
    ensures r.qualityScore == qualityScore
  {
    SearchResult(success, persons, vehicles, qualityScore, None, None, None, None)
  }

  // ---------------------------------------------------------------- JSON values

  /** A JSON-shaped value; an object keeps its keys in insertion order, as a Python dict does. */
  datatype Json =
    | JNull
    | JBool(b: bool)
    | JInt(i: int)
    | JNum(r: real)
    | JStr(s: string)
    | JList(items: seq<Json>)
    | JObject(fields: seq<(string, Json)>)

  const PersonKeys: seq<string> :=
    ["namn", "profil_url", "adress", "gata", "personnummer", "ålder", "kön", "bolagsengagemang"]
  const VehicleKeys: seq<string> :=
    ["märke_modell", "år", "ägare", "fordontyp", "registreringsnummer"]
  const SearchResultKeys: seq<string> :=
    ["success", "persons", "vehicles", "quality_score", "error_message",
     "search_strategy", "response_time", "suggestions"]

  function Keys(fields: seq<(string, Json)>): (ks: seq<string>)
    ensures |ks| == |fields|
    ensures forall i :: 0 <= i < |fields| ==> ks[i] == fields[i].0
  {
    if fields == [] then [] else [fields[0].0] + Keys(fields[1..])
  }

  function StrOrNull(s: Option<string>): Json {
    match s
    case Some(v) => JStr(v)
    case None => JNull
  }

  function IntOrNull(i: Option<int>): Json {
    match i
    case Some(v) => JInt(v)
    case None => JNull
  }

  function RealOrNull(r: Option<real>): Json {
    match r
    case Some(v) => JNum(v)
    case None => JNull
  }

  /** A score in hundredths as the float it stands for. */
  function ScoreNumber(hundredths: int): real {
    hundredths as real / 100.0
  }

  // ---------------------------------------------------------------- to_dict

  /** `asdict(person)`: every field under its own name, in declaration order. */
  function PersonToDict(p: PersonResult): Json {
    JObject([
      ("namn", JStr(p.namn)),
      ("profil_url", StrOrNull(p.profilUrl)),
      ("adress", JStr(p.adress)),
      ("gata", JStr(p.gata)),
      ("personnummer", JStr(p.personnummer)),
      ("ålder", IntOrNull(p.alder)),
      ("kön", StrOrNull(p.kon)),
      ("bolagsengagemang", JBool(p.bolagsengagemang))])
  }

  /** `asdict(vehicle)`. */
  function VehicleToDict(v: FordonResult): Json {
    JObject([
      ("märke_modell", JStr(v.markeModell)),
      ("år", JStr(v.ar)),
      ("ägare", JStr(v.agare)),
      ("fordontyp", StrOrNull(v.fordontyp)),
      ("registreringsnummer", StrOrNull(v.registreringsnummer))])
  }

  function StrList(ss: seq<string>): (j: seq<Json>)
    ensures |j| == |ss| && forall i :: 0 <= i < |ss| ==> j[i] == JStr(ss[i])
  {
    if ss == [] then [] else [JStr(ss[0])] + StrList(ss[1..])
  }

  function PersonList(ps: seq<PersonResult>): (j: seq<Json>)
    ensures |j| == |ps| && forall i :: 0 <= i < |ps| ==> j[i] == PersonToDict(ps[i])
  {
    if ps == [] then [] else [PersonToDict(ps[0])] + PersonList(ps[1..])
  }

  function VehicleList(vs: seq<FordonResult>): (j: seq<Json>)
    ensures |j| == |vs| && forall i :: 0 <= i < |vs| ==> j[i] == VehicleToDict(vs[i])
  {
    if vs == [] then [] else [VehicleToDict(vs[0])] + VehicleList(vs[1..])
  }

  /** `SearchResult.to_dict()`; `self.suggestions or []` turns a missing list into `[]`. */
  function SearchResultToDict(r: SearchResult): Json {
    JObject([
      ("success", JBool(r.success)),
      ("persons", JList(PersonList(r.persons))),
      ("vehicles", JList(VehicleList(r.vehicles))),
      ("quality_score", JNum(ScoreNumber(r.qualityScore))),
      ("error_message", StrOrNull(r.errorMessage)),
      ("search_strategy", StrOrNull(r.searchStrategy)),
      ("response_time", RealOrNull(r.responseTime)),
      ("suggestions", JList(StrList(r.suggestions.GetOr([]))))])
  }

  // ---------------------------------------------------------------- decoders

  function AsOptStr(j: Json): Option<Option<string>> {
    match j
    case JNull => Some(None)
    case JStr(s) => Some(Some(s))
    case _ => None
  }

  function AsOptInt(j: Json): Option<Option<int>> {
    match j
    case JNull => Some(None)
    case JInt(i) => Some(Some(i))
    case _ => None
  }

  /** Read back, by position, an object laid out as `asdict` lays out a person. */
  function PersonFromDict(j: Json): Option<PersonResult> {
    if !j.JObject? || |j.fields| != |PersonKeys| then None
    else
      var f := j.fields;
      var url := AsOptStr(f[1].1);
      var alder := AsOptInt(f[5].1);
      var kon := AsOptStr(f[6].1);
      if f[0].1.JStr? && url.Some? && f[2].1.JStr? && f[3].1.JStr? && f[4].1.JStr?
         && alder.Some? && kon.Some? && f[7].1.JBool?
      then Some(PersonResult(f[0].1.s, url.value, f[2].1.s, f[3].1.s, f[4].1.s,
                             alder.value, kon.value, f[7].1.b))
      else None
  }

  /** Read back, by position, an object laid out as `asdict` lays out a vehicle. */
  function VehicleFromDict(j: Json): Option<FordonResult> {
    if !j.JObject? || |j.fields| != |VehicleKeys| then None
    else
      var f := j.fields;
      var typ := AsOptStr(f[3].1);
      var reg := AsOptStr(f[4].1);
      if f[0].1.JStr? && f[1].1.JStr? && f[2].1.JStr? && typ.Some? && reg.Some?
      then Some(FordonResult(f[0].1.s, f[1].1.s, f[2].1.s, typ.value, reg.value))
      else None
  }

  /** Decode every element of a list, failing if any element fails. */
  function PersonsFromList(js: seq<Json>): Option<seq<PersonResult>> {
    if js == [] then Some([])
    else
      match (PersonFromDict(js[0]), PersonsFromList(js[1..]))
      case (Some(p), Some(ps)) => Some([p] + ps)
      case _ => None
  }

  function VehiclesFromList(js: seq<Json>): Option<seq<FordonResult>> {
    if js == [] then Some([])
    else
      match (VehicleFromDict(js[0]), VehiclesFromList(js[1..]))
      case (Some(v), Some(vs)) => Some([v] + vs)
      case _ => None
  }

  // ---------------------------------------------------------------- properties

  /** A person survives serialisation unchanged. */
  lemma PersonRoundTrip(p: PersonResult)
    ensures PersonFromDict(PersonToDict(p)) == Some(p)
  {
  }

  /** A vehicle survives serialisation unchanged. */
  lemma VehicleRoundTrip(v: FordonResult)
    ensures VehicleFromDict(VehicleToDict(v)) == Some(v)
  {
  }

  lemma {:induction false} PersonListRoundTrip(ps: seq<PersonResult>)
    ensures PersonsFromList(PersonList(ps)) == Some(ps)
  {
    if ps != [] {
      PersonRoundTrip(ps[0]);
      PersonListRoundTrip(ps[1..]);
      assert PersonList(ps)[1..] == PersonList(ps[1..]);
      assert [ps[0]] + ps[1..] == ps;
    }
  }

  lemma {:induction false} VehicleListRoundTrip(vs: seq<FordonResult>)
    ensures VehiclesFromList(VehicleList(vs)) == Some(vs)
  {
    if vs != [] {
      VehicleRoundTrip(vs[0]);
      VehicleListRoundTrip(vs[1..]);
      assert VehicleList(vs)[1..] == VehicleList(vs[1..]);
      assert [vs[0]] + vs[1..] == vs;
    }
  }

  /** `to_dict` emits exactly the eight documented keys, in this order. */
  lemma SearchResultKeysExact(r: SearchResult)
    ensures SearchResultToDict(r).JObject?
    ensures Keys(SearchResultToDict(r).fields)
         == ["success", "persons", "vehicles", "quality_score", "error_message",
             "search_strategy", "response_time", "suggestions"]
  {
  }

  /**
   * Persons and vehicles are serialised element by element, in order; the scalar fields are
   * copied; suggestions are the list itself, or `[]` when there is none.
   */
  lemma SearchResultFields(r: SearchResult)
    ensures var f := SearchResultToDict(r).fields;
      && f[0].1 == JBool(r.success)
      && f[1].1.JList? && |f[1].1.items| == |r.persons|
      && (forall i :: 0 <= i < |r.persons| ==> f[1].1.items[i] == PersonToDict(r.persons[i]))
      && f[2].1.JList? && |f[2].1.items| == |r.vehicles|
      && (forall i :: 0 <= i < |r.vehicles| ==> f[2].1.items[i] == VehicleToDict(r.vehicles[i]))
      && f[3].1 == JNum(r.qualityScore as real / 100.0)
      && f[4].1 == StrOrNull(r.errorMessage)
      && f[5].1 == StrOrNull(r.searchStrategy)
      && f[6].1 == RealOrNull(r.responseTime)
      && (r.suggestions.None? ==> f[7].1 == JList([]))
      && (r.suggestions.Some? ==> f[7].1 == JList(StrList(r.suggestions.value)))
  {
  }
}
