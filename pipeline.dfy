/**
 * `pipeline_hämta_fordonsinfo`: the chat-pipeline wrapper. A free-text question is turned into
 * search parameters, a context dictionary may override them, and the scraper's answer is
 * formatted as a reply dictionary. The scraper call itself enters as a parameter.
 */
module Pipeline {
  import opened Wrappers
  import opened Text
  import opened Records
  import opened Strategy
  import opened Search

  /** The cities the parser recognises, lower-case. */
  const Cities: seq<string> := [
    "stockholm", "göteborg", "malmö", "uppsala", "västerås", "örebro",
    "linköping", "helsingborg", "jönköping", "norrköping", "lund",
    "umeå", "gävle", "borlänge", "sundsvall", "borås", "eskilstuna"]

  /** The parameters the pipeline hands to `search_person`. */
  datatype Params = Params(fornamn: Option<string>, efternamn: Option<string>, ort: Option<string>, gata: Option<string>)

  const NoParams: Params := Params(None, None, None, None)

  /** The words of a question: lower-cased, then split on whitespace. */
  function Words(question: string): (ws: seq<string>)
    ensures forall i :: 0 <= i < |ws| ==> IsWord(ws[i])
  {
    SplitWords(LowerString(question));
    Split(LowerString(question))
  }

  /** Index of the first word that is a known city, or `|words|` when there is none. */
  function FirstCity(words: seq<string>): (k: nat)
    ensures k <= |words|
    ensures k < |words| ==> words[k] in Cities
    ensures forall j :: 0 <= j < k ==> words[j] !in Cities
  {
    if words == [] then 0
    else if words[0] in Cities then 0
    else
      var k := FirstCity(words[1..]);
      assert forall j :: 1 <= j < |words| ==> words[j] == words[1..][j - 1];
      1 + k
  }

  /**
   * What the parser finds in a question: the first known city, and the word right before it as
   * first name. The surname and the street are never taken from the question.
   */
  function Parse(question: string): (p: Params)
    ensures p.efternamn == None && p.gata == None
    ensures p.ort.Some? <==> exists i :: 0 <= i < |Words(question)| && Words(question)[i] in Cities
    ensures p.ort.Some? ==> p.ort.value in Cities
    ensures p.fornamn.Some? ==> p.ort.Some? && p.fornamn.value != "" && p.fornamn.value in Words(question)
    ensures p.ort.None? ==> p == NoParams
  {
    var words := Words(question);
    var k := FirstCity(words);
    if k == |words| then NoParams
    else Params(if k > 0 then Some(words[k - 1]) else None, None, Some(words[k]), None)
  }

  /**
   * The city the parser reports is a word of the question with no known city before it, and
   * the first name is the word right before that city, or absent when the city comes first.
   */
  lemma ParseFirstCity(question: string)
    ensures var words := Words(question); var p := Parse(question);
      p.ort.Some? ==> exists k :: (0 <= k < |words| && words[k] == p.ort.value
        && (forall j :: 0 <= j < k ==> words[j] !in Cities)
        && p.fornamn == (if k > 0 then Some(words[k - 1]) else None))
  {
    var words := Words(question);
    var k := FirstCity(words);
    if k < |words| {
      var p := Params(if k > 0 then Some(words[k - 1]) else None, None, Some(words[k]), None);
      assert Parse(question) == p;
      assert forall j :: 0 <= j < k ==> words[j] !in Cities;
    }
  }

  /** The parsing loop as the pipeline runs it: stop at the first city. */
  method ParseQuestion(question: string) returns (p: Params)
    ensures p == Parse(question)
  {
    var words := Words(question);
    ghost var k := FirstCity(words);
    var fornamn: Option<string> := None;
    var efternamn: Option<string> := None;
    var ort: Option<string> := None;
    var gata: Option<string> := None;
    var i := 0;
    while i < |words|
      invariant 0 <= i <= k
      invariant fornamn == None && efternamn == None && ort == None && gata == None
    {
      if words[i] in Cities {
        ort := Some(words[i]);
        if i > 0 {
          if fornamn.None? {
            fornamn := Some(words[i - 1]);
          }
        }
        assert i == k;
        break;
      }
      i := i + 1;
    }
    assert ort.None? ==> k == |words|;
    p := Params(fornamn, efternamn, ort, gata);
  }

  /**
   * `pipeline_kontext.get(key, current)` for each of the four keys, applied only when the
   * context is a non-empty dictionary.
   */
  function WithContext(p: Params, context: Option<map<string, Option<string>>>): (r: Params)
    ensures context.None? || context.value == map[] ==> r == p
  {
    if context.None? || context.value == map[] then p
    else
      var m := context.value;
      Params(
        if "förnamn" in m then m["förnamn"] else p.fornamn,
        if "efternamn" in m then m["efternamn"] else p.efternamn,
        if "ort" in m then m["ort"] else p.ort,
        if "gata" in m then m["gata"] else p.gata)
  }

  /** A context overrides exactly the keys it holds and keeps every other parameter. */
  lemma ContextOverridesOnlyItsKeys(p: Params, m: map<string, Option<string>>)
    requires m != map[]
    ensures var r := WithContext(p, Some(m));
      && (if "förnamn" in m then r.fornamn == m["förnamn"] else r.fornamn == p.fornamn)
      && (if "efternamn" in m then r.efternamn == m["efternamn"] else r.efternamn == p.efternamn)
      && (if "ort" in m then r.ort == m["ort"] else r.ort == p.ort)
      && (if "gata" in m then r.gata == m["gata"] else r.gata == p.gata)
  {
  }

  /** Applying the same context twice changes nothing more. */
  lemma ContextIdempotent(p: Params, context: Option<map<string, Option<string>>>)
    ensures WithContext(WithContext(p, context), context) == WithContext(p, context)
  {
  }

  /** A context holding all four keys decides the parameters alone, whatever the question said. */
  lemma FullContextWins(p: Params, q: Params, m: map<string, Option<string>>)
    requires "förnamn" in m && "efternamn" in m && "ort" in m && "gata" in m
    ensures WithContext(p, Some(m)) == WithContext(q, Some(m))
  {
  }

  /** The search input the pipeline builds; it never passes an age. */
  function Input(p: Params): SearchInput {
    SearchInput(p.fornamn, p.efternamn, p.ort, p.gata, None)
  }

  /** A question without a known city and without a context gives a search that fails validation. */
  lemma NoCityIsRejected(question: string)
    requires forall i :: 0 <= i < |Words(question)| ==> Words(question)[i] !in Cities
    ensures var i := Input(WithContext(Parse(question), None));
      !(Truthy(i.fornamn) || Truthy(i.efternamn) || Truthy(i.ort))
  {
  }

  // ---------------------------------------------------------------- the reply

  /** The keys of a formatted reply, in order. */
  const ReplyKeys: seq<string> :=
    ["status", "meddelande", "personer", "fordon", "kvalitetspoäng", "svarstid", "förslag"]

  /** The keys of an error reply, in order. */
  const ErrorKeys: seq<string> :=
    ["status", "meddelande", "personer", "fordon", "kvalitetspoäng"]

  /** One vehicle as the pipeline reports it. */
  function VehicleSummary(v: FordonResult): Json {
    JObject([
      ("märke_modell", JStr(v.markeModell)),
      ("år", JStr(v.ar)),
      ("ägare", JStr(v.agare)),
      ("typ", StrOrNull(v.fordontyp))])
  }

  function VehicleSummaries(vs: seq<FordonResult>): (j: seq<Json>)
    ensures |j| == |vs| && forall i :: 0 <= i < |vs| ==> j[i] == VehicleSummary(vs[i])
  {
    if vs == [] then [] else [VehicleSummary(vs[0])] + VehicleSummaries(vs[1..])
  }

  /** `result.error_message or f"Hittade {n} personer"`. */
  function Message(r: SearchResult): (m: string)
    ensures m != ""
  {
    if Truthy(r.errorMessage) then r.errorMessage.value
    else "Hittade " + IntToString(|r.persons|) + " personer"
  }

  /** The reply for a search that returned. */
  function FormatResult(r: SearchResult): (j: Json)
    ensures j.JObject? && Keys(j.fields) == ReplyKeys
  {
    JObject([
      ("status", JStr(if r.success then "success" else "partial")),
      ("meddelande", JStr(Message(r))),
      ("personer", JInt(|r.persons|)),
      ("fordon", JList(VehicleSummaries(r.vehicles))),
      ("kvalitetspoäng", JNum(ScoreNumber(r.qualityScore))),
      ("svarstid", RealOrNull(r.responseTime)),
      ("förslag", JList(StrList(r.suggestions.GetOr([]))))])
  }

  /** The reply when the search raised `message`. */
  function ErrorReply(message: string): (j: Json)
    ensures j.JObject? && Keys(j.fields) == ErrorKeys
  {
    JObject([
      ("status", JStr("error")),
      ("meddelande", JStr("Fel vid sökning: " + message)),
      ("personer", JInt(0)),
      ("fordon", JList([])),
      ("kvalitetspoäng", JNum(0.0))])
  }

  /** The value under `key` in a list of fields, if any; the first one wins. */
  function Lookup(fields: seq<(string, Json)>, key: string): Option<Json> {
    if fields == [] then None
    else if fields[0].0 == key then Some(fields[0].1)
    else Lookup(fields[1..], key)
  }

  /** The field under `key` of a dictionary, as `dict.get(key)`. */
  function Field(j: Json, key: string): Option<Json> {
    if j.JObject? then Lookup(j.fields, key) else None
  }

  /** Looking up the key of a field finds that field when no earlier field has the same key. */
  lemma {:induction false} LookupAt(fields: seq<(string, Json)>, i: nat)
    requires i < |fields| && forall j :: 0 <= j < i ==> fields[j].0 != fields[i].0
    ensures Lookup(fields, fields[i].0) == Some(fields[i].1)
  {
    if i > 0 {
      LookupAt(fields[1..], i - 1);
    }
  }

  /** A key that no field holds finds nothing. */
  lemma {:induction false} LookupMissing(fields: seq<(string, Json)>, key: string)
    requires forall j :: 0 <= j < |fields| ==> fields[j].0 != key
    ensures Lookup(fields, key) == None
  {
    if fields != [] {
      LookupMissing(fields[1..], key);
    }
  }

  /**
   * What a formatted reply says about the search: its status tells success from a partial
   * answer, its message is the search's error or the person count, and it counts the persons.
   */
  lemma FormattedStatus(r: SearchResult)
    ensures var j := FormatResult(r);
      && Field(j, "status") == Some(JStr(if r.success then "success" else "partial"))
      && Field(j, "meddelande") == Some(JStr(Message(r)))
      && Field(j, "personer") == Some(JInt(|r.persons|))
  {
    var fields := FormatResult(r).fields;
    LookupAt(fields, 0);
    LookupAt(fields, 1);
    LookupAt(fields, 2);
  }

  /**
   * What a formatted reply lists: the vehicles of the result, in order, the score, and the
   * suggestions, a missing list showing as an empty one; it has no "error" field.
   */
  lemma FormattedLists(r: SearchResult)
    ensures var j := FormatResult(r);
      && Field(j, "fordon") == Some(JList(VehicleSummaries(r.vehicles)))
      && Field(j, "kvalitetspoäng") == Some(JNum(ScoreNumber(r.qualityScore)))
      && Field(j, "förslag") == Some(JList(StrList(r.suggestions.GetOr([]))))
      && (r.suggestions.None? ==> Field(j, "förslag") == Some(JList([])))
      && Field(j, "error") == None
  {
    var fields := FormatResult(r).fields;
    LookupAt(fields, 3);
    LookupAt(fields, 4);
    LookupAt(fields, 6);
    LookupMissing(fields, "error");
  }

  /** An error reply is never mistaken for an answer: its status is "error" and it reports nothing found. */
  lemma ErrorFields(message: string, r: SearchResult)
    ensures var e := ErrorReply(message);
      && Field(e, "status") == Some(JStr("error"))
      && Field(e, "personer") == Some(JInt(0))
      && Field(e, "fordon") == Some(JList([]))
      && Field(e, "svarstid") == None
      && e != FormatResult(r)
  {
    var fields := ErrorReply(message).fields;
    LookupAt(fields, 0);
    LookupAt(fields, 2);
    LookupAt(fields, 3);
    LookupMissing(fields, "svarstid");
    assert Keys(ErrorReply(message).fields) != Keys(FormatResult(r).fields);
  }

  /**
   * The reply to a finished search: "success" exactly when some tried query had one hit, and
   * then the message counts that one person; otherwise the message is the search's own error.
   */
  lemma ReplyToSearch(ts: seq<Tried>, end: real)
    ensures var r := Decide(ts, end);
      && (Field(FormatResult(r), "status") == Some(JStr("success")) <==> exists i :: 0 <= i < |ts| && |ts[i].persons| == 1)
      && (r.success ==> Message(r) == "Hittade 1 personer")
      && (!r.success ==> Truthy(r.errorMessage) && Message(r) == r.errorMessage.value)
  {
    SuccessIffSingle(ts, end);
    FormattedStatus(Decide(ts, end));
    var k := FirstSingle(ts);
    if k == |ts| {
      FallbackNotSuccess(ts, None, 0);
      var fb := Fallback(ts, None, 0).0;
      if fb.Some? {
        FallbackFewMessage(ts);
      }
    } else {
      assert IntToString(1) == "1";
    }
  }

  /** A fallback result always carries its "several results" message. */
  lemma FallbackFewMessage(ts: seq<Tried>)
    requires Fallback(ts, None, 0).0.Some?
    ensures Truthy(Fallback(ts, None, 0).0.value.errorMessage)
  {
    var fb := Fallback(ts, None, 0).0;
    if fb != None {
      var i :| 0 <= i < |ts| && IsFew(ts[i]) && fb == Some(FewResult(ts[i]));
    }
  }

  /** What the scraper call gives the pipeline: a result, or an exception with its text. */
  datatype Answer = Returned(result: SearchResult) | Raised(message: string)

  /**
   * `pipeline_hämta_fordonsinfo(question, context)`, with `search` standing for the scraper's
   * `search_person` on the parameters found.
   */
  method Run(question: string, context: Option<map<string, Option<string>>>, search: SearchInput -> Answer)
    returns (reply: Json)
    ensures reply == match search(Input(WithContext(Parse(question), context)))
      case Returned(r) => FormatResult(r)
      case Raised(e) => ErrorReply(e)
  {
    var p := ParseQuestion(question);
    if context.Some? && context.value != map[] {
      var m := context.value;
      var fornamn := p.fornamn;
      var efternamn := p.efternamn;
      var ort := p.ort;
      var gata := p.gata;
      if "förnamn" in m {
        fornamn := m["förnamn"];
      }
      if "efternamn" in m {
        efternamn := m["efternamn"];
      }
      if "ort" in m {
        ort := m["ort"];
      }
      if "gata" in m {
        gata := m["gata"];
      }
      p := Params(fornamn, efternamn, ort, gata);
    }
    assert p == WithContext(Parse(question), context);
    var answer := search(Input(p));
    match answer {
      case Returned(r) =>
        reply := FormatResult(r);
      case Raised(e) =>
        reply := ErrorReply(e);
    }
  }
}
