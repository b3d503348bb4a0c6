/**
 * How `search_person` turns what its candidate queries found into one `SearchResult`: the first
 * query with exactly one hit wins; otherwise the best-scoring query with two or three hits is
 * kept as a fallback; otherwise nothing was found.
 */
module Search {
  import opened Wrappers
  import opened Text
  import opened Records
  import opened Score

  /**
   * What one tried query gave: the persons on its results page ([] when the fetch failed), the
   * vehicles fetched for a single hit, and the seconds since the search started when the
   * result for it was built.
   */
  datatype Tried = Tried(query: string, persons: seq<PersonResult>, vehicles: seq<FordonResult>, elapsed: real)

  const MissingCriteria: string := "Minst ett sökkriterium krävs (förnamn, efternamn eller ort)"
  const NothingFound: string := "Inga resultat hittades"

  /** The search needs a first name, a surname or a city. */
  function ValidationError(): (r: SearchResult)
    ensures !r.success && r.persons == [] && r.vehicles == [] && r.qualityScore == 0
    ensures r.errorMessage == Some(MissingCriteria) && r.responseTime == None
  {
    SearchResult(false, [], [], 0, Some(MissingCriteria), None, None, None)
  }

  /** The result of a query with exactly one hit. */
  function SingleResult(t: Tried): SearchResult {
    SearchResult(true, t.persons, t.vehicles, QualityScore(t.persons, t.vehicles), None,
                 Some(t.query), Some(t.elapsed), None)
  }

  /** The fallback result of a query with two or three hits. */
  function FewResult(t: Tried): SearchResult {
    SearchResult(false, t.persons, [], QualityScore(t.persons, []),
                 Some("Flera resultat (" + IntToString(|t.persons|) + "), specificera gata"),
                 Some(t.query), Some(t.elapsed), Some(GenerateSuggestions(t.persons)))
  }

  /** A query with two or three hits. */
  predicate IsFew(t: Tried) {
    2 <= |t.persons| <= 3
  }

  /**
   * One query's effect on the fallback `(best, bestScore)`: a query with two or three hits
   * replaces it only when its score is strictly greater.
   */
  function FallbackStep(acc: (Option<SearchResult>, int), t: Tried): (r: (Option<SearchResult>, int))
    ensures r.1 >= acc.1
    ensures r == acc || (IsFew(t) && r == (Some(FewResult(t)), QualityScore(t.persons, [])))
  {
    var q := QualityScore(t.persons, []);
    if IsFew(t) && q > acc.1 then (Some(FewResult(t)), q) else acc
  }

  /** The fallback after the tried queries, left to right, starting from `best` with score `bestScore`. */
  function Fallback(ts: seq<Tried>, best: Option<SearchResult>, bestScore: int): (r: (Option<SearchResult>, int))
    ensures r.1 >= bestScore
    ensures r.0.Some? ==> r.0 == best || exists i :: 0 <= i < |ts| && IsFew(ts[i]) && r.0 == Some(FewResult(ts[i]))
    decreases |ts|
  {
    if ts == [] then (best, bestScore)
    else
      var (b, s) := FallbackStep((best, bestScore), ts[0]);
      var r := Fallback(ts[1..], b, s);
      assert forall i :: 1 <= i < |ts| ==> ts[i] == ts[1..][i - 1];
      r
  }

  /** Folding one more query onto the fallback is one more step. */
  lemma {:induction false} FallbackSnoc(ts: seq<Tried>, t: Tried, best: Option<SearchResult>, bestScore: int)
    ensures Fallback(ts + [t], best, bestScore) == FallbackStep(Fallback(ts, best, bestScore), t)
    decreases |ts|
  {
    if ts == [] {
      assert ([] + [t])[1..] == [];
    } else {
      var (b, s) := FallbackStep((best, bestScore), ts[0]);
      assert (ts + [t])[1..] == ts[1..] + [t];
      FallbackSnoc(ts[1..], t, b, s);
    }
  }

  /** Adding a query after queries without a single hit: it is the first single exactly when it is one. */
  lemma {:induction false} FirstSingleSnoc(ts: seq<Tried>, t: Tried)
    requires FirstSingle(ts) == |ts|
    ensures FirstSingle(ts + [t]) == if |t.persons| == 1 then |ts| else |ts| + 1
  {
    if ts != [] {
      assert |ts[0].persons| != 1;
      assert (ts + [t])[1..] == ts[1..] + [t];
      FirstSingleSnoc(ts[1..], t);
    }
  }

  /** Index of the first query with exactly one hit, or `|ts|`. */
  function FirstSingle(ts: seq<Tried>): (k: nat)
    ensures k <= |ts|
    ensures k < |ts| ==> |ts[k].persons| == 1
    ensures forall j :: 0 <= j < k ==> |ts[j].persons| != 1
  {
    if ts == [] then 0
    else if |ts[0].persons| == 1 then 0
    else
      var k := FirstSingle(ts[1..]);
      assert forall j :: 1 <= j < |ts| ==> ts[j] == ts[1..][j - 1];
      1 + k
  }

  /**
   * The result of `search_person` after trying the queries `ts`, `end` seconds after it
   * started: the first single hit, else the fallback, else "nothing found".
   */
  function Decide(ts: seq<Tried>, end: real): SearchResult {
    var k := FirstSingle(ts);
    if k < |ts| then SingleResult(ts[k])
    else
      match Fallback(ts, None, 0).0
      case Some(r) => r
      case None => NoneFound(end)
  }

  /** The result when no query gave one, two or three hits. */
  function NoneFound(end: real): (r: SearchResult)
    ensures !r.success && r.persons == [] && r.vehicles == [] && r.qualityScore == 0
    ensures r.errorMessage == Some(NothingFound) && r.responseTime == Some(end)
  {
    SearchResult(false, [], [], 0, Some(NothingFound), None, Some(end), None)
  }

  /** Once no earlier query had a single hit, a query with one decides the search. */
  lemma DecideOnSingle(ts: seq<Tried>, t: Tried, end: real)
    requires FirstSingle(ts) == |ts| && |t.persons| == 1
    ensures Decide(ts + [t], end) == SingleResult(t)
  {
    FirstSingleSnoc(ts, t);
  }

  /** A query without a single hit leaves the search undecided and takes the fallback one step on. */
  lemma ContinueWith(ts: seq<Tried>, t: Tried)
    requires FirstSingle(ts) == |ts| && |t.persons| != 1
    ensures FirstSingle(ts + [t]) == |ts + [t]|
    ensures Fallback(ts + [t], None, 0) == FallbackStep(Fallback(ts, None, 0), t)
  {
    FirstSingleSnoc(ts, t);
    FallbackSnoc(ts, t, None, 0);
  }

  /** When every query was tried without a single hit, the decision is the fallback, if any. */
  lemma DecideWithoutSingle(ts: seq<Tried>, end: real)
    requires FirstSingle(ts) == |ts|
    ensures Fallback(ts, None, 0).0.Some? ==> Decide(ts, end) == Fallback(ts, None, 0).0.value
    ensures Fallback(ts, None, 0).0.None? ==> Decide(ts, end) == NoneFound(end)
    ensures forall i :: 0 <= i < |ts| ==> |ts[i].persons| != 1
  {
  }

  /**
   * The queries a search tries, given the candidates: each in order, stopping right after the
   * first one with a single hit.
   */
  predicate TriedInOrder(queries: seq<string>, ts: seq<Tried>) {
    && |ts| <= |queries|
    && (forall i :: 0 <= i < |ts| ==> ts[i].query == queries[i])
    && (forall i :: 0 <= i < |ts| - 1 ==> |ts[i].persons| != 1)
    && (|ts| < |queries| ==> |ts| > 0 && |ts[|ts| - 1].persons| == 1)
  }

  /**
   * Queries tried in order that stopped either after all of them without a single hit, or
   * right at the first single hit, were tried as `TriedInOrder` says.
   */
  lemma InOrderWhenStopped(queries: seq<string>, ts: seq<Tried>)
    requires |ts| <= |queries| && forall i :: 0 <= i < |ts| ==> ts[i].query == queries[i]
    requires (|ts| == |queries| && FirstSingle(ts) == |ts|) || (|ts| > 0 && FirstSingle(ts) == |ts| - 1)
    ensures TriedInOrder(queries, ts)
  {
  }

  // ---------------------------------------------------------------- properties

  /** The search succeeds exactly when some tried query had a single hit, and then that one is returned. */
  lemma SuccessIffSingle(ts: seq<Tried>, end: real)
    ensures Decide(ts, end).success <==> exists i :: 0 <= i < |ts| && |ts[i].persons| == 1
    ensures forall i | 0 <= i < |ts| && |ts[i].persons| == 1 ::
      (forall j :: 0 <= j < i ==> |ts[j].persons| != 1) ==> Decide(ts, end) == SingleResult(ts[i])
  {
    var k := FirstSingle(ts);
    if k == |ts| {
      FallbackNotSuccess(ts, None, 0);
    }
    forall i | 0 <= i < |ts| && |ts[i].persons| == 1 && (forall j :: 0 <= j < i ==> |ts[j].persons| != 1)
      ensures Decide(ts, end) == SingleResult(ts[i])
    {
      assert k == i;
    }
  }

  /** A fallback is never a success. */
  lemma {:induction false} FallbackNotSuccess(ts: seq<Tried>, best: Option<SearchResult>, bestScore: int)
    requires best.Some? ==> !best.value.success
    ensures Fallback(ts, best, bestScore).0.Some? ==> !Fallback(ts, best, bestScore).0.value.success
    decreases |ts|
  {
    if ts != [] {
      var t := ts[0];
      var q := QualityScore(t.persons, []);
      var (b, s) := FallbackStep((best, bestScore), t);
      FallbackNotSuccess(ts[1..], b, s);
    }
  }

  /**
   * Starting from no fallback and score 0, the fallback is present exactly when some query had
   * two or three hits (their score is at least 0.5, so the first one always beats 0).
   */
  lemma {:induction false} FallbackPresent(ts: seq<Tried>, best: Option<SearchResult>, bestScore: int)
    requires bestScore < 50
    requires best.None? <==> bestScore == 0
    requires bestScore >= 0
    ensures Fallback(ts, best, bestScore).0.Some? <==>
      best.Some? || exists i :: 0 <= i < |ts| && IsFew(ts[i])
    decreases |ts|
  {
    if ts != [] {
      var t := ts[0];
      var q := QualityScore(t.persons, []);
      assert forall i :: 1 <= i < |ts| ==> ts[i] == ts[1..][i - 1];
      if IsFew(t) && q > bestScore {
        FallbackKeeps(ts[1..], FewResult(t), q);
      } else {
        FallbackPresent(ts[1..], best, bestScore);
      }
    }
  }

  /** Once there is a fallback, it stays. */
  lemma {:induction false} FallbackKeeps(ts: seq<Tried>, best: SearchResult, bestScore: int)
    ensures Fallback(ts, Some(best), bestScore).0.Some?
    decreases |ts|
  {
    if ts != [] {
      var t := ts[0];
      var q := QualityScore(t.persons, []);
      if IsFew(t) && q > bestScore {
        FallbackKeeps(ts[1..], FewResult(t), q);
      } else {
        FallbackKeeps(ts[1..], best, bestScore);
      }
    }
  }

  /**
   * The final best score is at least the score of every query with two or three hits; queries
   * with no hit, one hit or more than three hits do not count.
   */
  lemma {:induction false} FallbackIsBest(ts: seq<Tried>, best: Option<SearchResult>, bestScore: int)
    ensures forall i :: 0 <= i < |ts| && IsFew(ts[i]) ==>
      QualityScore(ts[i].persons, []) <= Fallback(ts, best, bestScore).1
    decreases |ts|
  {
    if ts != [] {
      var t := ts[0];
      var q := QualityScore(t.persons, []);
      var (b, s) := FallbackStep((best, bestScore), t);
      FallbackIsBest(ts[1..], b, s);
      assert forall i :: 1 <= i < |ts| ==> ts[i] == ts[1..][i - 1];
    }
  }

  /**
   * Query `i` has two or three hits and score `score`, above `floor`, and every earlier such
   * query scored less.
   */
  predicate EarliestWith(ts: seq<Tried>, i: int, score: int, floor: int) {
    && 0 <= i < |ts| && IsFew(ts[i]) && score == QualityScore(ts[i].persons, []) && score > floor
    && forall j :: 0 <= j < i && IsFew(ts[j]) ==> QualityScore(ts[j].persons, []) < score
  }

  /** The earliest best query of the rest stays the earliest after a first query that scored no more than `mid`. */
  lemma EarliestShift(ts: seq<Tried>, i: int, score: int, floor: int, mid: int)
    requires |ts| > 0 && EarliestWith(ts[1..], i, score, mid) && floor <= mid
    requires IsFew(ts[0]) ==> QualityScore(ts[0].persons, []) <= mid
    ensures EarliestWith(ts, i + 1, score, floor)
  {
    assert ts[1..][i] == ts[i + 1];
    forall j | 0 <= j < i + 1 && IsFew(ts[j])
      ensures QualityScore(ts[j].persons, []) < score
    {
      if j > 0 {
        assert ts[j] == ts[1..][j - 1];
      }
    }
  }

  /**
   * The kept fallback is the earliest query reaching the best score: a later query with an equal
   * score does not replace it.
   */
  lemma {:induction false} FallbackEarliest(ts: seq<Tried>, best: Option<SearchResult>, bestScore: int)
    ensures var (r, s) := Fallback(ts, best, bestScore);
      (r == best && s == bestScore) || exists i :: EarliestWith(ts, i, s, bestScore) && r == Some(FewResult(ts[i]))
    decreases |ts|
  {
    if ts != [] {
      var t := ts[0];
      var q := QualityScore(t.persons, []);
      var (b, s) := FallbackStep((best, bestScore), t);
      FallbackEarliest(ts[1..], b, s);
      var (r, s') := Fallback(ts, best, bestScore);
      assert (r, s') == Fallback(ts[1..], b, s);
      if r == b && s' == s {
        if IsFew(t) && q > bestScore {
          assert EarliestWith(ts, 0, s', bestScore);
        }
      } else {
        var i :| EarliestWith(ts[1..], i, s', s) && r == Some(FewResult(ts[1..][i]));
        EarliestShift(ts, i, s', bestScore, s);
        assert r == Some(FewResult(ts[i + 1]));
      }
    }
  }

  /** With no single hit and no query of two or three hits, the search reports nothing found. */
  lemma NothingFoundResult(ts: seq<Tried>, end: real)
    requires forall i :: 0 <= i < |ts| ==> |ts[i].persons| != 1 && !IsFew(ts[i])
    ensures Decide(ts, end) == SearchResult(false, [], [], 0, Some(NothingFound), None, Some(end), None)
  {
    FallbackPresent(ts, None, 0);
  }

  /**
   * With no single hit, the result is the fallback of the earliest 2-3 person query with the best
   * score: not a success, and without vehicles.
   */
  lemma FallbackResult(ts: seq<Tried>, end: real)
    requires forall i :: 0 <= i < |ts| ==> |ts[i].persons| != 1
    requires exists i :: 0 <= i < |ts| && IsFew(ts[i])
    ensures var r := Decide(ts, end);
      && !r.success && r.vehicles == [] && 2 <= |r.persons| <= 3
      && (exists i :: EarliestWith(ts, i, r.qualityScore, 0) && r == FewResult(ts[i]))
      && (forall j :: 0 <= j < |ts| && IsFew(ts[j]) ==> QualityScore(ts[j].persons, []) <= r.qualityScore)
  {
    FallbackPresent(ts, None, 0);
    FallbackIsBest(ts, None, 0);
    FallbackEarliest(ts, None, 0);
  }
}
