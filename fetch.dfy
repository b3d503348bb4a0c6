/**
 * `RobustMerinfoScraper`: its request bookkeeping (`rate_limit`, `safe_request`), the vehicle
 * fetch of a profile page, and `search_person`, which ties the whole engine together.
 *
 * The outside world enters as two functions fixed when the scraper is made: `random(n)` is the
 * `n`-th value of `random.random()`, and `network(n, url)` is what the `n`-th HTTP request,
 * for `url`, gives and how many seconds it takes. `clock` stands for `time.time()`; it moves
 * only by sleeps and by requests.
 */
module Fetch {
  import opened Wrappers
  import opened Text
  import opened Records
  import opened Html
  import opened Cache
  import opened Strategy
  import opened Persons
  import opened Vehicles
  import opened Score
  import opened Search

  /** What one GET gives: a parsed page, a `RequestException`, or any other exception. */
  datatype Outcome = Ok(page: Page) | TransportError | OtherError

  /** One request: its outcome and the seconds it takes. */
  datatype Reply = Reply(outcome: Outcome, took: real)

  const UserAgents: seq<string> := [
    "Mozilla/5.0 (Windows NT 10.0; Win64; x64) AppleWebKit/537.36 (KHTML, like Gecko) Chrome/120.0.0.0 Safari/537.36",
    "Mozilla/5.0 (Macintosh; Intel Mac OS X 10_15_7) AppleWebKit/537.36 (KHTML, like Gecko) Chrome/120.0.0.0 Safari/537.36",
    "Mozilla/5.0 (Windows NT 10.0; Win64; x64; rv:121.0) Gecko/20100101 Firefox/121.0",
    "Mozilla/5.0 (X11; Linux x86_64) AppleWebKit/537.36 (KHTML, like Gecko) Chrome/120.0.0.0 Safari/537.36"]

  /** The scraper's `config` dictionary; a missing key is `None`. */
  datatype Config = Config(
    userAgentRotation: Option<bool>,
    minDelay: Option<real>,
    maxDelay: Option<real>,
    maxRetries: Option<int>,
    timeout: Option<int>)

  /** `random.uniform(a, b)` from the draw `u` of `random.random()`. */
  function Uniform(a: real, b: real, u: real): real {
    a + (b - a) * u
  }

  /** A uniform draw lies between its two bounds, in whichever order they are given. */
  lemma UniformBetween(a: real, b: real, u: real)
    requires 0.0 <= u < 1.0
    ensures a <= b ==> a <= Uniform(a, b, u) <= b
    ensures b < a ==> b <= Uniform(a, b, u) <= a
  {
    var d := b - a;
    assert d * u == d - d * (1.0 - u);
    if a <= b {
      NonNegProduct(d, u);
      NonNegProduct(d, 1.0 - u);
    } else {
      NonNegProduct(-d, u);
      NonNegProduct(-d, 1.0 - u);
    }
  }

  lemma NonNegProduct(x: real, y: real)
    requires 0.0 <= x && 0.0 <= y
    ensures 0.0 <= x * y
  {
  }

  /** `random.choice(user_agents)` from the draw `u`. */
  function ChooseAgent(u: real): (ua: string)
    requires 0.0 <= u < 1.0
    ensures ua in UserAgents
  {
    var i := (u * 4.0).Floor;
    assert 0 <= i < 4 by {
      assert 0.0 <= u * 4.0 < 4.0;
    }
    UserAgents[i]
  }

  /** The delay `rate_limit` aims for: `min_delay`, stretched by half of it for each recent error. */
  function BaseDelay(minDelay: real, errorCount: nat): real {
    if errorCount > 0 then minDelay * (1.0 + errorCount as real * 0.5) else minDelay
  }

  /** `2 ** n`. */
  function Pow2(n: nat): (p: nat)
    ensures p >= 1
  {
    if n == 0 then 1 else 2 * Pow2(n - 1)
  }

  /** `max(0, e - 1)`. */
  function Decrement(e: nat): nat {
    if e > 0 then e - 1 else 0
  }

  /** `range(retries + 1)` has this many attempts. */
  function Budget(retries: int): nat {
    if retries + 1 > 0 then retries + 1 else 0
  }

  /**
   * How many attempts a request for `url` makes, from request number `c` on, with `left`
   * attempts allowed: a transport error goes on to the next attempt, anything else stops.
   */
  function AttemptsMade(network: (nat, string) -> Reply, url: string, c: nat, left: nat): (n: nat)
    ensures n <= left
    ensures left > 0 ==> n > 0
    decreases left
  {
    if left == 0 then 0
    else if network(c, url).outcome.TransportError? then 1 + AttemptsMade(network, url, c + 1, left - 1)
    else 1
  }

  /**
   * The attempts stop at the first outcome that is not a transport error, or when the budget is
   * spent; every attempt before the last one was a transport error.
   */
  lemma {:induction false} AttemptsStop(network: (nat, string) -> Reply, url: string, c: nat, left: nat, k: nat)
    requires k < AttemptsMade(network, url, c, left) - 1
    ensures network(c + k, url).outcome.TransportError?
    decreases left
  {
    if k > 0 {
      AttemptsStop(network, url, c + 1, left - 1, k - 1);
    }
  }

  /** The last attempt is the first non-transport-error outcome, unless every attempt failed so. */
  lemma {:induction false} AttemptsLast(network: (nat, string) -> Reply, url: string, c: nat, left: nat)
    requires left > 0
    ensures var n := AttemptsMade(network, url, c, left);
      n < left ==> !network(c + n - 1, url).outcome.TransportError?
    decreases left
  {
    if network(c, url).outcome.TransportError? && left > 1 {
      AttemptsLast(network, url, c + 1, left - 1);
    }
  }

  /** The first `k` attempts all failed in transport: there are at least `k + 1` attempts when the budget allows. */
  lemma {:induction false} AttemptsPastFailures(network: (nat, string) -> Reply, url: string, c: nat, left: nat, k: nat)
    requires k <= left
    requires forall m :: c <= m < c + k ==> network(m, url).outcome.TransportError?
    ensures AttemptsMade(network, url, c, left) == k + AttemptsMade(network, url, c + k, left - k)
    decreases k
  {
    if k > 0 {
      AttemptsPastFailures(network, url, c + 1, left - 1, k - 1);
    }
  }

  /** The attempts stop at the first outcome that is not a transport error. */
  lemma AttemptsEndAt(network: (nat, string) -> Reply, url: string, c: nat, left: nat, k: nat)
    requires k < left && !network(c + k, url).outcome.TransportError?
    requires forall m :: c <= m < c + k ==> network(m, url).outcome.TransportError?
    ensures AttemptsMade(network, url, c, left) == k + 1
    ensures LastOutcome(network, url, c, left) == network(c + k, url).outcome
    ensures MissPage(network, url, c, left) ==
      if network(c + k, url).outcome.Ok? then Some(network(c + k, url).outcome.page) else None
  {
    AttemptsPastFailures(network, url, c, left, k);
  }

  /** When every attempt fails in transport, the whole budget is spent. */
  lemma AttemptsAllFail(network: (nat, string) -> Reply, url: string, c: nat, left: nat)
    requires forall m :: c <= m < c + left ==> network(m, url).outcome.TransportError?
    ensures AttemptsMade(network, url, c, left) == left
    ensures LastOutcome(network, url, c, left).TransportError?
    ensures MissPage(network, url, c, left) == None
  {
    AttemptsPastFailures(network, url, c, left, left);
  }

  /** The error count after the attempts of one request that missed the cache. */
  function ErrorsAfter(e: nat, n: nat, last: Outcome): nat {
    if n == 0 then e
    else match last
      case Ok(_) => Decrement(e + n - 1)
      case TransportError => e + n
      case OtherError => e + n - 1
  }

  /** The error count after `n + 1` attempts, told by the last one. */
  lemma ErrorsAfterLast(e: nat, n: nat, last: Outcome)
    ensures ErrorsAfter(e, n + 1, last) == match last
      case Ok(_) => Decrement(e + n)
      case TransportError => e + n + 1
      case OtherError => e + n
  {
  }

  /** The outcome of the last attempt; a transport error when no attempt is allowed. */
  function LastOutcome(network: (nat, string) -> Reply, url: string, c: nat, left: nat): Outcome {
    var n := AttemptsMade(network, url, c, left);
    if n > 0 then network(c + n - 1, url).outcome else TransportError
  }

  /** The page the attempts after a cache miss end with, if the last one succeeded. */
  function MissPage(network: (nat, string) -> Reply, url: string, c: nat, left: nat): Option<Page> {
    match LastOutcome(network, url, c, left)
    case Ok(page) => Some(page)
    case _ => None
  }

  /** The URL of a search query (percent-encoding is not modelled). */
  function SearchUrl(query: string): string {
    SiteRoot + "/search?q=" + query
  }

  /** The request state at one moment: requests sent so far, cache entries, clock. */
  datatype Snapshot = Snapshot(calls: nat, entries: map<string, (Page, real)>, clock: real)

  class Scraper {
    const rotation: bool
    const minDelay: real
    const maxDelay: real
    const maxRetries: int
    const timeout: int
    const cache: MerinfoCache<Page>
    const random: nat -> real
    const network: (nat, string) -> Reply

    var userAgent: string
    var requestCount: nat
    var lastRequestTime: real
    var errorCount: nat
    var clock: real
    var draws: nat     // how many values of `random` have been used
    var calls: nat     // how many requests have been sent

    ghost predicate Valid()
      reads this, cache
    {
      && cache.Valid()
      && 0.0 <= minDelay && 0.0 <= maxDelay
      && (forall n :: 0.0 <= random(n) < 1.0)
      && (forall n, url :: network(n, url).took >= 0.0)
      && lastRequestTime <= clock
      && userAgent in UserAgents
      && Honest(cache.cache, calls)
    }

    /** The current request state. */
    ghost function Now(): Snapshot
      reads this, cache
    {
      Snapshot(calls, cache.cache, clock)
    }

    /** `page` is what one of the first `below` requests, for `url`, gave. */
    ghost predicate Returned(url: string, page: Page, below: nat) {
      below > 0 && (network(below - 1, url).outcome == Ok(page) || Returned(url, page, below - 1))
    }

    /** What an earlier request gave stays given. */
    lemma {:induction false} ReturnedLater(url: string, page: Page, below: nat, later: nat)
      requires Returned(url, page, below) && below <= later
      ensures Returned(url, page, later)
      decreases later
    {
      if below < later {
        ReturnedLater(url, page, below, later - 1);
      }
    }

    /** Every page of `entries` is a page the network gave for its URL before request `below`. */
    ghost predicate Honest(entries: map<string, (Page, real)>, below: nat) {
      forall u :: u in entries ==> Returned(u, entries[u].0, below)
    }

    /** Keeping or dropping entries, and sending more requests, keeps the cache honest. */
    lemma HonestStill(e: map<string, (Page, real)>, c: nat, e': map<string, (Page, real)>, c': nat)
      requires Honest(e, c) && c <= c'
      requires forall u :: u in e' ==> u in e && e'[u].0 == e[u].0
      ensures Honest(e', c')
    {
      forall u | u in e'
        ensures Returned(u, e'[u].0, c')
      {
        ReturnedLater(u, e[u].0, c, c');
      }
    }

    /** The cache would answer `url` in state `s`. */
    ghost predicate HitIn(url: string, s: Snapshot) {
      url in s.entries && s.clock - s.entries[url].1 < cache.ttl
    }

    /** How many requests `safe_request(url)` sends from state `s`, with `budget` attempts. */
    ghost function Spent(url: string, budget: nat, s: Snapshot): (n: nat)
      ensures n <= budget
    {
      if HitIn(url, s) then 0 else AttemptsMade(network, url, s.calls, budget)
    }

    /**
     * What `safe_request(url)` returns from state `s`, with `budget` attempts: the cached page
     * on a hit, else the page of the last attempt when that one succeeded, else nothing.
     */
    ghost function Response(url: string, budget: nat, s: Snapshot): Option<Page> {
      if HitIn(url, s) then Some(s.entries[url].0) else MissPage(network, url, s.calls, budget)
    }

    /**
     * From an honest state, every page a request returns is one the network gave for that URL,
     * by the time the request is done.
     */
    lemma ResponseHonest(url: string, budget: nat, s: Snapshot)
      requires Honest(s.entries, s.calls)
      ensures Response(url, budget, s).Some? ==>
        Returned(url, Response(url, budget, s).value, s.calls + Spent(url, budget, s))
    {
      if !HitIn(url, s) {
        var n := AttemptsMade(network, url, s.calls, budget);
        if MissPage(network, url, s.calls, budget).Some? {
          assert network(s.calls + n - 1, url).outcome == Ok(Response(url, budget, s).value);
        }
      } else {
        assert Returned(url, s.entries[url].0, s.calls);
      }
    }

    /** The entries `cache.get(url)` leaves in state `s`: an expired entry for `url` is deleted. */
    ghost function AfterGet(url: string, s: Snapshot): map<string, (Page, real)> {
      if url in s.entries && !HitIn(url, s) then s.entries - {url} else s.entries
    }

    /**
     * `safe_request(url)` with `budget` attempts leads from state `s` to state `s2`. A hit
     * changes nothing. A miss sends `Spent` requests and deletes an expired entry for `url`;
     * when a page comes back, one `set` stores it, stamped with the time it arrived.
     */
    ghost predicate Fetched(url: string, budget: nat, s: Snapshot, s2: Snapshot) {
      && s2.calls == s.calls + Spent(url, budget, s)
      && s.clock <= s2.clock
      && (HitIn(url, s) ==> s2 == s)
      && (!HitIn(url, s) ==> match Response(url, budget, s)
            case Some(page) => SetStep(AfterGet(url, s), s2.entries, url, page, s2.clock, cache.maxSize)
            case None => s2.entries == AfterGet(url, s))
    }

    /** The error count after `safe_request(url)` from state `s` with error count `e`. */
    ghost function ErrorsFrom(url: string, budget: nat, s: Snapshot, e: nat): nat {
      if HitIn(url, s) then e
      else ErrorsAfter(e, Spent(url, budget, s), LastOutcome(network, url, s.calls, budget))
    }

    /**
     * `safe_request(url)` touches no other entry, except that storing a page may evict one
     * oldest entry of a full cache: every other key afterwards was there before with the same
     * entry, and every other key that is gone was an oldest one.
     */
    lemma FetchedFrame(url: string, budget: nat, s: Snapshot, s2: Snapshot)
      requires Fetched(url, budget, s, s2)
      ensures forall u :: u in s2.entries && u != url ==> u in s.entries && s2.entries[u] == s.entries[u]
      ensures forall u :: u in s.entries && u != url && u !in s2.entries ==>
        && !HitIn(url, s) && Response(url, budget, s).Some?
        && |AfterGet(url, s)| >= cache.maxSize && IsOldest(AfterGet(url, s), u)
    {
      var before := AfterGet(url, s);
      if !HitIn(url, s) && Response(url, budget, s).Some? {
        var page := Response(url, budget, s).value;
        forall u | u in s2.entries && u != url
          ensures u in s.entries && s2.entries[u] == s.entries[u]
        {
          SetStepOrigin(before, s2.entries, url, page, s2.clock, cache.maxSize, u);
        }
        forall u | u in s.entries && u != url && u !in s2.entries
          ensures |before| >= cache.maxSize && IsOldest(before, u)
        {
          SetStepFrame(before, s2.entries, url, page, s2.clock, cache.maxSize, u);
        }
      }
    }

    /**
     * Asking for the same URL again right after a request that gave a page is a cache hit:
     * no request is sent and the same page comes back, whatever the retry budget.
     */
    lemma FetchedTwice(url: string, budget: nat, s: Snapshot, s2: Snapshot, budget2: nat)
      requires Fetched(url, budget, s, s2) && Response(url, budget, s).Some? && cache.ttl > 0.0
      ensures HitIn(url, s2) && Spent(url, budget2, s2) == 0
      ensures Response(url, budget2, s2) == Response(url, budget, s)
    {
      if !HitIn(url, s) {
        var page := Response(url, budget, s).value;
        SetStepStores(AfterGet(url, s), s2.entries, url, page, s2.clock, cache.maxSize);
      }
    }

    /** The persons of the search page `url` gives from state `s`, and none when the request fails. */
    ghost function PersonsFor(url: string, s: Snapshot): seq<PersonResult> {
      match Response(url, Budget(maxRetries), s)
      case None => []
      case Some(page) => PersonsOf(FirstMatch(page.personHits))
    }

    /** The vehicles of the profile page `profilUrl` gives from state `s`; none without a URL or a page. */
    ghost function VehiclesFor(profilUrl: Option<string>, s: Snapshot): seq<FordonResult> {
      if !Truthy(profilUrl) then []
      else match Response(profilUrl.value, Budget(maxRetries), s)
        case None => []
        case Some(page) => VehiclesOfPage(page)
    }

    /**
     * Persons are never invented: from an honest state, a search page with persons is a page
     * the network gave for that URL by the time the request is done.
     */
    lemma PersonsGrounded(url: string, s: Snapshot)
      requires Honest(s.entries, s.calls)
      ensures PersonsFor(url, s) != [] ==> exists page ::
        && Returned(url, page, s.calls + Spent(url, Budget(maxRetries), s))
        && PersonsFor(url, s) == PersonsOf(FirstMatch(page.personHits))
    {
      ResponseHonest(url, Budget(maxRetries), s);
    }

    /**
     * Vehicles are never invented: from an honest state, vehicles come only with a profile URL,
     * from a page the network gave for that URL by the time the request is done.
     */
    lemma VehiclesGrounded(profilUrl: Option<string>, s: Snapshot)
      requires Honest(s.entries, s.calls)
      ensures VehiclesFor(profilUrl, s) != [] ==> Truthy(profilUrl) && exists page ::
        && Returned(profilUrl.value, page, s.calls + Spent(profilUrl.value, Budget(maxRetries), s))
        && VehiclesFor(profilUrl, s) == VehiclesOfPage(page)
    {
      if Truthy(profilUrl) {
        ResponseHonest(profilUrl.value, Budget(maxRetries), s);
      }
    }

    /**
     * One tried query: from the honest state `s`, its persons are those of its search page;
     * `mid` is the state `safe_request` leaves once that page is fetched; a single
     * hit's vehicles are those of its profile page fetched from `mid`, and otherwise there are none.
     */
    ghost predicate Step(query: string, t: Tried, s: Snapshot, mid: Snapshot) {
      && t.query == query && Honest(s.entries, s.calls) && Honest(mid.entries, mid.calls)
      && t.persons == PersonsFor(SearchUrl(query), s)
      && Fetched(SearchUrl(query), Budget(maxRetries), s, mid)
      && (|t.persons| == 1 ==> t.vehicles == VehiclesFor(t.persons[0].profilUrl, mid))
      && (|t.persons| != 1 ==> t.vehicles == [])
    }

    /**
     * The queries tried so far, in order: query `k` started from state `snaps[k]`, and the next
     * one from the state `mids[k]` in which query `k` ended.
     */
    ghost predicate Trail(queries: seq<string>, tried: seq<Tried>, snaps: seq<Snapshot>, mids: seq<Snapshot>) {
      && |tried| == |snaps| == |mids| <= |queries|
      && (forall k {:trigger Step(queries[k], tried[k], snaps[k], mids[k])} :: 0 <= k < |tried| ==> Step(queries[k], tried[k], snaps[k], mids[k]))
      && (forall k :: 0 <= k < |tried| - 1 ==> snaps[k + 1] == mids[k])
    }

    /**
     * Along a trail, the persons of every query come from a page the network gave for its
     * search URL before the query's search request was done.
     */
    lemma TriedPersonsGrounded(queries: seq<string>, tried: seq<Tried>, snaps: seq<Snapshot>, mids: seq<Snapshot>, k: nat)
      requires Trail(queries, tried, snaps, mids) && k < |tried|
      ensures tried[k].persons != [] ==> exists page ::
        Returned(SearchUrl(queries[k]), page, mids[k].calls) && tried[k].persons == PersonsOf(FirstMatch(page.personHits))
    {
      assert Step(queries[k], tried[k], snaps[k], mids[k]);
      var url := SearchUrl(queries[k]);
      if tried[k].persons != [] {
        ResponseHonest(url, Budget(maxRetries), snaps[k]);
        var page := Response(url, Budget(maxRetries), snaps[k]).value;
        assert Returned(url, page, mids[k].calls);
      }
    }

    /**
     * Along a trail, the vehicles of a query come only with a single hit that has a profile URL,
     * from a page the network gave for that URL at most one retry budget after the query's
     * search request was done.
     */
    lemma TriedVehiclesGrounded(queries: seq<string>, tried: seq<Tried>, snaps: seq<Snapshot>, mids: seq<Snapshot>, k: nat)
      requires Trail(queries, tried, snaps, mids) && k < |tried|
      ensures tried[k].vehicles != [] ==> |tried[k].persons| == 1 && Truthy(tried[k].persons[0].profilUrl) && exists page ::
        && Returned(tried[k].persons[0].profilUrl.value, page, mids[k].calls + Budget(maxRetries))
        && tried[k].vehicles == VehiclesOfPage(page)
    {
      assert Step(queries[k], tried[k], snaps[k], mids[k]);
      if tried[k].vehicles != [] {
        var profilUrl := tried[k].persons[0].profilUrl;
        var u, m := profilUrl.value, mids[k];
        ResponseHonest(u, Budget(maxRetries), m);
        var page := Response(u, Budget(maxRetries), m).value;
        ReturnedLater(u, page, m.calls + Spent(u, Budget(maxRetries), m), m.calls + Budget(maxRetries));
      }
    }

    lemma TrailSnoc(queries: seq<string>, tried: seq<Tried>, snaps: seq<Snapshot>, mids: seq<Snapshot>,
                    t: Tried, s: Snapshot, mid: Snapshot)
      requires Trail(queries, tried, snaps, mids) && |tried| < |queries|
      requires Step(queries[|tried|], t, s, mid)
      requires |tried| > 0 ==> mids[|tried| - 1] == s
      ensures Trail(queries, tried + [t], snaps + [s], mids + [mid])
    {
    }

    /**
     * `RobustMerinfoScraper(config)` at time `start`: the defaults are rotation on, delays 2.0 to
     * 5.0 seconds, 3 retries and a 20 second timeout; a fresh cache of 100 entries for an hour.
     */
    constructor (config: Config, start: real, random: nat -> real, network: (nat, string) -> Reply)
      requires 0.0 <= start
      requires 0.0 <= config.minDelay.GetOr(2.0) && 0.0 <= config.maxDelay.GetOr(5.0)
      requires forall n :: 0.0 <= random(n) < 1.0
      requires forall n, url :: network(n, url).took >= 0.0
      ensures Valid() && fresh(cache)
      ensures rotation == config.userAgentRotation.GetOr(true)
      ensures minDelay == config.minDelay.GetOr(2.0) && maxDelay == config.maxDelay.GetOr(5.0)
      ensures maxRetries == config.maxRetries.GetOr(3) && timeout == config.timeout.GetOr(20)
      ensures cache.cache == map[] && cache.maxSize == 100 && cache.ttl == 3600.0
      ensures requestCount == 0 && lastRequestTime == 0.0 && errorCount == 0 && calls == 0
      ensures clock == start
      ensures rotation ==> userAgent == ChooseAgent(random(0)) && draws == 1
      ensures !rotation ==> userAgent == UserAgents[0] && draws == 0
    {
      rotation := config.userAgentRotation.GetOr(true);
      minDelay := config.minDelay.GetOr(2.0);
      maxDelay := config.maxDelay.GetOr(5.0);
      maxRetries := config.maxRetries.GetOr(3);
      timeout := config.timeout.GetOr(20);
      this.random := random;
      this.network := network;
      cache := new MerinfoCache(100, 3600.0);
      requestCount := 0;
      lastRequestTime := 0.0;
      errorCount := 0;
      calls := 0;
      clock := start;
      if config.userAgentRotation.GetOr(true) {
        userAgent := ChooseAgent(random(0));
        draws := 1;
      } else {
        userAgent := UserAgents[0];
        draws := 0;
      }
    }

    /**
     * `rate_limit()`: when less than the base delay has passed since the last request, sleep a
     * uniform time between the base delay and `max_delay`; then count the request and stamp it.
     */
    method RateLimit()
      requires Valid()
      modifies this
      ensures Valid()
      ensures requestCount == old(requestCount) + 1
      ensures lastRequestTime == clock
      ensures var base := BaseDelay(minDelay, errorCount);
        if old(clock) - old(lastRequestTime) < base
        then clock == old(clock) + Uniform(base, maxDelay, random(old(draws))) && draws == old(draws) + 1
        else clock == old(clock) && draws == old(draws)
      ensures clock >= old(clock)
      ensures errorCount == old(errorCount) && calls == old(calls) && userAgent == old(userAgent)
    {
      var base := BaseDelay(minDelay, errorCount);
      if clock - lastRequestTime < base {
        var delay := Uniform(base, maxDelay, random(draws));
        SleepNonNegative(base, draws);
        draws := draws + 1;
        clock := clock + delay;
      }
      lastRequestTime := clock;
      requestCount := requestCount + 1;
    }

    /** The sleep of `rate_limit` lies between the base delay and `max_delay`, so it is never negative. */
    lemma SleepNonNegative(base: real, n: nat)
      requires Valid() && base == BaseDelay(minDelay, errorCount)
      ensures var d := Uniform(base, maxDelay, random(n));
        && 0.0 <= d
        && (base <= maxDelay ==> base <= d <= maxDelay)
        && (maxDelay < base ==> maxDelay <= d <= base)
    {
      UniformBetween(base, maxDelay, random(n));
    }

    /**
     * One attempt of `safe_request`: wait as `rate_limit` says, pick a new user agent on a retry
     * when rotation is on, and send the request.
     */
    method Send(url: string, attempt: nat) returns (outcome: Outcome)
      requires Valid()
      modifies this
      ensures Valid() && clock >= old(clock)
      ensures outcome == network(old(calls), url).outcome
      ensures calls == old(calls) + 1 && requestCount == old(requestCount) + 1
      ensures errorCount == old(errorCount)
    {
      RateLimit();
      Rotate(attempt);
      var reply := network(calls, url);
      HonestStill(cache.cache, calls, cache.cache, calls + 1);
      calls := calls + 1;
      clock := clock + reply.took;
      outcome := reply.outcome;
    }

    /** On a retry with rotation on, switch to a user agent drawn from the list. */
    method Rotate(attempt: nat)
      requires Valid()
      modifies this
      ensures Valid() && clock == old(clock)
      ensures attempt > 0 && rotation ==> userAgent == ChooseAgent(random(old(draws))) && draws == old(draws) + 1
      ensures !(attempt > 0 && rotation) ==> userAgent == old(userAgent) && draws == old(draws)
      ensures calls == old(calls) && requestCount == old(requestCount) && errorCount == old(errorCount)
      ensures lastRequestTime == old(lastRequestTime)
    {
      if attempt > 0 && rotation {
        userAgent := ChooseAgent(random(draws));
        draws := draws + 1;
      }
    }

    /** The sleep after a failed attempt `attempt`: `2 ** attempt` plus a uniform 1 to 3 seconds. */
    method Backoff(attempt: nat)
      requires Valid()
      modifies this
      ensures Valid()
      ensures 1.0 <= clock - old(clock) - Pow2(attempt) as real <= 3.0
      ensures draws == old(draws) + 1
      ensures calls == old(calls) && requestCount == old(requestCount) && errorCount == old(errorCount)
    {
      var backoff := Pow2(attempt) as real + Uniform(1.0, 3.0, random(draws));
      UniformBetween(1.0, 3.0, random(draws));
      draws := draws + 1;
      clock := clock + backoff;
    }

    /**
     * One pass of the retry loop of `safe_request`: send the request; cache a page and forgive
     * one error, or count a transport error and back off unless this was the last attempt.
     */
    method Attempt(url: string, attempt: nat, retries: int) returns (outcome: Outcome)
      requires Valid()
      modifies this, cache
      ensures Valid() && clock >= old(clock)
      ensures outcome == network(old(calls), url).outcome
      ensures calls == old(calls) + 1 && requestCount == old(requestCount) + 1
      ensures errorCount == match outcome
        case Ok(_) => Decrement(old(errorCount))
        case TransportError => old(errorCount) + 1
        case OtherError => old(errorCount)
      ensures outcome.Ok? ==> SetStep(old(cache.cache), cache.cache, url, outcome.page, clock, cache.maxSize)
      ensures !outcome.Ok? ==> cache.cache == old(cache.cache)
    {
      outcome := Send(url, attempt);
      match outcome {
        case Ok(p) =>
          assert network(calls - 1, url).outcome == Ok(p);
          Store(url, p);
        case TransportError =>
          errorCount := errorCount + 1;
          if attempt < retries {
            Backoff(attempt);
          }
        case OtherError =>
      }
    }

    /** After a successful attempt: cache the page and forgive one error. */
    method Store(url: string, p: Page)
      requires Valid() && Returned(url, p, calls)
      modifies this, cache
      ensures Valid() && clock == old(clock)
      ensures SetStep(old(cache.cache), cache.cache, url, p, clock, cache.maxSize)
      ensures url in cache.cache && cache.cache[url] == (p, clock)
      ensures errorCount == Decrement(old(errorCount))
      ensures calls == old(calls) && requestCount == old(requestCount)
    {
      ghost var before := cache.cache;
      cache.Set(url, p, clock);
      errorCount := Decrement(errorCount);
      forall u | u in cache.cache
        ensures Returned(u, cache.cache[u].0, calls)
      {
        if u != url {
          SetStepOrigin(before, cache.cache, url, p, clock, cache.maxSize, u);
        }
      }
    }

    /**
     * `safe_request(url, retries)`. A fresh cached page is returned at once, with no request and
     * no `rate_limit`; otherwise the attempts of `Attempts` are made. Either way the page is
     * `Response`, and the requests sent are `Spent`.
     */
    method SafeRequest(url: string, retries: Option<int>) returns (page: Option<Page>)
      requires Valid()
      modifies this, cache
      ensures Valid() && clock >= old(clock)
      ensures page == Response(url, Budget(retries.GetOr(maxRetries)), old(Now()))
      ensures Fetched(url, Budget(retries.GetOr(maxRetries)), old(Now()), Now())
      ensures requestCount == old(requestCount) + Spent(url, Budget(retries.GetOr(maxRetries)), old(Now()))
      ensures errorCount == ErrorsFrom(url, Budget(retries.GetOr(maxRetries)), old(Now()), old(errorCount))
    {
      var r := retries.GetOr(maxRetries);
      ghost var s := Now();
      var cached := cache.Get(url, clock);
      assert cache.cache == AfterGet(url, s);
      HonestStill(s.entries, calls, cache.cache, calls);
      if cached.Some? {
        return cached;
      }
      page := Attempts(url, r);
    }

    /**
     * The attempts of `safe_request` after a cache miss: up to `retries + 1` of them, each after
     * one `rate_limit`. A page is cached and returned, a transport error counts an error and
     * backs off before the next attempt, and any other error gives up.
     */
    method Attempts(url: string, retries: int) returns (page: Option<Page>)
      requires Valid()
      modifies this, cache
      ensures Valid() && clock >= old(clock)
      ensures calls == old(calls) + AttemptsMade(network, url, old(calls), Budget(retries))
      ensures requestCount == old(requestCount) + AttemptsMade(network, url, old(calls), Budget(retries))
      ensures errorCount == ErrorsAfter(old(errorCount), AttemptsMade(network, url, old(calls), Budget(retries)),
                                        LastOutcome(network, url, old(calls), Budget(retries)))
      ensures page == MissPage(network, url, old(calls), Budget(retries))
      ensures page.Some? ==> SetStep(old(cache.cache), cache.cache, url, page.value, clock, cache.maxSize)
      ensures page.None? ==> cache.cache == old(cache.cache)
    {
      ghost var c0 := calls;
      ghost var cache0 := cache.cache;
      ghost var rc0 := requestCount;
      ghost var e0 := errorCount;
      ghost var clock0 := clock;
      ghost var budget := Budget(retries);
      var attempt := 0;
      while attempt < retries + 1
        invariant Valid()
        invariant 0 <= attempt <= budget
        invariant calls == c0 + attempt && requestCount == rc0 + attempt && errorCount == e0 + attempt
        invariant forall m :: c0 <= m < c0 + attempt ==> network(m, url).outcome.TransportError?
        invariant clock >= clock0 && cache.cache == cache0
        decreases budget - attempt
      {
        var outcome := Attempt(url, attempt, retries);
        if !outcome.TransportError? {
          AttemptsEndAt(network, url, c0, budget, attempt);
          ErrorsAfterLast(e0, attempt, outcome);
          page := if outcome.Ok? then Some(outcome.page) else None;
          return;
        }
        attempt := attempt + 1;
      }
      AttemptsAllFail(network, url, c0, budget);
      page := None;
    }

    /**
     * `fetch_vehicle_info_robust(profil_url)`: nothing without a URL or a page; otherwise the
     * vehicles of the first vehicle container of the profile page `safe_request` returns.
     */
    method FetchVehicleInfo(profilUrl: Option<string>) returns (fordon: seq<FordonResult>)
      requires Valid()
      modifies this, cache
      ensures Valid() && clock >= old(clock)
      ensures fordon == VehiclesFor(profilUrl, old(Now()))
      ensures !Truthy(profilUrl) ==> unchanged(this, cache)
      ensures Truthy(profilUrl) ==>
        && Fetched(profilUrl.value, Budget(maxRetries), old(Now()), Now())
        && requestCount == old(requestCount) + Spent(profilUrl.value, Budget(maxRetries), old(Now()))
        && errorCount == ErrorsFrom(profilUrl.value, Budget(maxRetries), old(Now()), old(errorCount))
    {
      if !Truthy(profilUrl) {
        return [];
      }
      var page := SafeRequest(profilUrl.value, None);
      if page.None? {
        return [];
      }
      var container := FirstContainer(page.value.vehicleHits);
      if container.None? {
        return [];
      }
      fordon := ParseVehicleTable(container.value);
    }

    /**
     * One candidate of `search_person`: fetch its search page and extract the persons; for a
     * single person, also fetch the vehicles of the profile. `elapsed` is the time since `start`
     * when the candidate is done; `mid` is the state once the search page is fetched.
     */
    method TryQuery(query: string, start: real) returns (t: Tried, ghost mid: Snapshot)
      requires Valid()
      modifies this, cache
      ensures Valid() && clock >= old(clock)
      ensures t.query == query && t.elapsed == clock - start
      ensures t.persons == PersonsFor(SearchUrl(query), old(Now()))
      ensures Fetched(SearchUrl(query), Budget(maxRetries), old(Now()), mid)
      ensures Honest(mid.entries, mid.calls) && mid.clock <= clock
      ensures |t.persons| == 1 ==> t.vehicles == VehiclesFor(t.persons[0].profilUrl, mid)
      ensures |t.persons| == 1 && Truthy(t.persons[0].profilUrl) ==>
        Fetched(t.persons[0].profilUrl.value, Budget(maxRetries), mid, Now())
      ensures !(|t.persons| == 1 && Truthy(t.persons[0].profilUrl)) ==> Now() == mid
      ensures |t.persons| != 1 ==> t.vehicles == []
    {
      var soup := SafeRequest(SearchUrl(query), None);
      mid := Now();
      var personer: seq<PersonResult> := [];
      if soup.Some? {
        personer := ExtractAllPersons(soup.value);
      }
      var fordon: seq<FordonResult> := [];
      if |personer| == 1 {
        fordon := FetchVehicleInfo(personer[0].profilUrl);
      }
      t := Tried(query, personer, fordon, clock - start);
    }

    /**
     * Where the candidate loop stands after the queries `tried`: they were tried in order, the
     * states they ran through start in `now0` and end in `now`, none had a single hit, and
     * `best` is the fallback they leave.
     */
    ghost predicate Progress(queries: seq<string>, tried: seq<Tried>, snaps: seq<Snapshot>, mids: seq<Snapshot>,
                             now0: Snapshot, now: Snapshot, best: (Option<SearchResult>, int))
    {
      && |tried| == |snaps| == |mids| <= |queries|
      && (forall k :: 0 <= k < |tried| ==> tried[k].query == queries[k])
      && (|tried| == 0 ==> now == now0)
      && (|tried| > 0 ==> snaps[0] == now0 && mids[|tried| - 1] == now)
      && FirstSingle(tried) == |tried|
      && best == Fallback(tried, None, 0)
    }

    /** A query without a single hit, tried from where the loop stands, moves the loop on by one. */
    lemma ProgressSnoc(queries: seq<string>, tried: seq<Tried>, snaps: seq<Snapshot>, mids: seq<Snapshot>,
                       now0: Snapshot, t: Tried, s: Snapshot, mid: Snapshot, best: (Option<SearchResult>, int))
      requires Progress(queries, tried, snaps, mids, now0, s, best)
      requires |tried| < |queries| && t.query == queries[|tried|] && |t.persons| != 1
      ensures Progress(queries, tried + [t], snaps + [s], mids + [mid], now0, mid, FallbackStep(best, t))
    {
      ContinueWith(tried, t);
      var tried' := tried + [t];
      forall k | 0 <= k < |tried'|
        ensures tried'[k].query == queries[k]
      {
        if k < |tried| {
          assert tried'[k] == tried[k];
        }
      }
    }

    /** A single hit ends the loop: the queries so far were tried in order and decide the search. */
    lemma StopOnSingle(queries: seq<string>, tried: seq<Tried>, t: Tried, end: real)
      requires |tried| < |queries| && forall k :: 0 <= k < |tried| ==> tried[k].query == queries[k]
      requires FirstSingle(tried) == |tried| && t.query == queries[|tried|] && |t.persons| == 1
      ensures TriedInOrder(queries, tried + [t]) && Decide(tried + [t], end) == SingleResult(t)
    {
      DecideOnSingle(tried, t, end);
      FirstSingleSnoc(tried, t);
      InOrderWhenStopped(queries, tried + [t]);
    }

    /** Running out of candidates ends the loop: all were tried in order, and the fallback decides. */
    lemma StopAfterAll(queries: seq<string>, tried: seq<Tried>, snaps: seq<Snapshot>, mids: seq<Snapshot>,
                       now0: Snapshot, now: Snapshot, best: (Option<SearchResult>, int), end: real)
      requires Progress(queries, tried, snaps, mids, now0, now, best) && |tried| == |queries|
      ensures TriedInOrder(queries, tried)
      ensures Decide(tried, end) == if best.0.Some? then best.0.value else NoneFound(end)
    {
      DecideWithoutSingle(tried, end);
      InOrderWhenStopped(queries, tried);
    }

    /**
     * One pass of the candidate loop: try the next query; unless it has a single hit, weigh it
     * as the fallback. The query joins the trail with the state it started from and the state
     * once its search page was fetched.
     */
    method Round(ghost queries: seq<string>, ghost tried: seq<Tried>, ghost snaps: seq<Snapshot>, ghost mids: seq<Snapshot>,
                 ghost now0: Snapshot, query: string, start: real, best: Option<SearchResult>, bestScore: int)
      returns (t: Tried, ghost s: Snapshot, ghost mid: Snapshot, best': Option<SearchResult>, bestScore': int)
      requires Valid() && Trail(queries, tried, snaps, mids) && Progress(queries, tried, snaps, mids, now0, Now(), (best, bestScore))
      requires |tried| < |queries| && query == queries[|tried|]
      modifies this, cache
      ensures Valid() && clock >= old(clock) && t.query == query && t.elapsed == clock - start
      ensures Trail(queries, tried + [t], snaps + [s], mids + [mid]) && (snaps + [s])[0] == now0
      ensures |t.persons| == 1 ==> FirstSingle(tried + [t]) == |tried| && (best', bestScore') == (best, bestScore)
      ensures |t.persons| != 1 ==> Progress(queries, tried + [t], snaps + [s], mids + [mid], now0, Now(), (best', bestScore'))
    {
      s := Now();
      t, mid := TryQuery(query, start);
      assert Step(query, t, s, mid);
      if |t.persons| == 1 {
        TrailSnoc(queries, tried, snaps, mids, t, s, mid);
        FirstSingleSnoc(tried, t);
        best', bestScore' := best, bestScore;
      } else {
        best', bestScore' := Consider(t, best, bestScore);
        TrailSnoc(queries, tried, snaps, mids, t, s, mid);
        ProgressSnoc(queries, tried, snaps, mids, now0, t, s, mid, (best, bestScore));
      }
    }

    /**
     * The candidate loop of `search_person`: try each candidate in order and return at once on
     * a single hit; otherwise the best fallback, or "nothing found". `snaps[k]` is the state the
     * `k`-th candidate started from and `mids[k]` the state once its search page was fetched.
     */
    method TryStrategies(strategier: seq<Candidate>)
      returns (r: SearchResult, ghost tried: seq<Tried>, ghost snaps: seq<Snapshot>, ghost mids: seq<Snapshot>, ghost elapsed: real)
      requires Valid()
      modifies this, cache
      ensures Valid() && clock >= old(clock)
      ensures TriedInOrder(Queries(strategier), tried)
      ensures elapsed == clock - old(clock) && r == Decide(tried, elapsed)
      ensures Trail(Queries(strategier), tried, snaps, mids)
      ensures |tried| > 0 ==> snaps[0] == old(Now())
    {
      tried := [];
      snaps := [];
      mids := [];
      var start := clock;
      ghost var queries := Queries(strategier);
      ghost var now0 := Now();
      var best: Option<SearchResult> := None;
      var bestScore := 0;
      var i := 0;
      while i < |strategier|
        invariant Valid() && clock >= start
        invariant 0 <= i <= |strategier| && |tried| == i && |queries| == |strategier|
        invariant Trail(queries, tried, snaps, mids)
        invariant Progress(queries, tried, snaps, mids, now0, Now(), (best, bestScore))
      {
        ghost var s, mid;
        var t;
        t, s, mid, best, bestScore := Round(queries, tried, snaps, mids, now0, strategier[i].query, start, best, bestScore);
        if |t.persons| == 1 {
          r := Succeed(t);
          elapsed := clock - start;
          StopOnSingle(queries, tried, t, elapsed);
          tried, snaps, mids := tried + [t], snaps + [s], mids + [mid];
          return;
        }
        tried, snaps, mids := tried + [t], snaps + [s], mids + [mid];
        i := i + 1;
      }
      var end := clock - start;
      elapsed := end;
      StopAfterAll(queries, tried, snaps, mids, now0, Now(), (best, bestScore), end);
      if best.Some? {
        r := best.value;
      } else {
        r := SearchResult(false, [], [], 0, Some(NothingFound), None, Some(end), None);
      }
    }

    /**
     * `search_person(...)`: refuse a search without first name, surname and city; otherwise try
     * the builder's candidates in order and decide as `Decide` says on what they gave.
     */
    method SearchPerson(input: SearchInput)
      returns (r: SearchResult, ghost tried: seq<Tried>, ghost snaps: seq<Snapshot>, ghost mids: seq<Snapshot>, ghost elapsed: real)
      requires Valid()
      modifies this, cache
      ensures Valid() && clock >= old(clock)
      ensures !(Truthy(input.fornamn) || Truthy(input.efternamn) || Truthy(input.ort)) ==>
        r == ValidationError() && tried == [] && unchanged(this, cache)
      ensures Truthy(input.fornamn) || Truthy(input.efternamn) || Truthy(input.ort) ==>
        && TriedInOrder(Queries(Strategies(input)), tried)
        && elapsed == clock - old(clock)
        && r == Decide(tried, elapsed)
        && Trail(Queries(Strategies(input)), tried, snaps, mids)
        && (|tried| > 0 ==> snaps[0] == old(Now()))
    {
      tried, snaps, mids := [], [], [];
      if !(Truthy(input.fornamn) || Truthy(input.efternamn) || Truthy(input.ort)) {
        return ValidationError(), [], [], [], 0.0;
      }
      var strategier := IntelligentSearchBuilder(input);
      r, tried, snaps, mids, elapsed := TryStrategies(strategier);
    }
  }

  /** The result of a candidate with a single hit, scored with its vehicles. */
  method Succeed(t: Tried) returns (r: SearchResult)
    ensures r == SingleResult(t)
  {
    var score := CalculateQualityScore(t.persons, t.vehicles);
    r := SearchResult(true, t.persons, t.vehicles, score, None, Some(t.query), Some(t.elapsed), None);
  }

  /**
   * A candidate with two or three hits becomes the fallback when it scores strictly better
   * than the fallback so far.
   */
  method Consider(t: Tried, best: Option<SearchResult>, bestScore: int) returns (best': Option<SearchResult>, bestScore': int)
    ensures (best', bestScore') == FallbackStep((best, bestScore), t)
  {
    best', bestScore' := best, bestScore;
    if 2 <= |t.persons| <= 3 {
      var score := CalculateQualityScore(t.persons, []);
      if score > bestScore {
        var suggestions := GenerateSuggestions(t.persons);
        best' := Some(SearchResult(false, t.persons, [], score,
                                   Some("Flera resultat (" + IntToString(|t.persons|) + "), specificera gata"),
                                   Some(t.query), Some(t.elapsed), Some(suggestions)));
        bestScore' := score;
      }
    }
  }

  /** The queries of the candidates, in order. */
  function Queries(cs: seq<Candidate>): (qs: seq<string>)
    ensures |qs| == |cs| && forall i :: 0 <= i < |cs| ==> qs[i] == cs[i].query
  {
    if cs == [] then [] else [cs[0].query] + Queries(cs[1..])
  }
}
