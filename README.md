# Persondata-scraper: a Dafny model of the Merinfo search engine

This project models the core of `RobustMerinfoScraper`, a scraper for the Swedish people-search
site merinfo.se, and the chat-pipeline wrapper around it. Given a first name, a surname, a city,
a street and an age, the engine:

- builds up to four search queries, each with a confidence, from normalised Swedish names;
- fetches each query's results page through a rate-limited, retrying and caching request
  layer;
- extracts the persons from the page's result containers;
- stops at the first query with exactly one hit, and fetches that person's vehicles;
- otherwise keeps the best-scoring query with two or three hits as a fallback, with
  suggestions for narrowing the search.

The pipeline wrapper reads a city and a first name out of a free-text question. A context
dictionary may override these. The wrapper then formats the engine's result as a reply
dictionary.

The code of the scraper appears twice in the repository, identically: in `merinfo_scraper.py`
and in `merinfo_scraper_modular/network_module.py`. Line `n` of the first file is line `n - 240`
of the second. The model follows both. The table below cites whichever copy states the property
most directly.

Modules, one per file:

- `Wrappers`: `Option`, Python truthiness of optional strings and ages, and `Somes`, which
  keeps the present values of a list in order and is used for `if person: append`.
- `Text`: the parts of Python's `str` and `re` that the scraper uses: `strip`, `lower`,
  `title`, `split`, `replace`, `re.sub(r'\s+', ' ', ...)`, `int()` and `str()` of integers.
- `Records`: `PersonResult`, `FordonResult`, `SearchResult`, and `to_dict` into JSON-shaped
  values, with decoders that invert it.
- `Html`: what the selectors find in a page, as plain records.
- `Cache`: `MerinfoCache`, a class over a map.
- `Normalize`: `normalize_svensk_namn`.
- `Strategy`: `intelligent_search_builder`.
- `Persons`: the person extractors.
- `Vehicles`: `classify_vehicle_type` and the vehicle-table parser.
- `Score`: `calculate_quality_score` and `generate_suggestions`.
- `Search`: the decision `search_person` takes on what its queries gave.
- `Fetch`: the `Scraper` class with `rate_limit`, `safe_request`, `fetch_vehicle_info_robust`
  and `search_person`.
- `Pipeline`: `pipeline_hämta_fordonsinfo`.

Three things the scraper depends on become parameters of the `Scraper` class:

- the random source, as the function `random(n)`, the n-th value of `random.random()`;
- the network, as the function `network(n, url)`, the outcome and duration of the n-th request;
- the clock, as a `clock` field that moves forward by sleeps and by request durations.

Every state-changing method is proved against specification functions: `AttemptsMade`,
`ErrorsAfter`, `Response`, `Fetched`, `PersonsFor`, `VehiclesFor`, `Decide`, `Fallback` and `Strategies`.
Lemmas prove those functions' properties.

`Response(url, budget, s)` is what `safe_request` gives from a request state `s`: the cached
page on a fresh hit, else the page of the last attempt if that one succeeded.
`Fetched(url, budget, s, s2)` is the whole move `safe_request` makes from state `s` to state
`s2`:

- the requests it sends;
- the expired entry `get` deletes;
- the one `set` that stores a returned page, stamped with its arrival time.

The scraper keeps the invariant that every cached page is one the network gave for its URL. A
search records the trail of request states its queries ran from, so every person and vehicle it
reports can be traced to a page the network gave.

## Model

| member | source | states |
|---|---|---|
| Cache.OldestExists | merinfo_scraper.py:134 | a non-empty cache always has a key with the smallest timestamp, so the eviction's `min` is defined |
| Cache.SetStepBound | merinfo_scraper_modular/cache_module.py:21-27 | with `max_size >= 1`, a `set` keeps `len(cache) <= max_size` and stores `(value, now)` under the key |
| Cache.SetStepStores | merinfo_scraper_modular/cache_module.py:21-27 | a `set` stores `(value, now)` under its key, whatever the cache held |
| Cache.SetStepFrame | merinfo_scraper_modular/cache_module.py:21-27 | after `set`, every other key keeps its value and timestamp, unless it was the one evicted; eviction happens only from a full cache and takes an oldest key |
| Cache.SetStepOrigin | merinfo_scraper_modular/cache_module.py:21-27 | every other key present after `set` was present before, with the same value and timestamp |
| Cache.FillUp | merinfo_scraper_modular/cache_module.py:21-27 | inserting distinct keys at increasing times into an empty cache evicts nothing while the cache is not full |
| Cache.OverfillEvictsFirst | merinfo_scraper_modular/cache_module.py:21-27 | inserting `max_size + 1` distinct keys at increasing times leaves exactly `max_size` entries: all of them except the first key |
| Cache.FillStep | merinfo_scraper_modular/cache_module.py:21-27 | storing a new key below the bound, later than the first key, adds exactly that key and keeps the first key the oldest |
| Cache.MerinfoCache.constructor | merinfo_scraper.py:117-120 | a new cache is empty, with the given size bound and time-to-live |
| Cache.MerinfoCache.Get | merinfo_scraper_modular/cache_module.py:12-19 | an absent key gives None and changes nothing; a fresh entry gives its value and changes nothing; an expired entry gives None and deletes exactly that key |
| Cache.MerinfoCache.Set | merinfo_scraper_modular/cache_module.py:21-27 | evicts an oldest entry when the cache is full, then stores `(value, now)`; the size bound is kept |
| Cache.MerinfoCache.Clear | merinfo_scraper_modular/cache_module.py:29-30 | the cache becomes empty |
| Fetch.UniformBetween | merinfo_scraper.py:235 | `random.uniform(a, b)` lies between `a` and `b`, in either order |
| Fetch.ChooseAgent | merinfo_scraper.py:181 | `random.choice` picks one of the four user agents |
| Fetch.AttemptsMade | merinfo_scraper.py:254-296 | the retry loop makes at most `retries + 1` attempts, and at least one when the budget is positive |
| Fetch.AttemptsStop | merinfo_scraper.py:285-292 | every attempt before the last one failed with a transport error |
| Fetch.AttemptsLast | merinfo_scraper.py:283 | when the loop stops before its budget is spent, the last attempt did not fail with a transport error |
| Fetch.AttemptsPastFailures | merinfo_scraper.py:254-292 | a run of transport errors only moves the attempt count along |
| Fetch.AttemptsEndAt | merinfo_scraper.py:283 | the first attempt that does not fail with a transport error is the last one made, and its outcome decides the page |
| Fetch.AttemptsAllFail | merinfo_scraper.py:285-299 | when every attempt fails with a transport error, all `retries + 1` are made and no page comes back |
| Fetch.Scraper.constructor | merinfo_scraper.py:145-183 | the config defaults: rotation on, delays 2.0 to 5.0, 3 retries, timeout 20; cache of 100 entries for 3600 s; zero counters; the first user agent, or a random one when rotation is on |
| Fetch.Scraper.RateLimit | merinfo_scraper.py:224-240 | always counts one request and stamps `last_request_time`; sleeps only when the time since the last request is under `min_delay * (1 + 0.5 * error_count)`, and then for a uniform time between that base delay and `max_delay` |
| Fetch.Scraper.SleepNonNegative | merinfo_scraper.py:230-237 | the sleep of `rate_limit` lies between the base delay and `max_delay`, so the clock never goes back |
| Fetch.Scraper.Send | merinfo_scraper.py:256-264 | one attempt makes exactly one `rate_limit` call and one request, whose outcome is the network's answer to that request; the error count is unchanged |
| Fetch.Scraper.Rotate | merinfo_scraper.py:258-262 | on a retry with rotation on, the user agent becomes a random choice among the four; otherwise it stays; nothing else changes |
| Fetch.Scraper.Backoff | merinfo_scraper.py:289-292 | the backoff sleep is `2 ** attempt` plus 1 to 3 seconds |
| Fetch.Scraper.Attempt | merinfo_scraper.py:255-296 | a page is stored by one cache `set` stamped with the time it arrived, so every other entry stays unless evicted as an oldest one, and it forgives one error, floored at 0; a failed attempt leaves the cache as it was; a transport error adds one error; any other error leaves the count as it is |
| Fetch.Scraper.Store | merinfo_scraper.py:277-280 | one cache `set` of `(page, now)` under the URL, evicting at most one oldest entry of a full cache; the cache stays a cache of pages the network gave; `error_count` becomes `max(0, error_count - 1)` |
| Fetch.Scraper.SafeRequest | merinfo_scraper.py:242-299 | the page is the cached page on a fresh hit, else the page of the last attempt when it succeeded; the move between request states is `Fetched`: a hit sends no request and changes nothing, a miss sends exactly `AttemptsMade` requests, deletes an expired entry for the URL, and stores a returned page stamped with its arrival time by one `set`; the error count follows `ErrorsFrom` |
| Fetch.Scraper.Attempts | merinfo_scraper.py:254-299 | the retry loop sends exactly `AttemptsMade` requests, leaves the error count as `ErrorsAfter` says, returns the page of the last attempt iff that one succeeded, and then stores it by one `set` stamped with its arrival time; without a page the cache is as it was |
| Fetch.Scraper.FetchVehicleInfo | merinfo_scraper.py:599-628 | no URL gives no vehicles and changes nothing; otherwise the vehicles are those of the first vehicle container of the page `safe_request` gives from the state at the call, the new request state is `Fetched` from it, and the request and error counts grow as `Spent` and `ErrorsFrom` say |
| Fetch.Scraper.TryQuery | merinfo_scraper.py:712-744 | the persons are those of the search page as the cache or the network gives it from the state at the call, and the state once that page is fetched is `Fetched` from it; vehicles are fetched only for a single hit with a profile URL, from that state, and the final state is `Fetched` from it; otherwise nothing more happens |
| Fetch.Scraper.TryStrategies | merinfo_scraper.py:705-785 | the candidates are tried in order, stopping right after the first single hit; each query moves the request state as `Fetched` says and its persons and vehicles are those the network and cache give along that trail of states from the call on; the result is `Decide` of what was tried |
| Fetch.Scraper.SearchPerson | merinfo_scraper.py:679-785 | with none of first name, surname and city: the validation error, no request and no change; otherwise the builder's queries are tried in order along a trail of request states from the call on, each step as `Fetched` says, and the result is `Decide` of what they gave |
| Fetch.Scraper.ReturnedLater | merinfo_scraper.py:277 | a page the network gave stays among the pages it gave as more requests are sent |
| Fetch.Scraper.HonestStill | merinfo_scraper.py:249-252 | dropping cache entries or sending more requests keeps every cached page one the network gave for its URL |
| Fetch.Scraper.Spent | merinfo_scraper.py:248-254 | a request never takes more than its retry budget of requests |
| Fetch.Scraper.ResponseHonest | merinfo_scraper.py:248-283 | from a cache of pages the network gave, a page `safe_request` returns is one the network gave for that URL by the time the request is done |
| Fetch.Scraper.FetchedFrame | merinfo_scraper.py:248-280 | `safe_request` touches no other cache entry: every other key afterwards was there before with the same page and timestamp, and every other key that is gone was an oldest entry of a full cache, evicted to store a returned page |
| Fetch.Scraper.FetchedTwice | merinfo_scraper.py:248-252 | with a positive TTL, asking again for a URL right after a request that gave a page is a cache hit: no request is sent and the same page comes back |
| Fetch.Scraper.PersonsGrounded | merinfo_scraper.py:712-724 | persons are never invented: a search with persons read them from a page the network gave for the search URL |
| Fetch.Scraper.VehiclesGrounded | merinfo_scraper.py:599-628 | vehicles are never invented: vehicles come only with a profile URL, from a page the network gave for it |
| Fetch.Scraper.TriedPersonsGrounded | merinfo_scraper.py:705-724 | along the trail, each query's persons come from a page the network gave for its search URL before its search request was done |
| Fetch.Scraper.TriedVehiclesGrounded | merinfo_scraper.py:727-735 | along the trail, vehicles come only with a single hit that has a profile URL, from a page the network gave for that URL |
| Fetch.Scraper.TrailSnoc | merinfo_scraper.py:708-722 | the trail of tried queries and their states extends one query at a time |
| Fetch.Scraper.ProgressSnoc | merinfo_scraper.py:708-767 | a query without a single hit moves the candidate loop on: the trail grows, the order holds, and the fallback takes one step |
| Fetch.Scraper.StopOnSingle | merinfo_scraper.py:727-744 | a single hit ends the loop: the queries were tried in order and the search is that hit's result |
| Fetch.Scraper.StopAfterAll | merinfo_scraper.py:775-785 | running out of candidates ends the loop: all were tried in order and the result is the fallback, or not found |
| Fetch.Scraper.Round | merinfo_scraper.py:708-767 | one pass of the candidate loop tries the next query and extends the trail; only a query without a single hit updates the fallback |
| Fetch.Succeed | merinfo_scraper.py:727-744 | a single hit gives the success result of that query, scored with its vehicles |
| Fetch.Consider | merinfo_scraper.py:746-763 | a 2–3-person outcome replaces the fallback only when its score is strictly higher |
| Fetch.Queries | merinfo_scraper.py:708 | the queries of the candidates, in order |
| Normalize.ReplaceEach | merinfo_scraper_modular/network_module.py:115-116 | the digraph replacements never lengthen the name |
| Normalize.KeepAllowed | merinfo_scraper_modular/network_module.py:120 | the filter keeps only word characters, whitespace, åäöÅÄÖ and '-' |
| Normalize.KeepAllowedSpaces | merinfo_scraper_modular/network_module.py:119-120 | filtering keeps collapsed whitespace as single spaces |
| Normalize.NormalizeName | merinfo_scraper_modular/network_module.py:102-122 | strip, then aa→å, ae→ä, oe→ö, AA→Å, AE→Ä, OE→Ö in that order, then the cleanup and `title()` |
| Normalize.TitleClean | merinfo_scraper_modular/network_module.py:122 | `title()` keeps a cleaned name clean |
| Normalize.RewriteAll | merinfo_scraper_modular/network_module.py:115-116 | the replacement loop applies each pair of the table, in order |
| Normalize.ReplaceAbsent | merinfo_scraper_modular/network_module.py:116 | replacing a pattern that does not occur changes nothing |
| Normalize.ReplaceEachAbsent | merinfo_scraper_modular/network_module.py:115-116 | a string holding none of the table's patterns goes through the replacements unchanged |
| Normalize.AbsentPair | merinfo_scraper_modular/network_module.py:115-116 | a two-letter pattern is absent from a string when no two neighbouring characters spell it |
| Normalize.KeepAllowedFixed | merinfo_scraper_modular/network_module.py:120 | the filter leaves a string of allowed characters unchanged |
| Normalize.NormalizeFixed | merinfo_scraper_modular/network_module.py:102-122 | a non-empty name of allowed characters, without surrounding whitespace, without runs of whitespace and without digraphs, is only title-cased |
| Normalize.NormalizeNotIdempotent | merinfo_scraper_modular/network_module.py:102-122 | normalising is not idempotent: "baAb" gives "Baab", which gives "Båb", since `title()` runs after the replacements |
| Normalize.NormalizeShape | merinfo_scraper_modular/network_module.py:104-122 | falsy input gives ""; the output is never longer than the input and holds only allowed characters; its only whitespace is the plain space, though runs of spaces can remain where the filter dropped characters |
| Persons.ProfileUrlShape | merinfo_scraper_modular/network_module.py:142-144 | a missing href stays missing, an empty one stays empty; a relative href gets the prefix `https://www.merinfo.se` and keeps itself as suffix; an href starting with "http" is unchanged; prefixing twice changes nothing |
| Persons.NonDigitPrefix | merinfo_scraper_modular/network_module.py:156 | `^([^\d]+)` matches the longest digit-free prefix |
| Persons.StreetOf | merinfo_scraper_modular/network_module.py:155-158 | the street holds no digits and is no longer than the address part |
| Persons.NonEmpty | merinfo_scraper_modular/network_module.py:153 | `filter(None, ...)` keeps only non-empty parts |
| Persons.StripAll | merinfo_scraper_modular/network_module.py:152 | every address span is stripped, in order |
| Persons.JoinEmpty | merinfo_scraper_modular/network_module.py:153 | joining non-empty parts gives "" iff there are none |
| Persons.AddressFallback | merinfo_scraper_modular/network_module.py:147-164 | the joined address spans are used when any is non-empty; only otherwise the first postal-code span, stripped, or "" |
| Persons.AgeFromPersonnummer | merinfo_scraper.py:449-463 | no personnummer, or one under 8 characters once stripped, gives no age; an age is found only when the birth year lies in 1900..2025, and is then 2025 minus that birth year, in 0..125 |
| Persons.BirthYearFull | merinfo_scraper.py:454-455 | a personnummer starting "19" or "20" takes its first four digits as birth year |
| Persons.AgeFromFullYear | merinfo_scraper.py:454-461 | such a personnummer gives age `2025 - year` when the year is at most 2025, and no age after |
| Persons.BirthYearShort | merinfo_scraper.py:456-458 | otherwise the first two digits `yy` give 2000+yy up to 25 and 1900+yy above |
| Persons.AgeFromShortYear | merinfo_scraper.py:456-461 | a short-form personnummer gives age 25−yy or 125−yy |
| Persons.AgeFromSignedYear | merinfo_scraper.py:456-461 | a personnummer starting "-" and a digit `d` goes through `int()` with its sign: the year is 2000 − d, so "-5123456" gives 1995 and age 30 |
| Persons.Gender | merinfo_scraper.py:439-442 | "Man" takes precedence over "Kvinna"; with neither tooltip there is no gender |
| Persons.ExtractPersonData | merinfo_scraper.py:364-431 | a container gives a person iff one of the three name-link lookups finds a link |
| Persons.ExtractedBounds | merinfo_scraper.py:387-463 | the name has no surrounding whitespace, no whitespace runs and only plain spaces; a street holds no digit; a personnummer is stripped; an age lies in 0..125; a gender is "Man", "Kvinna" or absent; `bolagsengagemang` is set iff the company tooltip is there |
| Persons.FirstMatch | merinfo_scraper_modular/network_module.py:243-253 | the containers are those of the first selector with a non-empty match, with no merging across selectors |
| Persons.ExtractedName | merinfo_scraper.py:378-379 | an extracted name has no surrounding whitespace, no whitespace runs and only plain spaces |
| Persons.Extracted | merinfo_scraper_modular/network_module.py:259-260 | each container is extracted on its own, in order |
| Persons.PersonsOf | merinfo_scraper_modular/network_module.py:259-262 | there are never more persons than containers |
| Persons.PersonsOfOrigin | merinfo_scraper_modular/network_module.py:259-262 | each person comes from its own container, in container order |
| Persons.PersonsOfCount | merinfo_scraper_modular/network_module.py:259-262 | exactly the containers without a name link are dropped; when all have one, no container is dropped |
| Persons.FirstMatching | merinfo_scraper_modular/network_module.py:243-253 | the selector loop stops at the first non-empty match |
| Persons.KeepPersons | merinfo_scraper_modular/network_module.py:259-262 | the container loop appends the person of each container that gives one |
| Persons.ExtractAllPersons | merinfo_scraper_modular/network_module.py:230-265 | the persons are those of the first matching selector's containers, at most one per container |
| Pipeline.FirstCity | merinfo_scraper_modular/utils_module.py:32-41 | the scan stops at the first token in the city list |
| Pipeline.Parse | merinfo_scraper_modular/utils_module.py:18-41 | `ort` is present iff some token is a city, and then is a listed city; the surname and street are never set; without a city nothing is set; a first name only comes with a city and is a token of the question |
| Pipeline.ParseFirstCity | merinfo_scraper_modular/utils_module.py:32-41 | when a city is found it is some token `k` with no city token before it, and the first name is the token at `k - 1`, or absent when `k` is 0 |
| Pipeline.ParseQuestion | merinfo_scraper_modular/utils_module.py:18-41 | the parsing loop with its `break` computes `Parse` |
| Pipeline.WithContext | merinfo_scraper_modular/utils_module.py:44-48 | a missing or empty context changes nothing |
| Pipeline.ContextOverridesOnlyItsKeys | merinfo_scraper_modular/utils_module.py:44-48 | a non-empty context overrides exactly the keys it contains |
| Pipeline.ContextIdempotent | merinfo_scraper_modular/utils_module.py:44-48 | applying the context twice is the same as once |
| Pipeline.FullContextWins | merinfo_scraper_modular/utils_module.py:44-48 | a context with all four keys decides the parameters, whatever the question |
| Pipeline.NoCityIsRejected | merinfo_scraper_modular/utils_module.py:21-41 | without a city and without a context the search gets no criterion, so `search_person` refuses it |
| Pipeline.VehicleSummaries | merinfo_scraper_modular/utils_module.py:73-81 | one vehicle dictionary per vehicle, in order |
| Pipeline.Message | merinfo_scraper_modular/utils_module.py:71 | the message is never empty |
| Pipeline.FormatResult | merinfo_scraper_modular/utils_module.py:69-85 | the reply has exactly the seven pipeline keys, in order |
| Pipeline.ErrorReply | merinfo_scraper_modular/utils_module.py:90-98 | the error reply has exactly its five keys, in order |
| Pipeline.FormattedStatus | merinfo_scraper_modular/utils_module.py:70-72 | status is "success" iff the search succeeded, else "partial"; the message is the error message or "Hittade n personer"; `personer` is the number of persons |
| Pipeline.FormattedLists | merinfo_scraper_modular/utils_module.py:73-84 | `fordon` lists the vehicles in order; `kvalitetspoäng` is the score; `förslag` is the suggestions, [] when there are none; there is no error key |
| Pipeline.ErrorFields | merinfo_scraper_modular/utils_module.py:90-98 | an exception gives status "error", 0 persons, no vehicles and no response time, and never looks like a normal reply |
| Pipeline.ReplyToSearch | merinfo_scraper_modular/utils_module.py:69-85 | the reply's status is "success" iff some query had exactly one hit; a success says "Hittade 1 personer"; any other reply carries the search's error message |
| Pipeline.FallbackFewMessage | merinfo_scraper.py:758 | a fallback result always carries a message |
| Pipeline.Run | merinfo_scraper_modular/utils_module.py:14-98 | the search is asked with the parsed parameters overridden by the context; the reply formats its result, or is the error reply when it raises |
| Records.NewPerson | merinfo_scraper_modular/dataclasses_module.py:4-14 | `PersonResult` defaults `ålder` and `kön` to None and `bolagsengagemang` to False |
| Records.NewVehicle | merinfo_scraper_modular/dataclasses_module.py:20-27 | `FordonResult` defaults `fordontyp` and `registreringsnummer` to None |
| Records.NewSearchResult | merinfo_scraper_modular/dataclasses_module.py:33-43 | `SearchResult` defaults its message, strategy, response time and suggestions to None |
| Records.StrList | merinfo_scraper_modular/dataclasses_module.py:54 | strings are serialised one by one, in order |
| Records.PersonList | merinfo_scraper_modular/dataclasses_module.py:48 | persons are serialised element-wise, keeping length and order |
| Records.VehicleList | merinfo_scraper_modular/dataclasses_module.py:49 | vehicles are serialised element-wise, keeping length and order |
| Records.PersonRoundTrip | merinfo_scraper_modular/dataclasses_module.py:16-17 | a person's dictionary decodes back to the same person |
| Records.VehicleRoundTrip | merinfo_scraper_modular/dataclasses_module.py:29-30 | a vehicle's dictionary decodes back to the same vehicle |
| Records.PersonListRoundTrip | merinfo_scraper_modular/dataclasses_module.py:48 | the serialised person list decodes back to the same list |
| Records.VehicleListRoundTrip | merinfo_scraper_modular/dataclasses_module.py:49 | the serialised vehicle list decodes back to the same list |
| Records.SearchResultKeysExact | merinfo_scraper_modular/dataclasses_module.py:45-55 | `to_dict` emits exactly the keys success, persons, vehicles, quality_score, error_message, search_strategy, response_time and suggestions, in that order |
| Records.SearchResultFields | merinfo_scraper_modular/dataclasses_module.py:45-55 | success, score, message, strategy and response time are copied unchanged; persons and vehicles are serialised element-wise; `suggestions=None` becomes [] |
| Score.Completeness | merinfo_scraper_modular/network_module.py:410-416 | a person earns at most three completeness bonuses |
| Score.CompletenessSum | merinfo_scraper_modular/network_module.py:410-416 | the bonuses of a list are at most three per person |
| Score.QualityScore | merinfo_scraper_modular/network_module.py:390-418 | no persons gives 0.0; otherwise the score lies in 0.5..1.0 |
| Score.CalculateQualityScore | merinfo_scraper_modular/network_module.py:390-418 | the accumulating loop computes `QualityScore` |
| Score.VehiclesRaiseScore | merinfo_scraper_modular/network_module.py:406-407 | having vehicles adds 0.2, capped at 1.0 |
| Score.SingleHitScore | merinfo_scraper_modular/network_module.py:400-418 | one person without vehicles scores 0.8 + 0.05 per present field; with vehicles, 1.0 |
| Score.ZeroAgeIsMissing | merinfo_scraper_modular/network_module.py:410-416 | age 0 counts as no age; a person earns nothing iff they have no address, a falsy age and no gender |
| Score.CompletenessSumAppend | merinfo_scraper_modular/network_module.py:410-416 | the per-person bonuses add up over concatenation |
| Score.Streets | merinfo_scraper.py:666 | the collected streets are exactly the non-empty streets of the persons |
| Score.AgeTexts | merinfo_scraper.py:672 | the collected ages are exactly the texts of the truthy ages of the persons |
| Score.Dedup | merinfo_scraper.py:668 | `list(set(...))` keeps each element once and no others |
| Score.First5 | merinfo_scraper.py:669 | `[:5]` keeps a prefix of at most five |
| Score.GenerateSuggestions | merinfo_scraper.py:660-677 | at most two suggestions, and none for at most one person |
| Score.StreetsPresent | merinfo_scraper.py:666-667 | there are streets to suggest iff some person has a street |
| Score.AgesPresent | merinfo_scraper.py:672-673 | there are ages to suggest iff some person has a truthy age |
| Score.SuggestionsPresent | merinfo_scraper.py:664-675 | for several persons: the street suggestion comes first when some person has a street, the age suggestion last when some person has a truthy age, and nothing else |
| Score.StreetChoicesSound | merinfo_scraper.py:666-669 | at most five distinct streets, each a person's non-empty street; all of them when there are at most five |
| Score.AgeChoicesSound | merinfo_scraper.py:672-675 | at most five distinct ages, each a person's truthy age, so age 0 is never listed; all of them when there are at most five |
| Search.ValidationError | merinfo_scraper.py:686-693 | the refusal: success=False, no persons or vehicles, score 0.0, the "Minst ett sökkriterium krävs" message |
| Search.FallbackStep | merinfo_scraper.py:746-763 | a query either leaves the fallback alone or, with 2–3 persons, makes it that query's result; the best score never goes down |
| Search.Fallback | merinfo_scraper.py:705-763 | the fallback is the initial one or the result of some 2–3-person query |
| Search.FallbackSnoc | merinfo_scraper.py:708-763 | the fallback extends one query at a time |
| Search.FirstSingleSnoc | merinfo_scraper.py:727 | the first single hit extends one query at a time |
| Search.FirstSingle | merinfo_scraper.py:727 | the first query with exactly one person |
| Search.NoneFound | merinfo_scraper.py:778-785 | not found: success=False, no persons or vehicles, score 0.0, "Inga resultat hittades" |
| Search.DecideOnSingle | merinfo_scraper.py:727-744 | the first single hit ends the search with that query's result |
| Search.ContinueWith | merinfo_scraper.py:746-767 | any other query only updates the fallback |
| Search.DecideWithoutSingle | merinfo_scraper.py:775-785 | without a single hit the result is the fallback, or not found |
| Search.InOrderWhenStopped | merinfo_scraper.py:708-744 | the queries were tried in order, and the search ran on exactly up to the first single hit |
| Search.SuccessIffSingle | merinfo_scraper.py:727-785 | the search succeeds iff some query had exactly one person, and then gives the first such query's result |
| Search.FallbackNotSuccess | merinfo_scraper.py:753-762 | a fallback is never a success |
| Search.FallbackPresent | merinfo_scraper.py:746-763 | starting from score 0.0, there is a fallback iff some query had 2–3 persons |
| Search.FallbackKeeps | merinfo_scraper.py:750 | a fallback, once set, is never removed |
| Search.FallbackIsBest | merinfo_scraper.py:750-763 | the kept score is at least that of every 2–3-person query |
| Search.EarliestShift | merinfo_scraper.py:750-763 | the earliest best query among the later queries stays the earliest when a first query scoring no more than their floor is put in front |
| Search.FallbackEarliest | merinfo_scraper.py:750-763 | the kept result is the earliest query with the highest score above the initial one, since the comparison is strict |
| Search.NothingFoundResult | merinfo_scraper.py:775-785 | with no query of 1 to 3 persons, the result is "Inga resultat hittades" |
| Search.FallbackResult | merinfo_scraper.py:746-776 | without a single hit but with a 2–3-person query, the result is unsuccessful, without vehicles, and is the earliest best-scoring such query's result |
| Strategy.Norm | merinfo_scraper_modular/network_module.py:68-75 | a falsy parameter stays empty |
| Strategy.Opt | merinfo_scraper_modular/network_module.py:78-95 | a rule appends its candidate iff its condition holds |
| Strategy.Insert | merinfo_scraper_modular/network_module.py:98 | inserting keeps the elements |
| Strategy.InsertSorted | merinfo_scraper_modular/network_module.py:98 | inserting into a sorted list keeps it sorted |
| Strategy.SortByConfidence | merinfo_scraper_modular/network_module.py:98 | the sort is a permutation |
| Strategy.SortSorts | merinfo_scraper_modular/network_module.py:98 | the sort leaves confidences non-increasing |
| Strategy.SortKeepsSorted | merinfo_scraper_modular/network_module.py:98 | the stable sort leaves an already sorted list unchanged |
| Strategy.Take4 | merinfo_scraper_modular/network_module.py:99 | `[:4]` keeps a prefix of at most four |
| Strategy.FirstRule | merinfo_scraper_modular/network_module.py:78-79 | the first rule's output is strictly decreasing |
| Strategy.NextRule | merinfo_scraper_modular/network_module.py:81-95 | each later rule has a lower confidence than all before it |
| Strategy.GeneratedDecreasing | merinfo_scraper_modular/network_module.py:77-95 | candidates are generated in strictly decreasing confidence |
| Strategy.BuildIsPrefix | merinfo_scraper_modular/network_module.py:77-99 | so the sort changes nothing, and the output is the first four generated candidates, strictly decreasing |
| Strategy.AppendCandidates | merinfo_scraper_modular/network_module.py:77-95 | the rule sequence appends exactly the generated candidates |
| Strategy.NormalizeParam | merinfo_scraper_modular/network_module.py:68-75 | a parameter is normalised only when truthy |
| Strategy.IntelligentSearchBuilder | merinfo_scraper_modular/network_module.py:61-99 | the builder returns at most four candidates in strictly decreasing confidence |
| Strategy.Confidences | merinfo_scraper_modular/network_module.py:77-99 | one confidence per candidate |
| Strategy.ConfidencesAppend | merinfo_scraper_modular/network_module.py:77-95 | confidences distribute over appending |
| Strategy.OptConfidences | merinfo_scraper_modular/network_module.py:78-95 | a rule contributes its confidence iff its condition holds |
| Strategy.ConfidencesOfRules | merinfo_scraper_modular/network_module.py:77-95 | six rules in a row contribute their confidences in order |
| Strategy.GeneratedConfidences | merinfo_scraper_modular/network_module.py:77-95 | each of 1.0, 0.95, 0.8, 0.7, 0.6, 0.5 appears iff its rule's fields are all non-empty |
| Strategy.ConfidencesPrefix | merinfo_scraper_modular/network_module.py:99 | slicing commutes with taking confidences |
| Strategy.Take4Confidences | merinfo_scraper_modular/network_module.py:99 | the output's confidences are a prefix of those generated |
| Strategy.Take4Has | merinfo_scraper_modular/network_module.py:99 | every output confidence was generated |
| Strategy.InConfidences | merinfo_scraper_modular/network_module.py:77-95 | a confidence is generated iff its rule fires |
| Strategy.GeneratedHas | merinfo_scraper_modular/network_module.py:81-95 | 0.95 needs all four fields; 0.8 needs an empty surname; 0.5 appears iff the age is truthy and both names are present |
| Strategy.StreetRulesExclusive | merinfo_scraper_modular/network_module.py:81-85 | the 0.95 and 0.8 candidates never appear together, and 0.8 requires an empty surname |
| Strategy.CityOnlyGivesNothing | merinfo_scraper_modular/network_module.py:77-95 | without a first name or surname there are no candidates |
| Strategy.FullInputFillsOutput | merinfo_scraper_modular/network_module.py:77-99 | with all four fields the output confidences are 1.0, 0.95, 0.7, 0.6 |
| Strategy.PartialInputFits | merinfo_scraper_modular/network_module.py:77-99 | with some field missing nothing is cut off |
| Strategy.BirthYearCandidate | merinfo_scraper_modular/network_module.py:93-99 | the birth-year candidate is in the output iff the age is truthy, both names are present, and the city or street is missing |
| Text.Lower | merinfo_scraper.py:582 | `lower()` keeps a character's class and changes only letters |
| Text.Upper | merinfo_scraper.py:362 | upper-casing keeps a character's class and changes only letters |
| Text.LowerString | merinfo_scraper.py:582 | `lower()` works character by character |
| Text.TrimLeft | merinfo_scraper.py:347 | removes exactly the leading whitespace |
| Text.TrimRight | merinfo_scraper.py:347 | removes exactly the trailing whitespace |
| Text.Strip | merinfo_scraper.py:347 | the result neither starts nor ends with whitespace |
| Text.CollapseSpaces | merinfo_scraper.py:359 | `re.sub(r'\s+', ' ', s)` leaves only single spaces as whitespace |
| Text.CollapseSingle | merinfo_scraper.py:359 | after `re.sub(r'\s+', ' ', s)` no two whitespace characters are neighbours |
| Text.CollapseLast | merinfo_scraper.py:359 | a string ending in a non-space still does after collapsing |
| Text.CollapseStripped | merinfo_scraper.py:359 | collapsing a stripped string gives no surrounding whitespace, no runs, and only plain spaces |
| Text.CollapseFixed | merinfo_scraper.py:359 | collapsing leaves a string alone when its only whitespace is single plain spaces |
| Text.Replace | merinfo_scraper.py:356 | replacing with a shorter text never lengthens |
| Text.TitleFrom | merinfo_scraper.py:362 | `title()` keeps the length |
| Text.TitleFromAt | merinfo_scraper.py:362 | a letter is upper-cased at the start of a word and lower-cased inside one |
| Text.TitleKeepsClasses | merinfo_scraper.py:362 | `title()` keeps each character's class and changes only letters |
| Text.WordLength | merinfo_scraper_modular/utils_module.py:18 | a word runs up to the next whitespace |
| Text.SplitWords | merinfo_scraper_modular/utils_module.py:18 | every part `split()` gives is a non-empty run of non-whitespace characters |
| Text.NatToString | merinfo_scraper.py:334 | `str()` of a natural number is a non-empty string of digits |
| Text.PyIntOfDigits | merinfo_scraper.py:455-457 | `int()` of a string of digits is its decimal value |
| Vehicles.FirstCategory | merinfo_scraper_modular/network_module.py:353-355 | some category is found iff some category's keyword occurs, and it is one whose keyword occurs |
| Vehicles.FirstCategoryIsFirst | merinfo_scraper_modular/network_module.py:353-355 | the first category in table order with a hit wins |
| Vehicles.VehicleCategory | merinfo_scraper_modular/network_module.py:339-340 | the type is "Okänt" iff the make and model is empty |
| Vehicles.CategoryNames | merinfo_scraper_modular/network_module.py:337-357 | the type is "Personbil", "Okänt" or one of the six categories |
| Vehicles.ClassifyVehicleType | merinfo_scraper_modular/network_module.py:337-357 | the classifying loop computes `VehicleCategory` |
| Vehicles.ClassifyChoice | merinfo_scraper_modular/network_module.py:342-357 | the first category in the order Motorcykel, Lastbil, Släpvagn, Husbil, Traktor, Buss with a lower-cased substring hit wins; no hit gives "Personbil" |
| Vehicles.ClassifyIgnoresCase | merinfo_scraper_modular/network_module.py:342 | classification does not depend on letter case |
| Vehicles.LowerIdempotent | merinfo_scraper_modular/network_module.py:342 | lower-casing twice is lower-casing once |
| Vehicles.HondaIsMotorcycle | merinfo_scraper_modular/network_module.py:345 | any make and model starting "Honda" is a Motorcykel |
| Vehicles.FindYear | merinfo_scraper_modular/network_module.py:298 | a year found by `\((\d{4})\)` is four digits |
| Vehicles.FindYearLeftmost | merinfo_scraper_modular/network_module.py:296-299 | the search finds a year iff some "(dddd)" occurs, and then the leftmost one |
| Vehicles.YearSpan | merinfo_scraper_modular/network_module.py:296 | the year span is a simple span holding "(dddd)", and it exists iff some span is one |
| Vehicles.YearOf | merinfo_scraper_modular/network_module.py:294-303 | the year is "" or four digits |
| Vehicles.ParseRow | merinfo_scraper_modular/network_module.py:282-326 | a row yields a vehicle iff it has a cell and a non-empty make and model |
| Vehicles.ParsedVehicleShape | merinfo_scraper_modular/network_module.py:288-323 | the vehicle's make is its first span, stripped and non-empty; its year is "" or four digits; its owner comes from the owner rule; its type is classified and never "Okänt"; it has no registration number |
| Vehicles.YearSpanFirst | merinfo_scraper_modular/network_module.py:296-299 | a "(dddd)" span in the first cell decides the year |
| Vehicles.RowResults | merinfo_scraper_modular/network_module.py:282 | each row is parsed on its own, in order |
| Vehicles.VehiclesOfRows | merinfo_scraper_modular/network_module.py:282-326 | at most one vehicle per row, each a row's vehicle, in row order |
| Vehicles.KeepVehicles | merinfo_scraper_modular/network_module.py:282-326 | the row loop keeps the vehicle of each row that has one |
| Vehicles.ParseVehicleTable | merinfo_scraper_modular/network_module.py:267-335 | no table or no body gives no vehicles; otherwise at most one vehicle per row, as the row loop computes them |
| Vehicles.FirstContainer | merinfo_scraper_modular/network_module.py:378-383 | the first vehicle selector that matches wins; none gives none |
| Wrappers.Somes | merinfo_scraper.py:501-502 | keeping the present values never lengthens a list |
| Wrappers.SomesSnoc | merinfo_scraper.py:499-502 | keeping present values extends one element at a time |
| Wrappers.SomesPrefix | merinfo_scraper.py:499-502 | the same, read at a loop index |
| Wrappers.OriginsShape | merinfo_scraper.py:499-502 | the positions of the kept values are strictly increasing |
| Wrappers.OriginsPoint | merinfo_scraper.py:499-502 | each kept value sits at its recorded position |
| Wrappers.SomesCount | merinfo_scraper.py:499-502 | exactly the absent values are dropped |
| Wrappers.SomesOrigins | merinfo_scraper.py:499-502 | the kept values are the present ones, in order |

## Left out

- HTTP and HTML: `requests.Session`, its headers and urllib3 `Retry` (`setup_session`), `raise_for_status`, the encoding fix-ups, BeautifulSoup and CSS selectors. Pages, containers and rows are plain records (module `Html`). Each request's outcome is a value: a page, a `RequestException`, or another exception.
- The HTTP timeout is stored but has no effect in the model.
- The cache key is the URL itself, not its md5 hex digest. Both are injective in practice.
- `urllib.parse.quote_plus` of the query is not modelled. The search URL holds the query as it is.
- `time.time`, `time.sleep`, `random.choice` and `random.uniform` are parameters of the scraper. The clock moves only by sleeps and request durations. Logging takes no time.
- Floating point: the quality score is held in integer hundredths, so the strict `>` between scores compares exact decimals. Delays are `real`.
- `str.title()`, `str.lower()`, `\w` and `\s` are modelled for ASCII plus å ä ö Å Ä Ö, and for ASCII and Latin-1 whitespace. Other Unicode letters and case mappings are not covered.
- `Text.IsDigit`: `\d` in the street and year patterns (merinfo_scraper_modular/network_module.py:156, 298) and `int()` in the age derivation (merinfo_scraper.py:455-457) accept every Unicode decimal digit; the model accepts only `0` to `9`, so text with other decimal digits gives a different street prefix, year and age.
- Score.Dedup: `list(set(...))` has an order Python does not specify. The model keeps the first occurrence of each street or age, in person order, which is one of the orders Python may produce.
- An exception raised inside a selector, inside the per-row or per-container `try`, or inside `search_person`'s per-query `try` is not modelled. The model does not raise there. `int()` failures in the age derivation are modelled, as a missing age.
- A `max_size` below 1 is excluded by `Cache.MerinfoCache.constructor`, since `min` over an empty cache raises. Negative delays are excluded by `Fetch.Scraper.constructor`.
- `get_stats`: its float percentage is not modelled.
- `lru_cache` on `normalize_svensk_namn` does not change results and is not modelled.
- Logging, `setup_logging`, `logging_module.py`, `main`, `print_search_result`, `create_install_script`, `client.py`, `core_module.py` and `modular_merinfo_scraper.py` are not part of this model.
- In the pipeline, creating and closing the scraper and its fixed config (utils_module.py:51-58, 87-88) are not modelled. The scraper call is the parameter `search` of `Pipeline.Run`. The `svarstid` field is formatted from the result's response time.
- Pipeline.ParseQuestion: the branch that would set `efternamn` from the word before the city is left out. `förnamn` is always still unset when that word is reached, so the branch can never run, and `Pipeline.Parse` states that the surname is never set.
- The cache holds the `Page` record itself. The source stores `{'html': str(soup)}` and parses that text again on a hit (merinfo_scraper.py:252, 277). The model assumes re-parsing gives the same page.
- A request state (`Snapshot`) pins the request count, the cache entries and the clock. It does not pin the error count, the user agent or the random draws.
- Cache.SetStep: when several entries share the oldest timestamp, Python's `min` evicts the first of them in insertion order. The map does not record insertion order, so the model admits any oldest entry, and so does `Fetch.Scraper.Fetched`, which builds on it.
- `SearchResult` has no decoder. Its round trip is stated field by field in `Records.SearchResultFields` instead.
