/** simple_wp_crawler.py: for each organisation name, search Bing, take the
    first three result hosts (repeats included), and accept the first host
    whose WordPress REST API answers with JSON and whose site name shares a
    word with the organisation name. Accepted hosts are appended to the output
    file at once, which is also read back to skip names already done.

    The two module-level delays are kept as values in milliseconds; the
    sleeping itself is not modelled. HTTP requests are the functions `search`
    (keyed by query) and `fetch` (keyed by URL); JSON decoding is `jsonName`,
    the site name a body yields ("" when it has none or cannot be read). */
module SimpleCrawler {
  import opened Seqs
  import opened Text
  import opened Discovery
  import opened Relevance
  import opened Store

  const SEARCH_DELAY_BASE_MS: nat := 12000
  const FETCH_DELAY_BASE_MS: nat := 4000
  const MAX_RESULTS: nat := 3

  const API_PATHS: seq<string> := ["/wp-json/wp/v2/types", "/wp-json/wp/v2/posts?per_page=1", "/wp-json/"]
  const PROTOCOLS: seq<string> := ["https", "http"]

  /** The global delays `SEARCH_DELAY` and `FETCH_DELAY`. */
  class Pacing {
    var searchDelay: nat
    var fetchDelay: nat

    /** Each delay is at half its base value or at its base value. */
    ghost predicate Valid()
      reads this
    {
      (searchDelay == SEARCH_DELAY_BASE_MS / 2 || searchDelay == SEARCH_DELAY_BASE_MS)
      && (fetchDelay == FETCH_DELAY_BASE_MS / 2 || fetchDelay == FETCH_DELAY_BASE_MS)
    }

    /** Both delays start at half their base value. */
    constructor ()
      ensures Valid()
      ensures searchDelay == SEARCH_DELAY_BASE_MS / 2 && fetchDelay == FETCH_DELAY_BASE_MS / 2
    {
      searchDelay := SEARCH_DELAY_BASE_MS / 2;
      fetchDelay := FETCH_DELAY_BASE_MS / 2;
    }

    /** Bing answered 429: the search delay reverts to its base value. */
    method RevertSearchDelay()
      modifies this
      requires Valid()
      ensures Valid() && searchDelay == SEARCH_DELAY_BASE_MS && fetchDelay == old(fetchDelay)
      ensures old(searchDelay) <= searchDelay
    {
      searchDelay := SEARCH_DELAY_BASE_MS;
    }

    /** A site answered 429: the fetch delay reverts to its base value. */
    method RevertFetchDelay()
      modifies this
      requires Valid()
      ensures Valid() && fetchDelay == FETCH_DELAY_BASE_MS && searchDelay == old(searchDelay)
      ensures old(fetchDelay) <= fetchDelay
    {
      fetchDelay := FETCH_DELAY_BASE_MS;
    }
  }

  // ---------------------------------------------------------------------------
  // search_bing
  // ---------------------------------------------------------------------------

  predicate RateLimited(outcome: SearchOutcome) {
    outcome.SearchPage? && outcome.status == 429
  }

  /** The host list `search_bing` returns for one Bing outcome. */
  function SearchHosts(outcome: SearchOutcome, authority: string -> Option<string>): seq<string>
  {
    if outcome.SearchPage? && outcome.status == 200 then ExtractHosts(outcome.links, authority, MAX_RESULTS, false)
    else []
  }

  /** `search_bing`: a 429 reverts the search delay and yields no hosts, any
      other non-200 status or a raised request yields no hosts, and a 200 page
      yields its first hosts. */
  method SearchBing(pacing: Pacing, search: string -> SearchOutcome, authority: string -> Option<string>, query: string)
    returns (domains: seq<string>)
    modifies pacing
    requires pacing.Valid()
    ensures pacing.Valid()
    ensures domains == SearchHosts(search(query), authority)
    ensures pacing.searchDelay == if RateLimited(search(query)) then SEARCH_DELAY_BASE_MS else old(pacing.searchDelay)
    ensures pacing.fetchDelay == old(pacing.fetchDelay)
  {
    var outcome := search(query);
    if outcome.SearchFailed? {
      return [];
    }
    if outcome.status == 429 {
      pacing.RevertSearchDelay();
      return [];
    }
    if outcome.status != 200 {
      return [];
    }
    domains := CollectHosts(outcome.links, authority, MAX_RESULTS, false);
  }

  /** At most three hosts, in document order and not deduplicated, each the
      non-empty netloc of an `http` result link; nothing unless the status is
      200. */
  lemma SearchHostsSpec(outcome: SearchOutcome, authority: string -> Option<string>)
    ensures !(outcome.SearchPage? && outcome.status == 200) ==> SearchHosts(outcome, authority) == []
    ensures outcome.SearchPage? && outcome.status == 200 ==>
      var r := SearchHosts(outcome, authority);
      && |r| <= MAX_RESULTS
      && IsPrefix(r, LinkHosts(outcome.links, authority))
      && forall h :: h in r ==> h != "" && FromLink(outcome.links, authority, h)
  {
    if outcome.SearchPage? && outcome.status == 200 {
      ExtractHostsSound(outcome.links, authority, MAX_RESULTS, false);
    }
  }

  // ---------------------------------------------------------------------------
  // test_rest_api
  // ---------------------------------------------------------------------------

  datatype ApiVerdict = Accept | Throttle | Skip

  /** The tokens naming a site: those of its JSON name, or of the first label
      of its domain when the name is missing or unreadable. */
  function SiteTokens(siteName: string, domain: string): set<string> {
    if siteName != "" then Tokenize(siteName) else Tokenize(Split(domain, '.')[0])
  }

  /** The stripped body starts like a JSON object or array. */
  predicate JsonLike(body: string) {
    StartsWith(Strip(body), "{") || StartsWith(Strip(body), "[")
  }

  /** What `test_rest_api` does with the response to one URL: stop with False
      on 429, stop with True on a relevant JSON answer, otherwise go on. */
  function ApiVerdictOf(r: Fetch, domain: string, idnTokens: set<string>, jsonName: string -> string): ApiVerdict
  {
    match r
    case Failed => Skip
    case Reply(status, contentType, body) =>
      if status == 429 then Throttle
      else if status == 200 && StartsWith(contentType, "application/json") && JsonLike(body)
              && SharesToken(idnTokens, SiteTokens(jsonName(Strip(body)), domain))
      then Accept
      else Skip
  }

  /** The URL `test_rest_api` builds for API path i and protocol j. */
  function ApiUrl(domain: string, i: nat, j: nat): Url
    requires i < |API_PATHS| && j < |PROTOCOLS|
  {
    Url(PROTOCOLS[j], domain, API_PATHS[i])
  }

  /** The verdict on the response to that URL. */
  function VerdictAt(fetch: Url -> Fetch, jsonName: string -> string, domain: string, idnTokens: set<string>, i: nat, j: nat): ApiVerdict
    requires i < |API_PATHS| && j < |PROTOCOLS|
  {
    ApiVerdictOf(fetch(ApiUrl(domain, i, j)), domain, idnTokens, jsonName)
  }

  /** The verdict of the walk from path i, protocol j on, in the loops'
      order: that of the first decisive response, or Skip when there is
      none. */
  function VerdictFrom(fetch: Url -> Fetch, jsonName: string -> string, domain: string, idnTokens: set<string>, i: nat, j: nat): ApiVerdict
    decreases |API_PATHS| - i, |PROTOCOLS| - j
  {
    if i >= |API_PATHS| then Skip
    else if j >= |PROTOCOLS| then VerdictFrom(fetch, jsonName, domain, idnTokens, i + 1, 0)
    else if VerdictAt(fetch, jsonName, domain, idnTokens, i, j) != Skip then VerdictAt(fetch, jsonName, domain, idnTokens, i, j)
    else VerdictFrom(fetch, jsonName, domain, idnTokens, i, j + 1)
  }


  /** The number of URLs the walk requests from path i, protocol j on: up
      to and including the first decisive one. */
  function RequestsFrom(fetch: Url -> Fetch, jsonName: string -> string, domain: string, idnTokens: set<string>, i: nat, j: nat): nat
    decreases |API_PATHS| - i, |PROTOCOLS| - j
  {
    if i >= |API_PATHS| then 0
    else if j >= |PROTOCOLS| then RequestsFrom(fetch, jsonName, domain, idnTokens, i + 1, 0)
    else if VerdictAt(fetch, jsonName, domain, idnTokens, i, j) != Skip then 1
    else 1 + RequestsFrom(fetch, jsonName, domain, idnTokens, i, j + 1)
  }

  /** The verdict of `test_rest_api` for a domain. */
  function RestApiVerdict(fetch: Url -> Fetch, jsonName: string -> string, domain: string, idnTokens: set<string>): ApiVerdict
  {
    VerdictFrom(fetch, jsonName, domain, idnTokens, 0, 0)
  }

  /** `test_rest_api(domain, idn_tokens)`: tries every (path, protocol) pair
      in table order, https before http; a 429 reverts the fetch delay and
      returns False, a relevant JSON answer returns True. `requested` counts
      the URLs requested, which are always the first ones in that order. */
  method TestRestApi(pacing: Pacing, fetch: Url -> Fetch, jsonName: string -> string, domain: string, idnTokens: set<string>)
    returns (ok: bool, ghost requested: nat)
    modifies pacing
    requires pacing.Valid()
    ensures pacing.Valid()
    ensures ok <==> RestApiVerdict(fetch, jsonName, domain, idnTokens) == Accept
    ensures requested == RequestsFrom(fetch, jsonName, domain, idnTokens, 0, 0)
    ensures pacing.fetchDelay
         == if RestApiVerdict(fetch, jsonName, domain, idnTokens) == Throttle then FETCH_DELAY_BASE_MS else old(pacing.fetchDelay)
    ensures pacing.searchDelay == old(pacing.searchDelay)
  {
    ghost var verdict0 := VerdictFrom(fetch, jsonName, domain, idnTokens, 0, 0);
    ghost var requests0 := RequestsFrom(fetch, jsonName, domain, idnTokens, 0, 0);
    requested := 0;
    for i := 0 to |API_PATHS|
      invariant verdict0 == VerdictFrom(fetch, jsonName, domain, idnTokens, i, 0)
      invariant requests0 == requested + RequestsFrom(fetch, jsonName, domain, idnTokens, i, 0)
      invariant pacing.Valid() && pacing.fetchDelay == old(pacing.fetchDelay) && pacing.searchDelay == old(pacing.searchDelay)
    {
      var path := API_PATHS[i];
      for j := 0 to |PROTOCOLS|
        invariant verdict0 == VerdictFrom(fetch, jsonName, domain, idnTokens, i, j)
        invariant requests0 == requested + RequestsFrom(fetch, jsonName, domain, idnTokens, i, j)
        invariant pacing.Valid() && pacing.fetchDelay == old(pacing.fetchDelay) && pacing.searchDelay == old(pacing.searchDelay)
      {
        var url := Url(PROTOCOLS[j], domain, path);
        var verdict := ApiVerdictOf(fetch(url), domain, idnTokens, jsonName);
        requested := requested + 1;
        if verdict == Throttle {
          pacing.RevertFetchDelay();
          return false, requested;
        }
        if verdict == Accept {
          return true, requested;
        }
      }
    }
    ok := false;
  }

  /** The position of path i, protocol j in the request order. */
  function Position(i: nat, j: nat): nat {
    i * |PROTOCOLS| + j
  }

  /** Every URL from path i, protocol j on and before path a, protocol b was
      answered with Skip. */
  predicate SkippedBetween(fetch: Url -> Fetch, jsonName: string -> string, domain: string, idnTokens: set<string>,
                           i: nat, j: nat, a: nat, b: nat)
  {
    forall c: nat, d: nat :: c < |API_PATHS| && d < |PROTOCOLS| && Position(i, j) <= Position(c, d) < Position(a, b)
      ==> VerdictAt(fetch, jsonName, domain, idnTokens, c, d) == Skip
  }

  /** The first decisive answer decides: when the URL at (a, b) is answered
      with Accept or Throttle and every URL between (i, j) and it with Skip,
      the walk from (i, j) ends with that answer after requesting exactly the
      URLs from (i, j) up to and including (a, b). */
  lemma {:induction false} VerdictFromFirst(fetch: Url -> Fetch, jsonName: string -> string, domain: string, idnTokens: set<string>,
                                            i: nat, j: nat, a: nat, b: nat)
    requires j <= |PROTOCOLS| && a < |API_PATHS| && b < |PROTOCOLS| && Position(i, j) <= Position(a, b)
    requires VerdictAt(fetch, jsonName, domain, idnTokens, a, b) != Skip
    requires SkippedBetween(fetch, jsonName, domain, idnTokens, i, j, a, b)
    ensures VerdictFrom(fetch, jsonName, domain, idnTokens, i, j) == VerdictAt(fetch, jsonName, domain, idnTokens, a, b)
    ensures RequestsFrom(fetch, jsonName, domain, idnTokens, i, j) == Position(a, b) - Position(i, j) + 1
    decreases |API_PATHS| - i, |PROTOCOLS| - j
  {
    if j == |PROTOCOLS| {
      VerdictFromFirst(fetch, jsonName, domain, idnTokens, i + 1, 0, a, b);
    } else if i != a || j != b {
      assert VerdictAt(fetch, jsonName, domain, idnTokens, i, j) == Skip;
      VerdictFromFirst(fetch, jsonName, domain, idnTokens, i, j + 1, a, b);
    }
  }

  /** When every URL from (i, j) on is answered with Skip, the walk from
      (i, j) ends with Skip after requesting all of them. */
  lemma {:induction false} VerdictFromAllSkipped(fetch: Url -> Fetch, jsonName: string -> string, domain: string, idnTokens: set<string>,
                                                 i: nat, j: nat)
    requires i <= |API_PATHS| && j <= |PROTOCOLS| && (i == |API_PATHS| ==> j == 0)
    requires SkippedBetween(fetch, jsonName, domain, idnTokens, i, j, |API_PATHS|, 0)
    ensures VerdictFrom(fetch, jsonName, domain, idnTokens, i, j) == Skip
    ensures RequestsFrom(fetch, jsonName, domain, idnTokens, i, j) == Position(|API_PATHS|, 0) - Position(i, j)
    decreases |API_PATHS| - i, |PROTOCOLS| - j
  {
    if i < |API_PATHS| {
      if j == |PROTOCOLS| {
        VerdictFromAllSkipped(fetch, jsonName, domain, idnTokens, i + 1, 0);
      } else {
        assert VerdictAt(fetch, jsonName, domain, idnTokens, i, j) == Skip;
        VerdictFromAllSkipped(fetch, jsonName, domain, idnTokens, i, j + 1);
      }
    }
  }

  /** An accepted answer is a 200 JSON answer whose stripped body starts
      with `{` or `[` and whose site tokens meet the organisation's; a
      throttling answer is a 429. */
  lemma AcceptedAnswer(r: Fetch, domain: string, idnTokens: set<string>, jsonName: string -> string)
    ensures ApiVerdictOf(r, domain, idnTokens, jsonName) == Accept <==>
      && r.Reply? && r.status == 200 && StartsWith(r.contentType, "application/json") && JsonLike(r.body)
      && idnTokens * SiteTokens(jsonName(Strip(r.body)), domain) != {}
    ensures ApiVerdictOf(r, domain, idnTokens, jsonName) == Throttle <==> r.Reply? && r.status == 429
  {
  }

  /** An organisation whose name has no tokens is never accepted. */
  lemma {:induction false} NoTokensNeverAccepted(fetch: Url -> Fetch, jsonName: string -> string, domain: string, i: nat, j: nat)
    ensures VerdictFrom(fetch, jsonName, domain, {}, i, j) != Accept
    decreases |API_PATHS| - i, |PROTOCOLS| - j
  {
    if i < |API_PATHS| {
      if j >= |PROTOCOLS| {
        NoTokensNeverAccepted(fetch, jsonName, domain, i + 1, 0);
      } else if VerdictAt(fetch, jsonName, domain, {}, i, j) == Skip {
        NoTokensNeverAccepted(fetch, jsonName, domain, i, j + 1);
      }
    }
  }

  // ---------------------------------------------------------------------------
  // process_idn
  // ---------------------------------------------------------------------------

  /** The domain passes `test_rest_api` for this organisation. */
  function Passes(fetch: Url -> Fetch, jsonName: string -> string, idnTokens: set<string>): string -> bool
  {
    d => RestApiVerdict(fetch, jsonName, d, idnTokens) == Accept
  }

  /** Some of the first n domains answered 429 and so reverted the fetch
      delay. */
  predicate AnyThrottled(domains: seq<string>, n: nat, fetch: Url -> Fetch, jsonName: string -> string, idnTokens: set<string>)
    requires n <= |domains|
    decreases n
  {
    n > 0
    && (AnyThrottled(domains, n - 1, fetch, jsonName, idnTokens)
        || RestApiVerdict(fetch, jsonName, domains[n - 1], idnTokens) == Throttle)
  }

  /** AnyThrottled holds exactly when the walk of one of the first n domains
      ended with a 429. */
  lemma {:induction false} AnyThrottledSpec(domains: seq<string>, n: nat, fetch: Url -> Fetch, jsonName: string -> string, idnTokens: set<string>)
    requires n <= |domains|
    ensures AnyThrottled(domains, n, fetch, jsonName, idnTokens)
        <==> exists k :: 0 <= k < n && RestApiVerdict(fetch, jsonName, domains[k], idnTokens) == Throttle
    decreases n
  {
    if n > 0 {
      AnyThrottledSpec(domains, n - 1, fetch, jsonName, idnTokens);
      if RestApiVerdict(fetch, jsonName, domains[n - 1], idnTokens) == Throttle {
        assert 0 <= n - 1 < n;
      }
      if exists k :: 0 <= k < n && RestApiVerdict(fetch, jsonName, domains[k], idnTokens) == Throttle {
        var k :| 0 <= k < n && RestApiVerdict(fetch, jsonName, domains[k], idnTokens) == Throttle;
        if k < n - 1 {
          assert AnyThrottled(domains, n - 1, fetch, jsonName, idnTokens);
        }
      }
    }
  }

  /** The loop of `process_idn`: test the domains in order and write one row
      for the first that passes; later domains are not tested. `tried` is the
      number of domains tested. */
  method TestDomains(pacing: Pacing, out: CsvFile, fetch: Url -> Fetch, jsonName: string -> string,
                     name: string, idnTokens: set<string>, domains: seq<string>)
    returns (found: bool, ghost tried: nat)
    modifies pacing, out
    requires pacing.Valid() && out.Valid()
    ensures pacing.Valid() && out.Valid()
    ensures var hit := FirstFrom(domains, Passes(fetch, jsonName, idnTokens), 0);
      && found == hit.Some?
      && tried == (if found then hit.value + 1 else |domains|)
      && (found ==> out.present && out.rows == AppendedSite(old(out.present), old(out.rows), [name, domains[hit.value]]))
      && (!found ==> out.present == old(out.present) && out.rows == old(out.rows))
    ensures pacing.searchDelay == old(pacing.searchDelay)
    ensures tried <= |domains| && pacing.fetchDelay
         == if AnyThrottled(domains, tried, fetch, jsonName, idnTokens) then FETCH_DELAY_BASE_MS else old(pacing.fetchDelay)
  {
    ghost var passes := Passes(fetch, jsonName, idnTokens);
    ghost var hit := FirstFrom(domains, passes, 0);
    for i := 0 to |domains|
      invariant hit == FirstFrom(domains, passes, i)
      invariant pacing.Valid() && out.rows == old(out.rows) && out.present == old(out.present)
      invariant pacing.searchDelay == old(pacing.searchDelay)
      invariant pacing.fetchDelay == if AnyThrottled(domains, i, fetch, jsonName, idnTokens) then FETCH_DELAY_BASE_MS else old(pacing.fetchDelay)
    {
      var domain := domains[i];
      var ok, _ := TestRestApi(pacing, fetch, jsonName, domain, idnTokens);
      if ok {
        WriteSite(out, name, domain);
        return true, i + 1;
      }
    }
    found, tried := false, |domains|;
  }

  /** `process_idn(name)`: search, then accept the first returned domain that
      passes `test_rest_api` and write its row; no domain after it is tested. */
  method ProcessIdn(pacing: Pacing, out: CsvFile, search: string -> SearchOutcome, fetch: Url -> Fetch,
                    jsonName: string -> string, authority: string -> Option<string>, name: string)
    returns (found: bool, ghost tried: nat)
    modifies pacing, out
    requires pacing.Valid() && out.Valid()
    ensures pacing.Valid() && out.Valid()
    ensures found ==> exists d :: out.rows == AppendedSite(old(out.present), old(out.rows), [name, d])
    ensures !found ==> out.present == old(out.present) && out.rows == old(out.rows)
    ensures var domains := SearchHosts(search(name), authority);
      var passes := Passes(fetch, jsonName, Tokenize(name));
      var hit := FirstFrom(domains, passes, 0);
      && found == hit.Some?
      && tried == (if found then hit.value + 1 else |domains|)
      && (found ==> out.present && out.rows == AppendedSite(old(out.present), old(out.rows), [name, domains[hit.value]]))
      && (!found ==> out.present == old(out.present) && out.rows == old(out.rows))
    ensures pacing.searchDelay == if RateLimited(search(name)) then SEARCH_DELAY_BASE_MS else old(pacing.searchDelay)
    ensures tried <= |SearchHosts(search(name), authority)| && pacing.fetchDelay
         == if AnyThrottled(SearchHosts(search(name), authority), tried, fetch, jsonName, Tokenize(name))
            then FETCH_DELAY_BASE_MS else old(pacing.fetchDelay)
  {
    var idnTokens := Tokenize(name);
    var domains := SearchBing(pacing, search, authority, name);
    found, tried := TestDomains(pacing, out, fetch, jsonName, name, idnTokens, domains);
  }

  // ---------------------------------------------------------------------------
  // main
  // ---------------------------------------------------------------------------

  /** The domain `process_idn(name)` writes for `name`, if any: the first
      returned domain that passes `test_rest_api`. */
  function NameOutcome(search: string -> SearchOutcome, fetch: Url -> Fetch, jsonName: string -> string,
                       authority: string -> Option<string>, name: string): (r: Option<string>)
    ensures r.Some? ==> r.value in SearchHosts(search(name), authority)
    ensures r.Some? ==> Passes(fetch, jsonName, Tokenize(name))(r.value)
  {
    var domains := SearchHosts(search(name), authority);
    var hit := FirstFrom(domains, Passes(fetch, jsonName, Tokenize(name)), 0);
    if hit.Some? then Some(domains[hit.value]) else None
  }

  function Outcome(search: string -> SearchOutcome, fetch: Url -> Fetch, jsonName: string -> string,
                   authority: string -> Option<string>): string -> Option<string>
  {
    name => NameOutcome(search, fetch, jsonName, authority, name)
  }

  /** `process_idn` writes the first searched domain whose REST API probe
      accepts the name, and nothing when no domain is accepted. */
  lemma NameOutcomeSpec(search: string -> SearchOutcome, fetch: Url -> Fetch, jsonName: string -> string,
                        authority: string -> Option<string>, name: string)
    ensures var domains := SearchHosts(search(name), authority);
      var tokens := Tokenize(name);
      && (NameOutcome(search, fetch, jsonName, authority, name).None? <==>
          forall m :: 0 <= m < |domains| ==> RestApiVerdict(fetch, jsonName, domains[m], tokens) != Accept)
      && (NameOutcome(search, fetch, jsonName, authority, name).Some? ==>
          exists m :: 0 <= m < |domains|
            && NameOutcome(search, fetch, jsonName, authority, name) == Some(domains[m])
            && RestApiVerdict(fetch, jsonName, domains[m], tokens) == Accept
            && forall m' :: 0 <= m' < m ==> RestApiVerdict(fetch, jsonName, domains[m'], tokens) != Accept)
  {
    FirstFromSpec(SearchHosts(search(name), authority), Passes(fetch, jsonName, Tokenize(name)), 0);
  }

  /** The loop of `main()`: process the names in order; the file gains
      exactly one row `[name, domain]` per name that has an outcome, in input
      order, and the count is the number of rows added. */
  method ProcessNames(out: CsvFile, pacing: Pacing, search: string -> SearchOutcome, fetch: Url -> Fetch,
                      jsonName: string -> string, authority: string -> Option<string>, names: seq<string>)
    returns (found: nat)
    modifies out, pacing
    requires out.Valid() && out.present && pacing.Valid()
    ensures out.Valid() && out.present && pacing.Valid()
    ensures out.rows == old(out.rows) + Gather(Indices(|names|), ResultRow(names, "", Outcome(search, fetch, jsonName, authority)))
    ensures found == |out.rows| - |old(out.rows)|
  {
    found := 0;
    ghost var start := out.rows;
    ghost var outcome := Outcome(search, fetch, jsonName, authority);
    for i := 0 to |names|
      invariant out.Valid() && pacing.Valid() && out.present
      invariant out.rows == start + Gather(Indices(i), ResultRow(names, "", outcome))
      invariant found == |out.rows| - |start|
    {
      ghost var before := out.rows;
      var f, _ := ProcessIdn(pacing, out, search, fetch, jsonName, authority, names[i]);
      if f {
        found := found + 1;
      }
      ResultRowStepPlain(start, names, outcome, i, NameOutcome(search, fetch, jsonName, authority, names[i]), before, out.rows);
    }
  }

  /** `main()`: load the names, drop those already in the output file, create
      the output file with its header when absent, then process the remaining
      names in order, counting the names for which a row was written.
      `remaining` is the work list. */
  method Run(input: CsvFile, out: CsvFile, pacing: Pacing, search: string -> SearchOutcome, fetch: Url -> Fetch,
             jsonName: string -> string, authority: string -> Option<string>)
    returns (found: nat, ghost remaining: seq<string>)
    modifies out, pacing
    requires input != out
    requires input.Valid() && out.Valid() && pacing.Valid()
    ensures out.Valid() && pacing.Valid()
    ensures !input.present || NamesSkippingHeader(input.rows) == [] ==>
      remaining == [] && found == 0 && out.rows == old(out.rows) && out.present == old(out.present)
    ensures input.present && NamesSkippingHeader(input.rows) != [] ==>
      && remaining == Remaining(NamesSkippingHeader(input.rows), FirstCells(old(out.rows)))
      && out.present
      && var start := if old(out.present) then old(out.rows) else [HEADER];
         && out.rows == start + Gather(Indices(|remaining|), ResultRow(remaining, "", Outcome(search, fetch, jsonName, authority)))
         && found == |out.rows| - |start|
  {
    remaining := [];
    found := 0;
    if !input.present {
      return;
    }
    var names := LoadNamesSkippingHeader(input.rows);
    if |names| == 0 {
      return;
    }
    var processed := ReadFirstCells(out);
    if processed != {} {
      names := Remaining(names, processed);
    } else {
      RemainingSpec(names, processed, 0);
    }
    remaining := names;
    if !out.present {
      out.Overwrite([HEADER]);
    }
    found := ProcessNames(out, pacing, search, fetch, jsonName, authority, names);
  }
}
