/** robust_wp_crawler.py: a sequential crawler that resumes from its own
    output. For every name not yet in the output file it asks Bing (with
    retries) for at most two distinct hosts, expands each with three
    sub-domain prefixes, and asks each host whether it exposes an open
    WordPress REST API; the first host that does is appended at once as
    `https://<host>`.

    Delays, random jitter, timeouts, sessions and the console are not
    modelled. */
module RobustCrawler {
  import opened Seqs
  import opened Text
  import opened Discovery
  import opened Store

  const MAX_BING_RESULTS: nat := 2
  const MAX_RETRIES: nat := 2
  const WP_PREFIXES: seq<string> := ["blog.", "news.", "www."]
  const WP_PATHS: seq<string> := ["/", "/blog", "/wp-json", "/feed"]
  const API_PATHS: seq<string> := ["/wp-json/wp/v2/types", "/wp-json/wp/v2/posts?per_page=1", "/wp-json/"]
  const PROTOCOLS: seq<string> := ["https", "http"]
  const SCHEME: string := "https://"

  // ---------------------------------------------------------------------------
  // Reading names: the input loader of main() and get_processed_names() both
  // skip the first row and keep the stripped, non-blank first cells.
  // ---------------------------------------------------------------------------

  /** Row k (after the first) yields the name n. */
  predicate NamedRow(rows: seq<Row>, k: int, n: string) {
    1 <= k < |rows| && rows[k] != [] && Strip(rows[k][0]) == n && n != ""
  }

  /** The stripped non-blank first cells of the rows after the first, in
      file order. */
  function NonBlankNames(rows: seq<Row>): seq<string>
    decreases |rows|
  {
    if |rows| <= 1 then []
    else
      var i := |rows| - 1;
      var init := NonBlankNames(rows[..i]);
      if rows[i] != [] && Strip(rows[i][0]) != "" then init + [Strip(rows[i][0])] else init
  }

  /** The reading loop: skip the first row, keep each non-blank stripped
      first cell. */
  method LoadNonBlankNames(rows: seq<Row>) returns (names: seq<string>)
    ensures names == NonBlankNames(rows)
  {
    names := [];
    if rows == [] {
      return;
    }
    for i := 1 to |rows|
      invariant names == NonBlankNames(rows[..i])
    {
      assert rows[..i + 1][..i] == rows[..i];
      var row := rows[i];
      if row != [] && Strip(row[0]) != "" {
        names := names + [Strip(row[0])];
      }
    }
    assert rows[..|rows|] == rows;
  }

  /** Every loaded name is stripped and not blank. */
  lemma {:induction false} NonBlankNamesClean(rows: seq<Row>)
    ensures forall n :: n in NonBlankNames(rows) ==> n != "" && Strip(n) == n
    decreases |rows|
  {
    if |rows| > 1 {
      var i := |rows| - 1;
      NonBlankNamesClean(rows[..i]);
      if rows[i] != [] {
        StripIdempotent(rows[i][0]);
      }
    }
  }

  /** The loaded names are exactly the names of the named rows. */
  lemma {:induction false} NonBlankNamesMembers(rows: seq<Row>, n: string)
    ensures n in NonBlankNames(rows) <==> exists k :: NamedRow(rows, k, n)
    decreases |rows|
  {
    if |rows| > 1 {
      var i := |rows| - 1;
      var init := rows[..i];
      NonBlankNamesMembers(init, n);
      if exists k :: NamedRow(init, k, n) {
        var k :| NamedRow(init, k, n);
        assert NamedRow(rows, k, n);
      }
      if exists k :: NamedRow(rows, k, n) {
        var k :| NamedRow(rows, k, n);
        if k < i {
          assert NamedRow(init, k, n);
        }
      }
      if n in NonBlankNames(rows) && n !in NonBlankNames(init) {
        assert NamedRow(rows, i, n);
      }
    }
  }

  /** `get_processed_names()`: the names already in the output file; none
      when the file does not exist. */
  function ProcessedNames(present: bool, rows: seq<Row>): set<string>
  {
    if present then set n | n in NonBlankNames(rows) else {}
  }

  method ReadProcessedNames(f: CsvFile) returns (processed: set<string>)
    requires f.Valid()
    ensures processed == ProcessedNames(f.present, f.rows)
  {
    processed := {};
    if !f.present {
      return;
    }
    var names := LoadNonBlankNames(f.rows);
    for i := 0 to |names|
      invariant processed == set n | n in names[..i]
    {
      assert names[..i + 1] == names[..i] + [names[i]];
      processed := processed + {names[i]};
    }
    assert names[..|names|] == names;
  }

  /** `append_to_csv(name, domain)` followed by `get_processed_names()`:
      once the file exists, the written name, being stripped and not blank,
      is read back as processed, and nothing else is added. */
  lemma AppendedNameIsProcessed(rows: seq<Row>, name: string, domain: string)
    requires rows != [] && name != "" && Strip(name) == name
    ensures ProcessedNames(true, AppendedSite(true, rows, [name, domain])) == ProcessedNames(true, rows) + {name}
  {
    var after := rows + [[name, domain]];
    assert after[..|after| - 1] == rows;
    assert NonBlankNames(after) == NonBlankNames(rows) + [name];
  }

  // ---------------------------------------------------------------------------
  // safe_bing_search
  // ---------------------------------------------------------------------------

  function SearchQuery(name: string): string {
    "\"" + name + "\" hospital health medical site:*.org OR site:*.com"
  }

  /** A Bing answer whose results are read. */
  predicate Answered(o: SearchOutcome) {
    o.SearchPage? && o.status == 200
  }

  /** The outcomes of the attempts for one query; `search(query, a)` is
      attempt a's outcome (a raised request or timeout is `SearchFailed`). */
  function Attempts(search: (string, nat) -> SearchOutcome, query: string): seq<SearchOutcome>
  {
    seq(MAX_RETRIES, a requires 0 <= a < MAX_RETRIES => search(query, a))
  }

  /** The attempt whose answer is read: the first one answered with 200. */
  function AnsweredAttempt(search: (string, nat) -> SearchOutcome, query: string): Option<nat>
  {
    FirstFrom(Attempts(search, query), Answered, 0)
  }

  /** The hosts `safe_bing_search` returns: the first two distinct hosts of
      the first 200 answer, nothing when no attempt is answered. */
  function SearchHosts(search: (string, nat) -> SearchOutcome, authority: string -> Option<string>, query: string)
    : seq<string>
  {
    match AnsweredAttempt(search, query)
    case Some(a) => ExtractHosts(Attempts(search, query)[a].links, authority, MAX_BING_RESULTS, true)
    case None => []
  }

  /** The number of search requests made. */
  function AttemptsMade(search: (string, nat) -> SearchOutcome, query: string): nat
  {
    match AnsweredAttempt(search, query)
    case Some(a) => a + 1
    case None => MAX_RETRIES
  }

  /** The retry loop: stop after the first 200 answer, whose hosts are
      collected; any other outcome is retried until the attempts run out. */
  method SafeBingSearch(search: (string, nat) -> SearchOutcome, authority: string -> Option<string>, name: string)
    returns (hosts: seq<string>, ghost attempts: nat)
    ensures hosts == SearchHosts(search, authority, SearchQuery(name))
    ensures attempts == AttemptsMade(search, SearchQuery(name))
  {
    var query := SearchQuery(name);
    ghost var outcomes := Attempts(search, query);
    attempts := 0;
    for attempt := 0 to MAX_RETRIES
      invariant FirstFrom(outcomes, Answered, 0) == FirstFrom(outcomes, Answered, attempt)
      invariant attempts == attempt
    {
      var outcome := search(query, attempt);
      attempts := attempts + 1;
      if outcome.SearchPage? && outcome.status == 200 {
        hosts := CollectHosts(outcome.links, authority, MAX_BING_RESULTS, true);
        return;
      }
    }
    hosts := [];
  }

  /** At most `MAX_RETRIES` requests, none after the first 200 answer; the
      hosts are at most two distinct non-empty hosts of that answer's result
      links, in first-seen order, and there are none when no attempt is
      answered. */
  lemma SearchHostsSpec(search: (string, nat) -> SearchOutcome, authority: string -> Option<string>, query: string,
                        i: nat, j: nat)
    ensures 1 <= AttemptsMade(search, query) <= MAX_RETRIES
    ensures forall a :: 0 <= a < AttemptsMade(search, query) - 1 ==> !Answered(search(query, a))
    ensures AnsweredAttempt(search, query).None? ==>
      SearchHosts(search, authority, query) == [] && forall a :: 0 <= a < MAX_RETRIES ==> !Answered(search(query, a))
    ensures AnsweredAttempt(search, query).Some? ==>
      var a := AnsweredAttempt(search, query).value;
      var r, links := SearchHosts(search, authority, query), search(query, a).links;
      && AttemptsMade(search, query) == a + 1 && Answered(search(query, a))
      && |r| <= MAX_BING_RESULTS && Distinct(r)
      && (forall h :: h in r ==> h != "" && FromLink(links, authority, h))
      && (i < j < |r| ==> r[i] in LinkHosts(links, authority) && r[j] in LinkHosts(links, authority)
                          && IndexOf(LinkHosts(links, authority), r[i]) < IndexOf(LinkHosts(links, authority), r[j]))
  {
    var outcomes := Attempts(search, query);
    FirstFromSpec(outcomes, Answered, 0);
    match AnsweredAttempt(search, query)
    case Some(a) => {
      var links := outcomes[a].links;
      ExtractHostsSound(links, authority, MAX_BING_RESULTS, true);
      if i < j < |SearchHosts(search, authority, query)| {
        ExtractHostsFirstSeen(links, authority, MAX_BING_RESULTS, i, j);
      }
    }
    case None => {
      assert forall a :: 0 <= a < MAX_RETRIES ==> outcomes[a] == search(query, a);
    }
  }

  // ---------------------------------------------------------------------------
  // safe_test_rest_api
  // ---------------------------------------------------------------------------

  /** A response showing an open REST API: status 200, a content type
      starting with `application/json`, and a body that, stripped, starts
      with `{` or `[`, or that mentions `namespaces`. */
  predicate ApiAnswer(r: Fetch) {
    && r.Reply? && r.status == 200 && StartsWith(r.contentType, "application/json")
    && (StartsWith(Strip(r.body), "{") || StartsWith(Strip(r.body), "[") || Contains(r.body, "namespaces"))
  }

  /** The request for API path p over protocol s. */
  function ApiUrl(domain: string, p: nat, s: nat): Url
    requires p < |API_PATHS| && s < |PROTOCOLS|
  {
    Url(PROTOCOLS[s], domain, API_PATHS[p])
  }

  /** Some API path answers over some protocol. */
  predicate RestApiOpen(fetch: Url -> Fetch, domain: string) {
    exists p: nat, s: nat :: p < |API_PATHS| && s < |PROTOCOLS| && ApiAnswer(fetch(ApiUrl(domain, p, s)))
  }

  /** The path-major, https-then-http walk; a raised request is skipped.
      `requests` counts the requests made: all six when none answers. */
  method SafeTestRestApi(fetch: Url -> Fetch, domain: string) returns (ok: bool, ghost requests: nat)
    ensures ok == RestApiOpen(fetch, domain)
    ensures 1 <= requests <= |API_PATHS| * |PROTOCOLS|
    ensures !ok ==> requests == |API_PATHS| * |PROTOCOLS|
  {
    requests := 0;
    for p := 0 to |API_PATHS|
      invariant requests == p * |PROTOCOLS|
      invariant forall p': nat, s: nat :: p' < p && s < |PROTOCOLS| ==> !ApiAnswer(fetch(ApiUrl(domain, p', s)))
    {
      for s := 0 to |PROTOCOLS|
        invariant requests == p * |PROTOCOLS| + s
        invariant forall p': nat, s': nat :: p' < p && s' < |PROTOCOLS| ==> !ApiAnswer(fetch(ApiUrl(domain, p', s')))
        invariant forall s': nat :: s' < s ==> !ApiAnswer(fetch(ApiUrl(domain, p, s')))
      {
        var url := Url(PROTOCOLS[s], domain, API_PATHS[p]);
        var response := fetch(url);
        requests := requests + 1;
        if ApiAnswer(response) {
          assert ApiAnswer(fetch(ApiUrl(domain, p, s)));
          return true, requests;
        }
      }
    }
    ok := false;
  }

  // ---------------------------------------------------------------------------
  // process_single_idn: expansion and the host walk.
  // ---------------------------------------------------------------------------

  /** `all_hosts`: each base host, then `blog.`, `news.` and `www.`
      prepended to it. */
  function Expansion(hosts: seq<string>): seq<string> {
    PrefixExpansion(WP_PREFIXES, hosts)
  }

  /** A base host that is a variant of an earlier one (`www.a.org` after
      `a.org`) appears twice in `all_hosts`, so it is tested twice. */
  lemma RepeatsNotRemoved(hosts: seq<string>, i: nat, j: nat, p: nat)
    requires i < j < |hosts| && p < |WP_PREFIXES| && hosts[j] == WP_PREFIXES[p] + hosts[i]
    ensures var all := Expansion(hosts);
      exists a, b :: 0 <= a < b < |all| && all[a] == hosts[j] && all[b] == hosts[j]
  {
    var n := |WP_PREFIXES| + 1;
    PrefixExpansionAt(WP_PREFIXES, hosts, i, p);
    PrefixExpansionAt(WP_PREFIXES, hosts, j, 0);
    MulMono(i + 1, j, n);
    var a, b := i * n + 1 + p, j * n;
    assert a < b;
    assert Expansion(hosts)[a] == hosts[j] && Expansion(hosts)[b] == hosts[j];
  }

  /** The host passes the REST API test. */
  function HostPasses(fetch: Url -> Fetch): string -> bool {
    (h: string) => RestApiOpen(fetch, h)
  }

  /** The host and path loops: the path is never used, so each host that
      fails is tested once per path; the first host that passes is the
      result. `tests` counts the calls of `safe_test_rest_api`. */
  method FindHost(fetch: Url -> Fetch, all: seq<string>) returns (r: Option<string>, ghost tests: nat)
    ensures var hit := FirstFrom(all, HostPasses(fetch), 0);
      r == if hit.Some? then Some(all[hit.value]) else None
    ensures var hit := FirstFrom(all, HostPasses(fetch), 0);
      tests == if hit.Some? then |WP_PATHS| * hit.value + 1 else |WP_PATHS| * |all|
  {
    ghost var hit := FirstFrom(all, HostPasses(fetch), 0);
    tests := 0;
    for i := 0 to |all|
      invariant hit == FirstFrom(all, HostPasses(fetch), i)
      invariant tests == |WP_PATHS| * i
    {
      for q := 0 to |WP_PATHS|
        invariant tests == |WP_PATHS| * i + q
        invariant q > 0 ==> !RestApiOpen(fetch, all[i])
      {
        var ok, _ := SafeTestRestApi(fetch, all[i]);
        tests := tests + 1;
        if ok {
          return Some(all[i]), tests;
        }
      }
    }
    r := None;
  }

  /** The host `process_single_idn(name)` writes, if any. */
  function NameOutcome(search: (string, nat) -> SearchOutcome, fetch: Url -> Fetch,
                       authority: string -> Option<string>, name: string): Option<string>
  {
    var all := Expansion(SearchHosts(search, authority, SearchQuery(name)));
    var hit := FirstFrom(all, HostPasses(fetch), 0);
    if hit.Some? then Some(all[hit.value]) else None
  }

  function Outcome(search: (string, nat) -> SearchOutcome, fetch: Url -> Fetch, authority: string -> Option<string>)
    : string -> Option<string>
  {
    name => NameOutcome(search, fetch, authority, name)
  }

  /** The result is the first expanded host with an open REST API (by
      PrefixExpansionFrom, a base host or a prefixed base host); nothing when no
      expanded host has one. */
  lemma NameOutcomeSpec(search: (string, nat) -> SearchOutcome, fetch: Url -> Fetch,
                        authority: string -> Option<string>, name: string)
    ensures var all := Expansion(SearchHosts(search, authority, SearchQuery(name)));
      && (NameOutcome(search, fetch, authority, name).None? <==> forall m :: 0 <= m < |all| ==> !RestApiOpen(fetch, all[m]))
      && (NameOutcome(search, fetch, authority, name).Some? ==>
          exists m :: 0 <= m < |all| && NameOutcome(search, fetch, authority, name) == Some(all[m])
            && RestApiOpen(fetch, all[m])
            && forall m' :: 0 <= m' < m ==> !RestApiOpen(fetch, all[m']))
  {
    var all := Expansion(SearchHosts(search, authority, SearchQuery(name)));
    FirstFromSpec(all, HostPasses(fetch), 0);
  }

  /** `process_single_idn(name)`: search, stop when there are no hosts,
      expand, walk; at the first passing host append `[name,
      https://<host>]` and report True. */
  method ProcessSingleIdn(out: CsvFile, search: (string, nat) -> SearchOutcome, fetch: Url -> Fetch,
                          authority: string -> Option<string>, name: string)
    returns (found: bool)
    modifies out
    requires out.Valid()
    ensures out.Valid()
    ensures var r := Outcome(search, fetch, authority)(name);
      && found == r.Some?
      && (found ==> out.present && out.rows == AppendedSite(old(out.present), old(out.rows), [name, SCHEME + r.value]))
      && (!found ==> out.present == old(out.present) && out.rows == old(out.rows))
  {
    var hosts, _ := SafeBingSearch(search, authority, name);
    if hosts == [] {
      return false;
    }
    var all := ExpandWithPrefixes(WP_PREFIXES, hosts);
    var r, _ := FindHost(fetch, all);
    if r.Some? {
      WriteSite(out, name, SCHEME + r.value);
      return true;
    }
    found := false;
  }

  // ---------------------------------------------------------------------------
  // main
  // ---------------------------------------------------------------------------

  /** The sequential loop: process each remaining name in order;
      `count` is `found_count`. */
  method ProcessNames(out: CsvFile, search: (string, nat) -> SearchOutcome, fetch: Url -> Fetch,
                      authority: string -> Option<string>, names: seq<string>)
    returns (count: nat)
    modifies out
    requires out.Valid() && out.present
    ensures out.Valid() && out.present
    ensures out.rows == old(out.rows) + Gather(Indices(|names|), ResultRow(names, SCHEME, Outcome(search, fetch, authority)))
    ensures count == |out.rows| - |old(out.rows)|
  {
    ghost var start := out.rows;
    count := 0;
    for i := 0 to |names|
      invariant out.Valid() && out.present
      invariant out.rows == start + Gather(Indices(i), ResultRow(names, SCHEME, Outcome(search, fetch, authority)))
      invariant count == |out.rows| - |start|
    {
      ghost var before := out.rows;
      var found := ProcessSingleIdn(out, search, fetch, authority, names[i]);
      if found {
        count := count + 1;
      }
      ResultRowStep(start, names, SCHEME, Outcome(search, fetch, authority), i,
                    Outcome(search, fetch, authority)(names[i]), before, out.rows);
    }
  }

  /** How `main()` ends. */
  datatype Finish =
    | InputMissing          // the input file does not exist: return
    | InputEmptyRaised      // `next(reader)` on an empty input file raises
    | NothingLeft           // every name was processed before: return
    | Completed(found: nat)

  /** The names `main()` processes: the input names not read back from the
      output file, in input order. */
  function ToProcess(input: seq<Row>, outPresent: bool, outRows: seq<Row>): seq<string> {
    Remaining(NonBlankNames(input), ProcessedNames(outPresent, outRows))
  }

  /** `main()`: load the names, drop the processed ones, stop when none is
      left, create the output file with its header when absent, then process
      the names in order. */
  method Run(input: CsvFile, out: CsvFile, search: (string, nat) -> SearchOutcome, fetch: Url -> Fetch,
             authority: string -> Option<string>)
    returns (finish: Finish)
    modifies out
    requires input != out && input.Valid() && out.Valid()
    ensures out.Valid()
    ensures !input.present ==> finish == InputMissing
    ensures input.present && input.rows == [] ==> finish == InputEmptyRaised
    ensures finish.Completed? <==> input.present && input.rows != [] && ToProcess(input.rows, old(out.present), old(out.rows)) != []
    ensures !finish.Completed? ==> out.present == old(out.present) && out.rows == old(out.rows)
    ensures finish.Completed? ==>
      var todo := ToProcess(input.rows, old(out.present), old(out.rows));
      var start := if old(out.present) then old(out.rows) else [HEADER];
      && out.present
      && out.rows == start + Gather(Indices(|todo|), ResultRow(todo, SCHEME, Outcome(search, fetch, authority)))
      && finish.found == |out.rows| - |start|
  {
    if !input.present {
      return InputMissing;
    }
    if input.rows == [] {
      return InputEmptyRaised;
    }
    var names := LoadNonBlankNames(input.rows);
    var processed := ReadProcessedNames(out);
    if processed != {} {
      names := Remaining(names, processed);
    } else {
      WithoutNothing(names);
    }
    if names == [] {
      return NothingLeft;
    }
    if !out.present {
      out.Overwrite([HEADER]);
    }
    var count := ProcessNames(out, search, fetch, authority, names);
    finish := Completed(count);
  }

  /** Resuming skips exactly the names already in the output file, keeps
      input order, and never skips a name that was not written. */
  lemma ToProcessSpec(input: seq<Row>, outPresent: bool, outRows: seq<Row>, n: string)
    ensures n in ToProcess(input, outPresent, outRows) <==>
      (exists k :: NamedRow(input, k, n)) && n !in ProcessedNames(outPresent, outRows)
    ensures !outPresent ==> ToProcess(input, outPresent, outRows) == NonBlankNames(input)
  {
    RemainingSpec(NonBlankNames(input), ProcessedNames(outPresent, outRows), 0);
    NonBlankNamesMembers(input, n);
  }
}
