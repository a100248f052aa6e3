/** bing_wordpress_crawler.py: one task per name. Each task asks Bing for
    at most three distinct hosts, expands each with five sub-domain
    prefixes, and tries every path on every expanded host, host by host,
    until a page answers 200 with a WordPress fingerprint; that host is
    appended to the output file at once as `https://<host>`.

    Tasks run one at a time, but in the order `asyncio.as_completed` starts
    them, which the model takes as a parameter. Delays, jitter, timeouts
    and the console are not modelled. */
module BingCrawler {
  import opened Seqs
  import opened Text
  import opened Discovery
  import opened Fingerprints
  import opened Store

  const MAX_BING_RESULTS: nat := 3
  const WP_PREFIXES: seq<string> := ["blog.", "news.", "today.", "stories.", "newsroom."]
  const WP_PATHS: seq<string> := ["/", "/blog", "/news", "/wp-json", "/feed", "/rss", "/wp-login.php"]
  const SCHEME: string := "https://"

  // ---------------------------------------------------------------------------
  // bing_search
  // ---------------------------------------------------------------------------

  function SearchQuery(name: string): string {
    name + " official website"
  }

  /** The hosts of one Bing outcome: the first three distinct hosts of a 200
      page; nothing for another status or a raised request. */
  function SearchHosts(outcome: SearchOutcome, authority: string -> Option<string>): seq<string>
  {
    if outcome.SearchPage? && outcome.status == 200 then ExtractHosts(outcome.links, authority, MAX_BING_RESULTS, true)
    else []
  }

  method BingSearch(search: string -> SearchOutcome, authority: string -> Option<string>, name: string)
    returns (hosts: seq<string>)
    ensures hosts == SearchHosts(search(SearchQuery(name)), authority)
  {
    var outcome := search(SearchQuery(name));
    if outcome.SearchFailed? || outcome.status != 200 {
      return [];
    }
    hosts := CollectHosts(outcome.links, authority, MAX_BING_RESULTS, true);
  }

  /** At most three distinct non-empty hosts of `http` result links, in
      first-seen order; nothing unless the status is 200. */
  lemma SearchHostsSpec(outcome: SearchOutcome, authority: string -> Option<string>, i: nat, j: nat)
    ensures !(outcome.SearchPage? && outcome.status == 200) ==> SearchHosts(outcome, authority) == []
    ensures var r := SearchHosts(outcome, authority);
      && |r| <= MAX_BING_RESULTS && Distinct(r)
      && (forall h :: h in r ==> h != "" && outcome.SearchPage? && FromLink(outcome.links, authority, h))
    ensures outcome.SearchPage? && i < j < |SearchHosts(outcome, authority)| ==>
      var r, all := SearchHosts(outcome, authority), LinkHosts(outcome.links, authority);
      r[i] in all && r[j] in all && IndexOf(all, r[i]) < IndexOf(all, r[j])
  {
    if outcome.SearchPage? && outcome.status == 200 {
      ExtractHostsSound(outcome.links, authority, MAX_BING_RESULTS, true);
      if i < j < |SearchHosts(outcome, authority)| {
        ExtractHostsFirstSeen(outcome.links, authority, MAX_BING_RESULTS, i, j);
      }
    }
  }

  // ---------------------------------------------------------------------------
  // test_wordpress
  // ---------------------------------------------------------------------------

  /** An answer that shows WordPress: status 200 and a fingerprint in the
      body (the meta-generator alternative is subsumed by `wordpress`, see
      Fingerprints.BingTableReduces). */
  predicate Matches(r: Fetch) {
    r.Reply? && r.status == 200 && AnyLiteral(BING_LITERALS, r.body)
  }

  /** `test_wordpress(domain, path)`: the https answer decides; http is
      asked only when the https request raised. */
  predicate TestWordpress(fetch: Url -> Fetch, host: string, path: string) {
    var secure := fetch(Url("https", host, path));
    if secure.Failed? then Matches(fetch(Url("http", host, path))) else Matches(secure)
  }

  /** The request sequence of `test_wordpress`; `asked` lists the URLs
      requested. */
  method TestWordpressAt(fetch: Url -> Fetch, host: string, path: string) returns (ok: bool, ghost asked: seq<Url>)
    ensures ok == TestWordpress(fetch, host, path)
    ensures asked == [Url("https", host, path)] + (if fetch(Url("https", host, path)).Failed? then [Url("http", host, path)] else [])
  {
    var url := Url("https", host, path);
    asked := [url];
    var response := fetch(url);
    if response.Reply? {
      if response.status != 200 {
        return false, asked;
      }
      return AnyLiteral(BING_LITERALS, response.body), asked;
    }
    var urlHttp := Url("http", host, path);
    asked := asked + [urlHttp];
    response := fetch(urlHttp);
    if response.Reply? {
      if response.status != 200 {
        return false, asked;
      }
      return AnyLiteral(BING_LITERALS, response.body), asked;
    }
    ok := false;
  }

  /** An https answer other than a raised request decides alone: a non-200
      https answer is False whatever http would say. */
  lemma HttpOnlyAfterRaise(fetch: Url -> Fetch, other: Url -> Fetch, host: string, path: string)
    requires fetch(Url("https", host, path)).Reply?
    requires other(Url("https", host, path)) == fetch(Url("https", host, path))
    ensures TestWordpress(fetch, host, path) == TestWordpress(other, host, path)
    ensures fetch(Url("https", host, path)).status != 200 ==> !TestWordpress(fetch, host, path)
  {
  }

  // ---------------------------------------------------------------------------
  // check_idn_wordpress: expansion and the host-major walk.
  // ---------------------------------------------------------------------------

  /** `all_hosts`: each base host, then the five prefixes prepended to it. */
  function Expansion(hosts: seq<string>): seq<string> {
    PrefixExpansion(WP_PREFIXES, hosts)
  }

  function PathPasses(fetch: Url -> Fetch, host: string): string -> bool {
    (path: string) => TestWordpress(fetch, host, path)
  }

  /** The first path, in `WP_PATHS` order, at which the host shows
      WordPress. */
  function FirstPath(fetch: Url -> Fetch, host: string): Option<nat> {
    FirstFrom(WP_PATHS, PathPasses(fetch, host), 0)
  }

  function HostPasses(fetch: Url -> Fetch): string -> bool {
    (h: string) => FirstPath(fetch, h).Some?
  }

  /** The path loop for one host: stop at the first path that shows
      WordPress. */
  method TestPaths(fetch: Url -> Fetch, host: string) returns (ok: bool, ghost tried: nat)
    ensures ok == FirstPath(fetch, host).Some?
    ensures tried == if ok then FirstPath(fetch, host).value + 1 else |WP_PATHS|
  {
    for q := 0 to |WP_PATHS|
      invariant FirstPath(fetch, host) == FirstFrom(WP_PATHS, PathPasses(fetch, host), q)
    {
      var passed, _ := TestWordpressAt(fetch, host, WP_PATHS[q]);
      if passed {
        return true, q + 1;
      }
    }
    ok, tried := false, |WP_PATHS|;
  }

  /** The host loop: the first expanded host with a passing path. */
  method FindHost(fetch: Url -> Fetch, all: seq<string>) returns (r: Option<string>)
    ensures var hit := FirstFrom(all, HostPasses(fetch), 0);
      r == if hit.Some? then Some(all[hit.value]) else None
  {
    for i := 0 to |all|
      invariant FirstFrom(all, HostPasses(fetch), 0) == FirstFrom(all, HostPasses(fetch), i)
    {
      var ok, _ := TestPaths(fetch, all[i]);
      if ok {
        return Some(all[i]);
      }
    }
    r := None;
  }

  /** The host `check_idn_wordpress(name)` writes, if any. */
  function NameOutcome(search: string -> SearchOutcome, fetch: Url -> Fetch, authority: string -> Option<string>,
                       name: string): Option<string>
  {
    var all := Expansion(SearchHosts(search(SearchQuery(name)), authority));
    var hit := FirstFrom(all, HostPasses(fetch), 0);
    if hit.Some? then Some(all[hit.value]) else None
  }

  function Outcome(search: string -> SearchOutcome, fetch: Url -> Fetch, authority: string -> Option<string>)
    : string -> Option<string>
  {
    name => NameOutcome(search, fetch, authority, name)
  }

  /** The path loop finds the first path at which the host shows WordPress;
      none means that no path does. */
  lemma FirstPathSpec(fetch: Url -> Fetch, host: string)
    ensures FirstPath(fetch, host).None? <==> forall q :: 0 <= q < |WP_PATHS| ==> !TestWordpress(fetch, host, WP_PATHS[q])
    ensures FirstPath(fetch, host).Some? ==>
      var q := FirstPath(fetch, host).value;
      && q < |WP_PATHS| && TestWordpress(fetch, host, WP_PATHS[q])
      && forall q' :: 0 <= q' < q ==> !TestWordpress(fetch, host, WP_PATHS[q'])
  {
    FirstFromSpec(WP_PATHS, PathPasses(fetch, host), 0);
  }

  /** Host-major order: the result is the first expanded host that has a
      passing path (FirstPathSpec), every earlier host having none; no
      result means that no expanded host has one. */
  lemma NameOutcomeSpec(search: string -> SearchOutcome, fetch: Url -> Fetch, authority: string -> Option<string>,
                        name: string)
    ensures var all := Expansion(SearchHosts(search(SearchQuery(name)), authority));
      && (NameOutcome(search, fetch, authority, name).None? <==>
          forall m :: 0 <= m < |all| ==> FirstPath(fetch, all[m]).None?)
      && (NameOutcome(search, fetch, authority, name).Some? ==>
          exists m :: 0 <= m < |all|
            && NameOutcome(search, fetch, authority, name) == Some(all[m])
            && FirstPath(fetch, all[m]).Some?
            && forall m' :: 0 <= m' < m ==> FirstPath(fetch, all[m']).None?)
  {
    var all := Expansion(SearchHosts(search(SearchQuery(name)), authority));
    FirstFromSpec(all, HostPasses(fetch), 0);
  }

  /** `check_idn_wordpress(name)`: search, stop when there are no hosts,
      expand, walk; at the first passing host append `[name,
      https://<host>]` and report True. */
  method CheckIdn(out: CsvFile, search: string -> SearchOutcome, fetch: Url -> Fetch,
                  authority: string -> Option<string>, name: string)
    returns (found: bool)
    modifies out
    requires out.Valid()
    ensures out.Valid()
    ensures var r := Outcome(search, fetch, authority)(name);
      && found == r.Some?
      && (found ==> out.present && out.rows == AppendedSite(old(out.present), old(out.rows), [name, SCHEME + r.value]))
      && (!found ==> out.present == old(out.present) && out.rows == old(out.rows))
  {
    var hosts := BingSearch(search, authority, name);
    if hosts == [] {
      return false;
    }
    var all := ExpandWithPrefixes(WP_PREFIXES, hosts);
    var r := FindHost(fetch, all);
    if r.Some? {
      WriteSite(out, name, SCHEME + r.value);
      return true;
    }
    found := false;
  }

  // ---------------------------------------------------------------------------
  // main
  // ---------------------------------------------------------------------------

  /** The tasks, run one at a time in the order they are started (`order`
      lists name indices); `count` is `wordpress_count`. */
  method ProcessInOrder(out: CsvFile, search: string -> SearchOutcome, fetch: Url -> Fetch,
                        authority: string -> Option<string>, names: seq<string>, order: seq<nat>)
    returns (count: nat)
    modifies out
    requires out.Valid() && out.present
    requires IsOrdering(order, |names|)
    ensures out.Valid() && out.present
    ensures out.rows == old(out.rows) + Gather(order, ResultRow(names, SCHEME, Outcome(search, fetch, authority)))
    ensures count == |out.rows| - |old(out.rows)|
  {
    OrderingInRange(order, |names|);
    ghost var start := out.rows;
    count := 0;
    for j := 0 to |order|
      invariant out.Valid() && out.present
      invariant out.rows == start + Gather(order[..j], ResultRow(names, SCHEME, Outcome(search, fetch, authority)))
      invariant count == |out.rows| - |start|
    {
      ghost var before := out.rows;
      var found := CheckIdn(out, search, fetch, authority, names[order[j]]);
      if found {
        count := count + 1;
      }
      ResultRowStepAt(start, names, SCHEME, Outcome(search, fetch, authority), order, j,
                      Outcome(search, fetch, authority)(names[order[j]]), before, out.rows);
    }
    assert order[..|order|] == order;
  }

  /** How `main()` ends. */
  datatype Finish =
    | InputMissing          // the input file does not exist: return
    | InputEmptyRaised      // `next(reader)` on an empty input file raises
    | Completed(count: nat)

  /** Creating the output file: a header and an empty result are written,
      then the file is rewritten with its first line only. */
  method InitOutput(out: CsvFile)
    modifies out
    requires out.Valid() && !out.present
    ensures out.Valid() && out.present && out.rows == [HEADER]
  {
    WriteSite(out, "", SCHEME);
    var first := out.rows[0];
    out.Overwrite([first]);
  }

  /** `main()`: load the names (every non-empty row after the first, blank
      names included), create the output file with its header when absent,
      then run the tasks in the order they are started. */
  method Run(input: CsvFile, out: CsvFile, search: string -> SearchOutcome, fetch: Url -> Fetch,
             authority: string -> Option<string>, order: seq<nat>)
    returns (finish: Finish)
    modifies out
    requires input != out && input.Valid() && out.Valid()
    requires IsOrdering(order, |NamesAfterFirstRow(input.rows)|)
    ensures out.Valid()
    ensures !input.present ==> finish == InputMissing
    ensures input.present && input.rows == [] ==> finish == InputEmptyRaised
    ensures !finish.Completed? ==> out.present == old(out.present) && out.rows == old(out.rows)
    ensures finish.Completed? <==> input.present && input.rows != []
    ensures finish.Completed? ==>
      var names := NamesAfterFirstRow(input.rows);
      var start := if old(out.present) then old(out.rows) else [HEADER];
      && out.present
      && out.rows == start + Gather(order, ResultRow(names, SCHEME, Outcome(search, fetch, authority)))
      && finish.count == |out.rows| - |start|
  {
    if !input.present {
      return InputMissing;
    }
    if input.rows == [] {
      return InputEmptyRaised;
    }
    var names := LoadNamesAfterFirstRow(input.rows);
    if !out.present {
      InitOutput(out);
    }
    var count := ProcessInOrder(out, search, fetch, authority, names, order);
    finish := Completed(count);
  }
}
