/** incremental_wp_crawler.py: a sequential crawler that starts a fresh
    output file on every run. For every name it asks Bing for at most two
    hosts (repeats kept), requests a fixed list of URLs on each host, and
    appends the host itself at once when one of its URLs answers 200 with a
    WordPress fingerprint.

    Delays, timeouts, the log and TLS settings are not modelled. */
module IncrementalCrawler {
  import opened Seqs
  import opened Text
  import opened Discovery
  import opened Fingerprints
  import opened Store

  const MAX_BING_RESULTS: nat := 2
  /** The paths requested on every domain, after the bare domain. */
  const DOMAIN_PATHS: seq<string> := ["", "/wp-json/wp/v2/", "/wp-admin/", "/blog/", "/news/"]
  /** The paths requested on `www.` + domain when the domain lacks it. */
  const WWW_PATHS: seq<string> := ["", "/wp-json/wp/v2/"]

  // ---------------------------------------------------------------------------
  // search_bing
  // ---------------------------------------------------------------------------

  /** The hosts of one Bing outcome: the first two non-empty hosts of a 200
      page, repeats kept; nothing for another status or a raised request. */
  function SearchHosts(outcome: SearchOutcome, authority: string -> Option<string>): seq<string>
  {
    if outcome.SearchPage? && outcome.status == 200 then ExtractHosts(outcome.links, authority, MAX_BING_RESULTS, false)
    else []
  }

  method SearchBing(search: string -> SearchOutcome, authority: string -> Option<string>, query: string)
    returns (domains: seq<string>)
    ensures domains == SearchHosts(search(query), authority)
  {
    var outcome := search(query);
    if outcome.SearchFailed? || outcome.status != 200 {
      return [];
    }
    domains := CollectHosts(outcome.links, authority, MAX_BING_RESULTS, false);
  }

  /** At most two non-empty hosts of `http` result links, in document order
      and with repeats: the first hosts the page yields. Nothing unless the
      status is 200. */
  lemma SearchHostsSpec(outcome: SearchOutcome, authority: string -> Option<string>)
    ensures !(outcome.SearchPage? && outcome.status == 200) ==> SearchHosts(outcome, authority) == []
    ensures outcome.SearchPage? && outcome.status == 200 ==>
      var r := SearchHosts(outcome, authority);
      && |r| <= MAX_BING_RESULTS
      && IsPrefix(r, LinkHosts(outcome.links, authority))
      && (forall h :: h in r ==> h != "" && FromLink(outcome.links, authority, h))
  {
    if outcome.SearchPage? && outcome.status == 200 {
      ExtractHostsSound(outcome.links, authority, MAX_BING_RESULTS, false);
    }
  }

  // ---------------------------------------------------------------------------
  // test_wordpress and the test-URL list of process_idn.
  // ---------------------------------------------------------------------------

  /** `test_wordpress(url)`: status 200 and a fingerprint in the body; any
      other status, or a raised request, is False. */
  predicate TestWordpress(r: Fetch) {
    r.Reply? && r.status == 200 && AnyLiteral(INCREMENTAL_LITERALS, r.body)
  }

  function OnHost(host: string, paths: seq<string>): (urls: seq<Url>)
    ensures |urls| == |paths| && forall k :: 0 <= k < |paths| ==> urls[k] == Url("https", host, paths[k])
  {
    seq(|paths|, k requires 0 <= k < |paths| => Url("https", host, paths[k]))
  }

  /** `test_urls` for one domain: the five https URLs on the domain, then,
      unless the domain starts with `www.`, two on `www.` + domain. */
  function TestUrls(domain: string): seq<Url> {
    OnHost(domain, DOMAIN_PATHS) + if StartsWith(domain, "www.") then [] else OnHost("www." + domain, WWW_PATHS)
  }

  /** Five URLs on the domain itself, in the listed order, and the two
      `www.` URLs exactly when the domain does not already start with
      `www.`; every URL is https. */
  lemma TestUrlsSpec(domain: string)
    ensures var urls := TestUrls(domain);
      && |urls| == (if StartsWith(domain, "www.") then |DOMAIN_PATHS| else |DOMAIN_PATHS| + |WWW_PATHS|)
      && (forall k :: 0 <= k < |urls| ==> urls[k].scheme == "https")
      && (forall k :: 0 <= k < |DOMAIN_PATHS| ==> urls[k] == Url("https", domain, DOMAIN_PATHS[k]))
      && (forall k :: |DOMAIN_PATHS| <= k < |urls| ==> urls[k] == Url("https", "www." + domain, WWW_PATHS[k - |DOMAIN_PATHS|]))
      && (!StartsWith(domain, "www.") <==> exists k :: 0 <= k < |urls| && urls[k].host == "www." + domain)
  {
    var urls := TestUrls(domain);
    if !StartsWith(domain, "www.") {
      assert urls[|DOMAIN_PATHS|].host == "www." + domain;
    } else {
      forall k | 0 <= k < |urls| ensures urls[k].host != "www." + domain {
        assert |urls[k].host| < |"www." + domain|;
      }
    }
  }

  function UrlPasses(fetch: Url -> Fetch): Url -> bool {
    (u: Url) => TestWordpress(fetch(u))
  }

  /** The first test URL of the domain that shows WordPress. */
  function FirstUrl(fetch: Url -> Fetch, domain: string): Option<nat> {
    FirstFrom(TestUrls(domain), UrlPasses(fetch), 0)
  }

  function DomainPasses(fetch: Url -> Fetch): string -> bool {
    (d: string) => FirstUrl(fetch, d).Some?
  }

  /** The URL loop for one domain: stop at the first URL that shows
      WordPress. */
  method TestDomain(fetch: Url -> Fetch, domain: string) returns (ok: bool)
    ensures ok == FirstUrl(fetch, domain).Some?
  {
    var testUrls := OnHost(domain, DOMAIN_PATHS);
    if !StartsWith(domain, "www.") {
      testUrls := testUrls + OnHost("www." + domain, WWW_PATHS);
    }
    assert testUrls == TestUrls(domain);
    for k := 0 to |testUrls|
      invariant FirstUrl(fetch, domain) == FirstFrom(testUrls, UrlPasses(fetch), k)
    {
      if TestWordpress(fetch(testUrls[k])) {
        return true;
      }
    }
    ok := false;
  }

  /** The domain loop: the first domain with a passing URL. */
  method FindDomain(fetch: Url -> Fetch, domains: seq<string>) returns (r: Option<string>)
    ensures var hit := FirstFrom(domains, DomainPasses(fetch), 0);
      r == if hit.Some? then Some(domains[hit.value]) else None
  {
    for i := 0 to |domains|
      invariant FirstFrom(domains, DomainPasses(fetch), 0) == FirstFrom(domains, DomainPasses(fetch), i)
    {
      var ok := TestDomain(fetch, domains[i]);
      if ok {
        return Some(domains[i]);
      }
    }
    r := None;
  }

  /** The domain `process_idn(name)` writes, if any. */
  function NameOutcome(search: string -> SearchOutcome, fetch: Url -> Fetch, authority: string -> Option<string>,
                       name: string): Option<string>
  {
    var domains := SearchHosts(search(name), authority);
    var hit := FirstFrom(domains, DomainPasses(fetch), 0);
    if hit.Some? then Some(domains[hit.value]) else None
  }

  function Outcome(search: string -> SearchOutcome, fetch: Url -> Fetch, authority: string -> Option<string>)
    : string -> Option<string>
  {
    name => NameOutcome(search, fetch, authority, name)
  }

  /** A domain passes exactly when one of its test URLs shows WordPress; the
      URL loop stops at the first such URL. */
  lemma FirstUrlSpec(fetch: Url -> Fetch, domain: string)
    ensures var urls := TestUrls(domain);
      && (FirstUrl(fetch, domain).None? <==> forall k :: 0 <= k < |urls| ==> !TestWordpress(fetch(urls[k])))
      && (FirstUrl(fetch, domain).Some? ==>
          var k := FirstUrl(fetch, domain).value;
          k < |urls| && TestWordpress(fetch(urls[k])) && forall k' :: 0 <= k' < k ==> !TestWordpress(fetch(urls[k'])))
  {
    FirstFromSpec(TestUrls(domain), UrlPasses(fetch), 0);
  }

  /** The written value is the searched domain itself, never the URL that
      matched (which may be on `www.` + domain): the first domain with a
      passing URL; nothing when no domain has one. */
  lemma NameOutcomeSpec(search: string -> SearchOutcome, fetch: Url -> Fetch, authority: string -> Option<string>,
                        name: string)
    ensures var domains := SearchHosts(search(name), authority);
      && (NameOutcome(search, fetch, authority, name).None? <==>
          forall m :: 0 <= m < |domains| ==> FirstUrl(fetch, domains[m]).None?)
      && (NameOutcome(search, fetch, authority, name).Some? ==>
          exists m :: 0 <= m < |domains|
            && NameOutcome(search, fetch, authority, name) == Some(domains[m])
            && FirstUrl(fetch, domains[m]).Some?
            && forall m' :: 0 <= m' < m ==> FirstUrl(fetch, domains[m']).None?)
  {
    FirstFromSpec(SearchHosts(search(name), authority), DomainPasses(fetch), 0);
  }

  /** `process_idn(name)`: search, stop when there are no domains, walk; at
      the first passing domain append `[name, domain]` and report True. */
  method ProcessIdn(out: CsvFile, search: string -> SearchOutcome, fetch: Url -> Fetch,
                    authority: string -> Option<string>, name: string)
    returns (found: bool)
    modifies out
    requires out.Valid()
    ensures out.Valid()
    ensures var r := Outcome(search, fetch, authority)(name);
      && found == r.Some?
      && (found ==> out.present && out.rows == AppendedSite(old(out.present), old(out.rows), [name, r.value]))
      && (!found ==> out.present == old(out.present) && out.rows == old(out.rows))
  {
    var domains := SearchBing(search, authority, name);
    if domains == [] {
      return false;
    }
    var r := FindDomain(fetch, domains);
    if r.Some? {
      WriteSite(out, name, r.value);
      return true;
    }
    found := false;
  }

  // ---------------------------------------------------------------------------
  // main
  // ---------------------------------------------------------------------------

  /** The sequential loop; `count` is `wordpress_found`. */
  method ProcessNames(out: CsvFile, search: string -> SearchOutcome, fetch: Url -> Fetch,
                      authority: string -> Option<string>, names: seq<string>)
    returns (count: nat)
    modifies out
    requires out.Valid() && out.present
    ensures out.Valid() && out.present
    ensures out.rows == old(out.rows) + Gather(Indices(|names|), ResultRow(names, "", Outcome(search, fetch, authority)))
    ensures count == |out.rows| - |old(out.rows)|
  {
    ghost var start := out.rows;
    count := 0;
    for i := 0 to |names|
      invariant out.Valid() && out.present
      invariant out.rows == start + Gather(Indices(i), ResultRow(names, "", Outcome(search, fetch, authority)))
      invariant count == |out.rows| - |start|
    {
      ghost var before := out.rows;
      var found := ProcessIdn(out, search, fetch, authority, names[i]);
      if found {
        count := count + 1;
      }
      ResultRowStepPlain(start, names, Outcome(search, fetch, authority), i,
                         Outcome(search, fetch, authority)(names[i]), before, out.rows);
    }
  }

  /** How `main()` ends. */
  datatype Finish =
    | NoNames               // missing or unreadable input, or no names: return
    | Completed(found: nat)

  /** The names `main()` loads: none when the input file is missing. */
  function InputNames(input: CsvFile): seq<string>
    reads input
  {
    if input.present then NamesSkippingHeader(input.rows) else []
  }

  /** `main()`: load the names and stop when there are none; otherwise
      truncate the output file to its header, so that earlier results are
      discarded, and process the names in order. */
  method Run(input: CsvFile, out: CsvFile, search: string -> SearchOutcome, fetch: Url -> Fetch,
             authority: string -> Option<string>)
    returns (finish: Finish)
    modifies out
    requires input != out && input.Valid() && out.Valid()
    ensures out.Valid()
    ensures finish.NoNames? <==> InputNames(input) == []
    ensures finish.NoNames? ==> out.present == old(out.present) && out.rows == old(out.rows)
    ensures finish.Completed? ==>
      var names := InputNames(input);
      && out.present
      && out.rows == [HEADER] + Gather(Indices(|names|), ResultRow(names, "", Outcome(search, fetch, authority)))
      && finish.found == |out.rows| - 1
  {
    if !input.present {
      return NoNames;
    }
    var names := LoadNamesSkippingHeader(input.rows);
    if names == [] {
      return NoNames;
    }
    out.Overwrite([HEADER]);
    var count := ProcessNames(out, search, fetch, authority, names);
    finish := Completed(count);
  }

  /** No resume: the output of a run does not depend on what the file held
      before. */
  lemma RunForgetsEarlierResults(names: seq<string>, outcome: string -> Option<string>, rows: seq<Row>)
    requires names != [] && rows == [HEADER] + Gather(Indices(|names|), ResultRow(names, "", outcome))
    ensures rows[0] == HEADER
    ensures forall r :: r in rows[1..] <==>
      exists i :: 0 <= i < |names| && outcome(names[i]).Some? && r == [names[i], outcome(names[i]).value]
  {
    assert rows[1..] == Gather(Indices(|names|), ResultRow(names, "", outcome));
    forall r | true
      ensures r in rows[1..] <==> exists i :: 0 <= i < |names| && outcome(names[i]).Some? && r == [names[i], outcome(names[i]).value]
    {
      ResultRowsSpec(names, "", outcome, |names|, r);
      forall i | 0 <= i < |names| && outcome(names[i]).Some? ensures "" + outcome(names[i]).value == outcome(names[i]).value {
      }
    }
  }
}
