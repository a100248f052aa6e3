/** enhanced_wp_crawler.py: for each name, search Bing for up to ten distinct
    hostnames, expand them with common WordPress sub-domains, and accept the
    first expanded host on which some probe (the root page or one of six
    paths, over https then http) shows a WordPress fingerprint. The hits are
    collected in completion order and written once, at the end, sorted by
    lower-cased name.

    Requests are the functions `get` and `head` (keyed by URL); the search is
    `search` (keyed by query text); `authority` is `urlsplit(href).hostname`. */
module EnhancedCrawler {
  import opened Seqs
  import opened Text
  import opened Discovery
  import opened Fingerprints
  import opened Store

  const MAX_BING_RESULTS: nat := 10
  const WP_PREFIXES: seq<string> := ["blog.", "news.", "today.", "stories.", "newsroom."]
  const WP_PATHS: seq<string> := ["/wp-json", "/wp-login.php", "/blog", "/news", "/feed", "/rss"]
  const LOGIN_PATH: string := "/wp-login.php"
  const SCHEMES: seq<string> := ["https", "http"]

  // ---------------------------------------------------------------------------
  // bing_search
  // ---------------------------------------------------------------------------

  function SearchQuery(name: string): string {
    name + " official website"
  }

  /** The hosts `bing_search` returns for one outcome: a raised request
      yields none; the status code is not looked at. */
  function SearchHosts(outcome: SearchOutcome, authority: string -> Option<string>): seq<string>
  {
    match outcome
    case SearchFailed => []
    case SearchPage(_, links) => ExtractHosts(links, authority, MAX_BING_RESULTS, true)
  }

  /** `bing_search(session, name)`. */
  method BingSearch(search: string -> SearchOutcome, authority: string -> Option<string>, name: string)
    returns (hosts: seq<string>)
    ensures hosts == SearchHosts(search(SearchQuery(name)), authority)
  {
    var outcome := search(SearchQuery(name));
    if outcome.SearchFailed? {
      return [];
    }
    hosts := CollectHosts(outcome.links, authority, MAX_BING_RESULTS, true);
  }

  /** At most ten distinct non-empty hostnames of `http` result links, in
      first-seen order, whatever the status code of the page. */
  lemma SearchHostsSpec(outcome: SearchOutcome, authority: string -> Option<string>, status: int)
    ensures var r := SearchHosts(outcome, authority);
      && |r| <= MAX_BING_RESULTS && Distinct(r)
      && (outcome.SearchFailed? ==> r == [])
      && (outcome.SearchPage? ==> forall h :: h in r ==> h != "" && FromLink(outcome.links, authority, h))
    ensures outcome.SearchPage? ==> SearchHosts(outcome, authority) == SearchHosts(SearchPage(status, outcome.links), authority)
  {
    if outcome.SearchPage? {
      ExtractHostsSound(outcome.links, authority, MAX_BING_RESULTS, true);
    }
  }

  // ---------------------------------------------------------------------------
  // expand_hosts
  // ---------------------------------------------------------------------------

  /** The base domain of a host: its last two labels when it has more than
      two, else the host itself. */
  function Base(host: string): string {
    var parts := Split(host, '.');
    if |parts| > 2 then Join(parts[|parts| - 2..], '.') else host
  }

  /** The prefixed variants of a base domain, in prefix order. */
  function Variants(base: string): seq<string>
  {
    Prefixed(WP_PREFIXES, base)
  }

  /** The list `expand_hosts` builds before removing repeats: each host
      followed by the variants of its base domain. The base-domain rule is a
      parameter (`expand_hosts` uses `Base`) so that the facts below hold for
      any rule. */
  function Expansion(hosts: seq<string>, base: string -> string): seq<string>
    decreases |hosts|
  {
    if hosts == [] then []
    else
      var h := hosts[|hosts| - 1];
      Expansion(hosts[..|hosts| - 1], base) + [h] + Variants(base(h))
  }

  lemma ExpansionSnoc(hosts: seq<string>, base: string -> string, i: nat)
    requires i < |hosts|
    ensures Expansion(hosts[..i + 1], base) == Expansion(hosts[..i], base) + [hosts[i]] + Variants(base(hosts[i]))
  {
    assert hosts[..i + 1][..i] == hosts[..i];
  }

  /** `expand_hosts(hosts)`: append each host and its variants, then keep the
      first occurrence of each. */
  method ExpandHosts(hosts: seq<string>) returns (expanded: seq<string>)
    ensures expanded == Dedupe(Expansion(hosts, Base))
  {
    var out: seq<string> := [];
    for i := 0 to |hosts|
      invariant out == Expansion(hosts[..i], Base)
    {
      var host := hosts[i];
      ExpansionSnoc(hosts, Base, i);
      out := out + [host];
      var parts := Split(host, '.');
      var base: string;
      if |parts| > 2 {
        base := Join(parts[|parts| - 2..], '.');
      } else {
        base := host;
      }
      assert base == Base(host);
      ghost var start := out;
      for k := 0 to |WP_PREFIXES|
        invariant out == start + Prefixed(WP_PREFIXES[..k], base)
      {
        var candidate := WP_PREFIXES[k] + base;
        PrefixedSnoc(WP_PREFIXES, base, k);
        out := out + [candidate];
      }
      assert WP_PREFIXES[..|WP_PREFIXES|] == WP_PREFIXES;
    }
    assert hosts[..|hosts|] == hosts;
    expanded := Dedupe(out);
  }

  /** Every host contributes six entries. */
  lemma {:induction false} ExpansionLength(hosts: seq<string>, base: string -> string)
    ensures |Expansion(hosts, base)| == |hosts| * (1 + |WP_PREFIXES|)
    decreases |hosts|
  {
    if hosts != [] {
      var n := |hosts| - 1;
      var m := 1 + |WP_PREFIXES|;
      ExpansionLength(hosts[..n], base);
      PrefixedSpec(WP_PREFIXES, base(hosts[n]));
      assert |Expansion(hosts, base)| == |Expansion(hosts[..n], base)| + m;
      assert n * m + m == (n + 1) * m;
    }
  }

  /** The entries for the first i hosts come first, each host followed by
      its variants. */
  lemma {:induction false} ExpansionPrefix(hosts: seq<string>, base: string -> string, i: nat)
    requires i <= |hosts|
    ensures IsPrefix(Expansion(hosts[..i], base), Expansion(hosts, base))
    decreases |hosts|
  {
    if i == |hosts| {
      assert hosts[..i] == hosts;
    } else {
      var n := |hosts| - 1;
      var init := hosts[..n];
      ExpansionPrefix(init, base, i);
      assert init[..i] == hosts[..i];
      var e := Expansion(init, base);
      PrefixOfAppend(e, [hosts[n]] + Variants(base(hosts[n])));
      assert Expansion(hosts, base) == e + ([hosts[n]] + Variants(base(hosts[n])));
      PrefixTrans(Expansion(hosts[..i], base), e, Expansion(hosts, base));
    }
  }

  /** Host i is followed at once by its own variants in the expansion. */
  lemma ExpansionOrder(hosts: seq<string>, base: string -> string, i: nat)
    requires i < |hosts|
    ensures IsPrefix(Expansion(hosts[..i], base) + [hosts[i]] + Variants(base(hosts[i])), Expansion(hosts, base))
  {
    ExpansionPrefix(hosts, base, i + 1);
    ExpansionSnoc(hosts, base, i);
  }

  /** Host i or its variant k. */
  predicate ExpandedFrom(hosts: seq<string>, base: string -> string, x: string, i: nat, k: nat) {
    i < |hosts| && k < |WP_PREFIXES| && (x == hosts[i] || x == WP_PREFIXES[k] + base(hosts[i]))
  }

  /** An element of the expansion is one of the hosts or a prefix followed
      by the base domain of one of them, and every such string occurs. */
  lemma ExpansionMembers(hosts: seq<string>, base: string -> string, x: string)
    ensures x in Expansion(hosts, base) <==> exists i: nat, k: nat :: ExpandedFrom(hosts, base, x, i, k)
  {
    if x in Expansion(hosts, base) {
      var i, k := ExpansionMemberFrom(hosts, base, x);
    }
    if exists i: nat, k: nat :: ExpandedFrom(hosts, base, x, i, k) {
      var i: nat, k: nat :| ExpandedFrom(hosts, base, x, i, k);
      ExpansionHasMember(hosts, base, x, i, k);
    }
  }

  lemma {:induction false} ExpansionMemberFrom(hosts: seq<string>, base: string -> string, x: string)
    returns (i: nat, k: nat)
    requires x in Expansion(hosts, base)
    ensures ExpandedFrom(hosts, base, x, i, k)
    decreases |hosts|
  {
    var n := |hosts| - 1;
    var init, h := hosts[..n], hosts[n];
    assert Expansion(hosts, base) == Expansion(init, base) + [h] + Variants(base(h));
    if x in Expansion(init, base) {
      i, k := ExpansionMemberFrom(init, base, x);
      assert init[i] == hosts[i];
    } else if x == h {
      i, k := n, 0;
    } else {
      i := n;
      k := VariantIndex(base(h), x);
    }
  }

  lemma {:induction false} ExpansionHasMember(hosts: seq<string>, base: string -> string, x: string, i: nat, k: nat)
    requires ExpandedFrom(hosts, base, x, i, k)
    ensures x in Expansion(hosts, base)
    decreases |hosts|
  {
    var n := |hosts| - 1;
    var init, h := hosts[..n], hosts[n];
    assert Expansion(hosts, base) == Expansion(init, base) + [h] + Variants(base(h));
    if i < n {
      assert init[i] == hosts[i];
      ExpansionHasMember(init, base, x, i, k);
    } else if x != h {
      VariantAt(base(h), k);
    }
  }

  /** Which prefix a variant carries. */
  lemma VariantIndex(b: string, x: string) returns (k: nat)
    requires x in Variants(b)
    ensures k < |WP_PREFIXES| && x == WP_PREFIXES[k] + b
  {
    PrefixedSpec(WP_PREFIXES, b);
    var j :| 0 <= j < |Variants(b)| && Variants(b)[j] == x;
    k := j;
  }

  lemma VariantAt(b: string, k: nat)
    requires k < |WP_PREFIXES|
    ensures WP_PREFIXES[k] + b in Variants(b)
  {
    PrefixedSpec(WP_PREFIXES, b);
    assert Variants(b)[k] == WP_PREFIXES[k] + b;
  }

  /** `expand_hosts` returns no repeats, at most six entries per host, and
      exactly the hosts and their prefixed base domains. */
  lemma ExpandHostsSpec(hosts: seq<string>, base: string -> string, x: string)
    ensures var r := Dedupe(Expansion(hosts, base));
      && Distinct(r)
      && |r| <= |hosts| * (1 + |WP_PREFIXES|)
      && (x in r <==> exists i: nat, k: nat :: ExpandedFrom(hosts, base, x, i, k))
  {
    DedupeDistinct(Expansion(hosts, base));
    DedupeElements(Expansion(hosts, base));
    ExpansionMembers(hosts, base, x);
    ExpansionLength(hosts, base);
  }

  /** A host's own base domain is a suffix of it: its last two labels. */
  lemma BaseIsLastLabels(host: string)
    ensures var parts := Split(host, '.');
      |parts| > 2 ==> Base(host) == parts[|parts| - 2] + "." + parts[|parts| - 1]
    ensures |Split(host, '.')| <= 2 ==> Base(host) == host
  {
    var parts := Split(host, '.');
    if |parts| > 2 {
      var last2 := parts[|parts| - 2..];
      assert last2 == [parts[|parts| - 2], parts[|parts| - 1]];
      assert last2[1..] == [parts[|parts| - 1]];
      assert Join(last2[1..], '.') == parts[|parts| - 1];
    }
  }

  // ---------------------------------------------------------------------------
  // fetch_text, head_ok, test_host
  // ---------------------------------------------------------------------------

  /** `fetch_text`: the body of a response below 400 with a text content
      type, else "". */
  function FetchText(r: Fetch): string {
    match r
    case Failed => ""
    case Reply(status, contentType, body) => if status < 400 && StartsWith(contentType, "text") then body else ""
  }

  /** `head_ok`: a HEAD response below 400. */
  predicate HeadOk(r: Fetch) {
    r.Reply? && r.status < 400
  }

  /** A fetch that failed or was refused yields "", where WP_RE finds
      nothing: only a readable text page can count as a match. */
  lemma FailedFetchNeverMatches(r: Fetch)
    requires !(r.Reply? && r.status < 400 && StartsWith(r.contentType, "text"))
    ensures !AnyLiteral(ENHANCED_LITERALS, FetchText(r))
  {
    TablesHaveNoEmptyLiteral();
    NothingInEmptyBody(ENHANCED_LITERALS);
  }

  /** Probe k of scheme s: the root page (k = 0), or path k - 1 after the
      host with trailing slashes removed. */
  function ProbeUrl(host: string, s: nat, k: nat): Url
    requires s < |SCHEMES| && k <= |WP_PATHS|
  {
    if k == 0 then Url(SCHEMES[s], host, "") else Url(SCHEMES[s], RStripChar(host, '/'), WP_PATHS[k - 1])
  }

  /** Probe k of scheme s succeeds: the login page by a HEAD below 400,
      every other page by a fingerprint in its text. */
  predicate ProbeOk(get: Url -> Fetch, head: Url -> Fetch, host: string, s: nat, k: nat)
    requires s < |SCHEMES| && k <= |WP_PATHS|
  {
    if k > 0 && WP_PATHS[k - 1] == LOGIN_PATH then HeadOk(head(ProbeUrl(host, s, k)))
    else AnyLiteral(ENHANCED_LITERALS, FetchText(get(ProbeUrl(host, s, k))))
  }

  /** Some probe from (s, k) on, in the loops' order, succeeds. */
  predicate PassesFrom(get: Url -> Fetch, head: Url -> Fetch, host: string, s: nat, k: nat)
    decreases |SCHEMES| - s, |WP_PATHS| + 1 - k
  {
    if s >= |SCHEMES| then false
    else if k > |WP_PATHS| then PassesFrom(get, head, host, s + 1, 0)
    else ProbeOk(get, head, host, s, k) || PassesFrom(get, head, host, s, k + 1)
  }

  /** The number of probes made from (s, k) on: up to and including the
      first success. */
  function ProbesFrom(get: Url -> Fetch, head: Url -> Fetch, host: string, s: nat, k: nat): nat
    decreases |SCHEMES| - s, |WP_PATHS| + 1 - k
  {
    if s >= |SCHEMES| then 0
    else if k > |WP_PATHS| then ProbesFrom(get, head, host, s + 1, 0)
    else if ProbeOk(get, head, host, s, k) then 1
    else 1 + ProbesFrom(get, head, host, s, k + 1)
  }

  /** `test_host(session, host)`: for https then http, the root page, then
      each path in table order; True at the first success. `probes` counts
      the requests made. */
  method TestHost(get: Url -> Fetch, head: Url -> Fetch, host: string) returns (ok: bool, ghost probes: nat)
    ensures ok == PassesFrom(get, head, host, 0, 0)
    ensures probes == ProbesFrom(get, head, host, 0, 0)
  {
    ghost var pass0 := PassesFrom(get, head, host, 0, 0);
    ghost var probes0 := ProbesFrom(get, head, host, 0, 0);
    probes := 0;
    for s := 0 to |SCHEMES|
      invariant pass0 == PassesFrom(get, head, host, s, 0)
      invariant probes0 == probes + ProbesFrom(get, head, host, s, 0)
    {
      var scheme := SCHEMES[s];
      var html := FetchText(get(Url(scheme, host, "")));
      probes := probes + 1;
      if AnyLiteral(ENHANCED_LITERALS, html) {
        return true, probes;
      }
      var found, pathProbes := TestPaths(get, head, host, s);
      PassesFromPaths(get, head, host, s, 1);
      probes := probes + pathProbes;
      if found {
        return true, probes;
      }
    }
    ok := false;
  }

  /** The inner loop of `test_host` for scheme s: each path in table order,
      the login page by HEAD and the others by their text, up to the first
      success. */
  method TestPaths(get: Url -> Fetch, head: Url -> Fetch, host: string, s: nat) returns (ok: bool, ghost probes: nat)
    requires s < |SCHEMES|
    ensures ok == PathsPassFrom(get, head, host, s, 1)
    ensures probes == PathProbesFrom(get, head, host, s, 1)
  {
    ghost var ok1 := PathsPassFrom(get, head, host, s, 1);
    ghost var probes1 := PathProbesFrom(get, head, host, s, 1);
    probes := 0;
    for k := 0 to |WP_PATHS|
      invariant ok1 == PathsPassFrom(get, head, host, s, k + 1)
      invariant probes1 == probes + PathProbesFrom(get, head, host, s, k + 1)
    {
      var hit := TestPath(get, head, host, s, k);
      probes := probes + 1;
      if hit {
        return true, probes;
      }
    }
    ok := false;
  }

  /** Some path probe of scheme s from path k - 1 on succeeds. */
  predicate PathsPassFrom(get: Url -> Fetch, head: Url -> Fetch, host: string, s: nat, k: nat)
    requires s < |SCHEMES|
    decreases |WP_PATHS| + 1 - k
  {
    if k == 0 || k > |WP_PATHS| then false
    else ProbeOk(get, head, host, s, k) || PathsPassFrom(get, head, host, s, k + 1)
  }

  /** The number of path probes of scheme s made from path k - 1 on. */
  function PathProbesFrom(get: Url -> Fetch, head: Url -> Fetch, host: string, s: nat, k: nat): nat
    requires s < |SCHEMES|
    decreases |WP_PATHS| + 1 - k
  {
    if k == 0 || k > |WP_PATHS| then 0
    else if ProbeOk(get, head, host, s, k) then 1
    else 1 + PathProbesFrom(get, head, host, s, k + 1)
  }

  /** The walk from path k - 1 of scheme s is the path loop followed, when
      that fails, by the walk from the next scheme. */
  lemma {:induction false} PassesFromPaths(get: Url -> Fetch, head: Url -> Fetch, host: string, s: nat, k: nat)
    requires s < |SCHEMES| && 1 <= k <= |WP_PATHS| + 1
    ensures PassesFrom(get, head, host, s, k)
            == (PathsPassFrom(get, head, host, s, k) || PassesFrom(get, head, host, s + 1, 0))
    ensures ProbesFrom(get, head, host, s, k) == PathProbesFrom(get, head, host, s, k)
            + (if PathsPassFrom(get, head, host, s, k) then 0 else ProbesFrom(get, head, host, s + 1, 0))
    decreases |WP_PATHS| + 1 - k
  {
    if k <= |WP_PATHS| {
      PassesFromPaths(get, head, host, s, k + 1);
    }
  }

  /** `PathsPassFrom` holds exactly when one of the path probes from k on
      succeeds. */
  lemma {:induction false} PathsPassFromSpec(get: Url -> Fetch, head: Url -> Fetch, host: string, s: nat, k: nat)
    requires s < |SCHEMES| && 1 <= k
    ensures PathsPassFrom(get, head, host, s, k) <==> exists j :: k <= j <= |WP_PATHS| && ProbeOk(get, head, host, s, j)
    decreases |WP_PATHS| + 1 - k
  {
    if k <= |WP_PATHS| {
      PathsPassFromSpec(get, head, host, s, k + 1);
      if PathsPassFrom(get, head, host, s, k + 1) {
        var j :| k + 1 <= j <= |WP_PATHS| && ProbeOk(get, head, host, s, j);
      }
    }
  }

  /** One step of the inner loop: path k of the table after the host with
      trailing slashes removed, the login page by HEAD and the others by
      their text. */
  method TestPath(get: Url -> Fetch, head: Url -> Fetch, host: string, s: nat, k: nat) returns (hit: bool)
    requires s < |SCHEMES| && k < |WP_PATHS|
    ensures hit == ProbeOk(get, head, host, s, k + 1)
  {
    var p := WP_PATHS[k];
    var url := Url(SCHEMES[s], RStripChar(host, '/'), p);
    if p == LOGIN_PATH {
      hit := HeadOk(head(url));
    } else {
      var html := FetchText(get(url));
      hit := AnyLiteral(ENHANCED_LITERALS, html);
    }
  }

  /** The probe order: from (s, k), the walk succeeds exactly when some later
      probe in the order (schemes first, then the root and the paths)
      succeeds; and it stops at the first success, after `Position(a, b) -
      Position(s, k) + 1` probes. */
  function Position(s: nat, k: nat): nat {
    s * (|WP_PATHS| + 1) + k
  }

  lemma {:induction false} PassesFromSpec(get: Url -> Fetch, head: Url -> Fetch, host: string, s: nat, k: nat)
    requires k <= |WP_PATHS| + 1
    ensures PassesFrom(get, head, host, s, k) <==>
      exists a: nat, b: nat :: a < |SCHEMES| && b <= |WP_PATHS| && Position(s, k) <= Position(a, b)
        && ProbeOk(get, head, host, a, b)
    decreases |SCHEMES| - s, |WP_PATHS| + 1 - k
  {
    if s < |SCHEMES| {
      if k > |WP_PATHS| {
        PassesFromSpec(get, head, host, s + 1, 0);
      } else {
        PassesFromSpec(get, head, host, s, k + 1);
        if ProbeOk(get, head, host, s, k) {
          assert Position(s, k) <= Position(s, k);
        }
        if exists a: nat, b: nat :: a < |SCHEMES| && b <= |WP_PATHS| && Position(s, k) <= Position(a, b)
            && ProbeOk(get, head, host, a, b) {
          var a: nat, b: nat :| a < |SCHEMES| && b <= |WP_PATHS| && Position(s, k) <= Position(a, b)
            && ProbeOk(get, head, host, a, b);
          if a != s || b != k {
            assert Position(s, k + 1) <= Position(a, b);
          }
        }
      }
    }
  }

  // ---------------------------------------------------------------------------
  // process_name
  // ---------------------------------------------------------------------------

  /** A detected site: the organisation name and the expanded host that
      passed `test_host`. */
  datatype Hit = Hit(name: string, host: string)

  /** `test_host` as a verdict on a host. */
  function HostPasses(get: Url -> Fetch, head: Url -> Fetch): string -> bool {
    h => PassesFrom(get, head, h, 0, 0)
  }

  /** The hosts `process_name` tests, in order: the expansion of the search
      hosts, or none when the search found none. */
  function Targets(search: string -> SearchOutcome, authority: string -> Option<string>, name: string): seq<string>
  {
    var hosts := SearchHosts(search(SearchQuery(name)), authority);
    if hosts == [] then [] else Dedupe(Expansion(hosts, Base))
  }

  /** What `process_name` returns: the pair for the first target that
      passes, if any. */
  function NameOutcome(search: string -> SearchOutcome, get: Url -> Fetch, head: Url -> Fetch,
                       authority: string -> Option<string>, name: string): Option<Hit>
  {
    var targets := Targets(search, authority, name);
    var hit := FirstFrom(targets, HostPasses(get, head), 0);
    if hit.Some? then Some(Hit(name, targets[hit.value])) else None
  }

  /** `process_name(name, ...)`: search, expand, and test the expanded hosts
      in order up to the first that passes. `tested` counts the hosts tested. */
  method ProcessName(search: string -> SearchOutcome, get: Url -> Fetch, head: Url -> Fetch,
                     authority: string -> Option<string>, name: string)
    returns (r: Option<Hit>, ghost tested: nat)
    ensures r == NameOutcome(search, get, head, authority, name)
    ensures var targets := Targets(search, authority, name);
      var hit := FirstFrom(targets, HostPasses(get, head), 0);
      tested == if hit.Some? then hit.value + 1 else |targets|
  {
    var hosts := BingSearch(search, authority, name);
    if hosts == [] {
      return None, 0;
    }
    var expanded := ExpandHosts(hosts);
    ghost var passes := HostPasses(get, head);
    ghost var hit := FirstFrom(expanded, passes, 0);
    for i := 0 to |expanded|
      invariant hit == FirstFrom(expanded, passes, i)
    {
      var isWp, _ := TestHost(get, head, expanded[i]);
      if isWp {
        return Some(Hit(name, expanded[i])), i + 1;
      }
    }
    return None, |expanded|;
  }

  /** `process_name` returns a pair exactly when some expanded host passes;
      the pair holds the name and the first such host, and every host tested
      before it failed. */
  lemma NameOutcomeSpec(search: string -> SearchOutcome, get: Url -> Fetch, head: Url -> Fetch,
                        authority: string -> Option<string>, name: string)
    ensures var r, targets := NameOutcome(search, get, head, authority, name), Targets(search, authority, name);
      && (r.Some? <==> exists k :: 0 <= k < |targets| && PassesFrom(get, head, targets[k], 0, 0))
      && (r.Some? ==>
            exists k :: 0 <= k < |targets| && r.value == Hit(name, targets[k])
              && PassesFrom(get, head, targets[k], 0, 0)
              && (forall j :: 0 <= j < k ==> !PassesFrom(get, head, targets[j], 0, 0)))
  {
    var targets := Targets(search, authority, name);
    var passes := HostPasses(get, head);
    FirstFromSpec(targets, passes, 0);
    var hit := FirstFrom(targets, passes, 0);
    if hit.Some? {
      var k := hit.value;
      assert passes(targets[k]);
      assert forall j :: 0 <= j < k ==> !passes(targets[j]);
    } else {
      assert forall j :: 0 <= j < |targets| ==> !passes(targets[j]);
    }
  }

  /** A search that finds no host yields no pair. */
  lemma NoHostsNoHit(search: string -> SearchOutcome, get: Url -> Fetch, head: Url -> Fetch,
                     authority: string -> Option<string>, name: string)
    requires SearchHosts(search(SearchQuery(name)), authority) == []
    ensures NameOutcome(search, get, head, authority, name) == None
  {
  }

  // ---------------------------------------------------------------------------
  // run: results in completion order, sorted by lower-cased name, written once
  // ---------------------------------------------------------------------------

  /** The sort key `x[0].lower()`: hits are compared by lower-cased name. */
  predicate NameLe(a: Hit, b: Hit) {
    LexLe(Lower(a.name), Lower(b.name))
  }

  predicate SortedByName(s: seq<Hit>) {
    forall i, j :: 0 <= i < j < |s| ==> NameLe(s[i], s[j])
  }

  /** Insert x after every element whose key is at most x's. */
  function Insert(s: seq<Hit>, x: Hit): seq<Hit>
    decreases |s|
  {
    if s == [] then [x]
    else if NameLe(s[|s| - 1], x) then s + [x]
    else Insert(s[..|s| - 1], x) + [s[|s| - 1]]
  }

  /** `sorted(results, key=lambda x: x[0].lower())`, as a stable insertion
      sort. */
  function SortByName(s: seq<Hit>): seq<Hit>
    decreases |s|
  {
    if s == [] then [] else Insert(SortByName(s[..|s| - 1]), s[|s| - 1])
  }

  lemma {:induction false} InsertPermutes(s: seq<Hit>, x: Hit)
    ensures multiset(Insert(s, x)) == multiset(s) + multiset{x}
    decreases |s|
  {
    if s != [] && !NameLe(s[|s| - 1], x) {
      var init := s[..|s| - 1];
      InsertPermutes(init, x);
      assert s == init + [s[|s| - 1]];
    }
  }

  lemma {:induction false} InsertSorted(s: seq<Hit>, x: Hit)
    requires SortedByName(s)
    ensures SortedByName(Insert(s, x))
    decreases |s|
  {
    if s != [] {
      var last := s[|s| - 1];
      var init := s[..|s| - 1];
      if NameLe(last, x) {
        var r := s + [x];
        forall i, j | 0 <= i < j < |r| ensures NameLe(r[i], r[j]) {
          if j == |s| && i < |s| - 1 {
            LexLeTrans(Lower(s[i].name), Lower(last.name), Lower(x.name));
          }
        }
      } else {
        InsertSorted(init, x);
        InsertPermutes(init, x);
        var m := Insert(init, x);
        var r := m + [last];
        LexLeTotal(Lower(last.name), Lower(x.name));
        forall i | 0 <= i < |m| ensures NameLe(m[i], last) {
          assert m[i] in multiset(init) + multiset{x};
          if m[i] != x {
            assert m[i] in init;
          }
        }
      }
    }
  }

  /** The sorted list is ordered by lower-cased name. */
  lemma {:induction false} SortByNameSorted(s: seq<Hit>)
    ensures SortedByName(SortByName(s))
    decreases |s|
  {
    if s != [] {
      var init := s[..|s| - 1];
      SortByNameSorted(init);
      InsertSorted(SortByName(init), s[|s| - 1]);
    }
  }

  /** The sorted list is a rearrangement of the input. */
  lemma {:induction false} SortByNamePermutes(s: seq<Hit>)
    ensures multiset(SortByName(s)) == multiset(s)
    decreases |s|
  {
    if s != [] {
      var init, last := s[..|s| - 1], s[|s| - 1];
      SortByNamePermutes(init);
      InsertPermutes(SortByName(init), last);
      assert s == init + [last];
    }
  }

  /** The rows `w.writerows(results_sorted)` writes. */
  function HitRows(hits: seq<Hit>): (rows: seq<Row>)
    ensures |rows| == |hits| && forall k :: 0 <= k < |hits| ==> rows[k] == [hits[k].name, hits[k].host]
  {
    seq(|hits|, k requires 0 <= k < |hits| => [hits[k].name, hits[k].host])
  }

  /** `process_name` as a function of the name. */
  function Outcome(search: string -> SearchOutcome, get: Url -> Fetch, head: Url -> Fetch,
                   authority: string -> Option<string>): string -> Option<Hit>
  {
    name => NameOutcome(search, get, head, authority, name)
  }

  /** The pair, if any, of the task for name index i. */
  function FoundIn(names: seq<string>, outcome: string -> Option<Hit>): nat -> seq<Hit> {
    (i: nat) => if i < |names| && outcome(names[i]).Some? then [outcome(names[i]).value] else []
  }

  /** In input order, the pairs are exactly the outcomes of the names that
      have one. */
  lemma HitsInInputOrder(names: seq<string>, n: nat, outcome: string -> Option<Hit>, h: Hit)
    requires n <= |names|
    ensures h in Gather(Indices(n), FoundIn(names, outcome)) <==> exists i :: 0 <= i < n && outcome(names[i]) == Some(h)
  {
    var found := FoundIn(names, outcome);
    GatherIndicesMembers(n, found, h);
    if h in Gather(Indices(n), found) {
      var i :| 0 <= i < n && h in found(i);
      assert outcome(names[i]) == Some(h);
    }
    if exists i :: 0 <= i < n && outcome(names[i]) == Some(h) {
      var i :| 0 <= i < n && outcome(names[i]) == Some(h);
      assert h in found(i);
    }
  }

  /** `run()`: load the names, run one task per name, collect the pairs in
      completion order (`order`), sort them by lower-cased name and write the
      file once, header first. A missing input file raises. */
  method Run(input: CsvFile, out: CsvFile, search: string -> SearchOutcome, get: Url -> Fetch, head: Url -> Fetch,
             authority: string -> Option<string>, order: seq<nat>)
    returns (ghost results: seq<Hit>)
    modifies out
    requires input.present
    requires IsOrdering(order, |NamesAfterFirstRow(input.rows)|)
    ensures results == Gather(order, FoundIn(NamesAfterFirstRow(old(input.rows)), Outcome(search, get, head, authority)))
    ensures out.Valid() && out.present && out.rows == [HEADER] + HitRows(SortByName(results))
  {
    var names := LoadNamesAfterFirstRow(input.rows);
    var hits := CollectResults(search, get, head, authority, names, order);
    results := hits;
    var sorted := SortByName(hits);
    out.Overwrite([HEADER] + HitRows(sorted));
  }

  /** The `as_completed` loop of `run()`: append each task's pair, if any, in
      completion order. */
  method CollectResults(search: string -> SearchOutcome, get: Url -> Fetch, head: Url -> Fetch,
                        authority: string -> Option<string>, names: seq<string>, order: seq<nat>)
    returns (hits: seq<Hit>)
    requires IsOrdering(order, |names|)
    ensures hits == Gather(order, FoundIn(names, Outcome(search, get, head, authority)))
  {
    ghost var found := FoundIn(names, Outcome(search, get, head, authority));
    OrderingInRange(order, |names|);
    hits := [];
    for k := 0 to |order|
      invariant hits == Gather(order[..k], found)
    {
      assert order[..k + 1][..k] == order[..k];
      var r, _ := ProcessName(search, get, head, authority, names[order[k]]);
      assert found(order[k]) == if r.Some? then [r.value] else [];
      if r.Some? {
        hits := hits + [r.value];
      }
    }
    assert order[..|order|] == order;
  }

  /** The written rows after the header are ordered by lower-cased name and
      are, up to order, the pairs of the names that have one, whatever the
      completion order. */
  lemma RunOutputSpec(names: seq<string>, order: seq<nat>, outcome: string -> Option<Hit>, h: Hit)
    requires IsOrdering(order, |names|)
    ensures var sorted := SortByName(Gather(order, FoundIn(names, outcome)));
      && SortedByName(sorted)
      && multiset(sorted) == multiset(Gather(Indices(|names|), FoundIn(names, outcome)))
      && (h in sorted <==> exists i :: 0 <= i < |names| && outcome(names[i]) == Some(h))
  {
    var found := FoundIn(names, outcome);
    var hits := Gather(order, found);
    var inOrder := Gather(Indices(|names|), found);
    SortByNameSorted(hits);
    SortByNamePermutes(hits);
    GatherPermutation(order, Indices(|names|), found);
    HitsInInputOrder(names, |names|, outcome, h);
    assert h in SortByName(hits) <==> h in multiset(SortByName(hits));
    assert h in inOrder <==> h in multiset(inOrder);
  }
}
