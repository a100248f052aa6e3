/** background_wp_crawler.py: a sequential crawler over the `Network Name`
    column of the input file. For every name it asks Bing for at most two
    distinct hosts and walks, for each host, every sub-domain prefix and
    every path over https, until a page answers 200 with a WordPress
    fingerprint; the base host is then appended to the output file at once.

    Delays, the progress log and the console are not modelled. */
module BackgroundCrawler {
  import opened Seqs
  import opened Text
  import opened Discovery
  import opened Fingerprints
  import opened Store

  const MAX_BING_RESULTS: nat := 2
  const WP_PREFIXES: seq<string> := ["", "www.", "blog.", "news.", "media.", "press."]
  const WP_PATHS: seq<string> := ["/", "/blog", "/news", "/wp-json/wp/v2", "/wp-login.php", "/wp-admin", "/xmlrpc.php"]
  const NETWORK_NAME: string := "Network Name"

  // ---------------------------------------------------------------------------
  // load_idn_names: csv.DictReader over the input file.
  // ---------------------------------------------------------------------------

  /** The column a `DictReader` row dictionary takes `key` from: the last
      header cell equal to it (`dict(zip(fieldnames, row))` keeps the last). */
  function ColumnOf(header: Row, key: string): (r: Option<nat>)
    ensures r.Some? ==> (r.value < |header| && header[r.value] == key
                         && forall j :: r.value < j < |header| ==> header[j] != key)
    ensures r.None? ==> key !in header
    decreases |header|
  {
    if header == [] then None
    else if header[|header| - 1] == key then Some(|header| - 1)
    else
      var r := ColumnOf(header[..|header| - 1], key);
      assert header == header[..|header| - 1] + [header[|header| - 1]];
      r
  }

  /** The names read from the rows after the header, or None when reading
      raised. Empty rows are skipped by the reader; a header without the
      column gives every row the default ""; a row too short to reach the
      column gives None, whose `.strip()` raises. Values are stripped and
      blank ones dropped. */
  function DictNames(header: Row, body: seq<Row>): Option<seq<string>>
    decreases |body|
  {
    if body == [] then Some([])
    else
      var init := DictNames(header, body[..|body| - 1]);
      var row := body[|body| - 1];
      if init.None? || row == [] then init
      else match ColumnOf(header, NETWORK_NAME)
        case None => init
        case Some(c) =>
          if c >= |row| then None
          else if Strip(row[c]) == "" then init
          else Some(init.value + [Strip(row[c])])
  }

  /** `load_idn_names()`: a missing file or a raised read gives no names. */
  function IdnNames(present: bool, rows: seq<Row>): seq<string>
  {
    if !present || rows == [] then []
    else match DictNames(rows[0], rows[1..])
      case None => []
      case Some(names) => names
  }

  /** A row the loader reads a name from: not empty, long enough to reach
      the column c, with a non-blank value there. */
  predicate NamedRow(body: seq<Row>, c: nat, k: int) {
    0 <= k < |body| && body[k] != [] && c < |body[k]| && Strip(body[k][c]) != ""
  }

  /** A non-empty row that does not reach column c. */
  predicate ShortRow(body: seq<Row>, c: nat, k: int) {
    0 <= k < |body| && body[k] != [] && |body[k]| <= c
  }

  /** The reading loop: skip empty rows, stop with no names at the first row
      that is too short, keep the stripped non-blank values. */
  method LoadIdnNames(input: CsvFile) returns (names: seq<string>)
    requires input.Valid()
    ensures names == IdnNames(input.present, input.rows)
  {
    if !input.present || input.rows == [] {
      return [];
    }
    var header, body := input.rows[0], input.rows[1..];
    var column := ColumnOf(header, NETWORK_NAME);
    names := [];
    for k := 0 to |body|
      invariant DictNames(header, body[..k]) == Some(names)
    {
      assert body[..k + 1][..k] == body[..k];
      var row := body[k];
      if row == [] || column.None? {
        continue;
      }
      var c := column.value;
      if c >= |row| {
        DictNamesRaised(header, body, k + 1);
        assert body[..|body|] == body;
        return [];
      }
      var name := Strip(row[c]);
      if name != "" {
        names := names + [name];
      }
    }
    assert body[..|body|] == body;
  }

  /** Once reading has raised, it stays raised. */
  lemma {:induction false} DictNamesRaised(header: Row, body: seq<Row>, k: nat)
    requires k <= |body| && DictNames(header, body[..k]).None?
    ensures DictNames(header, body).None?
    decreases |body| - k
  {
    if k < |body| {
      assert body[..k + 1][..k] == body[..k];
      DictNamesRaised(header, body, k + 1);
    } else {
      assert body[..k] == body;
    }
  }

  /** Reading raises exactly when the header has the column and some
      non-empty row is too short to reach it. */
  lemma {:induction false} DictNamesRaisesIffShortRow(header: Row, body: seq<Row>)
    ensures DictNames(header, body).None? <==>
      ColumnOf(header, NETWORK_NAME).Some? && exists k :: ShortRow(body, ColumnOf(header, NETWORK_NAME).value, k)
    decreases |body|
  {
    if body != [] {
      var init, last := body[..|body| - 1], |body| - 1;
      DictNamesRaisesIffShortRow(header, init);
      var col := ColumnOf(header, NETWORK_NAME);
      if col.Some? {
        var c := col.value;
        if exists k :: ShortRow(init, c, k) {
          var k :| ShortRow(init, c, k);
          assert ShortRow(body, c, k);
        } else if ShortRow(body, c, last) {
          assert DictNames(header, body).None?;
        } else {
          forall k | ShortRow(body, c, k) ensures false {
            assert ShortRow(init, c, k);
          }
          assert DictNames(header, body).Some?;
        }
      }
    }
  }

  /** A header without the column yields no names. */
  lemma {:induction false} DictNamesNoColumn(header: Row, body: seq<Row>)
    requires ColumnOf(header, NETWORK_NAME).None?
    ensures DictNames(header, body) == Some([])
    decreases |body|
  {
    if body != [] {
      DictNamesNoColumn(header, body[..|body| - 1]);
    }
  }

  /** Every loaded name is stripped and not blank. */
  lemma {:induction false} DictNamesClean(header: Row, body: seq<Row>)
    requires DictNames(header, body).Some?
    ensures forall m :: m in DictNames(header, body).value ==> m != "" && Strip(m) == m
    decreases |body|
  {
    if body != [] {
      var init, row := body[..|body| - 1], body[|body| - 1];
      DictNamesClean(header, init);
      var col := ColumnOf(header, NETWORK_NAME);
      if row != [] && col.Some? && col.value < |row| {
        StripIdempotent(row[col.value]);
      }
    }
  }

  /** When reading succeeds, the names are the stripped non-blank values of
      the column: each comes from a named row, and every named row gives its
      name. */
  lemma {:induction false} DictNamesMembers(header: Row, body: seq<Row>, n: string)
    requires DictNames(header, body).Some? && ColumnOf(header, NETWORK_NAME).Some?
    ensures var c := ColumnOf(header, NETWORK_NAME).value;
      n in DictNames(header, body).value <==> exists k :: NamedRow(body, c, k) && Strip(body[k][c]) == n
    decreases |body|
  {
    if body != [] {
      var init, last := body[..|body| - 1], |body| - 1;
      var c := ColumnOf(header, NETWORK_NAME).value;
      DictNamesMembers(header, init, n);
      if exists k :: NamedRow(init, c, k) && Strip(init[k][c]) == n {
        var k :| NamedRow(init, c, k) && Strip(init[k][c]) == n;
        assert NamedRow(body, c, k) && body[k] == init[k];
      }
      if exists k :: NamedRow(body, c, k) && Strip(body[k][c]) == n {
        var k :| NamedRow(body, c, k) && Strip(body[k][c]) == n;
        if k < last {
          assert NamedRow(init, c, k) && body[k] == init[k];
        }
      }
    }
  }

  /** One non-empty row too short to reach the name column loses every name
      of the file, those of the rows before it included. */
  lemma ShortRowLosesAllNames(rows: seq<Row>, k: nat)
    requires |rows| >= 1 && ColumnOf(rows[0], NETWORK_NAME).Some?
    requires ShortRow(rows[1..], ColumnOf(rows[0], NETWORK_NAME).value, k)
    ensures IdnNames(true, rows) == []
  {
    DictNamesRaisesIffShortRow(rows[0], rows[1..]);
  }

  // ---------------------------------------------------------------------------
  // search_bing
  // ---------------------------------------------------------------------------

  /** The hosts `search_bing(name)` returns for one Bing outcome: the first
      two distinct hosts of a 200 page, nothing otherwise. */
  function SearchHosts(outcome: SearchOutcome, authority: string -> Option<string>): seq<string>
  {
    if outcome.SearchPage? && outcome.status == 200 then ExtractHosts(outcome.links, authority, MAX_BING_RESULTS, true)
    else []
  }

  method SearchBing(search: string -> SearchOutcome, authority: string -> Option<string>, query: string)
    returns (domains: seq<string>)
    ensures domains == SearchHosts(search(query), authority)
  {
    var outcome := search(query);
    if outcome.SearchFailed? || outcome.status != 200 {
      return [];
    }
    domains := CollectHosts(outcome.links, authority, MAX_BING_RESULTS, true);
  }

  /** At most two distinct non-empty hosts of `http` result links, in
      first-seen order; nothing unless the status is 200. */
  lemma SearchHostsSpec(outcome: SearchOutcome, authority: string -> Option<string>, i: nat, j: nat)
    ensures !(outcome.SearchPage? && outcome.status == 200) ==> SearchHosts(outcome, authority) == []
    ensures var r := SearchHosts(outcome, authority);
      && |r| <= MAX_BING_RESULTS && Distinct(r)
      && (forall h :: h in r ==> h != "" && outcome.SearchPage? && FromLink(outcome.links, authority, h))
    ensures outcome.SearchPage? && i < j < |SearchHosts(outcome, authority)| ==>
      var r, all := SearchHosts(outcome, authority), LinkHosts(outcome.links, authority);
      r[i] in all && r[j] in all && IndexOf(all, r[i]) < IndexOf(all, r[j])
  {
    if outcome.SearchPage? && outcome.status == 200 {
      ExtractHostsSound(outcome.links, authority, MAX_BING_RESULTS, true);
      if i < j < |SearchHosts(outcome, authority)| {
        ExtractHostsFirstSeen(outcome.links, authority, MAX_BING_RESULTS, i, j);
      }
    }
  }

  // ---------------------------------------------------------------------------
  // test_wordpress and the probe walk of check_idn_for_wordpress.
  // ---------------------------------------------------------------------------

  /** `test_wordpress(url)`: a 200 answer whose body matches a fingerprint;
      any other status, or a raised request, is False. */
  predicate TestWordpress(r: Fetch) {
    r.Reply? && r.status == 200 && Detects(BACKGROUND_PATTERNS, r.body)
  }

  /** One probe of the walk: the base domain it is made for, and the URL. */
  datatype Probe = Probe(domain: string, url: Url)

  /** The probes for one domain, prefix-major: `https://` + prefix + domain
      + path, for each prefix and then each path. */
  function DomainTable(domain: string): seq<seq<Probe>>
  {
    seq(|WP_PREFIXES|, p requires 0 <= p < |WP_PREFIXES| =>
      seq(|WP_PATHS|, q requires 0 <= q < |WP_PATHS| => Probe(domain, Url("https", WP_PREFIXES[p] + domain, WP_PATHS[q]))))
  }

  function DomainProbes(domain: string): seq<Probe> {
    Concat(DomainTable(domain))
  }

  /** The probe sequence for a name: the domains' probes, domain after domain. */
  function NameTable(domains: seq<string>): seq<seq<Probe>>
  {
    seq(|domains|, i requires 0 <= i < |domains| => DomainProbes(domains[i]))
  }

  function NameProbes(domains: seq<string>): seq<Probe> {
    Concat(NameTable(domains))
  }

  const PROBES_PER_DOMAIN: nat := |WP_PREFIXES| * |WP_PATHS|

  lemma DomainProbesLength(domain: string)
    ensures |DomainProbes(domain)| == PROBES_PER_DOMAIN
  {
    ConcatUniformLength(DomainTable(domain), |WP_PATHS|);
  }

  lemma NameTableUniform(domains: seq<string>)
    ensures forall i :: 0 <= i < |domains| ==> |NameTable(domains)[i]| == PROBES_PER_DOMAIN
  {
    forall i | 0 <= i < |domains| ensures |NameTable(domains)[i]| == PROBES_PER_DOMAIN {
      DomainProbesLength(domains[i]);
    }
  }

  /** Probe p * 7 + q of a domain is prefix p with path q. */
  lemma DomainProbeAt(domain: string, p: nat, q: nat)
    requires p < |WP_PREFIXES| && q < |WP_PATHS|
    ensures p * |WP_PATHS| + q < |DomainProbes(domain)|
    ensures DomainProbes(domain)[p * |WP_PATHS| + q] == Probe(domain, Url("https", WP_PREFIXES[p] + domain, WP_PATHS[q]))
  {
    ConcatUniformIndex(DomainTable(domain), |WP_PATHS|, p, q);
  }

  /** The probe sequence has 6 * 7 probes per domain; probe (i, p, q) is
      domain i with prefix p and path q, so each domain's first probe is
      `https://<domain>/`. */
  lemma NameProbeAt(domains: seq<string>, i: nat, p: nat, q: nat)
    requires i < |domains| && p < |WP_PREFIXES| && q < |WP_PATHS|
    ensures |NameProbes(domains)| == |domains| * PROBES_PER_DOMAIN
    ensures var k := i * PROBES_PER_DOMAIN + p * |WP_PATHS| + q;
      k < |NameProbes(domains)|
      && NameProbes(domains)[k] == Probe(domains[i], Url("https", WP_PREFIXES[p] + domains[i], WP_PATHS[q]))
    ensures NameProbes(domains)[i * PROBES_PER_DOMAIN] == Probe(domains[i], Url("https", domains[i], "/"))
  {
    NameTableUniform(domains);
    ConcatUniformLength(NameTable(domains), PROBES_PER_DOMAIN);
    DomainProbeAt(domains[i], p, q);
    ConcatUniformIndex(NameTable(domains), PROBES_PER_DOMAIN, i, p * |WP_PATHS| + q);
    DomainProbeAt(domains[i], 0, 0);
    ConcatUniformIndex(NameTable(domains), PROBES_PER_DOMAIN, i, 0);
    assert WP_PREFIXES[0] + domains[i] == domains[i];
  }

  /** The probe succeeds. */
  function Passes(fetch: Url -> Fetch): Probe -> bool {
    (pr: Probe) => TestWordpress(fetch(pr.url))
  }

  /** The prefix and path loops for one domain: stop at the first passing
      probe. `tried` is the number of requests made. */
  method TestDomain(fetch: Url -> Fetch, domain: string) returns (ok: bool, ghost tried: nat)
    ensures ok == FirstFrom(DomainProbes(domain), Passes(fetch), 0).Some?
    ensures var hit := FirstFrom(DomainProbes(domain), Passes(fetch), 0);
      tried == if hit.Some? then hit.value + 1 else PROBES_PER_DOMAIN
  {
    ghost var probes := DomainProbes(domain);
    ghost var hit := FirstFrom(probes, Passes(fetch), 0);
    DomainProbesLength(domain);
    for p := 0 to |WP_PREFIXES|
      invariant hit == FirstFrom(probes, Passes(fetch), p * |WP_PATHS|)
    {
      for q := 0 to |WP_PATHS|
        invariant hit == FirstFrom(probes, Passes(fetch), p * |WP_PATHS| + q)
      {
        var url := Url("https", WP_PREFIXES[p] + domain, WP_PATHS[q]);
        DomainProbeAt(domain, p, q);
        if TestWordpress(fetch(url)) {
          return true, p * |WP_PATHS| + q + 1;
        }
      }
    }
    ok, tried := false, PROBES_PER_DOMAIN;
  }

  /** The domain loop of `check_idn_for_wordpress`: the walk of the probe
      sequence up to its first passing probe. */
  method TestDomains(fetch: Url -> Fetch, domains: seq<string>) returns (r: Option<string>, ghost tried: nat)
    ensures var probes := NameProbes(domains);
      var hit := FirstFrom(probes, Passes(fetch), 0);
      r == if hit.Some? then Some(probes[hit.value].domain) else None
    ensures var probes := NameProbes(domains);
      var hit := FirstFrom(probes, Passes(fetch), 0);
      tried == if hit.Some? then hit.value + 1 else |probes|
  {
    ghost var probes := NameProbes(domains);
    ghost var hit := FirstFrom(probes, Passes(fetch), 0);
    NameTableUniform(domains);
    ConcatUniformLength(NameTable(domains), PROBES_PER_DOMAIN);
    tried := 0;
    for i := 0 to |domains|
      invariant hit == FirstFrom(probes, Passes(fetch), i * PROBES_PER_DOMAIN)
      invariant tried == i * PROBES_PER_DOMAIN
    {
      var ok, t := TestDomain(fetch, domains[i]);
      DomainStep(fetch, domains, i);
      if ok {
        return Some(domains[i]), i * PROBES_PER_DOMAIN + t;
      }
      tried := tried + PROBES_PER_DOMAIN;
    }
    r := None;
  }

  /** Domain i's block of the name's probe sequence: the walk from its start
      stops at the domain's first passing probe, which carries the domain, or
      goes on with the next domain's block. */
  lemma DomainStep(fetch: Url -> Fetch, domains: seq<string>, i: nat)
    requires i < |domains|
    ensures var probes, d := NameProbes(domains), FirstFrom(DomainProbes(domains[i]), Passes(fetch), 0);
      && (d.Some? ==> && i * PROBES_PER_DOMAIN + d.value < |probes|
                      && FirstFrom(probes, Passes(fetch), i * PROBES_PER_DOMAIN) == Some(i * PROBES_PER_DOMAIN + d.value)
                      && probes[i * PROBES_PER_DOMAIN + d.value].domain == domains[i])
      && (d.None? ==> FirstFrom(probes, Passes(fetch), i * PROBES_PER_DOMAIN)
                      == FirstFrom(probes, Passes(fetch), (i + 1) * PROBES_PER_DOMAIN))
  {
    var table := NameTable(domains);
    NameTableUniform(domains);
    FirstFromConcat(table, PROBES_PER_DOMAIN, Passes(fetch), i, 0);
    var d := FirstFrom(DomainProbes(domains[i]), Passes(fetch), 0);
    if d.Some? {
      FirstFromSpec(DomainProbes(domains[i]), Passes(fetch), 0);
      ConcatUniformIndex(table, PROBES_PER_DOMAIN, i, d.value);
      DomainProbeDomain(domains[i], d.value);
    }
  }

  /** Every probe made for a domain carries it. */
  lemma DomainProbeDomain(domain: string, k: nat)
    requires k < |DomainProbes(domain)|
    ensures DomainProbes(domain)[k].domain == domain
  {
    var p, q := ConcatUniformSplit(DomainTable(domain), |WP_PATHS|, k);
  }

  /** What `check_idn_for_wordpress(name)` returns. */
  function NameOutcome(search: string -> SearchOutcome, fetch: Url -> Fetch, authority: string -> Option<string>,
                       name: string): Option<string>
  {
    var probes := NameProbes(SearchHosts(search(name), authority));
    var hit := FirstFrom(probes, Passes(fetch), 0);
    if hit.Some? then Some(probes[hit.value].domain) else None
  }

  function Outcome(search: string -> SearchOutcome, fetch: Url -> Fetch, authority: string -> Option<string>)
    : string -> Option<string>
  {
    name => NameOutcome(search, fetch, authority, name)
  }

  /** `check_idn_for_wordpress(name)`: search, then walk the probe sequence;
      no hosts means no result. */
  method CheckIdn(search: string -> SearchOutcome, fetch: Url -> Fetch, authority: string -> Option<string>, name: string)
    returns (r: Option<string>, ghost tried: nat)
    ensures r == Outcome(search, fetch, authority)(name)
    ensures tried <= |NameProbes(SearchHosts(search(name), authority))|
  {
    var domains := SearchBing(search, authority, name);
    if domains == [] {
      return None, 0;
    }
    r, tried := TestDomains(fetch, domains);
  }

  /** The result is the base domain whose probe was the first to pass (not
      the prefixed host that passed), and nothing when no probe passes. */
  lemma NameOutcomeSpec(search: string -> SearchOutcome, fetch: Url -> Fetch, authority: string -> Option<string>,
                        name: string)
    ensures var domains := SearchHosts(search(name), authority);
      var probes := NameProbes(domains);
      && (NameOutcome(search, fetch, authority, name).None? <==>
          forall k :: 0 <= k < |probes| ==> !TestWordpress(fetch(probes[k].url)))
      && (NameOutcome(search, fetch, authority, name).Some? ==>
          exists k: nat, i: nat, p: nat, q: nat :: k < |probes| && i < |domains| && p < |WP_PREFIXES| && q < |WP_PATHS|
            && probes[k] == Probe(domains[i], Url("https", WP_PREFIXES[p] + domains[i], WP_PATHS[q]))
            && NameOutcome(search, fetch, authority, name) == Some(domains[i])
            && TestWordpress(fetch(probes[k].url))
            && forall m :: 0 <= m < k ==> !TestWordpress(fetch(probes[m].url)))
  {
    var domains := SearchHosts(search(name), authority);
    var probes := NameProbes(domains);
    FirstFromSpec(probes, Passes(fetch), 0);
    var hit := FirstFrom(probes, Passes(fetch), 0);
    if hit.Some? {
      var k := hit.value;
      NameTableUniform(domains);
      var i, j := ConcatUniformSplit(NameTable(domains), PROBES_PER_DOMAIN, k);
      var p, q := ConcatUniformSplit(DomainTable(domains[i]), |WP_PATHS|, j);
      assert probes[k] == Probe(domains[i], Url("https", WP_PREFIXES[p] + domains[i], WP_PATHS[q]));
    }
  }

  // ---------------------------------------------------------------------------
  // main
  // ---------------------------------------------------------------------------

  /** The loop of `main()`: check each name in order and append a row at
      once for each name with a domain; `count` is `wordpress_count`. */
  method ProcessNames(out: CsvFile, search: string -> SearchOutcome, fetch: Url -> Fetch,
                      authority: string -> Option<string>, names: seq<string>)
    returns (count: nat)
    modifies out
    requires out.Valid() && out.present
    ensures out.Valid() && out.present
    ensures out.rows == old(out.rows) + Gather(Indices(|names|), ResultRow(names, "", Outcome(search, fetch, authority)))
    ensures count == |out.rows| - |old(out.rows)|
  {
    ghost var start := out.rows;
    count := 0;
    for i := 0 to |names|
      invariant out.Valid() && out.present
      invariant out.rows == start + Gather(Indices(i), ResultRow(names, "", Outcome(search, fetch, authority)))
      invariant count == |out.rows| - |start|
    {
      ghost var before := out.rows;
      var r, _ := CheckIdn(search, fetch, authority, names[i]);
      if r.Some? {
        WriteSite(out, names[i], r.value);
        count := count + 1;
      }
      ResultRowStepPlain(start, names, Outcome(search, fetch, authority), i, r, before, out.rows);
    }
  }

  /** `main()`: load the names (stop when there are none, before touching
      the output file), create the output file with its header when absent,
      then process every name in file order. */
  method Run(input: CsvFile, out: CsvFile, search: string -> SearchOutcome, fetch: Url -> Fetch,
             authority: string -> Option<string>)
    returns (count: nat)
    modifies out
    requires input != out && input.Valid() && out.Valid()
    ensures out.Valid()
    ensures var names := IdnNames(input.present, input.rows);
      && (names == [] ==> count == 0 && out.present == old(out.present) && out.rows == old(out.rows))
      && (names != [] ==>
          var start := if old(out.present) then old(out.rows) else [HEADER];
          && out.present
          && out.rows == start + Gather(Indices(|names|), ResultRow(names, "", Outcome(search, fetch, authority)))
          && count == |out.rows| - |start|)
  {
    var names := LoadIdnNames(input);
    if names == [] {
      return 0;
    }
    if !out.present {
      out.Overwrite([HEADER]);
    }
    count := ProcessNames(out, search, fetch, authority, names);
  }
}
