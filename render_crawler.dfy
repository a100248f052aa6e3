/** render_crawler.py: the crawler behind a small web service. A background
    run loads the names, drops those already in the output file, and
    processes the rest in order while a shared state record reports
    progress; the `/stop` route clears the `running` flag, and the loop
    leaves at the next name. For every name Bing gives at most three
    distinct domains; the first domain whose home page shows a WordPress
    fingerprint is appended to the output file at once.

    The thread, the clock fields, delays, the log and the JSON views are
    not modelled; a stop request is an oracle saying whether the flag was
    cleared before the check at a given iteration. */
module RenderCrawler {
  import opened Seqs
  import opened Text
  import opened Discovery
  import opened Fingerprints
  import opened Store

  const MAX_BING_RESULTS: nat := 3
  /** The first line that tells the writer the header is already there. */
  const HEADER_LINE: string := "name,domain"

  /** The `crawler_state` record shared by the crawler thread and the
      routes (the two time stamps are left out). */
  class CrawlerState {
    var running: bool
    var progress: nat
    var total: nat
    var found: nat
    var currentIdn: string

    constructor ()
      ensures !running && progress == 0 && total == 0 && found == 0 && currentIdn == ""
    {
      running, progress, total, found, currentIdn := false, 0, 0, 0, "";
    }

    /** The `/stop` route: clear the flag and nothing else. */
    method RequestStop()
      modifies this
      ensures !running
      ensures progress == old(progress) && total == old(total) && found == old(found) && currentIdn == old(currentIdn)
    {
      running := false;
    }
  }

  // ---------------------------------------------------------------------------
  // load_idns and get_processed_idns
  // ---------------------------------------------------------------------------

  /** `load_idns()`: the stripped non-blank first cells, a leading "name"
      header skipped; nothing when the file cannot be opened. */
  function LoadedIdns(present: bool, rows: seq<Row>): seq<string> {
    if present then NamesSkippingHeader(rows) else []
  }

  method LoadIdns(input: CsvFile) returns (names: seq<string>)
    requires input.Valid()
    ensures names == LoadedIdns(input.present, input.rows)
  {
    if !input.present {
      return [];
    }
    names := LoadNamesSkippingHeader(input.rows);
  }

  /** `get_processed_idns()`: the stripped first cell of every non-empty row
      after the first, blank ones included; nothing when the file is absent. */
  function ProcessedIdns(present: bool, rows: seq<Row>): set<string> {
    if present then set n | n in NamesAfterFirstRow(rows) else {}
  }

  /** The reading loop: skip one row, then add the stripped first cell of
      every non-empty row. */
  method GetProcessedIdns(f: CsvFile) returns (processed: set<string>)
    requires f.Valid()
    ensures processed == ProcessedIdns(f.present, f.rows)
  {
    processed := {};
    if !f.present || f.rows == [] {
      return;
    }
    var rows := f.rows;
    for i := 1 to |rows|
      invariant processed == set n | n in NamesAfterFirstRow(rows[..i])
    {
      assert rows[..i + 1][..i] == rows[..i];
      var row := rows[i];
      if row != [] {
        processed := processed + {Strip(row[0])};
      }
    }
    assert rows[..|rows|] == rows;
  }

  /** The names a run processes: the loaded names that are not processed
      yet, in input order. */
  function ToProcess(inPresent: bool, inRows: seq<Row>, outPresent: bool, outRows: seq<Row>): seq<string> {
    Remaining(LoadedIdns(inPresent, inRows), ProcessedIdns(outPresent, outRows))
  }

  /** A name is processed by a run exactly when the loader keeps it and the
      output file does not already list it. */
  lemma ToProcessSpec(inPresent: bool, inRows: seq<Row>, outPresent: bool, outRows: seq<Row>, n: string)
    ensures n in ToProcess(inPresent, inRows, outPresent, outRows) <==>
      inPresent && n in NamesSkippingHeader(inRows) && !(outPresent && n in NamesAfterFirstRow(outRows))
    ensures !outPresent ==> ToProcess(inPresent, inRows, outPresent, outRows) == LoadedIdns(inPresent, inRows)
  {
    RemainingSpec(LoadedIdns(inPresent, inRows), ProcessedIdns(outPresent, outRows), 0);
  }

  // ---------------------------------------------------------------------------
  // write_wordpress_site
  // ---------------------------------------------------------------------------

  /** What `f.readline()` gives for the first line, CSV quoting aside: the
      first row's cells joined by commas, or "" for an empty file. */
  function FirstLine(rows: seq<Row>): string {
    if rows == [] then "" else Join(rows[0], ',')
  }

  /** The header is written unless the file exists and its stripped first
      line is exactly `name,domain`. */
  predicate NeedsHeader(present: bool, rows: seq<Row>) {
    !present || Strip(FirstLine(rows)) != HEADER_LINE
  }

  /** The rows after one call of `write_wordpress_site`: the header when it
      is needed, then the result row, both at the end of the file. */
  function WrittenSite(present: bool, rows: seq<Row>, row: Row): seq<Row> {
    rows + (if NeedsHeader(present, rows) then [HEADER] else []) + [row]
  }

  method WriteWordpressSite(out: CsvFile, name: string, domain: string)
    modifies out
    requires out.Valid()
    ensures out.Valid() && out.present
    ensures out.rows == WrittenSite(old(out.present), old(out.rows), [name, domain])
  {
    var needsHeader := true;
    if out.present {
      var firstLine := Strip(FirstLine(out.rows));
      if firstLine == HEADER_LINE {
        needsHeader := false;
      }
    }
    if needsHeader {
      out.Append([HEADER]);
    }
    out.Append([[name, domain]]);
  }

  /** A file whose first row is the header needs no other. */
  lemma HeaderFirstLine(rest: seq<Row>)
    ensures !NeedsHeader(true, [HEADER] + rest)
  {
    assert ([HEADER] + rest)[0] == HEADER;
    assert HEADER[1..] == ["domain"];
    assert Join(HEADER, ',') == HEADER_LINE;
    StripUnpadded(HEADER_LINE);
  }

  /** An empty or new file always gets the header first. */
  lemma EmptyFileNeedsHeader(present: bool)
    ensures NeedsHeader(present, [])
  {
  }

  /** A write leaves the file's first line alone unless the file was empty,
      when the header becomes its first line: so the header is added once
      for a new or empty file and never again, while a file whose first line
      is something else gets a header before every result. */
  lemma WrittenSiteFirstLine(present: bool, rows: seq<Row>, row: Row)
    requires !present ==> rows == []
    ensures !NeedsHeader(true, WrittenSite(present, rows, row)) <==> rows == [] || !NeedsHeader(present, rows)
  {
    var after := WrittenSite(present, rows, row);
    if rows == [] {
      assert after == [HEADER] + [row];
      HeaderFirstLine([row]);
    } else {
      assert after[0] == rows[0];
    }
  }

  /** A written name is read back as processed by the next run, and the only
      other name a write can add to the processed set is "name", from a
      header written below the first line. */
  lemma WrittenNameIsProcessed(present: bool, rows: seq<Row>, name: string, domain: string)
    requires !present ==> rows == []
    ensures ProcessedIdns(true, WrittenSite(present, rows, [name, domain])) ==
      ProcessedIdns(present, rows) + (if rows != [] && NeedsHeader(present, rows) then {"name"} else {}) + {Strip(name)}
  {
    var after := WrittenSite(present, rows, [name, domain]);
    var mid := after[..|after| - 1];
    assert NamesAfterFirstRow(after) == NamesAfterFirstRow(mid) + [Strip(name)];
    if rows == [] {
      assert mid == [HEADER];
    } else if NeedsHeader(present, rows) {
      assert mid == rows + [HEADER] && mid[..|mid| - 1] == rows;
      assert Strip("name") == "name" by {
        StripUnpadded("name");
      }
      assert NamesAfterFirstRow(mid) == NamesAfterFirstRow(rows) + ["name"];
    } else {
      assert mid == rows;
    }
  }

  /** The rows after a run's writes of `results`, one call each, starting
      from a file that existed (`present`) with `rows`. */
  function WrittenAll(present: bool, rows: seq<Row>, results: seq<Row>): seq<Row>
    decreases |results|
  {
    if results == [] then rows
    else
      var n := |results| - 1;
      WrittenSite(present || n > 0, WrittenAll(present, rows, results[..n]), results[n])
  }

  /** Writes never touch the rows already in the file. */
  lemma {:induction false} WrittenAllExtends(present: bool, rows: seq<Row>, results: seq<Row>)
    ensures IsPrefix(rows, WrittenAll(present, rows, results))
    decreases |results|
  {
    if results != [] {
      var n := |results| - 1;
      WrittenAllExtends(present, rows, results[..n]);
    }
  }

  /** Rows added at the end leave the first line, and so the header
      decision, as it was. */
  lemma FirstLineKept(rows: seq<Row>, more: seq<Row>)
    requires rows != []
    ensures FirstLine(rows + more) == FirstLine(rows)
  {
    assert (rows + more)[0] == rows[0];
  }

  /** The last write of a run. */
  lemma WrittenAllLast(present: bool, rows: seq<Row>, results: seq<Row>)
    requires results != []
    ensures var n := |results| - 1;
      WrittenAll(present, rows, results) == WrittenSite(present || n > 0, WrittenAll(present, rows, results[..n]), results[n])
  {
  }

  /** A file that starts with the header receives exactly the results. */
  lemma {:induction false} WrittenAllAfterHeader(rows: seq<Row>, results: seq<Row>)
    requires rows != [] && !NeedsHeader(true, rows)
    ensures WrittenAll(true, rows, results) == rows + results
    decreases |results|
  {
    if results != [] {
      var n := |results| - 1;
      var init := results[..n];
      WrittenAllAfterHeader(rows, init);
      WrittenAllLast(true, rows, results);
      FirstLineKept(rows, init);
      assert WrittenSite(true, rows + init, results[n]) == rows + init + [results[n]];
      assert results == init + [results[n]];
    }
  }

  /** A write to a new or empty file puts the header before the row. */
  lemma WrittenSiteEmpty(present: bool, row: Row)
    ensures WrittenSite(present, [], row) == [HEADER, row]
  {
    EmptyFileNeedsHeader(present);
  }

  /** A write to a file that starts with the header adds the row alone. */
  lemma WrittenSiteAfterHeader(rest: seq<Row>, row: Row)
    ensures WrittenSite(true, [HEADER] + rest, row) == [HEADER] + rest + [row]
  {
    HeaderFirstLine(rest);
  }

  /** A new or empty file receives the header, then exactly the results. */
  lemma {:induction false} WrittenAllNewFile(present: bool, results: seq<Row>)
    ensures WrittenAll(present, [], results) == if results == [] then [] else [HEADER] + results
    decreases |results|
  {
    if results != [] {
      var n := |results| - 1;
      var init := results[..n];
      WrittenAllNewFile(present, init);
      assert WrittenAll(present, [], results) == WrittenSite(present || n > 0, WrittenAll(present, [], init), results[n]);
      if n == 0 {
        WrittenSiteEmpty(present, results[n]);
      } else {
        WrittenSiteAfterHeader(init, results[n]);
        assert results == init + [results[n]];
      }
    }
  }

  /** Each result preceded by its own header row. */
  function HeaderEach(results: seq<Row>): (r: seq<Row>)
    ensures |r| == 2 * |results|
    ensures forall k :: 0 <= k < |results| ==> r[2 * k] == HEADER && r[2 * k + 1] == results[k]
    decreases |results|
  {
    if results == [] then []
    else
      var n := |results| - 1;
      HeaderEach(results[..n]) + [HEADER, results[n]]
  }

  /** A file whose first line is not the header gets a header row before
      every result. */
  lemma {:induction false} WrittenAllStrayFirstLine(present: bool, rows: seq<Row>, results: seq<Row>)
    requires rows != [] && Strip(FirstLine(rows)) != HEADER_LINE
    ensures WrittenAll(present, rows, results) == rows + HeaderEach(results)
    decreases |results|
  {
    if results != [] {
      var n := |results| - 1;
      var init := results[..n];
      WrittenAllStrayFirstLine(present, rows, init);
      WrittenAllLast(present, rows, results);
      FirstLineKept(rows, HeaderEach(init));
      assert WrittenSite(present || n > 0, rows + HeaderEach(init), results[n]) == rows + HeaderEach(init) + [HEADER] + [results[n]];
    }
  }


  // ---------------------------------------------------------------------------
  // bing_search
  // ---------------------------------------------------------------------------

  /** `raise_for_status()` raises for 4xx and 5xx answers only. */
  predicate ErrorStatus(status: int) {
    400 <= status < 600
  }

  /** The domains of one Bing outcome: the first three distinct non-empty
      hosts of `http` links; nothing for a raised request or an error
      status. Any other status, 3xx included, is parsed. */
  function SearchHosts(outcome: SearchOutcome, authority: string -> Option<string>): seq<string> {
    if outcome.SearchPage? && !ErrorStatus(outcome.status) then ExtractHosts(outcome.links, authority, MAX_BING_RESULTS, true)
    else []
  }

  method BingSearch(search: string -> SearchOutcome, authority: string -> Option<string>, query: string)
    returns (domains: seq<string>)
    ensures domains == SearchHosts(search(query), authority)
  {
    var outcome := search(query);
    if outcome.SearchFailed? || ErrorStatus(outcome.status) {
      return [];
    }
    domains := CollectHosts(outcome.links, authority, MAX_BING_RESULTS, true);
  }

  /** At most three distinct non-empty hosts of the page's `http` links, in
      first-seen order; nothing for a raised request or an error status. */
  lemma SearchHostsSpec(outcome: SearchOutcome, authority: string -> Option<string>, i: nat, j: nat)
    ensures !(outcome.SearchPage? && !ErrorStatus(outcome.status)) ==> SearchHosts(outcome, authority) == []
    ensures var r := SearchHosts(outcome, authority);
      && |r| <= MAX_BING_RESULTS && Distinct(r)
      && (forall h :: h in r ==> h != "" && outcome.SearchPage? && FromLink(outcome.links, authority, h))
    ensures outcome.SearchPage? && i < j < |SearchHosts(outcome, authority)| ==>
      var r, all := SearchHosts(outcome, authority), LinkHosts(outcome.links, authority);
      r[i] in all && r[j] in all && IndexOf(all, r[i]) < IndexOf(all, r[j])
  {
    if outcome.SearchPage? && !ErrorStatus(outcome.status) {
      ExtractHostsSound(outcome.links, authority, MAX_BING_RESULTS, true);
      if i < j < |SearchHosts(outcome, authority)| {
        ExtractHostsFirstSeen(outcome.links, authority, MAX_BING_RESULTS, i, j);
      }
    }
  }

  // ---------------------------------------------------------------------------
  // test_wordpress
  // ---------------------------------------------------------------------------

  /** Some pattern, lowered, occurs in the lowered body. */
  predicate LoweredPatternIn(body: string) {
    exists k :: 0 <= k < |RENDER_LITERALS| && Contains(Lower(body), Lower(RENDER_LITERALS[k]))
  }

  /** An answer that shows WordPress: no error status, and a pattern in the
      body. */
  predicate Matches(r: Fetch) {
    r.Reply? && !ErrorStatus(r.status) && LoweredPatternIn(r.body)
  }

  /** Lowering both sides and testing `in` finds exactly the fingerprints
      that a case-insensitive search for the literals finds. */
  lemma LoweredPatternIsFingerprint(body: string)
    ensures LoweredPatternIn(body) <==> AnyLiteral(RENDER_LITERALS, body)
  {
    forall k | 0 <= k < |RENDER_LITERALS|
      ensures Contains(Lower(body), Lower(RENDER_LITERALS[k])) <==> ContainsCI(body, RENDER_LITERALS[k])
    {
      ContainsLowerIffCI(body, RENDER_LITERALS[k]);
    }
  }

  /** `test_wordpress(domain)` as written: a value that already starts with
      "http" is taken for a URL and requested as it is. The values passed
      are bare domains, so for a domain such as `httpbin.org` the request
      has no scheme, raises, and the answer is False. */
  predicate TestWordpressAsWritten(fetch: Url -> Fetch, domain: string) {
    !StartsWith(domain, "http") && Matches(fetch(Url("https", domain, "")))
  }

  /** `test_wordpress(domain)` as intended: the domain is requested over
      https. The rest of the model uses this one. */
  predicate TestWordpress(fetch: Url -> Fetch, domain: string) {
    Matches(fetch(Url("https", domain, "")))
  }

  /** A domain whose name starts with "http" is never detected as written,
      even when its home page is plainly WordPress; the intended test
      detects it. */
  lemma HttpNamedDomainMissed(fetch: Url -> Fetch)
    requires fetch(Url("https", "httpbin.org", "")) == Reply(200, "text/html", "/wp-content/")
    ensures !TestWordpressAsWritten(fetch, "httpbin.org")
    ensures TestWordpress(fetch, "httpbin.org")
  {
    assert StartsWith("httpbin.org", "http");
    var w := Lower(RENDER_LITERALS[0]);
    assert OccursAt(w, w, 0);
  }

  /** The intended test: a domain is detected exactly when its https home
      page answers without an error status and shows a fingerprint; the
      written test agrees on every domain not starting with "http". */
  lemma TestWordpressSpec(fetch: Url -> Fetch, domain: string)
    ensures var r := fetch(Url("https", domain, ""));
      TestWordpress(fetch, domain) <==> r.Reply? && !ErrorStatus(r.status) && AnyLiteral(RENDER_LITERALS, r.body)
    ensures !StartsWith(domain, "http") ==> TestWordpressAsWritten(fetch, domain) == TestWordpress(fetch, domain)
  {
    var r := fetch(Url("https", domain, ""));
    if r.Reply? {
      LoweredPatternIsFingerprint(r.body);
    }
  }

  /** The request and the pattern loop of `test_wordpress`. */
  method TestWordpressAt(fetch: Url -> Fetch, domain: string) returns (ok: bool)
    ensures ok == TestWordpress(fetch, domain)
  {
    var response := fetch(Url("https", domain, ""));
    if response.Failed? || ErrorStatus(response.status) {
      return false;
    }
    var content := Lower(response.body);
    for k := 0 to |RENDER_LITERALS|
      invariant forall k' :: 0 <= k' < k ==> !Contains(content, Lower(RENDER_LITERALS[k']))
    {
      if Contains(content, Lower(RENDER_LITERALS[k])) {
        return true;
      }
    }
    ok := false;
  }

  // ---------------------------------------------------------------------------
  // process_idn
  // ---------------------------------------------------------------------------

  function DomainPasses(fetch: Url -> Fetch): string -> bool {
    (d: string) => TestWordpress(fetch, d)
  }

  /** The domain `process_idn(name)` writes, if any. */
  function NameOutcome(search: string -> SearchOutcome, fetch: Url -> Fetch, authority: string -> Option<string>,
                       name: string): Option<string>
  {
    var domains := SearchHosts(search(name), authority);
    var hit := FirstFrom(domains, DomainPasses(fetch), 0);
    if hit.Some? then Some(domains[hit.value]) else None
  }

  function Outcome(search: string -> SearchOutcome, fetch: Url -> Fetch, authority: string -> Option<string>)
    : string -> Option<string>
  {
    name => NameOutcome(search, fetch, authority, name)
  }

  /** The result is the first searched domain that shows WordPress, every
      earlier one failing; no result means that none does. */
  lemma NameOutcomeSpec(search: string -> SearchOutcome, fetch: Url -> Fetch, authority: string -> Option<string>,
                        name: string)
    ensures var domains := SearchHosts(search(name), authority);
      && (NameOutcome(search, fetch, authority, name).None? <==>
          forall m :: 0 <= m < |domains| ==> !TestWordpress(fetch, domains[m]))
      && (NameOutcome(search, fetch, authority, name).Some? ==>
          exists m :: 0 <= m < |domains|
            && NameOutcome(search, fetch, authority, name) == Some(domains[m])
            && TestWordpress(fetch, domains[m])
            && forall m' :: 0 <= m' < m ==> !TestWordpress(fetch, domains[m']))
  {
    FirstFromSpec(SearchHosts(search(name), authority), DomainPasses(fetch), 0);
  }

  /** The domain loop: the first domain that shows WordPress. */
  method FindDomain(fetch: Url -> Fetch, domains: seq<string>) returns (r: Option<string>)
    ensures var hit := FirstFrom(domains, DomainPasses(fetch), 0);
      r == if hit.Some? then Some(domains[hit.value]) else None
  {
    for i := 0 to |domains|
      invariant FirstFrom(domains, DomainPasses(fetch), 0) == FirstFrom(domains, DomainPasses(fetch), i)
    {
      var ok := TestWordpressAt(fetch, domains[i]);
      if ok {
        return Some(domains[i]);
      }
    }
    r := None;
  }

  /** `process_idn(name)`: record the name as current, search, and at the
      first domain that shows WordPress write `[name, domain]` and count it. */
  method ProcessIdn(state: CrawlerState, out: CsvFile, search: string -> SearchOutcome, fetch: Url -> Fetch,
                    authority: string -> Option<string>, name: string)
    returns (found: bool)
    modifies state, out
    requires out.Valid()
    ensures out.Valid()
    ensures state.currentIdn == name
    ensures state.running == old(state.running) && state.progress == old(state.progress) && state.total == old(state.total)
    ensures found == NameOutcome(search, fetch, authority, name).Some?
    ensures state.found == old(state.found) + (if found then 1 else 0)
    ensures out.present == (old(out.present) || found)
    ensures out.rows == if found then WrittenSite(old(out.present), old(out.rows), [name, NameOutcome(search, fetch, authority, name).value])
      else old(out.rows)
  {
    state.currentIdn := name;
    var domains := BingSearch(search, authority, name);
    if domains == [] {
      return false;
    }
    var r := FindDomain(fetch, domains);
    if r.Some? {
      WriteWordpressSite(out, name, r.value);
      state.found := state.found + 1;
      return true;
    }
    found := false;
  }

  // ---------------------------------------------------------------------------
  // run_crawler and the routes
  // ---------------------------------------------------------------------------

  /** The number of names a run processes: it stops at the first iteration
      whose check sees a stop request, or after the last name. */
  function StopPoint(stopRequested: nat -> bool, n: nat): nat {
    var s := FirstFrom(Indices(n), stopRequested, 0);
    if s.Some? then s.value else n
  }

  /** The run processes names up to the first stop request and no further:
      no check before the stop point saw a request. */
  lemma StopPointSpec(stopRequested: nat -> bool, n: nat)
    ensures StopPoint(stopRequested, n) <= n
    ensures forall i :: 0 <= i < StopPoint(stopRequested, n) ==> !stopRequested(i)
    ensures StopPoint(stopRequested, n) < n ==> stopRequested(StopPoint(stopRequested, n))
    ensures (forall i :: 0 <= i < n ==> !stopRequested(i)) ==> StopPoint(stopRequested, n) == n
  {
    var xs := Indices(n);
    FirstFromSpec(xs, stopRequested, 0);
    forall i | 0 <= i < StopPoint(stopRequested, n)
      ensures !stopRequested(i)
    {
      assert xs[i] == i;
    }
  }

  /** One iteration of the run: the written rows and the count of results
      follow the list of results gathered in input order. */
  lemma {:induction false} RunStep(p0: bool, r0: seq<Row>, names: seq<string>, outcome: string -> Option<string>,
                                   i: nat, r: Option<string>, present: bool, before: seq<Row>, after: seq<Row>)
    requires i < |names| && r == outcome(names[i])
    requires before == WrittenAll(p0, r0, Gather(Indices(i), ResultRow(names, "", outcome)))
    requires present == (p0 || Gather(Indices(i), ResultRow(names, "", outcome)) != [])
    requires after == if r.Some? then WrittenSite(present, before, [names[i], r.value]) else before
    ensures var results := Gather(Indices(i + 1), ResultRow(names, "", outcome));
      && after == WrittenAll(p0, r0, results)
      && |results| == |Gather(Indices(i), ResultRow(names, "", outcome))| + (if r.Some? then 1 else 0)
      && (p0 || results != []) == (present || r.Some?)
  {
    var rowOf := ResultRow(names, "", outcome);
    var results := Gather(Indices(i), rowOf);
    GatherIndicesSnoc(i, rowOf);
    if r.Some? {
      assert "" + r.value == r.value;
      assert rowOf(i) == [[names[i], r.value]];
      var more := results + [[names[i], r.value]];
      assert more[..|more| - 1] == results;
    } else {
      assert rowOf(i) == [];
      assert results + [] == results;
    }
  }

  /** The loop of `run_crawler()`: process the names in order, leaving at
      the first check that finds the flag cleared. */
  method ProcessRemaining(state: CrawlerState, out: CsvFile, search: string -> SearchOutcome, fetch: Url -> Fetch,
                          authority: string -> Option<string>, remaining: seq<string>, stopRequested: nat -> bool)
    modifies state, out
    requires out.Valid() && state.running && state.total == |remaining| && state.progress == 0
    ensures out.Valid()
    ensures var n := StopPoint(stopRequested, |remaining|);
      var results := Gather(Indices(n), ResultRow(remaining, "", Outcome(search, fetch, authority)));
      && state.total == |remaining| && state.progress == n
      && state.found == old(state.found) + |results|
      && out.present == (old(out.present) || results != [])
      && out.rows == WrittenAll(old(out.present), old(out.rows), results)
  {
    ghost var p0, r0, found0 := out.present, out.rows, state.found;
    ghost var rowOf := ResultRow(remaining, "", Outcome(search, fetch, authority));
    ghost var xs := Indices(|remaining|);
    ghost var results: seq<Row> := [];
    var i := 0;
    while i < |remaining|
      invariant i <= |remaining|
      invariant FirstFrom(xs, stopRequested, 0) == FirstFrom(xs, stopRequested, i)
      invariant results == Gather(Indices(i), rowOf)
      invariant state.running && state.total == |remaining| && state.progress == i
      invariant state.found == found0 + |results|
      invariant out.Valid() && out.present == (p0 || results != [])
      invariant out.rows == WrittenAll(p0, r0, results)
    {
      if stopRequested(i) {
        // The `/stop` route ran while this thread was working.
        state.RequestStop();
      }
      if !state.running {
        assert xs[i] == i;
        break;
      }
      assert xs[i] == i;
      ghost var present, before := out.present, out.rows;
      var found := ProcessIdn(state, out, search, fetch, authority, remaining[i]);
      ghost var r := NameOutcome(search, fetch, authority, remaining[i]);
      RunStep(p0, r0, remaining, Outcome(search, fetch, authority), i, r, present, before, out.rows);
      results := Gather(Indices(i + 1), rowOf);
      state.progress := i + 1;
      i := i + 1;
    }
  }

  /** `run_crawler()`: set the flag, load, drop the processed names, then
      run the loop; the flag is cleared at the end whatever happened.
      `found` is not reset: it counts across runs. */
  method RunCrawler(state: CrawlerState, input: CsvFile, out: CsvFile, search: string -> SearchOutcome,
                    fetch: Url -> Fetch, authority: string -> Option<string>, stopRequested: nat -> bool)
    modifies state, out
    requires input != out && input.Valid() && out.Valid()
    ensures out.Valid()
    ensures var remaining := ToProcess(input.present, input.rows, old(out.present), old(out.rows));
      var n := StopPoint(stopRequested, |remaining|);
      var results := Gather(Indices(n), ResultRow(remaining, "", Outcome(search, fetch, authority)));
      && !state.running
      && state.total == |remaining| && state.progress == n
      && state.found == old(state.found) + |results|
      && out.present == (old(out.present) || results != [])
      && out.rows == WrittenAll(old(out.present), old(out.rows), results)
  {
    state.running := true;
    var all := LoadIdns(input);
    var processed := GetProcessedIdns(out);
    var remaining := Remaining(all, processed);
    state.total := |remaining|;
    state.progress := 0;
    ProcessRemaining(state, out, search, fetch, authority, remaining, stopRequested);
    state.running := false;
  }

  /** The `/start` route: refuse while a run is going on; otherwise run the
      crawler (in the source, on a thread of its own). */
  method Start(state: CrawlerState, input: CsvFile, out: CsvFile, search: string -> SearchOutcome,
               fetch: Url -> Fetch, authority: string -> Option<string>, stopRequested: nat -> bool)
    returns (started: bool)
    modifies state, out
    requires input != out && input.Valid() && out.Valid()
    ensures out.Valid()
    ensures started == !old(state.running)
    ensures !started ==> && state.running
                         && state.progress == old(state.progress) && state.total == old(state.total)
                         && state.found == old(state.found) && state.currentIdn == old(state.currentIdn)
                         && out.present == old(out.present) && out.rows == old(out.rows)
    ensures started ==>
      var remaining := ToProcess(input.present, input.rows, old(out.present), old(out.rows));
      var n := StopPoint(stopRequested, |remaining|);
      var results := Gather(Indices(n), ResultRow(remaining, "", Outcome(search, fetch, authority)));
      && !state.running
      && state.total == |remaining| && state.progress == n && n <= state.total
      && state.found == old(state.found) + |results|
      && out.present == (old(out.present) || results != [])
      && out.rows == WrittenAll(old(out.present), old(out.rows), results)
  {
    if state.running {
      return false;
    }
    RunCrawler(state, input, out, search, fetch, authority, stopRequested);
    StopPointSpec(stopRequested, state.total);
    started := true;
  }
}
