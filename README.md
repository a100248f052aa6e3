# WordPress site detection for integrated delivery networks

The repository holds seven variants of one crawler. Each variant reads
organisation names (integrated delivery networks, "IDNs") from a CSV file.
For each name it searches Bing and takes a few result hosts. It then probes
those hosts over HTTP for WordPress fingerprints or an open WordPress REST
API. A hit becomes a `name,domain` row of an output CSV file. Most variants
append that row at once and read the file back on the next run, to skip names
already done.

The variants share ideas but differ in every detail:
- which hosts they collect from the search page, and how many;
- which sub-domain prefixes and paths they probe, in what order;
- which fingerprints count as a hit;
- whether the header is written and how;
- how resuming works.

This Dafny project models each variant's core as the code does it. It proves
what each one computes. The exceptions are listed under "## Left out". The
render variant's pipeline uses a corrected per-domain test, described under
"## Findings".

Modules:

- `Seqs`: sequence helpers. They cover first match (`FirstFrom`),
  order-preserving de-duplication (`Dedupe`, which models
  `dict.fromkeys`), filtering (`Without`) and the rows gathered from a list
  of names in a given order (`Gather`).
- `Text`: Python's `str.strip`, `lower` (ASCII), `startswith`, `in`,
  case-insensitive search, `rstrip(c)`, `split('.')`/`'.'.join`, and
  lexicographic order.
- `Discovery`: shared types and search-page handling.
  - `Url` is scheme, host and path.
  - A GET is answered `Failed` (the request raised) or
    `Reply(status, contentType, body)`.
  - A Bing request ends `SearchFailed` or `SearchPage(status, links)`.
  - Collecting result hosts from the page's links is modelled with or
    without de-duplication, up to a cap.
  - Expanding hosts with sub-domain prefixes is modelled here too.
- `Fingerprints`: each variant's WordPress pattern table, and lemmas that
  reduce each regular expression to case-insensitive literal containment.
- `Store`: the CSV files.
  - `CsvFile` is a class with `present` and `rows`, updated in place.
  - The rules for writing a header and appending a result.
  - The loaders for the name lists.
  - The processed-name readers used for resuming.
- `Relevance`: the simple variant's `tokenize` and stop words.
- One module per variant: `SimpleCrawler`, `BackgroundCrawler`,
  `EnhancedCrawler`, `RobustCrawler`, `BingCrawler`, `IncrementalCrawler`,
  `RenderCrawler`. Each has its search, host walk, per-name processing and
  main loop.

The network, the clock and the parsers are parameters. `search` maps a
query, or a query and an attempt number, to the Bing outcome. `fetch` (and
`head` for HTTP HEAD) maps a URL to its response. `authority` is
`urlparse(href).netloc`, or `urlsplit(href).hostname`, with `None` when
parsing raises. Every variant except the enhanced one catches that exception
and skips the link; see "## Left out". `jsonName` is the site name
`json.loads` yields from a body. `order` is the order in which `asyncio.as_completed` hands back
finished tasks. `stopRequested(i)` says whether `/stop` was called before
iteration `i` of the render variant's loop.

Each main loop is a method over `CsvFile` objects. It is proved against a
function of its inputs:
- the rows written, in order, as `Gather` over the names of `ResultRow`;
- each name's outcome, as `NameOutcome`: the first host that passes, by
  `FirstFrom`.

Lemmas then characterise each outcome. A host is reported exactly when it is
the first that passes, and only when some host passes. They also
characterise what resuming skips.

## Model

| member | source | states |
|---|---|---|
| Seqs.FirstFromSpec | render_crawler.py:181-188 | the first-match walk: a found index passes and every earlier element fails; no result means no element passes |
| Seqs.DedupeElements | enhanced_wp_crawler.py:105 | de-duplication keeps exactly the elements of the input and never grows it |
| Seqs.DedupeDistinct | enhanced_wp_crawler.py:105 | de-duplication leaves no repeats |
| Seqs.DedupeOfDistinct | enhanced_wp_crawler.py:105 | de-duplicating a list without repeats changes nothing |
| Seqs.DedupeFirstSeenOrder | enhanced_wp_crawler.py:105 | de-duplication keeps first occurrences in their original order |
| Seqs.WithoutMembers | simple_wp_crawler.py:251 | the filtered list holds exactly the names not in the dropped set, and is no longer |
| Seqs.GatherPermutation | bing_wordpress_crawler.py:194-197 | processing the names in any completion order writes the same multiset of rows |
| Text.StripSpec | simple_wp_crawler.py:231-235 | `strip` removes leading and trailing whitespace only, and leaves no whitespace at either end |
| Text.StripIdempotent | robust_wp_crawler.py:57-58 | stripping twice is stripping once |
| Text.StripEmptyIffBlank | simple_wp_crawler.py:231 | a cell strips to empty exactly when it is all whitespace |
| Text.Lower | render_crawler.py:159 | lowering keeps the length, leaves no upper-case letter, maps each upper-case letter to a lower-case one and leaves every other character unchanged |
| Text.LowerIdempotent | render_crawler.py:159 | lowering twice is lowering once |
| Text.ContainsLowerIffCI | render_crawler.py:159-161 | testing a lowered pattern in a lowered body is case-insensitive containment |
| Text.RStripCharSpec | enhanced_wp_crawler.py:137 | `rstrip("/")` removes exactly the trailing slashes and nothing else |
| Text.SplitJoin | enhanced_wp_crawler.py:97-99 | joining the pieces of `split('.')` with '.' gives back the host |
| Text.JoinSplit | enhanced_wp_crawler.py:97-99 | splitting a join of dot-free labels on '.' gives back the labels |
| Text.SplitPieceNoSep | enhanced_wp_crawler.py:97 | no piece of `split('.')` contains a dot |
| Text.LexLeTotal | enhanced_wp_crawler.py:192 | the sort key order is total |
| Text.LexLeTrans | enhanced_wp_crawler.py:192 | the sort key order is transitive |
| Text.LexLeAntisymmetric | enhanced_wp_crawler.py:192 | the sort key order is antisymmetric |
| Discovery.LinkHostsMembers | render_crawler.py:128-134 | a host is collected exactly when some `http` link parses to it, and it is never empty |
| Discovery.CollectHosts | render_crawler.py:125-140 | the link loop returns exactly the hosts of the host-extraction specification (cap, optional de-duplication) |
| Discovery.CapReached | render_crawler.py:133-136 | once the cap is reached the loop's hosts are the final answer |
| Discovery.ExtractHostsSound | simple_wp_crawler.py:128-141 | at most `cap` hosts, each non-empty and from a link; distinct when de-duplicating, a prefix of all link hosts otherwise; fewer than `cap` means every link host is present |
| Discovery.ExtractHostsFirstSeen | background_wp_crawler.py:105-114 | with de-duplication the hosts keep the order of their first appearance on the page |
| Discovery.RepeatsKeptWithoutDedupe | incremental_wp_crawler.py:88-97 | for any two links to one host where the second still falls within the cap: without de-duplication the host is returned twice; with it, the host is returned and no host repeats |
| Discovery.ExpandWithPrefixes | robust_wp_crawler.py:161-165 | the expansion loop builds each host followed by its prefixed variants |
| Discovery.PrefixExpansionAt | bing_wordpress_crawler.py:130-134 | the expansion has one plus the number of prefixes entries per host; entry i·(p+1) is host i and entry i·(p+1)+1+k is prefix k before host i |
| Discovery.PrefixExpansionFrom | bing_wordpress_crawler.py:130-134 | every expanded entry is a host or a prefixed host, at the position that layout gives |
| Fingerprints.LiteralsDetect | enhanced_wp_crawler.py:44-46 | a table of literals detects a body exactly when some literal occurs in it, ignoring case |
| Fingerprints.SimpleTableIsLiteral | simple_wp_crawler.py:33-44 | the simple variant's regular expression matches exactly when one of its seven literals occurs |
| Fingerprints.WordpressAnyCase | simple_wp_crawler.py:38 | under IGNORECASE "wordpress" in any case matches the `WordPress` pattern |
| Fingerprints.SpanningHasTail | simple_wp_crawler.py:41 | a `generator.*wordpress` match contains "wordpress" |
| Fingerprints.PoweredByHasWordpress | simple_wp_crawler.py:42 | a `powered by wordpress` match contains "wordpress" |
| Fingerprints.BackgroundTableIsLiteral | background_wp_crawler.py:39-54 | the background regular expression matches exactly when one of fourteen literals occurs |
| Fingerprints.BackgroundPatternHasLiteral | background_wp_crawler.py:39-54 | every background pattern match implies a literal occurrence |
| Fingerprints.BackgroundLiteralHasPattern | background_wp_crawler.py:39-54 | every literal occurrence is a background pattern match |
| Fingerprints.BingTableReduces | bing_wordpress_crawler.py:37-45 | the bing table detects exactly what five literals detect (the generator meta tag is implied by "wordpress") |
| Fingerprints.BingLiteralReduces | bing_wordpress_crawler.py:37-45 | each bing literal occurrence implies one of the five reduced literals |
| Relevance.FlattenedAlphabet | simple_wp_crawler.py:59 | the masked, lowered text holds only spaces and lower-case letters |
| Relevance.TokensWellFormed | simple_wp_crawler.py:56-60 | tokens are non-empty lower-case words that are not stop words |
| Relevance.TokenIsLowerWord | simple_wp_crawler.py:59-60 | each token is a non-empty run of lower-case letters |
| Relevance.TokenOccursInText | simple_wp_crawler.py:59-60 | each token occurs in the lowered text |
| Relevance.TokenizeIgnoresCase | simple_wp_crawler.py:59 | tokenizing ignores case |
| Relevance.StopWordsOnlyNameHasNoTokens | simple_wp_crawler.py:50-60 | every name whose words, separated by single spaces and in any case, are all stop words (such as "The Clinic") has no tokens, so no site can match it |
| Store.CsvFile.Append | simple_wp_crawler.py:73-81 | appending makes the file exist and adds exactly the given rows at the end |
| Store.CsvFile.Overwrite | simple_wp_crawler.py:257-259 | opening for writing replaces the content |
| Store.WriteSite | simple_wp_crawler.py:67-88 | the header is written first exactly when the file did not exist, then the result row |
| Store.ResultRowsSpec | background_wp_crawler.py:200-206 | processing names in order adds at most one row per name, and a row exactly for each name with an outcome, naming it and its host |
| Store.ResultRowsAnyOrder | bing_wordpress_crawler.py:194-199 | the same rows, as a set and in number, whatever the completion order |
| Store.ReadFirstCells | simple_wp_crawler.py:90-103 | the processed names are the first cells of the non-empty rows after the first |
| Store.WrittenNameIsProcessed | simple_wp_crawler.py:67-103 | a name written to a file that was missing or non-empty is read back as processed |
| Store.HeaderNotCounted | simple_wp_crawler.py:76-78 | the header row of a new file is not read back as a name |
| Store.EmptyFileLosesFirstResult | simple_wp_crawler.py:71-78 | appended to an existing empty file, the first result has no header above it and is skipped as if it were one |
| Store.LoadNamesSkippingHeader | simple_wp_crawler.py:226-235 | the loading loop yields the stripped non-blank first cells, skipping a first row that reads "name" |
| Store.LoadedNamesClean | simple_wp_crawler.py:231-235 | every loaded name is stripped and non-blank |
| Store.LoadedNamesFromRows | simple_wp_crawler.py:230-235 | every loaded name comes from a row that is not the "name" header |
| Store.KeptRowsLoaded | simple_wp_crawler.py:230-235 | every row with a non-blank first cell, other than a leading "name" header, yields its name |
| Store.LoadNamesAfterFirstRow | enhanced_wp_crawler.py:53-62 | the loading loop skips the first row and keeps the stripped first cell of each non-empty row |
| Store.NamesAfterFirstRowSpec | enhanced_wp_crawler.py:58-61 | a name is loaded exactly when some non-empty row after the first yields it |
| Store.BlankNameKept | enhanced_wp_crawler.py:60-61 | any row after the first whose first cell is blank yields the empty name |
| Store.RemainingSpec | simple_wp_crawler.py:248-252 | the remaining names are exactly the loaded names not processed, in order; with nothing processed, all of them |
| SimpleCrawler.Pacing.constructor | simple_wp_crawler.py:20-25 | the delays start at half their base values |
| SimpleCrawler.Pacing.RevertSearchDelay | simple_wp_crawler.py:117-121 | a 429 from Bing sets the search delay to its base value, never lowering it |
| SimpleCrawler.Pacing.RevertFetchDelay | simple_wp_crawler.py:162-166 | a 429 from a site sets the fetch delay to its base value, never lowering it |
| SimpleCrawler.SearchBing | simple_wp_crawler.py:105-145 | the domains are the collected hosts of the outcome; the search delay is reverted exactly on a 429 |
| SimpleCrawler.SearchHostsSpec | simple_wp_crawler.py:118-141 | no domains unless the answer is 200; at most three, non-empty, from links, repeats kept, in page order |
| SimpleCrawler.TestRestApi | simple_wp_crawler.py:147-183 | True exactly when the walk's verdict is accept; the fetch delay is reverted exactly when the walk stopped on a 429 |
| SimpleCrawler.VerdictFromFirst | simple_wp_crawler.py:157-182 | the walk's verdict is that of the first URL, in path-major https-then-http order, that does not say "go on", and the requests made are those up to it |
| SimpleCrawler.VerdictFromAllSkipped | simple_wp_crawler.py:157-183 | when every URL says "go on", the answer is False after all six requests |
| SimpleCrawler.AcceptedAnswer | simple_wp_crawler.py:162-180 | a response accepts exactly when it is 200, has a JSON content type and a JSON-looking body, and its site tokens meet the name's; it stops the walk as throttled exactly when it is a 429 |
| SimpleCrawler.NoTokensNeverAccepted | simple_wp_crawler.py:177-180 | a name without tokens is never accepted |
| SimpleCrawler.AnyThrottledSpec | simple_wp_crawler.py:202-207 | the fetch delay has been reverted exactly when some tested domain stopped on a 429 |
| SimpleCrawler.TestDomains | simple_wp_crawler.py:201-211 | the first accepted domain is written and nothing after it is tested; no write when none is accepted |
| SimpleCrawler.ProcessIdn | simple_wp_crawler.py:185-215 | search, then write the first domain accepted for the name's tokens; the delays change as the 429s seen dictate |
| SimpleCrawler.NameOutcome | simple_wp_crawler.py:194-211 | a reported domain is one of the searched domains and is accepted |
| SimpleCrawler.NameOutcomeSpec | simple_wp_crawler.py:201-211 | no domain exactly when none is accepted; otherwise the first accepted one |
| SimpleCrawler.ProcessNames | simple_wp_crawler.py:265-285 | the file gains exactly one row per name with an outcome, in input order, and the count is the number of rows added |
| SimpleCrawler.Run | simple_wp_crawler.py:217-289 | nothing happens without names; otherwise the processed names are dropped, the header is written for a new file, and the rows are those of the remaining names in order |
| BackgroundCrawler.ColumnOf | background_wp_crawler.py:69-71 | a dictionary row takes a key from the last header column of that name; no column when the header lacks it |
| BackgroundCrawler.LoadIdnNames | background_wp_crawler.py:64-79 | the loader returns the names of the "Network Name" column, or none when the file is missing or reading raises |
| BackgroundCrawler.DictNamesRaised | background_wp_crawler.py:67-76 | once a row raises, the whole load yields no names |
| BackgroundCrawler.DictNamesRaisesIffShortRow | background_wp_crawler.py:69-76 | reading raises exactly when the header has the column and some non-empty row is too short to reach it |
| BackgroundCrawler.DictNamesNoColumn | background_wp_crawler.py:71 | without the column every row yields the default "" and no name is kept |
| BackgroundCrawler.DictNamesClean | background_wp_crawler.py:71-73 | every loaded name is stripped and non-blank |
| BackgroundCrawler.DictNamesMembers | background_wp_crawler.py:70-73 | a name is loaded exactly when some row's stripped column value is that name |
| BackgroundCrawler.ShortRowLosesAllNames | background_wp_crawler.py:71-76 | whenever the header has the column, any one non-empty row too short to reach it empties the whole name list |
| BackgroundCrawler.SearchBing | background_wp_crawler.py:93-122 | the domains are the collected hosts of the outcome |
| BackgroundCrawler.SearchHostsSpec | background_wp_crawler.py:99-118 | no domains unless the answer is 200; at most two distinct non-empty link hosts, in first-seen order |
| BackgroundCrawler.DomainProbeAt | background_wp_crawler.py:146-149 | probe p·7+q of a domain is `https://` + prefix p + domain + path q |
| BackgroundCrawler.NameProbeAt | background_wp_crawler.py:146-149 | the probe sequence has 42 probes per domain, domain-major then prefix-major; each domain's first probe is its bare root |
| BackgroundCrawler.TestDomain | background_wp_crawler.py:147-154 | a domain passes exactly when one of its probes shows WordPress; the walk stops at the first |
| BackgroundCrawler.TestDomains | background_wp_crawler.py:146-156 | the result is the domain of the first passing probe, after exactly the probes up to it |
| BackgroundCrawler.DomainStep | background_wp_crawler.py:146-156 | from a domain's block of the probe sequence, the walk stops at that domain's first passing probe, which carries the domain, or goes on with the next domain |
| BackgroundCrawler.DomainProbeDomain | background_wp_crawler.py:151-152 | a hit on a prefixed host reports the base domain, not the host |
| BackgroundCrawler.CheckIdn | background_wp_crawler.py:135-160 | the check returns the name's outcome |
| BackgroundCrawler.NameOutcomeSpec | background_wp_crawler.py:142-156 | no domain exactly when no probe passes; otherwise the domain of the first passing probe, at a stated prefix and path |
| BackgroundCrawler.ProcessNames | background_wp_crawler.py:200-206 | the file gains exactly one row per name with an outcome, in input order; the count is the rows added |
| BackgroundCrawler.Run | background_wp_crawler.py:162-217 | nothing happens without names; otherwise the header is written for a new file and the rows are those of all names in order |
| EnhancedCrawler.BingSearch | enhanced_wp_crawler.py:65-88 | the hosts are the collected hosts of the answer to "<name> official website" |
| EnhancedCrawler.SearchHostsSpec | enhanced_wp_crawler.py:69-88 | at most ten distinct non-empty link hosts; none when the request raised; the status code is ignored |
| EnhancedCrawler.ExpandHosts | enhanced_wp_crawler.py:91-105 | the expansion loop yields the de-duplicated expansion |
| EnhancedCrawler.ExpansionLength | enhanced_wp_crawler.py:93-104 | before de-duplication there are six entries per host |
| EnhancedCrawler.ExpansionOrder | enhanced_wp_crawler.py:94-104 | each host comes before its own variants and after the previous host's |
| EnhancedCrawler.ExpansionMembers | enhanced_wp_crawler.py:94-104 | an entry is a host or a prefix before a host's base |
| EnhancedCrawler.ExpandHostsSpec | enhanced_wp_crawler.py:91-105 | the expanded hosts are distinct, at most six per host, and exactly the hosts and their prefixed bases |
| EnhancedCrawler.BaseIsLastLabels | enhanced_wp_crawler.py:97-101 | the base is the last two labels of a host with more than two, else the host |
| EnhancedCrawler.FailedFetchNeverMatches | enhanced_wp_crawler.py:108-115 | an error status, a non-text type or a raised request gives text that matches no fingerprint |
| EnhancedCrawler.TestHost | enhanced_wp_crawler.py:126-145 | the host passes exactly when its probe walk passes, after exactly the probes the walk makes |
| EnhancedCrawler.TestPaths | enhanced_wp_crawler.py:136-144 | the path loop for one scheme returns True exactly when one of its path probes succeeds, after the probes up to that one |
| EnhancedCrawler.PassesFromPaths | enhanced_wp_crawler.py:126-145 | the walk from a path is the path loop, followed by the next scheme's walk only when the path loop fails |
| EnhancedCrawler.TestPath | enhanced_wp_crawler.py:137-144 | one path probe succeeds exactly as the probe table says: the login page by a HEAD below 400, any other path by a fingerprint in its text |
| EnhancedCrawler.PathsPassFromSpec | enhanced_wp_crawler.py:136-144 | the path loop's success predicate holds exactly when some path probe from the given one on succeeds |
| EnhancedCrawler.PassesFromSpec | enhanced_wp_crawler.py:126-145 | the walk passes exactly when some later probe (root GET, HEAD of the login page, or a path GET) succeeds |
| EnhancedCrawler.ProcessName | enhanced_wp_crawler.py:148-158 | the result is the name's outcome, after testing exactly the hosts up to the first that passes |
| EnhancedCrawler.NameOutcomeSpec | enhanced_wp_crawler.py:150-158 | a hit exactly when some expanded host passes, and then it is the first such host with the name |
| EnhancedCrawler.NoHostsNoHit | enhanced_wp_crawler.py:151-152 | no search hosts means no hit |
| EnhancedCrawler.SortByNameSorted | enhanced_wp_crawler.py:192 | the sorted hits are ordered by lowered name |
| EnhancedCrawler.SortByNamePermutes | enhanced_wp_crawler.py:192 | sorting keeps exactly the hits |
| EnhancedCrawler.HitsInInputOrder | enhanced_wp_crawler.py:180-184 | a hit is collected exactly when some name's outcome is that hit |
| EnhancedCrawler.CollectResults | enhanced_wp_crawler.py:175-184 | the hits are collected in task completion order |
| EnhancedCrawler.Run | enhanced_wp_crawler.py:161-197 | the output is overwritten with the header and the hits sorted by lowered name |
| EnhancedCrawler.RunOutputSpec | enhanced_wp_crawler.py:180-196 | the written hits are sorted, are the same multiset whatever the completion order, and are exactly the names' outcomes |
| RobustCrawler.LoadNonBlankNames | robust_wp_crawler.py:186-193 | the loop skips the first row and keeps the stripped non-blank first cells |
| RobustCrawler.NonBlankNamesClean | robust_wp_crawler.py:191-193 | every loaded name is stripped and non-blank |
| RobustCrawler.NonBlankNamesMembers | robust_wp_crawler.py:190-193 | a name is loaded exactly when some row after the first yields it |
| RobustCrawler.ReadProcessedNames | robust_wp_crawler.py:48-61 | the processed names are the stripped non-blank first cells after the first row, none when the file is missing |
| RobustCrawler.AppendedNameIsProcessed | robust_wp_crawler.py:63-73 | after an append, the processed names gain exactly the written name |
| RobustCrawler.SafeBingSearch | robust_wp_crawler.py:81-126 | the hosts are those of the first answered attempt, after exactly the attempts made |
| RobustCrawler.SearchHostsSpec | robust_wp_crawler.py:87-126 | one or two attempts, none after the first 200; no hosts when no attempt is answered; otherwise at most two distinct link hosts of that answer |
| RobustCrawler.SafeTestRestApi | robust_wp_crawler.py:128-147 | True exactly when some API path answers with JSON over some protocol; all six requests when none does |
| RobustCrawler.RepeatsNotRemoved | robust_wp_crawler.py:161-165 | whenever a later search host is a prefixed variant of an earlier one, that host occurs twice in the expansion, so it is tested twice |
| RobustCrawler.FindHost | robust_wp_crawler.py:167-174 | the first expanded host with an open API, each host tested once per path before moving on |
| RobustCrawler.NameOutcomeSpec | robust_wp_crawler.py:156-174 | no host exactly when no expanded host has an open API; otherwise the first that has |
| RobustCrawler.ProcessSingleIdn | robust_wp_crawler.py:149-178 | a hit appends `[name, https://host]`; no hit leaves the file alone |
| RobustCrawler.ProcessNames | robust_wp_crawler.py:241-259 | the file gains exactly one row per name with an outcome, in order; the count is the rows added |
| RobustCrawler.Run | robust_wp_crawler.py:180-262 | a missing input ends the run, an empty input raises, no remaining names ends it unchanged; otherwise the remaining names are processed in order after the header |
| RobustCrawler.ToProcessSpec | robust_wp_crawler.py:200-205 | a name is processed exactly when it is loaded and not read back from the output; everything is processed when there is no output file |
| BingCrawler.BingSearch | bing_wordpress_crawler.py:60-93 | the hosts are the collected hosts of the answer to "<name> official website" |
| BingCrawler.SearchHostsSpec | bing_wordpress_crawler.py:66-93 | no hosts unless the answer is 200; at most three distinct non-empty link hosts in first-seen order |
| BingCrawler.TestWordpressAt | bing_wordpress_crawler.py:95-114 | the https request, and the http request only when that raised, decide the test |
| BingCrawler.HttpOnlyAfterRaise | bing_wordpress_crawler.py:98-104 | once https answers, http plays no part, and a non-200 answer fails |
| BingCrawler.TestPaths | bing_wordpress_crawler.py:138-142 | a host passes when one of its paths shows WordPress, after the paths up to it |
| BingCrawler.FindHost | bing_wordpress_crawler.py:137-144 | the result is the first expanded host that passes |
| BingCrawler.FirstPathSpec | bing_wordpress_crawler.py:138-139 | the first passing path, or none when no path passes |
| BingCrawler.NameOutcomeSpec | bing_wordpress_crawler.py:129-144 | no host exactly when no expanded host passes; otherwise the first that does |
| BingCrawler.CheckIdn | bing_wordpress_crawler.py:116-144 | a hit appends `[name, https://host]`; no hit leaves the file alone |
| BingCrawler.ProcessInOrder | bing_wordpress_crawler.py:184-199 | the file gains the names' rows in task completion order; the count is the rows added |
| BingCrawler.InitOutput | bing_wordpress_crawler.py:164-171 | a new output file holds exactly the header |
| BingCrawler.Run | bing_wordpress_crawler.py:146-202 | a missing input ends the run, an empty input raises; otherwise a new file is given the header and every name's row follows in completion order |
| IncrementalCrawler.SearchBing | incremental_wp_crawler.py:76-105 | the domains are the collected hosts of the outcome |
| IncrementalCrawler.SearchHostsSpec | incremental_wp_crawler.py:81-101 | no domains unless the answer is 200; at most two non-empty link hosts, repeats kept, in page order |
| IncrementalCrawler.TestUrlsSpec | incremental_wp_crawler.py:135-148 | five URLs on the domain, then two on `www.` + domain exactly when the domain does not start with `www.` |
| IncrementalCrawler.TestDomain | incremental_wp_crawler.py:150-160 | a domain passes when one of its URLs shows WordPress |
| IncrementalCrawler.FindDomain | incremental_wp_crawler.py:133-162 | the result is the first domain that passes |
| IncrementalCrawler.FirstUrlSpec | incremental_wp_crawler.py:150-155 | the first URL showing WordPress, or none when none does |
| IncrementalCrawler.NameOutcomeSpec | incremental_wp_crawler.py:126-162 | no domain exactly when no domain passes; otherwise the first that does |
| IncrementalCrawler.ProcessIdn | incremental_wp_crawler.py:120-166 | a hit appends `[name, domain]`; no hit leaves the file alone |
| IncrementalCrawler.ProcessNames | incremental_wp_crawler.py:226-239 | the file gains exactly one row per name with an outcome, in order; the count is the rows added |
| IncrementalCrawler.Run | incremental_wp_crawler.py:168-243 | without names nothing changes; otherwise the file is overwritten with the header and the rows of all names in order |
| IncrementalCrawler.RunForgetsEarlierResults | incremental_wp_crawler.py:194-202 | after a run the file holds the header and only this run's results |
| RenderCrawler.CrawlerState.constructor | render_crawler.py:27-35 | the state starts stopped with zero counters and no current name |
| RenderCrawler.CrawlerState.RequestStop | render_crawler.py:253-257 | `/stop` clears `running` and nothing else |
| RenderCrawler.LoadIdns | render_crawler.py:53-68 | the names of the input, skipping a "name" header, or none when it is missing |
| RenderCrawler.GetProcessedIdns | render_crawler.py:70-83 | the stripped first cells of the non-empty rows after the first, none when the file is missing |
| RenderCrawler.ToProcessSpec | render_crawler.py:199-201 | a name is processed exactly when it is loaded and not read back; everything when there is no output |
| RenderCrawler.WriteWordpressSite | render_crawler.py:85-109 | the header goes first unless the file exists and its first line strips to `name,domain`, then the row |
| RenderCrawler.HeaderFirstLine | render_crawler.py:92-96 | a file starting with the header needs no new header |
| RenderCrawler.EmptyFileNeedsHeader | render_crawler.py:90-96 | an empty or missing file gets a header |
| RenderCrawler.WrittenSiteFirstLine | render_crawler.py:85-103 | after a write the file starts with the header exactly when it was empty or already started with it |
| RenderCrawler.WrittenNameIsProcessed | render_crawler.py:70-103 | a write adds the stripped name to what is read back, and also "name" when a header was written below other content |
| RenderCrawler.WrittenAllExtends | render_crawler.py:99-103 | writes only ever append |
| RenderCrawler.WrittenAllAfterHeader | render_crawler.py:92-103 | into a file starting with the header, successive writes append exactly the result rows |
| RenderCrawler.WrittenAllNewFile | render_crawler.py:89-103 | into an empty or missing file, successive writes give one header and then the result rows |
| RenderCrawler.HeaderEach | render_crawler.py:101-103 | a header before every result row |
| RenderCrawler.WrittenAllStrayFirstLine | render_crawler.py:92-103 | when the first line is not the header, every write repeats the header before its row |
| RenderCrawler.BingSearch | render_crawler.py:111-143 | the domains are the collected hosts of the outcome |
| RenderCrawler.SearchHostsSpec | render_crawler.py:121-140 | no domains when the request raised or the status is 400 to 599; at most three distinct non-empty link hosts in first-seen order |
| RenderCrawler.LoweredPatternIsFingerprint | render_crawler.py:159-162 | the lowered-substring test is case-insensitive literal containment of the six patterns |
| RenderCrawler.HttpNamedDomainMissed | render_crawler.py:148-149 | a WordPress domain whose name starts with "http" is missed by the code as written and found by the corrected test |
| RenderCrawler.TestWordpressSpec | render_crawler.py:145-166 | the corrected test holds exactly when the https root answers without an error status and contains a pattern; it agrees with the code for other domains |
| RenderCrawler.TestWordpressAt | render_crawler.py:145-166 | the pattern loop decides the corrected test |
| RenderCrawler.NameOutcomeSpec | render_crawler.py:176-188 | no domain exactly when none passes; otherwise the first that does |
| RenderCrawler.FindDomain | render_crawler.py:181-188 | the domain loop returns the first domain that passes |
| RenderCrawler.ProcessIdn | render_crawler.py:168-188 | the current name is recorded, `found` grows by one exactly on a hit, and a hit is written |
| RenderCrawler.StopPointSpec | render_crawler.py:208-210 | the loop stops at the first iteration before which `/stop` was called, or runs through |
| RenderCrawler.RunStep | render_crawler.py:208-213 | one loop iteration extends the written rows by that name's result |
| RenderCrawler.ProcessRemaining | render_crawler.py:208-219 | progress reaches the stop point, `found` grows by the hits, and the file holds the writes of the hits in order |
| RenderCrawler.RunCrawler | render_crawler.py:190-226 | the run sets the total to the remaining names, processes them until stopped, and always ends not running |
| RenderCrawler.Start | render_crawler.py:241-251 | a running crawler is not started again and its state and output file are unchanged; otherwise the run's whole effect is that of `RunCrawler`: total, progress up to the stop point, hits counted, rows written, and not running at the end |

## Left out

- Sleeping, jitter, timeouts, logging, progress lines, time stamps and
  elapsed-time summaries are left out. They do not affect what is written.
  The simple variant's two delay values are kept, because they change on a 429.
- HTML parsing is not modelled. A search page is the list of `href`
  values of the anchors the CSS selectors pick, in document order. The
  selector differences between variants are not modelled.
- EnhancedCrawler.ProbeUrl strips trailing slashes from the host, not from
  `scheme://host`. The two agree for every host a link yields, since a
  non-empty authority holds no `/`.
- URL parsing is the `authority` parameter. JSON decoding in the simple
  variant is the `jsonName` parameter.
- Case folding is ASCII only. Python's `lower()` and `re.IGNORECASE` also
  fold non-ASCII letters.
- `quote`/`quote_plus` of the query are not modelled. The search oracle is
  keyed by the query text.
- CSV quoting is not modelled. Rows are sequences of cells. The render
  variant's first line is the cells of the first row joined with commas.
- Concurrency is not modelled:
  - the enhanced and bing variants' semaphores and tasks are left out;
  - their completion order is the `order` parameter;
  - the render variant's worker thread is left out, and `Start` runs the
    crawl synchronously;
  - `/stop` calls are the `stopRequested` parameter, consulted before each
    iteration.
- The render variant's `/`, `/status` and `/download` routes are left out.
  They only report state or send the file. `app.py` and `start_crawlers.py`
  are not part of this model.
- The unused `WP_REGEX` of the simple variant has its pattern table modelled.
  The unused `WP_PATTERNS` of the robust variant is left out.
- `KeyboardInterrupt` and other unexpected exceptions inside the main loops
  are left out. The oracles are total, and a raised request is the `Failed`
  answer.
- Failures to write the output file are left out. Writes always succeed.
- EnhancedCrawler.Run: requires the input file to exist. The code raises
  `FileNotFoundError` and stops before doing anything.
- SimpleCrawler.ProcessNames: the delay values after the loop are not stated.
  `ProcessIdn` states them for one name.
- RenderCrawler.RunCrawler: does not state `current_idn` after the run.
  `ProcessIdn` states it for each name.
- EnhancedCrawler.BingSearch: skips a link whose `urlsplit` raises. In the
  code that parse (enhanced_wp_crawler.py:83) is outside any `try`, so the
  exception leaves `bing_search`, `process_name` and `run`. The run then
  aborts and no output file is written.
- RenderCrawler.FindDomain: uses the corrected per-domain test
  `TestWordpress`, not the code's `TestWordpressAsWritten`. The two differ
  only for a domain that starts with `http`; see "## Findings".
- RenderCrawler.TestWordpressAt: decides the corrected per-domain test
  `TestWordpress`, not `TestWordpressAsWritten`. It always fetches the
  `https` root, even for a domain that starts with `http`; see "## Findings".
- RenderCrawler.NameOutcomeSpec: states the outcome with the corrected
  per-domain test, as `FindDomain` does.
- RenderCrawler.ProcessIdn: writes the outcome of the corrected per-domain
  test.
- RenderCrawler.RunStep: extends the rows by the outcome of the corrected
  per-domain test.
- RenderCrawler.ProcessRemaining: its rows and `found` count follow the
  corrected per-domain test.
- RenderCrawler.RunCrawler: its rows and `found` count follow the corrected
  per-domain test.
- RenderCrawler.Start: a started run follows the corrected per-domain test,
  as `RunCrawler` does.
- RobustCrawler.FindHost: responses are a function of the URL, so the four
  repeated `safe_test_rest_api` calls per host count as one answer. In the
  code a later repeat can pass after an earlier one failed, for instance
  after a timeout, so it accepts some hosts the model rejects.
- RobustCrawler.NameOutcomeSpec: states the outcome for URL-keyed responses,
  with one answer per host, as `FindHost` does.
- RenderCrawler.ProcessRemaining: does not model an exception inside the
  loop. The code's `finally` would then stop the crawler early.

## Findings

| source | as written | input that shows it | evidently intended | confidence | as-written member | corrected member |
|---|---|---|---|---|---|---|
| render_crawler.py:148 | a domain is given the `https://` scheme only when it does not already start with `http`, so a bare domain such as `httpbin.org` is requested with no scheme; the request raises and the domain counts as not WordPress | domain `httpbin.org` whose `https://httpbin.org` page answers 200 with a body containing `/wp-content/` | prefix `https://` to every bare domain from the search, since `bing_search` only ever returns host names | not executed | RenderCrawler.HttpNamedDomainMissed | RenderCrawler.TestWordpressSpec |

A few behaviours of the code are easy to miss. The model follows the code in
each:
- The render variant's `raise_for_status` rejects only statuses 400 to 599.
  Other non-2xx answers are read as pages.
- The enhanced variant's Bing search never checks the status code.
- In the enhanced variant, a host's variants can come before the host itself
  after de-duplication. This happens when an earlier host produced the same
  variant.
- The robust variant's path loop never uses the path. Each host's REST API
  test is run again once per path. In the model the responses are a
  function of the URL, so every repeat gives the same result.
