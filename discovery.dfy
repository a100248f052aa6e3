/** What every crawler variant does with a Bing result page: walk the result
    anchors in document order, keep the authority (`netloc`, or `hostname` in
    the enhanced variant) of every `http…` link whose authority is non-empty,
    optionally skip hosts already kept, and stop once `cap` hosts are kept.

    The HTML parsing is not modelled: a page is the list of `href` values of
    the selected anchors, in document order, with "" for an anchor without an
    `href`. The URL parser is the `authority` function: it yields the
    authority component of the link (section 3.2 of RFC 3986), or None when
    the parser raised. */
module Discovery {
  import opened Seqs
  import opened Text

  /** The URL of a request, kept as its parts: the string
      `scheme + "://" + host + path` is determined by them. */
  datatype Url = Url(scheme: string, host: string, path: string)

  /** One HTTP request as the crawler sees it: it raised (connection error,
      timeout, TLS failure, undecodable body), or it produced a response with
      a final status, a content type and a body. */
  datatype Fetch = Failed | Reply(status: int, contentType: string, body: string)

  /** One Bing search request: it raised, or it produced a status and the
      result anchors' `href` values. */
  datatype SearchOutcome = SearchFailed | SearchPage(status: int, links: seq<string>)

  /** The host one result anchor contributes, if any. */
  function LinkHost(href: string, authority: string -> Option<string>): Option<string>
  {
    if StartsWith(href, "http") then
      match authority(href)
      case Some(n) => if n != "" then Some(n) else None
      case None => None
    else None
  }

  /** h is the host of some result anchor. */
  predicate FromLink(links: seq<string>, authority: string -> Option<string>, h: string)
  {
    exists k :: 0 <= k < |links| && LinkHost(links[k], authority) == Some(h)
  }

  /** The hosts of all result anchors, in document order, repeats included. */
  function LinkHosts(links: seq<string>, authority: string -> Option<string>): seq<string>
    decreases |links|
  {
    if links == [] then []
    else
      var init := LinkHosts(links[..|links| - 1], authority);
      match LinkHost(links[|links| - 1], authority)
      case Some(h) => init + [h]
      case None => init
  }

  /** The hosts a collecting loop keeps before applying its cap. */
  function Candidates(links: seq<string>, authority: string -> Option<string>, dedupe: bool): seq<string>
  {
    if dedupe then Dedupe(LinkHosts(links, authority)) else LinkHosts(links, authority)
  }

  /** The host list a search returns: the first `cap` candidates. */
  function ExtractHosts(links: seq<string>, authority: string -> Option<string>, cap: nat, dedupe: bool): seq<string>
  {
    Take(Candidates(links, authority, dedupe), cap)
  }

  lemma {:induction false} LinkHostsMembers(links: seq<string>, authority: string -> Option<string>)
    ensures forall h :: h in LinkHosts(links, authority) <==> FromLink(links, authority, h)
    ensures forall h :: h in LinkHosts(links, authority) ==> h != ""
    decreases |links|
  {
    if links != [] {
      var init := links[..|links| - 1];
      LinkHostsMembers(init, authority);
      forall h ensures FromLink(links, authority, h) <==> FromLink(init, authority, h) || LinkHost(links[|links| - 1], authority) == Some(h) {
        if FromLink(links, authority, h) {
          var k :| 0 <= k < |links| && LinkHost(links[k], authority) == Some(h);
          if k < |init| {
            assert init[k] == links[k];
          }
        }
        if FromLink(init, authority, h) {
          var k :| 0 <= k < |init| && LinkHost(init[k], authority) == Some(h);
          assert links[k] == init[k];
        }
      }
    }
  }

  lemma LinkHostsSnoc(links: seq<string>, authority: string -> Option<string>, i: nat)
    requires i < |links|
    ensures LinkHosts(links[..i + 1], authority)
         == LinkHosts(links[..i], authority) + (if LinkHost(links[i], authority).Some? then [LinkHost(links[i], authority).value] else [])
  {
    assert links[..i + 1][..i] == links[..i];
  }

  lemma {:induction false} LinkHostsPrefix(links: seq<string>, authority: string -> Option<string>, i: nat)
    requires i <= |links|
    ensures IsPrefix(LinkHosts(links[..i], authority), LinkHosts(links, authority))
    decreases |links| - i
  {
    if i == |links| {
      assert links[..i] == links;
    } else {
      LinkHostsPrefix(links, authority, i + 1);
      LinkHostsSnoc(links, authority, i);
      PrefixOfAppend(LinkHosts(links[..i], authority), if LinkHost(links[i], authority).Some? then [LinkHost(links[i], authority).value] else []);
      PrefixTrans(LinkHosts(links[..i], authority), LinkHosts(links[..i + 1], authority), LinkHosts(links, authority));
    }
  }

  lemma CandidatesPrefix(links: seq<string>, authority: string -> Option<string>, dedupe: bool, i: nat)
    requires i <= |links|
    ensures IsPrefix(Candidates(links[..i], authority, dedupe), Candidates(links, authority, dedupe))
  {
    var a, b := LinkHosts(links[..i], authority), LinkHosts(links, authority);
    LinkHostsPrefix(links, authority, i);
    if dedupe {
      assert b[..|a|] == a;
      DedupePrefix(b, |a|);
    }
  }

  /** One more anchor adds its host to the candidates when it has one and,
      when deduplicating, when that host is not a candidate yet. */
  lemma CandidatesSnoc(links: seq<string>, authority: string -> Option<string>, dedupe: bool, i: nat)
    requires i < |links|
    ensures var c, h := Candidates(links[..i], authority, dedupe), LinkHost(links[i], authority);
      Candidates(links[..i + 1], authority, dedupe)
        == if h.Some? && (!dedupe || h.value !in c) then c + [h.value] else c
  {
    LinkHostsSnoc(links, authority, i);
    var h := LinkHost(links[i], authority);
    var seen := LinkHosts(links[..i], authority);
    if h.Some? {
      assert LinkHosts(links[..i + 1], authority) == seen + [h.value];
      if dedupe {
        DedupeSnoc(seen, h.value);
      }
    } else {
      assert LinkHosts(links[..i + 1], authority) == seen;
    }
  }

  /** Once `cap` candidates are kept from a prefix of the anchors, they are
      the returned hosts. */
  lemma CapReached(links: seq<string>, authority: string -> Option<string>, cap: nat, dedupe: bool, i: nat)
    requires i <= |links| && |Candidates(links[..i], authority, dedupe)| == cap
    ensures Candidates(links[..i], authority, dedupe) == ExtractHosts(links, authority, cap, dedupe)
  {
    CandidatesPrefix(links, authority, dedupe, i);
    var c, all := Candidates(links[..i], authority, dedupe), Candidates(links, authority, dedupe);
    if |all| <= cap {
      assert all == all[..|c|] == c;
    }
  }

  /** The host-collection loop of the search functions: for each anchor, keep
      its host when it has one (and, when deduplicating, when it was not kept
      before), and break as soon as `cap` hosts are kept. */
  method CollectHosts(links: seq<string>, authority: string -> Option<string>, cap: nat, dedupe: bool)
    returns (hosts: seq<string>)
    requires cap >= 1
    ensures hosts == ExtractHosts(links, authority, cap, dedupe)
  {
    hosts := [];
    var i := 0;
    while i < |links|
      invariant 0 <= i <= |links|
      invariant hosts == Candidates(links[..i], authority, dedupe)
      invariant |hosts| < cap
    {
      CandidatesSnoc(links, authority, dedupe, i);
      var h := LinkHost(links[i], authority);
      if h.Some? && (!dedupe || h.value !in hosts) {
        hosts := hosts + [h.value];
        if |hosts| >= cap {
          CapReached(links, authority, cap, dedupe, i + 1);
          return;
        }
      }
      i := i + 1;
    }
    assert links[..i] == links;
  }

  /** The returned hosts are at most `cap`, each the non-empty host of some
      `http` anchor; deduplicated lists hold no repeats; lists that are not
      deduplicated are the anchors' hosts in document order; and a list
      shorter than `cap` holds every anchor's host. */
  lemma ExtractHostsSound(links: seq<string>, authority: string -> Option<string>, cap: nat, dedupe: bool)
    ensures var r := ExtractHosts(links, authority, cap, dedupe);
      && |r| <= cap
      && (forall h :: h in r ==> h != "" && FromLink(links, authority, h))
      && (dedupe ==> Distinct(r))
      && (!dedupe ==> IsPrefix(r, LinkHosts(links, authority)))
      && (|r| < cap ==> forall h :: FromLink(links, authority, h) ==> h in r)
  {
    var r := ExtractHosts(links, authority, cap, dedupe);
    var all := LinkHosts(links, authority);
    LinkHostsMembers(links, authority);
    if dedupe {
      DedupeElements(all);
      DedupeDistinct(all);
    }
    forall h | h in r ensures h != "" && FromLink(links, authority, h) {
      var k :| 0 <= k < |r| && r[k] == h;
      assert r[k] == Candidates(links, authority, dedupe)[k];
      if dedupe {
        DedupeMember(all, k);
      } else {
        assert all[k] == h;
      }
      assert h in all;
    }
  }

  /** Deduplicated host lists are in first-seen order: an earlier host first
      appeared in the page before a later one. */
  lemma ExtractHostsFirstSeen(links: seq<string>, authority: string -> Option<string>, cap: nat, i: nat, j: nat)
    requires i < j < |ExtractHosts(links, authority, cap, true)|
    ensures var r, all := ExtractHosts(links, authority, cap, true), LinkHosts(links, authority);
      r[i] in all && r[j] in all && IndexOf(all, r[i]) < IndexOf(all, r[j])
  {
    var all := LinkHosts(links, authority);
    DedupeFirstSeenOrder(all, i, j);
  }

  /** Two result anchors with the same host, the second reached before the
      cap: without de-duplication the host is returned twice, with it once. */
  lemma RepeatsKeptWithoutDedupe(links: seq<string>, authority: string -> Option<string>, cap: nat,
                                 i: nat, j: nat, h: string)
    requires i < j < |links|
    requires LinkHost(links[i], authority) == Some(h) && LinkHost(links[j], authority) == Some(h)
    requires |LinkHosts(links[..j + 1], authority)| <= cap
    ensures var r := ExtractHosts(links, authority, cap, false);
      exists p, q :: 0 <= p < q < |r| && r[p] == h && r[q] == h
    ensures var r := ExtractHosts(links, authority, cap, true);
      h in r && Distinct(r)
  {
    var p, q := LinkHostRepeat(links, authority, i, j, h);
    var r := ExtractHosts(links, authority, cap, false);
    assert r == Take(LinkHosts(links, authority), cap);
    assert q < |r| && r[p] == h && r[q] == h;
    DedupedHostKept(LinkHosts(links, authority), cap, p);
  }

  /** Where the two anchors' hosts sit in the page's host list. */
  lemma LinkHostRepeat(links: seq<string>, authority: string -> Option<string>, i: nat, j: nat, h: string)
    returns (p: nat, q: nat)
    requires i < j < |links|
    requires LinkHost(links[i], authority) == Some(h) && LinkHost(links[j], authority) == Some(h)
    ensures p < q < |LinkHosts(links[..j + 1], authority)| <= |LinkHosts(links, authority)|
    ensures LinkHosts(links, authority)[p] == h && LinkHosts(links, authority)[q] == h
  {
    var all := LinkHosts(links, authority);
    p, q := |LinkHosts(links[..i], authority)|, |LinkHosts(links[..j], authority)|;
    LinkHostsSnoc(links, authority, i);
    LinkHostsSnoc(links, authority, j);
    LinkHostsPrefix(links, authority, i + 1);
    LinkHostsPrefix(links, authority, j + 1);
    assert links[..j][..i + 1] == links[..i + 1];
    LinkHostsPrefix(links[..j], authority, i + 1);
    assert all[p] == LinkHosts(links[..i + 1], authority)[p];
    assert all[q] == LinkHosts(links[..j + 1], authority)[q];
  }

  /** An element at position p < cap survives de-duplication and the cap. */
  lemma DedupedHostKept(all: seq<string>, cap: nat, p: nat)
    requires p < |all| && p < cap
    ensures all[p] in Take(Dedupe(all), cap) && Distinct(Take(Dedupe(all), cap))
  {
    var d := Dedupe(all);
    DedupeDistinct(all);
    DedupePrefix(all, p + 1);
    DedupeElements(all[..p + 1]);
    assert all[..p + 1][p] == all[p];
    var e := Dedupe(all[..p + 1]);
    var n :| 0 <= n < |e| && e[n] == all[p];
    assert Take(d, cap)[n] == d[n];
  }

  // ---------------------------------------------------------------------------
  // Host expansion with sub-domain prefixes (robust and bing variants): each
  // base host, then each prefix prepended to it, repeats kept.
  // ---------------------------------------------------------------------------

  /** One base host and its prefixed variants, in prefix order. */
  function PrefixVariants(prefixes: seq<string>, host: string): seq<string> {
    [host] + Prefixed(prefixes, host)
  }

  function PrefixTable(prefixes: seq<string>, hosts: seq<string>): seq<seq<string>> {
    seq(|hosts|, i requires 0 <= i < |hosts| => PrefixVariants(prefixes, hosts[i]))
  }

  /** `all_hosts`: each base host followed by its variants. */
  function PrefixExpansion(prefixes: seq<string>, hosts: seq<string>): seq<string> {
    Concat(PrefixTable(prefixes, hosts))
  }

  /** The nested loop that builds `all_hosts`. */
  method ExpandWithPrefixes(prefixes: seq<string>, hosts: seq<string>) returns (all: seq<string>)
    ensures all == PrefixExpansion(prefixes, hosts)
  {
    ghost var table := PrefixTable(prefixes, hosts);
    all := [];
    for i := 0 to |hosts|
      invariant all == Concat(table[..i])
    {
      all := all + [hosts[i]];
      for k := 0 to |prefixes|
        invariant all == Concat(table[..i]) + ([hosts[i]] + Prefixed(prefixes[..k], hosts[i]))
      {
        PrefixedSnoc(prefixes, hosts[i], k);
        all := all + [prefixes[k] + hosts[i]];
      }
      assert prefixes[..|prefixes|] == prefixes;
      ConcatSnoc(table, i);
    }
    assert table[..|hosts|] == table;
  }

  lemma PrefixTableUniform(prefixes: seq<string>, hosts: seq<string>)
    ensures forall i :: 0 <= i < |hosts| ==> |PrefixTable(prefixes, hosts)[i]| == |prefixes| + 1
  {
    forall i | 0 <= i < |hosts| ensures |PrefixTable(prefixes, hosts)[i]| == |prefixes| + 1 {
      PrefixedSpec(prefixes, hosts[i]);
    }
  }

  /** The expansion has |prefixes| + 1 entries per base host, with no
      deduplication: base host i comes first in its group, followed by each
      prefix prepended to it, in prefix order. */
  lemma PrefixExpansionAt(prefixes: seq<string>, hosts: seq<string>, i: nat, k: nat)
    requires i < |hosts| && k < |prefixes|
    ensures |PrefixExpansion(prefixes, hosts)| == |hosts| * (|prefixes| + 1)
    ensures i * (|prefixes| + 1) + |prefixes| < |PrefixExpansion(prefixes, hosts)|
    ensures PrefixExpansion(prefixes, hosts)[i * (|prefixes| + 1)] == hosts[i]
    ensures PrefixExpansion(prefixes, hosts)[i * (|prefixes| + 1) + 1 + k] == prefixes[k] + hosts[i]
  {
    var table, n := PrefixTable(prefixes, hosts), |prefixes| + 1;
    PrefixTableUniform(prefixes, hosts);
    ConcatUniformLength(table, n);
    MulMono(i + 1, |hosts|, n);
    assert (i + 1) * n == i * n + n;
    ConcatUniformIndex(table, n, i, 0);
    ConcatUniformIndex(table, n, i, 1 + k);
    PrefixedSpec(prefixes, hosts[i]);
  }

  /** Every expanded host is a base host or a prefixed base host, in the
      group of its base host. */
  lemma PrefixExpansionFrom(prefixes: seq<string>, hosts: seq<string>, m: nat) returns (i: nat, v: nat)
    requires m < |PrefixExpansion(prefixes, hosts)|
    ensures i < |hosts| && v <= |prefixes| && m == i * (|prefixes| + 1) + v
    ensures PrefixExpansion(prefixes, hosts)[m] == if v == 0 then hosts[i] else prefixes[v - 1] + hosts[i]
  {
    PrefixTableUniform(prefixes, hosts);
    i, v := ConcatUniformSplit(PrefixTable(prefixes, hosts), |prefixes| + 1, m);
    PrefixedSpec(prefixes, hosts[i]);
  }
}
