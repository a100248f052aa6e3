/** The WordPress fingerprint tables of the crawler variants, and what a
    case-insensitive search for their alternation (`re.compile('|'.join(...),
    re.IGNORECASE).search(body)`) finds.

    Only the three regular-expression shapes that occur in the tables are
    given a meaning: a literal, a literal followed by a one-character class
    (`wp-content[/\\]`), and `head.*tail`, where `.` matches any character
    but a newline. Case is folded on ASCII letters only. */
module Fingerprints {
  import opened Text

  datatype Pattern =
    | Lit(text: string)
    | OneOf(stem: string, choices: seq<char>)
    | Spanning(head: string, tail: string)

  predicate NoNewline(s: string) {
    forall k :: 0 <= k < |s| ==> s[k] != '\n'
  }

  /** The pattern occurs somewhere in body, ignoring case. */
  predicate PatternFound(body: string, p: Pattern) {
    match p
    case Lit(w) => ContainsCI(body, w)
    case OneOf(stem, cs) => exists k :: 0 <= k < |cs| && ContainsCI(body, stem + [cs[k]])
    case Spanning(h, t) =>
      exists i, j :: 0 <= i <= |body| && i + |h| <= j <= |body| - |t|
        && OccursAtCI(body, h, i) && OccursAtCI(body, t, j) && NoNewline(body[i + |h|..j])
  }

  /** The alternation of the table finds a match in body. */
  predicate Detects(table: seq<Pattern>, body: string) {
    exists k :: 0 <= k < |table| && PatternFound(body, table[k])
  }

  /** Some literal of ws occurs in body, ignoring case. */
  predicate AnyLiteral(ws: seq<string>, body: string) {
    exists k :: 0 <= k < |ws| && ContainsCI(body, ws[k])
  }

  function Literals(ws: seq<string>): (table: seq<Pattern>)
    ensures |table| == |ws| && forall k :: 0 <= k < |ws| ==> table[k] == Lit(ws[k])
  {
    seq(|ws|, k requires 0 <= k < |ws| => Lit(ws[k]))
  }

  /** A table of literals detects exactly what its literals' containment does. */
  lemma LiteralsDetect(ws: seq<string>, body: string)
    ensures Detects(Literals(ws), body) <==> AnyLiteral(ws, body)
  {
    var t := Literals(ws);
    if Detects(t, body) {
      var k :| 0 <= k < |t| && PatternFound(body, t[k]);
      assert ContainsCI(body, ws[k]);
    }
    if AnyLiteral(ws, body) {
      var k :| 0 <= k < |ws| && ContainsCI(body, ws[k]);
      assert PatternFound(body, t[k]);
    }
  }

  // ---------------------------------------------------------------------------
  // The tables.
  // ---------------------------------------------------------------------------

  /** simple_wp_crawler.py: WP_PATTERNS. */
  const SIMPLE_PATTERNS: seq<Pattern> := [
    Lit("/wp-content/"), Lit("/wp-includes/"), Lit("/wp-admin/"), Lit("wp-json"),
    Lit("WordPress"), Lit("wp-embed"), Lit("wp_enqueue_script"),
    Spanning("generator", "wordpress"), Lit("powered by wordpress")
  ]

  /** The literals SIMPLE_PATTERNS reduces to. */
  const SIMPLE_LITERALS: seq<string> := [
    "/wp-content/", "/wp-includes/", "/wp-admin/", "wp-json", "WordPress", "wp-embed",
    "wp_enqueue_script"
  ]

  /** background_wp_crawler.py: WP_PATTERNS. */
  const BACKGROUND_PATTERNS: seq<Pattern> := [
    OneOf("wp-content", ['/', '\\']), OneOf("wp-includes", ['/', '\\']),
    OneOf("wp-admin", ['/', '\\']), Lit("/wp-json/"), Lit("wordpress"), Lit("wp_version"),
    Spanning("generator", "wordpress"), Lit("wp-embed"), Lit("wp_enqueue_script"),
    Lit("wpdb"), Lit("wp_head()"), Lit("wp_footer()")
  ]

  /** The literals BACKGROUND_PATTERNS reduces to. */
  const BACKGROUND_LITERALS: seq<string> := [
    "wp-content/", "wp-content\\", "wp-includes/", "wp-includes\\", "wp-admin/", "wp-admin\\",
    "/wp-json/", "wordpress", "wp_version", "wp-embed", "wp_enqueue_script", "wpdb",
    "wp_head()", "wp_footer()"
  ]

  /** enhanced_wp_crawler.py: WP_RE. */
  const ENHANCED_LITERALS: seq<string> := ["wp-content", "wp-includes", "wordpress", "wp-json"]

  /** bing_wordpress_crawler.py: WP_PATTERNS. */
  const BING_LITERALS: seq<string> := [
    "wp-content/", "wp-includes/", "wordpress", "<meta name=\"generator\" content=\"WordPress",
    "/wp-json/", "wp_enqueue_script"
  ]

  /** incremental_wp_crawler.py: WP_PATTERNS. */
  const INCREMENTAL_LITERALS: seq<string> := [
    "/wp-content/", "/wp-includes/", "/wp-admin/", "wp-json", "WordPress", "wp_", "wpdb",
    "wp-login", "wp-config"
  ]

  /** render_crawler.py: WP_PATTERNS (searched as lowered substrings). */
  const RENDER_LITERALS: seq<string> := [
    "/wp-content/", "/wp-includes/", "/wp-admin/", "wp-json", "WordPress", "wp-login"
  ]

  // ---------------------------------------------------------------------------
  // Reductions to literal containment.
  // ---------------------------------------------------------------------------

  /** Under IGNORECASE, "wordpress" anywhere is "WordPress" anywhere. */
  lemma WordpressAnyCase(body: string)
    requires ContainsCI(body, "wordpress")
    ensures ContainsCI(body, "WordPress")
  {
    var w, v := "wordpress", "WordPress";
    assert forall k :: 0 <= k < |w| ==> FoldChar(w[k]) == FoldChar(v[k]);
    ContainsCIFoldEq(body, w, v);
  }

  /** A `generator.*wordpress` match contains a "wordpress" match. */
  lemma SpanningHasTail(body: string, h: string, t: string)
    requires PatternFound(body, Spanning(h, t))
    ensures ContainsCI(body, t)
  {
    var i, j :| 0 <= i <= |body| && i + |h| <= j <= |body| - |t|
      && OccursAtCI(body, h, i) && OccursAtCI(body, t, j) && NoNewline(body[i + |h|..j]);
  }

  /** "powered by wordpress" anywhere means "wordpress" anywhere. */
  lemma PoweredByHasWordpress(body: string)
    requires ContainsCI(body, "powered by wordpress")
    ensures ContainsCI(body, "wordpress")
  {
    var w: string := "powered by wordpress";
    assert OccursAtCI(w, "wordpress", 11);
    ContainsCITrans(body, w, "wordpress");
  }

  /** The simple variant's table detects exactly what its seven plain literals
      detect: `generator.*wordpress` and `powered by wordpress` are subsumed by
      `WordPress` under IGNORECASE. */
  lemma SimpleTableIsLiteral(body: string)
    ensures Detects(SIMPLE_PATTERNS, body) <==> AnyLiteral(SIMPLE_LITERALS, body)
  {
    if Detects(SIMPLE_PATTERNS, body) {
      var k :| 0 <= k < |SIMPLE_PATTERNS| && PatternFound(body, SIMPLE_PATTERNS[k]);
      if k < 7 {
        assert ContainsCI(body, SIMPLE_LITERALS[k]);
      } else {
        if k == 7 {
          SpanningHasTail(body, "generator", "wordpress");
        } else {
          PoweredByHasWordpress(body);
        }
        WordpressAnyCase(body);
        assert ContainsCI(body, SIMPLE_LITERALS[4]);
      }
    }
    if AnyLiteral(SIMPLE_LITERALS, body) {
      var k :| 0 <= k < |SIMPLE_LITERALS| && ContainsCI(body, SIMPLE_LITERALS[k]);
      assert PatternFound(body, SIMPLE_PATTERNS[k]);
    }
  }

  /** The background variant's table detects exactly what fourteen literals
      detect: each `stem[/\\]` class is two literals and `generator.*wordpress`
      is subsumed by `wordpress`. */
  lemma BackgroundTableIsLiteral(body: string)
    ensures Detects(BACKGROUND_PATTERNS, body) <==> AnyLiteral(BACKGROUND_LITERALS, body)
  {
    if Detects(BACKGROUND_PATTERNS, body) {
      var k :| 0 <= k < |BACKGROUND_PATTERNS| && PatternFound(body, BACKGROUND_PATTERNS[k]);
      BackgroundPatternHasLiteral(body, k);
    }
    if AnyLiteral(BACKGROUND_LITERALS, body) {
      var k :| 0 <= k < |BACKGROUND_LITERALS| && ContainsCI(body, BACKGROUND_LITERALS[k]);
      BackgroundLiteralHasPattern(body, k);
    }
  }

  lemma BackgroundPatternHasLiteral(body: string, k: nat)
    requires k < |BACKGROUND_PATTERNS| && PatternFound(body, BACKGROUND_PATTERNS[k])
    ensures AnyLiteral(BACKGROUND_LITERALS, body)
  {
    var P, L := BACKGROUND_PATTERNS, BACKGROUND_LITERALS;
    if k < 3 {
      var c :| 0 <= c < 2 && ContainsCI(body, P[k].stem + [P[k].choices[c]]);
      assert P[k].stem + [P[k].choices[c]] == L[2 * k + c];
    } else if k == 6 {
      SpanningHasTail(body, "generator", "wordpress");
      assert ContainsCI(body, L[7]);
    } else {
      assert P[k] == Lit(L[k + 3 - (if k > 6 then 1 else 0)]);
    }
  }

  lemma BackgroundLiteralHasPattern(body: string, k: nat)
    requires k < |BACKGROUND_LITERALS| && ContainsCI(body, BACKGROUND_LITERALS[k])
    ensures Detects(BACKGROUND_PATTERNS, body)
  {
    var P, L := BACKGROUND_PATTERNS, BACKGROUND_LITERALS;
    if k < 6 {
      var c := k % 2;
      assert L[k] == P[k / 2].stem + [P[k / 2].choices[c]];
      assert PatternFound(body, P[k / 2]);
    } else if k < 9 {
      assert PatternFound(body, P[k - 3]);
    } else {
      assert PatternFound(body, P[k - 2]);
    }
  }

  /** The literals of the bing table without its meta-generator one. */
  const BING_REDUCED: seq<string> := ["wp-content/", "wp-includes/", "wordpress", "/wp-json/", "wp_enqueue_script"]

  /** The bing variant's meta-generator literal is subsumed by `wordpress`. */
  lemma BingTableReduces(body: string)
    ensures AnyLiteral(BING_LITERALS, body) <==> AnyLiteral(BING_REDUCED, body)
  {
    if AnyLiteral(BING_LITERALS, body) {
      var k :| 0 <= k < |BING_LITERALS| && ContainsCI(body, BING_LITERALS[k]);
      BingLiteralReduces(body, k);
    }
    if AnyLiteral(BING_REDUCED, body) {
      var k :| 0 <= k < |BING_REDUCED| && ContainsCI(body, BING_REDUCED[k]);
      if k < 3 {
        assert ContainsCI(body, BING_LITERALS[k]);
      } else {
        assert ContainsCI(body, BING_LITERALS[k + 1]);
      }
    }
  }

  lemma BingLiteralReduces(body: string, k: nat)
    requires k < |BING_LITERALS| && ContainsCI(body, BING_LITERALS[k])
    ensures AnyLiteral(BING_REDUCED, body)
  {
    if k == 3 {
      var m: string := BING_LITERALS[3];
      assert OccursAtCI(m, "wordpress", 32);
      ContainsCITrans(body, m, "wordpress");
      assert ContainsCI(body, BING_REDUCED[2]);
    } else if k < 3 {
      assert ContainsCI(body, BING_REDUCED[k]);
    } else {
      assert ContainsCI(body, BING_REDUCED[k - 1]);
    }
  }

  /** Nothing is detected in an empty body when no literal is empty, so a
      request whose body was replaced by "" can never count as a match. */
  lemma NothingInEmptyBody(ws: seq<string>)
    requires forall k :: 0 <= k < |ws| ==> ws[k] != ""
    ensures !AnyLiteral(ws, "")
  {
  }

  lemma TablesHaveNoEmptyLiteral()
    ensures forall k :: 0 <= k < |ENHANCED_LITERALS| ==> ENHANCED_LITERALS[k] != ""
    ensures forall k :: 0 <= k < |BING_LITERALS| ==> BING_LITERALS[k] != ""
    ensures forall k :: 0 <= k < |INCREMENTAL_LITERALS| ==> INCREMENTAL_LITERALS[k] != ""
    ensures forall k :: 0 <= k < |RENDER_LITERALS| ==> RENDER_LITERALS[k] != ""
  {
  }
}
