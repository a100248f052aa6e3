/** String operations of Python's `str` that the crawlers rely on: `isspace`,
    `strip`, `startswith`, `in`, `split(sep)` and `"sep".join`, plus the ASCII
    case folding used for case-insensitive matching. */
module Text {

  /** Python's `str.isspace()` for a single character. */
  predicate IsSpace(c: char) {
    var n := c as int;
    (9 <= n <= 13) || (28 <= n <= 32) || n == 0x85 || n == 0xA0 || n == 0x1680
    || (0x2000 <= n <= 0x200A) || n == 0x2028 || n == 0x2029 || n == 0x202F
    || n == 0x205F || n == 0x3000
  }

  predicate AllSpace(s: string) {
    forall k :: 0 <= k < |s| ==> IsSpace(s[k])
  }

  /** Python's `s.lstrip()`. */
  function LStrip(s: string): string
    decreases |s|
  {
    if |s| > 0 && IsSpace(s[0]) then LStrip(s[1..]) else s
  }

  /** Python's `s.rstrip()`. */
  function RStrip(s: string): string
    decreases |s|
  {
    if |s| > 0 && IsSpace(s[|s| - 1]) then RStrip(s[..|s| - 1]) else s
  }

  /** Python's `s.strip()`. */
  function Strip(s: string): string
  {
    RStrip(LStrip(s))
  }

  /** lstrip removes a white-space prefix and stops at the first other
      character. */
  lemma {:induction false} LStripSpec(s: string)
    ensures var r := LStrip(s);
      && |r| <= |s| && r == s[|s| - |r|..] && AllSpace(s[..|s| - |r|])
      && (r == [] || !IsSpace(r[0]))
    decreases |s|
  {
    if |s| > 0 && IsSpace(s[0]) {
      LStripSpec(s[1..]);
      var r := LStrip(s[1..]);
      assert s[1..][..|s[1..]| - |r|] == s[1..|s| - |r|];
    }
  }

  /** rstrip removes a white-space suffix and stops at the last other
      character. */
  lemma {:induction false} RStripSpec(s: string)
    ensures var r := RStrip(s);
      && |r| <= |s| && r == s[..|r|] && AllSpace(s[|r|..])
      && (r == [] || !IsSpace(r[|r| - 1]))
    decreases |s|
  {
    if |s| > 0 && IsSpace(s[|s| - 1]) {
      RStripSpec(s[..|s| - 1]);
      var r := RStrip(s[..|s| - 1]);
      assert s[..|s| - 1][|r|..] + [s[|s| - 1]] == s[|r|..];
    }
  }

  /** strip yields a contiguous slice of s, with only white space removed at
      both ends, that neither starts nor ends with white space. */
  lemma StripSpec(s: string)
    ensures exists i, j :: 0 <= i <= j <= |s| && Strip(s) == s[i..j] && AllSpace(s[..i]) && AllSpace(s[j..])
    ensures var r := Strip(s); r == [] || (!IsSpace(r[0]) && !IsSpace(r[|r| - 1]))
  {
    var l := LStrip(s);
    LStripSpec(s);
    RStripSpec(l);
    var r := RStrip(l);
    var i := |s| - |l|;
    assert r == s[i..i + |r|];
    assert s[i + |r|..] == l[|r|..];
  }

  /** Stripping a value that is already stripped changes nothing. */
  lemma StripIdempotent(s: string)
    ensures Strip(Strip(s)) == Strip(s)
  {
    var t := Strip(s);
    StripSpec(s);
    assert LStrip(t) == t;
    assert RStrip(t) == t;
  }

  /** A value that neither starts nor ends with white space is already stripped. */
  lemma StripUnpadded(s: string)
    requires s != [] && !IsSpace(s[0]) && !IsSpace(s[|s| - 1])
    ensures Strip(s) == s
  {
    assert LStrip(s) == s;
  }

  /** A cell strips to "" exactly when it is made of white space only. */
  lemma StripEmptyIffBlank(s: string)
    ensures Strip(s) == "" <==> AllSpace(s)
  {
    var l := LStrip(s);
    var d := |s| - |l|;
    LStripSpec(s);
    if l == [] {
      assert s[..d] == s;
    } else {
      assert s[d] == l[0];
      var r := RStrip(l);
      RStripSpec(l);
      assert !AllSpace(l[0..]) by {
        assert l[0..][0] == l[0];
      }
    }
  }

  /** ASCII upper case to lower case; other characters unchanged. */
  function FoldChar(c: char): char {
    if 'A' <= c <= 'Z' then (c as int + 32) as char else c
  }

  /** Python's `s.lower()` restricted to ASCII letters: no upper-case letter
      is left, every other character stays where it was, and an upper-case
      letter becomes a lower-case one. */
  function Lower(s: string): (r: string)
    ensures |r| == |s|
    ensures forall k :: 0 <= k < |r| ==> !('A' <= r[k] <= 'Z')
    ensures forall k :: 0 <= k < |s| && !('A' <= s[k] <= 'Z') ==> r[k] == s[k]
    ensures forall k :: 0 <= k < |s| && 'A' <= s[k] <= 'Z' ==> 'a' <= r[k] <= 'z'
    ensures forall k :: 0 <= k < |s| ==> r[k] == FoldChar(s[k])
  {
    seq(|s|, k requires 0 <= k < |s| => FoldChar(s[k]))
  }

  /** Lowering twice is lowering once. */
  lemma LowerIdempotent(s: string)
    ensures Lower(Lower(s)) == Lower(s)
  {
    var l := Lower(s);
    assert forall k :: 0 <= k < |l| ==> Lower(l)[k] == l[k];
  }

  predicate StartsWith(s: string, p: string) {
    |p| <= |s| && s[..|p|] == p
  }

  /** w occurs in s starting at position i. */
  predicate OccursAt(s: string, w: string, i: int) {
    0 <= i && i + |w| <= |s| && s[i..i + |w|] == w
  }

  /** Python's `w in s` for strings. */
  predicate Contains(s: string, w: string) {
    exists i :: 0 <= i <= |s| - |w| && OccursAt(s, w, i)
  }

  /** w occurs at position i of s, ignoring (ASCII) case. */
  predicate OccursAtCI(s: string, w: string, i: int) {
    0 <= i && i + |w| <= |s| && forall k :: 0 <= k < |w| ==> FoldChar(s[i + k]) == FoldChar(w[k])
  }
  /** Case-insensitive containment: what a regular expression made of the
      literal w finds under `re.IGNORECASE`. */
  predicate ContainsCI(s: string, w: string) {
    exists i :: 0 <= i <= |s| - |w| && OccursAtCI(s, w, i)
  }


  /** Lowering both sides and testing `in` is the same as case-insensitive
      containment. */
  lemma ContainsLowerIffCI(s: string, w: string)
    ensures Contains(Lower(s), Lower(w)) <==> ContainsCI(s, w)
  {
    var ls, lw := Lower(s), Lower(w);
    if Contains(ls, lw) {
      var i :| 0 <= i <= |ls| - |lw| && OccursAt(ls, lw, i);
      assert ls[i..i + |lw|] == lw;
      forall k | 0 <= k < |w| ensures FoldChar(s[i + k]) == FoldChar(w[k]) {
        assert ls[i..i + |lw|][k] == ls[i + k];
      }
      assert OccursAtCI(s, w, i);
    }
    if ContainsCI(s, w) {
      var i :| 0 <= i <= |s| - |w| && OccursAtCI(s, w, i);
      assert ls[i..i + |lw|] == lw;
      assert OccursAt(ls, lw, i);
    }
  }

  /** If s contains w and w contains v (all ignoring case), s contains v. */
  lemma ContainsCITrans(s: string, w: string, v: string)
    requires ContainsCI(s, w) && ContainsCI(w, v)
    ensures ContainsCI(s, v)
  {
    var i :| 0 <= i <= |s| - |w| && OccursAtCI(s, w, i);
    var m :| 0 <= m <= |w| - |v| && OccursAtCI(w, v, m);
    forall k | 0 <= k < |v| ensures FoldChar(s[i + m + k]) == FoldChar(v[k]) {
      assert FoldChar(s[i + (m + k)]) == FoldChar(w[m + k]);
    }
    assert OccursAtCI(s, v, i + m);
  }
  /** Containment ignoring case depends only on the folded pattern. */
  lemma ContainsCIFoldEq(s: string, w: string, v: string)
    requires |w| == |v| && forall k :: 0 <= k < |w| ==> FoldChar(w[k]) == FoldChar(v[k])
    requires ContainsCI(s, w)
    ensures ContainsCI(s, v)
  {
    var i :| 0 <= i <= |s| - |w| && OccursAtCI(s, w, i);
    assert OccursAtCI(s, v, i);
  }


  /** Python's `s.rstrip(c)` for one character c. */
  function RStripChar(s: string, c: char): (r: string)
    ensures |r| <= |s|
    decreases |s|
  {
    if |s| > 0 && s[|s| - 1] == c then RStripChar(s[..|s| - 1], c) else s
  }

  /** rstrip(c) removes a run of c at the end and nothing else, and leaves a
      string without c unchanged. */
  lemma {:induction false} RStripCharSpec(s: string, c: char)
    ensures var r := RStripChar(s, c);
      && r == s[..|r|] && (forall k :: |r| <= k < |s| ==> s[k] == c) && (r == [] || r[|r| - 1] != c)
    ensures c !in s ==> RStripChar(s, c) == s
    decreases |s|
  {
    if |s| > 0 && s[|s| - 1] == c {
      var init := s[..|s| - 1];
      RStripCharSpec(init, c);
      var r := RStripChar(init, c);
      assert init[..|r|] == s[..|r|];
      forall k | |r| <= k < |s| ensures s[k] == c {
        if k < |init| {
          assert s[k] == init[k];
        }
      }
    }
  }

  /** `[p + s for p in prefixes]`. */
  function Prefixed(prefixes: seq<string>, s: string): seq<string>
    decreases |prefixes|
  {
    if prefixes == [] then [] else Prefixed(prefixes[..|prefixes| - 1], s) + [prefixes[|prefixes| - 1] + s]
  }

  lemma {:induction false} PrefixedSpec(prefixes: seq<string>, s: string)
    ensures |Prefixed(prefixes, s)| == |prefixes|
    ensures forall k :: 0 <= k < |prefixes| ==> Prefixed(prefixes, s)[k] == prefixes[k] + s
    decreases |prefixes|
  {
    if prefixes != [] {
      PrefixedSpec(prefixes[..|prefixes| - 1], s);
    }
  }

  lemma PrefixedSnoc(prefixes: seq<string>, s: string, k: nat)
    requires k < |prefixes|
    ensures Prefixed(prefixes[..k + 1], s) == Prefixed(prefixes[..k], s) + [prefixes[k] + s]
  {
    assert prefixes[..k + 1][..k] == prefixes[..k];
  }

  // ---------------------------------------------------------------------------
  // Python's ordering of `str` values: lexicographic by code point.
  // ---------------------------------------------------------------------------

  /** `a <= b` for Python strings. */
  predicate LexLe(a: string, b: string)
    decreases |a|
  {
    a == [] || (b != [] && (a[0] < b[0] || (a[0] == b[0] && LexLe(a[1..], b[1..]))))
  }

  /** Any two strings are ordered one way or the other. */
  lemma {:induction false} LexLeTotal(a: string, b: string)
    ensures LexLe(a, b) || LexLe(b, a)
    decreases |a|
  {
    if a != [] && b != [] && a[0] == b[0] {
      LexLeTotal(a[1..], b[1..]);
    }
  }

  lemma {:induction false} LexLeTrans(a: string, b: string, c: string)
    requires LexLe(a, b) && LexLe(b, c)
    ensures LexLe(a, c)
    decreases |a|
  {
    if a != [] && a[0] == b[0] && b[0] == c[0] {
      LexLeTrans(a[1..], b[1..], c[1..]);
    }
  }

  /** Only equal strings are ordered both ways. */
  lemma {:induction false} LexLeAntisymmetric(a: string, b: string)
    requires LexLe(a, b) && LexLe(b, a)
    ensures a == b
    decreases |a|
  {
    if a != [] {
      LexLeAntisymmetric(a[1..], b[1..]);
      assert a == [a[0]] + a[1..] && b == [b[0]] + b[1..];
    }
  }

  // ---------------------------------------------------------------------------
  // `s.split(sep)` and `sep.join(parts)`.
  // ---------------------------------------------------------------------------

  /** Python's `s.split(sep)` for a one-character separator: the pieces between
      separators, empty pieces included, so there is always at least one. */
  function Split(s: string, sep: char): (parts: seq<string>)
    ensures |parts| >= 1
    decreases |s|
  {
    if |s| == 0 then [""]
    else if s[0] == sep then [""] + Split(s[1..], sep)
    else
      var rest := Split(s[1..], sep);
      [[s[0]] + rest[0]] + rest[1..]
  }

  /** Python's `sep.join(parts)`. */
  function Join(parts: seq<string>, sep: char): string
    decreases |parts|
  {
    if |parts| == 0 then ""
    else if |parts| == 1 then parts[0]
    else parts[0] + [sep] + Join(parts[1..], sep)
  }

  /** Splitting and joining back with the same separator gives the input. */
  lemma {:induction false} SplitJoin(s: string, sep: char)
    ensures Join(Split(s, sep), sep) == s
    decreases |s|
  {
    if |s| > 0 {
      var rest := Split(s[1..], sep);
      SplitJoin(s[1..], sep);
      if s[0] != sep {
        if |rest| > 1 {
          assert rest == [rest[0]] + rest[1..];
          assert Join(rest, sep) == rest[0] + [sep] + Join(rest[1..], sep);
        }
        assert s == [s[0]] + s[1..];
      }
    }
  }

  /** Joining separator-free pieces and splitting again gives the pieces. */
  lemma {:induction false} JoinSplit(parts: seq<string>, sep: char)
    requires |parts| >= 1
    requires forall k :: 0 <= k < |parts| ==> sep !in parts[k]
    ensures Split(Join(parts, sep), sep) == parts
    decreases |parts|
  {
    if |parts| == 1 {
      SplitNoSep(parts[0], sep);
    } else {
      JoinSplit(parts[1..], sep);
      SplitAfterWord(parts[0], sep, Join(parts[1..], sep));
      assert [parts[0]] + parts[1..] == parts;
    }
  }

  /** Every piece is a slice of s, the first one at the start. */
  lemma {:induction false} SplitPieceAt(s: string, sep: char, k: nat) returns (a: nat)
    requires k < |Split(s, sep)|
    ensures OccursAt(s, Split(s, sep)[k], a) && (k == 0 ==> a == 0)
    decreases |s|
  {
    if |s| == 0 || (s[0] == sep && k == 0) {
      a := 0;
    } else if s[0] == sep {
      var b := SplitPieceAt(s[1..], sep, k - 1);
      OccursShift(s, Split(s[1..], sep)[k - 1], b);
      a := b + 1;
    } else {
      var rest := Split(s[1..], sep);
      if k == 0 {
        var b := SplitPieceAt(s[1..], sep, 0);
        OccursCons(s, rest[0]);
        a := 0;
      } else {
        var b := SplitPieceAt(s[1..], sep, k);
        OccursShift(s, rest[k], b);
        a := b + 1;
      }
    }
  }

  lemma OccursShift(s: string, w: string, b: nat)
    requires |s| > 0 && OccursAt(s[1..], w, b)
    ensures OccursAt(s, w, b + 1)
  {
    assert s[b + 1..b + 1 + |w|] == s[1..][b..b + |w|];
  }

  lemma OccursCons(s: string, w: string)
    requires |s| > 0 && OccursAt(s[1..], w, 0)
    ensures OccursAt(s, [s[0]] + w, 0)
  {
    assert s[..1 + |w|] == [s[0]] + s[1..][..|w|];
  }

  /** No piece contains the separator. */
  lemma {:induction false} SplitPieceNoSep(s: string, sep: char, k: nat)
    requires k < |Split(s, sep)|
    ensures sep !in Split(s, sep)[k]
    decreases |s|
  {
    if |s| > 0 {
      var rest := Split(s[1..], sep);
      if s[0] == sep {
        if k > 0 {
          SplitPieceNoSep(s[1..], sep, k - 1);
        }
      } else if k == 0 {
        SplitPieceNoSep(s[1..], sep, 0);
        assert Split(s, sep)[0] == [s[0]] + rest[0];
      } else {
        SplitPieceNoSep(s[1..], sep, k);
      }
    }
  }

  /** A string without the separator splits into itself. */
  lemma {:induction false} SplitNoSep(s: string, sep: char)
    requires sep !in s
    ensures Split(s, sep) == [s]
    decreases |s|
  {
    if |s| > 0 {
      SplitNoSep(s[1..], sep);
      assert [s[0]] + s[1..] == s;
    }
  }

  /** A separator-free word followed by the separator is split off whole. */
  lemma {:induction false} SplitAfterWord(a: string, sep: char, b: string)
    requires sep !in a
    ensures Split(a + [sep] + b, sep) == [a] + Split(b, sep)
    decreases |a|
  {
    var s := a + [sep] + b;
    if |a| == 0 {
      assert s[1..] == b;
    } else {
      SplitAfterWord(a[1..], sep, b);
      assert s[1..] == a[1..] + [sep] + b;
      assert [a[0]] + a[1..] == a;
    }
  }

}
