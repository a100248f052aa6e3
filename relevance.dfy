/** The relevance filter of the simple crawler: a name is reduced to the set
    of its lower-case ASCII words that are not stop-words, and a site is
    relevant to an organisation when their word sets intersect. */
module Relevance {
  import opened Text

  /** The stop-word set, listed; only membership is used. */
  const STOP_WORDS: seq<string> := [
    "inc", "llc", "corporation", "corp", "company", "co", "the", "and", "of", "for",
    "services", "service", "system", "systems", "center", "centers", "network", "networks",
    "medical", "healthcare", "health", "hospital", "hospitals", "clinic", "clinics", "care"
  ]

  predicate IsStopWord(w: string) {
    w in STOP_WORDS
  }

  predicate IsAsciiLetter(c: char) {
    ('a' <= c <= 'z') || ('A' <= c <= 'Z')
  }

  predicate IsLowerWord(w: string) {
    forall k :: 0 <= k < |w| ==> 'a' <= w[k] <= 'z'
  }

  /** `re.sub(r"[^a-zA-Z]", " ", text)`: every character that is not an ASCII
      letter becomes a space. */
  function MaskNonLetters(text: string): (r: string)
    ensures |r| == |text|
    ensures forall k :: 0 <= k < |text| ==> r[k] == if IsAsciiLetter(text[k]) then text[k] else ' '
  {
    seq(|text|, k requires 0 <= k < |text| => if IsAsciiLetter(text[k]) then text[k] else ' ')
  }

  /** The masked text, lowered: only lower-case letters and spaces remain. */
  function Flattened(text: string): string {
    Lower(MaskNonLetters(text))
  }

  /** `tokenize(text)`: the non-empty space-separated words of the flattened
      text (what `str.split()` yields, since the only white space left is the
      space) that are not stop-words. */
  function Tokenize(text: string): set<string> {
    TokenizeExcept(text, STOP_WORDS)
  }

  /** The non-empty words of the flattened text that are not in `stops`. */
  function TokenizeExcept(text: string, stops: seq<string>): set<string> {
    set w | w in Split(Flattened(text), ' ') && w != "" && w !in stops
  }

  lemma FlattenedAlphabet(text: string)
    ensures forall k :: 0 <= k < |Flattened(text)| ==> Flattened(text)[k] == ' ' || 'a' <= Flattened(text)[k] <= 'z'
  {
  }

  /** Every token is a non-empty word of lower-case ASCII letters and is not
      a stop-word. */
  lemma TokensWellFormed(text: string)
    ensures forall t :: t in Tokenize(text) ==> t != "" && !IsStopWord(t) && IsLowerWord(t)
  {
    forall t | t in Tokenize(text) ensures IsLowerWord(t) {
      TokenIsLowerWord(text, t);
    }
  }

  lemma TokenIsLowerWord(text: string, t: string)
    requires t in Tokenize(text)
    ensures IsLowerWord(t)
  {
    var s := Flattened(text);
    var parts := Split(s, ' ');
    var n :| 0 <= n < |parts| && parts[n] == t;
    var a := SplitPieceAt(s, ' ', n);
    SplitPieceNoSep(s, ' ', n);
    FlattenedAlphabet(text);
    forall k | 0 <= k < |t| ensures 'a' <= t[k] <= 'z' {
      assert t[k] == s[a..a + |t|][k] == s[a + k];
    }
  }

  /** Every token is spelled out, lower-cased, in the text it came from. */
  lemma TokenOccursInText(text: string, t: string)
    requires t in Tokenize(text)
    ensures Contains(Lower(text), t)
  {
    var s := Flattened(text);
    var parts := Split(s, ' ');
    var n :| 0 <= n < |parts| && parts[n] == t;
    var a := SplitPieceAt(s, ' ', n);
    TokenIsLowerWord(text, t);
    var lt := Lower(text);
    forall k | 0 <= k < |t| ensures lt[a + k] == t[k] {
      assert t[k] == s[a..a + |t|][k] == s[a + k];
    }
    assert lt[a..a + |t|] == t;
    assert OccursAt(lt, t, a);
  }

  /** Tokenizing ignores case. */
  lemma TokenizeIgnoresCase(text: string)
    ensures Tokenize(Lower(text)) == Tokenize(text)
  {
    assert Flattened(Lower(text)) == Flattened(text);
  }

  /** Each word lowered. */
  function LowerEach(words: seq<string>): (r: seq<string>)
    ensures |r| == |words| && forall k :: 0 <= k < |words| ==> r[k] == Lower(words[k])
  {
    seq(|words|, k requires 0 <= k < |words| => Lower(words[k]))
  }

  predicate IsLetterWord(w: string) {
    forall k :: 0 <= k < |w| ==> IsAsciiLetter(w[k])
  }

  /** `name` is one or more words of ASCII letters, each separated from the
      next by a single space. */
  predicate SpacedWords(name: string, words: seq<string>) {
    name == Join(words, ' ') && words != [] && forall k :: 0 <= k < |words| ==> IsLetterWord(words[k])
  }

  /** A name whose words, separated by single spaces and in any case, are all
      stop-words has no tokens, so no site can match it. */
  lemma StopWordsOnlyNameHasNoTokens(name: string, words: seq<string>)
    requires SpacedWords(name, words)
    requires forall w :: w in LowerEach(words) ==> IsStopWord(w)
    ensures Tokenize(name) == {}
  {
    NoWordsBeyondStops(name, words, STOP_WORDS);
  }

  /** The same for any list of excluded words. */
  lemma NoWordsBeyondStops(name: string, words: seq<string>, stops: seq<string>)
    requires SpacedWords(name, words)
    requires forall w :: w in LowerEach(words) ==> w in stops
    ensures TokenizeExcept(name, stops) == {}
  {
    FlattenedWords(words);
  }

  /** The words of a name made of space-separated letter words are its words
      lowered. */
  lemma FlattenedWords(words: seq<string>)
    requires words != []
    requires forall k :: 0 <= k < |words| ==> IsLetterWord(words[k])
    ensures Split(Flattened(Join(words, ' ')), ' ') == LowerEach(words)
  {
    var lowered := LowerEach(words);
    FlattenedJoin(words);
    forall k | 0 <= k < |lowered| ensures ' ' !in lowered[k] {
      LowerLetterWord(words[k]);
    }
    JoinSplit(lowered, ' ');
  }

  lemma LowerLetterWord(w: string)
    requires IsLetterWord(w)
    ensures IsLetterWord(Lower(w)) && ' ' !in Lower(w)
  {
    forall k | 0 <= k < |w| ensures IsAsciiLetter(Lower(w)[k]) {
    }
  }

  /** Flattening works character by character. */
  lemma FlattenedAppend(a: string, b: string)
    ensures Flattened(a + b) == Flattened(a) + Flattened(b)
  {
    var l, r := Flattened(a + b), Flattened(a) + Flattened(b);
    assert |l| == |r|;
    forall k | 0 <= k < |l| ensures l[k] == r[k] {
      if k < |a| {
        assert (a + b)[k] == a[k];
      } else {
        assert (a + b)[k] == b[k - |a|];
      }
    }
  }

  /** Flattening space-separated letter words lowers each word. */
  lemma {:induction false} FlattenedJoin(words: seq<string>)
    requires forall k :: 0 <= k < |words| ==> IsLetterWord(words[k])
    ensures Flattened(Join(words, ' ')) == Join(LowerEach(words), ' ')
    decreases |words|
  {
    var lowered := LowerEach(words);
    if |words| == 1 {
      FlattenedWord(words[0]);
    } else if |words| > 1 {
      FlattenedJoin(words[1..]);
      FlattenedAppend(words[0] + [' '], Join(words[1..], ' '));
      FlattenedAppend(words[0], [' ']);
      FlattenedWord(words[0]);
      assert Flattened([' ']) == [' '];
      assert lowered[1..] == LowerEach(words[1..]);
    }
  }

  lemma FlattenedWord(w: string)
    requires IsLetterWord(w)
    ensures Flattened(w) == Lower(w)
  {
    assert MaskNonLetters(w) == w;
  }

  /** `idn_tokens & site_tokens` is non-empty. */
  predicate SharesToken(a: set<string>, b: set<string>) {
    a * b != {}
  }
}
