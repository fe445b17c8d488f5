/**
 * The text primitives of `Preprocessor` (`Logic/core/preprocess.py`):
 * whitespace tokenising, stop-word filtering on lower-cased tokens,
 * replacing punctuation by spaces, and deleting link-like tokens with six
 * regular expressions applied one after another.
 */
module Preprocess {
  import opened Seqs
  import opened Text

  // ---------------------------------------------------------------------------
  // Characters.

  /** The regular-expression class `\w`, restricted to ASCII: letters, digits, `_`. */
  predicate IsWordChar(c: char) {
    'a' <= c <= 'z' || 'A' <= c <= 'Z' || '0' <= c <= '9' || c == '_'
  }

  /** `str.lower()` on ASCII letters; every other character is kept. */
  function LowerChar(c: char): char {
    if 'A' <= c <= 'Z' then (c as int + 32) as char else c
  }

  function Lower(s: string): string {
    seq(|s|, i requires 0 <= i < |s| => LowerChar(s[i]))
  }

  // ---------------------------------------------------------------------------
  // Tokens and stop words.

  /** `tokenize`: `text.split()`. */
  function Tokenize(text: string): seq<string> {
    Split(text)
  }

  /** `remove_stopwords`, with the stop-word list given: a token is dropped when its lower-case form is listed. */
  function RemoveStopwords(text: string, stopwords: seq<string>): seq<string> {
    Filter(Tokenize(text), w => Lower(w) !in stopwords)
  }

  /**
   * Exactly the tokens whose lower-case form is not a stop word are kept,
   * each as often as it occurs and in the original order.
   */
  lemma RemoveStopwordsFacts(text: string, stopwords: seq<string>)
    ensures forall w :: w in RemoveStopwords(text, stopwords) <==> w in Tokenize(text) && Lower(w) !in stopwords
    ensures forall w :: Lower(w) !in stopwords ==> Count(RemoveStopwords(text, stopwords), w) == Count(Tokenize(text), w)
    ensures IsSubsequence(RemoveStopwords(text, stopwords), Tokenize(text))
    ensures AllWords(RemoveStopwords(text, stopwords))
  {
    var kept := RemoveStopwords(text, stopwords);
    FilterMeaning(Tokenize(text), w => Lower(w) !in stopwords);
    forall i | 0 <= i < |kept| ensures IsWord(kept[i]) {
      assert kept[i] in Tokenize(text);
    }
  }

  // ---------------------------------------------------------------------------
  // Punctuation.

  function PunctuationToSpace(c: char): char {
    if IsWordChar(c) || IsSpace(c) then c else ' '
  }

  /** `re.sub(r'[^\w\s]', ' ', text)`. */
  function RemovePunctuations(text: string): string {
    seq(|text|, i requires 0 <= i < |text| => PunctuationToSpace(text[i]))
  }

  /**
   * The length is kept, word and whitespace characters stay where they are,
   * every other character becomes a space, nothing but word and whitespace
   * characters is left, and a second pass changes nothing.
   */
  lemma RemovePunctuationsFacts(text: string)
    ensures |RemovePunctuations(text)| == |text|
    ensures forall i :: 0 <= i < |text| && (IsWordChar(text[i]) || IsSpace(text[i])) ==> RemovePunctuations(text)[i] == text[i]
    ensures forall i :: 0 <= i < |text| && !IsWordChar(text[i]) && !IsSpace(text[i]) ==> RemovePunctuations(text)[i] == ' '
    ensures forall i :: 0 <= i < |text| ==> IsWordChar(RemovePunctuations(text)[i]) || IsSpace(RemovePunctuations(text)[i])
    ensures RemovePunctuations(RemovePunctuations(text)) == RemovePunctuations(text)
  {
  }

  // ---------------------------------------------------------------------------
  // Links.

  /**
   * One pattern of `remove_links`: `\S*lit\S*` when `minPrefix` is 0 and
   * `\S+lit\S*` when it is 1, `lit` being a literal without whitespace.
   */
  datatype LinkPattern = LinkPattern(literal: string, minPrefix: nat)

  /** The six patterns, in the order they are applied. */
  const LinkPatterns: seq<LinkPattern> := [
    LinkPattern("http", 0), LinkPattern("www", 0), LinkPattern(".ir", 1),
    LinkPattern(".com", 1), LinkPattern(".org", 1), LinkPattern("@", 0)]

  /**
   * The pattern matches inside a whitespace-free run exactly when the
   * literal occurs in it with at least `minPrefix` characters before it;
   * the leftmost, greedy match then covers the whole run.
   */
  predicate MatchesRun(run: string, p: LinkPattern) {
    ContainsFrom(run, p.literal, p.minPrefix)
  }

  /** `pattern.sub('', text)`: every matched run is deleted whole; whitespace stays. */
  function Sub(text: string, p: LinkPattern): string
    decreases |text|
  {
    if text == [] then []
    else if IsSpace(text[0]) then [text[0]] + Sub(text[1..], p)
    else
      var n := RunLength(text);
      (if MatchesRun(text[..n], p) then [] else text[..n]) + Sub(text[n..], p)
  }

  /** The patterns applied one after another. */
  function SubAll(text: string, patterns: seq<LinkPattern>): string {
    if patterns == [] then text
    else Sub(SubAll(text, patterns[..|patterns| - 1]), patterns[|patterns| - 1])
  }

  /** `remove_links`: the loop over the compiled patterns. */
  method RemoveLinks(text: string) returns (cleanedText: string)
    ensures cleanedText == SubAll(text, LinkPatterns)
  {
    cleanedText := text;
    for k := 0 to |LinkPatterns|
      invariant cleanedText == SubAll(text, LinkPatterns[..k])
    {
      assert LinkPatterns[..k + 1][..k] == LinkPatterns[..k];
      cleanedText := Sub(cleanedText, LinkPatterns[k]);
    }
    assert LinkPatterns[..|LinkPatterns|] == LinkPatterns;
  }

  /** A substitution keeps a leading whitespace character in front. */
  lemma SubStart(text: string, p: LinkPattern)
    requires text != [] && IsSpace(text[0])
    ensures Sub(text, p) != [] && IsSpace(Sub(text, p)[0])
  {
  }

  /** One substitution drops exactly the tokens the pattern matches. */
  lemma SubSplit(text: string, p: LinkPattern)
    ensures Split(Sub(text, p)) == Filter(Split(text), w => !MatchesRun(w, p))
    decreases |text|
  {
    if text == [] {
    } else if IsSpace(text[0]) {
      SubSplit(text[1..], p);
      SplitSpacePrefix(text[0], Sub(text[1..], p));
    } else {
      var n := RunLength(text);
      var run, rest := text[..n], text[n..];
      SubSplit(rest, p);
      if rest != [] {
        SubStart(rest, p);
      }
      assert Split(text) == [run] + Split(rest);
      assert ([run] + Split(rest))[1..] == Split(rest);
      if MatchesRun(run, p) {
        assert Sub(text, p) == Sub(rest, p);
      } else {
        SplitWordPrefix(run, Sub(rest, p));
      }
    }
  }

  /** A token no pattern of `patterns` matches. */
  predicate NotLink(w: string, patterns: seq<LinkPattern>) {
    forall k :: 0 <= k < |patterns| ==> !MatchesRun(w, patterns[k])
  }

  /** Applying the patterns in turn keeps exactly the tokens none of them matches. */
  lemma {:induction false} SubAllSplit(text: string, patterns: seq<LinkPattern>)
    ensures Split(SubAll(text, patterns)) == Filter(Split(text), w => NotLink(w, patterns))
  {
    if patterns == [] {
      FilterAll(Split(text), w => NotLink(w, patterns));
    } else {
      var init, last := patterns[..|patterns| - 1], patterns[|patterns| - 1];
      SubAllSplit(text, init);
      SubSplit(SubAll(text, init), last);
      forall w ensures NotLink(w, patterns) == (NotLink(w, init) && !MatchesRun(w, last)) {
        if NotLink(w, init) && !MatchesRun(w, last) {
          forall k | 0 <= k < |patterns| ensures !MatchesRun(w, patterns[k]) {
            if k < |init| {
              assert patterns[k] == init[k];
            }
          }
        }
      }
      FilterFilter(Split(text), w => NotLink(w, init), w => !MatchesRun(w, last), w => NotLink(w, patterns));
    }
  }

  lemma {:induction false} FilterAll(s: seq<string>, keep: string -> bool)
    requires forall x :: keep(x)
    ensures Filter(s, keep) == s
  {
    if s != [] {
      FilterAll(s[1..], keep);
      assert s == [s[0]] + s[1..];
    }
  }

  /**
   * After `remove_links` the tokens are those of the input that no pattern
   * matches, in their order; in particular none contains `http`, `www` or `@`.
   */
  lemma RemoveLinksFacts(text: string)
    ensures Split(SubAll(text, LinkPatterns)) == Filter(Split(text), w => NotLink(w, LinkPatterns))
    ensures IsSubsequence(Split(SubAll(text, LinkPatterns)), Split(text))
    ensures forall w :: w in Split(SubAll(text, LinkPatterns)) ==> w in Split(text) && NotLink(w, LinkPatterns)
    ensures forall w :: w in Split(SubAll(text, LinkPatterns)) ==>
      !Contains(w, "http") && !Contains(w, "www") && !Contains(w, "@")
  {
    SubAllSplit(text, LinkPatterns);
    FilterMeaning(Split(text), w => NotLink(w, LinkPatterns));
    forall w | w in Split(SubAll(text, LinkPatterns))
      ensures !Contains(w, "http") && !Contains(w, "www") && !Contains(w, "@")
    {
      assert !MatchesRun(w, LinkPatterns[0]);
      assert !MatchesRun(w, LinkPatterns[1]);
      assert !MatchesRun(w, LinkPatterns[5]);
    }
  }
}
