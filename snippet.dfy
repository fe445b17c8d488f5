/**
 * Snippet extraction (`Logic/core/snippet.py`): after dropping stop words
 * from the query, each query word that occurs in the document contributes
 * the window of up to `n` tokens on either side of its first occurrence,
 * with that occurrence wrapped as `***word***`; the windows are joined with
 * `...`, and the query words the document lacks are reported.
 */
module Snippet {
  import opened Wrappers
  import opened Seqs
  import opened Text

  // ---------------------------------------------------------------------------
  // Query clean-up.

  /** The query tokens that are not stop words, in order. */
  function KeptWords(words: seq<string>, stopwords: seq<string>): seq<string> {
    Filter(words, w => w !in stopwords)
  }

  /** `remove_stop_words_from_query`, with the stop-word list given. */
  function RemoveStopWordsFromQuery(query: string, stopwords: seq<string>): string {
    JoinWith(" ", KeptWords(Split(query), stopwords))
  }

  /** Splitting the cleaned query gives back exactly the kept tokens. */
  lemma QueryWords(query: string, stopwords: seq<string>)
    ensures Split(RemoveStopWordsFromQuery(query, stopwords)) == KeptWords(Split(query), stopwords)
  {
    var kept := KeptWords(Split(query), stopwords);
    FilterMeaning(Split(query), w => w !in stopwords);
    assert AllWords(kept) by {
      forall i | 0 <= i < |kept| ensures IsWord(kept[i]) {
        assert kept[i] in Split(query);
      }
    }
    SplitJoinRoundTrip(kept);
  }

  // ---------------------------------------------------------------------------
  // Windows.

  /** `max(0, i - n)`. */
  function WindowStart(i: nat, n: nat): nat {
    if i < n then 0 else i - n
  }

  /** `min(len, i + n + 1)`. */
  function WindowEnd(len: nat, i: nat, n: nat): nat {
    if i + n + 1 < len then i + n + 1 else len
  }

  function Mark(w: string): string {
    "***" + w + "***"
  }

  /** The tokens around the first occurrence of `qw`, that occurrence marked. */
  function MarkedWindow(docWords: seq<string>, qw: string, n: nat): seq<string>
    requires qw in docWords
  {
    var i := IndexOf(docWords, qw);
    var lo, hi := WindowStart(i, n), WindowEnd(|docWords|, i, n);
    docWords[lo..hi][i - lo := Mark(qw)]
  }

  /**
   * The window has at most `2n + 1` tokens: `min(n, i)` before the first
   * occurrence `i`, then the marked occurrence, then `min(n, len - i - 1)`
   * after it. The marked position holds the first `qw` of the window, and
   * every other token is copied unchanged.
   */
  lemma MarkedWindowFacts(docWords: seq<string>, qw: string, n: nat)
    requires qw in docWords
    ensures var i := IndexOf(docWords, qw);
            var lo := WindowStart(i, n);
            var w := MarkedWindow(docWords, qw, n);
            && |w| <= 2 * n + 1
            && i - lo == (if i < n then i else n)
            && |w| - (i - lo) - 1 == (if |docWords| - i - 1 < n then |docWords| - i - 1 else n)
            && w[i - lo] == Mark(qw)
            && (forall k :: 0 <= k < i - lo ==> w[k] == docWords[lo + k] != qw)
            && (forall k :: i - lo < k < |w| ==> w[k] == docWords[lo + k])
  {
  }

  /** The first occurrence of `qw` in a slice that starts no later than it. */
  lemma IndexOfSlice(docWords: seq<string>, qw: string, lo: nat, hi: nat)
    requires qw in docWords
    requires lo <= IndexOf(docWords, qw) < hi <= |docWords|
    ensures qw in docWords[lo..hi]
    ensures IndexOf(docWords[lo..hi], qw) == IndexOf(docWords, qw) - lo
  {
    var i := IndexOf(docWords, qw);
    assert docWords[lo..hi][i - lo] == qw;
  }

  /** The snippet text of one matched query word. */
  function WindowText(docWords: seq<string>, qw: string, n: nat): string
    requires qw in docWords
  {
    JoinWith(" ", MarkedWindow(docWords, qw, n))
  }

  /** A window's text is never empty: its first token is a word or the mark. */
  lemma WindowTextNonEmpty(docWords: seq<string>, qw: string, n: nat)
    requires AllWords(docWords) && qw in docWords
    ensures WindowText(docWords, qw, n) != ""
  {
    var w := MarkedWindow(docWords, qw, n);
    MarkedWindowFacts(docWords, qw, n);
    var i := IndexOf(docWords, qw);
    if i - WindowStart(i, n) > 0 {
      assert IsWord(docWords[WindowStart(i, n)]);
    }
    assert w[0] != [];
    JoinPrefix(" ", w);
  }

  lemma JoinPrefix(sep: string, parts: seq<string>)
    requires parts != []
    ensures |JoinWith(sep, parts)| >= |parts[0]|
  {
  }

  // ---------------------------------------------------------------------------
  // The whole extraction.

  /** The windows of the query words found in the document, in query order. */
  function Snippets(docWords: seq<string>, queryWords: seq<string>, n: nat): seq<string> {
    if queryWords == [] then []
    else
      var prev := Snippets(docWords, queryWords[..|queryWords| - 1], n);
      var qw := queryWords[|queryWords| - 1];
      if qw in docWords then prev + [WindowText(docWords, qw, n)] else prev
  }

  /** `not_exist_words`: the query words missing from the document, in query order. */
  function NotExist(docWords: seq<string>, queryWords: seq<string>): seq<string> {
    if queryWords == [] then []
    else
      var prev := NotExist(docWords, queryWords[..|queryWords| - 1]);
      var qw := queryWords[|queryWords| - 1];
      if qw in docWords then prev else prev + [qw]
  }

  /**
   * Both lists are built query word by query word: the result for a
   * concatenated query is the concatenation of the results.
   */
  lemma {:induction false} ExtractAppend(docWords: seq<string>, a: seq<string>, b: seq<string>, n: nat)
    ensures Snippets(docWords, a + b, n) == Snippets(docWords, a, n) + Snippets(docWords, b, n)
    ensures NotExist(docWords, a + b) == NotExist(docWords, a) + NotExist(docWords, b)
    decreases |b|
  {
    if b == [] {
      assert a + b == a;
    } else {
      var init := b[..|b| - 1];
      assert (a + b)[..|a + b| - 1] == a + init;
      assert (a + b)[|a + b| - 1] == b[|b| - 1];
      ExtractAppend(docWords, a, init, n);
    }
  }

  /**
   * Every query word lands in exactly one of the two lists: a window when the
   * document has it, `not_exist_words` when it does not.
   */
  lemma {:induction false} ExtractPartition(docWords: seq<string>, queryWords: seq<string>, n: nat)
    ensures |Snippets(docWords, queryWords, n)| + |NotExist(docWords, queryWords)| == |queryWords|
    ensures forall w :: w in NotExist(docWords, queryWords) <==> w in queryWords && w !in docWords
    ensures Snippets(docWords, queryWords, n) == [] <==> forall w :: w in queryWords ==> w !in docWords
  {
    if queryWords != [] {
      var init := queryWords[..|queryWords| - 1];
      ExtractPartition(docWords, init, n);
      assert queryWords == init + [queryWords[|queryWords| - 1]];
    }
  }

  /** `find_snippet`'s pair when the document is long enough. */
  datatype Extract = Extract(finalSnippet: string, notExistWords: seq<string>)

  /** What `find_snippet` returns: `(None, None)` is `None`. */
  function FindSnippetSpec(doc: string, query: string, stopwords: seq<string>, n: nat): Option<Extract> {
    var queryWords := Split(RemoveStopWordsFromQuery(query, stopwords));
    var docWords := Split(doc);
    if |docWords| < 2 * n + 1 then None
    else Some(Extract(JoinWith("...", Snippets(docWords, queryWords, n)), NotExist(docWords, queryWords)))
  }

  /**
   * The extraction gives up exactly on documents of fewer than `2n + 1`
   * tokens; otherwise the missing words are the non-stop query words absent
   * from the document, and the snippet is empty exactly when no non-stop
   * query word occurs in the document.
   */
  lemma FindSnippetFacts(doc: string, query: string, stopwords: seq<string>, n: nat)
    ensures FindSnippetSpec(doc, query, stopwords, n).None? <==> |Split(doc)| < 2 * n + 1
    ensures FindSnippetSpec(doc, query, stopwords, n).Some? ==>
      forall w :: w in FindSnippetSpec(doc, query, stopwords, n).value.notExistWords <==>
        w in Split(query) && w !in stopwords && w !in Split(doc)
    ensures FindSnippetSpec(doc, query, stopwords, n).Some? ==>
      (FindSnippetSpec(doc, query, stopwords, n).value.finalSnippet == "" <==>
        forall w :: w in Split(query) && w !in stopwords ==> w !in Split(doc))
  {
    var queryWords := Split(RemoveStopWordsFromQuery(query, stopwords));
    var docWords := Split(doc);
    QueryWords(query, stopwords);
    FilterMeaning(Split(query), w => w !in stopwords);
    ExtractPartition(docWords, queryWords, n);
    var snippets := Snippets(docWords, queryWords, n);
    if snippets != [] {
      SnippetsNonEmpty(docWords, queryWords, n);
      JoinPrefix("...", snippets);
    }
  }

  lemma {:induction false} SnippetsNonEmpty(docWords: seq<string>, queryWords: seq<string>, n: nat)
    requires AllWords(docWords)
    ensures forall k :: 0 <= k < |Snippets(docWords, queryWords, n)| ==> Snippets(docWords, queryWords, n)[k] != ""
  {
    if queryWords != [] {
      var qw := queryWords[|queryWords| - 1];
      SnippetsNonEmpty(docWords, queryWords[..|queryWords| - 1], n);
      if qw in docWords {
        WindowTextNonEmpty(docWords, qw, n);
      }
    }
  }

  /** Python's `Snippet`, holding `number_of_words_on_each_side`. */
  class Snippet {
    const n: nat

    constructor (numberOfWordsOnEachSide: nat)
      ensures n == numberOfWordsOnEachSide
    {
      n := numberOfWordsOnEachSide;
    }

    /**
     * The window around the first occurrence of `qw`, by the three cases of
     * the source, with the occurrence re-found in the window and marked.
     */
    method MarkWindow(docLst: seq<string>, qw: string) returns (curr: seq<string>)
      requires qw in docLst && |docLst| >= 2 * n + 1
      ensures curr == MarkedWindow(docLst, qw, n)
    {
      var index := IndexOf(docLst, qw);
      if index < n {
        curr := docLst[..index + n + 1];
      } else if |docLst| - index <= n {
        curr := docLst[index - n..];
      } else {
        curr := docLst[index - n..index + n + 1];
      }
      var lo, hi := WindowStart(index, n), WindowEnd(|docLst|, index, n);
      assert curr == docLst[lo..hi];
      IndexOfSlice(docLst, qw, lo, hi);
      index := IndexOf(curr, qw);
      curr := curr[index := "***" + curr[index] + "***"];
    }

    /** `find_snippet`, with the stop words passed in instead of read from a file. */
    method FindSnippet(doc: string, query: string, stopwords: seq<string>) returns (r: Option<Extract>)
      ensures r == FindSnippetSpec(doc, query, stopwords, n)
    {
      var cleaned := RemoveStopWordsFromQuery(query, stopwords);
      var notExistWords: seq<string> := [];
      var snippets: seq<string> := [];
      var queryLst := Split(cleaned);
      var docLst := Split(doc);
      if |Split(doc)| < 2 * n + 1 {
        return None;
      }
      for k := 0 to |queryLst|
        invariant snippets == Snippets(docLst, queryLst[..k], n)
        invariant notExistWords == NotExist(docLst, queryLst[..k])
      {
        var qw := queryLst[k];
        assert queryLst[..k + 1][..k] == queryLst[..k];
        if qw in docLst {
          var curr := MarkWindow(docLst, qw);
          snippets := snippets + [JoinWith(" ", curr)];
        } else {
          notExistWords := notExistWords + [qw];
        }
      }
      assert queryLst[..|queryLst|] == queryLst;
      var finalSnippet := JoinWith("...", snippets);
      return Some(Extract(finalSnippet, notExistWords));
    }
  }
}
