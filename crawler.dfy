/**
 * The string helpers of `IMDbCrawler` (`Logic/core/crawler.py`): building a
 * title URL from a movie id, reading the id back with the anchored pattern
 * `^https://www\.imdb\.com/title/(tt\d{4,8})/$`, and the plot-summary and
 * review links of a title page.
 */
module Crawler {
  import opened Wrappers

  const TitlePrefix: string := "https://www.imdb.com/title/"

  predicate IsDigit(c: char) {
    '0' <= c <= '9'
  }

  /** The group `tt\d{4,8}`: `tt` and then four to eight digits. */
  predicate IsMovieId(id: string) {
    && 6 <= |id| <= 10
    && id[0] == 't' && id[1] == 't'
    && forall i :: 2 <= i < |id| ==> IsDigit(id[i])
  }

  /** `get_URL_from_id`. */
  function GetUrlFromId(id: string): string {
    TitlePrefix + id + "/"
  }

  /**
   * `re.match(pattern, url)` and its group: the URL must start with the
   * title prefix, then hold the id and a `/`; `$` matches at the very end
   * or just before one final newline.
   */
  function MatchPattern(url: string): Option<string> {
    if |url| < |TitlePrefix| || url[..|TitlePrefix|] != TitlePrefix then None
    else
      var rest := url[|TitlePrefix|..];
      var body := if rest != [] && rest[|rest| - 1] == '\n' then rest[..|rest| - 1] else rest;
      if body != [] && body[|body| - 1] == '/' && IsMovieId(body[..|body| - 1]) then Some(body[..|body| - 1])
      else None
  }

  /**
   * The pattern matches with group `id` exactly when `id` has the form
   * `tt` + 4 to 8 digits and the URL is the title URL of `id`, possibly
   * followed by one newline.
   */
  lemma MatchPatternIff(url: string, id: string)
    ensures MatchPattern(url) == Some(id) <==>
      IsMovieId(id) && (url == GetUrlFromId(id) || url == GetUrlFromId(id) + "\n")
  {
    var p := TitlePrefix;
    if MatchPattern(url) == Some(id) {
      var rest := url[|p|..];
      assert url == p + rest;
      if rest != [] && rest[|rest| - 1] == '\n' {
        assert rest == rest[..|rest| - 1] + "\n";
        assert rest[..|rest| - 1] == id + "/";
      } else {
        assert rest == id + "/";
      }
    }
    if IsMovieId(id) && url == GetUrlFromId(id) {
      assert url[..|p|] == p;
      assert url[|p|..] == id + "/";
      assert (id + "/")[..|id|] == id;
    }
    if IsMovieId(id) && url == GetUrlFromId(id) + "\n" {
      assert url[..|p|] == p;
      assert url[|p|..] == id + "/" + "\n";
      assert (id + "/" + "\n")[..|id| + 1] == id + "/";
      assert (id + "/")[..|id|] == id;
    }
  }

  /** `get_id_from_URL`: the group of a matching URL, an `AssertionError` otherwise. */
  function GetIdFromUrl(url: string): Result<string> {
    match MatchPattern(url)
    case Some(id) => Success(id)
    case None => Failure(AssertionError("Invalid URL"))
  }

  /**
   * Reading the id back from the URL built for it gives the id back exactly
   * when it is a well-formed movie id, and fails the assertion otherwise.
   */
  lemma UrlIdRoundTrip(id: string)
    ensures IsMovieId(id) ==> GetIdFromUrl(GetUrlFromId(id)) == Success(id)
    ensures !IsMovieId(id) ==> GetIdFromUrl(GetUrlFromId(id)) == Failure(AssertionError("Invalid URL"))
  {
    var url := GetUrlFromId(id);
    MatchPatternIff(url, id);
    if MatchPattern(url).Some? {
      var other := MatchPattern(url).value;
      MatchPatternIff(url, other);
      if url != GetUrlFromId(other) + "\n" {
        assert TitlePrefix + id == TitlePrefix + other by {
          assert url[..|url| - 1] == TitlePrefix + id;
          assert url[..|url| - 1] == TitlePrefix + other;
        }
        assert id == (TitlePrefix + id)[|TitlePrefix|..];
      }
    }
  }

  /** Every id read from a URL is a movie id whose title URL the input is, up to a final newline. */
  lemma IdFromUrl(url: string)
    ensures GetIdFromUrl(url).Success? ==>
      IsMovieId(GetIdFromUrl(url).value) &&
      (url == GetUrlFromId(GetIdFromUrl(url).value) || url == GetUrlFromId(GetIdFromUrl(url).value) + "\n")
  {
    if GetIdFromUrl(url).Success? {
      MatchPatternIff(url, GetIdFromUrl(url).value);
    }
  }

  /**
   * A URL that ends in neither `/` nor a newline never matches, as with the
   * `?ref_=` links of the IMDb chart.
   */
  lemma QueryStringRejected(url: string)
    requires url != [] && url[|url| - 1] != '/' && url[|url| - 1] != '\n'
    ensures GetIdFromUrl(url).Failure?
  {
    if MatchPattern(url).Some? {
      var id := MatchPattern(url).value;
      MatchPatternIff(url, id);
    }
  }

  lemma RefLinkRejected()
    ensures GetIdFromUrl("https://www.imdb.com/title/tt0111161/?ref_=chttp_t_1").Failure?
  {
    QueryStringRejected("https://www.imdb.com/title/tt0111161/?ref_=chttp_t_1");
  }

  /** `get_summary_link`: `None` (after printing) when the URL does not match. */
  function GetSummaryLink(url: string): Option<string> {
    if MatchPattern(url).Some? then Some(url + "plotsummary") else None
  }

  /** `get_review_link`: `None` (after printing) when the URL does not match. */
  function GetReviewLink(url: string): Option<string> {
    if MatchPattern(url).Some? then Some(url + "reviews") else None
  }

  /**
   * The links exist exactly for the URLs an id can be read from; for the
   * title URL of a movie id they are that URL plus `plotsummary` and
   * `reviews`.
   */
  lemma LinksOfTitle(url: string, id: string)
    ensures GetSummaryLink(url).Some? <==> GetIdFromUrl(url).Success?
    ensures GetReviewLink(url).Some? <==> GetIdFromUrl(url).Success?
    ensures IsMovieId(id) ==>
      GetSummaryLink(GetUrlFromId(id)) == Some(TitlePrefix + id + "/plotsummary") &&
      GetReviewLink(GetUrlFromId(id)) == Some(TitlePrefix + id + "/reviews")
  {
    if IsMovieId(id) {
      UrlIdRoundTrip(id);
      assert GetUrlFromId(id) + "plotsummary" == TitlePrefix + id + "/plotsummary";
      assert GetUrlFromId(id) + "reviews" == TitlePrefix + id + "/reviews";
    }
  }

  /**
   * Because `$` also matches before a final newline, a title URL with a
   * trailing newline is accepted and the summary link keeps the newline
   * inside it.
   */
  lemma TrailingNewlineAccepted(id: string)
    requires IsMovieId(id)
    ensures GetIdFromUrl(GetUrlFromId(id) + "\n") == Success(id)
    ensures GetSummaryLink(GetUrlFromId(id) + "\n") == Some(TitlePrefix + id + "/\nplotsummary")
  {
    MatchPatternIff(GetUrlFromId(id) + "\n", id);
    assert GetUrlFromId(id) + "\n" + "plotsummary" == TitlePrefix + id + "/\nplotsummary";
  }
}
