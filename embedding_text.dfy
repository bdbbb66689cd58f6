// The texts that are embedded for a review and for a film's metadata: a list
// of sections, joined with newlines and stripped.
module EmbeddingText {
  import opened Wrappers
  import opened Text
  import Tmdb

  const MaxKeywords: nat := 20

  // A year or runtime is shown only when it is truthy (present and non-zero).
  predicate Truthy(n: Option<int>)
  {
    n.Some? && n.value != 0
  }

  predicate NonBlank(s: Option<string>)
  {
    s.Some? && Strip(s.value) != []
  }

  function ReviewHeader(title: string, year: Option<int>): (h: string)
    ensures |h| >= 6 && h[..6] == "Movie:"
  {
    if Truthy(year) then "Movie: " + title + " (" + IntToString(year.value) + ")" else "Movie: " + title
  }

  function RatingLine(rating: real): (l: string)
    ensures l != [] && l[|l| - 1] == '5'
  {
    "User rating: " + TenthsText(rating) + "/5"
  }

  function ReviewSection(review: string): string
  {
    "User review:\n" + Strip(review)
  }

  // The sections of `build_review_text`, in order.
  function ReviewParts(title: string, year: Option<int>, rating: Option<real>, review: Option<string>): (ps: seq<string>)
    ensures |ps| == 1 + (if rating.Some? then 1 else 0) + (if NonBlank(review) then 1 else 0)
    ensures ps[0] == ReviewHeader(title, year)
    ensures rating.Some? ==> ps[1] == RatingLine(rating.value)
    ensures NonBlank(review) ==> ps[|ps| - 1] == ReviewSection(review.value)
  {
    [ReviewHeader(title, year)]
    + (if rating.Some? then [RatingLine(rating.value)] else [])
    + (if NonBlank(review) then [ReviewSection(review.value)] else [])
  }

  function ReviewTextOf(title: string, year: Option<int>, rating: Option<real>, review: Option<string>): string
  {
    Strip(Join(ReviewParts(title, year, rating, review), "\n"))
  }

  method BuildReviewText(title: string, year: Option<int>, rating: Option<real>, review: Option<string>) returns (text: string)
    ensures text == ReviewTextOf(title, year, rating, review)
  {
    var parts := [if Truthy(year) then "Movie: " + title + " (" + IntToString(year.value) + ")" else "Movie: " + title];
    if rating.Some? {
      parts := parts + ["User rating: " + TenthsText(rating.value) + "/5"];
    }
    if review.Some? && Strip(review.value) != [] {
      parts := parts + ["User review:\n" + Strip(review.value)];
    }
    assert parts == ReviewParts(title, year, rating, review);
    text := Join(parts, "\n");
    text := Strip(text);
  }

  // The joined sections of a text whose first section starts with `head`.
  lemma JoinedStartsWith(parts: seq<string>, head: string)
    requires |parts| > 0 && |head| <= |parts[0]| && parts[0][..|head|] == head
    requires head != [] && !IsSpace(head[0]) && !IsSpace(head[|head| - 1])
    ensures var j := Join(parts, "\n"); |head| <= |j| && j[..|head|] == head
  {
    JoinStartsWithFirst(parts, "\n");
  }

  // A section that ends in a non-space character survives the final strip.
  lemma SectionShown(parts: seq<string>, i: nat, head: string)
    requires i < |parts| && |head| <= |parts[0]| && parts[0][..|head|] == head
    requires head != [] && !IsSpace(head[0])
    requires parts[i] != [] && !IsSpace(parts[i][|parts[i]| - 1])
    ensures Contains(Strip(Join(parts, "\n")), parts[i])
  {
    JoinStartsWithFirst(parts, "\n");
    JoinContainsPart(parts, "\n", i);
    var j := Join(parts, "\n");
    assert j[0] == head[0];
    StripKeeps(j, parts[i]);
  }

  // The review text always opens with the "Movie:" header.
  lemma ReviewTextHeader(title: string, year: Option<int>, rating: Option<real>, review: Option<string>)
    ensures var t := ReviewTextOf(title, year, rating, review); |t| >= 6 && t[..6] == "Movie:"
  {
    var ps := ReviewParts(title, year, rating, review);
    JoinedStartsWith(ps, "Movie:");
    StripKeepsPrefix(Join(ps, "\n"), "Movie:");
  }

  // With a truthy year the header shows it in parentheses.
  lemma ReviewTextShowsYear(title: string, year: Option<int>, rating: Option<real>, review: Option<string>)
    requires Truthy(year)
    ensures var t := ReviewTextOf(title, year, rating, review);
      var h := "Movie: " + title + " (" + IntToString(year.value) + ")"; |h| <= |t| && t[..|h|] == h
  {
    var ps := ReviewParts(title, year, rating, review);
    var h := "Movie: " + title + " (" + IntToString(year.value) + ")";
    assert h[..6] == "Movie:";
    JoinedStartsWith(ps, h);
    StripKeepsPrefix(Join(ps, "\n"), h);
  }

  // The rating line is shown whenever a rating is given.
  lemma ReviewTextShowsRating(title: string, year: Option<int>, rating: Option<real>, review: Option<string>)
    requires rating.Some?
    ensures Contains(ReviewTextOf(title, year, rating, review), "User rating: " + TenthsText(rating.value) + "/5")
  {
    var ps := ReviewParts(title, year, rating, review);
    assert ps[1] == RatingLine(rating.value);
    SectionShown(ps, 1, "Movie:");
  }

  // A non-blank review is shown, stripped, under its heading.
  lemma ReviewTextShowsReview(title: string, year: Option<int>, rating: Option<real>, review: Option<string>)
    requires NonBlank(review)
    ensures Contains(ReviewTextOf(title, year, rating, review), "User review:\n" + Strip(review.value))
  {
    var ps := ReviewParts(title, year, rating, review);
    var i := |ps| - 1;
    assert ps[i] == ReviewSection(review.value);
    StripShape(review.value);
    SectionShown(ps, i, "Movie:");
  }

  // Without a rating and with a blank review the text is the header alone.
  lemma ReviewTextHeaderOnly(title: string, year: Option<int>, review: Option<string>)
    requires !NonBlank(review)
    ensures ReviewTextOf(title, year, None, review) == Strip(ReviewHeader(title, year))
  {
    assert ReviewParts(title, year, None, review) == [ReviewHeader(title, year)];
  }

  function MetaHeader(d: Tmdb.MovieDetails): (h: string)
    ensures |h| >= 6 && h[..6] == "Title:"
  {
    if Truthy(d.year) then "Title: " + d.title + " (" + IntToString(d.year.value) + ")" else "Title: " + d.title
  }

  predicate HasOverview(d: Tmdb.MovieDetails)
  {
    d.overview.Some? && d.overview.value != []
  }

  // The sections of `build_film_meta_text`, in order: title, genres, the first
  // twenty keywords, runtime and overview, each only when there is something to show.
  function MetaParts(d: Tmdb.MovieDetails, keywords: seq<string>): (ps: seq<string>)
    ensures |ps| == 1 + (if d.genres != [] then 1 else 0) + (if keywords != [] then 1 else 0)
                      + (if Truthy(d.runtime) then 1 else 0) + (if HasOverview(d) then 1 else 0)
    ensures ps[0] == MetaHeader(d)
    ensures d.genres != [] ==> ps[1] == "Genres: " + Join(d.genres, ", ")
    ensures keywords != [] ==> ps[if d.genres != [] then 2 else 1] == "Keywords: " + Join(Take(keywords, MaxKeywords), ", ")
    ensures Truthy(d.runtime) ==>
      ps[|ps| - (if HasOverview(d) then 2 else 1)] == "Runtime: " + IntToString(d.runtime.value) + " min"
    ensures HasOverview(d) ==> ps[|ps| - 1] == "Overview:\n" + Strip(d.overview.value)
  {
    [MetaHeader(d)]
    + (if d.genres != [] then ["Genres: " + Join(d.genres, ", ")] else [])
    + (if keywords != [] then ["Keywords: " + Join(Take(keywords, MaxKeywords), ", ")] else [])
    + (if Truthy(d.runtime) then ["Runtime: " + IntToString(d.runtime.value) + " min"] else [])
    + (if HasOverview(d) then ["Overview:\n" + Strip(d.overview.value)] else [])
  }

  function MetaTextOf(d: Tmdb.MovieDetails, keywords: seq<string>): string
  {
    Strip(Join(MetaParts(d, keywords), "\n"))
  }

  method BuildFilmMetaText(d: Tmdb.MovieDetails, keywords: seq<string>) returns (text: string)
    ensures text == MetaTextOf(d, keywords)
  {
    var parts := [if Truthy(d.year) then "Title: " + d.title + " (" + IntToString(d.year.value) + ")" else "Title: " + d.title];
    ghost var ps := [MetaHeader(d)];
    assert parts == ps;
    if d.genres != [] {
      parts := parts + ["Genres: " + Join(d.genres, ", ")];
    }
    ps := ps + (if d.genres != [] then ["Genres: " + Join(d.genres, ", ")] else []);
    assert parts == ps;
    if keywords != [] {
      parts := parts + ["Keywords: " + Join(Take(keywords, MaxKeywords), ", ")];
    }
    ps := ps + (if keywords != [] then ["Keywords: " + Join(Take(keywords, MaxKeywords), ", ")] else []);
    assert parts == ps;
    if d.runtime.Some? && d.runtime.value != 0 {
      parts := parts + ["Runtime: " + IntToString(d.runtime.value) + " min"];
    }
    ps := ps + (if Truthy(d.runtime) then ["Runtime: " + IntToString(d.runtime.value) + " min"] else []);
    assert parts == ps;
    if d.overview.Some? && d.overview.value != [] {
      parts := parts + ["Overview:\n" + Strip(d.overview.value)];
    }
    ps := ps + (if HasOverview(d) then ["Overview:\n" + Strip(d.overview.value)] else []);
    assert parts == ps;
    text := Strip(Join(parts, "\n"));
  }

  // The metadata text always opens with the "Title:" header.
  lemma MetaTextHeader(d: Tmdb.MovieDetails, keywords: seq<string>)
    ensures var t := MetaTextOf(d, keywords); |t| >= 6 && t[..6] == "Title:"
  {
    var ps := MetaParts(d, keywords);
    JoinedStartsWith(ps, "Title:");
    StripKeepsPrefix(Join(ps, "\n"), "Title:");
  }

  // A truthy runtime is shown in minutes.
  lemma MetaTextShowsRuntime(d: Tmdb.MovieDetails, keywords: seq<string>)
    requires Truthy(d.runtime)
    ensures Contains(MetaTextOf(d, keywords), "Runtime: " + IntToString(d.runtime.value) + " min")
  {
    var ps := MetaParts(d, keywords);
    var i := (if d.genres != [] then 1 else 0) + (if keywords != [] then 1 else 0) + 1;
    assert ps[i] == "Runtime: " + IntToString(d.runtime.value) + " min";
    SectionShown(ps, i, "Title:");
  }

  // Every genre that ends in a non-space character is listed in the text.
  lemma MetaTextShowsGenres(d: Tmdb.MovieDetails, keywords: seq<string>, k: nat)
    requires k < |d.genres| && d.genres[k] != [] && !IsSpace(d.genres[k][|d.genres[k]| - 1])
    ensures Contains(MetaTextOf(d, keywords), d.genres[k])
  {
    var ps := MetaParts(d, keywords);
    var line := "Genres: " + Join(d.genres, ", ");
    assert ps[1] == line;
    JoinContainsPart(d.genres, ", ", k);
    ContainsGrows("Genres: ", Join(d.genres, ", "), "", d.genres[k]);
    assert "Genres: " + Join(d.genres, ", ") + "" == line;
    JoinContainsPart(ps, "\n", 1);
    ContainsTrans(Join(ps, "\n"), line, d.genres[k]);
    JoinStartsWithFirst(ps, "\n");
    assert Join(ps, "\n")[0] == 'T';
    StripKeeps(Join(ps, "\n"), d.genres[k]);
  }

  // Each of the first twenty keywords is listed in the joined sections (the
  // final strip can only drop trailing whitespace).
  lemma MetaTextShowsKeyword(d: Tmdb.MovieDetails, keywords: seq<string>, k: nat)
    requires k < |keywords| && k < MaxKeywords
    ensures Contains(Join(MetaParts(d, keywords), "\n"), keywords[k])
  {
    var ps := MetaParts(d, keywords);
    var i := if d.genres != [] then 2 else 1;
    var line := "Keywords: " + Join(Take(keywords, MaxKeywords), ", ");
    assert ps[i] == line;
    KeywordLineShows(keywords, k);
    JoinContainsPart(ps, "\n", i);
    ContainsTrans(Join(ps, "\n"), line, keywords[k]);
  }

  lemma KeywordLineShows(keywords: seq<string>, k: nat)
    requires k < |keywords| && k < MaxKeywords
    ensures Contains("Keywords: " + Join(Take(keywords, MaxKeywords), ", "), keywords[k])
  {
    var shown := Take(keywords, MaxKeywords);
    assert shown[k] == keywords[k];
    JoinContainsPart(shown, ", ", k);
    ContainsGrows("Keywords: ", Join(shown, ", "), "", keywords[k]);
    assert "Keywords: " + Join(shown, ", ") + "" == "Keywords: " + Join(shown, ", ");
  }

  // A non-empty overview is shown, stripped, under its heading, when it is not blank.
  lemma MetaTextShowsOverview(d: Tmdb.MovieDetails, keywords: seq<string>)
    requires HasOverview(d) && Strip(d.overview.value) != []
    ensures Contains(MetaTextOf(d, keywords), "Overview:\n" + Strip(d.overview.value))
  {
    var ps := MetaParts(d, keywords);
    var i := |ps| - 1;
    assert ps[i] == "Overview:\n" + Strip(d.overview.value);
    StripShape(d.overview.value);
    SectionShown(ps, i, "Title:");
  }
}
