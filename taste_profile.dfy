// The v0 taste profile: the user's rated films are split into liked and
// disliked ones, the genres, decades and production countries of their TMDB
// payloads are counted, and the top entries of each count make up the
// profile's weights and its human-readable summary.
module TasteProfileV0 {
  import opened Wrappers
  import opened Text
  import opened Json
  import opened Numbers
  import opened Sorting

  const Version: string := "v0"
  const DefaultLikeThreshold: real := 4.0
  const DefaultDislikeThreshold: real := 2.5
  const GenreTopN: nat := 10
  const DecadeTopN: nat := 8
  const CountryTopN: nat := 8

  // --- Decades -----------------------------------------------------------------------

  // `_decade_from_year`: no decade for a missing or zero year, else the year
  // rounded down to a multiple of ten (floor division, also for negative years).
  function DecadeFromYear(year: Option<int>): (r: Option<int>)
    ensures r.None? <==> year.None? || year.value == 0
    ensures r.Some? ==> r.value % 10 == 0 && r.value <= year.value < r.value + 10
  {
    if year.None? || year.value == 0 then None else Some((year.value / 10) * 10)
  }

  // `_format_decade`: "1990-е".
  function FormatDecade(dec: int): (s: string)
    ensures |s| >= 3 && s[|s| - 2..] == "-\U{0435}"
  {
    IntToString(dec) + "-\U{0435}"
  }

  // --- Counting dicts ----------------------------------------------------------------

  // A counting dict in insertion order: keys and counts.
  type Counts = seq<(int, int)>

  predicate DistinctKeys(c: Counts)
  {
    forall i, j :: 0 <= i < j < |c| ==> c[i].0 != c[j].0
  }

  // `counts.get(k, 0)`.
  function CountIn(c: Counts, k: int): int
  {
    if c == [] then 0 else if c[0].0 == k then c[0].1 else CountIn(c[1..], k)
  }

  // `counts[k] = counts.get(k, 0) + 1`: an existing key keeps its place, a new
  // one goes last.
  function Bump(c: Counts, k: int): (r: Counts)
    ensures CountIn(r, k) == CountIn(c, k) + 1
    ensures forall j :: j != k ==> CountIn(r, j) == CountIn(c, j)
    ensures |r| == |c| || (|r| == |c| + 1 && r[|c|] == (k, 1))
    ensures forall i :: 0 <= i < |c| ==> r[i].0 == c[i].0
  {
    if c == [] then [(k, 1)]
    else if c[0].0 == k then [(k, c[0].1 + 1)] + c[1..]
    else [c[0]] + Bump(c[1..], k)
  }

  lemma {:induction false} BumpKeepsDistinct(c: Counts, k: int)
    requires DistinctKeys(c)
    ensures DistinctKeys(Bump(c, k))
  {
    if c != [] && c[0].0 != k {
      BumpKeepsDistinct(c[1..], k);
      var r := Bump(c, k);
      var t := Bump(c[1..], k);
      assert r == [c[0]] + t;
      forall j | 0 < j < |r| ensures r[0].0 != r[j].0 {
        if j - 1 < |c| - 1 {
          assert t[j - 1].0 == c[1..][j - 1].0 == c[j].0;
        } else {
          assert t[j - 1] == (k, 1);
        }
      }
    }
  }

  lemma {:induction false} CountOfMissing(c: Counts, k: int)
    requires forall i :: 0 <= i < |c| ==> c[i].0 != k
    ensures CountIn(c, k) == 0
  {
    if c != [] {
      CountOfMissing(c[1..], k);
    }
  }

  // --- ingest_genres -----------------------------------------------------------------

  datatype GenreTally = GenreTally(counts: Counts, names: map<int, string>)

  // `payload.get("genres", [])`, when it is a list.
  function GenreList(payload: map<string, Json>): seq<Json>
  {
    match GetOr(payload, "genres", JList([]))
    case JList(items) => items
    case _ => []
  }

  // The id a genre entry is counted under: an int `id` of a dict entry.
  function GenreId(g: Json): Option<int>
  {
    if g.JObj? then AsPyInt(Get(g.fields, "id")) else None
  }

  // One genre entry: its id is counted, and its name, when a non-empty string,
  // becomes the genre's name.
  function GenreStep(t: GenreTally, g: Json): (r: GenreTally)
    ensures GenreId(g).None? ==> r == t
  {
    match GenreId(g)
    case None => t
    case Some(gid) =>
      var name := Get(g.fields, "name");
      GenreTally(Bump(t.counts, gid), if name.JStr? && name.s != [] then t.names[gid := name.s] else t.names)
  }

  function IngestGenresOf(t: GenreTally, gs: seq<Json>): GenreTally
  {
    if gs == [] then t else GenreStep(IngestGenresOf(t, gs[..|gs| - 1]), gs[|gs| - 1])
  }

  // How many entries count under id k.
  function IdOccurrences(gs: seq<Json>, k: int): (n: nat)
    ensures n <= |gs|
  {
    if gs == [] then 0 else IdOccurrences(gs[..|gs| - 1], k) + (if GenreId(gs[|gs| - 1]) == Some(k) then 1 else 0)
  }

  // `ingest_genres`.
  method IngestGenres(t: GenreTally, payload: map<string, Json>) returns (r: GenreTally)
    ensures r == IngestGenresOf(t, GenreList(payload))
  {
    var gs := GenreList(payload);
    r := t;
    var i := 0;
    while i < |gs|
      invariant 0 <= i <= |gs|
      invariant r == IngestGenresOf(t, gs[..i])
    {
      assert gs[..i + 1][..i] == gs[..i];
      var g := gs[i];
      if g.JObj? {
        var gid := AsPyInt(Get(g.fields, "id"));
        if gid.Some? {
          r := r.(counts := Bump(r.counts, gid.value));
          var name := Get(g.fields, "name");
          if name.JStr? && name.s != [] {
            r := r.(names := r.names[gid.value := name.s]);
          }
        }
      }
      i := i + 1;
    }
    assert gs[..i] == gs;
  }

  // Each id is counted once per entry that carries it; nothing else changes.
  lemma {:induction false} IngestGenresCounts(t: GenreTally, gs: seq<Json>, k: int)
    ensures CountIn(IngestGenresOf(t, gs).counts, k) == CountIn(t.counts, k) + IdOccurrences(gs, k)
  {
    if gs != [] {
      IngestGenresCounts(t, gs[..|gs| - 1], k);
    }
  }

  // A genre has a name only if it had one before or an entry carried its id.
  lemma {:induction false} IngestGenresNames(t: GenreTally, gs: seq<Json>, k: int)
    requires k in IngestGenresOf(t, gs).names
    ensures k in t.names || IdOccurrences(gs, k) > 0
  {
    if gs != [] {
      var p := IngestGenresOf(t, gs[..|gs| - 1]);
      if k in p.names {
        IngestGenresNames(t, gs[..|gs| - 1], k);
      }
    }
  }

  predicate NamesNonEmpty(names: map<int, string>)
  {
    forall k :: k in names ==> names[k] != []
  }

  // Only non-empty names are ever recorded.
  lemma {:induction false} IngestGenresNamesNonEmpty(t: GenreTally, gs: seq<Json>)
    requires NamesNonEmpty(t.names)
    ensures NamesNonEmpty(IngestGenresOf(t, gs).names)
  {
    if gs != [] {
      IngestGenresNamesNonEmpty(t, gs[..|gs| - 1]);
    }
  }

  lemma {:induction false} IngestGenresDistinct(t: GenreTally, gs: seq<Json>)
    requires DistinctKeys(t.counts)
    ensures DistinctKeys(IngestGenresOf(t, gs).counts)
  {
    if gs != [] {
      IngestGenresDistinct(t, gs[..|gs| - 1]);
      var p := IngestGenresOf(t, gs[..|gs| - 1]);
      if GenreId(gs[|gs| - 1]).Some? {
        BumpKeepsDistinct(p.counts, GenreId(gs[|gs| - 1]).value);
      }
    }
  }

  // --- ingest_liked_extra ------------------------------------------------------------

  // The year of a `release_date` string whose first four characters are digits.
  function ReleaseYear(payload: map<string, Json>): (y: Option<int>)
    ensures y.Some? ==> 0 <= y.value <= 9999
  {
    var rd := Get(payload, "release_date");
    if rd.JStr? && |rd.s| >= 4 && IsDigitString(rd.s[..4]) then
      FourDigitsBound(rd.s[..4]);
      Some(DigitsValue(rd.s[..4]) as int)
    else None
  }

  datatype CountryCount = CountryCount(code: string, name: string, count: int)

  predicate DistinctCodes(cs: seq<CountryCount>)
  {
    forall i, j :: 0 <= i < j < |cs| ==> cs[i].code != cs[j].code
  }

  // `liked_countries[code]["count"]`, 0 for a code not seen.
  function CountryCountOf(cs: seq<CountryCount>, code: string): int
  {
    if cs == [] then 0 else if cs[0].code == code then cs[0].count else CountryCountOf(cs[1..], code)
  }

  // A code seen for the first time is added with the given name; an existing
  // entry keeps its name and has its count raised.
  function BumpCountry(cs: seq<CountryCount>, code: string, name: string): (r: seq<CountryCount>)
    ensures CountryCountOf(r, code) == CountryCountOf(cs, code) + 1
    ensures forall c :: c != code ==> CountryCountOf(r, c) == CountryCountOf(cs, c)
    ensures |r| == |cs| || (|r| == |cs| + 1 && r[|cs|] == CountryCount(code, name, 1))
    ensures forall i :: 0 <= i < |cs| ==> r[i].code == cs[i].code && r[i].name == cs[i].name
  {
    if cs == [] then [CountryCount(code, name, 1)]
    else if cs[0].code == code then [cs[0].(count := cs[0].count + 1)] + cs[1..]
    else [cs[0]] + BumpCountry(cs[1..], code, name)
  }

  // The code a country entry is counted under: a non-empty `iso_3166_1` string.
  function CountryCode(c: Json): Option<string>
  {
    if c.JObj? then
      var code := Get(c.fields, "iso_3166_1");
      if code.JStr? && code.s != [] then Some(code.s) else None
    else None
  }

  // The name a new country gets: its `name` when a string, else its code.
  function CountryName(c: Json, code: string): string
  {
    if c.JObj? && Get(c.fields, "name").JStr? then Get(c.fields, "name").s else code
  }

  function CountryStep(cs: seq<CountryCount>, c: Json): seq<CountryCount>
  {
    match CountryCode(c)
    case None => cs
    case Some(code) => BumpCountry(cs, code, CountryName(c, code))
  }

  function IngestCountriesOf(cs: seq<CountryCount>, items: seq<Json>): seq<CountryCount>
  {
    if items == [] then cs else CountryStep(IngestCountriesOf(cs, items[..|items| - 1]), items[|items| - 1])
  }

  function CountryList(payload: map<string, Json>): seq<Json>
  {
    match GetOr(payload, "production_countries", JList([]))
    case JList(items) => items
    case _ => []
  }

  datatype ExtraTally = ExtraTally(decades: Counts, countries: seq<CountryCount>)

  function LikedExtraOf(t: ExtraTally, payload: map<string, Json>): ExtraTally
  {
    var dec := DecadeFromYear(ReleaseYear(payload));
    ExtraTally(if dec.Some? then Bump(t.decades, dec.value) else t.decades,
               IngestCountriesOf(t.countries, CountryList(payload)))
  }

  // `ingest_liked_extra`.
  method IngestLikedExtra(t: ExtraTally, payload: map<string, Json>) returns (r: ExtraTally)
    ensures r == LikedExtraOf(t, payload)
  {
    var decades := t.decades;
    var dec := DecadeFromYear(ReleaseYear(payload));
    if dec.Some? {
      decades := Bump(decades, dec.value);
    }
    var items := CountryList(payload);
    var cs := t.countries;
    var i := 0;
    while i < |items|
      invariant 0 <= i <= |items|
      invariant cs == IngestCountriesOf(t.countries, items[..i])
    {
      assert items[..i + 1][..i] == items[..i];
      var c := items[i];
      if c.JObj? {
        var code := Get(c.fields, "iso_3166_1");
        if code.JStr? && code.s != [] {
          var name := Get(c.fields, "name");
          cs := BumpCountry(cs, code.s, if name.JStr? then name.s else code.s);
        }
      }
      i := i + 1;
    }
    assert items[..i] == items;
    r := ExtraTally(decades, cs);
  }

  // How many entries carry a given code.
  function CodeOccurrences(items: seq<Json>, code: string): (n: nat)
    ensures n <= |items|
  {
    if items == [] then 0
    else CodeOccurrences(items[..|items| - 1], code) + (if CountryCode(items[|items| - 1]) == Some(code) then 1 else 0)
  }

  // A country is counted once per entry with its code.
  lemma {:induction false} IngestCountriesCounts(cs: seq<CountryCount>, items: seq<Json>, code: string)
    ensures CountryCountOf(IngestCountriesOf(cs, items), code) == CountryCountOf(cs, code) + CodeOccurrences(items, code)
  {
    if items != [] {
      IngestCountriesCounts(cs, items[..|items| - 1], code);
    }
  }

  // A country keeps the name it was first seen with.
  lemma {:induction false} IngestCountriesKeepNames(cs: seq<CountryCount>, items: seq<Json>)
    ensures var r := IngestCountriesOf(cs, items);
      |r| >= |cs| && forall i :: 0 <= i < |cs| ==> r[i].code == cs[i].code && r[i].name == cs[i].name
  {
    if items != [] {
      IngestCountriesKeepNames(cs, items[..|items| - 1]);
    }
  }

  // A release date that does not start with four digits adds no decade.
  lemma NoDecadeWithoutYear(t: ExtraTally, payload: map<string, Json>)
    requires var rd := Get(payload, "release_date"); !(rd.JStr? && |rd.s| >= 4 && IsDigitString(rd.s[..4]))
    ensures LikedExtraOf(t, payload).decades == t.decades
  {
  }

  // --- Rated, liked and disliked films -----------------------------------------------

  // A row of the rated-films query: id and rating, either possibly null.
  datatype RatedRow = RatedRow(tmdbId: Option<int>, rating: Option<real>)
  datatype RatedMovie = RatedMovie(tmdbId: int, rating: real)

  function RatedOf(rows: seq<RatedRow>): (r: seq<RatedMovie>)
    ensures |r| <= |rows|
  {
    if rows == [] then []
    else
      var last := rows[|rows| - 1];
      RatedOf(rows[..|rows| - 1])
      + (if last.tmdbId.Some? && last.rating.Some? then [RatedMovie(last.tmdbId.value, last.rating.value)] else [])
  }

  // The loop that skips rows with a null id or rating.
  method CollectRated(rows: seq<RatedRow>) returns (rated: seq<RatedMovie>)
    ensures rated == RatedOf(rows)
  {
    rated := [];
    var i := 0;
    while i < |rows|
      invariant 0 <= i <= |rows|
      invariant rated == RatedOf(rows[..i])
    {
      assert rows[..i + 1][..i] == rows[..i];
      var row := rows[i];
      if row.tmdbId.Some? && row.rating.Some? {
        rated := rated + [RatedMovie(row.tmdbId.value, row.rating.value)];
      }
      i := i + 1;
    }
    assert rows[..i] == rows;
  }

  // A film is kept exactly when its row has both an id and a rating.
  lemma {:induction false} RatedMembers(rows: seq<RatedRow>, m: RatedMovie)
    ensures m in RatedOf(rows) <==> RatedRow(Some(m.tmdbId), Some(m.rating)) in rows
  {
    if rows != [] {
      RatedMembers(rows[..|rows| - 1], m);
      assert rows == rows[..|rows| - 1] + [rows[|rows| - 1]];
    }
  }

  // `[r for r in rated if r.rating >= like_threshold]`.
  function LikedOf(rated: seq<RatedMovie>, like: real): (r: seq<RatedMovie>)
    ensures |r| <= |rated|
  {
    if rated == [] then []
    else LikedOf(rated[..|rated| - 1], like) + (if rated[|rated| - 1].rating >= like then [rated[|rated| - 1]] else [])
  }

  // `[r for r in rated if r.rating <= dislike_threshold]`.
  function DislikedOf(rated: seq<RatedMovie>, dislike: real): (r: seq<RatedMovie>)
    ensures |r| <= |rated|
  {
    if rated == [] then []
    else DislikedOf(rated[..|rated| - 1], dislike) + (if rated[|rated| - 1].rating <= dislike then [rated[|rated| - 1]] else [])
  }

  // Liked films are exactly the rated ones at or above the like threshold,
  // disliked ones exactly those at or below the dislike threshold.
  lemma {:induction false} SplitMembers(rated: seq<RatedMovie>, like: real, dislike: real, m: RatedMovie)
    ensures m in LikedOf(rated, like) <==> m in rated && m.rating >= like
    ensures m in DislikedOf(rated, dislike) <==> m in rated && m.rating <= dislike
  {
    if rated != [] {
      SplitMembers(rated[..|rated| - 1], like, dislike, m);
      assert rated == rated[..|rated| - 1] + [rated[|rated| - 1]];
    }
  }

  // With the dislike threshold below the like threshold no film is both.
  lemma LikedAndDislikedApart(rated: seq<RatedMovie>, like: real, dislike: real, m: RatedMovie)
    requires dislike < like
    ensures !(m in LikedOf(rated, like) && m in DislikedOf(rated, dislike))
  {
    SplitMembers(rated, like, dislike, m);
  }

  // --- The counting loops ------------------------------------------------------------

  datatype Stats = Stats(likedGenres: Counts, dislikedGenres: Counts, genreNames: map<int, string>,
                         likedDecades: Counts, likedCountries: seq<CountryCount>)

  const EmptyStats: Stats := Stats([], [], map[], [], [])

  // `payloads.get(id)` when it is a non-empty dict.
  function PayloadFor(payloads: map<int, map<string, Json>>, id: int): Option<map<string, Json>>
  {
    if id in payloads && payloads[id] != map[] then Some(payloads[id]) else None
  }

  function LikedStep(st: Stats, payloads: map<int, map<string, Json>>, r: RatedMovie): Stats
  {
    match PayloadFor(payloads, r.tmdbId)
    case None => st
    case Some(p) =>
      var g := IngestGenresOf(GenreTally(st.likedGenres, st.genreNames), GenreList(p));
      var e := LikedExtraOf(ExtraTally(st.likedDecades, st.likedCountries), p);
      st.(likedGenres := g.counts, genreNames := g.names, likedDecades := e.decades, likedCountries := e.countries)
  }

  function DislikedStep(st: Stats, payloads: map<int, map<string, Json>>, r: RatedMovie): Stats
  {
    match PayloadFor(payloads, r.tmdbId)
    case None => st
    case Some(p) =>
      var g := IngestGenresOf(GenreTally(st.dislikedGenres, st.genreNames), GenreList(p));
      st.(dislikedGenres := g.counts, genreNames := g.names)
  }

  function LikedStatsOf(st: Stats, payloads: map<int, map<string, Json>>, liked: seq<RatedMovie>): Stats
  {
    if liked == [] then st else LikedStep(LikedStatsOf(st, payloads, liked[..|liked| - 1]), payloads, liked[|liked| - 1])
  }

  function DislikedStatsOf(st: Stats, payloads: map<int, map<string, Json>>, disliked: seq<RatedMovie>): Stats
  {
    if disliked == [] then st
    else DislikedStep(DislikedStatsOf(st, payloads, disliked[..|disliked| - 1]), payloads, disliked[|disliked| - 1])
  }

  function StatsOf(payloads: map<int, map<string, Json>>, liked: seq<RatedMovie>, disliked: seq<RatedMovie>): Stats
  {
    DislikedStatsOf(LikedStatsOf(EmptyStats, payloads, liked), payloads, disliked)
  }

  // The two loops over liked and disliked films.
  method CountStats(payloads: map<int, map<string, Json>>, liked: seq<RatedMovie>, disliked: seq<RatedMovie>) returns (st: Stats)
    ensures st == StatsOf(payloads, liked, disliked)
  {
    st := EmptyStats;
    var i := 0;
    while i < |liked|
      invariant 0 <= i <= |liked|
      invariant st == LikedStatsOf(EmptyStats, payloads, liked[..i])
    {
      assert liked[..i + 1][..i] == liked[..i];
      var p := PayloadFor(payloads, liked[i].tmdbId);
      if p.Some? {
        var g := IngestGenres(GenreTally(st.likedGenres, st.genreNames), p.value);
        var e := IngestLikedExtra(ExtraTally(st.likedDecades, st.likedCountries), p.value);
        st := st.(likedGenres := g.counts, genreNames := g.names, likedDecades := e.decades, likedCountries := e.countries);
      }
      i := i + 1;
    }
    assert liked[..i] == liked;
    ghost var afterLiked := st;
    var j := 0;
    while j < |disliked|
      invariant 0 <= j <= |disliked|
      invariant st == DislikedStatsOf(afterLiked, payloads, disliked[..j])
    {
      assert disliked[..j + 1][..j] == disliked[..j];
      var p := PayloadFor(payloads, disliked[j].tmdbId);
      if p.Some? {
        var g := IngestGenres(GenreTally(st.dislikedGenres, st.genreNames), p.value);
        st := st.(dislikedGenres := g.counts, genreNames := g.names);
      }
      j := j + 1;
    }
    assert disliked[..j] == disliked;
  }

  // Disliked films never touch the liked counts.
  lemma {:induction false} DislikedKeepsLikes(st: Stats, payloads: map<int, map<string, Json>>, disliked: seq<RatedMovie>)
    ensures var r := DislikedStatsOf(st, payloads, disliked);
      r.likedGenres == st.likedGenres && r.likedDecades == st.likedDecades && r.likedCountries == st.likedCountries
  {
    if disliked != [] {
      DislikedKeepsLikes(st, payloads, disliked[..|disliked| - 1]);
    }
  }

  // A film without a usable payload changes nothing.
  lemma SkippedWithoutPayload(st: Stats, payloads: map<int, map<string, Json>>, r: RatedMovie)
    requires PayloadFor(payloads, r.tmdbId).None?
    ensures LikedStep(st, payloads, r) == st && DislikedStep(st, payloads, r) == st
  {
  }

  // --- _top_items --------------------------------------------------------------------

  datatype TopItem = TopItem(key: int, count: int, score: real)

  function Total(c: Counts): int
  {
    if c == [] then 0 else Total(c[..|c| - 1]) + c[|c| - 1].1
  }

  // `sum(counts.values()) or 1`.
  function Denominator(c: Counts): (d: int)
    ensures d != 0
  {
    if Total(c) == 0 then 1 else Total(c)
  }

  function CountKey(p: (int, int)): real
  {
    p.1 as real
  }

  // `sorted(counts.items(), key=lambda kv: kv[1], reverse=True)`.
  function RankCounts(c: Counts): (r: Counts)
    ensures |r| == |c| && multiset(r) == multiset(c)
  {
    SortBy(c, ByKeyDesc(CountKey))
  }

  function ItemsOf(ranked: Counts, d: int): (r: seq<TopItem>)
    requires d != 0
    ensures |r| == |ranked|
    ensures forall i :: 0 <= i < |r| ==> r[i].key == ranked[i].0 && r[i].count == ranked[i].1
  {
    seq(|ranked|, i requires 0 <= i < |ranked| => TopItem(ranked[i].0, ranked[i].1, Round4(ranked[i].1 as real / d as real)))
  }

  // `_top_items`.
  function TopItems(c: Counts, topN: nat): (r: seq<TopItem>)
    ensures |r| == if |c| < topN then |c| else topN
  {
    ItemsOf(Take(RankCounts(c), topN), Denominator(c))
  }

  // The top items are in order of falling count, each is an entry of the
  // counts, and each score is its count's share of the total, to four places.
  lemma TopItemsFacts(c: Counts, topN: nat)
    ensures var r := TopItems(c, topN);
      && (forall i, j :: 0 <= i < j < |r| ==> r[i].count >= r[j].count)
      && (forall i :: 0 <= i < |r| ==> (r[i].key, r[i].count) in c)
      && (forall i :: 0 <= i < |r| ==> -0.00005 <= r[i].score - r[i].count as real / Denominator(c) as real <= 0.00005)
  {
    var ge := ByKeyDesc(CountKey);
    ByKeyDescTotal(CountKey);
    SortSorted(c, ge);
    var ranked := RankCounts(c);
    var r := TopItems(c, topN);
    forall i, j | 0 <= i < j < |r| ensures r[i].count >= r[j].count {
      assert ge(ranked[i], ranked[j]);
      ByKeyDescApply(CountKey, ranked[i], ranked[j]);
    }
    forall i | 0 <= i < |r| ensures (r[i].key, r[i].count) in c {
      assert ranked[i] in multiset(c);
    }
  }

  // Among entries with the same count the first inserted comes first.
  lemma TopItemsKeepTies(c: Counts, n: int)
    ensures WithKey(RankCounts(c), CountKey, n as real) == WithKey(c, CountKey, n as real)
  {
    SortKeepsTies(c, CountKey, n as real);
  }

  // --- Country ranking ---------------------------------------------------------------

  datatype CountryItem = CountryItem(code: string, name: string, count: int, score: real)

  function CountryTotal(cs: seq<CountryCount>): int
  {
    if cs == [] then 0 else CountryTotal(cs[..|cs| - 1]) + cs[|cs| - 1].count
  }

  function CountryCountKey(c: CountryCount): real
  {
    c.count as real
  }

  // `countries_list` and `liked_countries_top`.
  function TopCountries(cs: seq<CountryCount>): (r: seq<CountryItem>)
    ensures |r| == if |cs| < CountryTopN then |cs| else CountryTopN
  {
    var ranked := Take(SortBy(cs, ByKeyDesc(CountryCountKey)), CountryTopN);
    var d := if CountryTotal(cs) == 0 then 1 else CountryTotal(cs);
    seq(|ranked|, i requires 0 <= i < |ranked| =>
      CountryItem(ranked[i].code, ranked[i].name, ranked[i].count, Round4(ranked[i].count as real / d as real)))
  }

  lemma TopCountriesOrdered(cs: seq<CountryCount>)
    ensures var r := TopCountries(cs);
      && (forall i, j :: 0 <= i < j < |r| ==> r[i].count >= r[j].count)
      && (forall i :: 0 <= i < |r| ==> CountryCount(r[i].code, r[i].name, r[i].count) in cs)
  {
    var ge := ByKeyDesc(CountryCountKey);
    ByKeyDescTotal(CountryCountKey);
    SortSorted(cs, ge);
    var ranked := SortBy(cs, ge);
    var r := TopCountries(cs);
    forall i, j | 0 <= i < j < |r| ensures r[i].count >= r[j].count {
      assert ge(ranked[i], ranked[j]);
      ByKeyDescApply(CountryCountKey, ranked[i], ranked[j]);
    }
    forall i | 0 <= i < |r| ensures CountryCount(r[i].code, r[i].name, r[i].count) in cs {
      assert ranked[i] in multiset(cs);
    }
  }

  // --- weights_json ------------------------------------------------------------------

  datatype GenreItem = GenreItem(id: int, name: string, count: int, score: real)
  datatype DecadeItem = DecadeItem(decade: int, count: int, score: real)

  datatype Weights = Weights(
    computedAt: string,
    likeThreshold: real,
    dislikeThreshold: real,
    ratedUsed: nat,
    likedCount: nat,
    dislikedCount: nat,
    likedGenres: seq<GenreItem>,
    likedDecades: seq<DecadeItem>,
    likedCountries: seq<CountryItem>,
    dislikedGenres: seq<GenreItem>)

  // `hydrate_genre`: a genre without a recorded name is shown by its id.
  // With only non-empty names recorded, every hydrated genre has a name.
  function HydrateGenres(items: seq<TopItem>, names: map<int, string>): (r: seq<GenreItem>)
    ensures |r| == |items|
    ensures forall i :: 0 <= i < |r| ==> r[i].id == items[i].key && r[i].count == items[i].count && r[i].score == items[i].score
    ensures NamesNonEmpty(names) ==> forall i :: 0 <= i < |r| ==> r[i].name != []
  {
    seq(|items|, i requires 0 <= i < |items| =>
      GenreItem(items[i].key, if items[i].key in names then names[items[i].key] else IntToString(items[i].key),
                items[i].count, items[i].score))
  }

  function HydrateDecades(items: seq<TopItem>): (r: seq<DecadeItem>)
    ensures |r| == |items|
    ensures forall i :: 0 <= i < |r| ==> r[i].decade == items[i].key && r[i].count == items[i].count
  {
    seq(|items|, i requires 0 <= i < |items| => DecadeItem(items[i].key, items[i].count, items[i].score))
  }

  function WeightsOf(computedAt: string, like: real, dislike: real, rated: seq<RatedMovie>,
                     liked: seq<RatedMovie>, disliked: seq<RatedMovie>, st: Stats): Weights
  {
    Weights(computedAt, like, dislike, |rated|, |liked|, |disliked|,
            HydrateGenres(TopItems(st.likedGenres, GenreTopN), st.genreNames),
            HydrateDecades(TopItems(st.likedDecades, DecadeTopN)),
            TopCountries(st.likedCountries),
            HydrateGenres(TopItems(st.dislikedGenres, GenreTopN), st.genreNames))
  }

  // --- _build_summary ----------------------------------------------------------------

  const LikedGenresLabel: string := "\U{0422}\U{0435}\U{0431}\U{0435} \U{0447}\U{0430}\U{0449}\U{0435} \U{043D}\U{0440}\U{0430}\U{0432}\U{0438}\U{0442}\U{0441}\U{044F} (\U{0436}\U{0430}\U{043D}\U{0440}\U{044B}): "
  const LikedDecadesLabel: string := "\U{041B}\U{044E}\U{0431}\U{0438}\U{043C}\U{044B}\U{0435} \U{0434}\U{0435}\U{0441}\U{044F}\U{0442}\U{0438}\U{043B}\U{0435}\U{0442}\U{0438}\U{044F}: "
  const LikedCountriesLabel: string := "\U{0427}\U{0430}\U{0441}\U{0442}\U{043E} \U{0437}\U{0430}\U{0445}\U{043E}\U{0434}\U{044F}\U{0442} \U{0441}\U{0442}\U{0440}\U{0430}\U{043D}\U{044B}: "
  const DislikedGenresLabel: string := "\U{0427}\U{0430}\U{0449}\U{0435} \U{043D}\U{0435} \U{0437}\U{0430}\U{0445}\U{043E}\U{0434}\U{0438}\U{0442} (\U{0436}\U{0430}\U{043D}\U{0440}\U{044B}): "
  // "Not enough data for a taste profile yet …".
  const LittleDataMessage: string := LittleDataOpening + LittleDataClosing
  const LittleDataOpening: string := "\U{041F}\U{043E}\U{043A}\U{0430} \U{043C}\U{0430}\U{043B}\U{043E} \U{0434}\U{0430}\U{043D}\U{043D}\U{044B}\U{0445} \U{0434}\U{043B}\U{044F} \U{043F}\U{0440}\U{043E}\U{0444}\U{0438}\U{043B}\U{044F} \U{0432}\U{043A}\U{0443}\U{0441}\U{0430}."
  const LittleDataClosing: string := " \U{0414}\U{043E}\U{0431}\U{0430}\U{0432}\U{044C} \U{0435}\U{0449}\U{0451} \U{043E}\U{0446}\U{0435}\U{043D}\U{043E}\U{043A} \U{0438} \U{0440}\U{0435}\U{0446}\U{0435}\U{043D}\U{0437}\U{0438}\U{0439} \U{1F642}"

  // The truthy genre names, in order.
  function GenreNames(gs: seq<GenreItem>): seq<string>
  {
    if gs == [] then []
    else GenreNames(gs[..|gs| - 1]) + (if gs[|gs| - 1].name != [] then [gs[|gs| - 1].name] else [])
  }

  function CountryNames(cs: seq<CountryItem>): seq<string>
  {
    if cs == [] then []
    else CountryNames(cs[..|cs| - 1]) + (if cs[|cs| - 1].name != [] then [cs[|cs| - 1].name] else [])
  }

  function DecadeLabels(ds: seq<DecadeItem>): (r: seq<string>)
    ensures |r| == |ds| && forall i :: 0 <= i < |ds| ==> r[i] == FormatDecade(ds[i].decade)
  {
    seq(|ds|, i requires 0 <= i < |ds| => FormatDecade(ds[i].decade))
  }

  // A summary line: the heading and the first n names, when there are any.
  function Section(heading: string, names: seq<string>, n: nat): (ps: seq<string>)
    ensures |ps| == if names == [] then 0 else 1
  {
    if names == [] then [] else [heading + Join(Take(names, n), ", ")]
  }

  // The lines of the summary, in order, each only when it has something to show.
  function SummaryParts(w: Weights): (ps: seq<string>)
    ensures |ps| == (if GenreNames(w.likedGenres) != [] then 1 else 0) + (if w.likedDecades != [] then 1 else 0)
                    + (if CountryNames(w.likedCountries) != [] then 1 else 0) + (if GenreNames(w.dislikedGenres) != [] then 1 else 0)
  {
    Section(LikedGenresLabel, GenreNames(w.likedGenres), 5)
    + Section(LikedDecadesLabel, DecadeLabels(w.likedDecades), 4)
    + Section(LikedCountriesLabel, CountryNames(w.likedCountries), 4)
    + Section(DislikedGenresLabel, GenreNames(w.dislikedGenres), 5)
  }

  function SummaryOf(w: Weights): string
  {
    var ps := SummaryParts(w);
    if ps == [] then LittleDataMessage else Join(ps, "\n")
  }

  // `_build_summary`.
  method BuildSummary(w: Weights) returns (summary: string)
    ensures summary == SummaryOf(w)
  {
    var likedGenres := GenreNames(w.likedGenres);
    var likedDecades := DecadeLabels(w.likedDecades);
    var likedCountries := CountryNames(w.likedCountries);
    var dislikedGenres := GenreNames(w.dislikedGenres);
    var parts: seq<string> := [];
    if likedGenres != [] {
      parts := parts + [LikedGenresLabel + Join(Take(likedGenres, 5), ", ")];
    }
    assert parts == Section(LikedGenresLabel, likedGenres, 5);
    if likedDecades != [] {
      parts := parts + [LikedDecadesLabel + Join(Take(likedDecades, 4), ", ")];
    }
    assert parts == Section(LikedGenresLabel, likedGenres, 5) + Section(LikedDecadesLabel, likedDecades, 4);
    if likedCountries != [] {
      parts := parts + [LikedCountriesLabel + Join(Take(likedCountries, 4), ", ")];
    }
    if dislikedGenres != [] {
      parts := parts + [DislikedGenresLabel + Join(Take(dislikedGenres, 5), ", ")];
    }
    assert parts == SummaryParts(w);
    if parts == [] {
      summary := LittleDataMessage;
    } else {
      summary := Join(parts, "\n");
    }
  }

  // Every summary line starts with a heading that differs from the little-data
  // message in its first character.
  lemma SummaryPartsStart(w: Weights)
    ensures var ps := SummaryParts(w); ps != [] ==> ps[0] != [] && ps[0][0] != LittleDataMessage[0]
  {
    var lg := GenreNames(w.likedGenres);
    var lc := CountryNames(w.likedCountries);
    var dg := GenreNames(w.dislikedGenres);
    assert LittleDataMessage[0] == '\U{041F}';
    if lg != [] {
      SectionStart(LikedGenresLabel, lg, 5);
      assert LikedGenresLabel[0] == '\U{0422}';
    } else if w.likedDecades != [] {
      SectionStart(LikedDecadesLabel, DecadeLabels(w.likedDecades), 4);
      assert LikedDecadesLabel[0] == '\U{041B}';
    } else if lc != [] {
      SectionStart(LikedCountriesLabel, lc, 4);
      assert LikedCountriesLabel[0] == '\U{0427}';
    } else if dg != [] {
      SectionStart(DislikedGenresLabel, dg, 5);
      assert DislikedGenresLabel[0] == '\U{0427}';
    }
  }

  lemma SectionStart(heading: string, names: seq<string>, n: nat)
    requires heading != [] && names != []
    ensures Section(heading, names, n)[0] != [] && Section(heading, names, n)[0][0] == heading[0]
  {
  }

  // The little-data message comes back exactly when there is nothing to show.
  lemma SummaryLittleData(w: Weights)
    ensures SummaryOf(w) == LittleDataMessage <==>
      GenreNames(w.likedGenres) == [] && w.likedDecades == [] && CountryNames(w.likedCountries) == [] && GenreNames(w.dislikedGenres) == []
  {
    var ps := SummaryParts(w);
    if ps != [] {
      SummaryPartsStart(w);
      JoinStartsWithFirst(ps, "\n");
      assert Join(ps, "\n")[0] == ps[0][0];
    }
  }

  // Each of the first n names is shown on its section's line.
  lemma SectionShowsName(heading: string, names: seq<string>, n: nat, k: nat)
    requires k < n && k < |names|
    ensures Contains(Section(heading, names, n)[0], names[k])
  {
    var shown := Take(names, n);
    assert shown[k] == names[k];
    JoinContainsPart(shown, ", ", k);
    ContainsGrows(heading, Join(shown, ", "), "", names[k]);
    assert heading + Join(shown, ", ") + "" == heading + Join(shown, ", ");
  }

  // Each of the first five liked genre names is shown.
  lemma SummaryShowsLikedGenre(w: Weights, k: nat)
    requires k < 5 && k < |GenreNames(w.likedGenres)|
    ensures Contains(SummaryOf(w), GenreNames(w.likedGenres)[k])
  {
    var lg := GenreNames(w.likedGenres);
    var ps := SummaryParts(w);
    SectionShowsName(LikedGenresLabel, lg, 5, k);
    assert ps[0] == Section(LikedGenresLabel, lg, 5)[0];
    JoinContainsPart(ps, "\n", 0);
    ContainsTrans(Join(ps, "\n"), ps[0], lg[k]);
  }

  // Each of the first five disliked genre names is shown, on the last line.
  lemma SummaryShowsDislikedGenre(w: Weights, k: nat)
    requires k < 5 && k < |GenreNames(w.dislikedGenres)|
    ensures Contains(SummaryOf(w), GenreNames(w.dislikedGenres)[k])
  {
    var dg := GenreNames(w.dislikedGenres);
    var ps := SummaryParts(w);
    var i := |ps| - 1;
    SectionShowsName(DislikedGenresLabel, dg, 5, k);
    assert ps[i] == Section(DislikedGenresLabel, dg, 5)[0];
    JoinContainsPart(ps, "\n", i);
    ContainsTrans(Join(ps, "\n"), ps[i], dg[k]);
  }

  // --- update_taste_profile_v0 -------------------------------------------------------

  // The weights and summary a recompute writes, from the rated-films rows and
  // the payloads that could be fetched.
  function ProfileOf(rows: seq<RatedRow>, payloads: map<int, map<string, Json>>, like: real, dislike: real, computedAt: string): (Weights, string)
  {
    var rated := RatedOf(rows);
    var liked := LikedOf(rated, like);
    var disliked := DislikedOf(rated, dislike);
    var w := WeightsOf(computedAt, like, dislike, rated, liked, disliked, StatsOf(payloads, liked, disliked));
    (w, SummaryOf(w))
  }

  // The recompute up to the upsert, which is `Profiles.ProfileStore.Upsert`
  // with the avoids reset to `{}`.
  method ComputeProfile(rows: seq<RatedRow>, payloads: map<int, map<string, Json>>, like: real, dislike: real, computedAt: string)
    returns (w: Weights, summary: string)
    ensures (w, summary) == ProfileOf(rows, payloads, like, dislike, computedAt)
    ensures w.ratedUsed <= |rows| && w.likedCount <= w.ratedUsed && w.dislikedCount <= w.ratedUsed
  {
    var rated := CollectRated(rows);
    var liked := LikedOf(rated, like);
    var disliked := DislikedOf(rated, dislike);
    var st := CountStats(payloads, liked, disliked);
    w := WeightsOf(computedAt, like, dislike, rated, liked, disliked, st);
    summary := BuildSummary(w);
  }

  // The weights as the JSON document stored with the profile.
  function WeightsJson(w: Weights): (j: Json)
    ensures j.JObj? && Get(j.fields, "version") == JStr(Version)
  {
    JObj(map[
      "version" := JStr(Version),
      "computed_at" := JStr(w.computedAt),
      "thresholds" := JObj(map["like" := JReal(w.likeThreshold), "dislike" := JReal(w.dislikeThreshold)]),
      "source" := JObj(map["rated_films_used" := JInt(w.ratedUsed), "liked" := JInt(w.likedCount), "disliked" := JInt(w.dislikedCount)]),
      "likes" := JObj(map[
        "genres" := JList(GenreItemsJson(w.likedGenres)),
        "decades" := JList(DecadeItemsJson(w.likedDecades)),
        "countries" := JList(CountryItemsJson(w.likedCountries))]),
      "dislikes" := JObj(map["genres" := JList(GenreItemsJson(w.dislikedGenres))])])
  }

  function GenreItemsJson(gs: seq<GenreItem>): (r: seq<Json>)
    ensures |r| == |gs|
  {
    seq(|gs|, i requires 0 <= i < |gs| =>
      JObj(map["id" := JInt(gs[i].id), "name" := JStr(gs[i].name), "count" := JInt(gs[i].count), "score" := JReal(gs[i].score)]))
  }

  function DecadeItemsJson(ds: seq<DecadeItem>): (r: seq<Json>)
    ensures |r| == |ds|
  {
    seq(|ds|, i requires 0 <= i < |ds| =>
      JObj(map["decade" := JInt(ds[i].decade), "count" := JInt(ds[i].count), "score" := JReal(ds[i].score)]))
  }

  function CountryItemsJson(cs: seq<CountryItem>): (r: seq<Json>)
    ensures |r| == |cs|
  {
    seq(|cs|, i requires 0 <= i < |cs| =>
      JObj(map["code" := JStr(cs[i].code), "name" := JStr(cs[i].name), "count" := JInt(cs[i].count), "score" := JReal(cs[i].score)]))
  }
}
