// The pure parts of the TMDB client: coercions, the mapping from JSON payloads
// to candidate and details records, and the cache expiry rule.
module Tmdb {
  import opened Wrappers
  import opened Text
  import opened Json

  const CacheTtlDays: int := 30
  const SecondsPerDay: real := 86400.0

  datatype MovieCandidate = MovieCandidate(
    tmdbId: int,
    title: string,
    year: Option<int>,
    popularity: Option<real>,
    voteAverage: Option<real>,
    genreIds: Option<seq<int>>,
    originalLanguage: Option<string>)

  datatype MovieDetails = MovieDetails(
    tmdbId: int,
    title: string,
    year: Option<int>,
    runtime: Option<int>,
    genres: seq<string>,
    overview: Option<string>)

  // `_safe_int`: None for None and for what `int()` rejects.
  function SafeInt(v: Json): (r: Option<int>)
    ensures v == JNull || v.JList? || v.JObj? ==> r == None
    ensures v.JInt? ==> r == Some(v.i)
    ensures v.JStr? ==> r == ParseIntLiteral(v.s)
  {
    if v == JNull then None else ToInt(v)
  }

  lemma SafeIntOfDecimal(n: nat)
    ensures SafeInt(JStr(NatToString(n))) == Some(n)
  {
    ParseIntOfNat(n);
  }

  // `_extract_year`: the value of a four-digit prefix of "YYYY-MM-DD".
  function ExtractYear(releaseDate: Option<string>): (r: Option<int>)
    ensures r.Some? <==> releaseDate.Some? && |releaseDate.value| >= 4 && AllDigits(releaseDate.value[..4])
    ensures r.Some? ==> 0 <= r.value <= 9999 && r.value == DigitsValue(releaseDate.value[..4])
  {
    match releaseDate
    case None => None
    case Some(s) =>
      if |s| >= 4 && AllDigits(s[..4]) then
        FourDigitsBound(s[..4]);
        Some(DigitsValue(s[..4]))
      else None
  }

  // The year written as the first four characters of a date is read back.
  lemma ExtractYearOfDate(y: nat, rest: string)
    requires 1000 <= y <= 9999
    ensures ExtractYear(Some(NatToString(y) + rest)) == Some(y)
  {
    FourDigitYear(y);
    var s := NatToString(y) + rest;
    assert s[..4] == NatToString(y);
    DigitsOfNatToString(y);
  }

  // A JSON string field as the type hints expect it; anything else reads as missing.
  function StrField(v: Json): Option<string>
  {
    if v.JStr? then Some(v.s) else None
  }

  // The JSON for `r.get("title") or r.get("original_title")`.
  function TitleField(m: map<string, Json>): Json
  {
    Or(Get(m, "title"), Get(m, "original_title"))
  }

  // `float(x) if x is not None else None`; Err stands for the exception it raises.
  function OptionalReal(v: Json): (r: Result<Option<real>, string>)
    ensures v == JNull ==> r == Ok(None)
    ensures v.JInt? ==> r == Ok(Some(v.i as real))
    ensures v.JReal? ==> r == Ok(Some(v.r))
  {
    if v == JNull then Ok(None)
    else match ToReal(v)
      case Some(x) => Ok(Some(x))
      case None => Err("could not convert to float")
  }

  // The entries `int()` accepts, in order; the others are dropped.
  function IntsOf(items: seq<Json>): (r: seq<int>)
    ensures |r| <= |items|
  {
    if items == [] then []
    else
      IntsOf(items[..|items| - 1])
      + (match ToInt(items[|items| - 1]) case Some(i) => [i] case None => [])
  }

  lemma {:induction false} IntsOfAppend(a: seq<Json>, b: seq<Json>)
    ensures IntsOf(a + b) == IntsOf(a) + IntsOf(b)
  {
    if b != [] {
      assert (a + b)[..|a + b| - 1] == a + b[..|b| - 1];
      IntsOfAppend(a, b[..|b| - 1]);
    } else {
      assert a + b == a;
    }
  }

  // A list of ints is kept whole.
  lemma {:induction false} IntsOfInts(items: seq<Json>)
    requires forall k :: 0 <= k < |items| ==> items[k].JInt?
    ensures IntsOf(items) == seq(|items|, k requires 0 <= k < |items| => items[k].i)
  {
    if items != [] {
      IntsOfInts(items[..|items| - 1]);
    }
  }

  // The inner `genre_ids` loop.
  method ExtractIntList(items: seq<Json>) returns (ids: seq<int>)
    ensures ids == IntsOf(items)
  {
    ids := [];
    var k := 0;
    while k < |items|
      invariant 0 <= k <= |items|
      invariant ids == IntsOf(items[..k])
    {
      assert items[..k + 1][..k] == items[..k];
      match ToInt(items[k]) {
        case Some(i) => ids := ids + [i];
        case None =>
      }
      k := k + 1;
    }
    assert items[..k] == items;
  }

  function GenreIdsOf(raw: Json): (r: Option<seq<int>>)
    ensures r.Some? <==> raw.JList?
  {
    if raw.JList? then Some(IntsOf(raw.items)) else None
  }

  datatype EntryOutcome = Skipped | Kept(c: MovieCandidate) | Raised

  // What one entry of `results` contributes.
  function EntryOf(e: Json): (o: EntryOutcome)
    ensures !e.JObj? ==> o.Skipped?
    ensures o.Kept? ==>
      && e.JObj?
      && o.c.tmdbId != 0 && SafeInt(Get(e.fields, "id")) == Some(o.c.tmdbId)
      && o.c.title != [] && o.c.title == ToStr(TitleField(e.fields))
      && o.c.year == ExtractYear(StrField(Get(e.fields, "release_date")))
      && o.c.genreIds == GenreIdsOf(Get(e.fields, "genre_ids"))
  {
    match e
    case JObj(m) =>
      var id := SafeInt(Get(m, "id"));
      var title := TitleField(m);
      if id == None || id == Some(0) || !Truthy(title) then Skipped
      else
        var pop := OptionalReal(Get(m, "popularity"));
        var vote := OptionalReal(Get(m, "vote_average"));
        var lang := Get(m, "original_language");
        if pop.Err? || vote.Err? then Raised
        else Kept(MovieCandidate(
          id.value, ToStr(title), ExtractYear(StrField(Get(m, "release_date"))),
          pop.value, vote.value, GenreIdsOf(Get(m, "genre_ids")),
          if Truthy(lang) then Some(ToStr(lang)) else None))
    case _ => Skipped
  }

  // `_parse_candidate_list` over a list of entries; None is the exception a
  // failed `float()` raises out of it.
  function ParseEntries(items: seq<Json>): Option<seq<MovieCandidate>>
  {
    if items == [] then Some([])
    else match ParseEntries(items[..|items| - 1])
      case None => None
      case Some(cs) =>
        match EntryOf(items[|items| - 1])
        case Skipped => Some(cs)
        case Kept(c) => Some(cs + [c])
        case Raised => None
  }

  function ParseCandidates(results: Json): Option<seq<MovieCandidate>>
  {
    if results.JList? then ParseEntries(results.items) else Some([])
  }

  method ParseCandidateList(results: Json) returns (r: Option<seq<MovieCandidate>>)
    ensures r == ParseCandidates(results)
  {
    if !results.JList? {
      return Some([]);
    }
    var items := results.items;
    var cs: seq<MovieCandidate> := [];
    var k := 0;
    while k < |items|
      invariant 0 <= k <= |items|
      invariant ParseEntries(items[..k]) == Some(cs)
    {
      assert items[..k + 1][..k] == items[..k];
      var o := EntryStep(items[k]);
      match o {
        case Skipped =>
        case Kept(c) => cs := cs + [c];
        case Raised =>
          assert ParseEntries(items[..k + 1]) == None;
          assert items == items[..k + 1] + items[k + 1..];
          ParseEntriesRaisedStays(items[..k + 1], items[k + 1..]);
          return None;
      }
      k := k + 1;
    }
    assert items[..k] == items;
    r := Some(cs);
  }

  // One round of the loop over `results`.
  method EntryStep(e: Json) returns (o: EntryOutcome)
    ensures o == EntryOf(e)
  {
    if !e.JObj? {
      return Skipped;
    }
    var m := e.fields;
    var id := SafeInt(Get(m, "id"));
    var title := TitleField(m);
    if id == None || id == Some(0) || !Truthy(title) {
      return Skipped;
    }
    var genreIds: Option<seq<int>> := None;
    var raw := Get(m, "genre_ids");
    if raw.JList? {
      var ids := ExtractIntList(raw.items);
      genreIds := Some(ids);
    }
    var pop := OptionalReal(Get(m, "popularity"));
    var vote := OptionalReal(Get(m, "vote_average"));
    if pop.Err? || vote.Err? {
      return Raised;
    }
    var lang := Get(m, "original_language");
    o := Kept(MovieCandidate(
      id.value, ToStr(title), ExtractYear(StrField(Get(m, "release_date"))),
      pop.value, vote.value, genreIds,
      if Truthy(lang) then Some(ToStr(lang)) else None));
  }

  // Once an entry has raised, later entries do not matter.
  lemma {:induction false} ParseEntriesRaisedStays(a: seq<Json>, b: seq<Json>)
    requires ParseEntries(a) == None
    ensures ParseEntries(a + b) == None
  {
    if b != [] {
      assert (a + b)[..|a + b| - 1] == a + b[..|b| - 1];
      ParseEntriesRaisedStays(a, b[..|b| - 1]);
    } else {
      assert a + b == a;
    }
  }

  // Input order is kept: the candidates of a concatenation are the
  // concatenation of the candidates.
  lemma {:induction false} ParseEntriesAppend(a: seq<Json>, b: seq<Json>)
    requires ParseEntries(a).Some? && ParseEntries(b).Some?
    ensures ParseEntries(a + b) == Some(ParseEntries(a).value + ParseEntries(b).value)
  {
    if b == [] {
      assert a + b == a;
      assert ParseEntries(a).value + [] == ParseEntries(a).value;
    } else {
      var b' := b[..|b| - 1];
      assert (a + b)[..|a + b| - 1] == a + b';
      var last := b[|b| - 1];
      assert (a + b)[|a + b| - 1] == last;
      assert ParseEntries(b').Some?;
      ParseEntriesAppend(a, b');
      var A, B' := ParseEntries(a).value, ParseEntries(b').value;
      match EntryOf(last) {
        case Skipped =>
        case Kept(c) =>
          assert ParseEntries(b).value == B' + [c];
          assert (A + B') + [c] == A + (B' + [c]);
        case Raised =>
      }
    }
  }

  lemma ParseCandidatesNonList(results: Json)
    requires !results.JList?
    ensures ParseCandidates(results) == Some([])
  {
  }

  // Every kept candidate has a non-zero id and a non-empty title.
  lemma {:induction false} ParsedCandidatesWellFormed(items: seq<Json>)
    requires ParseEntries(items).Some?
    ensures forall c :: c in ParseEntries(items).value ==> c.tmdbId != 0 && c.title != []
  {
    if items != [] {
      ParsedCandidatesWellFormed(items[..|items| - 1]);
    }
  }

  // The names of the dict entries with a truthy "name", as `str`, in order.
  function NamesOf(items: seq<Json>): (r: seq<string>)
    ensures |r| <= |items|
    ensures forall n :: n in r ==> n != []
  {
    if items == [] then []
    else
      var e := items[|items| - 1];
      NamesOf(items[..|items| - 1])
      + (if e.JObj? && Truthy(Get(e.fields, "name")) then [ToStr(Get(e.fields, "name"))] else [])
  }

  lemma {:induction false} NamesOfAppend(a: seq<Json>, b: seq<Json>)
    ensures NamesOf(a + b) == NamesOf(a) + NamesOf(b)
  {
    if b != [] {
      assert (a + b)[..|a + b| - 1] == a + b[..|b| - 1];
      NamesOfAppend(a, b[..|b| - 1]);
    } else {
      assert a + b == a;
    }
  }

  // The genres and keywords loops: non-lists give no names.
  method CollectNames(raw: Json) returns (names: seq<string>)
    ensures names == (if raw.JList? then NamesOf(raw.items) else [])
  {
    names := [];
    if !raw.JList? {
      return;
    }
    var items := raw.items;
    var k := 0;
    while k < |items|
      invariant 0 <= k <= |items|
      invariant names == NamesOf(items[..k])
    {
      assert items[..k + 1][..k] == items[..k];
      var e := items[k];
      if e.JObj? && Truthy(Get(e.fields, "name")) {
        names := names + [ToStr(Get(e.fields, "name"))];
      }
      k := k + 1;
    }
    assert items[..k] == items;
  }

  // The record `get_movie_details` builds from a payload.
  method DetailsFromPayload(tmdbId: int, data: map<string, Json>) returns (d: MovieDetails)
    ensures d.tmdbId == tmdbId
    ensures Truthy(Get(data, "title")) ==> d.title == ToStr(Get(data, "title"))
    ensures !Truthy(Get(data, "title")) && Truthy(Get(data, "original_title"))
      ==> d.title == ToStr(Get(data, "original_title"))
    ensures !Truthy(Get(data, "title")) && !Truthy(Get(data, "original_title")) ==> d.title == ""
    ensures d.year == ExtractYear(StrField(Get(data, "release_date")))
    ensures d.runtime == SafeInt(Get(data, "runtime"))
    ensures var g := GetOr(data, "genres", JList([])); d.genres == (if g.JList? then NamesOf(g.items) else [])
    ensures d.overview == (if Get(data, "overview") == JNull then None else Some(ToStr(Get(data, "overview"))))
  {
    var title := Or(Or(Get(data, "title"), Get(data, "original_title")), JStr(""));
    var genres := CollectNames(GetOr(data, "genres", JList([])));
    var overview := Get(data, "overview");
    d := MovieDetails(
      tmdbId, ToStr(title), ExtractYear(StrField(Get(data, "release_date"))),
      SafeInt(Get(data, "runtime")), genres,
      if overview != JNull then Some(ToStr(overview)) else None);
  }

  // `get_movie_keywords` over a payload.
  method KeywordsFromPayload(data: map<string, Json>) returns (keywords: seq<string>)
    ensures var k := GetOr(data, "keywords", JList([])); keywords == (if k.JList? then NamesOf(k.items) else [])
    ensures forall n :: n in keywords ==> n != []
  {
    keywords := CollectNames(GetOr(data, "keywords", JList([])));
  }

  // One row of a TMDB cache table.
  datatype CacheRow = CacheRow(payload: map<string, Json>, fetchedAt: real, expiresAt: real)

  // `_get_cached`: the stored payload while it has not expired.
  function GetCached(table: map<int, CacheRow>, tmdbId: int, now: real): (r: Option<map<string, Json>>)
    ensures r.Some? <==> tmdbId in table && table[tmdbId].expiresAt > now
    ensures r.Some? ==> r.value == table[tmdbId].payload
  {
    if tmdbId !in table then None
    else if table[tmdbId].expiresAt <= now then None
    else Some(table[tmdbId].payload)
  }

  // `_upsert_cache`: insert or overwrite the row, valid for the TTL.
  function UpsertCache(table: map<int, CacheRow>, tmdbId: int, payload: map<string, Json>, now: real): (t: map<int, CacheRow>)
    ensures tmdbId in t && t[tmdbId].payload == payload
    ensures forall id :: id != tmdbId ==> (id in t <==> id in table) && (id in table ==> t[id] == table[id])
  {
    table[tmdbId := CacheRow(payload, now, now + CacheTtlDays as real * SecondsPerDay)]
  }

  // A freshly cached payload is served until the TTL has passed, and other
  // entries are served as before.
  lemma CacheServedUntilTtl(table: map<int, CacheRow>, tmdbId: int, payload: map<string, Json>, now: real, later: real)
    ensures GetCached(UpsertCache(table, tmdbId, payload, now), tmdbId, later)
         == (if later < now + 30.0 * 86400.0 then Some(payload) else None)
    ensures forall id :: id != tmdbId ==>
      GetCached(UpsertCache(table, tmdbId, payload, now), id, later) == GetCached(table, id, later)
  {
  }

  // `get_trending_movies` accepts only "day" and "week".
  function TrendingWindow(w: string): (r: string)
    ensures r == "day" || r == "week"
    ensures w == "day" || w == "week" ==> r == w
    ensures w != "day" && w != "week" ==> r == "day"
  {
    if w != "day" && w != "week" then "day" else w
  }
}
