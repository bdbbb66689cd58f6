// The small helpers of the embedding tier in app/recommender/v1.py: clamping,
// decades, genre ids and the soft-avoid text of a TMDB details payload, the
// repetition penalty, strategy labels and the de-duplication of the candidate
// pool. A details payload is the JSON dict TMDB returns.
module V1Helpers {
  import opened Wrappers
  import opened Text
  import opened Json
  import opened Sorting
  import Tmdb

  type Payload = map<string, Json>

  // `_clamp(x, lo, hi)`: `max(lo, min(hi, x))`.
  function Clamp(x: real, lo: real, hi: real): (r: real)
    ensures r >= lo
    ensures lo <= hi ==> r <= hi
    ensures lo <= x <= hi ==> r == x
    ensures lo <= hi && x < lo ==> r == lo
    ensures lo <= hi && hi < x ==> r == hi
  {
    var m := if x < hi then x else hi;
    if lo >= m then lo else m
  }

  // `_decade_from_release_date`: the decade of a string whose first four
  // characters are digits; None for anything else.
  function DecadeFromReleaseDate(rd: Json): (r: Option<int>)
    ensures r.Some? <==> rd.JStr? && |rd.s| >= 4 && AllDigits(rd.s[..4])
    ensures r.Some? ==> r.value % 10 == 0 && 0 <= r.value <= 9990
  {
    if !Truthy(rd) || !rd.JStr? || |rd.s| < 4 then None
    else if !AllDigits(rd.s[..4]) then None
    else
      var y := DigitsValue(rd.s[..4]);
      FourDigitsBound(rd.s[..4]);
      Some((y / 10) * 10)
  }

  // The decade is the year that the TMDB client reads from the same date,
  // rounded down to a multiple of ten.
  lemma DecadeOfYear(s: string)
    ensures var d, y := DecadeFromReleaseDate(JStr(s)), Tmdb.ExtractYear(Some(s));
      (d.Some? <==> y.Some?) && (d.Some? ==> d.value <= y.value < d.value + 10)
  {
    if |s| >= 4 && AllDigits(s[..4]) {
      var y := DigitsValue(s[..4]);
      assert (y / 10) * 10 <= y < (y / 10) * 10 + 10;
    }
  }

  // --- Genre ids ---------------------------------------------------------------

  // The id one `genres` entry contributes: a dict whose "id" is an int (a bool
  // counts, as it does for Python's isinstance).
  function GenreIdOf(g: Json): (r: Option<int>)
    ensures r.Some? ==> g.JObj? && (Get(g.fields, "id").JInt? || Get(g.fields, "id").JBool?)
    ensures g.JObj? && Get(g.fields, "id").JInt? ==> r == Some(Get(g.fields, "id").i)
  {
    if !g.JObj? then None
    else match Get(g.fields, "id")
      case JInt(i) => Some(i)
      case JBool(b) => Some(if b then 1 else 0)
      case _ => None
  }

  function GenreIdsIn(gs: seq<Json>): (r: seq<int>)
    ensures |r| <= |gs|
  {
    if gs == [] then []
    else GenreIdsIn(gs[..|gs| - 1]) + OptionToSeq(GenreIdOf(gs[|gs| - 1]))
  }

  function OptionToSeq(o: Option<int>): (r: seq<int>)
    ensures (o.Some? ==> r == [o.value]) && (o.None? ==> r == [])
  {
    if o.Some? then [o.value] else []
  }

  // `payload.get(key, [])` when it is a list, else no entries.
  function ListField(payload: Payload, key: string): seq<Json>
  {
    var v := GetOr(payload, key, JList([]));
    if v.JList? then v.items else []
  }

  function GenreIdsOfPayload(payload: Payload): seq<int>
  {
    GenreIdsIn(ListField(payload, "genres"))
  }

  // `_extract_genre_ids(payload)`.
  method ExtractGenreIds(payload: Payload) returns (out: seq<int>)
    ensures out == GenreIdsOfPayload(payload)
  {
    out := [];
    var genres := GetOr(payload, "genres", JList([]));
    if !genres.JList? {
      return;
    }
    var gs := genres.items;
    for i := 0 to |gs|
      invariant out == GenreIdsIn(gs[..i])
    {
      assert gs[..i + 1][..i] == gs[..i];
      var id := GenreIdOf(gs[i]);
      if id.Some? {
        out := out + [id.value];
      }
    }
    assert gs[..|gs|] == gs;
  }

  lemma {:induction false} GenreIdsInAppend(a: seq<Json>, b: seq<Json>)
    ensures GenreIdsIn(a + b) == GenreIdsIn(a) + GenreIdsIn(b)
  {
    if b == [] {
      assert a + b == a;
    } else {
      assert (a + b)[..|a + b| - 1] == a + b[..|b| - 1];
      GenreIdsInAppend(a, b[..|b| - 1]);
    }
  }

  // An id is kept exactly when some entry contributes it.
  lemma {:induction false} GenreIdsInMembers(gs: seq<Json>, id: int)
    ensures id in GenreIdsIn(gs) <==> exists j :: 0 <= j < |gs| && GenreIdOf(gs[j]) == Some(id)
  {
    if gs != [] {
      var init := gs[..|gs| - 1];
      GenreIdsInMembers(init, id);
      if exists j :: 0 <= j < |init| && GenreIdOf(init[j]) == Some(id) {
        var j :| 0 <= j < |init| && GenreIdOf(init[j]) == Some(id);
        assert gs[j] == init[j];
      }
      if exists j :: 0 <= j < |gs| && GenreIdOf(gs[j]) == Some(id) {
        var j :| 0 <= j < |gs| && GenreIdOf(gs[j]) == Some(id);
        if j < |init| {
          assert init[j] == gs[j];
        }
      }
    }
  }

  // A list of `{"id": n}` dicts gives back exactly its ids, in order.
  lemma {:induction false} GenreIdsOfDicts(ids: seq<int>)
    ensures GenreIdsIn(seq(|ids|, i requires 0 <= i < |ids| => JObj(map["id" := JInt(ids[i])]))) == ids
  {
    var gs := seq(|ids|, i requires 0 <= i < |ids| => JObj(map["id" := JInt(ids[i])]));
    if ids != [] {
      var init := ids[..|ids| - 1];
      GenreIdsOfDicts(init);
      assert gs[..|gs| - 1] == seq(|init|, i requires 0 <= i < |init| => JObj(map["id" := JInt(init[i])]));
      assert Get(gs[|gs| - 1].fields, "id") == JInt(ids[|ids| - 1]);
      assert init + [ids[|ids| - 1]] == ids;
    }
  }

  // --- The soft-avoid text -------------------------------------------------------

  // `payload.get("title") or payload.get("original_title") or ""`.
  function TitleValue(payload: Payload): Json
  {
    Or(Or(Get(payload, "title"), Get(payload, "original_title")), JStr(""))
  }

  // A part that is a non-empty string.
  function TextPart(v: Json): (r: seq<string>)
    ensures r == [] || (v.JStr? && r == [v.s] && v.s != [])
  {
    if v.JStr? && v.s != [] then [v.s] else []
  }

  // The names `_build_text_for_soft_avoid` collects from `genres`: dict entries
  // whose "name" is a string.
  function GenreNameOf(g: Json): (r: seq<string>)
    ensures |r| <= 1
  {
    if g.JObj? && Get(g.fields, "name").JStr? then [Get(g.fields, "name").s] else []
  }

  function GenreNamesIn(gs: seq<Json>): (r: seq<string>)
    ensures |r| <= |gs|
  {
    if gs == [] then [] else GenreNamesIn(gs[..|gs| - 1]) + GenreNameOf(gs[|gs| - 1])
  }

  // Keywords are strings or dicts whose "name" is a string.
  function KeywordNameOf(k: Json): (r: seq<string>)
    ensures |r| <= 1
  {
    if k.JStr? then [k.s]
    else if k.JObj? && Get(k.fields, "name").JStr? then [Get(k.fields, "name").s]
    else []
  }

  function KeywordNamesIn(ks: seq<Json>): (r: seq<string>)
    ensures |r| <= |ks|
  {
    if ks == [] then [] else KeywordNamesIn(ks[..|ks| - 1]) + KeywordNameOf(ks[|ks| - 1])
  }

  const GenresPrefix := "genres: "
  const KeywordsPrefix := "keywords: "
  const MaxSoftAvoidKeywords: nat := 25

  function GenresPart(payload: Payload): seq<string>
  {
    var names := GenreNamesIn(ListField(payload, "genres"));
    if names == [] then [] else [GenresPrefix + Join(names, ", ")]
  }

  function KeywordsPart(payload: Payload): seq<string>
  {
    var names := KeywordNamesIn(ListField(payload, "keywords"));
    if names == [] then [] else [KeywordsPrefix + Join(Take(names, MaxSoftAvoidKeywords), ", ")]
  }

  // The parts, in order: title, overview, genre names, the first 25 keywords.
  function SoftAvoidParts(payload: Payload): (parts: seq<string>)
    ensures |parts| <= 4
  {
    TextPart(TitleValue(payload)) + TextPart(Or(Get(payload, "overview"), JStr("")))
    + GenresPart(payload) + KeywordsPart(payload)
  }

  function SoftAvoidText(payload: Payload): string
  {
    Join(SoftAvoidParts(payload), "\n")
  }

  method CollectGenreNames(gs: seq<Json>) returns (names: seq<string>)
    ensures names == GenreNamesIn(gs)
  {
    names := [];
    for i := 0 to |gs|
      invariant names == GenreNamesIn(gs[..i])
    {
      assert gs[..i + 1][..i] == gs[..i];
      var g := gs[i];
      if g.JObj? && Get(g.fields, "name").JStr? {
        names := names + [Get(g.fields, "name").s];
      }
    }
    assert gs[..|gs|] == gs;
  }

  method CollectKeywordNames(ks: seq<Json>) returns (names: seq<string>)
    ensures names == KeywordNamesIn(ks)
  {
    names := [];
    for i := 0 to |ks|
      invariant names == KeywordNamesIn(ks[..i])
    {
      assert ks[..i + 1][..i] == ks[..i];
      var k := ks[i];
      if k.JStr? {
        names := names + [k.s];
      } else if k.JObj? && Get(k.fields, "name").JStr? {
        names := names + [Get(k.fields, "name").s];
      }
    }
    assert ks[..|ks|] == ks;
  }

  // `_build_text_for_soft_avoid(payload)`: the parts appended one by one and
  // joined with newlines.
  method BuildTextForSoftAvoid(payload: Payload) returns (text: string)
    ensures text == SoftAvoidText(payload)
  {
    var parts: seq<string> := [];
    var title := TitleValue(payload);
    var overview := Or(Get(payload, "overview"), JStr(""));
    if title.JStr? && title.s != [] {
      parts := parts + [title.s];
    }
    if overview.JStr? && overview.s != [] {
      parts := parts + [overview.s];
    }
    assert parts == TextPart(title) + TextPart(overview);
    var genresLine := GenresLine(payload);
    var keywordsLine := KeywordsLine(payload);
    parts := parts + genresLine + keywordsLine;
    text := Join(parts, "\n");
  }

  // The "genres: ..." part, when some genre has a string name.
  method GenresLine(payload: Payload) returns (line: seq<string>)
    ensures line == GenresPart(payload)
  {
    line := [];
    var genres := GetOr(payload, "genres", JList([]));
    if genres.JList? {
      var gnames := CollectGenreNames(genres.items);
      if gnames != [] {
        line := [GenresPrefix + Join(gnames, ", ")];
      }
    }
  }

  // The "keywords: ..." part with at most 25 names.
  method KeywordsLine(payload: Payload) returns (line: seq<string>)
    ensures line == KeywordsPart(payload)
  {
    line := [];
    var keywords := GetOr(payload, "keywords", JList([]));
    if keywords.JList? {
      var knames := CollectKeywordNames(keywords.items);
      if knames != [] {
        line := [KeywordsPrefix + Join(Take(knames, MaxSoftAvoidKeywords), ", ")];
      }
    }
  }

  // A non-empty string title is the first line of the text.
  lemma SoftAvoidTextStartsWithTitle(payload: Payload)
    requires TitleValue(payload).JStr? && TitleValue(payload).s != []
    ensures SoftAvoidParts(payload)[0] == TitleValue(payload).s
    ensures Contains(SoftAvoidText(payload), TitleValue(payload).s)
  {
    JoinContainsPart(SoftAvoidParts(payload), "\n", 0);
  }

  // Each of the first 25 keyword names occurs in the text.
  lemma SoftAvoidTextHasKeyword(payload: Payload, j: nat)
    requires j < |Take(KeywordNamesIn(ListField(payload, "keywords")), MaxSoftAvoidKeywords)|
    ensures Contains(SoftAvoidText(payload), KeywordNamesIn(ListField(payload, "keywords"))[j])
  {
    var names := KeywordNamesIn(ListField(payload, "keywords"));
    var first := Take(names, MaxSoftAvoidKeywords);
    var line := KeywordsPrefix + Join(first, ", ");
    var parts := SoftAvoidParts(payload);
    var before := TextPart(TitleValue(payload)) + TextPart(Or(Get(payload, "overview"), JStr(""))) + GenresPart(payload);
    assert parts == before + [line];
    JoinContainsPart(first, ", ", j);
    ContainsGrows(KeywordsPrefix, Join(first, ", "), "", first[j]);
    assert KeywordsPrefix + Join(first, ", ") + "" == line;
    JoinContainsPart(parts, "\n", |parts| - 1);
    ContainsTransitive(SoftAvoidText(payload), line, first[j]);
  }

  lemma ContainsTransitive(h: string, m: string, n: string)
    requires Contains(h, m) && Contains(m, n)
    ensures Contains(h, n)
  {
    var i :| 0 <= i <= |h| - |m| && OccursAt(h, m, i);
    var k :| 0 <= k <= |m| - |n| && OccursAt(m, n, k);
    forall t | 0 <= t < |n|
      ensures h[i + k + t] == n[t]
    {
      assert h[i + k + t] == h[i..i + |m|][k + t];
      assert m[k + t] == m[k..k + |n|][t];
    }
    assert h[i + k..i + k + |n|] == n;
    assert OccursAt(h, n, i + k);
  }

  // --- The repetition penalty ------------------------------------------------------

  const GenreRepeatWeight: real := 0.20
  const DecadeRepeatWeight: real := 0.12
  const MaxRepeatPenalty: real := 0.5
  const RepeatGenres: nat := 4

  // `counts.get(k, 0)`.
  function CountOf(counts: map<int, int>, k: int): int
  {
    if k in counts then counts[k] else 0
  }

  // The genre part of the penalty, added from the front.
  function GenreShare(gids: seq<int>, counts: map<int, int>, total: int): real
    requires total > 0
  {
    if gids == [] then 0.0
    else GenreShare(gids[..|gids| - 1], counts, total)
         + GenreRepeatWeight * (CountOf(counts, gids[|gids| - 1]) as real / total as real)
  }

  function DecadeShare(dec: Option<int>, counts: map<int, int>, total: int): real
    requires total > 0
  {
    if dec.Some? then DecadeRepeatWeight * (CountOf(counts, dec.value) as real / total as real) else 0.0
  }

  // `_repeat_penalty_for_candidate(payload, genre_counts, decade_counts, total)`.
  function RepeatPenaltyOf(payload: Payload, genreCounts: map<int, int>, decadeCounts: map<int, int>, total: int): (r: real)
    ensures 0.0 <= r <= MaxRepeatPenalty
    ensures total <= 0 ==> r == 0.0
  {
    if total <= 0 then 0.0
    else
      var raw := GenreShare(Take(GenreIdsOfPayload(payload), RepeatGenres), genreCounts, total)
                 + DecadeShare(DecadeFromReleaseDate(Get(payload, "release_date")), decadeCounts, total);
      Clamp(raw, 0.0, MaxRepeatPenalty)
  }

  method RepeatPenaltyForCandidate(payload: Payload, genreCounts: map<int, int>, decadeCounts: map<int, int>, total: int) returns (p: real)
    ensures p == RepeatPenaltyOf(payload, genreCounts, decadeCounts, total)
  {
    if total <= 0 {
      return 0.0;
    }
    var penalty := 0.0;
    var gids := ExtractGenreIds(payload);
    var first := Take(gids, RepeatGenres);
    for i := 0 to |first|
      invariant penalty == GenreShare(first[..i], genreCounts, total)
    {
      assert first[..i + 1][..i] == first[..i];
      var freq := CountOf(genreCounts, first[i]) as real / total as real;
      penalty := penalty + GenreRepeatWeight * freq;
    }
    assert first[..|first|] == first;
    var dec := DecadeFromReleaseDate(Get(payload, "release_date"));
    if dec.Some? {
      var freq := CountOf(decadeCounts, dec.value) as real / total as real;
      penalty := penalty + DecadeRepeatWeight * freq;
    }
    p := Clamp(penalty, 0.0, MaxRepeatPenalty);
  }

  lemma {:induction false} GenreShareOfUnseen(gids: seq<int>, counts: map<int, int>, total: int)
    requires total > 0 && forall j :: 0 <= j < |gids| ==> CountOf(counts, gids[j]) == 0
    ensures GenreShare(gids, counts, total) == 0.0
  {
    if gids != [] {
      GenreShareOfUnseen(gids[..|gids| - 1], counts, total);
    }
  }

  // A candidate none of whose first four genres and whose decade occur in the
  // context is not penalised.
  lemma RepeatPenaltyOfUnseen(payload: Payload, genreCounts: map<int, int>, decadeCounts: map<int, int>, total: int)
    requires forall j :: 0 <= j < |GenreIdsOfPayload(payload)| && j < RepeatGenres ==> CountOf(genreCounts, GenreIdsOfPayload(payload)[j]) == 0
    requires forall d :: DecadeFromReleaseDate(Get(payload, "release_date")) == Some(d) ==> CountOf(decadeCounts, d) == 0
    ensures RepeatPenaltyOf(payload, genreCounts, decadeCounts, total) == 0.0
  {
    if total > 0 {
      GenreShareOfUnseen(Take(GenreIdsOfPayload(payload), RepeatGenres), genreCounts, total);
    }
  }

  // Genres after the fourth do not count.
  lemma RepeatPenaltyFirstFourGenres(p1: Payload, p2: Payload, genreCounts: map<int, int>, decadeCounts: map<int, int>, total: int)
    requires Take(GenreIdsOfPayload(p1), RepeatGenres) == Take(GenreIdsOfPayload(p2), RepeatGenres)
    requires DecadeFromReleaseDate(Get(p1, "release_date")) == DecadeFromReleaseDate(Get(p2, "release_date"))
    ensures RepeatPenaltyOf(p1, genreCounts, decadeCounts, total) == RepeatPenaltyOf(p2, genreCounts, decadeCounts, total)
  {
  }

  // With non-negative counts no larger than the context size, an unclamped
  // penalty never exceeds 0.2 per counted genre plus 0.12.
  lemma {:induction false} GenreShareBounded(gids: seq<int>, counts: map<int, int>, total: int)
    requires total > 0 && forall k :: k in counts ==> 0 <= counts[k] <= total
    ensures 0.0 <= GenreShare(gids, counts, total) <= GenreRepeatWeight * |gids| as real
  {
    if gids != [] {
      GenreShareBounded(gids[..|gids| - 1], counts, total);
      var c := CountOf(counts, gids[|gids| - 1]);
      assert 0 <= c <= total;
      assert 0.0 <= c as real / total as real <= 1.0;
    }
  }

  // --- Strategy labels --------------------------------------------------------------

  datatype Strategy = Safe | Adjacent | Wildcard

  // `_assign_strategy(sim_like, novelty)`, with its `novelty >= 70` test.
  function AssignStrategy(simLike: real, novelty: real): (s: Strategy)
    ensures s == Safe <==> simLike >= 0.45
    ensures s == Adjacent <==> simLike < 0.45 && (simLike >= 0.30 || novelty >= 70.0)
  {
    if simLike >= 0.45 then Safe
    else if simLike >= 0.30 || novelty >= 70.0 then Adjacent
    else Wildcard
  }

  // Novelty is clamped to [0, 1], so the novelty test never decides the label.
  lemma NoveltyNeverDecidesStrategy(simLike: real, novelty: real)
    requires 0.0 <= novelty <= 1.0
    ensures AssignStrategy(simLike, novelty) == AssignStrategy(simLike, 0.0)
    ensures AssignStrategy(simLike, novelty) == Wildcard <==> simLike < 0.30
  {
  }

  // --- De-duplicating the candidate pool ----------------------------------------------

  // `(vote_average or 0) + (popularity or 0) / 100`.
  function Quality(c: Tmdb.MovieCandidate): real
  {
    c.voteAverage.GetOr(0.0) + c.popularity.GetOr(0.0) / 100.0
  }
}
