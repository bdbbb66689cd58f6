// The embedding tier `recommend_v1` (app/recommender/v1.py) over prefetched
// inputs: the seed lists, the watched and recently recommended ids, the fetched
// candidate pool, the stored embeddings, the like/dislike vectors, the details
// payloads and the taste profile's avoidance patterns. Fetching them is not
// part of this model.
module RecommendV1 {
  import opened Wrappers
  import opened Text
  import opened Json
  import opened VectorMath
  import opened Sorting
  import opened Numbers
  import opened Mmr
  import opened SoftAvoid
  import opened V1Helpers
  import opened Dedupe
  import opened Candidates
  import Tmdb

  const MinEmbeddings: int := 10
  const MmrLambda: real := 0.75
  const DislikeWeight: real := 0.7
  const NoveltyWeight: real := 0.2
  const RecentContextIds: nat := 60
  const MaxContextIds: nat := 80

  // --- Step 5: the embedding gate ------------------------------------------------

  function CandidateIds(cands: seq<Tmdb.MovieCandidate>): set<int>
  {
    set c | c in cands :: c.tmdbId
  }

  // The stored film embeddings of the candidates.
  function CandidateVectors(embeddings: map<int, Vector>, cands: seq<Tmdb.MovieCandidate>): (m: map<int, Vector>)
    ensures forall id :: id in m <==> id in embeddings && id in CandidateIds(cands)
    ensures forall id :: id in m ==> m[id] == embeddings[id]
  {
    map id | id in embeddings && id in CandidateIds(cands) :: embeddings[id]
  }

  // `max(10, count * 2)`.
  function MinNeeded(count: int): (n: int)
    ensures n >= MinEmbeddings && n >= 2 * count
    ensures n == MinEmbeddings || n == 2 * count
  {
    if 2 * count > MinEmbeddings then 2 * count else MinEmbeddings
  }

  // --- Step 8: the repeat context -----------------------------------------------

  // `list(dict.fromkeys(ids))`: first occurrences, in order.
  function FirstOccurrences(ids: seq<int>): (r: seq<int>)
    ensures |r| <= |ids|
  {
    if ids == [] then []
    else
      var prev := FirstOccurrences(ids[..|ids| - 1]);
      if ids[|ids| - 1] in prev then prev else prev + [ids[|ids| - 1]]
  }

  predicate NoDuplicates(r: seq<int>)
  {
    forall i, j :: 0 <= i < j < |r| ==> r[i] != r[j]
  }

  lemma {:induction false} FirstOccurrencesFacts(ids: seq<int>)
    ensures NoDuplicates(FirstOccurrences(ids))
    ensures forall x :: x in FirstOccurrences(ids) <==> x in ids
  {
    if ids != [] {
      var init := ids[..|ids| - 1];
      var last := ids[|ids| - 1];
      FirstOccurrencesFacts(init);
      assert ids == init + [last];
      var prev := FirstOccurrences(init);
      if last !in prev {
        var r := prev + [last];
        forall i, j | 0 <= i < j < |r|
          ensures r[i] != r[j]
        {
          if j == |prev| {
            assert r[i] == prev[i] && prev[i] in prev;
          } else {
            assert r[i] == prev[i] && r[j] == prev[j];
          }
        }
      }
    }
  }

  // The ids whose details build the repeat counts: the first 60 recent
  // recommendations, then the recent watched ids, de-duplicated, at most 80.
  function ContextIds(recentRecIds: seq<int>, recentWatched: seq<int>): seq<int>
  {
    Take(FirstOccurrences(Take(recentRecIds, RecentContextIds) + recentWatched), MaxContextIds)
  }

  lemma ContextIdsFacts(recentRecIds: seq<int>, recentWatched: seq<int>)
    ensures var ctx := ContextIds(recentRecIds, recentWatched);
      |ctx| <= MaxContextIds
      && NoDuplicates(ctx)
      && (forall x :: x in ctx ==> x in Take(recentRecIds, RecentContextIds) || x in recentWatched)
  {
    var all := Take(recentRecIds, RecentContextIds) + recentWatched;
    FirstOccurrencesFacts(all);
    var ctx := ContextIds(recentRecIds, recentWatched);
    forall x | x in ctx
      ensures x in FirstOccurrences(all)
    {
      var k :| 0 <= k < |ctx| && ctx[k] == x;
      assert FirstOccurrences(all)[k] == x;
    }
  }

  // `total_context = max(1, len(context_ids))`.
  function TotalContext(ctx: seq<int>): (t: int)
    ensures t >= 1 && (ctx != [] ==> t == |ctx|)
  {
    if |ctx| > 1 then |ctx| else 1
  }

  // `counts[k] = counts.get(k, 0) + 1` for each k.
  function AddAll(counts: map<int, int>, ks: seq<int>): (r: map<int, int>)
    ensures forall k :: k in counts ==> k in r
  {
    if ks == [] then counts
    else
      var prev := AddAll(counts, ks[..|ks| - 1]);
      var k := ks[|ks| - 1];
      prev[k := CountOf(prev, k) + 1]
  }

  // `get_movie_details_payload` succeeded for every one of the ids: `details`
  // holds the payloads that were fetched, and an id missing from it is a fetch
  // that raised `TMDBError`, which nothing in `recommend_v1` catches.
  predicate Fetched(ids: seq<int>, details: map<int, Payload>)
  {
    forall i :: 0 <= i < |ids| ==> ids[i] in details
  }

  // `_repeat_context_counts`: per genre id and per decade, how many context films
  // carry it (a genre listed twice counts twice).
  function GenreCountsOf(ctx: seq<int>, details: map<int, Payload>): map<int, int>
    requires Fetched(ctx, details)
  {
    if ctx == [] then map[]
    else AddAll(GenreCountsOf(ctx[..|ctx| - 1], details), GenreIdsOfPayload(details[ctx[|ctx| - 1]]))
  }

  function DecadeCountsOf(ctx: seq<int>, details: map<int, Payload>): map<int, int>
    requires Fetched(ctx, details)
  {
    if ctx == [] then map[]
    else
      var prev := DecadeCountsOf(ctx[..|ctx| - 1], details);
      var dec := DecadeFromReleaseDate(Get(details[ctx[|ctx| - 1]], "release_date"));
      if dec.Some? then prev[dec.value := CountOf(prev, dec.value) + 1] else prev
  }

  // Each context film adds at most one decade, so no decade count exceeds the
  // context size and none is negative.
  lemma {:induction false} DecadeCountsBounded(ctx: seq<int>, details: map<int, Payload>)
    requires Fetched(ctx, details)
    ensures forall d :: 0 <= CountOf(DecadeCountsOf(ctx, details), d) <= |ctx|
  {
    if ctx != [] {
      var init := ctx[..|ctx| - 1];
      DecadeCountsBounded(init, details);
      var prev := DecadeCountsOf(init, details);
      var dec := DecadeFromReleaseDate(Get(details[ctx[|ctx| - 1]], "release_date"));
      forall d
        ensures 0 <= CountOf(DecadeCountsOf(ctx, details), d) <= |ctx|
      {
        assert 0 <= CountOf(prev, d) <= |init|;
      }
    }
  }

  // None is the `TMDBError` of the first context film whose details fail.
  method RepeatContextCounts(ctx: seq<int>, details: map<int, Payload>) returns (r: Option<(map<int, int>, map<int, int>)>)
    ensures r.Some? <==> Fetched(ctx, details)
    ensures r.Some? ==> r.value.0 == GenreCountsOf(ctx, details) && r.value.1 == DecadeCountsOf(ctx, details)
  {
    var genreCounts: map<int, int>, decadeCounts: map<int, int> := map[], map[];
    for i := 0 to |ctx|
      invariant Fetched(ctx[..i], details)
      invariant genreCounts == GenreCountsOf(ctx[..i], details)
      invariant decadeCounts == DecadeCountsOf(ctx[..i], details)
    {
      if ctx[i] !in details {
        assert !Fetched(ctx, details) by {
          assert !(ctx[i] in details);
        }
        return None;
      }
      CountsStep(ctx, i, details);
      genreCounts, decadeCounts := CountContextFilm(genreCounts, decadeCounts, details[ctx[i]]);
    }
    assert ctx[..|ctx|] == ctx;
    assert Fetched(ctx, details);
    r := Some((genreCounts, decadeCounts));
  }

  // Both counts over one more context film, from the counts before it.
  lemma CountsStep(ctx: seq<int>, i: int, details: map<int, Payload>)
    requires 0 <= i < |ctx| && Fetched(ctx[..i], details) && ctx[i] in details
    ensures Fetched(ctx[..i + 1], details)
    ensures GenreCountsOf(ctx[..i + 1], details) == AddAll(GenreCountsOf(ctx[..i], details), GenreIdsOfPayload(details[ctx[i]]))
    ensures var dec := DecadeFromReleaseDate(Get(details[ctx[i]], "release_date"));
      var prev := DecadeCountsOf(ctx[..i], details);
      DecadeCountsOf(ctx[..i + 1], details) == if dec.Some? then prev[dec.value := CountOf(prev, dec.value) + 1] else prev
  {
    assert ctx[..i + 1][..i] == ctx[..i];
    assert ctx[..i + 1][i] == ctx[i];
  }

  // The counts after one more context film.
  method CountContextFilm(genreCounts: map<int, int>, decadeCounts: map<int, int>, payload: Payload) returns (g: map<int, int>, d: map<int, int>)
    ensures g == AddAll(genreCounts, GenreIdsOfPayload(payload))
    ensures var dec := DecadeFromReleaseDate(Get(payload, "release_date"));
      d == if dec.Some? then decadeCounts[dec.value := CountOf(decadeCounts, dec.value) + 1] else decadeCounts
  {
    var gids := ExtractGenreIds(payload);
    g := genreCounts;
    for j := 0 to |gids|
      invariant g == AddAll(genreCounts, gids[..j])
    {
      assert gids[..j + 1][..j] == gids[..j];
      g := g[gids[j] := CountOf(g, gids[j]) + 1];
    }
    assert gids[..|gids|] == gids;
    d := decadeCounts;
    var dec := DecadeFromReleaseDate(Get(payload, "release_date"));
    if dec.Some? {
      d := d[dec.value := CountOf(d, dec.value) + 1];
    }
  }

  // --- Step 10: scoring -----------------------------------------------------------

  // The inputs every candidate is scored against.
  datatype ScoringContext = ScoringContext(
    likeVec: Option<Vector>,
    dislikeVec: Option<Vector>,
    recentVecs: seq<Vector>,
    details: map<int, Payload>,
    genreCounts: map<int, int>,
    decadeCounts: map<int, int>,
    totalContext: int,
    avoids: Json,
    now: real)

  // `cosine_similarity(vec, target) if target else 0.0`.
  function SimTo(vec: Vector, target: Option<Vector>, sqrt: real -> real): (r: real)
    requires IsSqrt(sqrt)
    ensures -1.0 <= r <= 1.0
    ensures (target.None? || target.value == []) ==> r == 0.0
  {
    if target.Some? && target.value != [] then
      CosineBounded(vec, target.value, sqrt);
      Cosine(vec, target.value, sqrt)
    else 0.0
  }

  // The largest `max(0, cosine)` to a recent recommendation, starting from 0.
  function MaxSimRecent(vec: Vector, recent: seq<Vector>, sqrt: real -> real): (r: real)
    requires IsSqrt(sqrt)
    ensures 0.0 <= r <= 1.0
  {
    if recent == [] then 0.0
    else
      CosineBounded(vec, recent[|recent| - 1], sqrt);
      Max(MaxSimRecent(vec, recent[..|recent| - 1], sqrt), Max(0.0, Cosine(vec, recent[|recent| - 1], sqrt)))
  }

  // `novelty = _clamp(1 - max_sim_recent, 0, 1)`.
  function Novelty(vec: Vector, recent: seq<Vector>, sqrt: real -> real): (r: real)
    requires IsSqrt(sqrt)
    ensures 0.0 <= r <= 1.0
  {
    Clamp(1.0 - MaxSimRecent(vec, recent, sqrt), 0.0, 1.0)
  }

  // With no recent recommendations every candidate is fully novel, and a
  // candidate identical to a recent one with a non-zero vector has novelty 0.
  lemma {:induction false} NoveltyFacts(vec: Vector, recent: seq<Vector>, sqrt: real -> real)
    requires IsSqrt(sqrt)
    ensures recent == [] ==> Novelty(vec, recent, sqrt) == 1.0
    ensures vec in recent && (exists k :: 0 <= k < |vec| && vec[k] != 0.0) ==> Novelty(vec, recent, sqrt) == 0.0
  {
    if vec in recent && (exists k :: 0 <= k < |vec| && vec[k] != 0.0) {
      MaxSimRecentOfSelf(vec, recent, sqrt);
    }
  }

  lemma {:induction false} MaxSimRecentOfSelf(vec: Vector, recent: seq<Vector>, sqrt: real -> real)
    requires IsSqrt(sqrt) && vec in recent && (exists k :: 0 <= k < |vec| && vec[k] != 0.0)
    ensures MaxSimRecent(vec, recent, sqrt) == 1.0
  {
    var init := recent[..|recent| - 1];
    if recent[|recent| - 1] == vec {
      CosineSelf(vec, sqrt);
    } else {
      assert vec in init by {
        var k :| 0 <= k < |recent| && recent[k] == vec;
        assert k < |recent| - 1 && init[k] == vec;
      }
      MaxSimRecentOfSelf(vec, init, sqrt);
    }
  }

  method NoveltyOf(vec: Vector, recent: seq<Vector>, sqrt: real -> real) returns (novelty: real)
    requires IsSqrt(sqrt)
    ensures novelty == Novelty(vec, recent, sqrt)
  {
    var maxSim := 0.0;
    for i := 0 to |recent|
      invariant maxSim == MaxSimRecent(vec, recent[..i], sqrt)
    {
      assert recent[..i + 1][..i] == recent[..i];
      var cos := CosineSimilarity(vec, recent[i], sqrt);
      maxSim := Max(maxSim, Max(0.0, cos));
    }
    assert recent[..|recent|] == recent;
    novelty := Clamp(1.0 - maxSim, 0.0, 1.0);
  }

  // `1.0 * sim_like - 0.7 * sim_dislike + 0.2 * novelty - repeat - soft_avoid`.
  function BaseScore(simLike: real, simDislike: real, novelty: real, repeat: real, avoid: real): real
  {
    1.0 * simLike - DislikeWeight * simDislike + NoveltyWeight * novelty - repeat - avoid
  }

  // With every term in its range the base score lies in [-2.2 - avoid, 1.9].
  lemma BaseScoreRange(simLike: real, simDislike: real, novelty: real, repeat: real, avoid: real)
    requires -1.0 <= simLike <= 1.0 && -1.0 <= simDislike <= 1.0 && 0.0 <= novelty <= 1.0
    requires 0.0 <= repeat <= MaxRepeatPenalty && avoid >= 0.0
    ensures -2.2 - avoid <= BaseScore(simLike, simDislike, novelty, repeat, avoid) <= 1.9
  {
  }

  // A fired avoidance pattern strictly lowers the score by its penalty.
  lemma AvoidLowersScore(simLike: real, simDislike: real, novelty: real, repeat: real, avoid: real)
    requires avoid > 0.0
    ensures BaseScore(simLike, simDislike, novelty, repeat, avoid) < BaseScore(simLike, simDislike, novelty, repeat, 0.0)
    ensures BaseScore(simLike, simDislike, novelty, repeat, 0.0) - BaseScore(simLike, simDislike, novelty, repeat, avoid) == avoid
  {
  }

  // The score of one candidate with a vector; None is an error that ends
  // `recommend_v1`: the candidate's details fetch raising `TMDBError`, or a
  // conversion the soft-avoid penalty raises.
  function ScoreOf(tid: int, vec: Vector, ctx: ScoringContext, parseStamp: string -> Option<real>, sqrt: real -> real): (r: Option<CandidateScore>)
    requires IsSqrt(sqrt)
    ensures r.Some? ==> r.value.tmdbId == tid
    ensures tid !in ctx.details ==> r.None?
  {
    if tid !in ctx.details then None
    else
    var simLike := SimTo(vec, ctx.likeVec, sqrt);
    var simDislike := SimTo(vec, ctx.dislikeVec, sqrt);
    var novelty := Novelty(vec, ctx.recentVecs, sqrt);
    var payload := ctx.details[tid];
    var repeat := RepeatPenaltyOf(payload, ctx.genreCounts, ctx.decadeCounts, ctx.totalContext);
    match SoftAvoidPenaltyOf(SoftAvoidText(payload), ctx.avoids, ctx.now, parseStamp)
    case None => None
    case Some(p) =>
      Some(CandidateScore(tid, BaseScore(simLike, simDislike, novelty, repeat, p.total),
                          simLike, simDislike, novelty, repeat, p.total, p.triggered))
  }

  // What every scored candidate satisfies.
  predicate WellScored(s: CandidateScore)
  {
    && -1.0 <= s.simLike <= 1.0 && -1.0 <= s.simDislike <= 1.0
    && 0.0 <= s.novelty <= 1.0
    && 0.0 <= s.repeatPenalty <= MaxRepeatPenalty
    && s.softAvoidPenalty >= 0.0
    && (s.softAvoidPenalty > 0.0 <==> s.triggeredAvoidIds != [])
    && s.baseScore == BaseScore(s.simLike, s.simDislike, s.novelty, s.repeatPenalty, s.softAvoidPenalty)
  }

  lemma ScoreOfWellScored(tid: int, vec: Vector, ctx: ScoringContext, parseStamp: string -> Option<real>, sqrt: real -> real)
    requires IsSqrt(sqrt)
    ensures var r := ScoreOf(tid, vec, ctx, parseStamp, sqrt); r.Some? ==> WellScored(r.value)
  {
  }

  // Candidates without a non-empty vector are skipped.
  function ScoredOf(cands: seq<Tmdb.MovieCandidate>, vecs: map<int, Vector>, ctx: ScoringContext, parseStamp: string -> Option<real>, sqrt: real -> real): (r: Option<seq<CandidateScore>>)
    requires IsSqrt(sqrt)
    ensures r.Some? ==> |r.value| <= |cands|
  {
    if cands == [] then Some([])
    else match ScoredOf(cands[..|cands| - 1], vecs, ctx, parseStamp, sqrt)
      case None => None
      case Some(prev) =>
        var tid := cands[|cands| - 1].tmdbId;
        if !HasVector(vecs, tid) then Some(prev)
        else match ScoreOf(tid, vecs[tid], ctx, parseStamp, sqrt)
          case None => None
          case Some(s) => Some(prev + [s])
  }

  // Every scored candidate is a candidate with a vector, scored as above.
  lemma {:induction false} ScoredFacts(cands: seq<Tmdb.MovieCandidate>, vecs: map<int, Vector>, ctx: ScoringContext, parseStamp: string -> Option<real>, sqrt: real -> real)
    requires IsSqrt(sqrt)
    ensures var r := ScoredOf(cands, vecs, ctx, parseStamp, sqrt);
      r.Some? ==> forall s :: s in r.value ==> s.tmdbId in CandidateIds(cands) && HasVector(vecs, s.tmdbId) && WellScored(s)
  {
    if cands != [] {
      var init := cands[..|cands| - 1];
      ScoredFacts(init, vecs, ctx, parseStamp, sqrt);
      var last := cands[|cands| - 1];
      if HasVector(vecs, last.tmdbId) {
        ScoreOfWellScored(last.tmdbId, vecs[last.tmdbId], ctx, parseStamp, sqrt);
      }
      forall c | c in init
        ensures c in cands
      {
        var k :| 0 <= k < |init| && init[k] == c;
        assert cands[k] == c;
      }
    }
  }

  lemma ScoredPrefix(cands: seq<Tmdb.MovieCandidate>, vecs: map<int, Vector>, ctx: ScoringContext, parseStamp: string -> Option<real>, sqrt: real -> real, i: nat)
    requires IsSqrt(sqrt) && i < |cands|
    requires ScoredOf(cands[..i], vecs, ctx, parseStamp, sqrt).None?
    ensures ScoredOf(cands[..i + 1], vecs, ctx, parseStamp, sqrt).None?
  {
    assert cands[..i + 1][..i] == cands[..i];
  }

  lemma {:induction false} ScoredRaisedStays(cands: seq<Tmdb.MovieCandidate>, vecs: map<int, Vector>, ctx: ScoringContext, parseStamp: string -> Option<real>, sqrt: real -> real, i: nat)
    requires IsSqrt(sqrt) && i <= |cands|
    requires ScoredOf(cands[..i], vecs, ctx, parseStamp, sqrt).None?
    ensures ScoredOf(cands, vecs, ctx, parseStamp, sqrt).None?
    decreases |cands| - i
  {
    if i == |cands| {
      assert cands[..i] == cands;
    } else {
      ScoredPrefix(cands, vecs, ctx, parseStamp, sqrt, i);
      ScoredRaisedStays(cands, vecs, ctx, parseStamp, sqrt, i + 1);
    }
  }

  method SimilarityTo(vec: Vector, target: Option<Vector>, sqrt: real -> real) returns (sim: real)
    requires IsSqrt(sqrt)
    ensures sim == SimTo(vec, target, sqrt)
  {
    sim := 0.0;
    if target.Some? && target.value != [] {
      sim := CosineSimilarity(vec, target.value, sqrt);
    }
  }

  // A pattern keyword that is, after trimming, one of the film's first 25 TMDB
  // keywords always matches the text built for that film.
  lemma FilmKeywordMatches(payload: Payload, kw: Json, j: nat)
    requires j < |Take(KeywordNamesIn(ListField(payload, "keywords")), MaxSoftAvoidKeywords)|
    requires kw.JStr? && Strip(kw.s) != [] && Strip(kw.s) == KeywordNamesIn(ListField(payload, "keywords"))[j]
    ensures KeywordMatches(kw, Lower(SoftAvoidText(payload)))
  {
    SoftAvoidTextHasKeyword(payload, j);
    LowerContains(SoftAvoidText(payload), Strip(kw.s));
  }

  // One candidate of the scoring loop.
  method ScoreCandidate(tid: int, vec: Vector, ctx: ScoringContext, parseStamp: string -> Option<real>, sqrt: real -> real) returns (r: Option<CandidateScore>)
    requires IsSqrt(sqrt)
    ensures r == ScoreOf(tid, vec, ctx, parseStamp, sqrt)
  {
    var simLike := SimilarityTo(vec, ctx.likeVec, sqrt);
    var simDislike := SimilarityTo(vec, ctx.dislikeVec, sqrt);
    var novelty := NoveltyOf(vec, ctx.recentVecs, sqrt);
    if tid !in ctx.details {
      return None;
    }
    var payload := ctx.details[tid];
    var repeat := RepeatPenaltyForCandidate(payload, ctx.genreCounts, ctx.decadeCounts, ctx.totalContext);
    var text := BuildTextForSoftAvoid(payload);
    var soft := SoftAvoidPenalty(text, ctx.avoids, ctx.now, parseStamp);
    if soft.None? {
      return None;
    }
    var base := BaseScore(simLike, simDislike, novelty, repeat, soft.value.total);
    r := Some(CandidateScore(tid, base, simLike, simDislike, novelty, repeat, soft.value.total, soft.value.triggered));
  }

  method ScoreCandidates(cands: seq<Tmdb.MovieCandidate>, vecs: map<int, Vector>, ctx: ScoringContext, parseStamp: string -> Option<real>, sqrt: real -> real) returns (r: Option<seq<CandidateScore>>)
    requires IsSqrt(sqrt)
    ensures r == ScoredOf(cands, vecs, ctx, parseStamp, sqrt)
  {
    var scored: seq<CandidateScore> := [];
    for i := 0 to |cands|
      invariant ScoredOf(cands[..i], vecs, ctx, parseStamp, sqrt) == Some(scored)
    {
      assert cands[..i + 1][..i] == cands[..i];
      var tid := cands[i].tmdbId;
      if tid !in vecs || vecs[tid] == [] {
        continue;
      }
      var s := ScoreCandidate(tid, vecs[tid], ctx, parseStamp, sqrt);
      if s.None? {
        ScoredRaisedStays(cands, vecs, ctx, parseStamp, sqrt, i + 1);
        return None;
      }
      scored := scored + [s.value];
    }
    assert cands[..|cands|] == cands;
    r := Some(scored);
  }

  // --- Steps 11 to 13: selection, stamping and labels ------------------------------------

  datatype RecPick = RecPick(tmdbId: int, strategy: Strategy, score: real, triggeredAvoidIds: seq<string>)

  function PickOf(s: CandidateScore): RecPick
  {
    RecPick(s.tmdbId, AssignStrategy(s.simLike, s.novelty), s.baseScore, s.triggeredAvoidIds)
  }

  function PicksOf(selected: seq<CandidateScore>): (picks: seq<RecPick>)
    ensures |picks| == |selected|
    ensures forall i :: 0 <= i < |selected| ==> picks[i] == PickOf(selected[i])
  {
    seq(|selected|, i requires 0 <= i < |selected| => PickOf(selected[i]))
  }

  function TriggeredOf(selected: seq<CandidateScore>): (r: seq<seq<string>>)
    ensures |r| == |selected|
    ensures forall i :: 0 <= i < |selected| ==> r[i] == selected[i].triggeredAvoidIds
  {
    seq(|selected|, i requires 0 <= i < |selected| => selected[i].triggeredAvoidIds)
  }

  // Everything `recommend_v1` reads, already fetched: the taste-profile row is
  // represented by its `avoids_json` (None when the user has no profile).
  datatype V1Inputs = V1Inputs(
    topRated: seq<int>,
    fallbackTop: seq<int>,
    watched: set<int>,
    recentRecs: set<int>,
    pool: seq<Tmdb.MovieCandidate>,
    filmEmbeddings: map<int, Vector>,
    likeVec: Option<Vector>,
    dislikeVec: Option<Vector>,
    recentRecIds: seq<int>,
    recentVecs: seq<Vector>,
    recentWatched: seq<int>,
    details: map<int, Payload>,
    profileAvoids: Option<Json>,
    now: real,
    nowIso: string)

  // The picks, and the `avoids_json` written back (None: no write).
  datatype V1Result = V1Result(picks: seq<RecPick>, avoidsUpdate: Option<Json>)

  // `(profile.avoids_json if profile else {}) or {}`.
  function AvoidsOf(profileAvoids: Option<Json>): Json
  {
    Or(if profileAvoids.Some? then profileAvoids.value else JObj(map[]), JObj(map[]))
  }

  // Steps 1 to 5: the candidates and their vectors, or None when the tier gives up.
  function CandidatesOf(inp: V1Inputs, count: int): (r: Option<(seq<Tmdb.MovieCandidate>, map<int, Vector>)>)
  {
    var seeds := Seeds(inp.topRated, inp.fallbackTop);
    if seeds == [] then None
    else
      var seedSet := set id | id in seeds;
      var cands := FilterOf(DedupeOf(inp.pool, Quality), inp.watched, inp.recentRecs, seedSet);
      if cands == [] then None
      else
        var vecs := CandidateVectors(inp.filmEmbeddings, cands);
        if |vecs| < MinNeeded(count) then None else Some((cands, vecs))
  }

  // Steps 8 and 9: the scoring context, or None when the details fetch of a
  // context film raises.
  function ContextOf(inp: V1Inputs): Option<ScoringContext>
  {
    var ctxIds := ContextIds(inp.recentRecIds, inp.recentWatched);
    if !Fetched(ctxIds, inp.details) then None
    else Some(ScoringContext(inp.likeVec, inp.dislikeVec, inp.recentVecs, inp.details,
                             GenreCountsOf(ctxIds, inp.details), DecadeCountsOf(ctxIds, inp.details),
                             TotalContext(ctxIds), AvoidsOf(inp.profileAvoids), inp.now))
  }

  // `recommend_v1` over prefetched inputs; None is an error it raises: a details
  // fetch that fails, or a pattern conversion.
  function RecommendV1Of(inp: V1Inputs, count: int, parseStamp: string -> Option<real>, sqrt: real -> real): Option<V1Result>
    requires IsSqrt(sqrt)
  {
    match CandidatesOf(inp, count)
    case None => Some(V1Result([], None))
    case Some((cands, vecs)) =>
      match ContextOf(inp)
      case None => None
      case Some(ctx) =>
      match ScoredOf(cands, vecs, ctx, parseStamp, sqrt)
      case None => None
      case Some(scored) =>
        if scored == [] then Some(V1Result([], None))
        else
          var selected := MmrSelectOf(scored, vecs, count, MmrLambda, sqrt);
          Some(V1Result(PicksOf(selected),
                        UpdatedAvoids(inp.profileAvoids.Some?, ctx.avoids, TriggeredOf(selected), inp.nowIso)))
  }

  // Every candidate that reaches scoring is a pool film with a non-zero id that is
  // not watched, not recently recommended and not a seed.
  lemma CandidatesFacts(inp: V1Inputs, count: int)
    ensures var r := CandidatesOf(inp, count);
      r.Some? ==>
        && r.value.1 == CandidateVectors(inp.filmEmbeddings, r.value.0)
        && forall c :: c in r.value.0 ==>
             && c in inp.pool && c.tmdbId != 0
             && !Excluded(c.tmdbId, inp.watched, inp.recentRecs, set id | id in Seeds(inp.topRated, inp.fallbackTop))
  {
    var seeds := Seeds(inp.topRated, inp.fallbackTop);
    var seedSet := set id | id in seeds;
    var byId := DedupeOf(inp.pool, Quality);
    assert EntriesFromPool(byId, inp.pool) by {
      DedupeFacts(inp.pool, Quality);
    }
    forall c | c in FilterOf(byId, inp.watched, inp.recentRecs, seedSet)
      ensures c in inp.pool && c.tmdbId != 0 && !Excluded(c.tmdbId, inp.watched, inp.recentRecs, seedSet)
    {
      FilterMembers(byId, inp.watched, inp.recentRecs, seedSet, c);
      var k :| 0 <= k < |byId| && byId[k] == c;
    }
  }

  // Every selected score is a scored candidate.
  lemma SelectedFromScored(scored: seq<CandidateScore>, vecs: map<int, Vector>, count: int, sqrt: real -> real, i: nat)
    requires IsSqrt(sqrt) && i < |MmrSelectOf(scored, vecs, count, MmrLambda, sqrt)|
    ensures MmrSelectOf(scored, vecs, count, MmrLambda, sqrt)[i] in scored
  {
    var selected := MmrSelectOf(scored, vecs, count, MmrLambda, sqrt);
    MmrSelectBounded(scored, vecs, count, MmrLambda, sqrt);
    assert selected[i] in multiset(selected);
  }

  // The picks drawn from one scored candidate list.
  lemma SelectionFacts(inp: V1Inputs, count: int, cands: seq<Tmdb.MovieCandidate>, vecs: map<int, Vector>, scored: seq<CandidateScore>, sqrt: real -> real)
    requires IsSqrt(sqrt)
    requires vecs == CandidateVectors(inp.filmEmbeddings, cands)
    requires forall c :: c in cands ==>
      c.tmdbId != 0 && !Excluded(c.tmdbId, inp.watched, inp.recentRecs, set id | id in Seeds(inp.topRated, inp.fallbackTop))
    requires forall s :: s in scored ==> s.tmdbId in CandidateIds(cands) && HasVector(vecs, s.tmdbId)
    ensures var picks := PicksOf(MmrSelectOf(scored, vecs, count, MmrLambda, sqrt));
      && |picks| <= (if count > 0 then count else 0)
      && (forall i, j :: 0 <= i < j < |picks| ==> picks[i].tmdbId != picks[j].tmdbId)
      && (forall p :: p in picks ==>
            && p.tmdbId !in inp.watched && p.tmdbId !in inp.recentRecs
            && p.tmdbId !in Seeds(inp.topRated, inp.fallbackTop)
            && p.tmdbId != 0
            && p.tmdbId in inp.filmEmbeddings && inp.filmEmbeddings[p.tmdbId] != [])
  {
    var selected := MmrSelectOf(scored, vecs, count, MmrLambda, sqrt);
    MmrSelectBounded(scored, vecs, count, MmrLambda, sqrt);
    MmrSelectDistinct(scored, vecs, count, MmrLambda, sqrt);
    var picks := PicksOf(selected);
    forall p | p in picks
      ensures p.tmdbId !in inp.watched && p.tmdbId !in inp.recentRecs && p.tmdbId !in Seeds(inp.topRated, inp.fallbackTop)
      ensures p.tmdbId != 0 && p.tmdbId in inp.filmEmbeddings && inp.filmEmbeddings[p.tmdbId] != []
    {
      var i :| 0 <= i < |picks| && picks[i] == p;
      SelectedFromScored(scored, vecs, count, sqrt, i);
      var c :| c in cands && c.tmdbId == selected[i].tmdbId;
    }
    forall i, j | 0 <= i < j < |picks|
      ensures picks[i].tmdbId != picks[j].tmdbId
    {
      assert IdOf(selected[i]) != IdOf(selected[j]);
    }
  }

  // At most `count` picks with pairwise distinct ids; none watched, recently
  // recommended or a seed; each had a non-empty stored embedding.
  lemma RecommendV1Picks(inp: V1Inputs, count: int, parseStamp: string -> Option<real>, sqrt: real -> real)
    requires IsSqrt(sqrt)
    ensures var r := RecommendV1Of(inp, count, parseStamp, sqrt);
      r.Some? ==>
        && |r.value.picks| <= (if count > 0 then count else 0)
        && (forall i, j :: 0 <= i < j < |r.value.picks| ==> r.value.picks[i].tmdbId != r.value.picks[j].tmdbId)
        && (forall p :: p in r.value.picks ==>
              && p.tmdbId !in inp.watched && p.tmdbId !in inp.recentRecs
              && p.tmdbId !in Seeds(inp.topRated, inp.fallbackTop)
              && p.tmdbId != 0
              && p.tmdbId in inp.filmEmbeddings && inp.filmEmbeddings[p.tmdbId] != [])
  {
    CandidatesFacts(inp, count);
    match CandidatesOf(inp, count)
    case None =>
    case Some((cands, vecs)) =>
      match ContextOf(inp)
      case None =>
      case Some(ctx) =>
      ScoredFacts(cands, vecs, ctx, parseStamp, sqrt);
      match ScoredOf(cands, vecs, ctx, parseStamp, sqrt)
      case None =>
      case Some(scored) =>
        if scored != [] {
          SelectionFacts(inp, count, cands, vecs, scored, sqrt);
        }
  }

  // With fewer candidate embeddings than `max(10, 2 * count)` there are no picks
  // and nothing is written.
  lemma RecommendV1Gate(inp: V1Inputs, count: int, parseStamp: string -> Option<real>, sqrt: real -> real)
    requires IsSqrt(sqrt)
    requires var seeds := Seeds(inp.topRated, inp.fallbackTop);
      |CandidateVectors(inp.filmEmbeddings, FilterOf(DedupeOf(inp.pool, Quality), inp.watched, inp.recentRecs, set id | id in seeds))| < MinNeeded(count)
    ensures RecommendV1Of(inp, count, parseStamp, sqrt) == Some(V1Result([], None))
  {
  }

  // A context film whose details cannot be fetched raises `TMDBError` once the
  // embedding gate has passed: there is no result at all.
  lemma RecommendV1MissingDetails(inp: V1Inputs, count: int, parseStamp: string -> Option<real>, sqrt: real -> real)
    requires IsSqrt(sqrt)
    requires CandidatesOf(inp, count).Some?
    requires !Fetched(ContextIds(inp.recentRecIds, inp.recentWatched), inp.details)
    ensures RecommendV1Of(inp, count, parseStamp, sqrt).None?
  {
  }

  // Without seeds there are no picks.
  lemma RecommendV1NoSeeds(inp: V1Inputs, count: int, parseStamp: string -> Option<real>, sqrt: real -> real)
    requires IsSqrt(sqrt)
    requires |inp.topRated| < MinSeeds && inp.fallbackTop == []
    ensures RecommendV1Of(inp, count, parseStamp, sqrt) == Some(V1Result([], None))
  {
  }

  // The write happens only for a user with a profile, and it stamps exactly the
  // patterns whose untrimmed `str(p.get("id"))` fired for a selected pick.
  lemma RecommendV1Stamps(inp: V1Inputs, count: int, parseStamp: string -> Option<real>, sqrt: real -> real, i: nat)
    requires IsSqrt(sqrt)
    requires var r := RecommendV1Of(inp, count, parseStamp, sqrt); r.Some? && r.value.avoidsUpdate.Some?
    ensures inp.profileAvoids.Some?
    ensures var r := RecommendV1Of(inp, count, parseStamp, sqrt).value;
      var avoids := AvoidsOf(inp.profileAvoids);
      i < |avoids.fields["patterns"].items| ==>
        var p := avoids.fields["patterns"].items[i];
        var q := r.avoidsUpdate.value.fields["patterns"].items[i];
        var fired := p.JObj? && exists j :: 0 <= j < |r.picks| && StampKeyAsWritten(p.fields) in r.picks[j].triggeredAvoidIds;
        (!fired ==> q == p)
        && (fired ==> q.JObj? && Get(q.fields, "last_triggered") == JStr(inp.nowIso))
  {
    match CandidatesOf(inp, count)
    case Some((cands, vecs)) =>
      var ctx := ContextOf(inp).value;
      match ScoredOf(cands, vecs, ctx, parseStamp, sqrt)
      case Some(scored) =>
        var selected := MmrSelectOf(scored, vecs, count, MmrLambda, sqrt);
        var trig := TriggeredOf(selected);
        var avoids := AvoidsOf(inp.profileAvoids);
        if i < |avoids.fields["patterns"].items| {
          UpdatedAvoidsStampsOnlyFired(inp.profileAvoids.Some?, avoids, trig, inp.nowIso, i);
        }
  }
}
