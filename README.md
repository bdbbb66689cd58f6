# WhatToWatch — a verified model of the recommender bot's core

WhatToWatch is a Telegram bot that recommends films. It imports a user's
Letterboxd diary and takes reviews in chat. From these it keeps a taste
profile, and it proposes films in two tiers:

- a heuristic tier (`recommend_v0`) built on TMDB metadata;
- an embedding tier (`recommend_v1`) scored by cosine similarity, re-ranked
  with maximal marginal relevance (MMR) and softened by the user's avoidance
  patterns.

This project models the sequential core of that system in Dafny and proves
what the code promises about it. The model has four parts:

1. **Scoring and selection.** Covered:
   - cosine similarity and the weighted average of vectors;
   - the soft-avoid keyword penalty, with its confidence, weight and cooldown
     gates, and the stamping of `last_triggered`;
   - the repetition penalty and strategy labelling;
   - greedy MMR selection and pool de-duplication;
   - the filter, embedding gate and composite score of `recommend_v1`;
   - the quality and genre-overlap scores of `recommend_v0`, its
     safe/adjacent/wildcard argmax picks, the diversity check and the
     assembly of the final picks;
   - the taste-profile aggregation (`update_taste_profile_v0`).

   Loops in the source are methods with loop invariants, each proved against
   a specification function. The shapes of the results (bounded, distinct,
   subset, first-is-max, stable order) are lemmas about those functions.
2. **Parsers, validators and text builders.** Covered:
   - the chat rating and title/year parsers;
   - the Letterboxd field parsers and candidate matcher;
   - the input validators;
   - the TMDB payload mapping and cache expiry;
   - the embedding-text builders;
   - the question policy and the exception value objects.
3. **Tables updated in place.** Each is a class over `map` fields whose
   methods state their entire new table:
   - the embedding job queue and one pass of the embedding worker;
   - the per-(user, command) rate limiter;
   - recommendations, their items and feedback;
   - the watched-film merge-upsert;
   - the pending-action slot, taste profiles and users.

   The read-only queries are filter, stable sort and take over a scan of a
   table. `ORDER BY` is a lexicographic rank.
4. **The conversation and the review save.** `handle_text` is a pure decision
   (`BotRouter.Step`). The command and callback handlers and `_save_review`
   apply such decisions to the tables. Also covered: `save_review` of the
   review service and the periodic summary refresh.

Clocks, time zones, randomness, the network, TMDB, OpenAI and the language
model are parameters:

- `now`, today's date and the zone lookup are passed in;
- `sqrt` is passed in with `IsSqrt(sqrt)`, i.e. `sqrt(x) >= 0` and
  `sqrt(x) * sqrt(x) == x` for `x >= 0`;
- searches, the embedding provider and the summary rewrite are functions
  returning a value or None, where None stands for the exception;
- the TMDB detail payloads that `recommend_v1` fetches are a prefetched map
  `details`. An id missing from it stands for a fetch that raised
  `TMDBError`. Nothing in `recommend_v1` catches that error, so the whole
  call then has no result (`RecommendV1.Fetched`, `RecommendV1.ContextOf`,
  `RecommendV1.ScoreOf`).

Numbers are `real` and `int`, computed exactly. Strings are `seq<char>`, and
digits are ASCII `'0'..'9'`.

Where the bot's `handle_text` and `_save_review` disagree with
`review_service.save_review`, each is modelled as written:

- the router imports an `insert_watched` from `app/db/repositories/watched.py`
  (app/bot/router.py:12), and that module does not define one;
- the router's save is modelled with the insert-if-absent semantics of the
  importer's `insert_watched`, and it does not recompute the profile;
- the service merges through `upsert_watched` and recomputes the profile.

`recommend_v1` has the same kind of gap. Its imports (app/recommender/v1.py:19-20)
name three functions that the imported modules do not define:

- `get_film_meta_embeddings` and `get_review_embeddings_by_watched_ids` are not
  defined in `app/db/repositories/embeddings.py`;
- `set_avoids_json` is not defined in `app/db/repositories/taste_profile.py`.

As written, importing the module raises `ImportError`. The model assumes
what those calls evidently stand for:

- the stored film and review embeddings are inputs (`RecommendV1.V1Inputs`);
- the result of `SoftAvoid.UpdatedAvoids`, carried in the result's
  `avoidsUpdate`, stands for the `set_avoids_json` write.

The quirks of the source are kept:

- `_assign_strategy` tests `novelty >= 70`, so with novelty in [0, 1] the
  "adjacent" label comes only from `sim_like >= 0.30`;
- the v0 extra picks are checked for diversity against the safe and adjacent
  picks only;
- `pick_first` stops at the first present column, even a blank one;
- every profile recompute resets the avoidance patterns to `{}`;
- the worker marks jobs failed that it had already marked done;
- `upsert_watched` returns nothing;
- after the picks are chosen, the pattern stamping compares the untrimmed
  `str(p.get("id"))` with the fired ids, which are stripped. A pattern whose
  id has surrounding blanks therefore fires but is never stamped, and a
  pattern without an id is keyed "None". The stamping members
  (`SoftAvoid.StampAll`, `SoftAvoid.StampTriggered`, `SoftAvoid.UpdatedAvoids`)
  follow this as written. The corrected stamp and its cooldown property are
  listed under "## Findings".

## Model

| member | source | states |
|---|---|---|
| VectorMath.CosineSimilarity | app/recommender/vector_math.py:7-22 | the one-pass loop computes the cosine specification: 0 for an empty vector, vectors of different lengths or a zero squared norm, else dot over the product of the norms |
| VectorMath.CosineBounded | app/recommender/vector_math.py:9-22 | every similarity lies in [-1, 1] (by Cauchy–Schwarz) |
| VectorMath.CosineSymmetric | app/recommender/vector_math.py:13-22 | the similarity does not depend on the order of the arguments |
| VectorMath.CosineSelf | app/recommender/vector_math.py:13-22 | a vector with a non-zero component has similarity 1 with itself |
| VectorMath.CosineZeroVector | app/recommender/vector_math.py:20-21 | an all-zero vector has similarity 0 with anything |
| VectorMath.CauchySchwarz | app/recommender/vector_math.py:13-22 | the squared dot product is at most the product of the squared norms |
| VectorMath.Contributors | app/recommender/vector_math.py:31-33 | the pairs kept are those with a non-empty vector and a positive weight, never more than given |
| VectorMath.TotalWeight | app/recommender/vector_math.py:38-40 | the weight total of contributing pairs is positive |
| VectorMath.Accumulate | app/recommender/vector_math.py:36-37 | the inner loop adds `x * w` element-wise and fails, as the source's IndexError, exactly when the vector is longer than the accumulator |
| VectorMath.WeightedAverage | app/recommender/vector_math.py:25-43 | the loop returns the specification: no result without a contributing pair, an index error when a later vector is longer than the first, else the weighted sums over the total weight |
| VectorMath.IgnoredPairAnywhere | app/recommender/vector_math.py:32-33 | a pair with an empty vector or a non-positive weight changes the result nowhere in the list |
| VectorMath.AverageOfOne | app/recommender/vector_math.py:34-43 | one contributing pair averages to its own vector |
| V1Helpers.Clamp | app/recommender/v1.py:55-56 | the result lies in [lo, hi], is x inside the range and the nearer bound outside it |
| V1Helpers.DecadeFromReleaseDate | app/recommender/v1.py:59-65 | a decade exactly for a string with four leading digits; it is a multiple of ten in 0..9990 |
| V1Helpers.DecadeOfYear | app/recommender/v1.py:59-65 | the decade is the TMDB client's year of the same date rounded down to a multiple of ten |
| V1Helpers.GenreIdOf | app/recommender/v1.py:72-74 | an entry contributes an id only when it is a dict whose "id" is an int (bools included), and then that id |
| V1Helpers.ExtractGenreIds | app/recommender/v1.py:68-75 | the loop collects the genre-id specification of the payload |
| V1Helpers.GenreIdsInMembers | app/recommender/v1.py:68-75 | an id is extracted exactly when some entry contributes it |
| V1Helpers.GenreIdsOfDicts | app/recommender/v1.py:68-75 | a list of `{"id": n}` dicts gives back exactly its ids in order |
| V1Helpers.SoftAvoidParts | app/recommender/v1.py:83-111 | at most four parts: title, overview, genre names, keywords |
| V1Helpers.CollectGenreNames | app/recommender/v1.py:94-97 | the loop keeps the string names of dict entries |
| V1Helpers.CollectKeywordNames | app/recommender/v1.py:104-109 | the loop keeps string keywords and string names of dict entries |
| V1Helpers.BuildTextForSoftAvoid | app/recommender/v1.py:78-113 | the text is the parts joined by newlines |
| V1Helpers.GenresLine | app/recommender/v1.py:92-99 | the "genres: " part exactly when some genre has a string name |
| V1Helpers.KeywordsLine | app/recommender/v1.py:102-111 | the "keywords: " part with at most the first 25 names |
| V1Helpers.SoftAvoidTextStartsWithTitle | app/recommender/v1.py:84-87 | a non-empty string title is the first part and occurs in the text |
| V1Helpers.SoftAvoidTextHasKeyword | app/recommender/v1.py:102-113 | each of the first 25 keyword names occurs in the text |
| V1Helpers.RepeatPenaltyOf | app/recommender/v1.py:355-375 | the penalty lies in [0, 0.5] and is 0 when the context size is not positive |
| V1Helpers.RepeatPenaltyForCandidate | app/recommender/v1.py:355-375 | the loop computes the penalty specification |
| V1Helpers.RepeatPenaltyOfUnseen | app/recommender/v1.py:364-375 | a candidate whose first four genres and decade never occur in the context is not penalised |
| V1Helpers.RepeatPenaltyFirstFourGenres | app/recommender/v1.py:365-368 | genres after the fourth do not change the penalty |
| V1Helpers.GenreShareBounded | app/recommender/v1.py:366-368 | with counts in [0, total], the genre share is at most 0.2 per counted genre |
| V1Helpers.AssignStrategy | app/recommender/v1.py:181-186 | "safe" exactly when sim_like >= 0.45, "adjacent" exactly when below that and sim_like >= 0.30 or novelty >= 70 |
| V1Helpers.NoveltyNeverDecidesStrategy | app/recommender/v1.py:181-186 | for a novelty in [0, 1] the label is the one novelty 0 gives: "wildcard" exactly below 0.30 |
| SoftAvoid.FieldOr | app/recommender/v1.py:139-141 | `p.get(k, d) or d`: the stored value when truthy, else the default |
| SoftAvoid.CooldownDays | app/recommender/v1.py:141 | a missing or zero cooldown is 14 days |
| SoftAvoid.KeywordHit | app/recommender/v1.py:163-172 | the loop with its `break` answers exactly whether some stripped, lower-cased, non-blank string keyword occurs in the text |
| SoftAvoid.KeywordMatchesNow | app/recommender/v1.py:165-170 | one round of the keyword loop matches the keyword predicate |
| SoftAvoid.OutcomeOf | app/recommender/v1.py:135-176 | a pattern fires only as a dict with a non-blank id, and then with a positive penalty; its stamp holds it back only when the stamp parses to a moment with a UTC offset less than the cooldown before now and the cooldown lies within the ±999999999 days `timedelta` accepts |
| SoftAvoid.Outcomes | app/recommender/v1.py:134 | one outcome per pattern |
| SoftAvoid.OutcomesAt | app/recommender/v1.py:134 | the i-th outcome is the i-th pattern's |
| SoftAvoid.OutcomesWellFormed | app/recommender/v1.py:143-176 | every outcome of a pattern list is well formed (positive penalty, non-blank id) |
| SoftAvoid.Tally | app/recommender/v1.py:131-176 | never more fired ids than patterns |
| SoftAvoid.TallyStep | app/recommender/v1.py:174-176 | a conversion failure aborts the accumulation; otherwise at most one id is added |
| SoftAvoid.TallyPrefix | app/recommender/v1.py:134-176 | the accumulation over one more pattern is one more step |
| SoftAvoid.TallyBounds | app/recommender/v1.py:131-178 | the total is never negative, positive exactly when some pattern fired, and every fired id is non-blank |
| SoftAvoid.SoftAvoidPenaltyOf | app/recommender/v1.py:116-178 | no text or no dict of avoids gives (0, []); any result has a non-negative total that is positive exactly when an id fired |
| SoftAvoid.PatternStep | app/recommender/v1.py:135-176 | one round of the pattern loop computes the pattern's outcome |
| SoftAvoid.SoftAvoidPenalty | app/recommender/v1.py:116-178 | the method computes the penalty specification |
| SoftAvoid.TallyPatterns | app/recommender/v1.py:131-178 | the pattern loop computes the tally of the outcomes |
| SoftAvoid.Accumulate | app/recommender/v1.py:174-176 | one accumulation step of the loop |
| SoftAvoid.TallyRaisedStays | app/recommender/v1.py:139-141 | once a conversion raised, later patterns do not matter |
| SoftAvoid.TallyAppend | app/recommender/v1.py:131-178 | on a concatenation the totals add and the fired ids concatenate in pattern order |
| SoftAvoid.SinglePatternFires | app/recommender/v1.py:143-176 | one pattern fires exactly when its id is non-blank, confidence >= 0.6, weight < 0, it is out of cooldown and a keyword occurs; it then contributes -weight. A stamp that does not parse, a stamp without a UTC offset and a cooldown beyond ±999999999 days never hold it back, as the swallowed exception at app/recommender/v1.py:156-157 lets it through |
| SoftAvoid.WithStamp | app/recommender/v1.py:521 | `last_triggered` becomes the current moment and no other key changes |
| SoftAvoid.PaddedIdNeverStamped | app/recommender/v1.py:138 | as written: a pattern with id " x " fires as "x" but the stamping compares the untrimmed id and leaves it unstamped (also app/recommender/v1.py:520) |
| SoftAvoid.StampedPatternCoolsDown | app/recommender/v1.py:150-155 | corrected: a fired, chosen pattern stamped with the current moment and a cooldown of 1 to 999999999 days cannot fire again at that moment (also app/recommender/v1.py:519-521) |
| SoftAvoid.OverflowingCooldownFiresAgain | app/recommender/v1.py:152-157 | a fired pattern whose cooldown exceeds 999999999 days, where `timedelta` raises and the exception is swallowed, fires again with the same penalty however it is stamped |
| SoftAvoid.StampAgreesOnTrimmedIds | app/recommender/v1.py:520 | for a string id without surrounding blanks the as-written stamp and the corrected stamp agree (also app/recommender/v1.py:138) |
| SoftAvoid.MissingIdKeyedNone | app/recommender/v1.py:520 | a pattern without an id is compared under "None", where the firing side reads it as blank (also app/recommender/v1.py:138) |
| SoftAvoid.StampAll | app/recommender/v1.py:519-521 | the pattern list keeps its length, each pattern stamped under the as-written key |
| SoftAvoid.StampAllAt | app/recommender/v1.py:519-521 | each pattern is stamped on its own, by the as-written comparison of `str(p.get("id"))` |
| SoftAvoid.StampTriggered | app/recommender/v1.py:519-521 | the in-place loop over the pattern array leaves exactly the as-written stamped list |
| SoftAvoid.StampStep | app/recommender/v1.py:519-521 | one round of the in-place loop extends the stamped prefix and leaves the rest alone |
| SoftAvoid.StampOne | app/recommender/v1.py:520-521 | a dict whose untrimmed `str(p.get("id"))` is chosen gets `last_triggered`; anything else is left as it is |
| SoftAvoid.ChosenIds | app/recommender/v1.py:517 | an id is chosen exactly when it fired for some selected pick |
| SoftAvoid.UpdatedAvoids | app/recommender/v1.py:513-523 | a write happens exactly with a profile, a non-empty pattern list and some chosen id; it keeps every other key and the list's length |
| SoftAvoid.StampEffect | app/recommender/v1.py:520-521 | a pattern changes only when it is a dict whose untrimmed id text is chosen, and then only its `last_triggered` |
| SoftAvoid.UpdatedAvoidsStampsOnlyFired | app/recommender/v1.py:513-523 | a pattern is stamped exactly when it is a dict whose untrimmed `str(p.get("id"))` is among the fired ids of a chosen pick; others stay as they were, and a stamped one keeps every other key |
| Mmr.RemoveAt | app/recommender/v1.py:205-233 | `list.pop(i)` removes exactly that element: one shorter, the same multiset less it |
| Mmr.SelectedSimilarity | app/recommender/v1.py:218-223 | the redundancy against the selected picks lies in [0, 1] |
| Mmr.Redundancy | app/recommender/v1.py:214-223 | a candidate without an embedding has redundancy 0.2, any other a redundancy in [0, 1] |
| Mmr.MmrValues | app/recommender/v1.py:213-225 | one MMR value per remaining candidate, each `0.75 * base - 0.25 * redundancy` |
| Mmr.FirstMaxIndex | app/recommender/v1.py:226-228 | the scan that replaces the best only on a strictly larger value keeps the earliest maximum |
| Mmr.PickIndex | app/recommender/v1.py:210-233 | a round takes an index inside the remaining list |
| Mmr.SortedByBaseScore | app/recommender/v1.py:197-198 | the stable descending sort by base score is a permutation of the input |
| Mmr.SelectedSimilarityLoop | app/recommender/v1.py:218-223 | the inner loop over the selected picks computes the redundancy specification |
| Mmr.FirstMaxIndexStep | app/recommender/v1.py:226-228 | one more value moves the best index only when strictly larger |
| Mmr.CandidateMmr | app/recommender/v1.py:214-225 | the value the scan computes for one candidate |
| Mmr.BestIndex | app/recommender/v1.py:210-228 | the scan over the remaining candidates returns the earliest maximum of their MMR values |
| Mmr.MmrLoopUnfold | app/recommender/v1.py:203-238 | a later round pops the best candidate and appends it unless its id was already picked |
| Mmr.MmrSelect | app/recommender/v1.py:188-240 | the while loop computes the selection specification |
| Mmr.MmrLoopFacts | app/recommender/v1.py:203-240 | the loop only appends, stops at k picks and takes every pick from the candidates |
| Mmr.MmrLoopDistinct | app/recommender/v1.py:234-238 | picks keep pairwise distinct ids |
| Mmr.MmrLoopCount | app/recommender/v1.py:203-238 | with distinct ids every round adds one pick |
| Mmr.MmrSelectBounded | app/recommender/v1.py:188-240 | at most k picks (none for k <= 0), a sub-multiset of the input |
| Mmr.MmrSelectDistinct | app/recommender/v1.py:201-238 | the picks have pairwise distinct ids |
| Mmr.MmrSelectCount | app/recommender/v1.py:203-240 | for distinct input, min(k, N) picks |
| Mmr.MmrSelectStartsWithBest | app/recommender/v1.py:197-206 | the first pick is the head of the base-score order |
| Mmr.MmrSelectFirst | app/recommender/v1.py:197-206 | the first pick is the earliest candidate with the largest base score |
| Mmr.PickIsEarliestBestMmr | app/recommender/v1.py:210-233 | a later round picks the earliest remaining candidate of largest MMR value |
| Dedupe.FindId | app/recommender/v1.py:266 | the dict lookup: the entry's position when the id is stored, else no entry has it |
| Dedupe.DedupePool | app/recommender/v1.py:261-274 | the loop computes the de-duplication specification |
| Dedupe.PlaceDistinct | app/recommender/v1.py:266-273 | one placement keeps the dict's ids distinct |
| Dedupe.PlaceFromPool | app/recommender/v1.py:266-273 | every stored entry comes from the pool |
| Dedupe.FindIdAfterPlace | app/recommender/v1.py:266-273 | a stored id stays stored |
| Dedupe.PlaceCovers | app/recommender/v1.py:264-273 | every non-zero id seen is stored |
| Dedupe.PlaceBest | app/recommender/v1.py:269-273 | the stored entry has the best quality among the pool entries of its id |
| Dedupe.FindIdAppend | app/recommender/v1.py:266 | a first occurrence keeps its position when the list grows, and a new id is found at the end |
| Dedupe.AppendFirstOfBest | app/recommender/v1.py:266-267 | a new id's entry is the first pool element with that id |
| Dedupe.ReplaceFirstOfBest | app/recommender/v1.py:269-273 | a strictly better element replacing an entry is the first of its quality |
| Dedupe.KeepFirstOfBest | app/recommender/v1.py:269-273 | an element that is not better leaves the earliest best entry in place |
| Dedupe.PlaceFirstOfBest | app/recommender/v1.py:264-273 | one placement keeps each entry the earliest of its id with its quality |
| Dedupe.PlaceOrder | app/recommender/v1.py:264-273 | one placement keeps entries in the order their ids first occur |
| Dedupe.AppendOrder | app/recommender/v1.py:266-267 | a new id is inserted after every stored id |
| Dedupe.SameIdsOrder | app/recommender/v1.py:268-273 | skipping or replacing in place keeps the insertion order |
| Dedupe.DedupeFacts | app/recommender/v1.py:261-274 | ids distinct, entries from the pool, every non-zero id present, no pool element of an id better than its entry; among equal-quality elements the earliest is kept; entries in the order their ids first occur; with `vote + popularity / 100` here and with the quality score for `_dedupe_candidates` of recommend_v0 |
| Candidates.FilterOf | app/recommender/v1.py:403-412 | the filter never grows the pool |
| Candidates.FilterMembers | app/recommender/v1.py:405-412 | a candidate survives exactly when it is in the pool and neither watched, recently recommended nor a seed |
| Candidates.FilterAppend | app/recommender/v1.py:405-412 | the filter keeps the pool's order |
| Candidates.FilterCandidates | app/recommender/v1.py:403-412 | the loop computes the filter specification |
| Candidates.FilterKeepsDistinct | app/recommender/v1.py:405-412 | distinct ids stay distinct |
| RecommendV1.CandidateVectors | app/recommender/v1.py:420-428 | exactly the stored embeddings of the candidate ids, unchanged |
| RecommendV1.MinNeeded | app/recommender/v1.py:431 | `max(10, count * 2)`: at least both and equal to one of them |
| RecommendV1.FirstOccurrences | app/recommender/v1.py:448 | `dict.fromkeys` never lengthens the list |
| RecommendV1.FirstOccurrencesFacts | app/recommender/v1.py:448 | the result has no duplicates and holds exactly the ids of the input |
| RecommendV1.ContextIdsFacts | app/recommender/v1.py:445-448 | at most 80 distinct ids, each among the first 60 recent recommendations or the recent watches |
| RecommendV1.TotalContext | app/recommender/v1.py:451 | at least 1, the context size when there is one |
| RecommendV1.AddAll | app/recommender/v1.py:346-347 | counting never drops a key |
| RecommendV1.DecadeCountsBounded | app/recommender/v1.py:344-350 | each decade count lies between 0 and the context size |
| RecommendV1.RepeatContextCounts | app/recommender/v1.py:337-352 | a result exactly when every context film's details were fetched (a missing one is the raised `TMDBError`), and then the genre and decade counting specifications |
| RecommendV1.CountContextFilm | app/recommender/v1.py:345-350 | one context film adds one to each of its genres and to its decade, when it has one |
| RecommendV1.SimTo | app/recommender/v1.py:465-466 | a similarity in [-1, 1]; 0 without a target vector |
| RecommendV1.MaxSimRecent | app/recommender/v1.py:469-472 | the largest clipped similarity to a recent recommendation lies in [0, 1] |
| RecommendV1.Novelty | app/recommender/v1.py:473 | novelty lies in [0, 1] |
| RecommendV1.NoveltyFacts | app/recommender/v1.py:469-473 | with no recent vectors the novelty is 1; a non-zero vector among them gives 0 |
| RecommendV1.MaxSimRecentOfSelf | app/recommender/v1.py:470-472 | a non-zero vector found among the recent ones has maximal similarity 1 |
| RecommendV1.NoveltyOf | app/recommender/v1.py:469-473 | the loop computes the novelty specification |
| RecommendV1.BaseScoreRange | app/recommender/v1.py:483-489 | with every term in its range the score lies in [-2.2 - avoid, 1.9] |
| RecommendV1.AvoidLowersScore | app/recommender/v1.py:483-489 | a fired avoidance penalty lowers the score by exactly that penalty |
| RecommendV1.ScoreOf | app/recommender/v1.py:459-504 | the score is for the candidate's own id; a candidate whose details were not fetched raises, so there is no score |
| RecommendV1.ScoreOfWellScored | app/recommender/v1.py:465-504 | similarities in [-1, 1], novelty in [0, 1], repeat penalty in [0, 0.5], avoid penalty >= 0, score the weighted sum |
| RecommendV1.ScoredOf | app/recommender/v1.py:458-504 | never more scores than candidates |
| RecommendV1.ScoredFacts | app/recommender/v1.py:459-504 | every score is of a candidate with a non-empty vector and well formed |
| RecommendV1.ScoredPrefix | app/recommender/v1.py:459-504 | an exception in the loop stays raised one candidate later |
| RecommendV1.ScoredRaisedStays | app/recommender/v1.py:459-504 | an exception for any prefix ends the whole scoring |
| RecommendV1.SimilarityTo | app/recommender/v1.py:465-466 | the conditional cosine of the source |
| RecommendV1.FilmKeywordMatches | app/recommender/v1.py:102-111 | a pattern keyword equal to one of the film's first 25 keywords always matches the film's text (also app/recommender/v1.py:163-172) |
| RecommendV1.ScoreCandidate | app/recommender/v1.py:460-504 | one round of the scoring loop computes the candidate's score specification, including the raise for missing details |
| RecommendV1.ScoreCandidates | app/recommender/v1.py:458-504 | the loop computes the scoring specification |
| RecommendV1.PicksOf | app/recommender/v1.py:526-537 | one pick per selected candidate, in order, labelled by the strategy rule |
| RecommendV1.TriggeredOf | app/recommender/v1.py:517 | the fired ids of each selected candidate |
| RecommendV1.CandidatesFacts | app/recommender/v1.py:386-434 | every candidate reaching scoring is a pool film with a non-zero id that is not watched, recently recommended or a seed |
| RecommendV1.SelectedFromScored | app/recommender/v1.py:510 | every selected score is a scored candidate |
| RecommendV1.SelectionFacts | app/recommender/v1.py:510-537 | the picks of one scored list: at most count, distinct, none excluded, each with a stored embedding |
| RecommendV1.RecommendV1Picks | app/recommender/v1.py:378-539 | at most `count` picks with distinct ids; none watched, recently recommended or a seed; each had a non-empty stored embedding |
| RecommendV1.RecommendV1Gate | app/recommender/v1.py:431-434 | with fewer candidate embeddings than `max(10, 2 * count)` there are no picks and no write |
| RecommendV1.RecommendV1MissingDetails | app/recommender/v1.py:337-352 | past the embedding gate, a context film whose details were not fetched ends the call with no result |
| RecommendV1.RecommendV1NoSeeds | app/recommender/v1.py:386-390 | without seeds there are no picks |
| RecommendV1.RecommendV1Stamps | app/recommender/v1.py:513-523 | the write needs a profile; it changes exactly the patterns whose untrimmed id fired for a selected pick, and stamps those |
| RecommenderV0.NormalizeWeights | app/recommender/v0.py:30-34 | {} for a non-positive total, else every genre of the counts and only those, each weighted count / total |
| RecommenderV0.WeightTotalPrefix | app/recommender/v0.py:34 | the weights of a prefix add up to its share of the total |
| RecommenderV0.NormalizedWeightsSumToOne | app/recommender/v0.py:30-34 | with a positive total the weights add up to 1 |
| RecommenderV0.QualityScore | app/recommender/v0.py:37-43 | with a vote in [0, 10] and a non-negative popularity the quality lies in [0, 1] |
| RecommenderV0.QualityScoreSaturates | app/recommender/v0.py:42 | popularity beyond 80 adds nothing |
| RecommenderV0.GenreOverlap | app/recommender/v0.py:46-49 | 0 without genre ids or without weights |
| RecommenderV0.SumWeightsAppend | app/recommender/v0.py:49 | the overlap sum splits over concatenated genre lists |
| RecommenderV0.SumWeightsOfUnknown | app/recommender/v0.py:49 | genres without a weight contribute nothing |
| RecommenderV0.SumWeightsNonNegative | app/recommender/v0.py:49 | with non-negative weights the overlap is non-negative |
| RecommenderV0.GenreSet | app/recommender/v0.py:65 | the genre set is empty exactly when there are no genre ids |
| RecommenderV0.IsDiverseEnough | app/recommender/v0.py:52-71 | the loop answers the diversity predicate: no chosen film with genres has the same genre set |
| RecommenderV0.OptionOf | app/recommender/v0.py:130-135 | what a candidate offers under a picker's rule is a pick of that candidate (also app/recommender/v0.py:153-186, app/recommender/v0.py:199-221) |
| RecommenderV0.Offers | app/recommender/v0.py:130 | one offer per candidate (also app/recommender/v0.py:153, app/recommender/v0.py:199) |
| RecommenderV0.OffersAt | app/recommender/v0.py:130 | the i-th offer is the i-th candidate's (also app/recommender/v0.py:153, app/recommender/v0.py:199) |
| RecommenderV0.BestOfferIsEarliestMax | app/recommender/v0.py:134 | the kept offer is the earliest of maximal score; none exactly when every candidate is skipped (also app/recommender/v0.py:180, app/recommender/v0.py:215) |
| RecommenderV0.PickBestIsEarliestMax | app/recommender/v0.py:129-136 | a picker returns the offer of the earliest candidate with the highest score, and none exactly when all are skipped |
| RecommenderV0.PickBestStep | app/recommender/v0.py:134 | one round replaces the best only on a strictly higher score (also app/recommender/v0.py:180, app/recommender/v0.py:215) |
| RecommenderV0.PickSafeFacts | app/recommender/v0.py:125-136 | `_pick_safe` is None only for no candidates, else the earliest candidate of highest `0.75 * overlap + 0.25 * quality` |
| RecommenderV0.PickAdjacentFacts | app/recommender/v0.py:139-187 | `_pick_adjacent` never returns the safe film or one with overlap below 0.12 |
| RecommenderV0.PickWildcardFacts | app/recommender/v0.py:190-222 | `_pick_wildcard` never returns a chosen film or one with overlap above 0.18 |
| RecommenderV0.PickSafe | app/recommender/v0.py:125-136 | the loop computes the safe picker's specification |
| RecommenderV0.PickAdjacent | app/recommender/v0.py:139-187 | the loop computes the adjacent picker's specification |
| RecommenderV0.AdjacentBonusOf | app/recommender/v0.py:164-177 | the bonus added up step by step: 0.15 for another language, 0.12 for ten years apart, 0.10 for other genres |
| RecommenderV0.PickWildcard | app/recommender/v0.py:190-222 | the loop computes the wildcard picker's specification |
| RecommenderV0.Ranked | app/recommender/v0.py:324-328 | the ranking is a permutation of the filtered films |
| RecommenderV0.FillFacts | app/recommender/v0.py:329-339 | the fill only appends picks "safe" with score 0.0 of ranked films not picked before, keeping ids unique |
| RecommenderV0.FillChecksDiversity | app/recommender/v0.py:335 | each added film is diverse against the films chosen before it |
| RecommenderV0.FillKeepsChosenPrefix | app/recommender/v0.py:339 | the chosen films are only appended to |
| RecommenderV0.Fill | app/recommender/v0.py:330-339 | the loop with its `break` computes the fill specification |
| RecommenderV0.PyPrefix | app/recommender/v0.py:341 | Python's `xs[:n]`, a negative n dropping items from the end |
| RecommenderV0.WithAdjacentFacts | app/recommender/v0.py:308-316 | one or two distinct picks, the safe one first, the chosen films matching them |
| RecommenderV0.WithWildcardFacts | app/recommender/v0.py:318-320 | the wildcard, when there is one, is appended with an id not picked before |
| RecommenderV0.SelectCorePicks | app/recommender/v0.py:300-320 | the method computes the safe/adjacent/wildcard specification |
| RecommenderV0.RecommendV0 | app/recommender/v0.py:285-341 | the method computes the recommendation specification |
| RecommenderV0.RecommendV0Empty | app/recommender/v0.py:260-297 | no seeds, or nothing left after the filter, gives no picks |
| RecommenderV0.FilteredFacts | app/recommender/v0.py:282-294 | the filtered films have distinct ids and are pool films, non-zero, not excluded |
| RecommenderV0.CorePicksFacts | app/recommender/v0.py:300-320 | one to three distinct picks from the candidates, the safe one first |
| RecommenderV0.CorePicksLeaveOutWildcard | app/recommender/v0.py:309-335 | the films the fill checks diversity against are the safe and adjacent ones; the wildcard is left out |
| RecommenderV0.AllPicksFacts | app/recommender/v0.py:300-339 | all picks before the cut have distinct ids and come from the filtered films |
| RecommenderV0.RecommendV0Picks | app/recommender/v0.py:244-341 | at most `count` picks for a non-negative count, pairwise distinct, none watched, recently recommended or a seed |
| RecommenderV0.PicksNotExcluded | app/recommender/v0.py:285-294 | picks of filtered films are never excluded |
| RecommenderV0.PrefixKeepsPicks | app/recommender/v0.py:341 | the cut keeps the picks' properties |
| RecommenderV0.RecommendV0FirstIsSafe | app/recommender/v0.py:300-341 | with a positive count the first pick is the safe pick |
| TasteProfileV0.DecadeFromYear | app/recommender/taste_profile_v0.py:22-25 | no decade exactly for a missing or zero year, else the multiple of ten at or below the year (floor division) |
| TasteProfileV0.FormatDecade | app/recommender/taste_profile_v0.py:34-35 | the label ends in "-е" |
| TasteProfileV0.Bump | app/recommender/taste_profile_v0.py:128-140 | `counts[k] = counts.get(k, 0) + 1`: k's count rises by one, no other count changes, an existing key keeps its place and a new one goes last |
| TasteProfileV0.BumpKeepsDistinct | app/recommender/taste_profile_v0.py:128-140 | counting keeps the dict's keys distinct |
| TasteProfileV0.CountOfMissing | app/recommender/taste_profile_v0.py:128 | a key not in the dict counts 0 |
| TasteProfileV0.GenreStep | app/recommender/taste_profile_v0.py:123-130 | an entry without an int id changes nothing |
| TasteProfileV0.IdOccurrences | app/recommender/taste_profile_v0.py:122-128 | never more occurrences than entries |
| TasteProfileV0.IngestGenres | app/recommender/taste_profile_v0.py:118-130 | the loop computes the genre-ingest specification |
| TasteProfileV0.IngestGenresCounts | app/recommender/taste_profile_v0.py:122-128 | each id is counted once per entry carrying it; nothing else changes |
| TasteProfileV0.IngestGenresNames | app/recommender/taste_profile_v0.py:129-130 | a genre has a name only if it had one or an entry carried its id |
| TasteProfileV0.IngestGenresNamesNonEmpty | app/recommender/taste_profile_v0.py:129-130 | only non-empty names are recorded |
| TasteProfileV0.IngestGenresDistinct | app/recommender/taste_profile_v0.py:118-130 | the genre counts keep distinct keys |
| TasteProfileV0.ReleaseYear | app/recommender/taste_profile_v0.py:134-137 | a year read from four leading digits lies in 0..9999 |
| TasteProfileV0.BumpCountry | app/recommender/taste_profile_v0.py:150-153 | a new code is added with its name and count 1; an existing one keeps its name and counts one more |
| TasteProfileV0.IngestLikedExtra | app/recommender/taste_profile_v0.py:132-153 | the method computes the liked-extras specification |
| TasteProfileV0.CodeOccurrences | app/recommender/taste_profile_v0.py:145-150 | never more occurrences than entries |
| TasteProfileV0.IngestCountriesCounts | app/recommender/taste_profile_v0.py:143-153 | a country is counted once per entry with its code |
| TasteProfileV0.IngestCountriesKeepNames | app/recommender/taste_profile_v0.py:151-152 | a country keeps the name it was first seen with |
| TasteProfileV0.NoDecadeWithoutYear | app/recommender/taste_profile_v0.py:134-140 | a release date without four leading digits adds no decade |
| TasteProfileV0.RatedOf | app/recommender/taste_profile_v0.py:83-87 | never more films than rows |
| TasteProfileV0.CollectRated | app/recommender/taste_profile_v0.py:83-87 | the loop computes the rated-films specification |
| TasteProfileV0.RatedMembers | app/recommender/taste_profile_v0.py:84-87 | a film is kept exactly when its row has an id and a rating |
| TasteProfileV0.LikedOf | app/recommender/taste_profile_v0.py:89 | never more liked films than rated ones |
| TasteProfileV0.DislikedOf | app/recommender/taste_profile_v0.py:90 | never more disliked films than rated ones |
| TasteProfileV0.SplitMembers | app/recommender/taste_profile_v0.py:89-90 | liked films are exactly the rated ones at or above the like threshold, disliked exactly those at or below the dislike threshold |
| TasteProfileV0.LikedAndDislikedApart | app/recommender/taste_profile_v0.py:89-90 | with the dislike threshold below the like threshold no film is both |
| TasteProfileV0.CountStats | app/recommender/taste_profile_v0.py:155-166 | the two loops compute the statistics specification |
| TasteProfileV0.DislikedKeepsLikes | app/recommender/taste_profile_v0.py:162-166 | disliked films never touch the liked counts |
| TasteProfileV0.SkippedWithoutPayload | app/recommender/taste_profile_v0.py:156-165 | a film without a usable payload changes nothing |
| TasteProfileV0.Denominator | app/recommender/taste_profile_v0.py:29 | `sum or 1` is never zero |
| TasteProfileV0.RankCounts | app/recommender/taste_profile_v0.py:30 | the sort by count is a permutation |
| TasteProfileV0.ItemsOf | app/recommender/taste_profile_v0.py:31 | one item per ranked entry with its key and count |
| TasteProfileV0.TopItems | app/recommender/taste_profile_v0.py:28-31 | min(N, topN) items |
| TasteProfileV0.TopItemsFacts | app/recommender/taste_profile_v0.py:28-31 | items in falling count, each an entry of the counts, each score the count's share rounded to four places |
| TasteProfileV0.TopItemsKeepTies | app/recommender/taste_profile_v0.py:30 | among equal counts the first inserted comes first (stable sort) |
| TasteProfileV0.TopCountries | app/recommender/taste_profile_v0.py:174-178 | at most eight countries |
| TasteProfileV0.TopCountriesOrdered | app/recommender/taste_profile_v0.py:174-178 | countries in falling count, each a counted country |
| TasteProfileV0.HydrateGenres | app/recommender/taste_profile_v0.py:181-186 | one genre per item with its id, count and score; with non-empty recorded names every genre has a name |
| TasteProfileV0.HydrateDecades | app/recommender/taste_profile_v0.py:188-189 | one decade per item with its key and count |
| TasteProfileV0.DecadeLabels | app/recommender/taste_profile_v0.py:52 | each decade shown by its label |
| TasteProfileV0.Section | app/recommender/taste_profile_v0.py:49-57 | a line exactly when there are names |
| TasteProfileV0.SummaryParts | app/recommender/taste_profile_v0.py:42-57 | one line for each non-empty list of liked genres, decades, countries and disliked genres |
| TasteProfileV0.BuildSummary | app/recommender/taste_profile_v0.py:38-62 | the method computes the summary specification |
| TasteProfileV0.SummaryPartsStart | app/recommender/taste_profile_v0.py:49-60 | every summary line starts differently from the little-data message |
| TasteProfileV0.SectionStart | app/recommender/taste_profile_v0.py:50 | a line starts with its heading |
| TasteProfileV0.SummaryLittleData | app/recommender/taste_profile_v0.py:59-60 | the little-data message exactly when there is nothing to show |
| TasteProfileV0.SectionShowsName | app/recommender/taste_profile_v0.py:50 | each of the first n names is on its line |
| TasteProfileV0.SummaryShowsLikedGenre | app/recommender/taste_profile_v0.py:50 | each of the first five liked genre names is shown |
| TasteProfileV0.SummaryShowsDislikedGenre | app/recommender/taste_profile_v0.py:56-57 | each of the first five disliked genre names is shown |
| TasteProfileV0.ComputeProfile | app/recommender/taste_profile_v0.py:83-206 | the recompute computes the profile specification; liked and disliked counts are at most the rated films used, at most the rows |
| TasteProfileV0.WeightsJson | app/recommender/taste_profile_v0.py:191-204 | the stored weights are a JSON object with version "v0" |
| TasteProfileV0.GenreItemsJson | app/recommender/taste_profile_v0.py:185 | one JSON item per genre |
| TasteProfileV0.DecadeItemsJson | app/recommender/taste_profile_v0.py:189 | one JSON item per decade |
| TasteProfileV0.CountryItemsJson | app/recommender/taste_profile_v0.py:175-178 | one JSON item per country |
| EmbeddingText.ReviewHeader | app/recommender/embedding_text.py:23 | the header starts "Movie:" |
| EmbeddingText.RatingLine | app/recommender/embedding_text.py:25 | the rating line ends "/5" |
| EmbeddingText.ReviewParts | app/recommender/embedding_text.py:22-27 | the header first, the rating line second when a rating is given, the stripped review last when not blank, and nothing else |
| EmbeddingText.BuildReviewText | app/recommender/embedding_text.py:21-28 | the method computes the review-text specification |
| EmbeddingText.JoinedStartsWith | app/recommender/embedding_text.py:28-46 | the joined text opens with the first section's head |
| EmbeddingText.SectionShown | app/recommender/embedding_text.py:28-46 | a section ending in a non-space survives the final strip |
| EmbeddingText.ReviewTextHeader | app/recommender/embedding_text.py:23-28 | the review text opens with "Movie:" |
| EmbeddingText.ReviewTextShowsYear | app/recommender/embedding_text.py:23 | a truthy year is shown in parentheses after the title |
| EmbeddingText.ReviewTextShowsRating | app/recommender/embedding_text.py:24-25 | a given rating is shown as "User rating: r/5" |
| EmbeddingText.ReviewTextShowsReview | app/recommender/embedding_text.py:26-27 | a non-blank review is shown stripped under its heading |
| EmbeddingText.ReviewTextHeaderOnly | app/recommender/embedding_text.py:21-28 | without a rating and with a blank review the text is the stripped header alone |
| EmbeddingText.MetaHeader | app/recommender/embedding_text.py:36 | the header starts "Title:" |
| EmbeddingText.MetaParts | app/recommender/embedding_text.py:35-44 | title first, then genres, keywords, runtime and overview in that order, each present exactly when there is something to show |
| EmbeddingText.BuildFilmMetaText | app/recommender/embedding_text.py:31-46 | the method computes the metadata-text specification over the given details and keywords |
| EmbeddingText.MetaTextHeader | app/recommender/embedding_text.py:36-46 | the metadata text opens with "Title:" |
| EmbeddingText.MetaTextShowsRuntime | app/recommender/embedding_text.py:41-42 | a truthy runtime is shown in minutes |
| EmbeddingText.MetaTextShowsKeyword | app/recommender/embedding_text.py:39-40 | each of the first twenty keywords is listed |
| EmbeddingText.KeywordLineShows | app/recommender/embedding_text.py:40 | the keyword line holds each of the first twenty keywords |
| EmbeddingText.MetaTextShowsOverview | app/recommender/embedding_text.py:43-44 | a non-blank overview is shown stripped under its heading |
| EmbeddingText.MetaTextShowsGenres | app/recommender/embedding_text.py:37-38 | every genre that ends in a non-space character is listed in the metadata text |
| Tmdb.SafeInt | app/integrations/tmdb.py:28-32 | None for None and for lists or dicts, an int as itself, a string only as a decimal literal |
| Tmdb.SafeIntOfDecimal | app/integrations/tmdb.py:28-32 | the decimal text of a number converts back to it |
| Tmdb.ExtractYear | app/integrations/tmdb.py:35-41 | a year exactly for a text with four leading digits, their value in 0..9999 |
| Tmdb.ExtractYearOfDate | app/integrations/tmdb.py:35-41 | the four-digit year written first in a date is read back |
| Tmdb.OptionalReal | app/integrations/tmdb.py:303-304 | None for None, an int or float as a real |
| Tmdb.IntsOf | app/integrations/tmdb.py:292-296 | the entries `int()` accepts, never more than given |
| Tmdb.IntsOfAppend | app/integrations/tmdb.py:292-296 | the loop keeps input order |
| Tmdb.IntsOfInts | app/integrations/tmdb.py:292-296 | a list of ints is kept whole |
| Tmdb.ExtractIntList | app/integrations/tmdb.py:291-296 | the inner loop computes the int-list specification |
| Tmdb.GenreIdsOf | app/integrations/tmdb.py:288-296 | genre ids exactly when the raw value is a list |
| Tmdb.EntryOf | app/integrations/tmdb.py:280-308 | a non-dict is skipped; a kept entry has a non-zero converted id, a non-empty title from `title or original_title`, its extracted year and genre ids |
| Tmdb.ParseCandidateList | app/integrations/tmdb.py:274-309 | the loop computes the candidate-list specification |
| Tmdb.EntryStep | app/integrations/tmdb.py:280-308 | one round of the loop computes the entry's outcome |
| Tmdb.ParseEntriesRaisedStays | app/integrations/tmdb.py:279-308 | once a conversion raised, later entries do not matter |
| Tmdb.ParseEntriesAppend | app/integrations/tmdb.py:279-308 | input order is kept |
| Tmdb.ParseCandidatesNonList | app/integrations/tmdb.py:276-277 | a non-list gives no candidates |
| Tmdb.ParsedCandidatesWellFormed | app/integrations/tmdb.py:284-285 | every kept candidate has a non-zero id and a non-empty title |
| Tmdb.NamesOf | app/integrations/tmdb.py:181-213 | the truthy names of dict entries, never empty, never more than given |
| Tmdb.NamesOfAppend | app/integrations/tmdb.py:181-184 | the loop keeps input order |
| Tmdb.CollectNames | app/integrations/tmdb.py:179-184 | the loop computes the names of a list, none for a non-list |
| Tmdb.DetailsFromPayload | app/integrations/tmdb.py:175-193 | the record's title is `title or original_title or ""`, with the extracted year, converted runtime, genre names and the overview as text when present |
| Tmdb.KeywordsFromPayload | app/integrations/tmdb.py:208-214 | the keyword names of a list, none for a non-list, all non-empty |
| Tmdb.GetCached | app/integrations/tmdb.py:237-248 | the stored payload exactly while the row exists and has not expired |
| Tmdb.UpsertCache | app/integrations/tmdb.py:251-271 | the row holds the payload; other rows are untouched |
| Tmdb.CacheServedUntilTtl | app/integrations/tmdb.py:17 | a freshly cached payload is served until 30 days have passed; other entries as before (also app/integrations/tmdb.py:237-271) |
| Tmdb.TrendingWindow | app/integrations/tmdb.py:311-314 | only "day" and "week" pass, anything else becomes "day" |
| Letterboxd.DropApostrophes | app/scripts/import_letterboxd.py:40 | never longer; on lowered text the result is lowered and holds no apostrophe |
| Letterboxd.BlankPunctuation | app/scripts/import_letterboxd.py:41 | each character outside Latin or Cyrillic letters, digits and whitespace becomes a space; the rest stay in place |
| Letterboxd.CollapseFacts | app/scripts/import_letterboxd.py:42 | the collapse leaves the text single-spaced, empty only for empty input, and keeps it clean |
| Letterboxd.CollapseOfSingleSpaced | app/scripts/import_letterboxd.py:42 | a single-spaced text is left as it is |
| Letterboxd.SliceKeepsShape | app/scripts/import_letterboxd.py:42 | a slice of a clean single-spaced text is clean and single-spaced |
| Letterboxd.LowerStripShape | app/scripts/import_letterboxd.py:39 | stripping then lowering leaves only lowered characters |
| Letterboxd.NormalizedShape | app/scripts/import_letterboxd.py:32-43 | a normalised title is lower-case, free of apostrophes and punctuation, single-spaced and trimmed |
| Letterboxd.DropApostrophesOfClean | app/scripts/import_letterboxd.py:40 | text without apostrophes is unchanged |
| Letterboxd.NormalizeIdempotent | app/scripts/import_letterboxd.py:32-43 | normalising twice is normalising once |
| Letterboxd.ParseYear | app/scripts/import_letterboxd.py:46-56 | a year exactly for four trimmed digits in 1870..2100 |
| Letterboxd.NatToStringShort | app/scripts/import_letterboxd.py:52 | numbers below 1000 have at most three digits |
| Letterboxd.NatToStringLong | app/scripts/import_letterboxd.py:52 | numbers from 10000 have at least five digits |
| Letterboxd.ParseYearOfText | app/scripts/import_letterboxd.py:46-56 | a year written out reads back exactly when it lies in 1870..2100 |
| Letterboxd.StripOfDigits | app/scripts/import_letterboxd.py:49 | digit text is unchanged by stripping |
| Letterboxd.YearField | app/scripts/import_letterboxd.py:71 | `%Y` reads four digits, 0..9999 |
| Letterboxd.MonthField | app/scripts/import_letterboxd.py:71 | `%m` reads a month 1..12 |
| Letterboxd.DayField | app/scripts/import_letterboxd.py:71 | `%d` reads a day 1..31 |
| Letterboxd.ParseWith | app/scripts/import_letterboxd.py:72-73 | `strptime` with one format gives only existing dates |
| Letterboxd.FirstFormat | app/scripts/import_letterboxd.py:71-75 | the first format that reads the text gives an existing date |
| Letterboxd.ParseDateOf | app/scripts/import_letterboxd.py:59-75 | only existing dates; nothing for a missing or blank value |
| Letterboxd.ParseDate | app/scripts/import_letterboxd.py:59-75 | the loop over the formats computes the date specification |
| Letterboxd.TwoDigits | app/scripts/import_letterboxd.py:67-70 | two digits whose value is the number |
| Letterboxd.SplitNumeric | app/scripts/import_letterboxd.py:72-73 | a date text splits into its three digit fields on its separator and not on another |
| Letterboxd.FormatsInOrder | app/scripts/import_letterboxd.py:71 | ISO, then day/month/year, month/day/year and day.month.year |
| Letterboxd.NumericStripped | app/scripts/import_letterboxd.py:62 | a date text is unchanged by stripping |
| Letterboxd.FieldsOfDate | app/scripts/import_letterboxd.py:71 | the fields of a date read back; a day above 12 is no month |
| Letterboxd.ParseDateIso | app/scripts/import_letterboxd.py:67-73 | an ISO date reads back as itself |
| Letterboxd.ParseDateDayFirst | app/scripts/import_letterboxd.py:68-73 | a day-first date reads back, with "/" or "." |
| Letterboxd.ParseDateMonthFirst | app/scripts/import_letterboxd.py:69-73 | a month-first date reads back only when its day cannot be a month; otherwise day and month swap |
| Letterboxd.Pow10 | app/scripts/import_letterboxd.py:105 | a power of ten is positive |
| Letterboxd.UnsignedDecimal | app/scripts/import_letterboxd.py:105 | an unsigned literal is never negative |
| Letterboxd.PointValue | app/scripts/import_letterboxd.py:105 | the value of "ip.fp" is never negative |
| Letterboxd.NearestHalf | app/scripts/import_letterboxd.py:111 | within a quarter of the input, on a half step |
| Letterboxd.ParseRatingOf | app/scripts/import_letterboxd.py:84-115 | a rating in 0..5 on a half step within a quarter of the number read; nothing for a missing or blank value |
| Letterboxd.DigitsFree | app/scripts/import_letterboxd.py:100 | digits contain no other character |
| Letterboxd.DigitsValueShort | app/scripts/import_letterboxd.py:105 | the value of one or two digits |
| Letterboxd.ParseDecimalOfDigits | app/scripts/import_letterboxd.py:105 | digit text reads as its value |
| Letterboxd.ParseDecimalOfPoint | app/scripts/import_letterboxd.py:105 | "ip.fp" reads as its value |
| Letterboxd.ParseRatingOfHalves | app/scripts/import_letterboxd.py:84-115 | every rating 0..5 in half steps reads back as itself |
| Letterboxd.ParseRatingHalfSymbol | app/scripts/import_letterboxd.py:100-101 | "d½" is d and a half |
| Letterboxd.QuarterValue | app/scripts/import_letterboxd.py:105 | "n.qq" reads as n + qq / 100 |
| Letterboxd.ParseRatingQuarters | app/scripts/import_letterboxd.py:111 | quarters round to the even half: "n.25" is n, "n.75" is n + 1 |
| Letterboxd.NearestHalfOfQuarters | app/scripts/import_letterboxd.py:111 | Python's half-to-even `round` on quarters |
| Letterboxd.ResolveKey | app/scripts/import_letterboxd.py:122-124 | the last header whose lowered, trimmed form is the key, or none with that form |
| Letterboxd.CellValue | app/scripts/import_letterboxd.py:126-130 | a value exactly for a present, non-blank cell, then trimmed |
| Letterboxd.PickFirstOf | app/scripts/import_letterboxd.py:118-131 | any value found is non-empty and trimmed |
| Letterboxd.PickFirst | app/scripts/import_letterboxd.py:118-131 | the loop computes the `pick_first` specification |
| Letterboxd.PickFirstFirstPresent | app/scripts/import_letterboxd.py:123-130 | the first key naming a column decides, even when its cell is blank |
| Letterboxd.PickFirstAbsent | app/scripts/import_letterboxd.py:131 | no key names a column: nothing is found |
| Letterboxd.ExtractFields | app/scripts/import_letterboxd.py:281-295 | title and review trimmed and non-empty, year in 1870..2100, rating in 0..5, an existing date |
| Letterboxd.TitleScore | app/scripts/import_letterboxd.py:154-159 | 5 exactly for equal normalised titles, else 2 or 0 |
| Letterboxd.YearScore | app/scripts/import_letterboxd.py:161-165 | 4 exactly for the wanted year, else 1.5 or 0 |
| Letterboxd.CappedBonus | app/scripts/import_letterboxd.py:167-170 | at most 1, non-negative for a non-negative value, 0 when missing |
| Letterboxd.ScoreCandidate | app/scripts/import_letterboxd.py:146-172 | a score of at most 11 |
| Letterboxd.ExactTitleAndYearScore | app/scripts/import_letterboxd.py:154-165 | the exact title in the wanted year scores at least 9 |
| Letterboxd.NoTitleMatchScore | app/scripts/import_letterboxd.py:154-172 | without a title match a candidate scores at most 6 |
| Letterboxd.ScoredBy | app/scripts/import_letterboxd.py:183 | each candidate paired with its own score |
| Letterboxd.RankedBy | app/scripts/import_letterboxd.py:184 | the ranking keeps every pair |
| Letterboxd.Firsts | app/scripts/import_letterboxd.py:186 | the candidates of the pairs in order |
| Letterboxd.TopOf | app/scripts/import_letterboxd.py:186 | at most five top candidates |
| Letterboxd.RankedScores | app/scripts/import_letterboxd.py:183-184 | every ranked pair carries its candidate's score |
| Letterboxd.TopOrdered | app/scripts/import_letterboxd.py:184-186 | the top candidates are in order of falling score |
| Letterboxd.TopFirstIsEarliestMax | app/scripts/import_letterboxd.py:184-187 | the best is the earliest candidate of highest score (stable sort) |
| Letterboxd.Decide | app/scripts/import_letterboxd.py:187-214 | chosen exactly on a strict match with score >= 8.5, or score >= 8 with lead >= 2.5, or >= 7 with lead >= 3.5; then confidence >= 0.75; else "ambiguous" with confidence in [0.2, 0.7] |
| Letterboxd.ChooseBest | app/scripts/import_letterboxd.py:175-214 | "no_candidates" exactly for no candidates; a chosen film is the first top candidate |
| Letterboxd.TopCandidatesOrdered | app/scripts/import_letterboxd.py:183-186 | the top candidates are in order of falling score |
| Letterboxd.ChosenIsEarliestBest | app/scripts/import_letterboxd.py:183-211 | whatever is chosen is the earliest candidate of highest score |
| Letterboxd.LoneCandidateChosen | app/scripts/import_letterboxd.py:188-211 | a lone candidate scoring 7 or more is chosen |
| Letterboxd.UniqueExactMatchChosen | app/scripts/import_letterboxd.py:195-202 | the exact title in the wanted year, among rivals without a title match, is chosen with confidence 0.95 |
| BotParsing.SkipSpace | app/bot/parsing.py:29 | `\s*` stops at the first non-space character |
| BotParsing.LeadingNumber | app/bot/parsing.py:29-45 | `\d(?:[.,]\d)?` reads at most 9.9, in tenths, with its length |
| BotParsing.Halves | app/bot/parsing.py:34-50 | `round(r * 2) / 2` on tenths is the nearest half |
| BotParsing.SlashFiveRest | app/bot/parsing.py:29 | the "/5" form's rest starts after the number |
| BotParsing.SpaceRest | app/bot/parsing.py:37 | the spaced form's rest starts after the number |
| BotParsing.ParseRating | app/bot/parsing.py:14-52 | none for blank text; any rating lies in 0..5 on a half step, is the rounded leading number of the stripped text, and comes with a stripped rest |
| BotParsing.RatingIn | app/bot/parsing.py:28-52 | on the stripped text: a result only for a leading number of at most 5, rated by that number, with a stripped rest |
| BotParsing.HalfStep | app/bot/parsing.py:34 | `round(r * 2) / 2` is a whole number of halves |
| BotParsing.ParseRatingOverFive | app/bot/parsing.py:33-49 | a leading number above 5 is refused whatever follows |
| BotParsing.ParseRatingNeedsDigit | app/bot/parsing.py:29-45 | text not starting with a digit has no rating |
| BotParsing.StripOfPlain | app/bot/parsing.py:24 | a text without surrounding blanks is unchanged by stripping |
| BotParsing.ParseRatingSlashForm | app/bot/parsing.py:28-34 | "d/5 rest" gives the digit and the rest |
| BotParsing.ParseRatingBareDigit | app/bot/parsing.py:44-50 | a bare digit 0..5 is a rating with no text |
| BotParsing.ParseRatingDecimal | app/bot/parsing.py:31-47 | "d.e" and "d,e" read the decimal, rounded to the nearest half |
| BotParsing.LeadingNumberOf | app/bot/parsing.py:29-45 | a one-digit or one-decimal number text not followed by "." or "," is read whole, as that number of tenths |
| BotParsing.ParseRatingSlashRest | app/bot/parsing.py:28-34 | any number up to 5 followed by "/5" and a single-line rest gives the rounded rating and the stripped rest |
| BotParsing.SlashFiveRestAt | app/bot/parsing.py:29 | with "/5" right after the number, the rest starts where the blanks after it end |
| BotParsing.SlashRatingIn | app/bot/parsing.py:29-34 | the slash pattern reads "r/5" and a tail as the rounded rating and the stripped tail |
| BotParsing.ParseRatingSpacedRest | app/bot/parsing.py:37-42 | any number up to 5, blanks and a single-line rest not opening with "/" give the rounded rating and the stripped rest |
| BotParsing.SpacedRatingIn | app/bot/parsing.py:37-50 | the spaced or the bare pattern reads "r", blanks and a tail as the rounded rating and the stripped tail |
| BotParsing.ParsedRestSingleLine | app/bot/parsing.py:29-37 | the rest never spans lines (`.` does not match a newline) |
| BotParsing.StripKeepsNoNewline | app/bot/parsing.py:34 | stripping keeps a text single-line |
| BotParsing.ParenthesisedYear | app/bot/parsing.py:64 | the "(YYYY)" year lies in 0..9999 |
| BotParsing.SpacedYear | app/bot/parsing.py:71 | the spaced year lies in 0..9999 |
| BotParsing.ParseTitleAndYear | app/bot/parsing.py:55-77 | a year in 0..9999, else the whole stripped text as the title |
| BotParsing.ParsedTitleTrimmed | app/bot/parsing.py:62-77 | the title that comes back is trimmed |
| BotParsing.ParseTitleParenthesised | app/bot/parsing.py:63-68 | "Title(YYYY)" gives the title and the year |
| BotParsing.ParseTitleSpaced | app/bot/parsing.py:70-75 | "Title YYYY" gives the title and the year |
| BotParsing.ParseTitleBareYear | app/bot/parsing.py:71-77 | a bare four-digit number is a title without a year |
| Validation.Invalid | app/core/validation.py:39-42 | a validation error |
| Validation.ValidateReviewText | app/core/validation.py:18-44 | nothing exactly for a missing or blank text; the stripped text when at most 5000 characters; otherwise a validation error |
| Validation.ValidateRating | app/core/validation.py:47-69 | passes exactly None and values in 0..5, unchanged |
| Validation.ValidateText | app/core/validation.py:85-127 | the stripped text exactly when non-empty and within the limit; the empty message when blank |
| Validation.ValidateMovieQuery | app/core/validation.py:72-98 | the stripped query exactly when non-empty and at most 200 characters |
| Validation.ValidateAvoidPattern | app/core/validation.py:101-127 | the stripped pattern exactly when non-empty and within the limit |
| Validation.ValidateCount | app/core/validation.py:130-151 | the count exactly when within the bounds |
| Validation.ValidateReviewTextIdempotent | app/core/validation.py:18-44 | validating an accepted review again changes nothing |
| Validation.ValidateMovieQueryIdempotent | app/core/validation.py:72-98 | validating an accepted query again changes nothing |
| Validation.ValidationBoundaries | app/core/validation.py:38 | 5000 characters pass and 5001 fail; a 200-character query passes; an over-long pattern fails (also app/core/validation.py:92, app/core/validation.py:121) |
| Policy.ShouldAskQuestions | app/llm/policy.py:3-19 | the first failing test among 15 rated films, 0.55 coverage and 0.18 similarity decides the reason; (false, "") exactly when all pass |
| Exceptions.NewError | app/core/exceptions.py:12-21 | the user message falls back to the message when missing or empty |
| Exceptions.InsufficientDataError | app/core/exceptions.py:66-74 | the user message names the required and actual counts |
| Exceptions.RateLimitError | app/core/exceptions.py:77-85 | both messages name the wait in seconds |
| EmbeddingsRepo.QueuedJob | app/db/repositories/embeddings.py:22-45 | whether it inserts or updates, an enqueue leaves the job pending, with no attempts, no error and no lock |
| EmbeddingsRepo.Claimed | app/db/repositories/embeddings.py:91-93 | a claimed job is processing, one attempt up, and otherwise unchanged |
| EmbeddingsRepo.Finished | app/db/repositories/embeddings.py:97-100 | a finished job is done with its error cleared, and otherwise unchanged |
| EmbeddingsRepo.FailedWith | app/db/repositories/embeddings.py:103-106 | a failed job keeps the first min(len, 4000) characters of the error, and is otherwise unchanged |
| EmbeddingsRepo.ApplyAll | app/db/repositories/embeddings.py:91-94 | applying a change to listed jobs keeps the set of jobs |
| EmbeddingsRepo.ApplyAllAt | app/db/repositories/embeddings.py:91-94 | with distinct keys, every listed job is changed once and no other job is touched |
| EmbeddingsRepo.ApplyAllKeepsRequest | app/db/repositories/embeddings.py:91-106 | the status changes keep every job's text, model and dimensions |
| EmbeddingsRepo.EmbeddingStore.constructor | app/db/repositories/embeddings.py:10-73 | both tables start empty |
| EmbeddingsRepo.EmbeddingStore.Enqueue | app/db/repositories/embeddings.py:10-47 | the job under (user, source type, source id) becomes the queued job; the embeddings are untouched |
| EmbeddingsRepo.EmbeddingStore.UpsertEmbedding | app/db/repositories/embeddings.py:50-73 | the embedding under the key becomes the given text and vector; the jobs are untouched |
| EmbeddingsRepo.EmbeddingStore.GetPendingJobs | app/db/repositories/embeddings.py:76-87 | distinct pending jobs, min(batch size, number pending) of them, in no fixed order |
| EmbeddingsRepo.EmbeddingStore.MarkJobsProcessing | app/db/repositories/embeddings.py:90-94 | every listed job is claimed in turn |
| EmbeddingsRepo.EmbeddingStore.MarkJobDone | app/db/repositories/embeddings.py:97-100 | the job becomes finished and nothing else changes |
| EmbeddingsRepo.EmbeddingStore.MarkJobFailed | app/db/repositories/embeddings.py:103-106 | the job becomes failed with the shortened error and nothing else changes |
| EmbeddingsRepo.EnqueuePending | app/db/repositories/embeddings.py:29-44 | an enqueue adds its key to the pending set and leaves the rest of that set as it was |
| EmbeddingsRepo.ClaimedJobs | app/db/repositories/embeddings.py:90-94 | each claimed job is processing with one more attempt and the same text |
| EmbeddingsRepo.ClaimingLeavesQueue | app/db/repositories/embeddings.py:82-94 | after a claim a job is pending exactly when it was pending and was not claimed |
| EmbeddingWorker.Texts | app/jobs/embedding_worker.py:56 | the provider receives one text per claimed job, in claim order |
| EmbeddingWorker.Written | app/jobs/embedding_worker.py:61-73 | no pair is written when the provider raises; otherwise at most the shorter of the jobs and the vectors |
| EmbeddingWorker.Failure | app/jobs/embedding_worker.py:55-76 | the error of a provider that raises is the one the block ends with; a block with no failing write ends without one |
| EmbeddingWorker.StoreAll | app/jobs/embedding_worker.py:64-72 | every written job has an embedding stored |
| EmbeddingWorker.WriteResults | app/jobs/embedding_worker.py:64-73 | the loop marks the written jobs done, stores their vectors, and returns the failure that stopped it |
| EmbeddingWorker.FailJobs | app/jobs/embedding_worker.py:75-79 | every claimed job is marked failed with the same text; no embedding changes |
| EmbeddingWorker.WorkerStep | app/jobs/embedding_worker.py:45-81 | one pass claims min(batch, pending) distinct pending jobs; it calls the provider only when the claim is non-empty, with the jobs' texts and the first job's model and dimensions; the new tables are those of the pass |
| EmbeddingWorker.StoreAllSameTexts | app/jobs/embedding_worker.py:64-72 | the stored embeddings depend only on the written jobs' texts (claiming leaves them alone) |
| EmbeddingWorker.StoreAllAt | app/jobs/embedding_worker.py:64-72 | the i-th written job gets the i-th vector with its own text |
| EmbeddingWorker.StoreAllElsewhere | app/jobs/embedding_worker.py:64-72 | embeddings of other keys stay as they were |
| EmbeddingWorker.IdlePass | app/jobs/embedding_worker.py:47-50 | a pass that finds no pending job changes nothing |
| EmbeddingWorker.UnclaimedUntouched | app/jobs/embedding_worker.py:45-81 | jobs and embeddings of keys that were not claimed are left alone |
| EmbeddingWorker.SuccessfulPass | app/jobs/embedding_worker.py:52-73 | on success each job paired with a vector is done, with its embedding stored; the jobs beyond the vectors stay processing; every claimed job is one attempt up |
| EmbeddingWorker.FailedPass | app/jobs/embedding_worker.py:75-79 | when the block raises, every claimed job ends failed with the shortened error, one attempt up |
| EmbeddingWorker.DoneJobMarkedFailed | app/jobs/embedding_worker.py:64-79 | a job whose embedding was already stored still ends failed when a later write raises |
| RateLimit.Check | app/db/repositories/rate_limit.py:11-78 | allowed exactly on a first use or once the interval has passed, and then the key's time becomes now; a refusal leaves the table alone and reports the remaining whole seconds, rounded down |
| RateLimit.RateLimiter.constructor | app/db/repositories/rate_limit.py:25-32 | the table starts empty |
| RateLimit.RateLimiter.CheckAndTouch | app/db/repositories/rate_limit.py:11-78 | the verdict and the new table are those of the check |
| RateLimit.FirstSecondThird | app/db/repositories/rate_limit.py:36-78 | first use allowed; a reuse within the interval refused, told to wait at least a second when it comes a second or more early; a use after the interval allowed again |
| RateLimit.KeysIndependent | app/db/repositories/rate_limit.py:25-30 | limits are per user and command: a call leaves the other keys and their verdicts unchanged |
| RateLimit.RetryCountsDown | app/db/repositories/rate_limit.py:69-73 | while a command stays refused, the reported wait never grows |
| RecommendationsRepo.AddItemTo | app/db/repositories/recommendations.py:34-60 | a refused insert leaves the items table as it was |
| RecommendationsRepo.AddItemKeepsIndex | app/db/repositories/recommendations.py:41-42 | the unique index on (recommendation, film, position) stays consistent with the rows |
| RecommendationsRepo.AddItemOutcome | app/db/repositories/recommendations.py:34-70 | a strategy outside safe/adjacent/wildcard is refused; an existing key returns its id and writes nothing; a missing recommendation is a foreign-key error; otherwise a new "suggested" row with a fresh id (also app/db/models.py:101) |
| RecommendationsRepo.AddItemTwice | app/db/repositories/recommendations.py:41-60 | adding the same item twice returns the same id and leaves one row |
| RecommendationsRepo.AddItemSeparateRows | app/db/repositories/recommendations.py:41-42 | items differing in film or position are separate rows with distinct ids |
| RecommendationsRepo.QuestionsJson | app/db/repositories/recommendations_updates.py:24 | the questions are stored as a JSON list of the same strings in order |
| RecommendationsRepo.RecStore.constructor | app/db/repositories/recommendations.py:10-15 | all tables start empty |
| RecommendationsRepo.RecStore.CreateRecommendation | app/db/repositories/recommendations.py:10-15 | a user id missing from the users table is refused with a foreign-key error and nothing written (the key at app/db/models.py:72); otherwise a fresh id holds the user, the time and the context; no other table changes |
| RecommendationsRepo.RecStore.AddItem | app/db/repositories/recommendations.py:18-70 | the result and the new items table are those of the add |
| RecommendationsRepo.RecStore.SetItemStatus | app/db/repositories/recommendations.py:73-78 | a missing item is ignored; a status outside suggested/watched/skipped is refused; otherwise only that item's status changes (also app/db/models.py:102) |
| RecommendationsRepo.RecStore.UpsertFeedback | app/db/repositories/recommendations.py:81-92 | a rating outside 0..5 is refused; feedback for a missing item is a foreign-key error; otherwise the item's one feedback becomes the given rating and review (also app/db/models.py:126) |
| RecommendationsRepo.RecStore.SetItemExplanation | app/db/repositories/recommendations_updates.py:9-15 | only that item's explanation changes; a missing id changes nothing |
| RecommendationsRepo.RecStore.SetRecommendationQuestions | app/db/repositories/recommendations_updates.py:18-26 | a missing recommendation is ignored; otherwise the context gains "evening_questions" and keeps every other key |
| WatchedRepo.Merge | app/db/repositories/watched.py:57-65 | the title changes only to a non-empty one, year and rating only to present values, the review only to a non-blank one; the source is always replaced; the match key is kept |
| WatchedRepo.MergeIdempotent | app/db/repositories/watched.py:57-65 | saving the same values again changes nothing more |
| WatchedRepo.MergeKeepsValues | app/db/repositories/watched.py:57-63 | a merge never loses a title, year, rating or non-blank review |
| WatchedRepo.MergeBlankOnlySource | app/db/repositories/watched.py:57-65 | a merge with nothing to say only stamps the source |
| WatchedRepo.MergeAllowed | app/db/repositories/watched.py:57-65 | a merged row passes the rating and source checks exactly when the written values do (also app/db/models.py:62-63) |
| WatchedRepo.WatchedStore.constructor | app/db/repositories/watched.py:43-53 | the table starts empty |
| WatchedRepo.WatchedStore.GetExisting | app/db/repositories/watched.py:10-25 | a row with the same user, film and date (an undated row matching only an undated one) exactly when one exists |
| WatchedRepo.WatchedStore.UpsertWatched | app/db/repositories/watched.py:28-67 | values the checks refuse write nothing; otherwise a new row under a fresh id, or the matching row merged; nothing is returned (also app/db/models.py:62-63) |
| WatchedRepo.WatchedStore.InsertIfAbsent | app/scripts/import_letterboxd.py:249-274 | nothing when a row has the match key; otherwise a new row, unless the checks refuse it |
| PendingRepo.PendingStore.constructor | app/db/repositories/pending.py:10-24 | no user has a pending action |
| PendingRepo.PendingStore.SetPending | app/db/repositories/pending.py:10-24 | the user's one pending action becomes the given type and payload; other users' actions stay |
| PendingRepo.PendingStore.GetPending | app/db/repositories/pending.py:27-28 | the user's pending action exactly when there is one |
| PendingRepo.PendingStore.ClearPending | app/db/repositories/pending.py:31-36 | the user's action is removed, none being a no-op; the rest stay |
| PendingRepo.SetThenGet | app/db/repositories/pending.py:10-28 | what is set is read back, and other users keep their actions |
| PendingRepo.ClearThenGet | app/db/repositories/pending.py:27-36 | after a clear the user has no action, other users keep theirs, and a second clear changes nothing |
| ProfileRepo.Upserted | app/db/repositories/taste_profile.py:14-41 | summary, weights and time are always written; avoids are replaced only when given, and a new row without them gets an empty map |
| ProfileRepo.ProfileStore.constructor | app/db/repositories/taste_profile.py:24-34 | no profile exists |
| ProfileRepo.ProfileStore.GetProfile | app/db/repositories/taste_profile.py:10-11 | the user's profile exactly when there is one |
| ProfileRepo.ProfileStore.UpsertProfile | app/db/repositories/taste_profile.py:14-41 | only the user's row changes, and it becomes the upserted profile |
| ProfileRepo.UpsertKeepingAvoids | app/db/repositories/taste_profile.py:38-39 | passing no avoids, or the stored ones, keeps the stored avoids |
| ProfileRepo.UpsertEmptyAvoidsErases | app/db/repositories/taste_profile.py:29-39 | an explicit empty map erases the stored avoids, for a new or an existing row |
| UsersRepo.UserStore.constructor | app/db/repositories/users.py:7-14 | no user exists |
| UsersRepo.UserStore.GetOrCreate | app/db/repositories/users.py:7-14 | the one user with the Telegram id: the existing one with nothing written, or a new one with the default zone |
| RecsSources.TmdbIds | app/db/repositories/recs_sources.py:26-38 | one film id per row, in row order |
| RecsSources.TopRatedRank | app/db/repositories/recs_sources.py:22 | the ORDER BY's rank for the top-rated query |
| RecsSources.TopRatedIds | app/db/repositories/recs_sources.py:11-26 | at most `limit` films |
| RecsSources.TopRatedRankMeans | app/db/repositories/recs_sources.py:22 | the rank orders by rating, then the later date with undated last, then the later id |
| RecsSources.TopRatedFacts | app/db/repositories/recs_sources.py:11-26 | the user's rows rated at least the minimum, in top-rated order, min(limit, count) of them, not de-duplicated |
| RecsSources.FallbackRank | app/db/repositories/recs_sources.py:34 | the ORDER BY's rank for the fallback query |
| RecsSources.FallbackIds | app/db/repositories/recs_sources.py:29-38 | at most `limit` films |
| RecsSources.FallbackFacts | app/db/repositories/recs_sources.py:29-38 | every row of the user, rated or not, rated rows first and the best rating first, min(limit, count) of them |
| RecsSources.WatchedIdSet | app/db/repositories/recs_sources.py:41-44 | exactly the films of the user's watched rows |
| RecsSources.RecentRecommendedSet | app/db/repositories/recs_sources.py:47-57 | exactly the films of items in the user's recommendations made since `now - days` |
| RecsSources.RecentSetGrowsWithDays | app/db/repositories/recs_sources.py:48-54 | a longer look-back never forgets a film |
| RecsContext.RecentRecommendedIds | app/db/repositories/recs_context.py:11-22 | at most `limit` films |
| RecsContext.RecentRecommendedFacts | app/db/repositories/recs_context.py:11-22 | items of the user's recent recommendations, newest recommendation first and the later item first within one, min(limit, count) of them |
| RecsContext.RecentListWithinSet | app/db/repositories/recs_context.py:11-22 | the list's films lie in the set the exclusion query returns (also app/db/repositories/recs_sources.py:47-57) |
| RecsContext.ScannedItemFiltered | app/db/repositories/recs_context.py:15-17 | a scanned item that passes the WHERE clause is among the filtered rows |
| RecsContext.RecentRowsComplete | app/db/repositories/recs_context.py:19-20 | with a limit that cuts nothing off, every filtered item is listed |
| RecsContext.RecentListCoversSet | app/db/repositories/recs_context.py:11-22 | with a limit that cuts nothing off, the list holds every film of the set (also app/db/repositories/recs_sources.py:47-57) |
| RecsContext.RecentWatchedRank | app/db/repositories/recs_context.py:29 | the ORDER BY's rank: date descending with undated last, then id |
| RecsContext.RecentWatchedIds | app/db/repositories/recs_context.py:25-33 | at most `limit` films |
| RecsContext.RecentWatchedFacts | app/db/repositories/recs_context.py:25-33 | the user's rows, the latest watch first, undated after dated, the later id first within a date, min(limit, count) of them |
| ProfileUpdate.ProfileRows | app/recommender/taste_profile_v0.py:73-81 | one (film, rating) pair per row of the rated-films query |
| ProfileUpdate.ProfileRowsFacts | app/recommender/taste_profile_v0.py:73-81 | the query returns only the user's rated rows from an accepted source, min(250, count) of them, all of them when fewer |
| ProfileUpdate.RatedOfComplete | app/recommender/taste_profile_v0.py:83-87 | rows with a film and a rating are all kept as rated films |
| ProfileUpdate.RatedUsedIsQuerySize | app/recommender/taste_profile_v0.py:73-87 | the recompute counts every row the query returns as a rated film |
| ProfileUpdate.UpdateTasteProfile | app/recommender/taste_profile_v0.py:65-216 | the new profile is the one computed from the query's rows with thresholds 4.0 and 2.5; its avoids are reset to empty and its weights carry the version |
| ReviewService.TodayIn | app/services/review_service.py:14-18 | the date in the user's zone, or in UTC when the zone is unknown |
| ReviewService.ReviewSource | app/services/review_service.py:39-44 | "agent" exactly in agent mode with an item id, otherwise "manual" |
| ReviewService.RecordItemReview | app/services/review_service.py:40-41 | the item's feedback and its "watched" status are both written, or, for a rating out of range or a missing item, neither |
| ReviewService.WriteReview | app/services/review_service.py:36-56 | the agent-mode writes, then the watched row for today upserted with the chosen source; a refused rating or a missing item writes nothing |
| ReviewService.SaveReview | app/services/review_service.py:21-59 | the writes of the review, then the profile recomputed over the new watched table; the returned id is always None, as the upsert returns nothing |
| ReviewService.WrittenRowHoldsReview | app/services/review_service.py:46-56 | after the upsert a row has the review's match key and holds the given rating and non-blank review |
| ReviewService.SaveReviewReturningId | app/services/review_service.py:31-59 | the returned id names the watched row of the review, holding its rating and non-blank review |
| SummaryRefresh.DueForRefresh | app/llm/summary_refresh.py:9-11 | no refresh for a count of zero or less; a zero divisor raises; otherwise exactly at multiples of every_n |
| SummaryRefresh.DueAtMultiples | app/llm/summary_refresh.py:10 | with a positive every_n the refresh comes exactly at its positive multiples |
| SummaryRefresh.NextRefresh | app/llm/summary_refresh.py:10 | after a refresh the next comes every_n feedbacks later, and none in between |
| SummaryRefresh.Refreshed | app/llm/summary_refresh.py:24-30 | only the summary changes, to the stripped rewrite; weights and avoids are kept |
| SummaryRefresh.MaybeRefreshSummary | app/llm/summary_refresh.py:8-30 | the profile is rewritten only when the refresh is due, the profile exists and the rewrite succeeds; a zero divisor is an error |
| BotRouter.DraftText | app/bot/router.py:308-317 | a stored draft string is read stripped, a missing one as empty |
| BotRouter.ReviewText | app/bot/router.py:296 | the rest of the text, or None exactly when it is empty |
| BotRouter.CombinedReview | app/bot/router.py:317-321 | the draft alone when nothing came with the rating; a text that came with it is joined and stripped; never an empty review |
| BotRouter.PickList | app/bot/router.py:275 | the first five candidates, in the search's order, as id, title and year |
| BotRouter.QueryStep | app/bot/router.py:246-279 | no title, a failed search or no result keeps waiting; one result, or a first result of the asked year, is picked for a manual review; otherwise the pick list is offered |
| BotRouter.ReviewStep | app/bot/router.py:282-301 | an unconvertible film id fails; a text without a rating becomes the draft awaiting a rating; a rated text saves the rating and the rest |
| BotRouter.RatingStep | app/bot/router.py:304-324 | a text without a rating keeps waiting; a rating saves it with the draft and any text that came with it |
| BotRouter.Step | app/bot/router.py:227-329 | no action, an awaited pick or an unknown action only replies; actions the handlers write never fail to convert and lead to such actions again; a saved rating lies in 0..5 |
| BotRouter.DraftThenRating | app/bot/router.py:289-321 | a review without a rating becomes the draft, and the rating that follows saves it, joined by a blank line to any text sent with the rating |
| BotRouter.DraftPayloadReads | app/bot/router.py:291-308 | the draft payload reads back its film, draft, mode and item |
| BotRouter.DraftCombined | app/bot/router.py:317-319 | a non-blank stripped draft survives the join with the rating's text |
| BotRouter.RatedReviewSavesRest | app/bot/router.py:295-298 | a review sent with its rating is saved at once with the text after the rating, or with none |
| BotRouter.WatchedButtonReviewsItem | app/bot/router.py:210 | after "watched", a rated review goes through the item and is marked as coming from the agent (also app/bot/router.py:282-298) |
| BotRouter.PickListIds | app/bot/router.py:275 | each stored pick entry's id reads back as its film's id |
| BotRouter.CallbackInt | app/bot/router.py:95 | `int()` of the k-th colon-separated piece, None when the piece is missing or not a number (also app/bot/router.py:190) |
| BotRouter.WatchedCallback | app/bot/router.py:204-206 | exactly three pieces, the second and third numbers |
| BotRouter.TaggedIdRoundTrip | app/bot/keyboards.py:13-22 | a "pick:" or "skip:" button gives its id back (also app/bot/router.py:95, app/bot/router.py:190) |
| BotRouter.WatchedDataRoundTrip | app/bot/keyboards.py:21 | the "watched" button gives back its item and its film (also app/bot/router.py:204-206) |
| BotRouter.StartOrCancel | app/bot/router.py:41-65 | the user is found or created, and their pending action dropped |
| BotRouter.CmdReview | app/bot/router.py:74-80 | the user now waits for a film title in manual mode |
| BotRouter.CbPickMovie | app/bot/router.py:91-99 | data that does not convert raises before anything is written; otherwise the user waits for a manual review of the film |
| BotRouter.CbWatched | app/bot/router.py:200-210 | data that does not split into three numbers raises before anything is written; otherwise the user waits for a review through the item |
| BotRouter.CbSkip | app/bot/router.py:186-195 | the item is marked skipped (an unknown item is left alone) and the pending action dropped; bad data raises first |
| BotRouter.ChatSource | app/bot/router.py:354-359 | "agent" exactly in agent mode with an item id, otherwise "manual" |
| BotRouter.SaveFromChat | app/bot/router.py:332-371 | today in the user's zone; the details; in agent mode the item's feedback and status; then the watched row inserted only when absent; nothing is written when it stops, and it stops exactly as the save conditions say (also app/bot/router.py:34-38) |
| BotRouter.SaveAndClear | app/bot/router.py:298-322 | a save that gets through clears the pending action; one that stops leaves the action and every table |
| BotRouter.HandleText | app/bot/router.py:227-329 | a blank text is ignored; otherwise the action moves on as the step says, a saved review clears it, and well-formed actions never fail to convert |
| Numbers.RoundHalfEven | app/bot/parsing.py:34 | Python's `round`: the nearest integer, a tie going to the even one |
| Numbers.Round4 | app/recommender/taste_profile_v0.py:31 | `round(x, 4)` lies within half a ten-thousandth of x (also app/recommender/taste_profile_v0.py:176) |
| Sorting.SortBy | app/recommender/taste_profile_v0.py:30 | a sort returns a permutation of its input (also app/recommender/taste_profile_v0.py:174, app/recommender/v1.py:198) |
| Sorting.SortSorted | app/recommender/taste_profile_v0.py:30 | the result is ordered by the comparison (also app/recommender/v1.py:198) |
| Sorting.SortKeepsTies | app/recommender/taste_profile_v0.py:30 | the sort is stable: elements with equal keys keep their input order, as Python's `sorted` keeps them with `reverse=True` (also app/recommender/taste_profile_v0.py:174, app/recommender/v1.py:198) |

## Left out

- Network and HTTP: `_tmdb_get`, `search_movie`, `get_similar`, `get_recommendations`, `_fetch_candidates_for_seed`, `_fetch_candidates_pool` and the `asyncio.gather`/`Semaphore` fan-outs in app/recommender/v0.py, app/recommender/v1.py and app/recommender/taste_profile_v0.py. Their results (candidate pools, payloads, keyword lists, embeddings) are inputs.
- Foreign model calls: the OpenAI embedding and text clients and the summary-rewrite task. The embedding provider and the rewrite are function parameters that return a value or report the exception.
- `_build_like_dislike_vectors` (app/recommender/v1.py:277-334), `_build_genre_preferences` (app/recommender/v0.py:89-105) and `_genre_weights_from_profile` (app/recommender/v0.py:225-241): database and network reads. The like and dislike vectors and the genre weights are inputs of `RecommendV1.V1Inputs` and `RecommenderV0.V0Inputs`.
- Concurrency: `FOR UPDATE SKIP LOCKED` in `get_pending_jobs`, the row lock and insert race of `check_and_touch`, the `ON CONFLICT` races of `add_recommendation_item`, and transactions and commits. Each call is modelled by its sequential effect on the tables. In the worker, a write that raises leaves in place the writes before it.
- Clocks and zones: `datetime.now`, `ZoneInfo` and `utcnow` are parameters. `ReviewService.TodayIn` takes the zone's date, or None for an unknown zone.
- Letterboxd.ParseDateOf: the final `datetime.fromisoformat` fallback of `parse_date` (app/scripts/import_letterboxd.py:77-81) is not modelled. A text that none of the four `strptime` formats reads gives None, where the source would still accept ISO forms such as "2024-01-31 00:00:00".
- SoftAvoid: `datetime.fromisoformat` on `last_triggered` (after "Z" becomes "+00:00") is the parameter `parseStamp`, and the ISO text of `now` is an input. `parseStamp` gives None both for a text `fromisoformat` refuses and for one without a UTC offset: that one parses to a naive moment, and subtracting it from the aware `now` raises `TypeError`, which the source swallows just as it swallows the parse error.
- Floating point: every score, rating and ratio is an exact `real`. `Numbers.Round4` and `Numbers.RoundHalfEven` round exact reals half to even, which matches Python's `round` except where binary floats already differ from the decimal value.
- Text conversion: `float()` applied to a JSON string is modelled as the error it raises on a non-numeric text, including numeric texts (TMDB sends numbers there). `int()` is modelled for ASCII decimal literals with an optional sign. `str()` of a float, list or dict is modelled only as some non-empty text.
- Text.LowerChar: lowers only ASCII, Latin-1 and Cyrillic letters. Python's `str.lower` covers all of Unicode and can change the length ('İ' becomes two characters). Letterboxd title normalisation, `Letterboxd.ResolveKey` and the soft-avoid keyword match inherit this.
- Letterboxd.IsTitleChar: keeps a-z, 0-9, а-я, ё and whitespace. The case-insensitive class of app/scripts/import_letterboxd.py:41 also keeps characters whose case folding lands in those ranges, such as 'ı' (U+0131) and 'ſ' (U+017F); the model drops them.
- Letterboxd.ParseRatingOf: reads only [sign]digits[.digits], through `Letterboxd.ParseDecimal`. Python's `float()` also reads forms such as "1e0", "4_0", "inf" and "nan". For "inf" and "nan" the `round` at app/scripts/import_letterboxd.py:111 raises and the import stops, where the model gives None.
- Tmdb.StrField: maps a non-string `release_date` to None, so `Tmdb.ExtractYear` gives no year. At app/integrations/tmdb.py:39, `len(release_date)` on a truthy non-string value, such as a number, raises `TypeError`.
- `isdigit` and `\d` accept only ASCII '0'..'9'. Python also accepts other Unicode digits.
- Schema details: varchar lengths and `Numeric(2, 1)` rounding of stored ratings are not modelled. Of the three foreign keys to the users table, the one of `agent_recommendations` (app/db/models.py:72) is modelled in `RecommendationsRepo.RecStore.CreateRecommendation`; those of `watched` and `taste_profile` (app/db/models.py:134) are not, see the next line. The rating-range, source, strategy and status checks are modelled, as are the unique keys and the item and feedback foreign keys.
- ProfileRepo.ProfileStore.UpsertProfile: does not refuse a user id without a users row, where inserting a new profile for it raises `IntegrityError` under the key at app/db/models.py:134; `WatchedRepo.WatchedStore.UpsertWatched` likewise accepts any user id. Neither store keeps the users table. On every path the bot takes, the user id comes from `get_or_create_user`, so the key holds there.
- EmbeddingText.RatingLine: renders the rating with exactly one decimal. The source writes `f"{rating}"`, Python's shortest representation, which is the same text for the one-decimal ratings the `Numeric(2, 1)` column stores and differs for others (4.25, or 4 as an int).
- RecommendationsRepo.RecStore.SetRecommendationQuestions: a recommendation's context is always a map here, so the `context_json or {}` fallback for a null context does not arise.
- `app/db/repositories/feedback_repo.py` filters on a column the feedback table does not define. The feedback count is a parameter of `SummaryRefresh.MaybeRefreshSummary`.
- The TMDB cache write in `get_movie_details` and `get_movie_keywords`, and the details fetch after `set_pending` in `cb_watched` and the auto-pick (a message-only use), are left out. The cache's expiry rule is modelled in `Tmdb.GetCached` and `Tmdb.UpsertCache`.
- The `from_user is None` and `data is None` guards of the handlers, and every reply text the bot sends, are not modelled.
- CLI and scaffolding: `import_csv`, `load_overrides`, the unresolved-CSV writer, the maintenance scripts, `bot/main.py`, keyboards (their callback data formats are modelled as `BotRouter.TaggedId` and `BotRouter.WatchedData`), middleware, the API, logging, configuration and migrations.

## Findings

| source | as written | input that shows it | evidently intended | confidence | as-written member | corrected member |
|---|---|---|---|---|---|---|
| app/services/review_service.py:31-33,46-59 | `save_review` is declared `-> int` and documented to return the watched film's id. It returns the result of `upsert_watched`, which is always None | any review, e.g. a manual review of a new film | the id of the watched row that holds the review | high, not executed | ReviewService.SaveReview | ReviewService.SaveReviewReturningId |
| app/recommender/v1.py:138,520 | a pattern fires under its stripped id `str(p.get("id", "")).strip()`, but the stamping compares the unstripped `str(p.get("id"))` | a pattern with id " x " that fires for a chosen pick | the fired pattern gets its `last_triggered` stamp and cools down | high, not executed | SoftAvoid.PaddedIdNeverStamped | SoftAvoid.StampedPatternCoolsDown |
