// The heuristic tier `recommend_v0` (app/recommender/v0.py): genre-weight and
// quality scores, the safe / adjacent / wildcard argmax picks, the diversity
// check and the final assembly with its "extra diverse" fill.
module RecommenderV0 {
  import opened Wrappers
  import opened Text
  import opened Sorting
  import opened Numbers
  import opened Dedupe
  import opened Candidates
  import opened V1Helpers
  import Tmdb

  // --- Genre weights -------------------------------------------------------------

  // A counting dict in insertion order.
  type Counts = seq<(int, int)>

  predicate DistinctKeys(counts: Counts)
  {
    forall i, j :: 0 <= i < j < |counts| ==> counts[i].0 != counts[j].0
  }

  function SumCounts(counts: Counts): int
  {
    if counts == [] then 0 else SumCounts(counts[..|counts| - 1]) + counts[|counts| - 1].1
  }

  // `_normalize_weights`: each count divided by the total, or {} when the total is
  // not positive.
  function NormalizeWeights(counts: Counts): (w: map<int, real>)
    requires DistinctKeys(counts)
    ensures SumCounts(counts) <= 0 ==> w == map[]
    ensures SumCounts(counts) > 0 ==> forall k :: k in w <==> exists i :: 0 <= i < |counts| && counts[i].0 == k
    ensures SumCounts(counts) > 0 ==> forall i :: 0 <= i < |counts| ==>
      counts[i].0 in w && w[counts[i].0] == counts[i].1 as real / SumCounts(counts) as real
  {
    var total := SumCounts(counts);
    if total <= 0 then map[]
    else map i | 0 <= i < |counts| :: counts[i].0 := counts[i].1 as real / total as real
  }

  // The weights of the keys in counting order, added up.
  function WeightTotal(counts: Counts, w: map<int, real>): real
  {
    if counts == [] then 0.0
    else
      var k := counts[|counts| - 1].0;
      WeightTotal(counts[..|counts| - 1], w) + (if k in w then w[k] else 0.0)
  }

  lemma {:induction false} WeightTotalPrefix(counts: Counts, n: nat, w: map<int, real>, total: int)
    requires n <= |counts| && total > 0
    requires forall i :: 0 <= i < |counts| ==> counts[i].0 in w && w[counts[i].0] == counts[i].1 as real / total as real
    ensures WeightTotal(counts[..n], w) == SumCounts(counts[..n]) as real / total as real
  {
    if n > 0 {
      var init := counts[..n][..n - 1];
      assert init == counts[..n - 1];
      WeightTotalPrefix(counts, n - 1, w, total);
      assert counts[..n][n - 1] == counts[n - 1];
    }
  }

  lemma DivideBySelf(x: real)
    requires x > 0.0
    ensures x / x == 1.0
  {
  }

  // With a positive total the normalised weights add up to 1.
  lemma NormalizedWeightsSumToOne(counts: Counts)
    requires DistinctKeys(counts) && SumCounts(counts) > 0
    ensures WeightTotal(counts, NormalizeWeights(counts)) == 1.0
  {
    WeightsOverTotal(counts, NormalizeWeights(counts), SumCounts(counts));
  }

  // Weights that are the counts over their positive total add up to 1.
  lemma WeightsOverTotal(counts: Counts, w: map<int, real>, total: int)
    requires total == SumCounts(counts) && total > 0
    requires forall i :: 0 <= i < |counts| ==> counts[i].0 in w && w[counts[i].0] == counts[i].1 as real / total as real
    ensures WeightTotal(counts, w) == 1.0
  {
    WeightTotalPrefix(counts, |counts|, w, total);
    assert counts[..|counts|] == counts;
    DivideBySelf(total as real);
  }

  // --- Scores ----------------------------------------------------------------------

  // `_quality_score`: 0.6 * vote / 10 + 0.4 * min(1, popularity / 80).
  function QualityScore(c: Tmdb.MovieCandidate): (q: real)
    ensures 0.0 <= c.voteAverage.GetOr(0.0) <= 10.0 && c.popularity.GetOr(0.0) >= 0.0 ==> 0.0 <= q <= 1.0
  {
    0.6 * (c.voteAverage.GetOr(0.0) / 10.0) + 0.4 * Min(1.0, c.popularity.GetOr(0.0) / 80.0)
  }

  // Popularity beyond 80 adds nothing.
  lemma QualityScoreSaturates(c: Tmdb.MovieCandidate, d: Tmdb.MovieCandidate)
    requires c.voteAverage.GetOr(0.0) == d.voteAverage.GetOr(0.0)
    requires c.popularity.GetOr(0.0) >= 80.0 && d.popularity.GetOr(0.0) >= 80.0
    ensures QualityScore(c) == QualityScore(d)
  {
  }

  function WeightOf(w: map<int, real>, g: int): real
  {
    if g in w then w[g] else 0.0
  }

  // The weights of the listed genre ids, duplicates counted.
  function SumWeights(ids: seq<int>, w: map<int, real>): real
  {
    if ids == [] then 0.0 else SumWeights(ids[..|ids| - 1], w) + WeightOf(w, ids[|ids| - 1])
  }

  // `_genre_overlap_score`.
  function GenreOverlap(c: Tmdb.MovieCandidate, w: map<int, real>): (g: real)
    ensures (c.genreIds.None? || c.genreIds.value == [] || w == map[]) ==> g == 0.0
  {
    if c.genreIds.None? || c.genreIds.value == [] || w == map[] then 0.0
    else SumWeights(c.genreIds.value, w)
  }

  lemma {:induction false} SumWeightsAppend(a: seq<int>, b: seq<int>, w: map<int, real>)
    ensures SumWeights(a + b, w) == SumWeights(a, w) + SumWeights(b, w)
  {
    if b == [] {
      assert a + b == a;
    } else {
      assert (a + b)[..|a + b| - 1] == a + b[..|b| - 1];
      SumWeightsAppend(a, b[..|b| - 1], w);
    }
  }

  // Genre ids without a weight contribute nothing.
  lemma {:induction false} SumWeightsOfUnknown(ids: seq<int>, w: map<int, real>)
    requires forall i :: 0 <= i < |ids| ==> ids[i] !in w
    ensures SumWeights(ids, w) == 0.0
  {
    if ids != [] {
      SumWeightsOfUnknown(ids[..|ids| - 1], w);
    }
  }

  // With non-negative weights the overlap is non-negative.
  lemma {:induction false} SumWeightsNonNegative(ids: seq<int>, w: map<int, real>)
    requires forall g :: g in w ==> w[g] >= 0.0
    ensures SumWeights(ids, w) >= 0.0
  {
    if ids != [] {
      SumWeightsNonNegative(ids[..|ids| - 1], w);
    }
  }

  // --- Diversity ---------------------------------------------------------------------

  function GenreSet(c: Tmdb.MovieCandidate): (s: set<int>)
    ensures s == {} <==> c.genreIds.None? || c.genreIds.value == []
  {
    if c.genreIds.None? || c.genreIds.value == [] then {}
    else
      var s := set g | g in c.genreIds.value;
      assert c.genreIds.value[0] in s;
      s
  }

  // `_is_diverse_enough`: false exactly when some chosen film has a non-empty
  // genre set equal to the candidate's non-empty genre set.
  predicate Diverse(candidate: Tmdb.MovieCandidate, chosen: seq<Tmdb.MovieCandidate>)
  {
    !exists j :: 0 <= j < |chosen| && GenreSet(chosen[j]) != {} && GenreSet(chosen[j]) == GenreSet(candidate)
  }

  method IsDiverseEnough(candidate: Tmdb.MovieCandidate, chosen: seq<Tmdb.MovieCandidate>) returns (r: bool)
    ensures r == Diverse(candidate, chosen)
  {
    if chosen == [] {
      return true;
    }
    if candidate.genreIds.None? || candidate.genreIds.value == [] {
      return true;
    }
    var candSet := GenreSet(candidate);
    for j := 0 to |chosen|
      invariant forall k :: 0 <= k < j ==> !(GenreSet(chosen[k]) != {} && GenreSet(chosen[k]) == candSet)
    {
      if chosen[j].genreIds.None? || chosen[j].genreIds.value == [] {
        continue;
      }
      if candSet == GenreSet(chosen[j]) {
        return false;
      }
    }
    return true;
  }

  // --- The three argmax picks ----------------------------------------------------------

  // `RecPick` without its free-text `reason`.
  datatype V0Pick = V0Pick(tmdbId: int, strategy: Strategy, score: real)

  // Which of the three pickers runs; each one skips some candidates.
  datatype Rule = SafeRule | AdjacentRule(safe: Tmdb.MovieCandidate) | WildcardRule(chosen: seq<Tmdb.MovieCandidate>)

  const MinAdjacentOverlap: real := 0.12
  const MaxWildcardOverlap: real := 0.18

  function SafeScore(c: Tmdb.MovieCandidate, w: map<int, real>): real
  {
    0.75 * GenreOverlap(c, w) + 0.25 * QualityScore(c)
  }

  predicate TruthyText(s: Option<string>)
  {
    s.Some? && s.value != []
  }

  predicate TruthyYear(y: Option<int>)
  {
    y.Some? && y.value != 0
  }

  // The adjacent pick's bonus: another language, a year ten or more apart, a
  // different non-empty genre set.
  function AdjacentBonus(c: Tmdb.MovieCandidate, safe: Tmdb.MovieCandidate): real
  {
    (if TruthyText(safe.originalLanguage) && TruthyText(c.originalLanguage) && c.originalLanguage.value != safe.originalLanguage.value then 0.15 else 0.0)
    + (if TruthyYear(safe.year) && TruthyYear(c.year) && Abs(c.year.value - safe.year.value) >= 10 then 0.12 else 0.0)
    + (if GenreSet(c) != {} && GenreSet(safe) != {} && GenreSet(c) != GenreSet(safe) then 0.10 else 0.0)
  }

  predicate IsChosen(c: Tmdb.MovieCandidate, chosen: seq<Tmdb.MovieCandidate>)
  {
    exists j :: 0 <= j < |chosen| && chosen[j].tmdbId == c.tmdbId
  }

  // What one candidate offers under a rule; None when the picker skips it.
  function OptionOf(rule: Rule, c: Tmdb.MovieCandidate, w: map<int, real>): (o: Option<V0Pick>)
    ensures o.Some? ==> o.value.tmdbId == c.tmdbId
  {
    var g, q := GenreOverlap(c, w), QualityScore(c);
    match rule
    case SafeRule => Some(V0Pick(c.tmdbId, Safe, SafeScore(c, w)))
    case AdjacentRule(safe) =>
      if c.tmdbId == safe.tmdbId || g < MinAdjacentOverlap then None
      else Some(V0Pick(c.tmdbId, Adjacent, 0.60 * g + 0.30 * q + AdjacentBonus(c, safe)))
    case WildcardRule(chosen) =>
      if IsChosen(c, chosen) || g > MaxWildcardOverlap then None
      else Some(V0Pick(c.tmdbId, Wildcard, 0.20 * g + 0.70 * q + (if Diverse(c, chosen) then 0.12 else 0.0)))
  }

  // `if best is None or score > best.score: best = ...`
  function Keep(best: Option<V0Pick>, o: Option<V0Pick>): Option<V0Pick>
  {
    if o.None? then best
    else if best.None? || o.value.score > best.value.score then o
    else best
  }

  // What every candidate offers, in order.
  function Offers(cands: seq<Tmdb.MovieCandidate>, rule: Rule, w: map<int, real>): (os: seq<Option<V0Pick>>)
    ensures |os| == |cands|
  {
    if cands == [] then [] else Offers(cands[..|cands| - 1], rule, w) + [OptionOf(rule, cands[|cands| - 1], w)]
  }

  lemma {:induction false} OffersAt(cands: seq<Tmdb.MovieCandidate>, rule: Rule, w: map<int, real>, i: nat)
    requires i < |cands|
    ensures Offers(cands, rule, w)[i] == OptionOf(rule, cands[i], w)
    decreases |cands|
  {
    if i < |cands| - 1 {
      var init := cands[..|cands| - 1];
      OffersAt(init, rule, w, i);
      assert init[i] == cands[i];
    }
  }

  // The loop over the offers.
  function BestOffer(os: seq<Option<V0Pick>>): Option<V0Pick>
  {
    if os == [] then None else Keep(BestOffer(os[..|os| - 1]), os[|os| - 1])
  }

  function PickBestOf(cands: seq<Tmdb.MovieCandidate>, rule: Rule, w: map<int, real>): Option<V0Pick>
  {
    BestOffer(Offers(cands, rule, w))
  }

  lemma {:induction false} BestOfferIsEarliestMax(os: seq<Option<V0Pick>>) returns (j: nat)
    ensures BestOffer(os).None? <==> forall i :: 0 <= i < |os| ==> os[i].None?
    ensures BestOffer(os).Some? ==>
      && j < |os| && os[j] == BestOffer(os)
      && (forall i :: 0 <= i < |os| && os[i].Some? ==> os[i].value.score <= BestOffer(os).value.score)
      && (forall i :: 0 <= i < j && os[i].Some? ==> os[i].value.score < BestOffer(os).value.score)
  {
    j := 0;
    if os != [] {
      var init := os[..|os| - 1];
      var n := |os| - 1;
      var j' := BestOfferIsEarliestMax(init);
      var prev := BestOffer(init);
      var o := os[n];
      assert forall i :: 0 <= i < n ==> os[i] == init[i];
      if o.Some? && (prev.None? || o.value.score > prev.value.score) {
        j := n;
      } else {
        j := j';
      }
    }
  }

  // The pick is the offer of the earliest candidate with the highest score, and
  // there is none exactly when every candidate is skipped.
  lemma PickBestIsEarliestMax(cands: seq<Tmdb.MovieCandidate>, rule: Rule, w: map<int, real>) returns (j: nat)
    ensures PickBestOf(cands, rule, w).None? <==> forall i :: 0 <= i < |cands| ==> OptionOf(rule, cands[i], w).None?
    ensures PickBestOf(cands, rule, w).Some? ==>
      && j < |cands| && OptionOf(rule, cands[j], w) == PickBestOf(cands, rule, w)
      && (forall i :: 0 <= i < |cands| && OptionOf(rule, cands[i], w).Some? ==>
            OptionOf(rule, cands[i], w).value.score <= PickBestOf(cands, rule, w).value.score)
      && (forall i :: 0 <= i < j && OptionOf(rule, cands[i], w).Some? ==>
            OptionOf(rule, cands[i], w).value.score < PickBestOf(cands, rule, w).value.score)
  {
    var os := Offers(cands, rule, w);
    j := BestOfferIsEarliestMax(os);
    forall i | 0 <= i < |cands|
      ensures os[i] == OptionOf(rule, cands[i], w)
    {
      OffersAt(cands, rule, w, i);
    }
  }

  // One step of a picker loop.
  lemma PickBestStep(cands: seq<Tmdb.MovieCandidate>, rule: Rule, w: map<int, real>, i: nat)
    requires i < |cands|
    ensures PickBestOf(cands[..i + 1], rule, w) == Keep(PickBestOf(cands[..i], rule, w), OptionOf(rule, cands[i], w))
  {
    assert cands[..i + 1][..i] == cands[..i];
    var os := Offers(cands[..i + 1], rule, w);
    assert os[..i] == Offers(cands[..i], rule, w);
  }

  function PickSafeOf(cands: seq<Tmdb.MovieCandidate>, w: map<int, real>): Option<V0Pick>
  {
    PickBestOf(cands, SafeRule, w)
  }

  // `_pick_safe` returns None only for no candidates; otherwise the earliest
  // candidate with the highest 0.75 * overlap + 0.25 * quality.
  lemma PickSafeFacts(cands: seq<Tmdb.MovieCandidate>, w: map<int, real>) returns (j: nat)
    ensures PickSafeOf(cands, w).None? <==> cands == []
    ensures cands != [] ==>
      && j < |cands| && PickSafeOf(cands, w) == Some(V0Pick(cands[j].tmdbId, Safe, SafeScore(cands[j], w)))
      && (forall i :: 0 <= i < |cands| ==> SafeScore(cands[i], w) <= SafeScore(cands[j], w))
      && (forall i :: 0 <= i < j ==> SafeScore(cands[i], w) < SafeScore(cands[j], w))
  {
    j := PickBestIsEarliestMax(cands, SafeRule, w);
    if cands != [] {
      assert OptionOf(SafeRule, cands[0], w).Some?;
    }
  }

  // `_pick_adjacent` never returns the safe film or one with overlap below 0.12;
  // `_pick_wildcard` never returns a chosen film or one with overlap above 0.18.
  lemma PickAdjacentFacts(cands: seq<Tmdb.MovieCandidate>, w: map<int, real>, safe: Tmdb.MovieCandidate)
    ensures var a := PickBestOf(cands, AdjacentRule(safe), w);
      a.Some? ==>
        && a.value.strategy == Adjacent && a.value.tmdbId != safe.tmdbId
        && exists i :: 0 <= i < |cands| && cands[i].tmdbId == a.value.tmdbId && GenreOverlap(cands[i], w) >= MinAdjacentOverlap
  {
    var ja := PickBestIsEarliestMax(cands, AdjacentRule(safe), w);
  }

  lemma PickWildcardFacts(cands: seq<Tmdb.MovieCandidate>, w: map<int, real>, chosen: seq<Tmdb.MovieCandidate>)
    ensures var x := PickBestOf(cands, WildcardRule(chosen), w);
      x.Some? ==>
        && x.value.strategy == Wildcard
        && (forall k :: 0 <= k < |chosen| ==> chosen[k].tmdbId != x.value.tmdbId)
        && exists i :: 0 <= i < |cands| && cands[i].tmdbId == x.value.tmdbId && GenreOverlap(cands[i], w) <= MaxWildcardOverlap
  {
    var jx := PickBestIsEarliestMax(cands, WildcardRule(chosen), w);
  }

  method PickSafe(cands: seq<Tmdb.MovieCandidate>, w: map<int, real>) returns (best: Option<V0Pick>)
    ensures best == PickSafeOf(cands, w)
  {
    best := None;
    for i := 0 to |cands|
      invariant best == PickBestOf(cands[..i], SafeRule, w)
    {
      PickBestStep(cands, SafeRule, w, i);
      var c := cands[i];
      var g := GenreOverlap(c, w);
      var q := QualityScore(c);
      var score := 0.75 * g + 0.25 * q;
      if best.None? || score > best.value.score {
        best := Some(V0Pick(c.tmdbId, Safe, score));
      }
    }
    assert cands[..|cands|] == cands;
  }

  method PickAdjacent(cands: seq<Tmdb.MovieCandidate>, w: map<int, real>, safe: Tmdb.MovieCandidate) returns (best: Option<V0Pick>)
    ensures best == PickBestOf(cands, AdjacentRule(safe), w)
  {
    best := None;
    for i := 0 to |cands|
      invariant best == PickBestOf(cands[..i], AdjacentRule(safe), w)
    {
      PickBestStep(cands, AdjacentRule(safe), w, i);
      var c := cands[i];
      if c.tmdbId == safe.tmdbId {
        continue;
      }
      var g := GenreOverlap(c, w);
      var q := QualityScore(c);
      if g < MinAdjacentOverlap {
        continue;
      }
      var bonus := AdjacentBonusOf(c, safe);
      var score := 0.60 * g + 0.30 * q + bonus;
      if best.None? || score > best.value.score {
        best := Some(V0Pick(c.tmdbId, Adjacent, score));
      }
    }
    assert cands[..|cands|] == cands;
  }

  // The bonus, added up step by step.
  method AdjacentBonusOf(c: Tmdb.MovieCandidate, safe: Tmdb.MovieCandidate) returns (bonus: real)
    ensures bonus == AdjacentBonus(c, safe)
  {
    bonus := 0.0;
    var lang := if safe.originalLanguage.Some? && safe.originalLanguage.value != []
      && c.originalLanguage.Some? && c.originalLanguage.value != []
      && c.originalLanguage.value != safe.originalLanguage.value then 0.15 else 0.0;
    bonus := bonus + lang;
    var year := if safe.year.Some? && safe.year.value != 0 && c.year.Some? && c.year.value != 0
      && Abs(c.year.value - safe.year.value) >= 10 then 0.12 else 0.0;
    bonus := bonus + year;
    var cSet, safeSet := GenreSet(c), GenreSet(safe);
    if cSet != {} && safeSet != {} && cSet != safeSet {
      bonus := bonus + 0.10;
    }
  }

  method PickWildcard(cands: seq<Tmdb.MovieCandidate>, w: map<int, real>, chosen: seq<Tmdb.MovieCandidate>) returns (best: Option<V0Pick>)
    ensures best == PickBestOf(cands, WildcardRule(chosen), w)
  {
    best := None;
    for i := 0 to |cands|
      invariant best == PickBestOf(cands[..i], WildcardRule(chosen), w)
    {
      PickBestStep(cands, WildcardRule(chosen), w, i);
      var c := cands[i];
      if exists k :: 0 <= k < |chosen| && chosen[k].tmdbId == c.tmdbId {
        continue;
      }
      var g := GenreOverlap(c, w);
      var q := QualityScore(c);
      if g > MaxWildcardOverlap {
        continue;
      }
      var diverse := IsDiverseEnough(c, chosen);
      var bonus := if diverse then 0.12 else 0.0;
      var score := 0.20 * g + 0.70 * q + bonus;
      if best.None? || score > best.value.score {
        best := Some(V0Pick(c.tmdbId, Wildcard, score));
      }
    }
    assert cands[..|cands|] == cands;
  }

  // --- The extra fill ----------------------------------------------------------------

  // `picks`, `chosen_ids` and `chosen_candidates` during the fill loop.
  datatype FillState = FillState(picks: seq<V0Pick>, chosenIds: set<int>, chosen: seq<Tmdb.MovieCandidate>)

  function SafeKey(w: map<int, real>): Tmdb.MovieCandidate -> real
  {
    c => SafeScore(c, w)
  }

  // `sorted(filtered, key=0.75 * overlap + 0.25 * quality, reverse=True)`.
  function Ranked(cands: seq<Tmdb.MovieCandidate>, w: map<int, real>): (r: seq<Tmdb.MovieCandidate>)
    ensures |r| == |cands| && multiset(r) == multiset(cands)
  {
    SortBy(cands, ByKeyDesc(SafeKey(w)))
  }

  // The fill loop: stop at `count` picks, skip picked ids and films whose genre
  // set repeats one of `chosen_candidates`, and add the rest as "safe" with
  // score 0.
  function FillOf(ranked: seq<Tmdb.MovieCandidate>, count: int, st: FillState): FillState
    decreases |ranked|
  {
    if ranked == [] || |st.picks| >= count then st
    else
      var c := ranked[0];
      if c.tmdbId in st.chosenIds || !Diverse(c, st.chosen) then FillOf(ranked[1..], count, st)
      else FillOf(ranked[1..], count, FillState(st.picks + [V0Pick(c.tmdbId, Safe, 0.0)], st.chosenIds + {c.tmdbId}, st.chosen + [c]))
  }

  predicate IdsTracked(st: FillState)
  {
    forall i :: 0 <= i < |st.picks| ==> st.picks[i].tmdbId in st.chosenIds
  }

  predicate UniquePickIds(picks: seq<V0Pick>)
  {
    forall i, j :: 0 <= i < j < |picks| ==> picks[i].tmdbId != picks[j].tmdbId
  }

  // The fill only appends: every added pick is a ranked film, labelled "safe" with
  // score 0.0, not picked before, and diverse against the chosen candidates at that
  // point (so never checked against the wildcard); ids stay distinct.
  lemma {:induction false} FillFacts(ranked: seq<Tmdb.MovieCandidate>, count: int, st: FillState)
    requires IdsTracked(st) && UniquePickIds(st.picks)
    ensures var r := FillOf(ranked, count, st);
      && IdsTracked(r) && UniquePickIds(r.picks)
      && |st.picks| <= |r.picks| && r.picks[..|st.picks|] == st.picks
      && st.chosenIds <= r.chosenIds
      && (forall i :: |st.picks| <= i < |r.picks| ==>
            && r.picks[i].strategy == Safe && r.picks[i].score == 0.0
            && r.picks[i].tmdbId !in st.chosenIds
            && exists k :: 0 <= k < |ranked| && ranked[k].tmdbId == r.picks[i].tmdbId)
    decreases |ranked|
  {
    if ranked != [] && |st.picks| < count {
      var c := ranked[0];
      if c.tmdbId in st.chosenIds || !Diverse(c, st.chosen) {
        FillFacts(ranked[1..], count, st);
        var r := FillOf(ranked[1..], count, st);
        forall i | |st.picks| <= i < |r.picks|
          ensures exists k :: 0 <= k < |ranked| && ranked[k].tmdbId == r.picks[i].tmdbId
        {
          var k :| 0 <= k < |ranked[1..]| && ranked[1..][k].tmdbId == r.picks[i].tmdbId;
          assert ranked[k + 1] == ranked[1..][k];
        }
      } else {
        var st' := FillState(st.picks + [V0Pick(c.tmdbId, Safe, 0.0)], st.chosenIds + {c.tmdbId}, st.chosen + [c]);
        assert UniquePickIds(st'.picks) by {
          forall i, j | 0 <= i < j < |st'.picks|
            ensures st'.picks[i].tmdbId != st'.picks[j].tmdbId
          {
            if j == |st.picks| {
              assert st'.picks[i] == st.picks[i];
            } else {
              assert st'.picks[i] == st.picks[i] && st'.picks[j] == st.picks[j];
            }
          }
        }
        FillFacts(ranked[1..], count, st');
        var r := FillOf(ranked[1..], count, st');
        assert r.picks[..|st'.picks|] == st'.picks;
        assert r.picks[..|st.picks|] == st'.picks[..|st.picks|];
        forall i | |st.picks| <= i < |r.picks|
          ensures r.picks[i].strategy == Safe && r.picks[i].score == 0.0 && r.picks[i].tmdbId !in st.chosenIds
          ensures exists k :: 0 <= k < |ranked| && ranked[k].tmdbId == r.picks[i].tmdbId
        {
          if i == |st.picks| {
            assert r.picks[i] == st'.picks[i];
            assert ranked[0].tmdbId == r.picks[i].tmdbId;
          } else {
            var k :| 0 <= k < |ranked[1..]| && ranked[1..][k].tmdbId == r.picks[i].tmdbId;
            assert ranked[k + 1] == ranked[1..][k];
          }
        }
      }
    }
  }

  // Each added film passes the diversity check against the films chosen before it.
  lemma {:induction false} FillChecksDiversity(ranked: seq<Tmdb.MovieCandidate>, count: int, st: FillState)
    ensures var r := FillOf(ranked, count, st);
      |st.chosen| <= |r.chosen|
      && forall i :: |st.chosen| <= i < |r.chosen| ==> Diverse(r.chosen[i], r.chosen[..i])
    decreases |ranked|
  {
    if ranked != [] && |st.picks| < count {
      var c := ranked[0];
      if c.tmdbId in st.chosenIds || !Diverse(c, st.chosen) {
        FillChecksDiversity(ranked[1..], count, st);
      } else {
        var st' := FillState(st.picks + [V0Pick(c.tmdbId, Safe, 0.0)], st.chosenIds + {c.tmdbId}, st.chosen + [c]);
        FillChecksDiversity(ranked[1..], count, st');
        FillKeepsChosenPrefix(ranked[1..], count, st');
        var r := FillOf(ranked[1..], count, st');
        var n := |st.chosen|;
        assert r.chosen[n] == c by {
          assert r.chosen[..n + 1] == st'.chosen;
        }
        assert r.chosen[..n] == st.chosen by {
          assert r.chosen[..n + 1] == st'.chosen;
          assert r.chosen[..n] == r.chosen[..n + 1][..n];
        }
      }
    }
  }

  lemma {:induction false} FillKeepsChosenPrefix(ranked: seq<Tmdb.MovieCandidate>, count: int, st: FillState)
    ensures var r := FillOf(ranked, count, st);
      |st.chosen| <= |r.chosen| && r.chosen[..|st.chosen|] == st.chosen
    decreases |ranked|
  {
    if ranked != [] && |st.picks| < count {
      var c := ranked[0];
      if c.tmdbId in st.chosenIds || !Diverse(c, st.chosen) {
        FillKeepsChosenPrefix(ranked[1..], count, st);
      } else {
        var st' := FillState(st.picks + [V0Pick(c.tmdbId, Safe, 0.0)], st.chosenIds + {c.tmdbId}, st.chosen + [c]);
        FillKeepsChosenPrefix(ranked[1..], count, st');
        var r := FillOf(ranked[1..], count, st');
        assert r.chosen[..|st.chosen|] == r.chosen[..|st'.chosen|][..|st.chosen|];
      }
    }
  }

  method Fill(ranked: seq<Tmdb.MovieCandidate>, count: int, st0: FillState) returns (st: FillState)
    ensures st == FillOf(ranked, count, st0)
  {
    st := st0;
    var i := 0;
    while i < |ranked|
      invariant 0 <= i <= |ranked|
      invariant FillOf(ranked[i..], count, st) == FillOf(ranked, count, st0)
    {
      assert ranked[i..][0] == ranked[i] && ranked[i..][1..] == ranked[i + 1..];
      if |st.picks| >= count {
        break;
      }
      var c := ranked[i];
      if c.tmdbId in st.chosenIds {
        i := i + 1;
        continue;
      }
      var diverse := IsDiverseEnough(c, st.chosen);
      if !diverse {
        i := i + 1;
        continue;
      }
      st := FillState(st.picks + [V0Pick(c.tmdbId, Safe, 0.0)], st.chosenIds + {c.tmdbId}, st.chosen + [c]);
      i := i + 1;
    }
    if i == |ranked| {
      assert ranked[i..] == [];
    }
  }

  // --- `recommend_v0` -----------------------------------------------------------------

  // Python's `xs[:n]`; a negative n drops that many items from the end.
  function PyPrefix<T>(xs: seq<T>, n: int): (r: seq<T>)
    ensures n >= 0 ==> r == Take(xs, n)
    ensures n < 0 ==> r == xs[..if |xs| + n > 0 then |xs| + n else 0]
  {
    if n >= 0 then Take(xs, n)
    else xs[..if |xs| + n > 0 then |xs| + n else 0]
  }

  // The prefetched inputs: seeds, exclusions, the genre weights (from the taste
  // profile or from the seeds) and the fetched pool.
  datatype V0Inputs = V0Inputs(
    topRated: seq<int>,
    fallbackTop: seq<int>,
    watched: set<int>,
    recentRecs: set<int>,
    genreWeights: map<int, real>,
    pool: seq<Tmdb.MovieCandidate>)

  function Filtered(inp: V0Inputs): seq<Tmdb.MovieCandidate>
  {
    var seeds := Seeds(inp.topRated, inp.fallbackTop);
    FilterOf(DedupeOf(inp.pool, QualityScore), inp.watched, inp.recentRecs, set id | id in seeds)
  }

  function PickIds(picks: seq<V0Pick>): set<int>
  {
    set p | p in picks :: p.tmdbId
  }

  // The safe, adjacent and wildcard picks and the chosen candidates, before the fill.
  // The safe pick, then the adjacent one when it has a candidate.
  function WithAdjacent(filtered: seq<Tmdb.MovieCandidate>, w: map<int, real>, safe: V0Pick, safeCand: Tmdb.MovieCandidate): (seq<V0Pick>, seq<Tmdb.MovieCandidate>)
  {
    var adj := PickBestOf(filtered, AdjacentRule(safeCand), w);
    var adjAt := if adj.Some? then FindId(filtered, adj.value.tmdbId) else None;
    if adjAt.Some? then ([safe, adj.value], [safeCand, filtered[adjAt.value]]) else ([safe], [safeCand])
  }

  // The picks so far, then the wildcard one when there is one.
  function WithWildcard(filtered: seq<Tmdb.MovieCandidate>, w: map<int, real>, picks: seq<V0Pick>, chosen: seq<Tmdb.MovieCandidate>): seq<V0Pick>
  {
    var wild := PickBestOf(filtered, WildcardRule(chosen), w);
    picks + (if wild.Some? then [wild.value] else [])
  }

  // The safe, adjacent and wildcard picks and the chosen candidates, before the fill.
  function CorePicks(filtered: seq<Tmdb.MovieCandidate>, w: map<int, real>): Option<(seq<V0Pick>, seq<Tmdb.MovieCandidate>)>
  {
    var safe := PickSafeOf(filtered, w);
    if safe.None? then None
    else
      var at := FindId(filtered, safe.value.tmdbId);
      if at.None? then None
      else
        var (picks, chosen) := WithAdjacent(filtered, w, safe.value, filtered[at.value]);
        Some((WithWildcard(filtered, w, picks, chosen), chosen))
  }

  // Pairs each chosen candidate with the pick at the same position.
  predicate ChosenMatch(picks: seq<V0Pick>, chosen: seq<Tmdb.MovieCandidate>, filtered: seq<Tmdb.MovieCandidate>)
  {
    |chosen| <= |picks| && forall i :: 0 <= i < |chosen| ==> chosen[i] in filtered && chosen[i].tmdbId == picks[i].tmdbId
  }

  lemma WithAdjacentFacts(filtered: seq<Tmdb.MovieCandidate>, w: map<int, real>, safe: V0Pick, safeCand: Tmdb.MovieCandidate)
    requires safeCand in filtered && safeCand.tmdbId == safe.tmdbId && safe.strategy == Safe
    ensures var (picks, chosen) := WithAdjacent(filtered, w, safe, safeCand);
      && 1 <= |picks| <= 2 && picks[0] == safe && |chosen| == |picks|
      && UniquePickIds(picks) && ChosenMatch(picks, chosen, filtered)
      && (forall i :: 0 <= i < |picks| ==> PickOfFiltered(picks[i], filtered) && picks[i].strategy != Wildcard)
  {
    var adj := PickBestOf(filtered, AdjacentRule(safeCand), w);
    PickAdjacentFacts(filtered, w, safeCand);
    var k :| 0 <= k < |filtered| && filtered[k] == safeCand;
  }

  lemma WithWildcardFacts(filtered: seq<Tmdb.MovieCandidate>, w: map<int, real>, picks: seq<V0Pick>, chosen: seq<Tmdb.MovieCandidate>)
    requires UniquePickIds(picks) && |chosen| == |picks| && ChosenMatch(picks, chosen, filtered)
    requires forall i :: 0 <= i < |picks| ==> PickOfFiltered(picks[i], filtered)
    ensures var r := WithWildcard(filtered, w, picks, chosen);
      && |picks| <= |r| <= |picks| + 1 && r[..|picks|] == picks
      && UniquePickIds(r)
      && (forall i :: 0 <= i < |r| ==> PickOfFiltered(r[i], filtered))
      && (|r| > |picks| ==> r[|picks|].strategy == Wildcard)
  {
    var r := WithWildcard(filtered, w, picks, chosen);
    PickWildcardFacts(filtered, w, chosen);
    forall i, j | 0 <= i < j < |r|
      ensures r[i].tmdbId != r[j].tmdbId
    {
      if j == |picks| {
        assert r[i] == picks[i] && r[i].tmdbId == chosen[i].tmdbId;
      } else {
        assert r[i] == picks[i] && r[j] == picks[j];
      }
    }
    assert r[..|picks|] == picks;
  }

  function RecommendV0Of(inp: V0Inputs, count: int): seq<V0Pick>
  {
    var seeds := Seeds(inp.topRated, inp.fallbackTop);
    if seeds == [] then []
    else
      var filtered := Filtered(inp);
      if filtered == [] then []
      else match CorePicks(filtered, inp.genreWeights)
        case None => []
        case Some((picks, chosen)) =>
          PyPrefix(AllPicks(filtered, inp.genreWeights, count, picks, chosen), count)
  }

  // Step 7 of `recommend_v0`.
  method SelectCorePicks(filtered: seq<Tmdb.MovieCandidate>, w: map<int, real>) returns (r: Option<(seq<V0Pick>, seq<Tmdb.MovieCandidate>)>)
    ensures r == CorePicks(filtered, w)
  {
    var safePick := PickSafe(filtered, w);
    if safePick.None? {
      return None;
    }
    var at := FindId(filtered, safePick.value.tmdbId);
    if at.None? {
      return None;
    }
    var safeCand := filtered[at.value];
    var adjacentPick := PickAdjacent(filtered, w, safeCand);
    var chosen := [safeCand];
    var picks := [safePick.value];
    if adjacentPick.Some? {
      var adjAt := FindId(filtered, adjacentPick.value.tmdbId);
      if adjAt.Some? {
        picks := [safePick.value, adjacentPick.value];
        chosen := [safeCand, filtered[adjAt.value]];
      }
    }
    ghost var stage := WithAdjacent(filtered, w, safePick.value, safeCand);
    assert picks == stage.0 && chosen == stage.1;
    var wildcardPick := PickWildcard(filtered, w, chosen);
    if wildcardPick.Some? {
      picks := picks + [wildcardPick.value];
    } else {
      picks := picks + [];
    }
    assert picks == WithWildcard(filtered, w, stage.0, stage.1);
    r := Some((picks, chosen));
  }

  method RecommendV0(inp: V0Inputs, count: int) returns (picks: seq<V0Pick>)
    ensures picks == RecommendV0Of(inp, count)
  {
    var seeds := Seeds(inp.topRated, inp.fallbackTop);
    if seeds == [] {
      return [];
    }
    var byId := DedupePool(inp.pool, QualityScore);
    var seedSet := set id | id in seeds;
    var filtered := FilterCandidates(byId, inp.watched, inp.recentRecs, seedSet);
    if filtered == [] {
      return [];
    }
    var w := inp.genreWeights;
    var core := SelectCorePicks(filtered, w);
    if core.None? {
      return [];
    }
    var chosen;
    picks, chosen := core.value.0, core.value.1;
    if count > |picks| {
      var ranked := Ranked(filtered, w);
      var st := Fill(ranked, count, FillState(picks, PickIds(picks), chosen));
      picks := st.picks;
    }
    picks := PyPrefix(picks, count);
  }

  // --- Properties of the assembly --------------------------------------------------------

  // No seeds, or nothing left after the filter, gives no picks.
  lemma RecommendV0Empty(inp: V0Inputs, count: int)
    requires Seeds(inp.topRated, inp.fallbackTop) == [] || Filtered(inp) == []
    ensures RecommendV0Of(inp, count) == []
  {
  }

  // A filtered film is a pool film, with a non-zero id, that is not excluded.
  lemma FilteredFacts(inp: V0Inputs)
    ensures UniqueIds(Filtered(inp))
    ensures forall c :: c in Filtered(inp) ==>
      c in inp.pool && c.tmdbId != 0 && !Excluded(c.tmdbId, inp.watched, inp.recentRecs, set id | id in Seeds(inp.topRated, inp.fallbackTop))
  {
    var seeds := Seeds(inp.topRated, inp.fallbackTop);
    var seedSet := set id | id in seeds;
    var byId := DedupeOf(inp.pool, QualityScore);
    assert DistinctIds(byId) && EntriesFromPool(byId, inp.pool) by {
      DedupeFacts(inp.pool, QualityScore);
    }
    FilterKeepsDistinct(byId, inp.watched, inp.recentRecs, seedSet);
    forall c | c in Filtered(inp)
      ensures c in inp.pool && c.tmdbId != 0 && !Excluded(c.tmdbId, inp.watched, inp.recentRecs, seedSet)
    {
      FilterMembers(byId, inp.watched, inp.recentRecs, seedSet, c);
      var k :| 0 <= k < |byId| && byId[k] == c;
    }
  }

  predicate PickOfFiltered(p: V0Pick, filtered: seq<Tmdb.MovieCandidate>)
  {
    exists k :: 0 <= k < |filtered| && filtered[k].tmdbId == p.tmdbId
  }

  // The safe, adjacent and wildcard picks have distinct ids drawn from the
  // candidates; the safe pick comes first and the chosen candidates are the safe
  // and (when present) adjacent films.
  lemma CorePicksFacts(filtered: seq<Tmdb.MovieCandidate>, w: map<int, real>)
    requires CorePicks(filtered, w).Some?
    ensures var (picks, chosen) := CorePicks(filtered, w).value;
      && 1 <= |picks| <= 3 && picks[0] == PickSafeOf(filtered, w).value
      && UniquePickIds(picks)
      && (forall i :: 0 <= i < |picks| ==> PickOfFiltered(picks[i], filtered))
      && ChosenMatch(picks, chosen, filtered)
  {
    var safe := PickSafeOf(filtered, w);
    var j := PickSafeFacts(filtered, w);
    var at := FindId(filtered, safe.value.tmdbId);
    var safeCand := filtered[at.value];
    WithAdjacentFacts(filtered, w, safe.value, safeCand);
    var (picks1, chosen) := WithAdjacent(filtered, w, safe.value, safeCand);
    WithWildcardFacts(filtered, w, picks1, chosen);
    var r := WithWildcard(filtered, w, picks1, chosen);
    assert r[0] == r[..|picks1|][0];
    assert ChosenMatch(r, chosen, filtered) by {
      forall i | 0 <= i < |chosen|
        ensures chosen[i].tmdbId == r[i].tmdbId
      {
        assert r[i] == r[..|picks1|][i];
      }
    }
  }

  // The chosen candidates that the fill checks diversity against are the safe
  // and adjacent films: the wildcard pick, when there is one, is left out.
  lemma CorePicksLeaveOutWildcard(filtered: seq<Tmdb.MovieCandidate>, w: map<int, real>)
    requires CorePicks(filtered, w).Some?
    ensures var (picks, chosen) := CorePicks(filtered, w).value;
      && |chosen| <= |picks|
      && (forall i :: 0 <= i < |chosen| ==> picks[i].strategy != Wildcard)
      && (|chosen| < |picks| ==> |picks| == |chosen| + 1 && picks[|chosen|].strategy == Wildcard)
  {
    var safe := PickSafeOf(filtered, w);
    var j := PickSafeFacts(filtered, w);
    var at := FindId(filtered, safe.value.tmdbId);
    var safeCand := filtered[at.value];
    WithAdjacentFacts(filtered, w, safe.value, safeCand);
    var (picks1, chosen) := WithAdjacent(filtered, w, safe.value, safeCand);
    WithWildcardFacts(filtered, w, picks1, chosen);
    var r := WithWildcard(filtered, w, picks1, chosen);
    forall i | 0 <= i < |chosen|
      ensures r[i].strategy != Wildcard
    {
      assert r[i] == r[..|picks1|][i];
    }
  }

  // All picks before the final slice.
  function AllPicks(filtered: seq<Tmdb.MovieCandidate>, w: map<int, real>, count: int, picks: seq<V0Pick>, chosen: seq<Tmdb.MovieCandidate>): seq<V0Pick>
  {
    if count > |picks| then FillOf(Ranked(filtered, w), count, FillState(picks, PickIds(picks), chosen)).picks else picks
  }

  lemma AllPicksFacts(filtered: seq<Tmdb.MovieCandidate>, w: map<int, real>, count: int)
    requires CorePicks(filtered, w).Some?
    ensures var (picks, chosen) := CorePicks(filtered, w).value;
      var all := AllPicks(filtered, w, count, picks, chosen);
      UniquePickIds(all) && (forall i :: 0 <= i < |all| ==> PickOfFiltered(all[i], filtered))
  {
    var (picks, chosen) := CorePicks(filtered, w).value;
    CorePicksFacts(filtered, w);
    if count > |picks| {
      var st := FillState(picks, PickIds(picks), chosen);
      var ranked := Ranked(filtered, w);
      FillFacts(ranked, count, st);
      var all := FillOf(ranked, count, st).picks;
      forall i | 0 <= i < |all|
        ensures PickOfFiltered(all[i], filtered)
      {
        if i < |picks| {
          assert all[i] == all[..|picks|][i];
        } else {
          var k :| 0 <= k < |ranked| && ranked[k].tmdbId == all[i].tmdbId;
          assert ranked[k] in multiset(filtered);
        }
      }
    }
  }

  // At most `count` picks (for a non-negative count), with pairwise distinct ids,
  // none watched, recently recommended or a seed.
  lemma RecommendV0Picks(inp: V0Inputs, count: int)
    ensures var r := RecommendV0Of(inp, count);
      && (count >= 0 ==> |r| <= count)
      && UniquePickIds(r)
      && forall p :: p in r ==>
           && p.tmdbId != 0
           && !Excluded(p.tmdbId, inp.watched, inp.recentRecs, set id | id in Seeds(inp.topRated, inp.fallbackTop))
  {
    var seeds := Seeds(inp.topRated, inp.fallbackTop);
    var filtered := Filtered(inp);
    if seeds != [] && filtered != [] && CorePicks(filtered, inp.genreWeights).Some? {
      var w := inp.genreWeights;
      var (picks, chosen) := CorePicks(filtered, w).value;
      AllPicksFacts(filtered, w, count);
      FilteredFacts(inp);
      var all := AllPicks(filtered, w, count, picks, chosen);
      var r := PyPrefix(all, count);
      assert r == RecommendV0Of(inp, count);
      PrefixKeepsPicks(all, r, filtered);
      PicksNotExcluded(r, filtered, inp.watched, inp.recentRecs, set id | id in seeds);
    }
  }

  lemma PicksNotExcluded(r: seq<V0Pick>, filtered: seq<Tmdb.MovieCandidate>, watched: set<int>, recent: set<int>, seeds: set<int>)
    requires forall i :: 0 <= i < |r| ==> PickOfFiltered(r[i], filtered)
    requires forall c :: c in filtered ==> c.tmdbId != 0 && !Excluded(c.tmdbId, watched, recent, seeds)
    ensures forall p :: p in r ==> p.tmdbId != 0 && !Excluded(p.tmdbId, watched, recent, seeds)
  {
    forall p | p in r
      ensures p.tmdbId != 0 && !Excluded(p.tmdbId, watched, recent, seeds)
    {
      var i :| 0 <= i < |r| && r[i] == p;
      var k :| 0 <= k < |filtered| && filtered[k].tmdbId == p.tmdbId;
      assert filtered[k] in filtered;
    }
  }

  lemma PrefixKeepsPicks(all: seq<V0Pick>, r: seq<V0Pick>, filtered: seq<Tmdb.MovieCandidate>)
    requires |r| <= |all| && r == all[..|r|]
    requires UniquePickIds(all) && forall i :: 0 <= i < |all| ==> PickOfFiltered(all[i], filtered)
    ensures UniquePickIds(r) && forall i :: 0 <= i < |r| ==> PickOfFiltered(r[i], filtered)
  {
    forall i, j | 0 <= i < j < |r|
      ensures r[i].tmdbId != r[j].tmdbId
    {
      assert r[i] == all[i] && r[j] == all[j];
    }
    forall i | 0 <= i < |r|
      ensures PickOfFiltered(r[i], filtered)
    {
      assert r[i] == all[i];
    }
  }

  // The first pick, when there is one and `count` is positive, is the safe pick:
  // the earliest candidate with the highest safe score.
  lemma RecommendV0FirstIsSafe(inp: V0Inputs, count: int)
    requires count >= 1 && RecommendV0Of(inp, count) != []
    ensures RecommendV0Of(inp, count)[0] == PickSafeOf(Filtered(inp), inp.genreWeights).value
    ensures RecommendV0Of(inp, count)[0].strategy == Safe
  {
    var filtered := Filtered(inp);
    var w := inp.genreWeights;
    CorePicksFacts(filtered, w);
    var (picks, chosen) := CorePicks(filtered, w).value;
    if count > |picks| {
      FillFacts(Ranked(filtered, w), count, FillState(picks, PickIds(picks), chosen));
      var all := FillOf(Ranked(filtered, w), count, FillState(picks, PickIds(picks), chosen)).picks;
      assert all[0] == all[..|picks|][0];
    }
    var j := PickSafeFacts(filtered, w);
  }
}
