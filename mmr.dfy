// Greedy maximal-marginal-relevance selection of the embedding tier
// (`_mmr_select` in app/recommender/v1.py).
module Mmr {
  import opened VectorMath
  import opened Sorting
  import opened Numbers

  // A scored candidate (V1CandidateScore without its debug text).
  datatype CandidateScore = CandidateScore(
    tmdbId: int,
    baseScore: real,
    simLike: real,
    simDislike: real,
    novelty: real,
    repeatPenalty: real,
    softAvoidPenalty: real,
    triggeredAvoidIds: seq<string>)

  // The redundancy charged to a candidate without an embedding.
  const MissingVectorRedundancy: real := 0.2

  function BaseScoreOf(c: CandidateScore): real
  {
    c.baseScore
  }

  function IdOf(c: CandidateScore): int
  {
    c.tmdbId
  }

  function IdsOf(s: seq<CandidateScore>): set<int>
  {
    set c | c in s :: c.tmdbId
  }

  function RemoveAt<T>(s: seq<T>, i: nat): (r: seq<T>)
    requires i < |s|
    ensures |r| == |s| - 1
    ensures multiset(r) + multiset{s[i]} == multiset(s)
  {
    assert s == s[..i] + [s[i]] + s[i + 1..];
    s[..i] + s[i + 1..]
  }

  // A present, non-empty embedding.
  predicate HasVector(vecs: map<int, Vector>, id: int)
  {
    id in vecs && vecs[id] != []
  }

  // The largest `max(0, cosine)` between v and the embeddings of the selected
  // candidates that have one, starting from 0.
  function SelectedSimilarity(v: Vector, selected: seq<CandidateScore>, vecs: map<int, Vector>, sqrt: real -> real): (r: real)
    requires IsSqrt(sqrt)
    ensures 0.0 <= r <= 1.0
  {
    if selected == [] then 0.0
    else
      var prev := SelectedSimilarity(v, selected[..|selected| - 1], vecs, sqrt);
      var id := selected[|selected| - 1].tmdbId;
      if HasVector(vecs, id) then
        CosineBounded(v, vecs[id], sqrt);
        Max(prev, Max(0.0, Cosine(v, vecs[id], sqrt)))
      else prev
  }

  function Redundancy(c: CandidateScore, selected: seq<CandidateScore>, vecs: map<int, Vector>, sqrt: real -> real): (r: real)
    requires IsSqrt(sqrt)
    ensures !HasVector(vecs, c.tmdbId) ==> r == MissingVectorRedundancy
    ensures HasVector(vecs, c.tmdbId) ==> 0.0 <= r <= 1.0
  {
    if HasVector(vecs, c.tmdbId) then SelectedSimilarity(vecs[c.tmdbId], selected, vecs, sqrt)
    else MissingVectorRedundancy
  }

  function MmrValue(c: CandidateScore, selected: seq<CandidateScore>, vecs: map<int, Vector>, lambda: real, sqrt: real -> real): real
    requires IsSqrt(sqrt)
  {
    lambda * c.baseScore - (1.0 - lambda) * Redundancy(c, selected, vecs, sqrt)
  }

  function MmrValues(remaining: seq<CandidateScore>, selected: seq<CandidateScore>, vecs: map<int, Vector>, lambda: real, sqrt: real -> real): (vals: seq<real>)
    requires IsSqrt(sqrt)
    ensures |vals| == |remaining|
    ensures forall i :: 0 <= i < |remaining| ==> vals[i] == MmrValue(remaining[i], selected, vecs, lambda, sqrt)
  {
    seq(|remaining|, i requires 0 <= i < |remaining| => MmrValue(remaining[i], selected, vecs, lambda, sqrt))
  }

  // The index kept by a left-to-right scan that replaces the best only on a
  // strictly larger value: the earliest maximum.
  function FirstMaxIndex(vals: seq<real>): (r: nat)
    requires |vals| > 0
    ensures r < |vals|
    ensures forall i :: 0 <= i < |vals| ==> vals[i] <= vals[r]
    ensures forall i :: 0 <= i < r ==> vals[i] < vals[r]
  {
    if |vals| == 1 then 0
    else
      var j := FirstMaxIndex(vals[..|vals| - 1]);
      if vals[|vals| - 1] > vals[j] then |vals| - 1 else j
  }

  // Which remaining candidate one round takes.
  function PickIndex(remaining: seq<CandidateScore>, selected: seq<CandidateScore>, vecs: map<int, Vector>, lambda: real, sqrt: real -> real): (i: nat)
    requires IsSqrt(sqrt) && remaining != []
    ensures i < |remaining|
  {
    if selected == [] then 0 else FirstMaxIndex(MmrValues(remaining, selected, vecs, lambda, sqrt))
  }

  // The rounds of the while loop, from a given state to the end.
  function MmrLoop(remaining: seq<CandidateScore>, selected: seq<CandidateScore>, vecs: map<int, Vector>, k: int, lambda: real, sqrt: real -> real): seq<CandidateScore>
    requires IsSqrt(sqrt)
    decreases |remaining|
  {
    if remaining == [] || |selected| >= k then selected
    else
      var i := PickIndex(remaining, selected, vecs, lambda, sqrt);
      var best := remaining[i];
      if best.tmdbId in IdsOf(selected) then MmrLoop(RemoveAt(remaining, i), selected, vecs, k, lambda, sqrt)
      else MmrLoop(RemoveAt(remaining, i), selected + [best], vecs, k, lambda, sqrt)
  }

  function SortedByBaseScore(scored: seq<CandidateScore>): (r: seq<CandidateScore>)
    ensures |r| == |scored| && multiset(r) == multiset(scored)
  {
    SortBy(scored, ByKeyDesc(BaseScoreOf))
  }

  // `_mmr_select(scored, vecs, k, lambda)`.
  function MmrSelectOf(scored: seq<CandidateScore>, vecs: map<int, Vector>, k: int, lambda: real, sqrt: real -> real): seq<CandidateScore>
    requires IsSqrt(sqrt)
  {
    if scored == [] then [] else MmrLoop(SortedByBaseScore(scored), [], vecs, k, lambda, sqrt)
  }

  // The inner loop over the selected candidates.
  method SelectedSimilarityLoop(v: Vector, selected: seq<CandidateScore>, vecs: map<int, Vector>, sqrt: real -> real) returns (red: real)
    requires IsSqrt(sqrt)
    ensures red == SelectedSimilarity(v, selected, vecs, sqrt)
  {
    red := 0.0;
    for i := 0 to |selected|
      invariant red == SelectedSimilarity(v, selected[..i], vecs, sqrt)
    {
      assert selected[..i + 1][..i] == selected[..i];
      var id := selected[i].tmdbId;
      if id in vecs && vecs[id] != [] {
        var c := CosineSimilarity(v, vecs[id], sqrt);
        red := Max(red, Max(0.0, c));
      }
    }
    assert selected[..|selected|] == selected;
  }

  lemma FirstMaxIndexStep(vals: seq<real>, n: nat)
    requires 0 < n < |vals|
    ensures FirstMaxIndex(vals[..n + 1])
         == (if vals[n] > vals[FirstMaxIndex(vals[..n])] then n else FirstMaxIndex(vals[..n]))
  {
    assert vals[..n + 1][..n] == vals[..n];
  }

  // The value the scan computes for one candidate.
  method CandidateMmr(cand: CandidateScore, selected: seq<CandidateScore>, vecs: map<int, Vector>, lambda: real, sqrt: real -> real) returns (mmr: real)
    requires IsSqrt(sqrt)
    ensures mmr == MmrValue(cand, selected, vecs, lambda, sqrt)
  {
    var redundancy := 0.2;
    if cand.tmdbId in vecs && vecs[cand.tmdbId] != [] {
      redundancy := SelectedSimilarityLoop(vecs[cand.tmdbId], selected, vecs, sqrt);
    }
    mmr := lambda * cand.baseScore - (1.0 - lambda) * redundancy;
  }

  // The scan over `remaining` for the best MMR value.
  method BestIndex(remaining: seq<CandidateScore>, selected: seq<CandidateScore>, vecs: map<int, Vector>, lambda: real, sqrt: real -> real) returns (bestIdx: nat)
    requires IsSqrt(sqrt) && remaining != []
    ensures bestIdx == FirstMaxIndex(MmrValues(remaining, selected, vecs, lambda, sqrt))
  {
    ghost var vals := MmrValues(remaining, selected, vecs, lambda, sqrt);
    var bestMmr := CandidateMmr(remaining[0], selected, vecs, lambda, sqrt);
    bestIdx := 0;
    assert vals[..1] == [vals[0]];
    for idx := 1 to |remaining|
      invariant bestIdx == FirstMaxIndex(vals[..idx]) && bestMmr == vals[bestIdx]
    {
      var mmr := CandidateMmr(remaining[idx], selected, vecs, lambda, sqrt);
      FirstMaxIndexStep(vals, idx);
      if mmr > bestMmr {
        bestMmr := mmr;
        bestIdx := idx;
      }
    }
    assert vals[..|remaining|] == vals;
  }

  // One later round of the loop, as the spec takes it.
  lemma MmrLoopUnfold(remaining: seq<CandidateScore>, selected: seq<CandidateScore>, vecs: map<int, Vector>, k: int, lambda: real, sqrt: real -> real, i: nat)
    requires IsSqrt(sqrt) && remaining != [] && |selected| < k
    requires i == PickIndex(remaining, selected, vecs, lambda, sqrt)
    ensures MmrLoop(remaining, selected, vecs, k, lambda, sqrt)
         == if remaining[i].tmdbId in IdsOf(selected) then MmrLoop(RemoveAt(remaining, i), selected, vecs, k, lambda, sqrt)
            else MmrLoop(RemoveAt(remaining, i), selected + [remaining[i]], vecs, k, lambda, sqrt)
  {
  }

  method MmrSelect(scored: seq<CandidateScore>, vecs: map<int, Vector>, k: int, lambda: real, sqrt: real -> real) returns (selected: seq<CandidateScore>)
    requires IsSqrt(sqrt)
    ensures selected == MmrSelectOf(scored, vecs, k, lambda, sqrt)
  {
    if scored == [] {
      return [];
    }
    var remaining := SortedByBaseScore(scored);
    selected := [];
    var selectedIds: set<int> := {};
    while remaining != [] && |selected| < k
      invariant selectedIds == IdsOf(selected)
      invariant MmrLoop(remaining, selected, vecs, k, lambda, sqrt) == MmrSelectOf(scored, vecs, k, lambda, sqrt)
      decreases |remaining|
    {
      if selected == [] {
        var best := remaining[0];
        MmrLoopUnfold(remaining, selected, vecs, k, lambda, sqrt, 0);
        remaining := RemoveAt(remaining, 0);
        IdsOfAppend(selected, best);
        selected := selected + [best];
        selectedIds := selectedIds + {best.tmdbId};
        continue;
      }
      var bestIdx := BestIndex(remaining, selected, vecs, lambda, sqrt);
      var best := remaining[bestIdx];
      MmrLoopUnfold(remaining, selected, vecs, k, lambda, sqrt, bestIdx);
      remaining := RemoveAt(remaining, bestIdx);
      if best.tmdbId in selectedIds {
        continue;
      }
      IdsOfAppend(selected, best);
      selected := selected + [best];
      selectedIds := selectedIds + {best.tmdbId};
    }
  }

  // --- Properties of the selection -------------------------------------------

  lemma IdsOfAppend(s: seq<CandidateScore>, c: CandidateScore)
    ensures IdsOf(s + [c]) == IdsOf(s) + {c.tmdbId}
  {
    assert forall x :: x in s + [c] <==> x in s || x == c;
  }

  // What every run of the loop from a given state guarantees.
  lemma {:induction false} MmrLoopFacts(remaining: seq<CandidateScore>, selected: seq<CandidateScore>, vecs: map<int, Vector>, k: int, lambda: real, sqrt: real -> real)
    requires IsSqrt(sqrt)
    ensures var r := MmrLoop(remaining, selected, vecs, k, lambda, sqrt);
      && |selected| <= |r| && r[..|selected|] == selected
      && |r| <= (if |selected| >= k then |selected| else k)
      && multiset(r) <= multiset(selected) + multiset(remaining)
    decreases |remaining|
  {
    if remaining == [] || |selected| >= k {
    } else {
      var i := PickIndex(remaining, selected, vecs, lambda, sqrt);
      var best := remaining[i];
      var rest := RemoveAt(remaining, i);
      if best.tmdbId in IdsOf(selected) {
        MmrLoopFacts(rest, selected, vecs, k, lambda, sqrt);
      } else {
        var sel' := selected + [best];
        MmrLoopFacts(rest, sel', vecs, k, lambda, sqrt);
        var r := MmrLoop(rest, sel', vecs, k, lambda, sqrt);
        assert r[..|selected|] == r[..|sel'|][..|selected|];
        assert multiset(sel') + multiset(rest) == multiset(selected) + multiset(remaining);
      }
    }
  }

  // Picks already made keep distinct ids: a candidate whose id was picked
  // before is dropped, not appended.
  lemma {:induction false} MmrLoopDistinct(remaining: seq<CandidateScore>, selected: seq<CandidateScore>, vecs: map<int, Vector>, k: int, lambda: real, sqrt: real -> real)
    requires IsSqrt(sqrt) && DistinctBy(selected, IdOf)
    ensures DistinctBy(MmrLoop(remaining, selected, vecs, k, lambda, sqrt), IdOf)
    decreases |remaining|
  {
    if remaining == [] || |selected| >= k {
    } else {
      var i := PickIndex(remaining, selected, vecs, lambda, sqrt);
      var best := remaining[i];
      var rest := RemoveAt(remaining, i);
      if best.tmdbId in IdsOf(selected) {
        MmrLoopDistinct(rest, selected, vecs, k, lambda, sqrt);
      } else {
        var sel' := selected + [best];
        forall j | 0 <= j < |selected| ensures selected[j].tmdbId != best.tmdbId {
          assert selected[j] in selected;
        }
        assert DistinctBy(sel', IdOf);
        MmrLoopDistinct(rest, sel', vecs, k, lambda, sqrt);
      }
    }
  }

  lemma RemoveAtMembers<T>(s: seq<T>, i: nat, x: T)
    requires i < |s| && x in RemoveAt(s, i)
    ensures exists j :: 0 <= j < |s| && j != i && s[j] == x
  {
    var r := RemoveAt(s, i);
    var m :| 0 <= m < |r| && r[m] == x;
    if m < i {
      assert s[m] == x;
    } else {
      assert s[m + 1] == x;
    }
  }

  lemma RemoveAtDistinct(s: seq<CandidateScore>, i: nat)
    requires i < |s| && DistinctBy(s, IdOf)
    ensures DistinctBy(RemoveAt(s, i), IdOf)
  {
    var r := RemoveAt(s, i);
    forall a, b | 0 <= a < b < |r| ensures IdOf(r[a]) != IdOf(r[b]) {
      var a' := if a < i then a else a + 1;
      var b' := if b < i then b else b + 1;
      assert r[a] == s[a'] && r[b] == s[b'];
    }
  }

  // With distinct ids and no remaining id already selected, every round adds
  // one candidate.
  lemma {:induction false} MmrLoopCount(remaining: seq<CandidateScore>, selected: seq<CandidateScore>, vecs: map<int, Vector>, k: int, lambda: real, sqrt: real -> real)
    requires IsSqrt(sqrt) && |selected| <= k
    requires DistinctBy(remaining, IdOf)
    requires forall c :: c in remaining ==> c.tmdbId !in IdsOf(selected)
    ensures |MmrLoop(remaining, selected, vecs, k, lambda, sqrt)|
         == (if k < |selected| + |remaining| then k else |selected| + |remaining|)
    decreases |remaining|
  {
    if remaining != [] && |selected| < k {
      var i := PickIndex(remaining, selected, vecs, lambda, sqrt);
      var best := remaining[i];
      var rest := RemoveAt(remaining, i);
      assert best in remaining;
      var sel' := selected + [best];
      IdsOfAppend(selected, best);
      RemoveAtDistinct(remaining, i);
      forall c | c in rest ensures c.tmdbId !in IdsOf(sel') {
        RemoveAtMembers(remaining, i, c);
        var j :| 0 <= j < |remaining| && j != i && remaining[j] == c;
        assert IdOf(remaining[j]) != IdOf(remaining[i]);
        assert c in remaining;
      }
      MmrLoopCount(rest, sel', vecs, k, lambda, sqrt);
    }
  }

  // At most k picks (none for k <= 0), each taken from the input.
  lemma MmrSelectBounded(scored: seq<CandidateScore>, vecs: map<int, Vector>, k: int, lambda: real, sqrt: real -> real)
    requires IsSqrt(sqrt)
    ensures var r := MmrSelectOf(scored, vecs, k, lambda, sqrt);
      && |r| <= (if k > 0 then k else 0)
      && multiset(r) <= multiset(scored)
  {
    if scored != [] {
      MmrLoopFacts(SortedByBaseScore(scored), [], vecs, k, lambda, sqrt);
    }
  }

  // The picks have pairwise distinct ids.
  lemma MmrSelectDistinct(scored: seq<CandidateScore>, vecs: map<int, Vector>, k: int, lambda: real, sqrt: real -> real)
    requires IsSqrt(sqrt)
    ensures DistinctBy(MmrSelectOf(scored, vecs, k, lambda, sqrt), IdOf)
  {
    if scored != [] {
      MmrLoopDistinct(SortedByBaseScore(scored), [], vecs, k, lambda, sqrt);
    }
  }

  // For input with distinct ids, min(k, N) picks.
  lemma MmrSelectCount(scored: seq<CandidateScore>, vecs: map<int, Vector>, k: int, lambda: real, sqrt: real -> real)
    requires IsSqrt(sqrt) && k >= 0 && DistinctBy(scored, IdOf)
    ensures |MmrSelectOf(scored, vecs, k, lambda, sqrt)| == (if k < |scored| then k else |scored|)
  {
    if scored != [] {
      SortKeepsDistinct(scored, ByKeyDesc(BaseScoreOf), IdOf);
      MmrLoopCount(SortedByBaseScore(scored), [], vecs, k, lambda, sqrt);
    }
  }

  lemma MmrSelectStartsWithBest(scored: seq<CandidateScore>, vecs: map<int, Vector>, k: int, lambda: real, sqrt: real -> real)
    requires IsSqrt(sqrt) && k >= 1 && scored != []
    ensures |MmrSelectOf(scored, vecs, k, lambda, sqrt)| >= 1
    ensures MmrSelectOf(scored, vecs, k, lambda, sqrt)[0] == SortedByBaseScore(scored)[0]
  {
    var sorted := SortedByBaseScore(scored);
    var first := [sorted[0]];
    assert IdsOf([]) == {};
    MmrLoopUnfold(sorted, [], vecs, k, lambda, sqrt, 0);
    assert [] + [sorted[0]] == first;
    MmrLoopFacts(RemoveAt(sorted, 0), first, vecs, k, lambda, sqrt);
  }

  // The first pick is the earliest candidate with the largest base score.
  lemma MmrSelectFirst(scored: seq<CandidateScore>, vecs: map<int, Vector>, k: int, lambda: real, sqrt: real -> real) returns (j: nat)
    requires IsSqrt(sqrt) && k >= 1 && scored != []
    ensures j < |scored| && |MmrSelectOf(scored, vecs, k, lambda, sqrt)| >= 1
    ensures MmrSelectOf(scored, vecs, k, lambda, sqrt)[0] == scored[j]
    ensures forall i :: 0 <= i < |scored| ==> scored[i].baseScore <= scored[j].baseScore
    ensures forall i :: 0 <= i < j ==> scored[i].baseScore < scored[j].baseScore
  {
    MmrSelectStartsWithBest(scored, vecs, k, lambda, sqrt);
    ByKeyDescTotal(BaseScoreOf);
    j := SortFirstIsEarliestMax(scored, ByKeyDesc(BaseScoreOf));
    forall i | 0 <= i < |scored| ensures scored[i].baseScore <= scored[j].baseScore {
      ByKeyDescApply(BaseScoreOf, scored[j], scored[i]);
    }
    forall i | 0 <= i < j ensures scored[i].baseScore < scored[j].baseScore {
      ByKeyDescApply(BaseScoreOf, scored[i], scored[j]);
    }
  }

  // A later round picks the earliest remaining candidate of largest MMR value,
  // where a candidate without an embedding has redundancy 0.2 and any other
  // a redundancy in [0, 1].
  lemma PickIsEarliestBestMmr(remaining: seq<CandidateScore>, selected: seq<CandidateScore>, vecs: map<int, Vector>, lambda: real, sqrt: real -> real)
    requires IsSqrt(sqrt) && remaining != [] && selected != []
    ensures var i := PickIndex(remaining, selected, vecs, lambda, sqrt);
      && (forall m :: 0 <= m < |remaining| ==>
            MmrValue(remaining[m], selected, vecs, lambda, sqrt) <= MmrValue(remaining[i], selected, vecs, lambda, sqrt))
      && (forall m :: 0 <= m < i ==>
            MmrValue(remaining[m], selected, vecs, lambda, sqrt) < MmrValue(remaining[i], selected, vecs, lambda, sqrt))
  {
  }
}
