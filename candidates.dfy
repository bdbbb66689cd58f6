// The seed choice and the exclusion filter shared by `recommend_v0` and
// `recommend_v1`: seeds are the top-rated films or, when there are fewer than
// ten, the fallback list; candidates are the de-duplicated pool minus watched,
// recently recommended and seed ids.
module Candidates {
  import Tmdb

  const MinSeeds: nat := 10

  // The top-rated seeds, or the fallback list when there are fewer than ten.
  function Seeds(topRated: seq<int>, fallback: seq<int>): seq<int>
  {
    if |topRated| < MinSeeds then fallback else topRated
  }

  predicate Excluded(id: int, watched: set<int>, recent: set<int>, seeds: set<int>)
  {
    id in watched || id in recent || id in seeds
  }

  // The de-duplicated pool minus watched, recently recommended and seed ids, in
  // dict order.
  function FilterOf(byId: seq<Tmdb.MovieCandidate>, watched: set<int>, recent: set<int>, seeds: set<int>): (r: seq<Tmdb.MovieCandidate>)
    ensures |r| <= |byId|
  {
    if byId == [] then []
    else
      var c := byId[|byId| - 1];
      FilterOf(byId[..|byId| - 1], watched, recent, seeds) + (if Excluded(c.tmdbId, watched, recent, seeds) then [] else [c])
  }

  // A candidate survives exactly when it is in the pool and not excluded.
  lemma {:induction false} FilterMembers(byId: seq<Tmdb.MovieCandidate>, watched: set<int>, recent: set<int>, seeds: set<int>, c: Tmdb.MovieCandidate)
    ensures c in FilterOf(byId, watched, recent, seeds) <==> c in byId && !Excluded(c.tmdbId, watched, recent, seeds)
  {
    if byId != [] {
      var init := byId[..|byId| - 1];
      FilterMembers(init, watched, recent, seeds, c);
      assert byId == init + [byId[|byId| - 1]];
    }
  }

  // The filter keeps the order of the pool.
  lemma {:induction false} FilterAppend(a: seq<Tmdb.MovieCandidate>, b: seq<Tmdb.MovieCandidate>, watched: set<int>, recent: set<int>, seeds: set<int>)
    ensures FilterOf(a + b, watched, recent, seeds) == FilterOf(a, watched, recent, seeds) + FilterOf(b, watched, recent, seeds)
  {
    if b == [] {
      assert a + b == a;
    } else {
      assert (a + b)[..|a + b| - 1] == a + b[..|b| - 1];
      FilterAppend(a, b[..|b| - 1], watched, recent, seeds);
    }
  }

  method FilterCandidates(byId: seq<Tmdb.MovieCandidate>, watched: set<int>, recent: set<int>, seeds: set<int>) returns (out: seq<Tmdb.MovieCandidate>)
    ensures out == FilterOf(byId, watched, recent, seeds)
  {
    out := [];
    for i := 0 to |byId|
      invariant out == FilterOf(byId[..i], watched, recent, seeds)
    {
      assert byId[..i + 1][..i] == byId[..i];
      var tid := byId[i].tmdbId;
      if tid in watched || tid in recent || tid in seeds {
        continue;
      }
      out := out + [byId[i]];
    }
    assert byId[..|byId|] == byId;
  }

  predicate UniqueIds(s: seq<Tmdb.MovieCandidate>)
  {
    forall i, j :: 0 <= i < j < |s| ==> s[i].tmdbId != s[j].tmdbId
  }

  // Filtering keeps distinct ids distinct.
  lemma {:induction false} FilterKeepsDistinct(byId: seq<Tmdb.MovieCandidate>, watched: set<int>, recent: set<int>, seeds: set<int>)
    requires UniqueIds(byId)
    ensures UniqueIds(FilterOf(byId, watched, recent, seeds))
  {
    if byId != [] {
      var init := byId[..|byId| - 1];
      var c := byId[|byId| - 1];
      FilterKeepsDistinct(init, watched, recent, seeds);
      var prev := FilterOf(init, watched, recent, seeds);
      if !Excluded(c.tmdbId, watched, recent, seeds) {
        var r := prev + [c];
        forall i, j | 0 <= i < j < |r|
          ensures r[i].tmdbId != r[j].tmdbId
        {
          if j == |prev| {
            FilterMembers(init, watched, recent, seeds, prev[i]);
            var k :| 0 <= k < |init| && init[k] == prev[i];
            assert byId[k] == prev[i] && r[i] == prev[i] && r[j] == c;
          } else {
            assert r[i] == prev[i] && r[j] == prev[j];
          }
        }
      }
    }
  }
}
