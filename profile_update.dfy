// `update_taste_profile_v0`: read the user's most recent rated films, compute
// the weights and summary from them, and write the profile with the
// avoidance patterns reset.
module ProfileUpdate {
  import opened Wrappers
  import opened Json
  import opened Text
  import opened Dates
  import opened Sorting
  import opened RowOrder
  import opened WatchedRepo
  import opened ProfileRepo
  import opened TasteProfileV0
  import opened RecsSources
  import opened RecsContext

  const MaxRatedFilms: nat := 250
  const ProfileSources: set<string> := {"letterboxd", "agent", "manual"}

  function IsProfileRow(userId: int, sources: set<string>): ((int, WatchedRow)) -> bool
  {
    (e: (int, WatchedRow)) => e.1.userId == userId && e.1.rating.Some? && e.1.source in sources
  }

  // The rows of the rated-films query, newest watch first (undated last,
  // then the later id), at most `maxRated` of them.
  function ProfileQueryRows(listing: seq<(int, WatchedRow)>, userId: int, sources: set<string>, maxRated: nat): seq<(int, WatchedRow)>
  {
    Take(SortBy(Filter(listing, IsProfileRow(userId, sources)), ByRank(RecentWatchedRank)), maxRated)
  }

  // The query's (tmdb_id, your_rating) pairs.
  function ProfileRows(listing: seq<(int, WatchedRow)>, userId: int, sources: set<string>, maxRated: nat): (r: seq<RatedRow>)
    ensures |r| == |ProfileQueryRows(listing, userId, sources, maxRated)|
  {
    var rows := ProfileQueryRows(listing, userId, sources, maxRated);
    seq(|rows|, i requires 0 <= i < |rows| => RatedRow(Some(rows[i].1.tmdbId), rows[i].1.rating))
  }

  // Every row the query returns is one of the user's rated rows from an
  // accepted source; with fewer such rows than the cap, all of them.
  lemma ProfileRowsFacts(listing: seq<(int, WatchedRow)>, userId: int, sources: set<string>, maxRated: nat)
    ensures var rows := ProfileQueryRows(listing, userId, sources, maxRated);
      var all := Filter(listing, IsProfileRow(userId, sources));
      && |rows| == (if maxRated < |all| then maxRated else |all|)
      && (forall i :: 0 <= i < |rows| ==>
            rows[i] in listing && rows[i].1.userId == userId && rows[i].1.rating.Some? && rows[i].1.source in sources)
      && (maxRated >= |all| ==> forall x :: x in all ==> x in rows)
  {
    var all := Filter(listing, IsProfileRow(userId, sources));
    ByRankTotal(RecentWatchedRank, 3);
    SortTake(all, ByRank(RecentWatchedRank), maxRated);
    var rows := ProfileQueryRows(listing, userId, sources, maxRated);
    forall i | 0 <= i < |rows|
      ensures rows[i] in listing && rows[i].1.userId == userId && rows[i].1.rating.Some? && rows[i].1.source in sources
    {
      assert rows[i] in all;
    }
  }

  // Rows with an id and a rating are all kept by the rated-films loop.
  lemma {:induction false} RatedOfComplete(rows: seq<RatedRow>)
    requires forall i :: 0 <= i < |rows| ==> rows[i].tmdbId.Some? && rows[i].rating.Some?
    ensures |RatedOf(rows)| == |rows|
  {
    if rows != [] {
      RatedOfComplete(rows[..|rows| - 1]);
    }
  }

  // The recompute counts every row the query returns as a rated film.
  lemma RatedUsedIsQuerySize(listing: seq<(int, WatchedRow)>, userId: int, sources: set<string>, maxRated: nat,
                             payloads: map<int, map<string, Json>>, like: real, dislike: real, computedAt: string)
    ensures ProfileOf(ProfileRows(listing, userId, sources, maxRated), payloads, like, dislike, computedAt).0.ratedUsed
      == |ProfileQueryRows(listing, userId, sources, maxRated)|
  {
    var rows := ProfileRows(listing, userId, sources, maxRated);
    ProfileRowsFacts(listing, userId, sources, maxRated);
    RatedOfComplete(rows);
  }

  // The profile table after the recompute over the watched rows.
  ghost predicate ProfileRecomputed(prev: map<int, Profile>, profiles: map<int, Profile>, watchedRows: map<int, WatchedRow>,
                                    userId: int, payloads: map<int, map<string, Json>>, computedAt: string, now: real)
  {
    exists listing ::
      && Lists(listing, watchedRows)
      && var (w, summary) := ProfileOf(ProfileRows(listing, userId, ProfileSources, MaxRatedFilms), payloads,
                                       DefaultLikeThreshold, DefaultDislikeThreshold, computedAt);
         profiles == prev[userId := Upserted(if userId in prev then Some(prev[userId]) else None,
                                             summary, WeightsJson(w).fields, Some(map[]), now)]
  }

  // The whole recompute with the defaults: 4.0 and 2.5 as thresholds, at
  // most 250 films, every source. `payloads` holds the details that could
  // be fetched; a film whose fetch failed is missing from it.
  method UpdateTasteProfile(watched: WatchedStore, store: ProfileStore, userId: int,
                            payloads: map<int, map<string, Json>>, computedAt: string, now: real)
    requires watched.Valid()
    modifies store
    ensures ProfileRecomputed(old(store.profiles), store.profiles, watched.rows, userId, payloads, computedAt, now)
    ensures userId in store.profiles && store.profiles[userId].avoids == map[]
    ensures Get(store.profiles[userId].weights, "version") == JStr(Version)
  {
    var listing := watched.Scan();
    var rows := ProfileRows(listing, userId, ProfileSources, MaxRatedFilms);
    var w, summary := ComputeProfile(rows, payloads, DefaultLikeThreshold, DefaultDislikeThreshold, computedAt);
    store.UpsertProfile(userId, summary, WeightsJson(w).fields, Some(map[]), now);
  }
}
