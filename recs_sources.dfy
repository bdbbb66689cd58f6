// The queries that give the recommenders their seeds and exclusions: the
// user's best-rated films, a fallback ordering over all watched films, and
// the sets of films watched or recently recommended. A query reads the rows
// of a table as a scan lists them.
module RecsSources {
  import opened Wrappers
  import opened Text
  import opened Dates
  import opened Sorting
  import opened RowOrder
  import opened WatchedRepo
  import opened RecommendationsRepo

  const SecondsPerDay: real := 86400.0

  // `now - timedelta(days=days)`, in seconds.
  function Since(now: real, days: int): real
  {
    now - days as real * SecondsPerDay
  }

  function TmdbIds(rows: seq<(int, WatchedRow)>): (r: seq<int>)
    ensures |r| == |rows| && forall i :: 0 <= i < |rows| ==> r[i] == rows[i].1.tmdbId
  {
    seq(|rows|, i requires 0 <= i < |rows| => rows[i].1.tmdbId)
  }

  // Row dates come from a date column, so they are calendar dates.
  ghost predicate DatesValid(rows: seq<(int, WatchedRow)>)
  {
    forall i :: 0 <= i < |rows| && rows[i].1.watchedDate.Some? ==> Valid(rows[i].1.watchedDate.value)
  }

  function IsTopRated(userId: int, minRating: real): ((int, WatchedRow)) -> bool
  {
    (e: (int, WatchedRow)) => e.1.userId == userId && e.1.rating.Some? && e.1.rating.value >= minRating
  }

  // `your_rating DESC, watched_date DESC NULLS LAST, id DESC`; only rated
  // rows reach it, so the missing-rating placeholder never compares.
  function TopRatedRank(e: (int, WatchedRow)): (r: seq<real>)
    ensures |r| == 4
  {
    [e.1.rating.GetOr(0.0)] + DateDescNullsLast(e.1.watchedDate) + [e.0 as real]
  }

  function TopRatedRows(listing: seq<(int, WatchedRow)>, userId: int, minRating: real, limit: nat): seq<(int, WatchedRow)>
  {
    Take(SortBy(Filter(listing, IsTopRated(userId, minRating)), ByRank(TopRatedRank)), limit)
  }

  // `get_top_rated_tmdb_ids`.
  function TopRatedIds(listing: seq<(int, WatchedRow)>, userId: int, minRating: real, limit: nat): (ids: seq<int>)
    ensures |ids| <= limit
  {
    TmdbIds(TopRatedRows(listing, userId, minRating, limit))
  }

  // Two rows in top-rated order: the better rating first, then on a tie the
  // later date, an undated row last, then the later id.
  predicate TopRatedBefore(x: (int, WatchedRow), y: (int, WatchedRow))
    requires x.1.rating.Some? && y.1.rating.Some?
  {
    x.1.rating.value >= y.1.rating.value
    && (x.1.rating == y.1.rating ==>
          (x.1.watchedDate.None? ==> y.1.watchedDate.None?)
          && (x.1.watchedDate.Some? && y.1.watchedDate.Some? ==> !Before(x.1.watchedDate.value, y.1.watchedDate.value))
          && (x.1.watchedDate == y.1.watchedDate ==> x.0 >= y.0))
  }

  lemma TopRatedRankMeans(x: (int, WatchedRow), y: (int, WatchedRow))
    requires x.1.rating.Some? && y.1.rating.Some?
    requires x.1.watchedDate.Some? ==> Valid(x.1.watchedDate.value)
    requires y.1.watchedDate.Some? ==> Valid(y.1.watchedDate.value)
    requires LexGe(TopRatedRank(x), TopRatedRank(y))
    ensures TopRatedBefore(x, y)
  {
    var a := TopRatedRank(x);
    var b := TopRatedRank(y);
    LexGeHead(a, b);
    if x.1.rating == y.1.rating {
      assert a[1..] == DateDescNullsLast(x.1.watchedDate) + [x.0 as real];
      assert b[1..] == DateDescNullsLast(y.1.watchedDate) + [y.0 as real];
      DateRankOrder(x.1.watchedDate, y.1.watchedDate, [x.0 as real], [y.0 as real]);
    }
  }

  // The top-rated rows are the user's rows rated at least minRating, in
  // top-rated order, as many as the limit allows, with no de-duplication of
  // films.
  lemma TopRatedFacts(listing: seq<(int, WatchedRow)>, userId: int, minRating: real, limit: nat)
    requires DatesValid(listing)
    ensures var rows := TopRatedRows(listing, userId, minRating, limit);
      var all := Filter(listing, IsTopRated(userId, minRating));
      && |rows| == (if limit < |all| then limit else |all|)
      && (forall i :: 0 <= i < |rows| ==>
            rows[i] in listing && rows[i].1.userId == userId && rows[i].1.rating.Some? && rows[i].1.rating.value >= minRating)
      && (forall i, j :: 0 <= i < j < |rows| ==> TopRatedBefore(rows[i], rows[j]))
  {
    var all := Filter(listing, IsTopRated(userId, minRating));
    ByRankTotal(TopRatedRank, 4);
    SortTake(all, ByRank(TopRatedRank), limit);
    var rows := TopRatedRows(listing, userId, minRating, limit);
    forall i | 0 <= i < |rows|
      ensures rows[i] in listing && rows[i].1.userId == userId && rows[i].1.rating.Some?
      ensures rows[i].1.watchedDate.Some? ==> Valid(rows[i].1.watchedDate.value)
    {
      assert rows[i] in all;
      var k :| 0 <= k < |listing| && listing[k] == rows[i];
    }
    forall i, j | 0 <= i < j < |rows| ensures TopRatedBefore(rows[i], rows[j]) {
      TopRatedRankMeans(rows[i], rows[j]);
    }
  }

  function OfUser(userId: int): ((int, WatchedRow)) -> bool
  {
    (e: (int, WatchedRow)) => e.1.userId == userId
  }

  // `your_rating DESC NULLS LAST, watched_date DESC NULLS LAST, id DESC`.
  function FallbackRank(e: (int, WatchedRow)): (r: seq<real>)
    ensures |r| == 5
  {
    RealDescNullsLast(e.1.rating) + DateDescNullsLast(e.1.watchedDate) + [e.0 as real]
  }

  function FallbackRows(listing: seq<(int, WatchedRow)>, userId: int, limit: nat): seq<(int, WatchedRow)>
  {
    Take(SortBy(Filter(listing, OfUser(userId)), ByRank(FallbackRank)), limit)
  }

  // `get_fallback_top_tmdb_ids`.
  function FallbackIds(listing: seq<(int, WatchedRow)>, userId: int, limit: nat): (ids: seq<int>)
    ensures |ids| <= limit
  {
    TmdbIds(FallbackRows(listing, userId, limit))
  }

  // The fallback takes every row of the user, rated or not: rated rows
  // first, best rating first.
  lemma FallbackFacts(listing: seq<(int, WatchedRow)>, userId: int, limit: nat)
    ensures var rows := FallbackRows(listing, userId, limit);
      var all := Filter(listing, OfUser(userId));
      && |rows| == (if limit < |all| then limit else |all|)
      && (forall i :: 0 <= i < |rows| ==> rows[i] in listing && rows[i].1.userId == userId)
      && (forall i, j :: 0 <= i < j < |rows| && rows[j].1.rating.Some? ==>
            rows[i].1.rating.Some? && rows[i].1.rating.value >= rows[j].1.rating.value)
  {
    var all := Filter(listing, OfUser(userId));
    ByRankTotal(FallbackRank, 5);
    SortTake(all, ByRank(FallbackRank), limit);
    var rows := FallbackRows(listing, userId, limit);
    forall i, j | 0 <= i < j < |rows| && rows[j].1.rating.Some?
      ensures rows[i].1.rating.Some? && rows[i].1.rating.value >= rows[j].1.rating.value
    {
      var a := FallbackRank(rows[i]);
      var b := FallbackRank(rows[j]);
      LexGeHead(a, b);
      if a[0] == b[0] {
        LexGeHead(a[1..], b[1..]);
      }
    }
  }

  // `get_watched_tmdb_ids`: the films of the user's watched rows.
  function WatchedIdSet(rows: map<int, WatchedRow>, userId: int): (r: set<int>)
    ensures forall id :: id in rows && rows[id].userId == userId ==> rows[id].tmdbId in r
    ensures forall t :: t in r ==> exists id :: id in rows && rows[id].userId == userId && rows[id].tmdbId == t
  {
    set id | id in rows && rows[id].userId == userId :: rows[id].tmdbId
  }

  // The item belongs to one of the user's recommendations made at or after
  // `since`.
  predicate RecentItemOf(recs: map<int, Recommendation>, it: RecItem, userId: int, since: real)
  {
    var rid := it.key.recommendationId;
    rid in recs && recs[rid].userId == userId && recs[rid].createdAt >= since
  }

  // `get_recent_recommended_tmdb_ids` (the set form).
  function RecentRecommendedSet(recs: map<int, Recommendation>, items: map<int, RecItem>, userId: int, now: real, days: int): (r: set<int>)
    ensures forall id :: id in items && RecentItemOf(recs, items[id], userId, Since(now, days)) ==> items[id].key.tmdbId in r
    ensures forall t :: t in r ==> exists id :: id in items && RecentItemOf(recs, items[id], userId, Since(now, days)) && items[id].key.tmdbId == t
  {
    set id | id in items && RecentItemOf(recs, items[id], userId, Since(now, days)) :: items[id].key.tmdbId
  }

  // A longer look-back never forgets a film.
  lemma RecentSetGrowsWithDays(recs: map<int, Recommendation>, items: map<int, RecItem>, userId: int, now: real, days: int, more: int)
    requires days <= more
    ensures RecentRecommendedSet(recs, items, userId, now, days) <= RecentRecommendedSet(recs, items, userId, now, more)
  {
    forall t | t in RecentRecommendedSet(recs, items, userId, now, days)
      ensures t in RecentRecommendedSet(recs, items, userId, now, more)
    {
      var id :| id in items && RecentItemOf(recs, items[id], userId, Since(now, days)) && items[id].key.tmdbId == t;
      assert Since(now, more) <= Since(now, days);
    }
  }
}
