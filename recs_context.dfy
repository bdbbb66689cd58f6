// The ordered, limited lists the recommender prompts carry: the films most
// recently recommended to the user and the films the user watched last.
module RecsContext {
  import opened Wrappers
  import opened Text
  import opened Dates
  import opened Sorting
  import opened RowOrder
  import opened WatchedRepo
  import opened RecommendationsRepo
  import opened RecsSources

  const RecentRecommendedLimit: nat := 200
  const RecentWatchedLimit: nat := 50

  function IsRecentItem(recs: map<int, Recommendation>, userId: int, since: real): ((int, RecItem)) -> bool
  {
    (e: (int, RecItem)) => RecentItemOf(recs, e.1, userId, since)
  }

  // `created_at DESC, id DESC` over the items joined to their
  // recommendation.
  function RecentRank(recs: map<int, Recommendation>): ((int, RecItem)) -> seq<real>
  {
    (e: (int, RecItem)) =>
      var rid := e.1.key.recommendationId;
      [if rid in recs then recs[rid].createdAt else 0.0, e.0 as real]
  }

  function RecentRecommendedRows(recs: map<int, Recommendation>, itemsListing: seq<(int, RecItem)>,
                                 userId: int, now: real, days: int, limit: nat): seq<(int, RecItem)>
  {
    Take(SortBy(Filter(itemsListing, IsRecentItem(recs, userId, Since(now, days))), ByRank(RecentRank(recs))), limit)
  }

  // `get_recent_recommended_tmdb_ids` (the list form).
  function RecentRecommendedIds(recs: map<int, Recommendation>, itemsListing: seq<(int, RecItem)>,
                                userId: int, now: real, days: int, limit: nat): (ids: seq<int>)
    ensures |ids| <= limit
  {
    var rows := RecentRecommendedRows(recs, itemsListing, userId, now, days, limit);
    seq(|rows|, i requires 0 <= i < |rows| => rows[i].1.key.tmdbId)
  }

  lemma RecentRankLength(recs: map<int, Recommendation>)
    ensures forall x :: |RecentRank(recs)(x)| == 2
  {
  }

  // The list holds the items of the user's recommendations made since the
  // look-back began, newest recommendation first and, within one
  // recommendation, the latest item first.
  lemma RecentRecommendedFacts(recs: map<int, Recommendation>, itemsListing: seq<(int, RecItem)>,
                               userId: int, now: real, days: int, limit: nat)
    ensures var rows := RecentRecommendedRows(recs, itemsListing, userId, now, days, limit);
      var all := Filter(itemsListing, IsRecentItem(recs, userId, Since(now, days)));
      && |rows| == (if limit < |all| then limit else |all|)
      && (forall i :: 0 <= i < |rows| ==> rows[i] in itemsListing && RecentItemOf(recs, rows[i].1, userId, Since(now, days)))
      && (forall i, j :: 0 <= i < j < |rows| ==>
            var ci := recs[rows[i].1.key.recommendationId].createdAt;
            var cj := recs[rows[j].1.key.recommendationId].createdAt;
            ci >= cj && (ci == cj ==> rows[i].0 >= rows[j].0))
  {
    var all := Filter(itemsListing, IsRecentItem(recs, userId, Since(now, days)));
    RecentRankLength(recs);
    ByRankTotal(RecentRank(recs), 2);
    SortTake(all, ByRank(RecentRank(recs)), limit);
    var rows := RecentRecommendedRows(recs, itemsListing, userId, now, days, limit);
    forall i | 0 <= i < |rows| ensures rows[i] in itemsListing && RecentItemOf(recs, rows[i].1, userId, Since(now, days)) {
      assert rows[i] in all;
    }
    forall i, j | 0 <= i < j < |rows|
      ensures var ci := recs[rows[i].1.key.recommendationId].createdAt;
            var cj := recs[rows[j].1.key.recommendationId].createdAt;
            ci >= cj && (ci == cj ==> rows[i].0 >= rows[j].0)
    {
      assert rows[i] in all && rows[j] in all;
      LexGeHead(RecentRank(recs)(rows[i]), RecentRank(recs)(rows[j]));
    }
  }

  // Over a scan of the items table, the list's films lie in the set the
  // exclusion query returns.
  lemma RecentListWithinSet(recs: map<int, Recommendation>, items: map<int, RecItem>, itemsListing: seq<(int, RecItem)>,
                            userId: int, now: real, days: int, limit: nat)
    requires Lists(itemsListing, items)
    ensures forall t :: t in RecentRecommendedIds(recs, itemsListing, userId, now, days, limit) ==>
      t in RecentRecommendedSet(recs, items, userId, now, days)
  {
    var rows := RecentRecommendedRows(recs, itemsListing, userId, now, days, limit);
    var ids := RecentRecommendedIds(recs, itemsListing, userId, now, days, limit);
    RecentRecommendedFacts(recs, itemsListing, userId, now, days, limit);
    forall t | t in ids ensures t in RecentRecommendedSet(recs, items, userId, now, days) {
      var i :| 0 <= i < |ids| && ids[i] == t;
      var k :| 0 <= k < |itemsListing| && itemsListing[k] == rows[i];
      assert itemsListing[k].0 in items;
    }
  }

  // A scanned item that passes the WHERE clause is among the filtered rows.
  lemma ScannedItemFiltered(recs: map<int, Recommendation>, items: map<int, RecItem>, itemsListing: seq<(int, RecItem)>,
                            userId: int, since: real, id: int)
    requires Lists(itemsListing, items)
    requires id in items && RecentItemOf(recs, items[id], userId, since)
    ensures (id, items[id]) in Filter(itemsListing, IsRecentItem(recs, userId, since))
  {
    assert id in Ids(itemsListing);
    var k :| 0 <= k < |itemsListing| && itemsListing[k].0 == id;
    assert itemsListing[k] == (id, items[id]);
  }

  // With a limit that cuts nothing off, every filtered item is listed.
  lemma RecentRowsComplete(recs: map<int, Recommendation>, itemsListing: seq<(int, RecItem)>,
                           userId: int, now: real, days: int, limit: nat)
    requires limit >= |Filter(itemsListing, IsRecentItem(recs, userId, Since(now, days)))|
    ensures forall x :: x in Filter(itemsListing, IsRecentItem(recs, userId, Since(now, days))) ==>
      x in RecentRecommendedRows(recs, itemsListing, userId, now, days, limit)
  {
    RecentRankLength(recs);
    ByRankTotal(RecentRank(recs), 2);
    SortTake(Filter(itemsListing, IsRecentItem(recs, userId, Since(now, days))), ByRank(RecentRank(recs)), limit);
  }

  // With a limit that cuts nothing off, the list holds every film of the
  // set: the two queries agree.
  lemma RecentListCoversSet(recs: map<int, Recommendation>, items: map<int, RecItem>, itemsListing: seq<(int, RecItem)>,
                            userId: int, now: real, days: int, limit: nat)
    requires Lists(itemsListing, items)
    requires limit >= |Filter(itemsListing, IsRecentItem(recs, userId, Since(now, days)))|
    ensures forall t :: t in RecentRecommendedSet(recs, items, userId, now, days) ==>
      t in RecentRecommendedIds(recs, itemsListing, userId, now, days, limit)
  {
    var since := Since(now, days);
    var rows := RecentRecommendedRows(recs, itemsListing, userId, now, days, limit);
    var ids := RecentRecommendedIds(recs, itemsListing, userId, now, days, limit);
    RecentRowsComplete(recs, itemsListing, userId, now, days, limit);
    forall t | t in RecentRecommendedSet(recs, items, userId, now, days) ensures t in ids {
      var id :| id in items && RecentItemOf(recs, items[id], userId, since) && items[id].key.tmdbId == t;
      ScannedItemFiltered(recs, items, itemsListing, userId, since, id);
      var i :| 0 <= i < |rows| && rows[i] == (id, items[id]);
      assert ids[i] == t;
    }
  }

  // `watched_date DESC NULLS LAST, id DESC`.
  function RecentWatchedRank(e: (int, WatchedRow)): (r: seq<real>)
    ensures |r| == 3
  {
    DateDescNullsLast(e.1.watchedDate) + [e.0 as real]
  }

  function RecentWatchedRows(listing: seq<(int, WatchedRow)>, userId: int, limit: nat): seq<(int, WatchedRow)>
  {
    Take(SortBy(Filter(listing, OfUser(userId)), ByRank(RecentWatchedRank)), limit)
  }

  // `get_recent_watched_tmdb_ids`.
  function RecentWatchedIds(listing: seq<(int, WatchedRow)>, userId: int, limit: nat): (ids: seq<int>)
    ensures |ids| <= limit
  {
    TmdbIds(RecentWatchedRows(listing, userId, limit))
  }

  // The user's rows, the latest watch first, undated rows after all dated
  // ones, and the later id first among rows of one date.
  lemma RecentWatchedFacts(listing: seq<(int, WatchedRow)>, userId: int, limit: nat)
    requires DatesValid(listing)
    ensures var rows := RecentWatchedRows(listing, userId, limit);
      var all := Filter(listing, OfUser(userId));
      && |rows| == (if limit < |all| then limit else |all|)
      && (forall i :: 0 <= i < |rows| ==> rows[i] in listing && rows[i].1.userId == userId)
      && (forall i, j :: 0 <= i < j < |rows| ==>
            (rows[i].1.watchedDate.None? ==> rows[j].1.watchedDate.None?)
            && (rows[i].1.watchedDate.Some? && rows[j].1.watchedDate.Some? ==> !Before(rows[i].1.watchedDate.value, rows[j].1.watchedDate.value))
            && (rows[i].1.watchedDate == rows[j].1.watchedDate ==> rows[i].0 >= rows[j].0))
  {
    var all := Filter(listing, OfUser(userId));
    ByRankTotal(RecentWatchedRank, 3);
    SortTake(all, ByRank(RecentWatchedRank), limit);
    var rows := RecentWatchedRows(listing, userId, limit);
    forall i | 0 <= i < |rows|
      ensures rows[i] in listing && rows[i].1.userId == userId
      ensures rows[i].1.watchedDate.Some? ==> Valid(rows[i].1.watchedDate.value)
    {
      assert rows[i] in all;
      var k :| 0 <= k < |listing| && listing[k] == rows[i];
    }
    forall i, j | 0 <= i < j < |rows|
      ensures (rows[i].1.watchedDate.None? ==> rows[j].1.watchedDate.None?)
            && (rows[i].1.watchedDate.Some? && rows[j].1.watchedDate.Some? ==> !Before(rows[i].1.watchedDate.value, rows[j].1.watchedDate.value))
            && (rows[i].1.watchedDate == rows[j].1.watchedDate ==> rows[i].0 >= rows[j].0)
    {
      DateRankOrder(rows[i].1.watchedDate, rows[j].1.watchedDate, [rows[i].0 as real], [rows[j].0 as real]);
    }
  }
}
