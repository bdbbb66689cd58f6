// `save_review`: record a user's rating and review of a film. A review of a
// recommended item also records the item's feedback and marks it watched;
// every review writes the watched row for today and recomputes the taste
// profile.
module ReviewService {
  import opened Wrappers
  import opened Json
  import opened Dates
  import opened DbErrors
  import opened RowOrder
  import opened Tmdb
  import opened WatchedRepo
  import opened RecommendationsRepo
  import opened ProfileRepo
  import opened TasteProfileV0
  import opened ProfileUpdate

  const AgentMode: string := "agent"
  const WatchedStatus: string := "watched"

  // `_today_in_tz`: today's date in the user's zone, or in UTC when the zone
  // is unknown (`zoneToday` is None).
  function TodayIn(zoneToday: Option<Date>, utcToday: Date): (d: Date)
    ensures zoneToday.Some? ==> d == zoneToday.value
    ensures zoneToday.None? ==> d == utcToday
  {
    if zoneToday.Some? then zoneToday.value else utcToday
  }

  // The review goes through a recommended item only in agent mode with an
  // item id; the watched row's source says which path was taken.
  predicate ViaItem(mode: string, itemId: Option<int>)
  {
    mode == AgentMode && itemId.Some?
  }

  function ReviewSource(mode: string, itemId: Option<int>): (s: string)
    ensures s in Sources
    ensures s == "agent" <==> ViaItem(mode, itemId)
  {
    if ViaItem(mode, itemId) then "agent" else "manual"
  }

  // The watched table after the review's upsert, as `upsert_watched` leaves
  // it: a new row, or the matching row merged.
  ghost predicate WatchedWritten(prev: map<int, WatchedRow>, prevNext: int, rows: map<int, WatchedRow>,
                                 userId: int, details: MovieDetails, tmdbId: int, rating: Option<real>,
                                 review: Option<string>, today: Date, source: string)
  {
    var key := MatchKey(userId, tmdbId, Some(today));
    ((forall id :: id in prev ==> KeyOf(prev[id]) != key) ==>
      prevNext !in prev && rows == prev[prevNext := WatchedRow(userId, tmdbId, details.title, details.year, rating, review, Some(today), source)])
    && (forall id :: id in prev && KeyOf(prev[id]) == key ==>
      rows == prev[id := Merge(prev[id], details.title, details.year, rating, review, source)])
  }

  // The agent-mode writes: the item's feedback, then its status. Both pass
  // or neither is written.
  method RecordItemReview(recStore: RecStore, itemId: int, rating: Option<real>, review: Option<string>)
    returns (err: Option<DbError>)
    requires recStore.Valid()
    modifies recStore
    ensures recStore.Valid()
    ensures err.Some? <==> (rating.Some? && !(0.0 <= rating.value <= 5.0)) || itemId !in old(recStore.items)
    ensures err.Some? && rating.Some? && !(0.0 <= rating.value <= 5.0) ==> err == Some(CheckViolation)
    ensures err.Some? ==> recStore.items == old(recStore.items) && recStore.feedback == old(recStore.feedback)
    ensures err.None? ==>
      && recStore.feedback == old(recStore.feedback)[itemId := Feedback(rating, review)]
      && recStore.items == old(recStore.items)[itemId := old(recStore.items)[itemId].(status := WatchedStatus)]
    ensures recStore.recs == old(recStore.recs)
  {
    err := recStore.UpsertFeedback(itemId, rating, review);
    if err.Some? {
      return;
    }
    err := recStore.SetItemStatus(itemId, WatchedStatus);
  }

  // The writes of `save_review` before the recompute: the item's feedback
  // and status in agent mode, then the watched row.
  method WriteReview(recStore: RecStore, watched: WatchedStore,
                     userId: int, tmdbId: int, details: MovieDetails, rating: Option<real>, review: Option<string>,
                     mode: string, itemId: Option<int>, today: Date)
    returns (err: Option<DbError>)
    requires recStore.Valid() && watched.Valid()
    modifies recStore, watched
    ensures recStore.Valid() && watched.Valid()
    ensures err.Some? <==>
      (rating.Some? && !(0.0 <= rating.value <= 5.0))
      || (ViaItem(mode, itemId) && itemId.value !in old(recStore.items))
    ensures err.Some? ==>
      recStore.items == old(recStore.items) && recStore.feedback == old(recStore.feedback) && watched.rows == old(watched.rows)
    ensures err.Some? && rating.Some? && !(0.0 <= rating.value <= 5.0) ==> err == Some(CheckViolation)
    ensures err.None? && ViaItem(mode, itemId) ==>
      && recStore.feedback == old(recStore.feedback)[itemId.value := Feedback(rating, review)]
      && recStore.items == old(recStore.items)[itemId.value := old(recStore.items)[itemId.value].(status := WatchedStatus)]
    ensures err.None? && !ViaItem(mode, itemId) ==>
      recStore.items == old(recStore.items) && recStore.feedback == old(recStore.feedback)
    ensures recStore.recs == old(recStore.recs)
    ensures err.None? ==>
      WatchedWritten(old(watched.rows), old(watched.nextId), watched.rows, userId, details, tmdbId, rating, review, today,
                     ReviewSource(mode, itemId))
  {
    var source := ReviewSource(mode, itemId);
    if ViaItem(mode, itemId) {
      err := RecordItemReview(recStore, itemId.value, rating, review);
      if err.Some? {
        return;
      }
    }
    err := watched.UpsertWatched(userId, tmdbId, details.title, details.year, rating, review, Some(today), source);
  }

  // `save_review`, with the film's details and today's date passed in. The
  // source returns what `upsert_watched` returns, which is nothing: the
  // `watchedId` result is always None.
  method SaveReview(recStore: RecStore, watched: WatchedStore, profiles: ProfileStore,
                    userId: int, tmdbId: int, details: MovieDetails, rating: Option<real>, review: Option<string>,
                    mode: string, itemId: Option<int>, today: Date,
                    payloads: map<int, map<string, Json>>, computedAt: string, now: real)
    returns (err: Option<DbError>, watchedId: Option<int>)
    requires recStore.Valid() && watched.Valid()
    modifies recStore, watched, profiles
    ensures recStore.Valid() && watched.Valid()
    ensures watchedId == None
    // A rating the tables refuse, or a missing item, stops the review
    // before anything is written.
    ensures err.Some? <==>
      (rating.Some? && !(0.0 <= rating.value <= 5.0))
      || (ViaItem(mode, itemId) && itemId.value !in old(recStore.items))
    ensures err.Some? ==>
      recStore.items == old(recStore.items) && recStore.feedback == old(recStore.feedback)
      && watched.rows == old(watched.rows) && profiles.profiles == old(profiles.profiles)
    ensures err.Some? && rating.Some? && !(0.0 <= rating.value <= 5.0) ==> err == Some(CheckViolation)
    ensures err.None? && ViaItem(mode, itemId) ==>
      && recStore.feedback == old(recStore.feedback)[itemId.value := Feedback(rating, review)]
      && recStore.items == old(recStore.items)[itemId.value := old(recStore.items)[itemId.value].(status := WatchedStatus)]
    ensures err.None? && !ViaItem(mode, itemId) ==>
      recStore.items == old(recStore.items) && recStore.feedback == old(recStore.feedback)
    ensures recStore.recs == old(recStore.recs)
    ensures err.None? ==>
      WatchedWritten(old(watched.rows), old(watched.nextId), watched.rows, userId, details, tmdbId, rating, review, today,
                     ReviewSource(mode, itemId))
    ensures err.None? ==>
      ProfileRecomputed(old(profiles.profiles), profiles.profiles, watched.rows, userId, payloads, computedAt, now)
  {
    watchedId := None;
    err := WriteReview(recStore, watched, userId, tmdbId, details, rating, review, mode, itemId, today);
    if err.None? {
      UpdateTasteProfile(watched, profiles, userId, payloads, computedAt, now);
    }
  }

  // After the upsert the table has a row under the review's match key, and
  // with keys kept unique every such row holds the rating and the review
  // just given, when they were given.
  lemma WrittenRowHoldsReview(prev: map<int, WatchedRow>, prevNext: int, rows: map<int, WatchedRow>,
                              userId: int, details: MovieDetails, tmdbId: int, rating: Option<real>,
                              review: Option<string>, today: Date, source: string)
    requires WatchedWritten(prev, prevNext, rows, userId, details, tmdbId, rating, review, today, source)
    requires forall i, j :: i in rows && j in rows && i != j ==> KeyOf(rows[i]) != KeyOf(rows[j])
    ensures exists id :: id in rows && KeyOf(rows[id]) == MatchKey(userId, tmdbId, Some(today))
    ensures forall id :: id in rows && KeyOf(rows[id]) == MatchKey(userId, tmdbId, Some(today)) ==>
      (NonBlank(review) ==> rows[id].review == review) && (rating.Some? ==> rows[id].rating == rating)
  {
    var key := MatchKey(userId, tmdbId, Some(today));
    if m :| m in prev && KeyOf(prev[m]) == key {
      assert rows == prev[m := Merge(prev[m], details.title, details.year, rating, review, source)];
      assert m in rows && KeyOf(rows[m]) == key;
    } else {
      assert prevNext in rows && KeyOf(rows[prevNext]) == key;
    }
  }

  // What the signature and the callers expect: the id of the watched row the
  // review was saved in, which holds the review whenever it is not blank.
  method SaveReviewReturningId(recStore: RecStore, watched: WatchedStore, profiles: ProfileStore,
                               userId: int, tmdbId: int, details: MovieDetails, rating: Option<real>, review: Option<string>,
                               mode: string, itemId: Option<int>, today: Date,
                               payloads: map<int, map<string, Json>>, computedAt: string, now: real)
    returns (err: Option<DbError>, watchedId: Option<int>)
    requires recStore.Valid() && watched.Valid()
    modifies recStore, watched, profiles
    ensures recStore.Valid() && watched.Valid()
    ensures err.None? ==>
      && watchedId.Some? && watchedId.value in watched.rows
      && KeyOf(watched.rows[watchedId.value]) == MatchKey(userId, tmdbId, Some(today))
      && (NonBlank(review) ==> watched.rows[watchedId.value].review == review)
      && (rating.Some? ==> watched.rows[watchedId.value].rating == rating)
    ensures err.Some? ==> watchedId == None && watched.rows == old(watched.rows)
  {
    ghost var prev, prevNext := watched.rows, watched.nextId;
    err, watchedId := SaveReview(recStore, watched, profiles, userId, tmdbId, details, rating, review,
                                 mode, itemId, today, payloads, computedAt, now);
    if err.None? {
      WrittenRowHoldsReview(prev, prevNext, watched.rows, userId, details, tmdbId, rating, review, today,
                            ReviewSource(mode, itemId));
      watchedId := watched.GetExisting(userId, tmdbId, Some(today));
    }
  }
}
