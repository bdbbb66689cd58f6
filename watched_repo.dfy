// The films a user has watched. A row is found by its match key (user, film,
// date watched), where a missing date matches only a missing date; the
// writers keep at most one row per match key.
module WatchedRepo {
  import opened Wrappers
  import opened Text
  import opened Dates
  import opened DbErrors
  import opened RowOrder

  const Sources: set<string> := {"letterboxd", "agent", "manual"}

  datatype WatchedRow = WatchedRow(
    userId: int,
    tmdbId: int,
    title: string,
    year: Option<int>,
    rating: Option<real>,
    review: Option<string>,
    watchedDate: Option<Date>,
    source: string)

  datatype MatchKey = MatchKey(userId: int, tmdbId: int, watchedDate: Option<Date>)

  function KeyOf(r: WatchedRow): MatchKey
  {
    MatchKey(r.userId, r.tmdbId, r.watchedDate)
  }

  // The table's check constraints: a rating in [0, 5] and a known source.
  predicate RowAllowed(r: WatchedRow)
  {
    (r.rating.None? || 0.0 <= r.rating.value <= 5.0) && r.source in Sources
  }

  // The values a write may store, whichever path it takes.
  predicate WriteAllowed(rating: Option<real>, source: string)
  {
    (rating.None? || 0.0 <= rating.value <= 5.0) && source in Sources
  }

  predicate NonBlank(s: Option<string>)
  {
    s.Some? && Strip(s.value) != []
  }

  // `upsert_watched` on a matching row: the title is replaced only by a
  // non-empty one, year and rating only by present values, the review only
  // by a non-blank one, and the source always.
  function Merge(existing: WatchedRow, title: string, year: Option<int>, rating: Option<real>,
                 review: Option<string>, source: string): (r: WatchedRow)
    ensures KeyOf(r) == KeyOf(existing)
    ensures title != [] ==> r.title == title
    ensures r.title != existing.title ==> title != [] && r.title == title
    ensures year.Some? ==> r.year == year
    ensures r.year != existing.year ==> year.Some? && r.year == year
    ensures rating.Some? ==> r.rating == rating
    ensures r.rating != existing.rating ==> rating.Some? && r.rating == rating
    ensures NonBlank(review) ==> r.review == review
    ensures r.review != existing.review ==> NonBlank(review) && r.review == review
    ensures r.source == source
  {
    existing.(
      title := if title != [] then title else existing.title,
      year := if year.Some? then year else existing.year,
      rating := if rating.Some? then rating else existing.rating,
      review := if NonBlank(review) then review else existing.review,
      source := source)
  }

  // Saving the same values again changes nothing more.
  lemma MergeIdempotent(existing: WatchedRow, title: string, year: Option<int>, rating: Option<real>,
                        review: Option<string>, source: string)
    ensures var once := Merge(existing, title, year, rating, review, source);
      Merge(once, title, year, rating, review, source) == once
  {
  }

  // A merge never loses a value: a stored review that is not blank stays
  // not blank, and a present year or rating stays present.
  lemma MergeKeepsValues(existing: WatchedRow, title: string, year: Option<int>, rating: Option<real>,
                         review: Option<string>, source: string)
    ensures var r := Merge(existing, title, year, rating, review, source);
      (NonBlank(existing.review) ==> NonBlank(r.review))
      && (existing.year.Some? ==> r.year.Some?)
      && (existing.rating.Some? ==> r.rating.Some?)
      && (existing.title != [] ==> r.title != [])
  {
  }

  // A merge with nothing to say (empty title, no year, rating or review)
  // only stamps the source.
  lemma MergeBlankOnlySource(existing: WatchedRow, review: Option<string>, source: string)
    requires !NonBlank(review)
    ensures Merge(existing, "", None, None, review, source) == existing.(source := source)
  {
  }

  // A merged row passes the checks exactly when the written values do.
  lemma MergeAllowed(existing: WatchedRow, title: string, year: Option<int>, rating: Option<real>,
                     review: Option<string>, source: string)
    requires RowAllowed(existing)
    ensures RowAllowed(Merge(existing, title, year, rating, review, source)) <==> WriteAllowed(rating, source)
  {
  }

  class WatchedStore {
    var rows: map<int, WatchedRow>
    var nextId: int

    // Ids lie below the next one, no two rows share a match key, and every
    // row passes the table checks.
    ghost predicate Valid()
      reads this
    {
      1 <= nextId
      && (forall id :: id in rows ==> 1 <= id < nextId && RowAllowed(rows[id]))
      && (forall i, j :: i in rows && j in rows && i != j ==> KeyOf(rows[i]) != KeyOf(rows[j]))
    }

    ghost predicate HasKey(key: MatchKey)
      reads this
    {
      exists id :: id in rows && KeyOf(rows[id]) == key
    }

    constructor()
      ensures Valid() && rows == map[]
    {
      rows := map[];
      nextId := 1;
    }

    // `get_existing_watched`.
    method GetExisting(userId: int, tmdbId: int, watchedDate: Option<Date>) returns (found: Option<int>)
      ensures found.Some? ==> found.value in rows && KeyOf(rows[found.value]) == MatchKey(userId, tmdbId, watchedDate)
      ensures found.None? <==> !HasKey(MatchKey(userId, tmdbId, watchedDate))
    {
      var key := MatchKey(userId, tmdbId, watchedDate);
      if exists id :: id in rows && KeyOf(rows[id]) == key {
        var id :| id in rows && KeyOf(rows[id]) == key;
        return Some(id);
      }
      return None;
    }

    // `upsert_watched`: insert the row, or merge into the matching one. It
    // returns nothing on either path; a value the checks refuse raises.
    method UpsertWatched(userId: int, tmdbId: int, title: string, year: Option<int>, rating: Option<real>,
                         review: Option<string>, watchedDate: Option<Date>, source: string)
      returns (err: Option<DbError>)
      requires Valid()
      modifies this
      ensures Valid()
      ensures !WriteAllowed(rating, source) ==> err == Some(CheckViolation) && rows == old(rows)
      ensures WriteAllowed(rating, source) && !old(HasKey(MatchKey(userId, tmdbId, watchedDate))) ==>
        err == None && old(nextId) !in old(rows)
        && rows == old(rows)[old(nextId) := WatchedRow(userId, tmdbId, title, year, rating, review, watchedDate, source)]
      ensures forall id :: WriteAllowed(rating, source) && id in old(rows) && KeyOf(old(rows)[id]) == MatchKey(userId, tmdbId, watchedDate) ==>
        err == None && rows == old(rows)[id := Merge(old(rows)[id], title, year, rating, review, source)]
    {
      var found := GetExisting(userId, tmdbId, watchedDate);
      if !WriteAllowed(rating, source) {
        return Some(CheckViolation);
      }
      if found.None? {
        rows := rows[nextId := WatchedRow(userId, tmdbId, title, year, rating, review, watchedDate, source)];
        nextId := nextId + 1;
        return None;
      }
      var id := found.value;
      MergeAllowed(rows[id], title, year, rating, review, source);
      rows := rows[id := Merge(rows[id], title, year, rating, review, source)];
      return None;
    }

    // `insert_watched` of the Letterboxd importer: insert the row only when
    // no row has its match key.
    method InsertIfAbsent(userId: int, tmdbId: int, title: string, year: Option<int>, rating: Option<real>,
                          review: Option<string>, watchedDate: Option<Date>, source: string)
      returns (err: Option<DbError>)
      requires Valid()
      modifies this
      ensures Valid()
      ensures old(HasKey(MatchKey(userId, tmdbId, watchedDate))) ==> err == None && rows == old(rows)
      ensures !old(HasKey(MatchKey(userId, tmdbId, watchedDate))) && !WriteAllowed(rating, source) ==>
        err == Some(CheckViolation) && rows == old(rows)
      ensures !old(HasKey(MatchKey(userId, tmdbId, watchedDate))) && WriteAllowed(rating, source) ==>
        err == None && old(nextId) !in old(rows)
        && rows == old(rows)[old(nextId) := WatchedRow(userId, tmdbId, title, year, rating, review, watchedDate, source)]
    {
      var found := GetExisting(userId, tmdbId, watchedDate);
      if found.Some? {
        return None;
      }
      if !WriteAllowed(rating, source) {
        return Some(CheckViolation);
      }
      rows := rows[nextId := WatchedRow(userId, tmdbId, title, year, rating, review, watchedDate, source)];
      nextId := nextId + 1;
      return None;
    }

    // The table as a query scans it: each row once with its id, in id order.
    method Scan() returns (listing: seq<(int, WatchedRow)>)
      requires Valid()
      ensures Lists(listing, rows)
      ensures forall j, l :: 0 <= j < l < |listing| ==> listing[j].0 < listing[l].0
    {
      listing := [];
      var i := 1;
      while i < nextId
        invariant 1 <= i <= nextId
        invariant forall j :: 0 <= j < |listing| ==> listing[j].0 in rows && listing[j].0 < i && listing[j].1 == rows[listing[j].0]
        invariant forall id :: id in rows && id < i ==> id in Ids(listing)
        invariant forall j, l :: 0 <= j < l < |listing| ==> listing[j].0 < listing[l].0
      {
        if i in rows {
          assert Ids(listing + [(i, rows[i])]) == Ids(listing) + [i];
          listing := listing + [(i, rows[i])];
        }
        i := i + 1;
      }
    }
  }
}
