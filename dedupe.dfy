// `_dedupe_pool` (v1) and `_dedupe_candidates` (v0): one entry per non-zero TMDB
// id in first-insertion order, an entry replaced only by a strictly better one.
// The two tiers differ only in the quality measure, which is a parameter here.
module Dedupe {
  import opened Wrappers
  import opened Sorting
  import Tmdb

  function CandidateId(c: Tmdb.MovieCandidate): int
  {
    c.tmdbId
  }

  // The position of `id` in the ordered dict, modelled as a list of entries.
  function FindId(entries: seq<Tmdb.MovieCandidate>, id: int): (r: Option<nat>)
    ensures r.Some? ==> r.value < |entries| && entries[r.value].tmdbId == id
    ensures r.None? ==> forall j :: 0 <= j < |entries| ==> entries[j].tmdbId != id
  {
    if entries == [] then None
    else if entries[0].tmdbId == id then Some(0)
    else match FindId(entries[1..], id)
      case None => None
      case Some(j) => Some(j + 1)
  }

  // One round of `_dedupe_pool`: skip a zero id, add a new id at the end, or
  // replace the stored entry when the new one has strictly higher quality.
  function Place(entries: seq<Tmdb.MovieCandidate>, c: Tmdb.MovieCandidate, quality: Tmdb.MovieCandidate -> real): seq<Tmdb.MovieCandidate>
  {
    if c.tmdbId == 0 then entries
    else match FindId(entries, c.tmdbId)
      case None => entries + [c]
      case Some(j) => if quality(c) > quality(entries[j]) then entries[j := c] else entries
  }

  function DedupeOf(pool: seq<Tmdb.MovieCandidate>, quality: Tmdb.MovieCandidate -> real): seq<Tmdb.MovieCandidate>
  {
    if pool == [] then [] else Place(DedupeOf(pool[..|pool| - 1], quality), pool[|pool| - 1], quality)
  }

  // `_dedupe_pool(pool)`; the dict keeps first-insertion order.
  method DedupePool(pool: seq<Tmdb.MovieCandidate>, quality: Tmdb.MovieCandidate -> real) returns (byId: seq<Tmdb.MovieCandidate>)
    ensures byId == DedupeOf(pool, quality)
  {
    byId := [];
    for i := 0 to |pool|
      invariant byId == DedupeOf(pool[..i], quality)
    {
      assert pool[..i + 1][..i] == pool[..i];
      var c := pool[i];
      if c.tmdbId != 0 {
        var at := FindId(byId, c.tmdbId);
        if at.None? {
          byId := byId + [c];
        } else if quality(c) > quality(byId[at.value]) {
          byId := byId[at.value := c];
        }
      }
    }
    assert pool[..|pool|] == pool;
  }

  // One entry per id.
  ghost predicate DistinctIds(entries: seq<Tmdb.MovieCandidate>)
  {
    DistinctBy(entries, CandidateId)
  }

  // Every entry is a pool element with a non-zero id.
  predicate EntriesFromPool(entries: seq<Tmdb.MovieCandidate>, pool: seq<Tmdb.MovieCandidate>)
  {
    forall j :: 0 <= j < |entries| ==> entries[j].tmdbId != 0 && entries[j] in pool
  }

  // Every non-zero id of the pool has an entry.
  predicate CoversPool(entries: seq<Tmdb.MovieCandidate>, pool: seq<Tmdb.MovieCandidate>)
  {
    forall i :: 0 <= i < |pool| && pool[i].tmdbId != 0 ==> FindId(entries, pool[i].tmdbId).Some?
  }

  // No pool element beats the entry kept for its id.
  predicate BestOfPool(entries: seq<Tmdb.MovieCandidate>, pool: seq<Tmdb.MovieCandidate>, quality: Tmdb.MovieCandidate -> real)
  {
    forall i, j :: 0 <= i < |pool| && 0 <= j < |entries| && pool[i].tmdbId == entries[j].tmdbId
      ==> quality(pool[i]) <= quality(entries[j])
  }

  lemma PlaceDistinct(entries: seq<Tmdb.MovieCandidate>, c: Tmdb.MovieCandidate, quality: Tmdb.MovieCandidate -> real)
    requires DistinctIds(entries)
    ensures DistinctIds(Place(entries, c, quality))
  {
  }

  lemma PlaceFromPool(entries: seq<Tmdb.MovieCandidate>, pool: seq<Tmdb.MovieCandidate>, c: Tmdb.MovieCandidate, quality: Tmdb.MovieCandidate -> real)
    requires EntriesFromPool(entries, pool)
    ensures EntriesFromPool(Place(entries, c, quality), pool + [c])
  {
    var r := Place(entries, c, quality);
    forall j | 0 <= j < |r|
      ensures r[j].tmdbId != 0 && r[j] in pool + [c]
    {
      if r[j] != c {
        assert r[j] == entries[j];
      }
    }
  }

  // A stored id keeps an entry.
  lemma FindIdAfterPlace(entries: seq<Tmdb.MovieCandidate>, c: Tmdb.MovieCandidate, id: int, quality: Tmdb.MovieCandidate -> real)
    requires FindId(entries, id).Some?
    ensures FindId(Place(entries, c, quality), id).Some?
  {
    var r := Place(entries, c, quality);
    var k := FindId(entries, id).value;
    assert r[k].tmdbId == id;
  }

  lemma PlaceCovers(entries: seq<Tmdb.MovieCandidate>, pool: seq<Tmdb.MovieCandidate>, c: Tmdb.MovieCandidate, quality: Tmdb.MovieCandidate -> real)
    requires CoversPool(entries, pool)
    ensures CoversPool(Place(entries, c, quality), pool + [c])
  {
    var pool' := pool + [c];
    var r := Place(entries, c, quality);
    forall i | 0 <= i < |pool'| && pool'[i].tmdbId != 0
      ensures FindId(r, pool'[i].tmdbId).Some?
    {
      if i < |pool| {
        assert pool'[i] == pool[i];
        FindIdAfterPlace(entries, c, pool[i].tmdbId, quality);
      } else {
        var at := FindId(entries, c.tmdbId);
        if at.None? {
          assert r[|entries|] == c;
        } else {
          assert r[at.value].tmdbId == c.tmdbId;
        }
      }
    }
  }

  lemma PlaceBest(entries: seq<Tmdb.MovieCandidate>, pool: seq<Tmdb.MovieCandidate>, c: Tmdb.MovieCandidate, quality: Tmdb.MovieCandidate -> real)
    requires DistinctIds(entries) && CoversPool(entries, pool) && BestOfPool(entries, pool, quality)
    requires EntriesFromPool(entries, pool)
    ensures BestOfPool(Place(entries, c, quality), pool + [c], quality)
  {
    var pool' := pool + [c];
    var r := Place(entries, c, quality);
    forall i, j | 0 <= i < |pool'| && 0 <= j < |r| && pool'[i].tmdbId == r[j].tmdbId
      ensures quality(pool'[i]) <= quality(r[j])
    {
      var at := FindId(entries, c.tmdbId);
      if c.tmdbId == 0 || (at.Some? && !(quality(c) > quality(entries[at.value]))) {
        assert r == entries;
        if i == |pool| {
          assert at.Some? && entries[at.value].tmdbId == entries[j].tmdbId;
        } else {
          assert pool'[i] == pool[i];
        }
      } else if at.None? {
        if j == |entries| {
          if i < |pool| {
            assert false;
          }
        } else {
          assert r[j] == entries[j];
          if i < |pool| {
            assert pool'[i] == pool[i];
          }
        }
      } else {
        var k := at.value;
        if j == k {
          if i < |pool| {
            assert pool'[i] == pool[i];
            assert quality(pool[i]) <= quality(entries[k]);
          }
        } else {
          assert r[j] == entries[j];
          if i == |pool| {
            assert false;
          } else {
            assert pool'[i] == pool[i];
          }
        }
      }
    }
  }

  // Among the pool elements of an id with the kept quality, the kept entry comes
  // first: a later element of equal quality never replaces it.
  predicate FirstOfBest(entries: seq<Tmdb.MovieCandidate>, pool: seq<Tmdb.MovieCandidate>, quality: Tmdb.MovieCandidate -> real)
  {
    forall i, j ::
      (0 <= i < |pool| && 0 <= j < |entries| && pool[i].tmdbId == entries[j].tmdbId &&
       quality(pool[i]) == quality(entries[j])) ==> entries[j] in pool[..i + 1]
  }

  // The entries are in the order in which their ids first occur in the pool
  // (the insertion order of the dict).
  predicate InFirstSeenOrder(entries: seq<Tmdb.MovieCandidate>, pool: seq<Tmdb.MovieCandidate>)
  {
    && (forall j :: 0 <= j < |entries| ==> FindId(pool, entries[j].tmdbId).Some?)
    && (forall j1, j2 :: 0 <= j1 < j2 < |entries| ==>
          FindId(pool, entries[j1].tmdbId).value < FindId(pool, entries[j2].tmdbId).value)
  }

  lemma {:induction false} FindIdAppend(pool: seq<Tmdb.MovieCandidate>, c: Tmdb.MovieCandidate, id: int)
    ensures FindId(pool, id).Some? ==> FindId(pool + [c], id) == FindId(pool, id)
    ensures FindId(pool, id).None? && c.tmdbId == id ==> FindId(pool + [c], id) == Some(|pool|)
  {
    if pool != [] {
      assert (pool + [c])[1..] == pool[1..] + [c];
      FindIdAppend(pool[1..], c, id);
    }
  }

  // The pool grows by one element: its prefixes stay as they were.
  lemma PoolPrefixes(pool: seq<Tmdb.MovieCandidate>, c: Tmdb.MovieCandidate)
    ensures (pool + [c])[..|pool| + 1] == pool + [c]
    ensures forall i :: 0 < i <= |pool| ==> (pool + [c])[..i] == pool[..i]
  {
    forall i | 0 < i <= |pool|
      ensures (pool + [c])[..i] == pool[..i]
    {
    }
  }

  // A new id: the appended entry is the first pool element with it.
  lemma AppendFirstOfBest(entries: seq<Tmdb.MovieCandidate>, pool: seq<Tmdb.MovieCandidate>, c: Tmdb.MovieCandidate, quality: Tmdb.MovieCandidate -> real)
    requires FirstOfBest(entries, pool, quality)
    requires forall i :: 0 <= i < |pool| ==> pool[i].tmdbId != c.tmdbId
    requires forall j :: 0 <= j < |entries| ==> entries[j].tmdbId != c.tmdbId
    ensures FirstOfBest(entries + [c], pool + [c], quality)
  {
    var pool', r := pool + [c], entries + [c];
    PoolPrefixes(pool, c);
    forall i, j | 0 <= i < |pool'| && 0 <= j < |r| && pool'[i].tmdbId == r[j].tmdbId && quality(pool'[i]) == quality(r[j])
      ensures r[j] in pool'[..i + 1]
    {
      if j < |entries| {
        assert r[j] == entries[j];
      }
    }
  }

  // A strictly better element replaces entry `k`: it is the only one of its
  // quality so far.
  lemma ReplaceFirstOfBest(entries: seq<Tmdb.MovieCandidate>, pool: seq<Tmdb.MovieCandidate>, c: Tmdb.MovieCandidate, k: nat, quality: Tmdb.MovieCandidate -> real)
    requires DistinctIds(entries) && BestOfPool(entries, pool, quality) && FirstOfBest(entries, pool, quality)
    requires k < |entries| && entries[k].tmdbId == c.tmdbId && quality(c) > quality(entries[k])
    ensures FirstOfBest(entries[k := c], pool + [c], quality)
  {
    var pool', r := pool + [c], entries[k := c];
    PoolPrefixes(pool, c);
    forall i, j | 0 <= i < |pool'| && 0 <= j < |r| && pool'[i].tmdbId == r[j].tmdbId && quality(pool'[i]) == quality(r[j])
      ensures r[j] in pool'[..i + 1]
    {
      if j != k {
        assert r[j] == entries[j];
      }
    }
  }

  // An element that is not better leaves the entries as they are.
  lemma KeepFirstOfBest(entries: seq<Tmdb.MovieCandidate>, pool: seq<Tmdb.MovieCandidate>, c: Tmdb.MovieCandidate, quality: Tmdb.MovieCandidate -> real)
    requires DistinctIds(entries) && EntriesFromPool(entries, pool) && FirstOfBest(entries, pool, quality)
    requires forall j :: 0 <= j < |entries| && entries[j].tmdbId == c.tmdbId ==> quality(c) <= quality(entries[j])
    ensures FirstOfBest(entries, pool + [c], quality)
  {
    var pool' := pool + [c];
    PoolPrefixes(pool, c);
    forall i, j | 0 <= i < |pool'| && 0 <= j < |entries| && pool'[i].tmdbId == entries[j].tmdbId && quality(pool'[i]) == quality(entries[j])
      ensures entries[j] in pool'[..i + 1]
    {
      assert entries[j] in pool;
    }
  }

  // An id the entries do not hold does not occur in the pool they cover.
  lemma AbsentFromPool(entries: seq<Tmdb.MovieCandidate>, pool: seq<Tmdb.MovieCandidate>, id: int)
    requires CoversPool(entries, pool) && id != 0 && FindId(entries, id).None?
    ensures forall i :: 0 <= i < |pool| ==> pool[i].tmdbId != id
  {
    forall i | 0 <= i < |pool|
      ensures pool[i].tmdbId != id
    {
      if pool[i].tmdbId != 0 {
        assert FindId(entries, pool[i].tmdbId).Some?;
      }
    }
  }

  // With distinct ids, the entry at k is the only one with its id.
  lemma OnlyEntryOfId(entries: seq<Tmdb.MovieCandidate>, k: nat, c: Tmdb.MovieCandidate, quality: Tmdb.MovieCandidate -> real)
    requires DistinctIds(entries) && k < |entries| && entries[k].tmdbId == c.tmdbId
    requires quality(c) <= quality(entries[k])
    ensures forall j :: 0 <= j < |entries| && entries[j].tmdbId == c.tmdbId ==> quality(c) <= quality(entries[j])
  {
    forall j | 0 <= j < |entries| && entries[j].tmdbId == c.tmdbId
      ensures quality(c) <= quality(entries[j])
    {
      assert CandidateId(entries[j]) == CandidateId(entries[k]);
    }
  }

  lemma PlaceFirstOfBest(entries: seq<Tmdb.MovieCandidate>, pool: seq<Tmdb.MovieCandidate>, c: Tmdb.MovieCandidate, quality: Tmdb.MovieCandidate -> real)
    requires DistinctIds(entries) && CoversPool(entries, pool) && BestOfPool(entries, pool, quality)
    requires EntriesFromPool(entries, pool) && FirstOfBest(entries, pool, quality)
    ensures FirstOfBest(Place(entries, c, quality), pool + [c], quality)
  {
    var at := FindId(entries, c.tmdbId);
    if c.tmdbId == 0 {
      assert Place(entries, c, quality) == entries;
      KeepFirstOfBest(entries, pool, c, quality);
    } else if at.None? {
      assert Place(entries, c, quality) == entries + [c];
      AbsentFromPool(entries, pool, c.tmdbId);
      AppendFirstOfBest(entries, pool, c, quality);
    } else {
      var k := at.value;
      if quality(c) > quality(entries[k]) {
        assert Place(entries, c, quality) == entries[k := c];
        ReplaceFirstOfBest(entries, pool, c, k, quality);
      } else {
        assert Place(entries, c, quality) == entries;
        OnlyEntryOfId(entries, k, c, quality);
        KeepFirstOfBest(entries, pool, c, quality);
      }
    }
  }

  // Entries with the same ids, position by position, keep the order when the
  // pool grows.
  lemma SameIdsOrder(entries: seq<Tmdb.MovieCandidate>, r: seq<Tmdb.MovieCandidate>, pool: seq<Tmdb.MovieCandidate>, c: Tmdb.MovieCandidate)
    requires InFirstSeenOrder(entries, pool)
    requires |r| == |entries| && forall j :: 0 <= j < |r| ==> r[j].tmdbId == entries[j].tmdbId
    ensures InFirstSeenOrder(r, pool + [c])
  {
    forall j | 0 <= j < |entries|
      ensures FindId(pool + [c], entries[j].tmdbId) == FindId(pool, entries[j].tmdbId)
    {
      FindIdAppend(pool, c, entries[j].tmdbId);
    }
  }

  // A new id goes after every id already stored.
  lemma AppendOrder(entries: seq<Tmdb.MovieCandidate>, pool: seq<Tmdb.MovieCandidate>, c: Tmdb.MovieCandidate)
    requires InFirstSeenOrder(entries, pool) && FindId(pool, c.tmdbId).None?
    ensures InFirstSeenOrder(entries + [c], pool + [c])
  {
    var r := entries + [c];
    forall j | 0 <= j < |entries|
      ensures FindId(pool + [c], entries[j].tmdbId) == FindId(pool, entries[j].tmdbId)
    {
      FindIdAppend(pool, c, entries[j].tmdbId);
    }
    FindIdAppend(pool, c, c.tmdbId);
    forall j1, j2 | 0 <= j1 < j2 < |r|
      ensures FindId(pool + [c], r[j1].tmdbId).value < FindId(pool + [c], r[j2].tmdbId).value
    {
      assert r[j1] == entries[j1];
      if j2 < |entries| {
        assert r[j2] == entries[j2];
      }
    }
  }

  lemma PlaceOrder(entries: seq<Tmdb.MovieCandidate>, pool: seq<Tmdb.MovieCandidate>, c: Tmdb.MovieCandidate, quality: Tmdb.MovieCandidate -> real)
    requires CoversPool(entries, pool) && InFirstSeenOrder(entries, pool)
    ensures InFirstSeenOrder(Place(entries, c, quality), pool + [c])
  {
    var at := FindId(entries, c.tmdbId);
    if c.tmdbId == 0 {
      assert Place(entries, c, quality) == entries;
      SameIdsOrder(entries, entries, pool, c);
    } else if at.None? {
      assert Place(entries, c, quality) == entries + [c];
      AbsentFromPool(entries, pool, c.tmdbId);
      AppendOrder(entries, pool, c);
    } else {
      var r := Place(entries, c, quality);
      assert r == entries || r == entries[at.value := c];
      SameIdsOrder(entries, r, pool, c);
    }
  }

  lemma {:induction false} DedupeFacts(pool: seq<Tmdb.MovieCandidate>, quality: Tmdb.MovieCandidate -> real)
    ensures var r := DedupeOf(pool, quality);
      DistinctIds(r) && EntriesFromPool(r, pool) && CoversPool(r, pool) && BestOfPool(r, pool, quality)
      && FirstOfBest(r, pool, quality) && InFirstSeenOrder(r, pool)
  {
    if pool != [] {
      var init := pool[..|pool| - 1];
      var c := pool[|pool| - 1];
      DedupeFacts(init, quality);
      var e := DedupeOf(init, quality);
      assert init + [c] == pool;
      PlaceDistinct(e, c, quality);
      PlaceFromPool(e, init, c, quality);
      PlaceCovers(e, init, c, quality);
      PlaceBest(e, init, c, quality);
      PlaceFirstOfBest(e, init, c, quality);
      PlaceOrder(e, init, c, quality);
    }
  }
}
