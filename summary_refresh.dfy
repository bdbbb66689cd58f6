// `maybe_refresh_summary_text`: every `every_n`-th feedback, ask the language
// model to rewrite the profile's summary, keeping the weights and avoids.
module SummaryRefresh {
  import opened Wrappers
  import opened Text
  import opened Json
  import opened ProfileRepo

  const DefaultEveryN: int := 10

  // Python's `count % every_n` raises for a zero divisor.
  datatype ArithError = ZeroDivisionError

  // The guard: no refresh for a count of zero or less; otherwise one exactly
  // when the count is a multiple of `everyN`, which must then not be zero.
  // (A zero remainder means the same under Python's floored `%` as under
  // Dafny's Euclidean one.)
  function DueForRefresh(count: int, everyN: int): (r: Result<bool, ArithError>)
    ensures r.Err? <==> count > 0 && everyN == 0
    ensures r == Ok(true) <==> count > 0 && everyN != 0 && count % everyN == 0
  {
    if count <= 0 then Ok(false)
    else if everyN == 0 then Err(ZeroDivisionError)
    else Ok(count % everyN == 0)
  }

  lemma {:induction false} MulAtLeast(d: int, n: int)
    requires d >= 1 && n > 0
    ensures d * n >= n
  {
    if d > 1 {
      MulAtLeast(d - 1, n);
      assert d * n == (d - 1) * n + n;
    }
  }

  // The remainder is the one r with a == q * n + r and 0 <= r < n.
  lemma ModUnique(a: int, q: int, r: int, n: int)
    requires n > 0 && a == q * n + r && 0 <= r < n
    ensures a % n == r
  {
    var q2 := a / n;
    var r2 := a % n;
    assert (q - q2) * n == r2 - r;
    if q - q2 >= 1 {
      MulAtLeast(q - q2, n);
    } else if q2 - q >= 1 {
      MulAtLeast(q2 - q, n);
    }
  }

  // With a positive `everyN`, the refresh comes exactly at the positive
  // multiples of it: the 10th, 20th, 30th feedback with the default.
  lemma DueAtMultiples(count: int, everyN: int)
    requires everyN > 0
    ensures DueForRefresh(count, everyN) == Ok(true) <==> exists k :: 1 <= k && count == k * everyN
  {
    if DueForRefresh(count, everyN) == Ok(true) {
      var k := count / everyN;
      assert count == k * everyN;
      if k <= -1 {
        MulAtLeast(-k, everyN);
      }
      assert 1 <= k;
    }
    if exists k :: 1 <= k && count == k * everyN {
      var k :| 1 <= k && count == k * everyN;
      MulAtLeast(k, everyN);
      ModUnique(count, k, 0, everyN);
    }
  }

  // After a refresh the next one comes `everyN` feedbacks later, and none
  // in between.
  lemma NextRefresh(count: int, everyN: int, d: int)
    requires everyN > 0 && DueForRefresh(count, everyN) == Ok(true)
    ensures DueForRefresh(count + everyN, everyN) == Ok(true)
    ensures 0 < d < everyN ==> DueForRefresh(count + d, everyN) == Ok(false)
  {
    var q := count / everyN;
    ModUnique(count + everyN, q + 1, 0, everyN);
    if 0 < d < everyN {
      ModUnique(count + d, q, d, everyN);
    }
  }

  // The profile after a refresh: the rewritten summary, stripped; weights
  // and avoids as they were (`avoids_json or {}` passes an empty map back
  // as the same empty map).
  function Refreshed(p: Profile, out: string, now: real): (q: Profile)
    ensures q.summary == Strip(out) && q.weights == p.weights && q.avoids == p.avoids && q.updatedAt == now
  {
    Upserted(Some(p), Strip(out), p.weights, Some(p.avoids), now)
  }

  // The refresh, with the feedback count passed in and the language model
  // a function of the stored weights and summary that returns the new text,
  // or None when the call raises.
  method MaybeRefreshSummary(store: ProfileStore, userId: int, count: int, everyN: int,
                             rewrite: (map<string, Json>, string) -> Option<string>, now: real)
    returns (err: Option<ArithError>)
    modifies store
    ensures err.Some? <==> count > 0 && everyN == 0
    ensures DueForRefresh(count, everyN) != Ok(true) ==> store.profiles == old(store.profiles)
    ensures userId !in old(store.profiles) ==> store.profiles == old(store.profiles)
    ensures userId in old(store.profiles) && rewrite(old(store.profiles)[userId].weights, old(store.profiles)[userId].summary).None? ==>
      store.profiles == old(store.profiles)
    ensures DueForRefresh(count, everyN) == Ok(true) && userId in old(store.profiles) ==>
      var p := old(store.profiles)[userId];
      rewrite(p.weights, p.summary).Some? ==>
        store.profiles == old(store.profiles)[userId := Refreshed(p, rewrite(p.weights, p.summary).value, now)]
  {
    var due := DueForRefresh(count, everyN);
    if due.Err? {
      return Some(due.error);
    }
    if !due.value {
      return None;
    }
    var profile := store.GetProfile(userId);
    if profile.None? {
      return None;
    }
    var p := profile.value;
    var out := rewrite(p.weights, p.summary);
    if out.None? {
      return None;
    }
    store.UpsertProfile(userId, Strip(out.value), p.weights, Some(p.avoids), now);
    return None;
  }
}
