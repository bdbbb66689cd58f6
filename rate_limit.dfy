// Per-user, per-command rate limiting: the table keeps, for each (user,
// command), the last time the command was let through. Times are seconds.
module RateLimit {
  import opened Json

  datatype RateKey = RateKey(userId: int, command: string)

  datatype Verdict = Verdict(allowed: bool, retryAfter: int)

  // One `check_and_touch`: the verdict and the table afterwards. A call is let
  // through when the command was never used, or when at least `interval`
  // seconds passed since it last was; only a call let through moves the time.
  function Check(lastUsed: map<RateKey, real>, key: RateKey, interval: int, now: real): (r: (Verdict, map<RateKey, real>))
    ensures r.0.allowed <==> key !in lastUsed || now - lastUsed[key] >= interval as real
    ensures r.0.allowed ==> r.0.retryAfter == 0 && r.1 == lastUsed[key := now]
    ensures !r.0.allowed ==> r.1 == lastUsed
    // A refused call is told the whole seconds still to wait, rounded down.
    ensures !r.0.allowed ==> var wait := interval as real - (now - lastUsed[key]);
      0 <= r.0.retryAfter && r.0.retryAfter as real <= wait < r.0.retryAfter as real + 1.0
  {
    if key !in lastUsed then (Verdict(true, 0), lastUsed[key := now])
    else
      var delta := now - lastUsed[key];
      if delta < interval as real then (Verdict(false, TruncateReal(interval as real - delta)), lastUsed)
      else (Verdict(true, 0), lastUsed[key := now])
  }

  class RateLimiter {
    var lastUsed: map<RateKey, real>

    constructor()
      ensures lastUsed == map[]
    {
      lastUsed := map[];
    }

    // `check_and_touch`, with the clock reading passed in.
    method CheckAndTouch(userId: int, command: string, interval: int, now: real) returns (allowed: bool, retryAfter: int)
      modifies this
      ensures var r := Check(old(lastUsed), RateKey(userId, command), interval, now);
        Verdict(allowed, retryAfter) == r.0 && lastUsed == r.1
    {
      var key := RateKey(userId, command);
      if key !in lastUsed {
        lastUsed := lastUsed[key := now];
        return true, 0;
      }
      var delta := now - lastUsed[key];
      if delta < interval as real {
        return false, TruncateReal(interval as real - delta);
      }
      lastUsed := lastUsed[key := now];
      return true, 0;
    }
  }

  // The first use of a command is let through; a second use within the
  // interval is refused, and told to wait at least a second when it comes a
  // second or more before the interval ends; a use a whole interval after
  // the first one is let through again.
  lemma FirstSecondThird(m: map<RateKey, real>, key: RateKey, interval: int, t0: real, t1: real, t2: real)
    requires key !in m
    requires t0 <= t1 < t0 + interval as real && t2 >= t0 + interval as real
    ensures var (v0, m0) := Check(m, key, interval, t0);
      var (v1, m1) := Check(m0, key, interval, t1);
      var (v2, _) := Check(m1, key, interval, t2);
      v0 == Verdict(true, 0) && !v1.allowed && v1.retryAfter >= 0 && v2 == Verdict(true, 0)
      && (t1 <= t0 + interval as real - 1.0 ==> v1.retryAfter >= 1)
  {
    var (v0, m0) := Check(m, key, interval, t0);
    assert m0[key] == t0;
    var (v1, m1) := Check(m0, key, interval, t1);
    assert m1 == m0;
  }

  // Limits are kept per user and per command: a call under one key neither
  // changes nor depends on the other keys.
  lemma KeysIndependent(m: map<RateKey, real>, key: RateKey, other: RateKey, interval: int, otherInterval: int, now: real, later: real)
    requires key != other
    ensures var (_, m1) := Check(m, key, interval, now);
      (other in m1 <==> other in m) && (other in m ==> m1[other] == m[other])
      && Check(m1, other, otherInterval, later).0 == Check(m, other, otherInterval, later).0
  {
  }

  // While a command stays refused, the wait it reports never grows.
  lemma RetryCountsDown(m: map<RateKey, real>, key: RateKey, interval: int, now: real, later: real)
    requires now <= later
    requires !Check(m, key, interval, later).0.allowed
    ensures !Check(m, key, interval, now).0.allowed
    ensures Check(m, key, interval, later).0.retryAfter <= Check(m, key, interval, now).0.retryAfter
  {
    var r1 := Check(m, key, interval, now).0.retryAfter;
    var r2 := Check(m, key, interval, later).0.retryAfter;
    var w1 := interval as real - (now - m[key]);
    var w2 := interval as real - (later - m[key]);
    assert w2 <= w1;
    assert r2 as real <= w2 < r2 as real + 1.0;
    assert r1 as real <= w1 < r1 as real + 1.0;
  }
}
