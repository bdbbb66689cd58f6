// The soft-avoid keyword penalty of the embedding tier and the stamping of
// `last_triggered` on the patterns that fired for the chosen picks
// (`_soft_avoid_penalty` and step 12 of `recommend_v1` in app/recommender/v1.py).
// Patterns are the JSON dicts stored in the taste profile's `avoids_json`.
// `parseStamp` stands for `datetime.fromisoformat` applied after "Z" becomes
// "+00:00", followed by the subtraction from the UTC-aware `now`: it maps an
// ISO text with a UTC offset to seconds, and is None where either raises (a
// text `fromisoformat` refuses, or one without an offset, which is naive and
// cannot be subtracted from an aware moment). `now` is in the same seconds.
module SoftAvoid {
  import opened Wrappers
  import opened Text
  import opened Json

  const MinConfidence: real := 0.6
  const DefaultCooldownDays: int := 14
  const SecondsPerDay: real := 86400.0
  // `timedelta(days=n)` raises OverflowError beyond this many days either way.
  const MaxTimedeltaDays: int := 999999999

  // `p.get(key, default) or default`.
  function FieldOr(m: map<string, Json>, key: string, default: Json): (r: Json)
    ensures Truthy(r) || r == default
  {
    Or(GetOr(m, key, default), default)
  }

  // `str(p.get("id", "")).strip()`.
  function PatternId(m: map<string, Json>): string
  {
    Strip(ToStr(GetOr(m, "id", JStr(""))))
  }

  // `float(p.get("confidence", 0.0) or 0.0)`; None is the error `float` raises.
  function Confidence(m: map<string, Json>): Option<real>
  {
    ToReal(FieldOr(m, "confidence", JReal(0.0)))
  }

  function Weight(m: map<string, Json>): Option<real>
  {
    ToReal(FieldOr(m, "weight", JReal(0.0)))
  }

  // `int(p.get("cooldown_days", 14) or 14)`: a missing or zero cooldown is 14.
  function CooldownDays(m: map<string, Json>): (r: Option<int>)
    ensures "cooldown_days" !in m ==> r == Some(DefaultCooldownDays)
    ensures "cooldown_days" in m && m["cooldown_days"] == JInt(0) ==> r == Some(DefaultCooldownDays)
  {
    ToInt(FieldOr(m, "cooldown_days", JInt(DefaultCooldownDays)))
  }

  // A non-empty `last_triggered` string that parses to a moment less than
  // `cooldown` days before now. A missing or unparseable stamp never blocks,
  // and neither does a cooldown `timedelta` cannot hold: the exception the
  // comparison raises is swallowed and the pattern goes on to its keywords.
  predicate InCooldown(m: map<string, Json>, cooldown: int, now: real, parseStamp: string -> Option<real>)
  {
    var last := Get(m, "last_triggered");
    -MaxTimedeltaDays <= cooldown <= MaxTimedeltaDays
    && last.JStr? && last.s != [] && parseStamp(last.s).Some?
    && now - parseStamp(last.s).value < cooldown as real * SecondsPerDay
  }

  // A keyword counts when, trimmed and lower-cased, it is non-empty and occurs in
  // the (lower-cased) text.
  predicate KeywordMatches(kw: Json, text: string)
  {
    kw.JStr? && Lower(Strip(kw.s)) != [] && Contains(text, Lower(Strip(kw.s)))
  }

  predicate AnyKeywordMatches(kws: Json, text: string)
  {
    kws.JList? && exists i :: 0 <= i < |kws.items| && KeywordMatches(kws.items[i], text)
  }

  // The keyword loop with its `break`.
  method KeywordHit(kws: Json, text: string) returns (hit: bool)
    ensures hit <==> AnyKeywordMatches(kws, text)
  {
    hit := false;
    if !kws.JList? || kws.items == [] {
      return;
    }
    var items := kws.items;
    var i := 0;
    while i < |items|
      invariant 0 <= i <= |items|
      invariant forall j :: 0 <= j < i ==> !KeywordMatches(items[j], text)
    {
      hit := KeywordMatchesNow(items[i], text);
      if hit {
        return;
      }
      i := i + 1;
    }
  }

  // One round of the keyword loop.
  method KeywordMatchesNow(kw: Json, text: string) returns (hit: bool)
    ensures hit == KeywordMatches(kw, text)
  {
    if !kw.JStr? {
      return false;
    }
    var norm := Lower(Strip(kw.s));
    if norm == [] {
      return false;
    }
    hit := Contains(text, norm);
  }

  datatype PatternOutcome = NoFire | Fire(id: string, penalty: real) | Fail

  // What one entry of `patterns` does: Fail is the exception a conversion raises.
  function OutcomeOf(p: Json, text: string, now: real, parseStamp: string -> Option<real>): (o: PatternOutcome)
    ensures o.Fire? ==> o.penalty > 0.0 && o.id != [] && p.JObj? && o.id == PatternId(p.fields)
  {
    match p
    case JObj(m) =>
      var conf, weight, cooldown := Confidence(m), Weight(m), CooldownDays(m);
      if conf.None? || weight.None? || cooldown.None? then Fail
      else if PatternId(m) == [] || conf.value < MinConfidence || weight.value >= 0.0 then NoFire
      else if InCooldown(m, cooldown.value, now, parseStamp) then NoFire
      else if !AnyKeywordMatches(GetOr(m, "keywords", JList([])), text) then NoFire
      else Fire(PatternId(m), -weight.value)
    case _ => NoFire
  }

  datatype Penalty = Penalty(total: real, triggered: seq<string>)

  // Fired outcomes carry a positive penalty and a non-blank id.
  ghost predicate WellFormed(os: seq<PatternOutcome>)
  {
    forall i :: 0 <= i < |os| && os[i].Fire? ==> os[i].penalty > 0.0 && os[i].id != []
  }

  function Outcomes(ps: seq<Json>, text: string, now: real, parseStamp: string -> Option<real>): (os: seq<PatternOutcome>)
    ensures |os| == |ps|
  {
    if ps == [] then []
    else Outcomes(ps[..|ps| - 1], text, now, parseStamp) + [OutcomeOf(ps[|ps| - 1], text, now, parseStamp)]
  }

  lemma {:induction false} OutcomesAt(ps: seq<Json>, text: string, now: real, parseStamp: string -> Option<real>, i: nat)
    requires i < |ps|
    ensures Outcomes(ps, text, now, parseStamp)[i] == OutcomeOf(ps[i], text, now, parseStamp)
  {
    if i < |ps| - 1 {
      OutcomesAt(ps[..|ps| - 1], text, now, parseStamp, i);
    }
  }

  lemma OutcomesWellFormed(ps: seq<Json>, text: string, now: real, parseStamp: string -> Option<real>)
    ensures WellFormed(Outcomes(ps, text, now, parseStamp))
  {
    var os := Outcomes(ps, text, now, parseStamp);
    forall i | 0 <= i < |os| && os[i].Fire?
      ensures os[i].penalty > 0.0 && os[i].id != []
    {
      OutcomesAt(ps, text, now, parseStamp, i);
    }
  }

  // The accumulation over the patterns' outcomes, from the front; None once a
  // pattern raised.
  function Tally(os: seq<PatternOutcome>): (r: Option<Penalty>)
    ensures r.Some? ==> |r.value.triggered| <= |os|
  {
    if os == [] then Some(Penalty(0.0, []))
    else match Tally(os[..|os| - 1])
      case None => None
      case Some(acc) => TallyStep(acc, os[|os| - 1])
  }

  // One pattern's contribution to the running penalty.
  function TallyStep(acc: Penalty, o: PatternOutcome): (r: Option<Penalty>)
    ensures r.None? <==> o.Fail?
    ensures r.Some? ==> |r.value.triggered| <= |acc.triggered| + 1
  {
    match o
    case NoFire => Some(acc)
    case Fire(id, pen) => Some(Penalty(acc.total + pen, acc.triggered + [id]))
    case Fail => None
  }

  lemma TallyPrefix(os: seq<PatternOutcome>, i: nat)
    requires i < |os|
    ensures Tally(os[..i + 1]) == if Tally(os[..i]).None? then None else TallyStep(Tally(os[..i]).value, os[i])
  {
    assert os[..i + 1][..i] == os[..i];
  }

  // On well-formed outcomes the total is never negative, it is positive exactly
  // when some pattern fired, and every fired id is non-blank.
  lemma {:induction false} TallyBounds(os: seq<PatternOutcome>)
    requires WellFormed(os)
    ensures var r := Tally(os);
      r.Some? ==> r.value.total >= 0.0 && (r.value.total > 0.0 <==> r.value.triggered != [])
                  && forall id :: id in r.value.triggered ==> id != []
  {
    if os != [] {
      WellFormedSlice(os, 0, |os| - 1);
      TallyBounds(os[..|os| - 1]);
    }
  }

  // `_soft_avoid_penalty(content_text, avoids_json)`.
  function SoftAvoidPenaltyOf(contentText: string, avoids: Json, now: real, parseStamp: string -> Option<real>): (r: Option<Penalty>)
    ensures contentText == [] ==> r == Some(Penalty(0.0, []))
    ensures !avoids.JObj? ==> r == Some(Penalty(0.0, []))
    ensures r.Some? ==> r.value.total >= 0.0 && (r.value.total > 0.0 <==> r.value.triggered != [])
  {
    if !Truthy(avoids) || !avoids.JObj? then Some(Penalty(0.0, []))
    else
      var patterns := GetOr(avoids.fields, "patterns", JList([]));
      if !patterns.JList? || patterns.items == [] || contentText == [] then Some(Penalty(0.0, []))
      else
        var os := Outcomes(patterns.items, Lower(contentText), now, parseStamp);
        OutcomesWellFormed(patterns.items, Lower(contentText), now, parseStamp);
        TallyBounds(os);
        Tally(os)
  }

  // One round of the pattern loop.
  method PatternStep(p: Json, text: string, now: real, parseStamp: string -> Option<real>) returns (o: PatternOutcome)
    ensures o == OutcomeOf(p, text, now, parseStamp)
  {
    if !p.JObj? {
      return NoFire;
    }
    var m := p.fields;
    var pid := PatternId(m);
    var conf := Confidence(m);
    var weight := Weight(m);
    var cooldown := CooldownDays(m);
    if conf.None? || weight.None? || cooldown.None? {
      return Fail;
    }
    if pid == [] || conf.value < 0.6 || weight.value >= 0.0 {
      return NoFire;
    }
    if InCooldown(m, cooldown.value, now, parseStamp) {
      return NoFire;
    }
    var hit := KeywordHit(GetOr(m, "keywords", JList([])), text);
    o := if hit then Fire(pid, -weight.value) else NoFire;
  }

  method SoftAvoidPenalty(contentText: string, avoids: Json, now: real, parseStamp: string -> Option<real>) returns (r: Option<Penalty>)
    ensures r == SoftAvoidPenaltyOf(contentText, avoids, now, parseStamp)
  {
    if !Truthy(avoids) || !avoids.JObj? {
      return Some(Penalty(0.0, []));
    }
    var patterns := GetOr(avoids.fields, "patterns", JList([]));
    if !patterns.JList? || patterns.items == [] || contentText == [] {
      return Some(Penalty(0.0, []));
    }
    r := TallyPatterns(patterns.items, Lower(contentText), now, parseStamp);
  }

  // The loop over the patterns of `_soft_avoid_penalty`.
  method TallyPatterns(ps: seq<Json>, text: string, now: real, parseStamp: string -> Option<real>) returns (r: Option<Penalty>)
    ensures r == Tally(Outcomes(ps, text, now, parseStamp))
  {
    ghost var os := Outcomes(ps, text, now, parseStamp);
    var acc := Penalty(0.0, []);
    for i := 0 to |ps|
      invariant Tally(os[..i]) == Some(acc)
    {
      TallyPrefix(os, i);
      OutcomesAt(ps, text, now, parseStamp, i);
      var o := PatternStep(ps[i], text, now, parseStamp);
      var next := Accumulate(acc, o);
      if next.None? {
        TallyRaisedStays(os[..i + 1], os[i + 1..]);
        assert os[..i + 1] + os[i + 1..] == os;
        return None;
      }
      acc := next.value;
    }
    assert os[..|ps|] == os;
    r := Some(acc);
  }

  // Adding one pattern's outcome to the running total and fired ids.
  method Accumulate(acc: Penalty, o: PatternOutcome) returns (r: Option<Penalty>)
    ensures r == TallyStep(acc, o)
  {
    match o {
      case NoFire => r := Some(acc);
      case Fire(pid, pen) => r := Some(Penalty(acc.total + pen, acc.triggered + [pid]));
      case Fail => r := None;
    }
  }

  lemma WellFormedSlice(os: seq<PatternOutcome>, lo: nat, hi: nat)
    requires WellFormed(os) && lo <= hi <= |os|
    ensures WellFormed(os[lo..hi])
  {
    forall i | 0 <= i < hi - lo && os[lo..hi][i].Fire?
      ensures os[lo..hi][i].penalty > 0.0 && os[lo..hi][i].id != []
    {
      assert os[lo..hi][i] == os[lo + i];
    }
  }

  lemma {:induction false} TallyRaisedStays(a: seq<PatternOutcome>, b: seq<PatternOutcome>)
    requires Tally(a) == None
    ensures Tally(a + b) == None
  {
    if b == [] {
      assert a + b == a;
    } else {
      var ab := a + b;
      assert ab[..|ab| - 1] == a + b[..|b| - 1];
      TallyRaisedStays(a, b[..|b| - 1]);
    }
  }

  // Fired ids are in pattern order and penalties add up: the result on a
  // concatenation combines the results on the parts.
  lemma {:induction false} TallyAppend(a: seq<PatternOutcome>, b: seq<PatternOutcome>)
    requires Tally(a).Some? && Tally(b).Some?
    ensures var pa, pb := Tally(a).value, Tally(b).value;
      Tally(a + b) == Some(Penalty(pa.total + pb.total, pa.triggered + pb.triggered))
  {
    if b == [] {
      assert a + b == a;
      var pa := Tally(a).value;
      assert pa.triggered + [] == pa.triggered;
    } else {
      var b' := b[..|b| - 1];
      var ab := a + b;
      assert ab[..|ab| - 1] == a + b';
      assert ab[|ab| - 1] == b[|b| - 1];
      assert Tally(b').Some?;
      TallyAppend(a, b');
      var pa, pb' := Tally(a).value, Tally(b').value;
      match b[|b| - 1] {
        case NoFire =>
        case Fire(id, pen) =>
          assert (pa.triggered + pb'.triggered) + [id] == pa.triggered + (pb'.triggered + [id]);
        case Fail =>
      }
    }
  }

  // A single pattern fires exactly when its id is non-blank, its confidence is
  // at least 0.6, its weight is negative, it is not in cooldown and one of its
  // keywords occurs in the text; it then contributes -weight and its id.
  lemma SinglePatternFires(contentText: string, m: map<string, Json>, w: real, now: real, parseStamp: string -> Option<real>)
    requires contentText != []
    requires Confidence(m).Some? && Weight(m) == Some(w) && CooldownDays(m).Some?
    ensures var avoids := JObj(map["patterns" := JList([JObj(m)])]);
      SoftAvoidPenaltyOf(contentText, avoids, now, parseStamp)
      == (if PatternId(m) != [] && Confidence(m).value >= MinConfidence && w < 0.0
            && !InCooldown(m, CooldownDays(m).value, now, parseStamp)
            && AnyKeywordMatches(GetOr(m, "keywords", JList([])), Lower(contentText))
         then Some(Penalty(-w, [PatternId(m)]))
         else Some(Penalty(0.0, [])))
  {
    var avoids := JObj(map["patterns" := JList([JObj(m)])]);
    assert "patterns" in avoids.fields;
    assert Truthy(avoids);
    assert GetOr(avoids.fields, "patterns", JList([])) == JList([JObj(m)]);
    var os := Outcomes([JObj(m)], Lower(contentText), now, parseStamp);
    OutcomesAt([JObj(m)], Lower(contentText), now, parseStamp, 0);
    assert os[..0] == [];
    assert Tally(os) == TallyStep(Penalty(0.0, []), os[0]);
    var o := OutcomeOf(JObj(m), Lower(contentText), now, parseStamp);
    assert os[0] == o;
    if o.Fire? {
      assert [] + [o.id] == [o.id];
      assert 0.0 + o.penalty == -w;
    }
  }

  // --- Stamping the patterns that fired for chosen picks ---------------------

  // The key the stamping step compares: `str(p.get("id"))`, not trimmed.
  function StampKeyAsWritten(m: map<string, Json>): string
  {
    ToStr(Get(m, "id"))
  }

  function WithStamp(m: map<string, Json>, nowIso: string): (r: map<string, Json>)
    ensures Get(r, "last_triggered") == JStr(nowIso)
    ensures forall k :: k != "last_triggered" ==> Get(r, k) == Get(m, k) && GetOr(r, k, JNull) == GetOr(m, k, JNull)
  {
    m["last_triggered" := JStr(nowIso)]
  }

  // The stamping of one pattern as the source writes it.
  function StampAsWritten(p: Json, chosen: set<string>, nowIso: string): Json
  {
    if p.JObj? && StampKeyAsWritten(p.fields) in chosen then JObj(WithStamp(p.fields, nowIso)) else p
  }

  // The stamping of one pattern keyed by the id under which it fired.
  function Stamp(p: Json, chosen: set<string>, nowIso: string): Json
  {
    if p.JObj? && PatternId(p.fields) in chosen then JObj(WithStamp(p.fields, nowIso)) else p
  }

  // A pattern whose id carries surrounding blanks fires under the trimmed id,
  // but the stamping as written looks for the untrimmed one and leaves it alone.
  lemma PaddedIdNeverStamped()
    ensures var m := map["id" := JStr(" x ")];
      PatternId(m) == "x" && StampAsWritten(JObj(m), {"x"}, "2024-01-01T00:00:00Z") == JObj(m)
  {
    var m := map["id" := JStr(" x ")];
    assert ToStr(GetOr(m, "id", JStr(""))) == " x ";
    assert IsSpace(' ') && !IsSpace('x');
    assert TrimLeft(" x ") == "x " by {
      assert !IsSpace(" x "[1]);
    }
    assert TrimRight("x ") == "x";
    assert StampKeyAsWritten(m) == " x ";
  }

  // With the stamp keyed by the fired id, a pattern that fired for a chosen
  // pick and got stamped with the current moment is in cooldown and cannot fire
  // again at the same moment.
  lemma StampedPatternCoolsDown(p: Json, chosen: set<string>, nowIso: string, now: real, text: string, parseStamp: string -> Option<real>)
    requires p.JObj? && PatternId(p.fields) in chosen
    requires parseStamp(nowIso) == Some(now) && nowIso != []
    requires CooldownDays(p.fields).Some? && 0 < CooldownDays(p.fields).value <= MaxTimedeltaDays
    ensures OutcomeOf(Stamp(p, chosen, nowIso), text, now, parseStamp) != OutcomeOf(p, text, now, parseStamp)
         || !OutcomeOf(p, text, now, parseStamp).Fire?
    ensures !OutcomeOf(Stamp(p, chosen, nowIso), text, now, parseStamp).Fire?
  {
    var m := p.fields;
    var m' := WithStamp(m, nowIso);
    assert PatternId(m') == PatternId(m) && Confidence(m') == Confidence(m);
    assert Weight(m') == Weight(m) && CooldownDays(m') == CooldownDays(m);
    assert InCooldown(m', CooldownDays(m).value, now, parseStamp);
  }

  // A cooldown longer than `timedelta` can hold never blocks: a pattern that
  // fired still fires, with the same penalty, once stamped with any moment.
  lemma OverflowingCooldownFiresAgain(p: Json, chosen: set<string>, nowIso: string, now: real, text: string, parseStamp: string -> Option<real>)
    requires p.JObj? && PatternId(p.fields) in chosen
    requires CooldownDays(p.fields).Some? && CooldownDays(p.fields).value > MaxTimedeltaDays
    requires OutcomeOf(p, text, now, parseStamp).Fire?
    ensures OutcomeOf(Stamp(p, chosen, nowIso), text, now, parseStamp) == OutcomeOf(p, text, now, parseStamp)
  {
    var m := p.fields;
    var m' := WithStamp(m, nowIso);
    assert PatternId(m') == PatternId(m) && Confidence(m') == Confidence(m);
    assert Weight(m') == Weight(m) && CooldownDays(m') == CooldownDays(m);
    assert GetOr(m', "keywords", JList([])) == GetOr(m, "keywords", JList([]));
    assert !InCooldown(m', CooldownDays(m).value, now, parseStamp);
  }

  // Step 12 stamps by the untrimmed `str(p.get("id"))` (StampAsWritten).
  // For a pattern whose id is a string with nothing to trim, that key is the
  // id it fires under, so there the as-written stamp and the fired-id stamp agree.
  lemma StampAgreesOnTrimmedIds(p: Json, chosen: set<string>, nowIso: string)
    requires p.JObj? && "id" in p.fields && p.fields["id"].JStr?
    requires Strip(p.fields["id"].s) == p.fields["id"].s
    ensures StampAsWritten(p, chosen, nowIso) == Stamp(p, chosen, nowIso)
  {
    assert StampKeyAsWritten(p.fields) == p.fields["id"].s == PatternId(p.fields);
  }

  // A pattern without an "id" key is looked up as "None" (`str(None)`), while
  // it never fires (its fired id would be blank).
  lemma MissingIdKeyedNone(p: Json)
    requires p.JObj? && "id" !in p.fields
    ensures StampKeyAsWritten(p.fields) == "None" && PatternId(p.fields) == []
  {
  }

  // `for p in pats: ...` over the whole list, as the source stamps.
  function StampAll(ps: seq<Json>, chosen: set<string>, nowIso: string): (r: seq<Json>)
    ensures |r| == |ps|
  {
    if ps == [] then [] else StampAll(ps[..|ps| - 1], chosen, nowIso) + [StampAsWritten(ps[|ps| - 1], chosen, nowIso)]
  }

  lemma {:induction false} StampAllAt(ps: seq<Json>, chosen: set<string>, nowIso: string, i: nat)
    requires i < |ps|
    ensures StampAll(ps, chosen, nowIso)[i] == StampAsWritten(ps[i], chosen, nowIso)
  {
    if i < |ps| - 1 {
      StampAllAt(ps[..|ps| - 1], chosen, nowIso, i);
    }
  }

  // The in-place loop `p["last_triggered"] = now_iso` over the pattern list.
  method StampTriggered(pats: array<Json>, chosen: set<string>, nowIso: string)
    modifies pats
    ensures pats[..] == StampAll(old(pats[..]), chosen, nowIso)
  {
    ghost var before := pats[..];
    for i := 0 to pats.Length
      invariant pats[..i] == StampAll(before[..i], chosen, nowIso)
      invariant pats[i..] == before[i..]
    {
      var q := StampOne(pats[i], chosen, nowIso);
      StampStep(pats[..], before, i, q, chosen, nowIso);
      pats[i] := q;
    }
    assert before[..pats.Length] == before;
    assert pats[..] == pats[..pats.Length];
  }

  lemma StampStep(cur: seq<Json>, before: seq<Json>, i: nat, q: Json, chosen: set<string>, nowIso: string)
    requires i < |cur| == |before|
    requires cur[..i] == StampAll(before[..i], chosen, nowIso) && cur[i..] == before[i..]
    requires q == StampAsWritten(cur[i], chosen, nowIso)
    ensures cur[i := q][..i + 1] == StampAll(before[..i + 1], chosen, nowIso)
    ensures cur[i := q][i + 1..] == before[i + 1..]
  {
    assert cur[i] == cur[i..][0] == before[i];
    assert before[..i + 1][..i] == before[..i];
    assert cur[i := q][..i + 1] == cur[..i] + [q];
    assert cur[i := q][i + 1..] == cur[i + 1..] == cur[i..][1..];
  }

  // One round: a dict whose `str(p.get("id"))` is chosen gets the stamp.
  method StampOne(p: Json, chosen: set<string>, nowIso: string) returns (q: Json)
    ensures q == StampAsWritten(p, chosen, nowIso)
  {
    q := p;
    if p.JObj? && ToStr(Get(p.fields, "id")) in chosen {
      q := JObj(p.fields["last_triggered" := JStr(nowIso)]);
    }
  }

  // The ids that fired for at least one of the chosen picks.
  function ChosenIds(pickTriggered: seq<seq<string>>): (chosen: set<string>)
    ensures forall id :: id in chosen <==> exists j :: 0 <= j < |pickTriggered| && id in pickTriggered[j]
  {
    set j, id | 0 <= j < |pickTriggered| && id in pickTriggered[j] :: id
  }

  // Step 12 of `recommend_v1`: the new `avoids_json` to write, or None when
  // nothing is written (no profile, no pattern list, or no fired id among the picks).
  function UpdatedAvoids(hasProfile: bool, avoids: Json, pickTriggered: seq<seq<string>>, nowIso: string): (r: Option<Json>)
    ensures r.Some? <==> hasProfile && avoids.JObj? && "patterns" in avoids.fields
                         && avoids.fields["patterns"].JList? && avoids.fields["patterns"].items != []
                         && ChosenIds(pickTriggered) != {}
    ensures r.Some? ==> r.value.JObj? && r.value.fields.Keys == avoids.fields.Keys
    ensures r.Some? ==> forall k :: k in avoids.fields && k != "patterns" ==> r.value.fields[k] == avoids.fields[k]
    ensures r.Some? ==> r.value.fields["patterns"].JList?
                        && |r.value.fields["patterns"].items| == |avoids.fields["patterns"].items|
  {
    if !hasProfile || !avoids.JObj? || "patterns" !in avoids.fields then None
    else
      var pats := avoids.fields["patterns"];
      if !pats.JList? || pats.items == [] then None
      else
        var chosen := ChosenIds(pickTriggered);
        if chosen == {} then None
        else Some(JObj(avoids.fields["patterns" := JList(StampAll(pats.items, chosen, nowIso))]))
  }

  // Stamping one pattern as written changes it exactly when it is a dict whose
  // untrimmed id is chosen, and then only its `last_triggered` field, which
  // becomes the current moment.
  lemma StampEffect(p: Json, chosen: set<string>, nowIso: string)
    ensures var q := StampAsWritten(p, chosen, nowIso);
      (q != p ==> p.JObj? && StampKeyAsWritten(p.fields) in chosen)
      && (p.JObj? && StampKeyAsWritten(p.fields) in chosen ==>
            q.JObj? && Get(q.fields, "last_triggered") == JStr(nowIso)
            && forall k :: k != "last_triggered" ==> Get(q.fields, k) == Get(p.fields, k))
  {
  }

  // The update stamps exactly the dict patterns whose untrimmed `str` id fired
  // for some chosen pick, and leaves every other pattern as it was.
  lemma UpdatedAvoidsStampsOnlyFired(hasProfile: bool, avoids: Json, pickTriggered: seq<seq<string>>, nowIso: string, i: nat)
    requires UpdatedAvoids(hasProfile, avoids, pickTriggered, nowIso).Some?
    requires i < |avoids.fields["patterns"].items|
    ensures var p := avoids.fields["patterns"].items[i];
      var q := UpdatedAvoids(hasProfile, avoids, pickTriggered, nowIso).value.fields["patterns"].items[i];
      var fired := p.JObj? && exists j :: 0 <= j < |pickTriggered| && StampKeyAsWritten(p.fields) in pickTriggered[j];
      (!fired ==> q == p)
      && (fired ==> q.JObj? && Get(q.fields, "last_triggered") == JStr(nowIso)
                    && forall k :: k != "last_triggered" ==> Get(q.fields, k) == Get(p.fields, k))
  {
    var ps := avoids.fields["patterns"].items;
    var chosen := ChosenIds(pickTriggered);
    StampAllAt(ps, chosen, nowIso, i);
    StampEffect(ps[i], chosen, nowIso);
  }
}
