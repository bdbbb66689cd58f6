// The chat handlers of the bot: the commands and buttons that start or end
// a review, and the text handler that moves the user's pending action on.
// The replies sent back are not part of the model; what is modelled is what
// each handler leaves in the tables.
module BotRouter {
  import opened Wrappers
  import opened Json
  import opened Text
  import opened Dates
  import opened DbErrors
  import opened Tmdb
  import opened BotParsing
  import opened PendingRepo
  import opened UsersRepo
  import opened WatchedRepo
  import opened RecommendationsRepo
  import opened ReviewService

  const AwaitingMovieQuery: string := "awaiting_movie_query"
  const AwaitingMoviePick: string := "awaiting_movie_pick"
  const AwaitingReview: string := "awaiting_review"
  const AwaitingRating: string := "awaiting_rating"
  const ManualMode: string := "manual"
  const SkippedStatus: string := "skipped"
  // The pick keyboard offers at most this many search results.
  const PickListSize: nat := 5

  // What makes a handler stop with an exception: a film's details could not
  // be fetched, a stored or button value does not convert with `int()`, or a
  // write was refused.
  datatype BotError = DetailsUnavailable | BadPayload | Db(error: DbError)

  // The arguments of `_save_review` as the text handler passes them.
  datatype SaveRequest = SaveRequest(tmdbId: int, mode: Json, rating: real, review: Option<string>, itemId: Json)

  // What a text message does: nothing, a new pending action, a saved review
  // followed by clearing the action, or an exception from a payload field.
  datatype TextStep =
    | Stay
    | Await(next: PendingAction)
    | Save(req: SaveRequest)
    | Fail

  // ---------------------------------------------------------------------
  // Payloads
  // ---------------------------------------------------------------------

  // `int(payload.get(key))`; None where `int()` raises (a missing key reads
  // as None, which it refuses too).
  function PayloadInt(payload: map<string, Json>, key: string): Option<int>
  {
    SafeInt(Get(payload, key))
  }

  // `(draft_review or "").strip()`; None where the value is not a string.
  function DraftText(draft: Json): (r: Option<string>)
    ensures draft.JStr? ==> r == Some(Strip(draft.s))
    ensures draft == JNull ==> r == Some([])
  {
    match Or(draft, JStr([]))
    case JStr(s) => Some(Strip(s))
    case _ => None
  }

  // `rest_text if rest_text else None`.
  function ReviewText(rest: string): (r: Option<string>)
    ensures r.None? <==> rest == []
    ensures r.Some? ==> r.value == rest
  {
    if rest != [] then Some(rest) else None
  }

  // The review of the rating step: the trimmed draft, with any text that came
  // with the rating added after a blank line; None when nothing is left.
  function CombinedReview(draft: string, rest: string): (r: Option<string>)
    ensures rest == [] ==> r == (if draft == [] then None else Some(draft))
    ensures r.Some? ==> r.value != []
    ensures rest != [] && r.Some? ==> Strip(r.value) == r.value
  {
    var combined := if rest != [] then Strip(draft + "\n\n" + rest) else draft;
    StripIdempotent(draft + "\n\n" + rest);
    if combined == [] then None else Some(combined)
  }

  function ManualReviewPayload(tmdbId: int): map<string, Json>
  {
    map["mode" := JStr(ManualMode), "tmdb_id" := JInt(tmdbId)]
  }

  function AgentReviewPayload(tmdbId: int, itemId: int): map<string, Json>
  {
    map["mode" := JStr(AgentMode), "tmdb_id" := JInt(tmdbId), "item_id" := JInt(itemId)]
  }

  // What the review step keeps while it waits for the rating.
  function DraftPayload(mode: Json, tmdbId: int, text: string, itemId: Json): map<string, Json>
  {
    map["mode" := mode, "tmdb_id" := JInt(tmdbId), "draft_review" := JStr(text), "item_id" := itemId]
  }

  // One entry of the pick list: `{"tmdb_id", "title", "year"}`.
  function CandidateJson(c: MovieCandidate): Json
  {
    JObj(map["tmdb_id" := JInt(c.tmdbId), "title" := JStr(c.title),
             "year" := if c.year.Some? then JInt(c.year.value) else JNull])
  }

  // The pick list: the first five candidates, in the search's order.
  function PickList(cands: seq<MovieCandidate>): (r: seq<Json>)
    ensures |r| == if |cands| < PickListSize then |cands| else PickListSize
    ensures forall i :: 0 <= i < |r| ==> r[i] == CandidateJson(cands[i])
  {
    var shown := Take(cands, PickListSize);
    seq(|shown|, i requires 0 <= i < |shown| => CandidateJson(shown[i]))
  }

  // The review goes through the recommended item when the mode is "agent"
  // and an item id was stored (`item_id is not None`).
  predicate AgentItem(mode: Json, itemId: Json)
  {
    mode == JStr(AgentMode) && itemId != JNull
  }

  predicate IsReviewAction(actionType: string)
  {
    actionType == AwaitingReview || actionType == AwaitingRating
  }

  // A pending action whose payload fields convert as the text handler and
  // `_save_review` convert them: the film id, the draft, and the item id of
  // an agent-mode review.
  predicate WellFormed(a: PendingAction)
  {
    (IsReviewAction(a.actionType) ==>
      && PayloadInt(a.payload, "tmdb_id").Some?
      && (AgentItem(Get(a.payload, "mode"), Get(a.payload, "item_id")) ==> PayloadInt(a.payload, "item_id").Some?))
    && (a.actionType == AwaitingRating ==> DraftText(Get(a.payload, "draft_review")).Some?)
  }

  ghost predicate AllWellFormed(slots: map<int, PendingAction>)
  {
    forall u :: u in slots ==> WellFormed(slots[u])
  }

  // ---------------------------------------------------------------------
  // The text handler's decision
  // ---------------------------------------------------------------------

  // `awaiting_movie_query`: search the parsed title (`search` returns None
  // when the search raises its TMDB error) and pick the film, or offer a list.
  function QueryStep(text: string, search: (string, Option<int>) -> Option<seq<MovieCandidate>>): (r: TextStep)
    ensures var (title, year) := ParseTitleAndYear(text);
      && (title == [] || search(title, year) == None || search(title, year) == Some([]) ==> r == Stay)
      && (title != [] && search(title, year).Some? && search(title, year).value != [] ==>
            var cands := search(title, year).value;
            && ((|cands| == 1 || (year.Some? && cands[0].year == year)) ==>
                  r == Await(PendingAction(AwaitingReview, ManualReviewPayload(cands[0].tmdbId))))
            && (!(|cands| == 1 || (year.Some? && cands[0].year == year)) ==>
                  r == Await(PendingAction(AwaitingMoviePick,
                                           map["mode" := JStr(ManualMode), "candidates" := JList(PickList(cands))]))))
  {
    var (title, year) := ParseTitleAndYear(text);
    if title == [] then Stay
    else match search(title, year)
      case None => Stay
      case Some(cands) =>
        if cands == [] then Stay
        else if |cands| == 1 || (year.Some? && cands[0].year == year) then
          Await(PendingAction(AwaitingReview, ManualReviewPayload(cands[0].tmdbId)))
        else
          Await(PendingAction(AwaitingMoviePick, map["mode" := JStr(ManualMode), "candidates" := JList(PickList(cands))]))
  }

  // `awaiting_review`: with a rating in the text, save; without one, keep the
  // text as a draft and wait for the rating.
  function ReviewStep(payload: map<string, Json>, text: string): (r: TextStep)
    ensures PayloadInt(payload, "tmdb_id").None? ==> r == Fail
    ensures PayloadInt(payload, "tmdb_id").Some? && ParseRating(text).None? ==>
      r == Await(PendingAction(AwaitingRating, DraftPayload(Get(payload, "mode"), PayloadInt(payload, "tmdb_id").value,
                                                            text, Get(payload, "item_id"))))
    ensures PayloadInt(payload, "tmdb_id").Some? && ParseRating(text).Some? ==>
      r == Save(SaveRequest(PayloadInt(payload, "tmdb_id").value, Get(payload, "mode"), ParseRating(text).value.rating,
                            ReviewText(ParseRating(text).value.restText), Get(payload, "item_id")))
  {
    var mode := Get(payload, "mode");
    match PayloadInt(payload, "tmdb_id")
    case None => Fail
    case Some(tmdbId) =>
      match ParseRating(text)
      case None =>
        Await(PendingAction(AwaitingRating, DraftPayload(mode, tmdbId, text, Get(payload, "item_id"))))
      case Some(p) => Save(SaveRequest(tmdbId, mode, p.rating, ReviewText(p.restText), Get(payload, "item_id")))
  }

  // `awaiting_rating`: a rating saves the draft together with any text that
  // came with it; anything else is ignored.
  function RatingStep(payload: map<string, Json>, text: string): (r: TextStep)
    ensures PayloadInt(payload, "tmdb_id").None? ==> r == Fail
    ensures PayloadInt(payload, "tmdb_id").Some? && ParseRating(text).None? ==> r == Stay
    ensures PayloadInt(payload, "tmdb_id").Some? && ParseRating(text).Some? ==>
      var draft := DraftText(Get(payload, "draft_review"));
      && (draft.None? ==> r == Fail)
      && (draft.Some? ==>
            r == Save(SaveRequest(PayloadInt(payload, "tmdb_id").value, Get(payload, "mode"), ParseRating(text).value.rating,
                                  CombinedReview(draft.value, ParseRating(text).value.restText), Get(payload, "item_id"))))
  {
    match PayloadInt(payload, "tmdb_id")
    case None => Fail
    case Some(tmdbId) =>
      match ParseRating(text)
      case None => Stay
      case Some(p) =>
        match DraftText(Get(payload, "draft_review"))
        case None => Fail
        case Some(draft) =>
          Save(SaveRequest(tmdbId, Get(payload, "mode"), p.rating, CombinedReview(draft, p.restText), Get(payload, "item_id")))
  }

  // The step `handle_text` takes for the stripped text and the user's pending
  // action. Without an action, while a pick is awaited, and for an action
  // type it does not know, the handler only replies.
  function Step(pending: Option<PendingAction>, text: string,
                search: (string, Option<int>) -> Option<seq<MovieCandidate>>): (r: TextStep)
    ensures pending.None? ==> r == Stay
    ensures pending.Some? && pending.value.actionType == AwaitingMoviePick ==> r == Stay
    ensures pending.Some? && pending.value.actionType !in {AwaitingMovieQuery, AwaitingReview, AwaitingRating} ==> r == Stay
    // Actions the handlers wrote never make it raise, and the actions it
    // writes are of that kind again.
    ensures pending.Some? && WellFormed(pending.value) ==> !r.Fail?
    ensures pending.Some? && WellFormed(pending.value) && r.Await? ==> WellFormed(r.next)
    ensures r.Save? ==> 0.0 <= r.req.rating <= 5.0
    ensures r.Save? && pending.Some? && WellFormed(pending.value) && AgentItem(r.req.mode, r.req.itemId) ==>
      SafeInt(r.req.itemId).Some?
  {
    if pending.None? then Stay
    else if pending.value.actionType == AwaitingMovieQuery then QueryStep(text, search)
    else if pending.value.actionType == AwaitingReview then ReviewStep(pending.value.payload, text)
    else if pending.value.actionType == AwaitingRating then RatingStep(pending.value.payload, text)
    else Stay
  }

  // ---------------------------------------------------------------------
  // Properties of the review conversation
  // ---------------------------------------------------------------------

  // A review written without a rating is kept as the draft; the rating that
  // follows saves it, joined by a blank line to any text sent with the
  // rating, under the same film, mode and item.
  lemma DraftThenRating(payload: map<string, Json>, draftText: string, ratingText: string,
                        search: (string, Option<int>) -> Option<seq<MovieCandidate>>)
    requires draftText == Strip(draftText) && draftText != []
    requires PayloadInt(payload, "tmdb_id").Some?
    requires ParseRating(draftText).None? && ParseRating(ratingText).Some?
    ensures var first := Step(Some(PendingAction(AwaitingReview, payload)), draftText, search);
      && first.Await? && first.next.actionType == AwaitingRating
      && var rest := ParseRating(ratingText).value.restText;
         Step(Some(first.next), ratingText, search)
           == Save(SaveRequest(PayloadInt(payload, "tmdb_id").value, Get(payload, "mode"), ParseRating(ratingText).value.rating,
                               Some(if rest == [] then draftText else Strip(draftText + "\n\n" + rest)),
                               Get(payload, "item_id")))
  {
    var tmdbId := PayloadInt(payload, "tmdb_id").value;
    DraftPayloadReads(Get(payload, "mode"), tmdbId, draftText, Get(payload, "item_id"));
    DraftCombined(draftText, ParseRating(ratingText).value.restText);
  }

  lemma DraftPayloadReads(mode: Json, tmdbId: int, text: string, itemId: Json)
    ensures var p := DraftPayload(mode, tmdbId, text, itemId);
      && PayloadInt(p, "tmdb_id") == Some(tmdbId) && Get(p, "draft_review") == JStr(text)
      && Get(p, "mode") == mode && Get(p, "item_id") == itemId
  {
  }

  // A non-blank stripped draft survives the join with the rating's text.
  lemma DraftCombined(draftText: string, rest: string)
    requires draftText == Strip(draftText) && draftText != []
    ensures DraftText(JStr(draftText)) == Some(draftText)
    ensures CombinedReview(draftText, rest) == Some(if rest == [] then draftText else Strip(draftText + "\n\n" + rest))
  {
    if rest != [] {
      StripShape(draftText);
      StripKeepsPrefix(draftText + "\n\n" + rest, draftText);
    }
  }

  // A review sent together with its rating is saved at once with the text
  // after the rating, or with none when nothing follows it.
  lemma RatedReviewSavesRest(payload: map<string, Json>, text: string,
                             search: (string, Option<int>) -> Option<seq<MovieCandidate>>)
    requires PayloadInt(payload, "tmdb_id").Some? && ParseRating(text).Some?
    ensures var s := Step(Some(PendingAction(AwaitingReview, payload)), text, search);
      && s.Save? && s.req.tmdbId == PayloadInt(payload, "tmdb_id").value
      && s.req.rating == ParseRating(text).value.rating
      && (ParseRating(text).value.restText == [] <==> s.req.review.None?)
      && (s.req.review.Some? ==> s.req.review.value == ParseRating(text).value.restText)
  {
  }

  // After "watched" on a recommended film, a rated review goes through the
  // item: the save carries the item's id and the watched row is marked as
  // coming from the agent.
  lemma WatchedButtonReviewsItem(tmdbId: int, itemId: int, text: string,
                                 search: (string, Option<int>) -> Option<seq<MovieCandidate>>)
    requires ParseRating(text).Some?
    ensures var s := Step(Some(PendingAction(AwaitingReview, AgentReviewPayload(tmdbId, itemId))), text, search);
      && s.Save? && s.req.tmdbId == tmdbId && AgentItem(s.req.mode, s.req.itemId)
      && SafeInt(s.req.itemId) == Some(itemId) && ChatSource(s.req) == AgentMode
  {
    var p := AgentReviewPayload(tmdbId, itemId);
    assert PayloadInt(p, "tmdb_id") == Some(tmdbId);
    assert Get(p, "mode") == JStr(AgentMode) && Get(p, "item_id") == JInt(itemId);
  }

  // The stored pick list holds the search's first films in order, and each
  // entry's id reads back as the film's id.
  lemma PickListIds(cands: seq<MovieCandidate>, i: nat)
    requires i < |cands| && i < PickListSize
    ensures var l := PickList(cands);
      i < |l| && l[i].JObj? && PayloadInt(l[i].fields, "tmdb_id") == Some(cands[i].tmdbId)
      && Get(l[i].fields, "title") == JStr(cands[i].title)
  {
  }

  // ---------------------------------------------------------------------
  // Button data
  // ---------------------------------------------------------------------

  // `int(data.split(":")[k])`; None where the piece is missing or `int()`
  // refuses it.
  function CallbackInt(data: string, k: nat): (r: Option<int>)
    ensures |Split(data, ':')| <= k ==> r == None
    ensures |Split(data, ':')| > k ==> r == ParseIntLiteral(Split(data, ':')[k])
  {
    var parts := Split(data, ':');
    if |parts| > k then ParseIntLiteral(parts[k]) else None
  }

  // `_, item_id_s, tmdb_id_s = data.split(":")` followed by the two `int()`s.
  function WatchedCallback(data: string): (r: Option<(int, int)>)
    ensures r.Some? ==>
      && |Split(data, ':')| == 3
      && ParseIntLiteral(Split(data, ':')[1]) == Some(r.value.0) && ParseIntLiteral(Split(data, ':')[2]) == Some(r.value.1)
    ensures r.None? ==>
      || |Split(data, ':')| != 3
      || ParseIntLiteral(Split(data, ':')[1]).None? || ParseIntLiteral(Split(data, ':')[2]).None?
  {
    var parts := Split(data, ':');
    if |parts| != 3 then None
    else match (ParseIntLiteral(parts[1]), ParseIntLiteral(parts[2]))
      case (Some(item), Some(tmdb)) => Some((item, tmdb))
      case _ => None
  }

  // The buttons' data as the keyboards write it: `f"{tag}:{id}"` and
  // `f"watched:{item_id}:{tmdb_id}"`.
  function TaggedId(tag: string, id: nat): string
  {
    tag + ":" + NatToString(id)
  }

  function WatchedData(tag: string, itemId: nat, tmdbId: nat): string
  {
    tag + ":" + NatToString(itemId) + ":" + NatToString(tmdbId)
  }

  lemma NoColonInNumber(n: nat)
    ensures ':' !in NatToString(n)
  {
  }

  lemma ParseNat(n: nat)
    ensures ParseIntLiteral(NatToString(n)) == Some(n)
  {
    ParseIntOfNat(n);
  }

  // A button made for a film or an item gives its id back.
  lemma TaggedIdRoundTrip(tag: string, id: nat)
    requires ':' !in tag
    ensures CallbackInt(TaggedId(tag, id), 1) == Some(id)
  {
    NoColonInNumber(id);
    SplitAfterPiece(tag, ':', NatToString(id));
    SplitOfPlain(NatToString(id), ':');
    assert TaggedId(tag, id) == tag + [':'] + NatToString(id);
    ParseNat(id);
  }

  // The "watched" button gives back its item and its film.
  lemma WatchedDataRoundTrip(tag: string, itemId: nat, tmdbId: nat)
    requires ':' !in tag
    ensures WatchedCallback(WatchedData(tag, itemId, tmdbId)) == Some((itemId, tmdbId))
  {
    var a := NatToString(itemId);
    var b := NatToString(tmdbId);
    NoColonInNumber(itemId);
    NoColonInNumber(tmdbId);
    assert WatchedData(tag, itemId, tmdbId) == tag + [':'] + (a + [':'] + b);
    SplitThree(tag, a, b);
    ParseNat(itemId);
    ParseNat(tmdbId);
  }

  lemma SplitThree(x: string, y: string, z: string)
    requires ':' !in x && ':' !in y && ':' !in z
    ensures Split(x + [':'] + (y + [':'] + z), ':') == [x, y, z]
  {
    SplitAfterPiece(x, ':', y + [':'] + z);
    SplitAfterPiece(y, ':', z);
    SplitOfPlain(z, ':');
  }

  // ---------------------------------------------------------------------
  // The handlers
  // ---------------------------------------------------------------------

  // The users table after `get_or_create_user(telegram_id)` returned the
  // user `userId`.
  ghost predicate UserResolved(prev: map<int, User>, users: map<int, User>, telegramId: int, userId: int)
  {
    && userId in users && users[userId].telegramId == telegramId
    && ((exists id :: id in prev && prev[id].telegramId == telegramId) ==> users == prev && userId in prev)
    && ((forall id :: id in prev ==> prev[id].telegramId != telegramId) ==>
          userId !in prev && users == prev[userId := User(telegramId, DefaultTimezone)])
  }

  // `/start` and `/cancel`: the user's pending action is dropped.
  method StartOrCancel(users: UserStore, pending: PendingStore, telegramId: int) returns (userId: int)
    requires users.Valid()
    modifies users, pending
    ensures users.Valid() && UserResolved(old(users.users), users.users, telegramId, userId)
    ensures pending.slots == old(pending.slots) - {userId}
    ensures old(AllWellFormed(pending.slots)) ==> AllWellFormed(pending.slots)
  {
    userId := users.GetOrCreate(telegramId);
    pending.ClearPending(userId);
  }

  // `/review`: wait for a film title.
  method CmdReview(users: UserStore, pending: PendingStore, telegramId: int) returns (userId: int)
    requires users.Valid()
    modifies users, pending
    ensures users.Valid() && UserResolved(old(users.users), users.users, telegramId, userId)
    ensures pending.slots == old(pending.slots)[userId := PendingAction(AwaitingMovieQuery, map["mode" := JStr(ManualMode)])]
    ensures old(AllWellFormed(pending.slots)) ==> AllWellFormed(pending.slots)
  {
    userId := users.GetOrCreate(telegramId);
    pending.SetPending(userId, AwaitingMovieQuery, map["mode" := JStr(ManualMode)]);
  }

  // A film picked from the list: wait for its manual review. Button data
  // that does not convert raises before anything is read or written.
  method CbPickMovie(users: UserStore, pending: PendingStore, telegramId: int, data: string)
    returns (userId: Option<int>, err: Option<BotError>)
    requires users.Valid()
    modifies users, pending
    ensures users.Valid()
    ensures CallbackInt(data, 1).None? ==>
      err == Some(BadPayload) && userId == None && users.users == old(users.users) && pending.slots == old(pending.slots)
    ensures CallbackInt(data, 1).Some? ==>
      && err == None && userId.Some? && UserResolved(old(users.users), users.users, telegramId, userId.value)
      && pending.slots == old(pending.slots)[userId.value := PendingAction(AwaitingReview, ManualReviewPayload(CallbackInt(data, 1).value))]
    ensures old(AllWellFormed(pending.slots)) ==> AllWellFormed(pending.slots)
  {
    var tmdbId := CallbackInt(data, 1);
    if tmdbId.None? {
      return None, Some(BadPayload);
    }
    var id := users.GetOrCreate(telegramId);
    pending.SetPending(id, AwaitingReview, ManualReviewPayload(tmdbId.value));
    assert PayloadInt(ManualReviewPayload(tmdbId.value), "tmdb_id") == Some(tmdbId.value);
    return Some(id), None;
  }

  // "Watched" on a recommended film: wait for its review through the item.
  method CbWatched(users: UserStore, pending: PendingStore, telegramId: int, data: string)
    returns (userId: Option<int>, err: Option<BotError>)
    requires users.Valid()
    modifies users, pending
    ensures users.Valid()
    ensures WatchedCallback(data).None? ==>
      err == Some(BadPayload) && userId == None && users.users == old(users.users) && pending.slots == old(pending.slots)
    ensures WatchedCallback(data).Some? ==>
      var (itemId, tmdbId) := WatchedCallback(data).value;
      && err == None && userId.Some? && UserResolved(old(users.users), users.users, telegramId, userId.value)
      && pending.slots == old(pending.slots)[userId.value := PendingAction(AwaitingReview, AgentReviewPayload(tmdbId, itemId))]
    ensures old(AllWellFormed(pending.slots)) ==> AllWellFormed(pending.slots)
  {
    var ids := WatchedCallback(data);
    if ids.None? {
      return None, Some(BadPayload);
    }
    var (itemId, tmdbId) := ids.value;
    var id := users.GetOrCreate(telegramId);
    pending.SetPending(id, AwaitingReview, AgentReviewPayload(tmdbId, itemId));
    assert PayloadInt(AgentReviewPayload(tmdbId, itemId), "tmdb_id") == Some(tmdbId);
    assert PayloadInt(AgentReviewPayload(tmdbId, itemId), "item_id") == Some(itemId);
    return Some(id), None;
  }

  // "Skip" on a recommended film: the item is marked skipped (an unknown
  // item is left alone) and the pending action is dropped.
  method CbSkip(users: UserStore, pending: PendingStore, recStore: RecStore, telegramId: int, data: string)
    returns (userId: Option<int>, err: Option<BotError>)
    requires users.Valid() && recStore.Valid()
    modifies users, pending, recStore
    ensures users.Valid() && recStore.Valid()
    ensures recStore.recs == old(recStore.recs) && recStore.feedback == old(recStore.feedback)
    ensures CallbackInt(data, 1).None? ==>
      && err == Some(BadPayload) && userId == None && users.users == old(users.users)
      && pending.slots == old(pending.slots) && recStore.items == old(recStore.items)
    ensures CallbackInt(data, 1).Some? ==>
      var itemId := CallbackInt(data, 1).value;
      && err == None && userId.Some? && UserResolved(old(users.users), users.users, telegramId, userId.value)
      && pending.slots == old(pending.slots) - {userId.value}
      && (itemId in old(recStore.items) ==>
            recStore.items == old(recStore.items)[itemId := old(recStore.items)[itemId].(status := SkippedStatus)])
      && (itemId !in old(recStore.items) ==> recStore.items == old(recStore.items))
    ensures old(AllWellFormed(pending.slots)) ==> AllWellFormed(pending.slots)
  {
    var itemId := CallbackInt(data, 1);
    if itemId.None? {
      return None, Some(BadPayload);
    }
    var id := users.GetOrCreate(telegramId);
    var e := recStore.SetItemStatus(itemId.value, SkippedStatus);
    pending.ClearPending(id);
    return Some(id), None;
  }

  // The watched-table write of `_save_review`: the row is added unless the
  // user already has one for this film and date, which is then left as it is.
  ghost predicate InsertedOnce(prev: map<int, WatchedRow>, prevNext: int, rows: map<int, WatchedRow>, row: WatchedRow)
  {
    ((exists id :: id in prev && KeyOf(prev[id]) == KeyOf(row)) ==> rows == prev)
    && ((forall id :: id in prev ==> KeyOf(prev[id]) != KeyOf(row)) ==> prevNext !in prev && rows == prev[prevNext := row])
  }

  function ChatSource(req: SaveRequest): (s: string)
    ensures s in Sources
    ensures s == AgentMode <==> AgentItem(req.mode, req.itemId)
  {
    if AgentItem(req.mode, req.itemId) then AgentMode else ManualMode
  }

  function ChatRow(userId: int, req: SaveRequest, d: MovieDetails, today: Date): WatchedRow
  {
    WatchedRow(userId, req.tmdbId, d.title, d.year, Some(req.rating), req.review, Some(today), ChatSource(req))
  }

  // When `_save_review` gets through: the details were fetched, and the
  // item's id converts, the rating is in range and the item exists in agent
  // mode; in manual mode the rating is in range or the row already exists.
  ghost predicate SaveSucceeds(items: map<int, RecItem>, rows: map<int, WatchedRow>, userId: int, req: SaveRequest,
                               today: Date, details: Option<MovieDetails>)
  {
    && details.Some?
    && (AgentItem(req.mode, req.itemId) ==>
          SafeInt(req.itemId).Some? && 0.0 <= req.rating <= 5.0 && SafeInt(req.itemId).value in items)
    && (!AgentItem(req.mode, req.itemId) ==>
          0.0 <= req.rating <= 5.0
          || exists id :: id in rows && KeyOf(rows[id]) == MatchKey(userId, req.tmdbId, Some(today)))
  }

  // The tables after a `_save_review` that got through.
  ghost predicate ReviewSaved(prevItems: map<int, RecItem>, prevFeedback: map<int, Feedback>,
                              prevRows: map<int, WatchedRow>, prevNext: int,
                              items: map<int, RecItem>, feedback: map<int, Feedback>, rows: map<int, WatchedRow>,
                              userId: int, req: SaveRequest, today: Date, d: MovieDetails)
  {
    && (AgentItem(req.mode, req.itemId) && SafeInt(req.itemId).Some? ==>
          var item := SafeInt(req.itemId).value;
          && item in prevItems
          && feedback == prevFeedback[item := Feedback(Some(req.rating), req.review)]
          && items == prevItems[item := prevItems[item].(status := WatchedStatus)])
    && (!AgentItem(req.mode, req.itemId) ==> items == prevItems && feedback == prevFeedback)
    && InsertedOnce(prevRows, prevNext, rows, ChatRow(userId, req, d, today))
  }

  // `_save_review`: the user's date today (in their zone, else UTC), the
  // film's details, the item's feedback and status in agent mode, then the
  // watched row. `zoneToday` gives today's date in a zone, None for a zone
  // it does not know; `detailsOf` gives a film's details, None when the
  // fetch raises. Nothing is written when it stops.
  method SaveFromChat(users: UserStore, recStore: RecStore, watched: WatchedStore, telegramId: int, req: SaveRequest,
                      zoneToday: string -> Option<Date>, utcToday: Date, detailsOf: int -> Option<MovieDetails>)
    returns (userId: int, err: Option<BotError>)
    requires users.Valid() && recStore.Valid() && watched.Valid()
    modifies users, recStore, watched
    ensures users.Valid() && recStore.Valid() && watched.Valid()
    ensures UserResolved(old(users.users), users.users, telegramId, userId)
    ensures recStore.recs == old(recStore.recs)
    ensures var today := TodayIn(zoneToday(users.users[userId].timezone), utcToday);
      && (err.None? <==> SaveSucceeds(old(recStore.items), old(watched.rows), userId, req, today, detailsOf(req.tmdbId)))
      && (err.None? ==>
            ReviewSaved(old(recStore.items), old(recStore.feedback), old(watched.rows), old(watched.nextId),
                        recStore.items, recStore.feedback, watched.rows, userId, req, today, detailsOf(req.tmdbId).value))
    ensures err.Some? ==>
      recStore.items == old(recStore.items) && recStore.feedback == old(recStore.feedback) && watched.rows == old(watched.rows)
    ensures detailsOf(req.tmdbId).None? ==> err == Some(DetailsUnavailable)
    ensures detailsOf(req.tmdbId).Some? && AgentItem(req.mode, req.itemId) && SafeInt(req.itemId).None? ==> err == Some(BadPayload)
    ensures err == Some(BadPayload) ==> AgentItem(req.mode, req.itemId) && SafeInt(req.itemId).None?
  {
    userId := users.GetOrCreate(telegramId);
    var today := TodayIn(zoneToday(users.users[userId].timezone), utcToday);
    var details := detailsOf(req.tmdbId);
    if details.None? {
      return userId, Some(DetailsUnavailable);
    }
    var source := ManualMode;
    if AgentItem(req.mode, req.itemId) {
      var item := SafeInt(req.itemId);
      if item.None? {
        return userId, Some(BadPayload);
      }
      var e := RecordItemReview(recStore, item.value, Some(req.rating), req.review);
      if e.Some? {
        return userId, Some(Db(e.value));
      }
      source := AgentMode;
    }
    var d := details.value;
    var e := watched.InsertIfAbsent(userId, req.tmdbId, d.title, d.year, Some(req.rating), req.review, Some(today), source);
    if e.Some? {
      return userId, Some(Db(e.value));
    }
    return userId, None;
  }

  // The saving branch of `handle_text`: `_save_review` for the user, then
  // the pending action cleared, which is skipped when the save stops.
  method SaveAndClear(users: UserStore, pending: PendingStore, recStore: RecStore, watched: WatchedStore,
                      uid: int, telegramId: int, req: SaveRequest,
                      zoneToday: string -> Option<Date>, utcToday: Date, detailsOf: int -> Option<MovieDetails>)
    returns (err: Option<BotError>)
    requires users.Valid() && recStore.Valid() && watched.Valid()
    requires uid in users.users && users.users[uid].telegramId == telegramId
    modifies users, pending, recStore, watched
    ensures users.Valid() && recStore.Valid() && watched.Valid()
    ensures users.users == old(users.users) && recStore.recs == old(recStore.recs)
    ensures var today := TodayIn(zoneToday(users.users[uid].timezone), utcToday);
      var ok := SaveSucceeds(old(recStore.items), old(watched.rows), uid, req, today, detailsOf(req.tmdbId));
      && (err.None? <==> ok)
      && (ok ==>
            && pending.slots == old(pending.slots) - {uid}
            && ReviewSaved(old(recStore.items), old(recStore.feedback), old(watched.rows), old(watched.nextId),
                           recStore.items, recStore.feedback, watched.rows, uid, req, today, detailsOf(req.tmdbId).value))
      && (!ok ==>
            && pending.slots == old(pending.slots) && recStore.items == old(recStore.items)
            && recStore.feedback == old(recStore.feedback) && watched.rows == old(watched.rows))
    ensures err == Some(BadPayload) ==> AgentItem(req.mode, req.itemId) && SafeInt(req.itemId).None?
  {
    var saver, e := SaveFromChat(users, recStore, watched, telegramId, req, zoneToday, utcToday, detailsOf);
    if e.Some? {
      return e;
    }
    pending.ClearPending(uid);
    return None;
  }

  // `handle_text`: the stripped text moves the user's pending action on as
  // `Step` says. A saved review clears the action; a save that stops leaves
  // the action and every table as they were.
  method HandleText(users: UserStore, pending: PendingStore, recStore: RecStore, watched: WatchedStore,
                    telegramId: int, rawText: string, search: (string, Option<int>) -> Option<seq<MovieCandidate>>,
                    zoneToday: string -> Option<Date>, utcToday: Date, detailsOf: int -> Option<MovieDetails>)
    returns (userId: Option<int>, err: Option<BotError>)
    requires users.Valid() && recStore.Valid() && watched.Valid()
    modifies users, pending, recStore, watched
    ensures users.Valid() && recStore.Valid() && watched.Valid()
    ensures recStore.recs == old(recStore.recs)
    // A blank message is ignored before anything is looked up.
    ensures Strip(rawText) == [] ==>
      && userId == None && err == None && users.users == old(users.users) && pending.slots == old(pending.slots)
      && recStore.items == old(recStore.items) && recStore.feedback == old(recStore.feedback) && watched.rows == old(watched.rows)
    ensures Strip(rawText) != [] ==> userId.Some? && UserResolved(old(users.users), users.users, telegramId, userId.value)
    ensures Strip(rawText) != [] ==>
      var uid := userId.value;
      var step := Step(if uid in old(pending.slots) then Some(old(pending.slots)[uid]) else None, Strip(rawText), search);
      && (!step.Save? ==>
            recStore.items == old(recStore.items) && recStore.feedback == old(recStore.feedback) && watched.rows == old(watched.rows))
      && (step.Stay? ==> err == None && pending.slots == old(pending.slots))
      && (step.Fail? ==> err == Some(BadPayload) && pending.slots == old(pending.slots))
      && (step.Await? ==> err == None && pending.slots == old(pending.slots)[uid := step.next])
      && (step.Save? ==>
            var today := TodayIn(zoneToday(users.users[uid].timezone), utcToday);
            var ok := SaveSucceeds(old(recStore.items), old(watched.rows), uid, step.req, today, detailsOf(step.req.tmdbId));
            && (err.None? <==> ok)
            && (ok ==>
                  && pending.slots == old(pending.slots) - {uid}
                  && ReviewSaved(old(recStore.items), old(recStore.feedback), old(watched.rows), old(watched.nextId),
                                 recStore.items, recStore.feedback, watched.rows, uid, step.req, today,
                                 detailsOf(step.req.tmdbId).value))
            && (!ok ==>
                  && pending.slots == old(pending.slots) && recStore.items == old(recStore.items)
                  && recStore.feedback == old(recStore.feedback) && watched.rows == old(watched.rows)))
    // With every action as the handlers write them, no payload field fails
    // to convert, and the actions stay that way.
    ensures old(AllWellFormed(pending.slots)) ==> AllWellFormed(pending.slots) && err != Some(BadPayload)
  {
    var text := Strip(rawText);
    if text == [] {
      return None, None;
    }
    var uid := users.GetOrCreate(telegramId);
    var current := pending.GetPending(uid);
    var step := Step(current, text, search);
    match step
    case Stay =>
      return Some(uid), None;
    case Fail =>
      return Some(uid), Some(BadPayload);
    case Await(next) =>
      pending.SetPending(uid, next.actionType, next.payload);
      return Some(uid), None;
    case Save(req) =>
      err := SaveAndClear(users, pending, recStore, watched, uid, telegramId, req, zoneToday, utcToday, detailsOf);
      return Some(uid), err;
  }
}
