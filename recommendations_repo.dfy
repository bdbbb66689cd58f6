// The recommendations the bot made, their items and the feedback on items.
// Each table is a map from its integer id; the items table also keeps its
// unique index on (recommendation, film, position), and the table checks
// (allowed strategies, statuses and rating range) and foreign keys are
// errors that leave every table as it was. The users table is not kept here:
// its ids are passed to the one write that references it.
module RecommendationsRepo {
  import opened Wrappers
  import opened Json
  import opened DbErrors
  import opened RowOrder

  const Suggested: string := "suggested"
  const Strategies: set<string> := {"safe", "adjacent", "wildcard"}
  const Statuses: set<string> := {"suggested", "watched", "skipped"}
  const EveningQuestionsKey: string := "evening_questions"

  datatype Recommendation = Recommendation(userId: int, createdAt: real, context: map<string, Json>)

  datatype ItemKey = ItemKey(recommendationId: int, tmdbId: int, position: int)

  datatype RecItem = RecItem(key: ItemKey, strategy: string, status: string, explanation: Option<string>)

  datatype Feedback = Feedback(rating: Option<real>, review: Option<string>)

  // The items table with its unique index and the next id to hand out.
  datatype ItemTable = ItemTable(rows: map<int, RecItem>, index: map<ItemKey, int>, nextId: int)

  // Every row is indexed under its own key, the index points only at rows
  // with that key, ids lie below the next one, and every row belongs to an
  // existing recommendation.
  predicate IndexValid(t: ItemTable, recs: set<int>)
  {
    1 <= t.nextId
    && (forall id :: id in t.rows ==>
          1 <= id < t.nextId && t.rows[id].key.recommendationId in recs
          && t.rows[id].key in t.index && t.index[t.rows[id].key] == id)
    && (forall k :: k in t.index ==> t.index[k] in t.rows && t.rows[t.index[k]].key == k)
  }

  // `add_recommendation_item`: insert, unless a row with the same key exists,
  // in which case that row's id comes back and nothing is written.
  function AddItemTo(t: ItemTable, recs: set<int>, key: ItemKey, strategy: string, explanation: Option<string>): (r: (Result<int, DbError>, ItemTable))
    ensures r.0.Err? ==> r.1 == t
  {
    if strategy !in Strategies then (Err(CheckViolation), t)
    else if key in t.index then (Ok(t.index[key]), t)
    else if key.recommendationId !in recs then (Err(ForeignKeyViolation), t)
    else
      var id := t.nextId;
      (Ok(id), ItemTable(t.rows[id := RecItem(key, strategy, Suggested, explanation)], t.index[key := id], id + 1))
  }

  // Adding keeps the table and its index consistent.
  lemma AddItemKeepsIndex(t: ItemTable, recs: set<int>, key: ItemKey, strategy: string, explanation: Option<string>)
    requires IndexValid(t, recs)
    ensures IndexValid(AddItemTo(t, recs, key, strategy, explanation).1, recs)
  {
    var r := AddItemTo(t, recs, key, strategy, explanation).1;
    if strategy in Strategies && key !in t.index && key.recommendationId in recs {
      var id := t.nextId;
      assert id !in t.rows;
      forall k | k in r.index
        ensures r.index[k] in r.rows && r.rows[r.index[k]].key == k
      {
        if k != key {
          assert r.index[k] == t.index[k] != id;
        }
      }
    }
  }

  // A new key gets a new row with status "suggested"; an existing key gets
  // its row's id back and no row changes, so neither the strategy nor the
  // explanation of an earlier add is overwritten.
  lemma AddItemOutcome(t: ItemTable, recs: set<int>, key: ItemKey, strategy: string, explanation: Option<string>)
    requires IndexValid(t, recs)
    ensures var (res, t') := AddItemTo(t, recs, key, strategy, explanation);
      && (res.Ok? ==> res.value in t'.rows && t'.rows[res.value].key == key)
      && (strategy !in Strategies ==> res == Err(CheckViolation))
      && (strategy in Strategies && key in t.index ==> res == Ok(t.index[key]) && t' == t)
      && (strategy in Strategies && key !in t.index && key.recommendationId !in recs ==> res == Err(ForeignKeyViolation))
      && (strategy in Strategies && key !in t.index && key.recommendationId in recs ==>
            res.Ok? && res.value !in t.rows && t'.rows == t.rows[res.value := RecItem(key, strategy, Suggested, explanation)])
  {
    if strategy in Strategies && key !in t.index && key.recommendationId in recs {
      assert t.nextId !in t.rows;
    }
  }

  // Adding the same item twice gives the same id and leaves one row.
  lemma AddItemTwice(t: ItemTable, recs: set<int>, key: ItemKey, strategy: string, explanation: Option<string>,
                     strategy2: string, explanation2: Option<string>)
    requires IndexValid(t, recs)
    requires strategy2 in Strategies
    requires AddItemTo(t, recs, key, strategy, explanation).0.Ok?
    ensures var (res1, t1) := AddItemTo(t, recs, key, strategy, explanation);
      AddItemTo(t1, recs, key, strategy2, explanation2) == (res1, t1)
  {
    AddItemKeepsIndex(t, recs, key, strategy, explanation);
  }

  // Items that differ in film or in position are separate rows.
  lemma AddItemSeparateRows(t: ItemTable, recs: set<int>, k1: ItemKey, s1: string, e1: Option<string>,
                            k2: ItemKey, s2: string, e2: Option<string>)
    requires IndexValid(t, recs) && k1 != k2
    requires AddItemTo(t, recs, k1, s1, e1).0.Ok?
    requires AddItemTo(AddItemTo(t, recs, k1, s1, e1).1, recs, k2, s2, e2).0.Ok?
    ensures var (res1, t1) := AddItemTo(t, recs, k1, s1, e1);
      var (res2, t2) := AddItemTo(t1, recs, k2, s2, e2);
      res1.value != res2.value && res1.value in t2.rows && t2.rows[res1.value].key == k1 && t2.rows[res2.value].key == k2
  {
    AddItemKeepsIndex(t, recs, k1, s1, e1);
    var (res1, t1) := AddItemTo(t, recs, k1, s1, e1);
    AddItemKeepsIndex(t1, recs, k2, s2, e2);
    var (res2, t2) := AddItemTo(t1, recs, k2, s2, e2);
    assert t2.rows[res1.value] == t1.rows[res1.value] by {
      assert res1.value in t1.rows && res1.value < t1.nextId;
    }
  }

  // `questions` as the JSON list stored in the context.
  function QuestionsJson(questions: seq<string>): (j: Json)
    ensures j.JList? && |j.items| == |questions|
    ensures forall i :: 0 <= i < |questions| ==> j.items[i] == JStr(questions[i])
  {
    JList(seq(|questions|, i requires 0 <= i < |questions| => JStr(questions[i])))
  }

  class RecStore {
    var recs: map<int, Recommendation>
    var nextRecId: int
    var items: map<int, RecItem>
    var itemIndex: map<ItemKey, int>
    var nextItemId: int
    var feedback: map<int, Feedback>

    ghost predicate Valid()
      reads this
    {
      1 <= nextRecId
      && (forall id :: id in recs ==> 1 <= id < nextRecId)
      && IndexValid(ItemTable(items, itemIndex, nextItemId), recs.Keys)
      && (forall id :: id in feedback ==> id in items)
    }

    constructor()
      ensures Valid()
      ensures recs == map[] && items == map[] && itemIndex == map[] && feedback == map[]
    {
      recs := map[];
      nextRecId := 1;
      items := map[];
      itemIndex := map[];
      nextItemId := 1;
      feedback := map[];
    }

    // `create_recommendation`, with the creation time passed in. `users` holds
    // the ids of the users table, which the user id must reference.
    method CreateRecommendation(users: set<int>, userId: int, context: map<string, Json>, now: real)
      returns (res: Result<int, DbError>)
      requires Valid()
      modifies this
      ensures Valid()
      ensures userId !in users ==> res == Err(ForeignKeyViolation) && recs == old(recs)
      ensures userId in users ==>
        res.Ok? && res.value !in old(recs) && recs == old(recs)[res.value := Recommendation(userId, now, context)]
      ensures items == old(items) && itemIndex == old(itemIndex) && feedback == old(feedback)
    {
      if userId !in users {
        return Err(ForeignKeyViolation);
      }
      var id := nextRecId;
      recs := recs[id := Recommendation(userId, now, context)];
      nextRecId := nextRecId + 1;
      return Ok(id);
    }

    // `add_recommendation_item`; the id of the new or existing item.
    method AddItem(recommendationId: int, tmdbId: int, position: int, strategy: string, explanation: Option<string>)
      returns (res: Result<int, DbError>)
      requires Valid()
      modifies this
      ensures Valid()
      ensures (res, ItemTable(items, itemIndex, nextItemId))
           == AddItemTo(ItemTable(old(items), old(itemIndex), old(nextItemId)), old(recs).Keys,
                        ItemKey(recommendationId, tmdbId, position), strategy, explanation)
      ensures recs == old(recs) && nextRecId == old(nextRecId) && feedback == old(feedback)
    {
      var key := ItemKey(recommendationId, tmdbId, position);
      AddItemKeepsIndex(ItemTable(items, itemIndex, nextItemId), recs.Keys, key, strategy, explanation);
      if strategy !in Strategies {
        return Err(CheckViolation);
      }
      if key in itemIndex {
        return Ok(itemIndex[key]);
      }
      if recommendationId !in recs {
        return Err(ForeignKeyViolation);
      }
      var id := nextItemId;
      items := items[id := RecItem(key, strategy, Suggested, explanation)];
      itemIndex := itemIndex[key := id];
      nextItemId := id + 1;
      return Ok(id);
    }

    // `set_item_status`: nothing for a missing item; a status the table does
    // not allow is refused when written.
    method SetItemStatus(itemId: int, status: string) returns (err: Option<DbError>)
      requires Valid()
      modifies this
      ensures Valid()
      ensures itemId !in old(items) ==> err == None && items == old(items)
      ensures itemId in old(items) && status !in Statuses ==> err == Some(CheckViolation) && items == old(items)
      ensures itemId in old(items) && status in Statuses ==>
        err == None && items == old(items)[itemId := old(items)[itemId].(status := status)]
      ensures recs == old(recs) && itemIndex == old(itemIndex) && nextItemId == old(nextItemId) && feedback == old(feedback)
    {
      if itemId !in items {
        return None;
      }
      if status !in Statuses {
        return Some(CheckViolation);
      }
      items := items[itemId := items[itemId].(status := status)];
      return None;
    }

    // `upsert_feedback`: one feedback per item, overwritten by each call.
    method UpsertFeedback(itemId: int, rating: Option<real>, review: Option<string>) returns (err: Option<DbError>)
      requires Valid()
      modifies this
      ensures Valid()
      ensures rating.Some? && !(0.0 <= rating.value <= 5.0) ==> err == Some(CheckViolation) && feedback == old(feedback)
      ensures (rating.None? || 0.0 <= rating.value <= 5.0) && itemId !in old(items) ==>
        err == Some(ForeignKeyViolation) && feedback == old(feedback)
      ensures (rating.None? || 0.0 <= rating.value <= 5.0) && itemId in old(items) ==>
        err == None && feedback == old(feedback)[itemId := Feedback(rating, review)]
      ensures recs == old(recs) && items == old(items) && itemIndex == old(itemIndex) && nextItemId == old(nextItemId)
    {
      if rating.Some? && !(0.0 <= rating.value <= 5.0) {
        return Some(CheckViolation);
      }
      if itemId !in items {
        return Some(ForeignKeyViolation);
      }
      feedback := feedback[itemId := Feedback(rating, review)];
      return None;
    }

    // `set_item_explanation`: an UPDATE by id, so a missing item is untouched.
    method SetItemExplanation(itemId: int, explanation: string)
      requires Valid()
      modifies this
      ensures Valid()
      ensures items == if itemId in old(items) then old(items)[itemId := old(items)[itemId].(explanation := Some(explanation))] else old(items)
      ensures recs == old(recs) && itemIndex == old(itemIndex) && nextItemId == old(nextItemId) && feedback == old(feedback)
    {
      if itemId in items {
        items := items[itemId := items[itemId].(explanation := Some(explanation))];
      }
    }

    // The items table as a query scans it: each item once with its id, in id
    // order.
    method ScanItems() returns (listing: seq<(int, RecItem)>)
      requires Valid()
      ensures Lists(listing, items)
    {
      listing := [];
      var i := 1;
      while i < nextItemId
        invariant 1 <= i <= nextItemId
        invariant forall j :: 0 <= j < |listing| ==> listing[j].0 in items && listing[j].0 < i && listing[j].1 == items[listing[j].0]
        invariant forall id :: id in items && id < i ==> id in Ids(listing)
        invariant forall j, l :: 0 <= j < l < |listing| ==> listing[j].0 < listing[l].0
      {
        if i in items {
          assert Ids(listing + [(i, items[i])]) == Ids(listing) + [i];
          listing := listing + [(i, items[i])];
        }
        i := i + 1;
      }
    }

    // `set_recommendation_questions`: the questions go under
    // "evening_questions" in the context, every other context key is kept.
    method SetRecommendationQuestions(recommendationId: int, questions: seq<string>)
      requires Valid()
      modifies this
      ensures Valid()
      ensures recommendationId !in old(recs) ==> recs == old(recs)
      ensures recommendationId in old(recs) ==>
        var r := old(recs)[recommendationId];
        recs == old(recs)[recommendationId := r.(context := r.context[EveningQuestionsKey := QuestionsJson(questions)])]
      ensures items == old(items) && itemIndex == old(itemIndex) && nextItemId == old(nextItemId) && feedback == old(feedback)
    {
      if recommendationId !in recs {
        return;
      }
      var rec := recs[recommendationId];
      var ctx := rec.context[EveningQuestionsKey := QuestionsJson(questions)];
      recs := recs[recommendationId := rec.(context := ctx)];
    }
  }
}
