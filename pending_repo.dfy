// The per-user pending action of the chat: what the bot waits for next and
// the data it keeps meanwhile. The table's unique key is the user, so it is
// a map from the user id.
module PendingRepo {
  import opened Wrappers
  import opened Json

  datatype PendingAction = PendingAction(actionType: string, payload: map<string, Json>)

  class PendingStore {
    var slots: map<int, PendingAction>

    constructor()
      ensures slots == map[]
    {
      slots := map[];
    }

    // `set_pending`: insert, or overwrite the user's action and payload.
    method SetPending(userId: int, actionType: string, payload: map<string, Json>)
      modifies this
      ensures slots == old(slots)[userId := PendingAction(actionType, payload)]
    {
      slots := slots[userId := PendingAction(actionType, payload)];
    }

    // `get_pending`.
    method GetPending(userId: int) returns (p: Option<PendingAction>)
      ensures p.Some? <==> userId in slots
      ensures p.Some? ==> p.value == slots[userId]
    {
      if userId in slots {
        return Some(slots[userId]);
      }
      return None;
    }

    // `clear_pending`: remove the user's action; nothing when there is none.
    method ClearPending(userId: int)
      modifies this
      ensures slots == old(slots) - {userId}
    {
      if userId !in slots {
        return;
      }
      slots := slots - {userId};
    }
  }

  // What is set is what is read back, and other users keep their actions.
  lemma SetThenGet(slots: map<int, PendingAction>, userId: int, other: int, actionType: string, payload: map<string, Json>)
    requires other != userId
    ensures var after := slots[userId := PendingAction(actionType, payload)];
      userId in after && after[userId] == PendingAction(actionType, payload)
      && (other in after <==> other in slots) && (other in slots ==> after[other] == slots[other])
  {
  }

  // Clearing leaves the user without an action, keeps every other user's
  // action, and clearing again changes nothing.
  lemma ClearThenGet(slots: map<int, PendingAction>, userId: int, other: int)
    requires other != userId
    ensures var after := slots - {userId};
      userId !in after && (other in after <==> other in slots) && (other in slots ==> after[other] == slots[other])
      && after - {userId} == after
  {
  }
}
