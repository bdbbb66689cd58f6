// The bot's users, one per Telegram account.
module UsersRepo {
  // The column default for a new user's time zone.
  const DefaultTimezone: string := "Europe/Riga"

  datatype User = User(telegramId: int, timezone: string)

  class UserStore {
    var users: map<int, User>
    var nextId: int

    // Positive ids below the next one, and no Telegram id twice.
    ghost predicate Valid()
      reads this
    {
      1 <= nextId
      && (forall id :: id in users ==> 1 <= id < nextId)
      && (forall i, j :: i in users && j in users && i != j ==> users[i].telegramId != users[j].telegramId)
    }

    ghost predicate Known(telegramId: int)
      reads this
    {
      exists id :: id in users && users[id].telegramId == telegramId
    }

    constructor()
      ensures Valid() && users == map[]
    {
      users := map[];
      nextId := 1;
    }

    // `get_or_create_user`: the user with this Telegram id, created with the
    // default time zone when there is none.
    method GetOrCreate(telegramId: int) returns (id: int)
      requires Valid()
      modifies this
      ensures Valid()
      ensures id in users && users[id].telegramId == telegramId
      ensures forall j :: j in users && users[j].telegramId == telegramId ==> j == id
      ensures old(Known(telegramId)) ==> users == old(users) && id in old(users)
      ensures !old(Known(telegramId)) ==> id !in old(users) && users == old(users)[id := User(telegramId, DefaultTimezone)]
    {
      var i := 1;
      while i < nextId
        invariant 1 <= i <= nextId
        invariant forall j :: j in users && j < i ==> users[j].telegramId != telegramId
      {
        if i in users && users[i].telegramId == telegramId {
          return i;
        }
        i := i + 1;
      }
      id := nextId;
      users := users[id := User(telegramId, DefaultTimezone)];
      nextId := nextId + 1;
    }
  }
}
