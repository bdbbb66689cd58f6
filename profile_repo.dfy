// The taste profile of each user: a summary text, the computed weights and
// the avoidance patterns, with the time of the last write.
module ProfileRepo {
  import opened Wrappers
  import opened Json

  datatype Profile = Profile(
    summary: string,
    weights: map<string, Json>,
    avoids: map<string, Json>,
    updatedAt: real)

  // `upsert_taste_profile` on one user's row: a new row takes the avoids
  // given or none at all; an existing row keeps its avoids unless new ones
  // are given. Summary, weights and time are always written.
  function Upserted(existing: Option<Profile>, summary: string, weights: map<string, Json>,
                    avoids: Option<map<string, Json>>, now: real): (p: Profile)
    ensures p.summary == summary && p.weights == weights && p.updatedAt == now
    ensures avoids.Some? ==> p.avoids == avoids.value
    ensures avoids.None? && existing.Some? ==> p.avoids == existing.value.avoids
    ensures avoids.None? && existing.None? ==> p.avoids == map[]
  {
    match existing
    case None => Profile(summary, weights, if avoids.Some? then avoids.value else map[], now)
    case Some(prev) => Profile(summary, weights, if avoids.Some? then avoids.value else prev.avoids, now)
  }

  class ProfileStore {
    var profiles: map<int, Profile>

    constructor()
      ensures profiles == map[]
    {
      profiles := map[];
    }

    // `get_taste_profile`.
    method GetProfile(userId: int) returns (p: Option<Profile>)
      ensures p.Some? <==> userId in profiles
      ensures p.Some? ==> p.value == profiles[userId]
    {
      if userId in profiles {
        return Some(profiles[userId]);
      }
      return None;
    }

    // `upsert_taste_profile`, with the clock reading passed in.
    method UpsertProfile(userId: int, summary: string, weights: map<string, Json>,
                         avoids: Option<map<string, Json>>, now: real)
      modifies this
      ensures profiles == old(profiles)[userId := Upserted(
        if userId in old(profiles) then Some(old(profiles)[userId]) else None, summary, weights, avoids, now)]
    {
      var existing := GetProfile(userId);
      profiles := profiles[userId := Upserted(existing, summary, weights, avoids, now)];
    }
  }

  // Writing the avoids a profile already has, or none, keeps them; so a
  // writer that passes the stored avoids back changes only summary, weights
  // and time.
  lemma UpsertKeepingAvoids(p: Profile, summary: string, weights: map<string, Json>, now: real)
    ensures Upserted(Some(p), summary, weights, None, now).avoids == p.avoids
    ensures Upserted(Some(p), summary, weights, Some(p.avoids), now) == Upserted(Some(p), summary, weights, None, now)
  {
  }

  // An explicit empty map erases the stored avoids.
  lemma UpsertEmptyAvoidsErases(existing: Option<Profile>, summary: string, weights: map<string, Json>, now: real)
    ensures Upserted(existing, summary, weights, Some(map[]), now).avoids == map[]
  {
  }
}
