/** Editing a profile from the profile page: only whitelisted columns of the
    request pass through, and the server stamps `updated_at`. */
module ProfileEdit {
  import opened JsValues

  /** The columns a user may edit. */
  const AllowedFields: seq<string> :=
    ["preferred_name", "baby_nickname", "due_date", "current_week", "age", "country",
     "diet_style", "food_preferences", "activity_level", "emotional_state", "allergies",
     "medical_conditions", "medications", "has_doctor", "next_appointment", "blood_group", "notes"]

  /** `Object.keys(updates)`: the member names of an object. Other values
      have no key that can be a column name (a string or array has only
      index keys, which are digits). */
  function Keys(updates: Json): seq<string>
  {
    if updates.Obj? then seq(|updates.fields|, i requires 0 <= i < |updates.fields| => updates.fields[i].0) else []
  }

  /** `updates[key]` */
  function Member(updates: Json, key: string): Json
  {
    if updates.Obj? then Get(updates.fields, key) else Undefined
  }

  predicate IsAllowed(key: string)
  {
    key in AllowedFields
  }

  /** The whitelisted part of the first `n` keys, as the `forEach` has built
      it after `n` steps. */
  function FilterPrefix(updates: Json, keys: seq<string>, n: nat): map<string, Json>
    requires n <= |keys|
  {
    if n == 0 then map[]
    else
      var m := FilterPrefix(updates, keys, n - 1);
      var key := keys[n - 1];
      if IsAllowed(key) then m[key := Member(updates, key)] else m
  }

  /** A column is in the filtered update exactly when it is whitelisted and
      one of the first `n` keys, and it holds the request's value unchanged. */
  lemma {:induction false} FilterPrefixSpec(updates: Json, keys: seq<string>, n: nat)
    requires n <= |keys|
    ensures forall k :: k in FilterPrefix(updates, keys, n) <==> IsAllowed(k) && exists j :: 0 <= j < n && keys[j] == k
    ensures forall k :: k in FilterPrefix(updates, keys, n) ==> FilterPrefix(updates, keys, n)[k] == Member(updates, k)
  {
    if n > 0 {
      FilterPrefixSpec(updates, keys, n - 1);
    }
  }

  /** The update `updateProfile` writes. */
  function Filtered(updates: Json, now: string): map<string, Json>
  {
    FilterPrefix(updates, Keys(updates), |Keys(updates)|)["updated_at" := Str(now)]
  }

  /** The loop of `updateProfile`, followed by the `updated_at` stamp. */
  method FilterUpdates(updates: Json, now: string) returns (filtered: map<string, Json>)
    ensures filtered == Filtered(updates, now)
  {
    var keys := Keys(updates);
    filtered := map[];
    var i := 0;
    while i < |keys|
      invariant 0 <= i <= |keys|
      invariant filtered == FilterPrefix(updates, keys, i)
    {
      var key := keys[i];
      if IsAllowed(key) {
        filtered := filtered[key := Member(updates, key)];
      }
      i := i + 1;
    }
    filtered := filtered["updated_at" := Str(now)];
  }

  /** Every column written is whitelisted or `updated_at`; every whitelisted
      key of the request is copied unchanged; `updated_at` is the server's
      time whatever the request says. */
  lemma FilteredUpdateSpec(updates: Json, now: string)
    ensures var f := Filtered(updates, now);
      && (forall k :: k in f ==> IsAllowed(k) || k == "updated_at")
      && (forall k :: IsAllowed(k) && k in Keys(updates) ==> k in f && f[k] == Member(updates, k))
      && f["updated_at"] == Str(now)
  {
    var keys := Keys(updates);
    FilterPrefixSpec(updates, keys, |keys|);
    forall k | IsAllowed(k) && k in keys
      ensures k in FilterPrefix(updates, keys, |keys|)
    {
      var j :| 0 <= j < |keys| && keys[j] == k;
    }
  }

  /** Columns the onboarding flow owns cannot be set from the profile page. */
  lemma ProtectedColumnsDropped(updates: Json, now: string)
    ensures var f := Filtered(updates, now);
      && "user_id" !in f && "weeks_pregnant" !in f && "pregnancy_status" !in f && "planning_window" !in f
  {
    UserIdNotAllowed();
    WeeksNotAllowed();
    StatusNotAllowed();
    WindowNotAllowed();
    FilteredUpdateSpec(updates, now);
  }

  lemma UserIdNotAllowed() ensures !IsAllowed("user_id") {}
  lemma WeeksNotAllowed() ensures !IsAllowed("weeks_pregnant") {}
  lemma StatusNotAllowed() ensures !IsAllowed("pregnancy_status") {}
  lemma WindowNotAllowed() ensures !IsAllowed("planning_window") {}

  datatype UpdateOutcome = Updated(profile: Row) | BadRequest(message: string) | QueryFailed

  /** The pregnancy_profiles table as the profile controller sees it. */
  class ProfileTable {
    var profiles: map<string, Row>

    constructor(profiles: map<string, Row>)
      ensures this.profiles == profiles
    {
      this.profiles := profiles;
    }

    /** `updateProfile`: a missing user id or update is rejected without a
        write; an existing row gets the filtered columns; a user without a row
        is an error and no row is created. */
    method UpdateProfile(userId: string, updates: Json, now: string) returns (o: UpdateOutcome)
      modifies this
      ensures userId == "" || !Truthy(updates) ==>
        o == BadRequest("userId and updates are required") && profiles == old(profiles)
      ensures userId != "" && Truthy(updates) && userId !in old(profiles) ==>
        o == QueryFailed && profiles == old(profiles)
      ensures userId != "" && Truthy(updates) && userId in old(profiles) ==>
        var row := old(profiles)[userId] + Filtered(updates, now);
        o == Updated(row) && profiles == old(profiles)[userId := row]
    {
      if userId == "" || !Truthy(updates) {
        return BadRequest("userId and updates are required");
      }
      var filtered := FilterUpdates(updates, now);
      if userId !in profiles {
        return QueryFailed;
      }
      var row := profiles[userId] + filtered;
      profiles := profiles[userId := row];
      return Updated(row);
    }
  }
}
