/** The write side of the onboarding engine: the response and profile tables
    as two maps, and the submit, skip and profile-merge operations on them. */
module OnboardingStore {
  import opened JsValues
  import opened OnboardingQuestions
  import opened OnboardingProjector

  /** A stored response: its status and the raw answer. */
  datatype Response = Response(status: Status, payload: Json)

  /** The outcome of a request: 201 created, 400 with a message, or a failed
      query (the question id is not in the catalog). */
  datatype Outcome = Created | BadRequest(message: string) | QueryFailed

  /** The catalog row with the given id (`.eq('id', questionId).single()`). */
  function QuestionById(catalog: seq<Question>, id: string): (r: Option<Question>)
    ensures r.Some? ==> r.value in catalog && r.value.id == id
    ensures r.None? <==> forall i :: 0 <= i < |catalog| ==> catalog[i].id != id
  {
    if catalog == [] then None
    else if catalog[0].id == id then Some(catalog[0])
    else QuestionById(catalog[1..], id)
  }

  /** The answers the server rejects for a required question: null,
      undefined and the empty string. */
  predicate ServerRejectsEmpty(response: Json)
  {
    IsNullish(response) || response == Str("")
  }

  /** The row `upsertProfile` writes: `user_id`, `updated_at`, then the
      update's own fields, later ones winning as in an object spread. */
  function UpsertRecord(userId: string, updates: ProfileUpdate, now: string): Row
  {
    map["user_id" := Str(userId), "updated_at" := Str(now)] + updates
  }

  /** `upsertProfile` on the profile table keyed by user id: nothing for an
      empty update; otherwise the user's row (created when missing) gets the
      written columns, keeps all others, and gains no column besides them. */
  function Upsert(profiles: map<string, Row>, userId: string, updates: ProfileUpdate, now: string): (r: map<string, Row>)
    ensures updates == map[] ==> r == profiles
    ensures updates != map[] ==> r.Keys == profiles.Keys + {userId}
    ensures forall u :: u in profiles && u != userId ==> r[u] == profiles[u]
    ensures updates != map[] ==>
      && (forall k :: k in updates ==> k in r[userId] && r[userId][k] == updates[k])
      && "user_id" in r[userId] && "updated_at" in r[userId]
      && r[userId]["user_id"] == (if "user_id" in updates then updates["user_id"] else Str(userId))
      && r[userId]["updated_at"] == (if "updated_at" in updates then updates["updated_at"] else Str(now))
      && (forall k :: userId in profiles && k in profiles[userId] && k !in updates && k != "user_id" && k != "updated_at"
            ==> k in r[userId] && r[userId][k] == profiles[userId][k])
    ensures updates != map[] ==>
      r[userId].Keys == (if userId in profiles then profiles[userId].Keys else {}) + updates.Keys + {"user_id", "updated_at"}
  {
    if updates == map[] then profiles
    else
      var existing := if userId in profiles then profiles[userId] else map[];
      profiles[userId := existing + UpsertRecord(userId, updates, now)]
  }

  /** Merging the same update twice leaves the same columns as merging it once. */
  lemma UpsertIdempotent(profiles: map<string, Row>, userId: string, updates: ProfileUpdate, now: string)
    ensures Upsert(Upsert(profiles, userId, updates, now), userId, updates, now) == Upsert(profiles, userId, updates, now)
  {
    if updates != map[] {
      var once := Upsert(profiles, userId, updates, now);
      var record := UpsertRecord(userId, updates, now);
      var existing := if userId in profiles then profiles[userId] else map[];
      assert once[userId] == existing + record;
      assert (existing + record) + record == existing + record;
    }
  }

  /** The two tables the onboarding controller writes. */
  class Database {
    const catalog: seq<Question>
    /** onboarding_responses, keyed by (user_id, question_id). */
    var responses: map<(string, string), Response>
    /** pregnancy_profiles, keyed by user_id. */
    var profiles: map<string, Row>

    constructor(catalog: seq<Question>)
      ensures this.catalog == catalog && responses == map[] && profiles == map[]
    {
      this.catalog := catalog;
      responses := map[];
      profiles := map[];
    }

    /** `upsertProfile` */
    method UpsertProfile(userId: string, updates: ProfileUpdate, now: string)
      modifies this
      ensures profiles == Upsert(old(profiles), userId, updates, now)
      ensures responses == old(responses)
    {
      if updates == map[] {
        return;
      }
      profiles := Upsert(profiles, userId, updates, now);
    }

    /** `submitAnswer`: rejects a missing user or question id, and an empty
        answer to a required question, before any write; otherwise stores the
        response as answered and merges its profile update. */
    method SubmitAnswer(userId: string, questionId: string, response: Json, now: string) returns (o: Outcome)
      modifies this
      ensures userId == "" || questionId == "" ==>
        o == BadRequest("userId and questionId are required") && responses == old(responses) && profiles == old(profiles)
      ensures userId != "" && questionId != "" && QuestionById(catalog, questionId).None? ==>
        o == QueryFailed && responses == old(responses) && profiles == old(profiles)
      ensures userId != "" && questionId != "" && QuestionById(catalog, questionId).Some? ==>
        var q := QuestionById(catalog, questionId).value;
        if q.isRequired && ServerRejectsEmpty(response) then
          o == BadRequest("Response required for this question") && responses == old(responses) && profiles == old(profiles)
        else
          && o == Created
          && responses == old(responses)[(userId, questionId) := Response(Answered, response)]
          && profiles == Upsert(old(profiles), userId, BuildProfileUpdates(q.slug, response), now)
    {
      if userId == "" || questionId == "" {
        return BadRequest("userId and questionId are required");
      }
      var found := QuestionById(catalog, questionId);
      if found.None? {
        return QueryFailed;
      }
      var q := found.value;
      if q.isRequired && ServerRejectsEmpty(response) {
        return BadRequest("Response required for this question");
      }
      responses := responses[(userId, questionId) := Response(Answered, response)];
      UpsertProfile(userId, BuildProfileUpdates(q.slug, response), now);
      return Created;
    }

    /** `skipQuestion`: rejects a missing id and a required question without
        writing; otherwise stores a skipped response with a null payload. */
    method SkipQuestion(userId: string, questionId: string) returns (o: Outcome)
      modifies this
      ensures profiles == old(profiles)
      ensures userId == "" || questionId == "" ==>
        o == BadRequest("userId and questionId are required") && responses == old(responses)
      ensures userId != "" && questionId != "" && QuestionById(catalog, questionId).None? ==>
        o == QueryFailed && responses == old(responses)
      ensures userId != "" && questionId != "" && QuestionById(catalog, questionId).Some? ==>
        if QuestionById(catalog, questionId).value.isRequired then
          o == BadRequest("Cannot skip mandatory question") && responses == old(responses)
        else
          o == Created && responses == old(responses)[(userId, questionId) := Response(Skipped, Null)]
    {
      if userId == "" || questionId == "" {
        return BadRequest("userId and questionId are required");
      }
      var found := QuestionById(catalog, questionId);
      if found.None? {
        return QueryFailed;
      }
      if found.value.isRequired {
        return BadRequest("Cannot skip mandatory question");
      }
      responses := responses[(userId, questionId) := Response(Skipped, Null)];
      return Created;
    }
  }
}
