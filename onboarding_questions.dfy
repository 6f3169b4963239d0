/** The question side of the onboarding engine: the catalog, the stored
    responses of one user, the dependency rule and the choice of the next
    question to ask. */
module OnboardingQuestions {
  import opened JsValues

  /** A row of the question catalog (the camel-case view the API returns has
      the same fields). An empty `dependsOnSlug` stands for a question without
      a prerequisite, and a null `depends_on_values` reads as the empty list. */
  datatype Question = Question(
    id: string,
    slug: string,
    prompt: string,
    responseType: string,
    responseOptions: seq<string>,
    isRequired: bool,
    allowAnswerLater: bool,
    sequence: int,
    dependsOnSlug: string,
    dependsOnValues: seq<string>)

  datatype Status = Answered | Skipped

  /** A stored response as `getNextQuestion` selects it. */
  datatype ResponseRow = ResponseRow(questionId: string, status: Status, payload: Json)

  /** The catalog query orders by ascending `sequence`. */
  predicate SortedBySequence(questions: seq<Question>)
  {
    forall i, j :: 0 <= i < j < |questions| ==> questions[i].sequence <= questions[j].sequence
  }

  predicate IsCatalogSlug(questions: seq<Question>, slug: string)
  {
    exists i :: 0 <= i < |questions| && questions[i].slug == slug
  }

  /** `new Map(questions.map(q => [q.id, q.slug]))`: a later question with
      the same id wins. */
  function SlugById(questions: seq<Question>): (m: map<string, string>)
    ensures forall i :: 0 <= i < |questions| ==> questions[i].id in m
  {
    if questions == [] then map[]
    else SlugById(questions[..|questions| - 1])[questions[|questions| - 1].id := questions[|questions| - 1].slug]
  }

  /** Every slug in the id map is the slug of a catalog question with that id. */
  lemma {:induction false} SlugByIdFromCatalog(questions: seq<Question>, id: string)
    requires id in SlugById(questions)
    ensures exists i :: 0 <= i < |questions| && questions[i].id == id && questions[i].slug == SlugById(questions)[id]
  {
    var n := |questions| - 1;
    if questions[n].id != id {
      var init := questions[..n];
      SlugByIdFromCatalog(init, id);
      var i :| 0 <= i < |init| && init[i].id == id && init[i].slug == SlugById(init)[id];
      assert questions[i] == init[i];
    }
  }

  /** `responseBySlug`: every response whose question id maps to a non-empty
      slug, keyed by that slug; a later row wins. */
  function ResponseBySlug(slugById: map<string, string>, responses: seq<ResponseRow>): (m: map<string, ResponseRow>)
    ensures forall slug :: slug in m ==> slug != "" && exists id :: id in slugById && slugById[id] == slug
  {
    if responses == [] then map[]
    else
      var init := ResponseBySlug(slugById, responses[..|responses| - 1]);
      var row := responses[|responses| - 1];
      if row.questionId in slugById && slugById[row.questionId] != "" then
        init[slugById[row.questionId] := row]
      else init
  }

  /** `dependencySatisfied` */
  predicate DependencySatisfied(q: Question, bySlug: map<string, ResponseRow>)
  {
    if q.dependsOnSlug == "" then true
    else if q.dependsOnSlug !in bySlug || bySlug[q.dependsOnSlug].status != Answered then false
    else if q.dependsOnValues == [] then true
    else
      var value := bySlug[q.dependsOnSlug].payload;
      if value.Arr? then exists i :: 0 <= i < |value.items| && ToStr(value.items[i]) in q.dependsOnValues
      else if IsNullish(value) then false
      else ToStr(value) in q.dependsOnValues
  }

  /** The test inside the next-question `find`: the prerequisite is met and
      the question is unanswered, or required and only skipped. */
  predicate Eligible(q: Question, bySlug: map<string, ResponseRow>)
  {
    && DependencySatisfied(q, bySlug)
    && (q.slug !in bySlug || (q.isRequired && bySlug[q.slug].status == Skipped))
  }

  /** `questions.find(...)`, as the index of the question found. */
  function FirstEligible(questions: seq<Question>, bySlug: map<string, ResponseRow>): (r: Option<nat>)
    ensures r.Some? ==> r.value < |questions| && Eligible(questions[r.value], bySlug)
    ensures r.Some? ==> forall j :: 0 <= j < r.value ==> !Eligible(questions[j], bySlug)
    ensures r.None? <==> forall j :: 0 <= j < |questions| ==> !Eligible(questions[j], bySlug)
  {
    if questions == [] then None
    else if Eligible(questions[0], bySlug) then Some(0)
    else
      match FirstEligible(questions[1..], bySlug)
      case None => None
      case Some(k) => Some(k + 1)
  }

  datatype NextReply =
    | MissingUser
    | Reply(question: Option<Question>, completed: bool)

  /** `getNextQuestion` on the catalog (in its query order) and the user's
      stored responses. */
  function GetNextQuestion(userId: string, questions: seq<Question>, responses: seq<ResponseRow>): (r: NextReply)
    ensures userId == "" <==> r.MissingUser?
    ensures r.Reply? ==> (r.completed <==> r.question.None?)
  {
    if userId == "" then MissingUser
    else
      var bySlug := ResponseBySlug(SlugById(questions), responses);
      match FirstEligible(questions, bySlug)
      case None => Reply(None, true)
      case Some(i) => Reply(Some(questions[i]), false)
  }

  // ---------------------------------------------------------------------
  // Properties of the dependency rule
  // ---------------------------------------------------------------------

  /** Only catalog slugs ever key a response. */
  lemma ResponseSlugsAreCatalogSlugs(questions: seq<Question>, responses: seq<ResponseRow>, slug: string)
    requires slug in ResponseBySlug(SlugById(questions), responses)
    ensures IsCatalogSlug(questions, slug)
  {
    var slugById := SlugById(questions);
    var id :| id in slugById && slugById[id] == slug;
    SlugByIdFromCatalog(questions, id);
  }

  /** A question without a prerequisite is always satisfied. */
  lemma NoDependencySatisfied(q: Question, bySlug: map<string, ResponseRow>)
    requires q.dependsOnSlug == ""
    ensures DependencySatisfied(q, bySlug)
  {
  }

  /** A prerequisite without an answered response is unsatisfied. */
  lemma UnansweredDependencyUnsatisfied(q: Question, bySlug: map<string, ResponseRow>)
    requires q.dependsOnSlug != ""
    requires q.dependsOnSlug !in bySlug || bySlug[q.dependsOnSlug].status != Answered
    ensures !DependencySatisfied(q, bySlug)
  {
  }

  /** A prerequisite slug that names no catalog question is never satisfied,
      whatever responses are stored. */
  lemma DanglingDependencyUnsatisfied(questions: seq<Question>, responses: seq<ResponseRow>, q: Question)
    requires q.dependsOnSlug != "" && !IsCatalogSlug(questions, q.dependsOnSlug)
    ensures !DependencySatisfied(q, ResponseBySlug(SlugById(questions), responses))
  {
    if q.dependsOnSlug in ResponseBySlug(SlugById(questions), responses) {
      ResponseSlugsAreCatalogSlugs(questions, responses, q.dependsOnSlug);
    }
  }

  /** With an answered prerequisite, the payload decides: any answer when no
      values are listed; otherwise some list element, or the scalar, must
      read as a listed value, and a null answer never does. */
  lemma AnsweredDependency(q: Question, bySlug: map<string, ResponseRow>)
    requires q.dependsOnSlug in bySlug && q.dependsOnSlug != ""
    requires bySlug[q.dependsOnSlug].status == Answered
    ensures var value := bySlug[q.dependsOnSlug].payload;
      && (q.dependsOnValues == [] ==> DependencySatisfied(q, bySlug))
      && (q.dependsOnValues != [] && value.Arr? ==>
            (DependencySatisfied(q, bySlug) <==> exists i :: 0 <= i < |value.items| && ToStr(value.items[i]) in q.dependsOnValues))
      && (q.dependsOnValues != [] && IsNullish(value) ==> !DependencySatisfied(q, bySlug))
      && (q.dependsOnValues != [] && !value.Arr? && !IsNullish(value) ==>
            (DependencySatisfied(q, bySlug) <==> ToStr(value) in q.dependsOnValues))
  {
  }

  // ---------------------------------------------------------------------
  // Properties of the next-question choice
  // ---------------------------------------------------------------------

  /** In a catalog in sequence order, the question found has the smallest
      sequence number among the eligible ones. */
  lemma FirstEligibleHasLeastSequence(questions: seq<Question>, bySlug: map<string, ResponseRow>, j: int)
    requires SortedBySequence(questions)
    requires FirstEligible(questions, bySlug).Some?
    requires 0 <= j < |questions| && Eligible(questions[j], bySlug)
    ensures questions[FirstEligible(questions, bySlug).value].sequence <= questions[j].sequence
  {
    var f := FirstEligible(questions, bySlug).value;
    assert f <= j;
  }

  /** The question returned is the first eligible one of the catalog, so its
      prerequisite is met and, with the catalog in sequence order, no
      eligible question has a smaller sequence number. */
  lemma NextIsFirstEligible(userId: string, questions: seq<Question>, responses: seq<ResponseRow>, j: int)
    requires userId != ""
    requires SortedBySequence(questions)
    requires 0 <= j < |questions|
    ensures var r := GetNextQuestion(userId, questions, responses);
      var bySlug := ResponseBySlug(SlugById(questions), responses);
      r.Reply? && r.question.Some? ==>
        && r.question.value in questions
        && Eligible(r.question.value, bySlug)
        && DependencySatisfied(r.question.value, bySlug)
        && (Eligible(questions[j], bySlug) ==> r.question.value.sequence <= questions[j].sequence)
  {
    var bySlug := ResponseBySlug(SlugById(questions), responses);
    if FirstEligible(questions, bySlug).Some? && Eligible(questions[j], bySlug) {
      FirstEligibleHasLeastSequence(questions, bySlug, j);
    }
  }

  /** The reply is `completed` exactly when no catalog question is eligible. */
  lemma CompletedIffNoneEligible(userId: string, questions: seq<Question>, responses: seq<ResponseRow>)
    requires userId != ""
    ensures var r := GetNextQuestion(userId, questions, responses);
      var bySlug := ResponseBySlug(SlugById(questions), responses);
      r.Reply? && (r.completed <==> forall j :: 0 <= j < |questions| ==> !Eligible(questions[j], bySlug))
  {
  }

  /** Once the reply is `completed`, every required question whose
      prerequisite is met has an answered response. */
  lemma CompletedMeansRequiredAnswered(userId: string, questions: seq<Question>, responses: seq<ResponseRow>, j: int)
    requires userId != ""
    requires GetNextQuestion(userId, questions, responses).completed
    requires 0 <= j < |questions| && questions[j].isRequired
    requires DependencySatisfied(questions[j], ResponseBySlug(SlugById(questions), responses))
    ensures var bySlug := ResponseBySlug(SlugById(questions), responses);
      questions[j].slug in bySlug && bySlug[questions[j].slug].status == Answered
  {
    CompletedIffNoneEligible(userId, questions, responses);
  }
}
