/** The onboarding page: the answer a fresh question starts with, the
    client-side check for required questions, and the page state that
    fetching, submitting and skipping move through. */
module OnboardingPage {
  import opened JsValues
  import opened OnboardingQuestions
  import opened OnboardingStore

  /** `defaultAnswerValue` */
  function DefaultAnswer(question: Option<Question>): (r: Json)
    ensures question.Some? && question.value.responseType == "multi_select" ==> r == Arr([])
    ensures question.Some? && question.value.responseType == "scale" ==> r == Null
    ensures question.None? || (question.value.responseType != "multi_select" && question.value.responseType != "scale") ==> r == Str("")
  {
    if question.None? then Str("")
    else if question.value.responseType == "multi_select" then Arr([])
    else if question.value.responseType == "scale" then Null
    else Str("")
  }

  /** The `hasValue` test of `handleSubmit` */
  predicate HasValue(answer: Json)
  {
    if answer.Arr? then |answer.items| > 0
    else !IsNullish(answer) && Trim(ToStr(answer)) != ""
  }

  /** Everything the server refuses for a required question (null, undefined,
      '') the page refuses too, and the page also refuses an empty list and
      white space. */
  lemma ClientAtLeastAsStrict(answer: Json)
    ensures ServerRejectsEmpty(answer) ==> !HasValue(answer)
    ensures answer == Arr([]) ==> !HasValue(answer)
    ensures answer.Str? && (forall i :: 0 <= i < |answer.s| ==> IsSpace(answer.s[i])) ==> !HasValue(answer)
  {
    if answer.Str? {
      TrimBlank(answer.s);
    }
  }

  /** The default answer of a required question never passes the check,
      except for a scale question, which starts at null and also fails. */
  lemma DefaultAnswerHasNoValue(question: Option<Question>)
    ensures !HasValue(DefaultAnswer(question))
  {
  }

  /** The reply of `GET /api/onboarding/next` as the page receives it, or
      the error message of a failed request ("" when the server sent none). */
  datatype Fetch = Next(completed: bool, question: Option<Question>) | FetchFailed(message: string)

  /** The outcome of a `POST` (respond or skip). */
  datatype Post = Posted | PostFailed(message: string)

  /** A request the page sends. */
  datatype Request = Respond(userId: string, questionId: string, response: Json) | Skip(userId: string, questionId: string)

  const LoadError := "Unable to load onboarding question."
  const SaveError := "We could not save your response."
  const SkipError := "We could not skip this question."
  const MissingAnswer := "Please provide a response before continuing."

  /** `err.response?.data?.error || fallback` */
  function ErrorText(message: string, fallback: string): string
  {
    if message != "" then message else fallback
  }

  /** The reply the server gives to a next-question request. */
  function FetchOf(reply: NextReply): Fetch
  {
    match reply
    case MissingUser => FetchFailed("userId query parameter is required")
    case Reply(q, c) => Next(c, q)
  }

  class Page {
    var question: Option<Question>
    var answer: Json
    var saving: bool
    var fetching: bool
    var completed: bool
    var error: string

    /** The initial state of the component. */
    constructor()
      ensures question == None && answer == Str("") && !saving && fetching && !completed && error == ""
    {
      question := None;
      answer := Str("");
      saving := false;
      fetching := true;
      completed := false;
      error := "";
    }

    /** `fetchNextQuestion`: a completed reply clears the question and the
        answer, another reply shows its question with a fresh default answer,
        and a failure keeps the question and shows the error. */
    method FetchNextQuestion(hasUser: bool, reply: Fetch)
      modifies this
      ensures !hasUser ==> question == old(question) && answer == old(answer) && fetching == old(fetching)
                           && completed == old(completed) && error == old(error)
      ensures hasUser ==> !fetching
      ensures hasUser && reply.Next? && reply.completed ==>
        completed && question == None && answer == Str("") && error == ""
      ensures hasUser && reply.Next? && !reply.completed ==>
        !completed && question == reply.question && answer == DefaultAnswer(reply.question) && error == ""
      ensures hasUser && reply.FetchFailed? ==>
        question == old(question) && answer == old(answer) && completed == old(completed)
        && error == ErrorText(reply.message, LoadError)
      ensures saving == old(saving)
    {
      if !hasUser {
        return;
      }
      fetching := true;
      error := "";
      match reply {
        case Next(c, q) =>
          if c {
            completed := true;
            question := None;
            answer := Str("");
          } else {
            question := q;
            answer := DefaultAnswer(q);
            completed := false;
          }
        case FetchFailed(message) =>
          error := ErrorText(message, LoadError);
      }
      fetching := false;
    }

    /** `handleSubmit`: nothing without a question; a required question
        without a value gets an error and no request; otherwise the answer is
        posted, and a success is followed by fetching the next question. */
    method HandleSubmit(userId: string, post: Post, reply: Fetch) returns (sent: Option<Request>)
      modifies this
      ensures old(question).None? ==> sent == None && unchanged(this)
      ensures old(question).Some? && old(question).value.isRequired && !HasValue(old(answer)) ==>
        && sent == None && error == MissingAnswer
        && question == old(question) && answer == old(answer) && saving == old(saving) && completed == old(completed)
        && fetching == old(fetching)
      ensures old(question).Some? && (!old(question).value.isRequired || HasValue(old(answer))) ==>
        && sent == Some(Respond(userId, old(question).value.id, old(answer)))
        && !saving
        && (post.Posted? ==> NextApplied(old(question), old(answer), old(completed), reply))
        && (post.PostFailed? ==>
              question == old(question) && answer == old(answer) && completed == old(completed)
              && fetching == old(fetching) && error == ErrorText(post.message, SaveError))
    {
      if question.None? {
        return None;
      }
      var q := question.value;
      if q.isRequired && !HasValue(answer) {
        error := MissingAnswer;
        return None;
      }
      saving := true;
      error := "";
      sent := Some(Respond(userId, q.id, answer));
      match post {
        case Posted =>
          FetchNextQuestion(true, reply);
        case PostFailed(message) =>
          error := ErrorText(message, SaveError);
      }
      saving := false;
    }

    /** `handleSkip`: nothing without a question; otherwise the skip is
        posted, and a success is followed by fetching the next question. */
    method HandleSkip(userId: string, post: Post, reply: Fetch) returns (sent: Option<Request>)
      modifies this
      ensures old(question).None? ==> sent == None && unchanged(this)
      ensures old(question).Some? ==>
        && sent == Some(Skip(userId, old(question).value.id))
        && !saving
        && (post.Posted? ==> NextApplied(old(question), old(answer), old(completed), reply))
        && (post.PostFailed? ==>
              question == old(question) && answer == old(answer) && completed == old(completed)
              && fetching == old(fetching) && error == ErrorText(post.message, SkipError))
    {
      if question.None? {
        return None;
      }
      var q := question.value;
      saving := true;
      error := "";
      sent := Some(Skip(userId, q.id));
      match post {
        case Posted =>
          FetchNextQuestion(true, reply);
        case PostFailed(message) =>
          error := ErrorText(message, SkipError);
      }
      saving := false;
    }

    /** The state after a fetch with the given reply, from the given question,
        answer, completion flag and error. */
    predicate NextApplied(q0: Option<Question>, a0: Json, c0: bool, reply: Fetch)
      reads this
    {
      && !fetching
      && match reply
         case Next(c, q) =>
           if c then completed && question == None && answer == Str("") && error == ""
           else !completed && question == q && answer == DefaultAnswer(q) && error == ""
         case FetchFailed(message) =>
           question == q0 && answer == a0 && completed == c0 && error == ErrorText(message, LoadError)
    }
  }

  /** The next-question endpoint either reports completion without a
      question or sends one without completion, so the page always lands in
      exactly one of its two screens. */
  lemma ServerReplyIsOneScreen(userId: string, questions: seq<Question>, responses: seq<ResponseRow>)
    requires userId != ""
    ensures var f := FetchOf(GetNextQuestion(userId, questions, responses));
      f.Next? && (f.completed <==> f.question.None?)
  {
  }
}
