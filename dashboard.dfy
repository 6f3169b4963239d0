/** The dashboard controller: the onboarding-completion gate and the builders
    that generate content from the profile row when the user has no stored
    metrics, action items or notifications. */
module Dashboard {
  import opened JsValues
  import opened OnboardingQuestions

  // ---------------------------------------------------------------------
  // Lists stored in profile columns
  // ---------------------------------------------------------------------

  /** The trimmed, non-empty parts, as strings. */
  function TrimmedParts(parts: seq<string>): (r: seq<Json>)
    ensures forall i :: 0 <= i < |r| ==> r[i].Str? && r[i].s != ""
  {
    if parts == [] then []
    else
      var t := Trim(parts[0]);
      (if t != "" then [Str(t)] else []) + TrimmedParts(parts[1..])
  }

  /** Each trimmed part is the trimmed form of one of the parts. */
  lemma {:induction false} TrimmedPartsFrom(parts: seq<string>, i: nat)
    requires i < |TrimmedParts(parts)|
    ensures exists j :: 0 <= j < |parts| && TrimmedParts(parts)[i].s == Trim(parts[j])
  {
    var t := Trim(parts[0]);
    var rest := TrimmedParts(parts[1..]);
    var head := if t != "" then [Str(t)] else [];
    assert TrimmedParts(parts) == head + rest;
    if i >= |head| {
      TrimmedPartsFrom(parts[1..], i - |head|);
      var j :| 0 <= j < |parts[1..]| && rest[i - |head|].s == Trim(parts[1..][j]);
      assert parts[1..][j] == parts[j + 1];
    } else {
      assert TrimmedParts(parts)[i].s == Trim(parts[0]);
    }
  }

  /** Conversely, every part whose trimmed form is not empty is kept,
      trimmed. */
  lemma {:induction false} TrimmedPartsKeepsEvery(parts: seq<string>, j: nat)
    requires j < |parts| && Trim(parts[j]) != ""
    ensures Str(Trim(parts[j])) in TrimmedParts(parts)
  {
    var t := Trim(parts[0]);
    var head := if t != "" then [Str(t)] else [];
    assert TrimmedParts(parts) == head + TrimmedParts(parts[1..]);
    if j > 0 {
      assert parts[1..][j - 1] == parts[j];
      TrimmedPartsKeepsEvery(parts[1..], j - 1);
    }
  }

  /** The trimmed parts are exactly the non-empty trimmed forms of the
      parts. */
  lemma TrimmedPartsSpec(parts: seq<string>)
    ensures forall x :: x in TrimmedParts(parts) <==> exists j :: 0 <= j < |parts| && Trim(parts[j]) != "" && x == Str(Trim(parts[j]))
  {
    forall x | x in TrimmedParts(parts)
      ensures exists j :: 0 <= j < |parts| && Trim(parts[j]) != "" && x == Str(Trim(parts[j]))
    {
      var i :| 0 <= i < |TrimmedParts(parts)| && TrimmedParts(parts)[i] == x;
      TrimmedPartsFrom(parts, i);
      var j :| 0 <= j < |parts| && x.s == Trim(parts[j]);
      assert x == Str(Trim(parts[j]));
    }
    forall j | 0 <= j < |parts| && Trim(parts[j]) != ""
      ensures Str(Trim(parts[j])) in TrimmedParts(parts)
    {
      TrimmedPartsKeepsEvery(parts, j);
    }
  }

  /** The parts are kept in their order: the trimmed parts of a
      concatenation are those of each side, one after the other. */
  lemma {:induction false} TrimmedPartsAppend(a: seq<string>, b: seq<string>)
    ensures TrimmedParts(a + b) == TrimmedParts(a) + TrimmedParts(b)
  {
    if a == [] {
      assert a + b == b;
    } else {
      assert (a + b)[1..] == a[1..] + b;
      TrimmedPartsAppend(a[1..], b);
    }
  }

  /** `parseList`: nothing for a falsy value, the truthy elements of an array,
      and otherwise the trimmed non-empty parts of the text split at commas
      and line feeds. */
  function ParseList(v: Json): seq<Json>
  {
    if !Truthy(v) then []
    else if v.Arr? then TruthyOnly(v.items)
    else TrimmedParts(Split(ToStr(v), {',', '\n'}))
  }

  /** No element of a parsed list is falsy; parsed text gives trimmed,
      non-empty strings without a comma or line feed. */
  lemma ParseListClean(v: Json)
    ensures forall i :: 0 <= i < |ParseList(v)| ==> Truthy(ParseList(v)[i])
    ensures !Truthy(v) ==> ParseList(v) == []
    ensures Truthy(v) && v.Arr? ==> forall x :: x in v.items && Truthy(x) <==> x in ParseList(v)
    ensures Truthy(v) && !v.Arr? ==> forall i :: 0 <= i < |ParseList(v)| ==>
      var e := ParseList(v)[i];
      && e.Str? && e.s != "" && Trim(e.s) == e.s && ',' !in e.s && '\n' !in e.s
  {
    if Truthy(v) && !v.Arr? {
      var parts := Split(ToStr(v), {',', '\n'});
      forall i | 0 <= i < |ParseList(v)|
        ensures var e := ParseList(v)[i]; e.Str? && e.s != "" && Trim(e.s) == e.s && ',' !in e.s && '\n' !in e.s
      {
        var e := ParseList(v)[i];
        TrimmedPartsFrom(parts, i);
        var j :| 0 <= j < |parts| && e.s == Trim(parts[j]);
        TrimIdempotent(parts[j]);
        TrimKeepsCharacters(parts[j]);
        assert forall k :: 0 <= k < |parts[j]| ==> parts[j][k] != ',' && parts[j][k] != '\n';
      }
    }
  }

  /** Text parses to exactly the non-empty trimmed parts between commas and
      line feeds (in their order, by `TrimmedPartsAppend`). */
  lemma ParseListText(v: Json, parts: seq<string>)
    requires Truthy(v) && !v.Arr? && parts == Split(ToStr(v), {',', '\n'})
    ensures forall x :: x in ParseList(v) <==> exists j :: 0 <= j < |parts| && Trim(parts[j]) != "" && x == Str(Trim(parts[j]))
  {
    assert ParseList(v) == TrimmedParts(parts);
    TrimmedPartsSpec(parts);
  }

  // ---------------------------------------------------------------------
  // Onboarding completion
  // ---------------------------------------------------------------------

  /** `requiredIds`: the ids of the required catalog questions. */
  function RequiredIds(questions: seq<Question>): (r: seq<string>)
    ensures forall id :: id in r <==> exists i :: 0 <= i < |questions| && questions[i].isRequired && questions[i].id == id
  {
    if questions == [] then []
    else
      var rest := RequiredIds(questions[1..]);
      assert forall i :: 1 <= i < |questions| ==> questions[i] == questions[1..][i - 1];
      (if questions[0].isRequired then [questions[0].id] else []) + rest
  }

  /** The question ids the user has an answered response for. */
  function AnsweredIds(responses: seq<ResponseRow>): set<string>
  {
    set i | 0 <= i < |responses| && responses[i].status == Answered :: responses[i].questionId
  }

  /** `hasCompletedOnboarding` as written: every required question id has an
      answered response; prerequisites are not considered. */
  predicate HasCompletedOnboarding(questions: seq<Question>, responses: seq<ResponseRow>)
  {
    var required := RequiredIds(questions);
    if |required| == 0 then true
    else forall i :: 0 <= i < |required| ==> required[i] in AnsweredIds(responses)
  }

  /** Completion means: every required question has an answered response with
      its id. A skipped response does not count, and neither does the
      question's prerequisite. */
  lemma CompletionSpec(questions: seq<Question>, responses: seq<ResponseRow>)
    ensures HasCompletedOnboarding(questions, responses) <==>
      forall i :: 0 <= i < |questions| && questions[i].isRequired ==>
        exists k :: 0 <= k < |responses| && responses[k].questionId == questions[i].id && responses[k].status == Answered
  {
    var required := RequiredIds(questions);
    if HasCompletedOnboarding(questions, responses) {
      forall i | 0 <= i < |questions| && questions[i].isRequired
        ensures exists k :: 0 <= k < |responses| && responses[k].questionId == questions[i].id && responses[k].status == Answered
      {
        assert questions[i].id in required;
        var m :| 0 <= m < |required| && required[m] == questions[i].id;
        assert required[m] in AnsweredIds(responses);
      }
    } else {
      var m :| 0 <= m < |required| && required[m] !in AnsweredIds(responses);
      assert required[m] in required;
      var i :| 0 <= i < |questions| && questions[i].isRequired && questions[i].id == required[m];
      assert !exists k :: 0 <= k < |responses| && responses[k].questionId == questions[i].id && responses[k].status == Answered;
    }
  }

  /** A catalog without required questions is always complete. */
  lemma NoRequiredQuestionsComplete(questions: seq<Question>, responses: seq<ResponseRow>)
    requires forall i :: 0 <= i < |questions| ==> !questions[i].isRequired
    ensures HasCompletedOnboarding(questions, responses)
  {
    CompletionSpec(questions, responses);
  }

  /** A catalog where the onboarding page reports completion while the
      as-written dashboard check still demands onboarding: a required
      question gated on an answer the user did not give. */
  function GatedStatus(): Question
  {
    Question("q1", "status", "Where are you in your journey?", "single_select", ["Pregnant", "Planning"],
             false, false, 1, "", [])
  }

  function GatedWeeks(): Question
  {
    Question("q2", "weeks", "How many weeks along are you?", "number", [], true, false, 2, "status", ["Pregnant"])
  }

  /** Checked as written, the two completion checks disagree: the next-question
      endpoint says the user is done, and the dashboard sends them back to
      onboarding each time they open it. */
  lemma CompletionChecksDisagree()
    ensures var questions := [GatedStatus(), GatedWeeks()];
      var responses := [ResponseRow("q1", Answered, Str("Planning"))];
      && GetNextQuestion("u", questions, responses) == Reply(None, true)
      && !HasCompletedOnboarding(questions, responses)
  {
    var questions := [GatedStatus(), GatedWeeks()];
    var responses := [ResponseRow("q1", Answered, Str("Planning"))];
    assert questions[..1] == [GatedStatus()];
    assert [GatedStatus()][..0] == [];
    var slugById := SlugById(questions);
    assert slugById == map["q1" := "status"]["q2" := "weeks"];
    assert "q1" != "q2";
    assert "q1" in slugById && slugById["q1"] == "status";
    assert responses[..0] == [];
    assert ResponseBySlug(slugById, responses[..0]) == map[];
    var bySlug := ResponseBySlug(slugById, responses);
    assert bySlug == map["status" := responses[0]];
    assert !Eligible(questions[0], bySlug);
    assert "Planning" != "Pregnant";
    assert !DependencySatisfied(questions[1], bySlug);
    assert FirstEligible(questions, bySlug) == None;
    assert RequiredIds(questions) == ["q2"];
    assert AnsweredIds(responses) == {"q1"};
    assert RequiredIds(questions)[0] !in AnsweredIds(responses);
    assert GetNextQuestion("u", questions, responses) == Reply(None, true);
  }

  /** The completion check the dashboard evidently means: every required
      question whose prerequisite is met has been answered. */
  predicate HasCompletedOnboardingInContext(questions: seq<Question>, responses: seq<ResponseRow>)
  {
    var bySlug := ResponseBySlug(SlugById(questions), responses);
    forall i :: 0 <= i < |questions| && questions[i].isRequired && DependencySatisfied(questions[i], bySlug) ==>
      questions[i].slug in bySlug && bySlug[questions[i].slug].status == Answered
  }

  /** Whenever the next-question endpoint reports completion, the corrected
      check lets the user through to the dashboard. */
  lemma CompletedOnboardingPassesGate(userId: string, questions: seq<Question>, responses: seq<ResponseRow>)
    requires userId != ""
    requires GetNextQuestion(userId, questions, responses).completed
    ensures HasCompletedOnboardingInContext(questions, responses)
  {
    var bySlug := ResponseBySlug(SlugById(questions), responses);
    forall i | 0 <= i < |questions| && questions[i].isRequired && DependencySatisfied(questions[i], bySlug)
      ensures questions[i].slug in bySlug && bySlug[questions[i].slug].status == Answered
    {
      CompletedMeansRequiredAnswered(userId, questions, responses, i);
    }
  }

  /** On the gated catalog the corrected check agrees with the next-question
      endpoint. */
  lemma CorrectedCheckOnGatedCatalog()
    ensures HasCompletedOnboardingInContext([GatedStatus(), GatedWeeks()], [ResponseRow("q1", Answered, Str("Planning"))])
  {
    CompletionChecksDisagree();
    CompletedOnboardingPassesGate("u", [GatedStatus(), GatedWeeks()], [ResponseRow("q1", Answered, Str("Planning"))]);
  }

  // ---------------------------------------------------------------------
  // Regions
  // ---------------------------------------------------------------------

  datatype RegionSummary = RegionSummary(staples: string, produce: string, hydration: string)

  /** The keys of `regionPlaybook`, in declaration order. */
  const RegionKeys: seq<string> := ["india", "usa", "uk", "singapore"]

  const India := RegionSummary("mung dal khichdi, idli with sambar, warm millet rotis",
                               "seasonal mango, papaya, spinach, and curry leaves",
                               "coconut water and jeera-infused warm water")
  const Usa := RegionSummary("steel-cut oats, baked salmon, and quinoa bowls",
                             "berries, leafy greens, and sweet potatoes",
                             "citrus-infused water and herbal teas")
  const Uk := RegionSummary("porridge with seeds, lentil shepherd\U{2019}s pie, and hearty soups",
                            "root vegetables, leafy greens, and apples",
                            "warm lemon water and berry infusions")
  const Singapore := RegionSummary("brown rice congee, steamed fish, and tofu stir-fries",
                                   "bok choy, papaya, and dragon fruit",
                                   "warm barley water and chrysanthemum tea")

  /** `regionPlaybook[key]` */
  function Playbook(key: string): Option<RegionSummary>
  {
    if key == "india" then Some(India)
    else if key == "usa" then Some(Usa)
    else if key == "uk" then Some(Uk)
    else if key == "singapore" then Some(Singapore)
    else None
  }

  /** `keys.find(key => text.includes(key))` */
  function FirstKeyIn(keys: seq<string>, text: string): (r: Option<nat>)
    ensures r.Some? ==> r.value < |keys| && Includes(text, keys[r.value])
    ensures r.Some? ==> forall j :: 0 <= j < r.value ==> !Includes(text, keys[j])
    ensures r.None? <==> forall j :: 0 <= j < |keys| ==> !Includes(text, keys[j])
  {
    if keys == [] then None
    else if Includes(text, keys[0]) then Some(0)
    else match FirstKeyIn(keys[1..], text)
      case None => None
      case Some(k) => Some(k + 1)
  }

  /** `determineRegionKey`, on the country text ("" for none). */
  function DetermineRegionKey(rawRegion: string): string
  {
    if rawRegion == "" then "default"
    else match FirstKeyIn(RegionKeys, ToLower(rawRegion))
      case None => "default"
      case Some(i) => RegionKeys[i]
  }

  /** The key is "default" or the first playbook key found in the lowercased
      region; a key is only chosen when it occurs in the region. */
  lemma RegionKeySpec(rawRegion: string)
    ensures var r := DetermineRegionKey(rawRegion);
      && (rawRegion == "" ==> r == "default")
      && (r == "default" || (r in RegionKeys && Includes(ToLower(rawRegion), r)))
      && (r != "default" ==> Playbook(r).Some?)
      && (r == "default" && rawRegion != "" ==> forall j :: 0 <= j < |RegionKeys| ==> !Includes(ToLower(rawRegion), RegionKeys[j]))
      && (forall i :: 0 <= i < |RegionKeys| && r == RegionKeys[i] ==>
            forall j :: 0 <= j < i ==> !Includes(ToLower(rawRegion), RegionKeys[j]))
  {
  }

  // ---------------------------------------------------------------------
  // Reading the profile row
  // ---------------------------------------------------------------------

  /** A text column as text, "" for null or empty. */
  function Text(profile: Row, column: string): string
  {
    var v := Col(profile, column);
    if v.Str? then v.s else ""
  }

  /** A truthy column that a builder calls a string method on must hold
      text; anything else makes the source throw. */
  predicate TextOrFalsy(profile: Row, column: string)
  {
    Truthy(Col(profile, column)) ==> Col(profile, column).Str?
  }

  /** The entries of the medical-conditions list are text, as
      `extractCustomConditions` calls `replace` on each. */
  predicate ConditionsReadable(profile: Row)
  {
    forall e :: e in ParseList(Col(profile, "medical_conditions")) ==> e.Str?
  }

  /** What every successful dashboard reads: the country, lower-cased by
      `determineRegionKey` in the nutrition suggestions, and the conditions
      they list. */
  predicate Readable(profile: Row)
  {
    TextOrFalsy(profile, "country") && ConditionsReadable(profile)
  }

  /** The region stripped of a leading "custom:" (any case) and the blanks
      after it, then trimmed. */
  function StripCustomLabel(entry: string): string
  {
    if StartsWith(ToLower(entry), "custom:") then Trim(TrimStart(entry[7..])) else Trim(entry)
  }

  function CleanConditions(entries: seq<Json>): (r: seq<string>)
    requires forall e :: e in entries ==> e.Str?
    ensures forall i :: 0 <= i < |r| ==> r[i] != "" && ToLower(r[i]) != "none"
    ensures |r| <= |entries|
  {
    if entries == [] then []
    else
      var c := StripCustomLabel(entries[0].s);
      (if c != "" && ToLower(c) != "none" then [c] else []) + CleanConditions(entries[1..])
  }

  /** `extractCustomConditions` */
  function ExtractCustomConditions(conditions: Json): (r: seq<string>)
    requires forall e :: e in ParseList(conditions) ==> e.Str?
    ensures forall i :: 0 <= i < |r| ==> r[i] != "" && ToLower(r[i]) != "none"
  {
    CleanConditions(ParseList(conditions))
  }

  function Conditions(profile: Row): seq<string>
    requires ConditionsReadable(profile)
  {
    ExtractCustomConditions(Col(profile, "medical_conditions"))
  }

  /** Each label kept is the stripped text of one of the entries. */
  lemma {:induction false} CleanConditionsFrom(entries: seq<Json>, i: nat)
    requires forall e :: e in entries ==> e.Str?
    requires i < |CleanConditions(entries)|
    ensures exists j :: 0 <= j < |entries| && CleanConditions(entries)[i] == StripCustomLabel(entries[j].s)
  {
    var c := StripCustomLabel(entries[0].s);
    var head := if c != "" && ToLower(c) != "none" then [c] else [];
    assert entries[0] in entries;
    assert forall e :: e in entries[1..] ==> e in entries;
    var rest := CleanConditions(entries[1..]);
    assert CleanConditions(entries) == head + rest;
    if i >= |head| {
      CleanConditionsFrom(entries[1..], i - |head|);
      var j :| 0 <= j < |entries[1..]| && rest[i - |head|] == StripCustomLabel(entries[1..][j].s);
      assert entries[1..][j] == entries[j + 1];
    }
  }

  /** Conversely, every entry whose stripped text is neither empty nor
      "none" gives a label. */
  lemma {:induction false} CleanConditionsKeepsEvery(entries: seq<Json>, j: nat)
    requires forall e :: e in entries ==> e.Str?
    requires j < |entries|
    requires StripCustomLabel(entries[j].s) != "" && ToLower(StripCustomLabel(entries[j].s)) != "none"
    ensures StripCustomLabel(entries[j].s) in CleanConditions(entries)
  {
    var c := StripCustomLabel(entries[0].s);
    var head := if c != "" && ToLower(c) != "none" then [c] else [];
    assert entries[0] in entries;
    assert forall e :: e in entries[1..] ==> e in entries;
    assert CleanConditions(entries) == head + CleanConditions(entries[1..]);
    if j > 0 {
      assert entries[1..][j - 1] == entries[j];
      CleanConditionsKeepsEvery(entries[1..], j - 1);
    }
  }

  /** The conditions extracted from a column are exactly the stripped texts
      of its parsed entries that are neither empty nor "none". */
  lemma ExtractCustomConditionsSpec(conditions: Json)
    requires forall e :: e in ParseList(conditions) ==> e.Str?
    ensures forall x :: x in ExtractCustomConditions(conditions) <==>
      exists e :: e in ParseList(conditions) && x == StripCustomLabel(e.s) && x != "" && ToLower(x) != "none"
  {
    var entries := ParseList(conditions);
    forall x | x in ExtractCustomConditions(conditions)
      ensures exists e :: e in entries && x == StripCustomLabel(e.s) && x != "" && ToLower(x) != "none"
    {
      var i :| 0 <= i < |CleanConditions(entries)| && CleanConditions(entries)[i] == x;
      CleanConditionsFrom(entries, i);
      var j :| 0 <= j < |entries| && x == StripCustomLabel(entries[j].s);
      assert entries[j] in entries;
    }
    forall e | e in entries && StripCustomLabel(e.s) != "" && ToLower(StripCustomLabel(e.s)) != "none"
      ensures StripCustomLabel(e.s) in ExtractCustomConditions(conditions)
    {
      var j :| 0 <= j < |entries| && entries[j] == e;
      CleanConditionsKeepsEvery(entries, j);
    }
  }

  /** The "None" sentinel the onboarding projector stores yields no
      condition. */
  lemma NoneSentinelHasNoConditions()
    ensures ExtractCustomConditions(Arr([Str("None")])) == []
  {
    assert ParseList(Arr([Str("None")])) == [Str("None")];
    TrimOfTrimmed("None");
    assert !StartsWith(ToLower("None"), "custom:");
    assert ToLower("None") == "none";
  }

  /** A "Custom: <text>" entry yields its text. */
  lemma CustomEntryYieldsText(text: string)
    requires text != [] && !IsSpace(text[0]) && !IsSpace(text[|text| - 1])
    requires ToLower(text) != "none"
    ensures StripCustomLabel("Custom: " + text) == text
  {
    var entry, rest := "Custom: " + text, " " + text;
    assert entry == "Custom:" + rest;
    ToLowerPrefix("Custom:", rest);
    assert ToLower("Custom:") == "custom:";
    assert StripCustomLabel(entry) == Trim(TrimStart(entry[7..]));
    assert entry[7..] == rest;
    assert TrimStart(rest) == TrimStart(text) by {
      assert rest[1..] == text;
    }
    TrimOfTrimmed(text);
  }

  // ---------------------------------------------------------------------
  // Nutrition suggestions
  // ---------------------------------------------------------------------

  // Texts of the generated content

  const WeWillSteerClearText := "We will steer clear of "
  const WhenSuggestingRecipesAndText := " when suggesting recipes and swap them for gentle alternatives."
  const NoAllergiesWereNotedText := "No allergies were noted, so we will lean into the full palette of nourishing foods in your region."
  const BecauseYouMentionedText := "Because you mentioned "
  const OurAiPrioritisesOptionsText := ", our AI prioritises options that support those conditions and avoids known triggers."
  const ShareAnyHealthConditionsText := "Share any health conditions and we will fine-tune micronutrient support instantly."
  const RegionalFocusText := "Regional focus"
  const ComfortingStaplesForText := "Comforting staples for "
  const OurAiLeansIntoText := "Our AI leans into "
  const SoMealsFeelFamiliarText := " so meals feel familiar and balanced. We pair them with "
  const ToCoverIronCalciumText := " to cover iron, calcium, and folate needs."
  const SafeSwapsPersonalisedForText := "Safe swaps personalised for you"
  const HydrationBoostersText := "Hydration & boosters"
  const GentleHydrationRemindersText := "Gentle hydration reminders"
  const KeepFluidsUpWithoutText := " keep fluids up without upsetting your tummy. "
  const SeasonalProduceText := "seasonal produce"
  const GentleStretchesText := "gentle stretches"
  const NourishWithFamiliarityText := ": nourish with familiarity"
  const ToKeepEnergySteadyText := " to keep energy steady with your "
  const ToOneMealTodayText := " to one meal today and pair it with a protein-rich side."
  const BreakAlongsideAHydrationText := " break alongside a hydration reminder."
  const LookingAheadToWeekText := "Looking ahead to week "
  const CaptureQuestionsMoodNotesText := "Capture questions, mood notes, and body signals so the upcoming week feels grounded."
  const PrepNotesForYourText := "Prep notes for your "
  const ListTwoQuestionsYouText := "List two questions you want to discuss with your care team."
  const LogAShortEmotionalText := "Log a short emotional check-in to unlock mood-based support."
  const ShortlistPrenatalProvidersInText := "Shortlist prenatal providers in "
  const PrepareQuestionsAndDocumentsText := "Prepare questions and documents for your upcoming visit"
  const LogSymptomNotesRelatedText := "Log symptom notes related to "
  const AddOneGratitudeOrText := "Add one gratitude or mood entry for today"
  const CheckInOnHydrationText := "Check in on hydration\U{2014}aim for steady sips through the day"
  const WelcomeToMumEntumText := "Welcome to Mum.entum"
  const ShareAFewOnboardingText := "Share a few onboarding details so we can craft timely nudges just for you."
  const HydrationCheckInText := "Hydration check-in"
  const KeepARefillableBottleText := "Keep a refillable bottle nearby\U{2014}staying hydrated supports amniotic fluid levels and digestion."
  const AppointmentPrepText := "Appointment prep"
  const StartJottingQuestionsForText := "Start jotting questions for your upcoming visit on "
  const ConditionAwareInsightText := "Condition-aware insight"
  const BecauseYouNotedText := "Because you noted "
  const WeWillPrioritiseCheckText := ", we will prioritise check-ins that keep symptoms in check."

  datatype Suggestion = Suggestion(id: string, category: string, title: string, summary: string)

  const NutritionFallback := RegionSummary("whole grains, gently spiced legumes, and seasonal produce from your region",
                                           "local fruits and leafy greens rich in folate and iron",
                                           "warm water infusions and electrolyte-friendly drinks")

  function SummaryOr(key: string, fallback: RegionSummary): RegionSummary
  {
    match Playbook(key)
    case Some(s) => s
    case None => fallback
  }

  function Glue(parts: seq<string>): string
  {
    Join(parts, ", ")
  }

  /** `buildNutritionSuggestions` */
  function BuildNutritionSuggestions(profile: Option<Row>): seq<Suggestion>
    requires profile.Some? ==> Readable(profile.value)
  {
    if profile.None? then []
    else
      var p := profile.value;
      var region := SummaryOr(DetermineRegionKey(Text(p, "country")), NutritionFallback);
      var allergies := ParseList(Col(p, "allergies"));
      var conditions := Conditions(p);
      var allergyLine :=
        if |allergies| > 0 then
          WeWillSteerClearText + JoinValues(allergies, ", ") + WhenSuggestingRecipesAndText
        else NoAllergiesWereNotedText;
      var conditionLine :=
        if |conditions| > 0 then
          BecauseYouMentionedText + Glue(conditions) + OurAiPrioritisesOptionsText
        else ShareAnyHealthConditionsText;
      [ Suggestion("nutrition-region-highlights", RegionalFocusText,
                   ComfortingStaplesForText + ToStr(Or(Col(p, "country"), Str("your region"))),
                   OurAiLeansIntoText + region.staples + SoMealsFeelFamiliarText
                     + region.produce + ToCoverIronCalciumText),
        Suggestion("nutrition-allergy-guard", "Allergy aware", SafeSwapsPersonalisedForText, allergyLine),
        Suggestion("nutrition-hydration", HydrationBoostersText, GentleHydrationRemindersText,
                   region.hydration + KeepFluidsUpWithoutText + conditionLine) ]
  }

  /** Nothing without a profile; otherwise exactly the three suggestions, in
      order, with a region outside the playbook getting the generic advice. */
  lemma NutritionSuggestionsShape(profile: Option<Row>)
    requires profile.Some? ==> Readable(profile.value)
    ensures var r := BuildNutritionSuggestions(profile);
      && (profile.None? ==> r == [])
      && (profile.Some? ==>
            && |r| == 3
            && r[0].id == "nutrition-region-highlights"
            && r[1].id == "nutrition-allergy-guard"
            && r[2].id == "nutrition-hydration"
            && (DetermineRegionKey(Text(profile.value, "country")) == "default" ==>
                  StartsWith(r[2].summary, NutritionFallback.hydration)))
  {
    if profile.Some? {
      var r := BuildNutritionSuggestions(profile);
      var region := SummaryOr(DetermineRegionKey(Text(profile.value, "country")), NutritionFallback);
      if DetermineRegionKey(Text(profile.value, "country")) == "default" {
        assert region == NutritionFallback;
        assert r[2].summary[..|region.hydration|] == region.hydration;
      }
    }
  }

  // ---------------------------------------------------------------------
  // Weekly metrics
  // ---------------------------------------------------------------------

  datatype WeeklyMetric = WeeklyMetric(week: int, headline: string, description: string, focusPoints: seq<string>)

  const MetricsFallback := RegionSummary("whole grains and pulses", "seasonal fruits and leafy greens", "warm herbal infusions")

  /** `Number(profile.current_week || profile.weeks_pregnant)` */
  function CurrentWeek(profile: Row): Option<int>
  {
    ToNumber(Or(Col(profile, "current_week"), Col(profile, "weeks_pregnant")))
  }

  /** `buildWeeklyMetrics` reads the country and the activity level only
      past its week check: with a week that is not 0 or NaN both must be
      text or falsy. */
  predicate MetricsReadable(profile: Row)
  {
    CurrentWeek(profile).Some? && CurrentWeek(profile).value != 0 ==>
      TextOrFalsy(profile, "country") && TextOrFalsy(profile, "activity_level")
  }

  function Min(a: int, b: int): int
  {
    if a <= b then a else b
  }

  /** The first item of the produce list, or "seasonal produce". */
  function PrimaryProduce(produce: string): string
  {
    var first := Trim(Split(produce, {','})[0]);
    if first != "" then first else SeasonalProduceText
  }

  /** `buildWeeklyMetrics`; `localeDate` renders the appointment date. */
  function BuildWeeklyMetrics(profile: Option<Row>, localeDate: Json -> string): seq<WeeklyMetric>
    requires profile.Some? ==> MetricsReadable(profile.value)
  {
    if profile.None? then []
    else
      var p := profile.value;
      match CurrentWeek(p)
      case None => []
      case Some(week) =>
        if week == 0 then []
        else
          var region := SummaryOr(DetermineRegionKey(Text(p, "country")), MetricsFallback);
          var produce := PrimaryProduce(region.produce);
          var activity := Col(p, "activity_level");
          var movementCue := if Truthy(activity) then ToLower(activity.s) + " movement" else GentleStretchesText;
          var upcoming := Min(week + 1, 40);
          var appointment := Col(p, "next_appointment");
          var emotional := Col(p, "emotional_state");
          [ WeeklyMetric(week, "Week " + IntToString(week) + NourishWithFamiliarityText,
                         "Lean into " + region.staples + " and " + produce + ToKeepEnergySteadyText
                           + ToStr(Or(Col(p, "diet_style"), Str("balanced"))) + " approach.",
                         [ "Add " + produce + ToOneMealTodayText,
                           "Schedule a " + movementCue + BreakAlongsideAHydrationText ]),
            WeeklyMetric(upcoming, LookingAheadToWeekText + IntToString(upcoming),
                         CaptureQuestionsMoodNotesText,
                         [ if Truthy(appointment) then PrepNotesForYourText + localeDate(appointment) + " appointment."
                           else ListTwoQuestionsYouText,
                           if Truthy(emotional) then "Match your \"" + ToStr(emotional) + "\" check-in with a partner or journal conversation."
                           else LogAShortEmotionalText ]) ]
  }

  /** Nothing without a profile or without a usable week (0 or not a
      number); otherwise this week and the next, capped at 40. */
  lemma WeeklyMetricsShape(profile: Option<Row>, localeDate: Json -> string)
    requires profile.Some? ==> MetricsReadable(profile.value)
    ensures var r := BuildWeeklyMetrics(profile, localeDate);
      && (r == [] <==> profile.None? || CurrentWeek(profile.value) == None || CurrentWeek(profile.value) == Some(0))
      && (r != [] ==>
            && |r| == 2
            && r[0].week == CurrentWeek(profile.value).value
            && r[1].week == Min(CurrentWeek(profile.value).value + 1, 40)
            && r[1].week <= 40
            && |r[0].focusPoints| == 2 && |r[1].focusPoints| == 2)
  {
  }

  // ---------------------------------------------------------------------
  // Action items
  // ---------------------------------------------------------------------

  datatype ActionItem = ActionItem(id: string, title: string, isCompleted: bool, dueOn: Json)

  function ProviderItem(p: Row): ActionItem
  {
    ActionItem("action-find-provider", ShortlistPrenatalProvidersInText + ToStr(Or(Col(p, "country"), Str("your area"))), false, Null)
  }

  function AppointmentItem(p: Row): ActionItem
  {
    ActionItem("action-appointment-prep", PrepareQuestionsAndDocumentsText, false, Col(p, "next_appointment"))
  }

  function ConditionItem(conditions: seq<string>): ActionItem
  {
    ActionItem("action-condition-journal", LogSymptomNotesRelatedText + Glue(conditions), false, Null)
  }

  function GratitudeItem(): ActionItem
  {
    ActionItem("action-gratitude", AddOneGratitudeOrText, false, Null)
  }

  function HydrationItem(): ActionItem
  {
    ActionItem("action-hydration", CheckInOnHydrationText, false, Null)
  }

  function When<T>(c: bool, x: T): seq<T>
  {
    if c then [x] else []
  }

  /** The action items `buildActionItems` pushes: the provider, appointment
      and condition items when they apply, gratitude when none did, and
      hydration last. */
  function ActionItems(profile: Option<Row>): seq<ActionItem>
    requires profile.Some? ==> ConditionsReadable(profile.value)
  {
    if profile.None? then [] else ItemsFor(profile.value, Conditions(profile.value))
  }

  /** The action items for a profile row and its extracted conditions. */
  function ItemsFor(p: Row, conditions: seq<string>): seq<ActionItem>
  {
    var firsts := When(!Truthy(Col(p, "has_doctor")), ProviderItem(p))
                + When(Truthy(Col(p, "next_appointment")), AppointmentItem(p))
                + When(|conditions| > 0, ConditionItem(conditions));
    firsts + When(firsts == [], GratitudeItem()) + [HydrationItem()]
  }

  /** `buildActionItems`, pushing onto a local list. */
  method BuildActionItems(profile: Option<Row>) returns (items: seq<ActionItem>)
    requires profile.Some? ==> ConditionsReadable(profile.value)
    ensures items == ActionItems(profile)
  {
    if profile.None? {
      return [];
    }
    var p := profile.value;
    var conditions := Conditions(p);
    var provider := !Truthy(Col(p, "has_doctor"));
    var appointment := Truthy(Col(p, "next_appointment"));
    items := [];
    if provider {
      items := items + [ProviderItem(p)];
    }
    assert items == When(provider, ProviderItem(p));
    if appointment {
      items := items + [AppointmentItem(p)];
    }
    assert items == When(provider, ProviderItem(p)) + When(appointment, AppointmentItem(p));
    if |conditions| > 0 {
      items := items + [ConditionItem(conditions)];
    }
    ghost var firsts := items;
    assert firsts == When(provider, ProviderItem(p)) + When(appointment, AppointmentItem(p))
                     + When(|conditions| > 0, ConditionItem(conditions));
    if |items| == 0 {
      items := items + [GratitudeItem()];
    }
    assert items == firsts + When(firsts == [], GratitudeItem());
    items := items + [HydrationItem()];
  }

  function Ids(items: seq<ActionItem>): (r: seq<string>)
    ensures |r| == |items| && forall i :: 0 <= i < |items| ==> r[i] == items[i].id
  {
    if items == [] then [] else [items[0].id] + Ids(items[1..])
  }

  lemma {:induction false} IdsAppend(a: seq<ActionItem>, b: seq<ActionItem>)
    ensures Ids(a + b) == Ids(a) + Ids(b)
  {
    if a != [] {
      assert (a + b)[1..] == a[1..] + b;
      IdsAppend(a[1..], b);
    }
  }

  lemma IdsWhen(c: bool, x: ActionItem)
    ensures Ids(When(c, x)) == When(c, x.id)
  {
  }

  /** The ids of the items for any conditions: provider, appointment and
      condition in that order when they apply, gratitude exactly when none
      did, and hydration last. */
  lemma ItemsForShape(p: Row, conditions: seq<string>)
    ensures var items := ItemsFor(p, conditions);
      var provider := !Truthy(Col(p, "has_doctor"));
      var appointment := Truthy(Col(p, "next_appointment"));
      var condition := |conditions| > 0;
      && 2 <= |items| <= 4
      && items[|items| - 1] == HydrationItem()
      && Ids(items) == When(provider, "action-find-provider") + When(appointment, "action-appointment-prep")
                       + When(condition, "action-condition-journal")
                       + When(!provider && !appointment && !condition, "action-gratitude") + ["action-hydration"]
  {
    var provider := !Truthy(Col(p, "has_doctor"));
    var appointment := Truthy(Col(p, "next_appointment"));
    var condition := |conditions| > 0;
    var a := When(provider, ProviderItem(p));
    var b := When(appointment, AppointmentItem(p));
    var c := When(condition, ConditionItem(conditions));
    var firsts := a + b + c;
    assert firsts == [] <==> !provider && !appointment && !condition;
    var g := When(firsts == [], GratitudeItem());
    IdsAppend(a, b);
    IdsAppend(a + b, c);
    IdsAppend(firsts, g);
    IdsAppend(firsts + g, [HydrationItem()]);
    IdsWhen(provider, ProviderItem(p));
    IdsWhen(appointment, AppointmentItem(p));
    IdsWhen(condition, ConditionItem(conditions));
    IdsWhen(firsts == [], GratitudeItem());
  }

  /** Hydration always comes last; provider (for any falsy `has_doctor`,
      null included), appointment and condition come in that order when they
      apply; gratitude appears exactly when none of them did; so there are
      two to four items. */
  lemma ActionItemsShape(profile: Option<Row>)
    requires profile.Some? ==> ConditionsReadable(profile.value)
    ensures profile.None? ==> ActionItems(profile) == []
    ensures profile.Some? ==>
      var p := profile.value;
      var items := ActionItems(profile);
      var provider := !Truthy(Col(p, "has_doctor"));
      var appointment := Truthy(Col(p, "next_appointment"));
      var condition := |Conditions(p)| > 0;
      && 2 <= |items| <= 4
      && items[|items| - 1] == HydrationItem()
      && Ids(items) == When(provider, "action-find-provider") + When(appointment, "action-appointment-prep")
                       + When(condition, "action-condition-journal")
                       + When(!provider && !appointment && !condition, "action-gratitude") + ["action-hydration"]
  {
    if profile.Some? {
      ItemsForShape(profile.value, Conditions(profile.value));
    }
  }

  // ---------------------------------------------------------------------
  // Fallback notifications
  // ---------------------------------------------------------------------

  datatype Notification = Notification(id: string, title: string, message: string, severity: string, createdAt: string)

  function WelcomeNote(now: string): Notification
  {
    Notification("notification-welcome", WelcomeToMumEntumText,
                 ShareAFewOnboardingText, "info", now)
  }

  function HydrationNote(now: string): Notification
  {
    Notification("notification-hydration", HydrationCheckInText,
                 KeepARefillableBottleText, "info", now)
  }

  /** The notifications `buildFallbackNotifications` pushes; `now` is the
      creation time and `localeDate` renders the appointment date. */
  function FallbackNotifications(profile: Option<Row>, now: string, localeDate: Json -> string): seq<Notification>
    requires profile.Some? ==> ConditionsReadable(profile.value)
  {
    if profile.None? then [WelcomeNote(now)]
    else
      var p := profile.value;
      var appointment := Col(p, "next_appointment");
      var conditions := Conditions(p);
      [HydrationNote(now)]
      + When(Truthy(appointment), AppointmentNote(appointment, now, localeDate))
      + When(|conditions| > 0, ConditionNote(conditions, now))
  }

  function AppointmentNote(appointment: Json, now: string, localeDate: Json -> string): Notification
  {
    Notification("notification-appointment", AppointmentPrepText,
                 StartJottingQuestionsForText + localeDate(appointment) + ".", "important", now)
  }

  function ConditionNote(conditions: seq<string>, now: string): Notification
  {
    Notification("notification-condition", ConditionAwareInsightText,
                 BecauseYouNotedText + Glue(conditions) + WeWillPrioritiseCheckText, "info", now)
  }

  /** `buildFallbackNotifications`, pushing onto a local list. */
  method BuildFallbackNotifications(profile: Option<Row>, now: string, localeDate: Json -> string) returns (notes: seq<Notification>)
    requires profile.Some? ==> ConditionsReadable(profile.value)
    ensures notes == FallbackNotifications(profile, now, localeDate)
  {
    if profile.None? {
      return [WelcomeNote(now)];
    }
    var p := profile.value;
    notes := [];
    notes := notes + [HydrationNote(now)];
    var appointment := Col(p, "next_appointment");
    if Truthy(appointment) {
      notes := notes + [AppointmentNote(appointment, now, localeDate)];
    }
    assert notes == [HydrationNote(now)] + When(Truthy(appointment), AppointmentNote(appointment, now, localeDate));
    var conditions := Conditions(p);
    if |conditions| > 0 {
      notes := notes + [ConditionNote(conditions, now)];
    }
  }

  /** Without a profile there is only the welcome note; with one, hydration
      comes first and there are one to three notes. */
  lemma FallbackNotificationsShape(profile: Option<Row>, now: string, localeDate: Json -> string)
    requires profile.Some? ==> ConditionsReadable(profile.value)
    ensures var r := FallbackNotifications(profile, now, localeDate);
      && (profile.None? ==> r == [WelcomeNote(now)])
      && (profile.Some? ==> 1 <= |r| <= 3 && r[0] == HydrationNote(now))
      && (profile.Some? ==> (|r| > 1 <==> Truthy(Col(profile.value, "next_appointment")) || |Conditions(profile.value)| > 0))
  {
  }

  // ---------------------------------------------------------------------
  // getDashboard
  // ---------------------------------------------------------------------

  /** Stored rows when there are any, otherwise generated content. */
  datatype Source<T> = Stored(rows: seq<Row>) | Generated(items: seq<T>)

  datatype DashboardReply =
    | MissingUserId
    | OnboardingRequired
    | Failed
    | Payload(profileSummary: Option<Row>,
              weeklyMetrics: Source<WeeklyMetric>,
              actionItems: Source<ActionItem>,
              importantNotifications: Source<Notification>,
              nutritionSuggestions: seq<Suggestion>)

  /** A stored condition that survives the cleaning is listed, so the
      dashboard generates both the condition action item and the
      condition-aware note for it. */
  lemma StoredConditionIsListed(p: Row, e: Json, now: string, localeDate: Json -> string)
    requires ConditionsReadable(p)
    requires e in ParseList(Col(p, "medical_conditions"))
    requires StripCustomLabel(e.s) != "" && ToLower(StripCustomLabel(e.s)) != "none"
    ensures StripCustomLabel(e.s) in Conditions(p)
    ensures ConditionItem(Conditions(p)) in ActionItems(Some(p))
    ensures ConditionNote(Conditions(p), now) in FallbackNotifications(Some(p), now, localeDate)
  {
    ExtractCustomConditionsSpec(Col(p, "medical_conditions"));
    var conditions := Conditions(p);
    var firsts := When(!Truthy(Col(p, "has_doctor")), ProviderItem(p))
                + When(Truthy(Col(p, "next_appointment")), AppointmentItem(p))
                + When(|conditions| > 0, ConditionItem(conditions));
    assert ConditionItem(conditions) in firsts;
  }

  function Pick<T>(stored: seq<Row>, generated: seq<T>): (r: Source<T>)
    ensures stored != [] ==> r == Stored(stored)
    ensures stored == [] ==> r == Generated(generated)
  {
    if |stored| > 0 then Stored(stored) else Generated(generated)
  }

  /** The reply of `getDashboard` once the completion check has given
      `complete`, on the rows its queries return (`profile` is None when the
      user has no profile row). A builder that calls a string method on a
      column holding something else throws, and the handler then fails. The
      weekly metrics are built only when none are stored. */
  function Respond(userId: string, complete: bool, profile: Option<Row>,
                   storedMetrics: seq<Row>, storedActions: seq<Row>, storedNotifications: seq<Row>,
                   now: string, localeDate: Json -> string): DashboardReply
  {
    if userId == "" then MissingUserId
    else if !complete then OnboardingRequired
    else if profile.Some? && (!Readable(profile.value) || (storedMetrics == [] && !MetricsReadable(profile.value))) then Failed
    else
      Payload(profile,
              if storedMetrics != [] then Stored(storedMetrics) else Generated(BuildWeeklyMetrics(profile, localeDate)),
              Pick(storedActions, ActionItems(profile)),
              Pick(storedNotifications, FallbackNotifications(profile, now, localeDate)),
              BuildNutritionSuggestions(profile))
  }

  /** `getDashboard` as written, gated on `hasCompletedOnboarding`. */
  function GetDashboard(userId: string, questions: seq<Question>, responses: seq<ResponseRow>, profile: Option<Row>,
                        storedMetrics: seq<Row>, storedActions: seq<Row>, storedNotifications: seq<Row>,
                        now: string, localeDate: Json -> string): (r: DashboardReply)
    ensures r.MissingUserId? <==> userId == ""
    ensures r.OnboardingRequired? <==> userId != "" && !HasCompletedOnboarding(questions, responses)
  {
    Respond(userId, HasCompletedOnboarding(questions, responses), profile,
            storedMetrics, storedActions, storedNotifications, now, localeDate)
  }

  /** `getDashboard` gated on the corrected completion check instead. */
  function GetDashboardCorrected(userId: string, questions: seq<Question>, responses: seq<ResponseRow>, profile: Option<Row>,
                                 storedMetrics: seq<Row>, storedActions: seq<Row>, storedNotifications: seq<Row>,
                                 now: string, localeDate: Json -> string): (r: DashboardReply)
    ensures r.MissingUserId? <==> userId == ""
    ensures r.OnboardingRequired? <==> userId != "" && !HasCompletedOnboardingInContext(questions, responses)
  {
    Respond(userId, HasCompletedOnboardingInContext(questions, responses), profile,
            storedMetrics, storedActions, storedNotifications, now, localeDate)
  }

  /** The handler fails exactly when a column it reads on the path taken
      holds something that is not text: the country or the conditions on
      every path, the activity level (and the country) only when the weekly
      metrics are generated for a usable week. */
  lemma DashboardFailure(userId: string, complete: bool, profile: Option<Row>,
                         storedMetrics: seq<Row>, storedActions: seq<Row>, storedNotifications: seq<Row>,
                         now: string, localeDate: Json -> string)
    requires userId != "" && complete
    ensures Respond(userId, complete, profile, storedMetrics, storedActions, storedNotifications, now, localeDate).Failed? <==>
      profile.Some? && (!Readable(profile.value) || (storedMetrics == [] && !MetricsReadable(profile.value)))
    ensures storedMetrics != [] && profile.Some? && Readable(profile.value) ==>
      Respond(userId, complete, profile, storedMetrics, storedActions, storedNotifications, now, localeDate).Payload?
  {
  }

  /** Stored lists win when non-empty and generated ones fill in when
      empty; the profile row is returned as it is. */
  lemma DashboardFallbacks(userId: string, complete: bool, profile: Option<Row>,
                           storedMetrics: seq<Row>, storedActions: seq<Row>, storedNotifications: seq<Row>,
                           now: string, localeDate: Json -> string)
    requires userId != ""
    ensures var r := Respond(userId, complete, profile, storedMetrics, storedActions, storedNotifications, now, localeDate);
      && (r.OnboardingRequired? <==> !complete)
      && (r.Payload? ==>
            && r.profileSummary == profile
            && (storedMetrics != [] ==> r.weeklyMetrics == Stored(storedMetrics))
            && (storedMetrics == [] ==> r.weeklyMetrics == Generated(BuildWeeklyMetrics(profile, localeDate)))
            && (storedActions != [] ==> r.actionItems == Stored(storedActions))
            && (storedActions == [] ==> r.actionItems == Generated(ActionItems(profile)))
            && (storedNotifications != [] ==> r.importantNotifications == Stored(storedNotifications))
            && (storedNotifications == [] ==> r.importantNotifications == Generated(FallbackNotifications(profile, now, localeDate))))
  {
  }

  /** As written, the user of the gated catalog who answered "Planning" is
      sent back to onboarding whatever the stored rows, although the
      next-question endpoint reports the onboarding completed. */
  lemma GatedUserSentBack(profile: Option<Row>, storedMetrics: seq<Row>, storedActions: seq<Row>, storedNotifications: seq<Row>,
                          now: string, localeDate: Json -> string)
    ensures var questions := [GatedStatus(), GatedWeeks()];
      var responses := [ResponseRow("q1", Answered, Str("Planning"))];
      && GetNextQuestion("u", questions, responses).completed
      && GetDashboard("u", questions, responses, profile, storedMetrics, storedActions, storedNotifications, now, localeDate)
           == OnboardingRequired
  {
    CompletionChecksDisagree();
  }

  /** With the corrected check, a user the next-question endpoint calls
      complete is never sent back to onboarding. */
  lemma NoRedirectLoop(userId: string, questions: seq<Question>, responses: seq<ResponseRow>, profile: Option<Row>,
                       storedMetrics: seq<Row>, storedActions: seq<Row>, storedNotifications: seq<Row>,
                       now: string, localeDate: Json -> string)
    requires userId != ""
    requires GetNextQuestion(userId, questions, responses).completed
    ensures !GetDashboardCorrected(userId, questions, responses, profile, storedMetrics, storedActions, storedNotifications, now, localeDate).OnboardingRequired?
  {
    CompletedOnboardingPassesGate(userId, questions, responses);
  }
}
