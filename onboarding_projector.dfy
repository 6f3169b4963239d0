/** The profile projector of the onboarding controller: from the slug of an
    answered question and the raw answer, the partial profile update to merge
    into the user's pregnancy profile row. */
module OnboardingProjector {
  import opened JsValues

  /** The columns to set on the profile row and their new values. */
  type ProfileUpdate = map<string, Json>

  /** `toArray`: nothing for a falsy value, an array as it is, anything else
      as a one-element list. */
  function ToArray(v: Json): seq<Json>
  {
    if !Truthy(v) then [] else if v.Arr? then v.items else [v]
  }

  /** `normaliseString`: strings are trimmed, other values pass through. */
  function NormaliseString(v: Json): (r: Json)
    ensures v.Str? <==> r.Str?
    ensures r.Str? ==> r.s == Trim(v.s)
    ensures !v.Str? ==> r == v
  {
    if v.Str? then Str(Trim(v.s)) else v
  }

  /** `value || null` */
  function OrNull(v: Json): (r: Json)
    ensures Truthy(v) ==> r == v
    ensures !Truthy(v) ==> r == Null
  {
    Or(v, Null)
  }

  /** `parseNumber`: `Number(value)`, with NaN replaced by null. */
  function ParseNumber(v: Json): (r: Json)
    ensures r.Null? || r.Num?
    ensures r.Null? <==> ToNumber(v).None?
    ensures r.Num? ==> ToNumber(v) == Some(r.n)
  {
    match ToNumber(v)
    case None => Null
    case Some(n) => Num(n)
  }

  /** `parseBooleanFromPhrase`: true for a phrase starting with "yes", false
      for one starting with "no" or mentioning "not yet", null otherwise and
      for anything that is not a string. */
  function ParseBooleanFromPhrase(v: Json): (r: Json)
    ensures r.Null? || r.Bool?
    ensures !v.Str? ==> r.Null?
  {
    if !v.Str? then Null
    else
      var lowered := ToLower(v.s);
      if StartsWith(lowered, "yes") then Bool(true)
      else if StartsWith(lowered, "no") || Includes(lowered, "not yet") then Bool(false)
      else Null
  }

  /** `containsWord` */
  predicate ContainsWord(v: Json, keyword: string)
  {
    v.Str? && Includes(ToLower(v.s), keyword)
  }

  /** The rule the `switch` on the question slug picks. Every free-text slug
      stores its trimmed answer in one column (empty text clears it). */
  datatype Rule =
    | FreeText(column: string)
    | Age
    | PregnancyStatus
    | PregnancyWeeks
    | FirstPregnancy
    | MedicalConditionsRule
    | HasDoctor
    | EmergencyContact
    | NoRule

  function RuleOf(slug: string): Rule
  {
    match slug
    case "mama-name" => FreeText("preferred_name")
    case "mama-age" => Age
    case "mama-region" => FreeText("country")
    case "pregnancy-status" => PregnancyStatus
    case "pregnancy-weeks" => PregnancyWeeks
    case "first-pregnancy" => FirstPregnancy
    case "pregnancy-complications" => FreeText("complications")
    case "conception-window" => FreeText("planning_window")
    case "medical-conditions" => MedicalConditionsRule
    case "current-meds" => FreeText("medications")
    case "allergies" => FreeText("allergies")
    case "diet-style" => FreeText("diet_style")
    case "food-preferences" => FreeText("food_preferences")
    case "activity-level" => FreeText("activity_level")
    case "substance-use" => FreeText("substance_use")
    case "emotional-checkin" => FreeText("emotional_state")
    case "has-doctor" => HasDoctor
    case "next-appointment" => FreeText("next_appointment")
    case "emergency-contact" => EmergencyContact
    case "blood-group" => FreeText("blood_group")
    case _ => NoRule
  }

  /** The slugs the projector knows. */
  const KnownSlugs: set<string> :=
    {"mama-name", "mama-age", "mama-region", "pregnancy-status", "pregnancy-weeks",
     "first-pregnancy", "pregnancy-complications", "conception-window", "medical-conditions",
     "current-meds", "allergies", "diet-style", "food-preferences", "activity-level",
     "substance-use", "emotional-checkin", "has-doctor", "next-appointment",
     "emergency-contact", "blood-group"}

  function TrimEntry(e: Json): Json
  {
    if e.Str? then Str(Trim(e.s)) else e
  }

  /** `.map(entry => typeof entry === 'string' ? entry.trim() : entry)` */
  function TrimEntries(xs: seq<Json>): (r: seq<Json>)
    ensures |r| == |xs| && forall i :: 0 <= i < |xs| ==> r[i] == TrimEntry(xs[i])
  {
    seq(|xs|, i requires 0 <= i < |xs| => TrimEntry(xs[i]))
  }

  /** A "custom:" or "other:" label (any case) unwrapped to its trimmed text. */
  function StripCustomPrefix(e: Json): Json
  {
    if !e.Str? then e
    else if StartsWith(ToLower(e.s), "custom:") then Str(Trim(e.s[7..]))
    else if StartsWith(ToLower(e.s), "other:") then Str(Trim(e.s[6..]))
    else e
  }

  function StripEntries(xs: seq<Json>): (r: seq<Json>)
    ensures |r| == |xs| && forall i :: 0 <= i < |xs| ==> r[i] == StripCustomPrefix(xs[i])
  {
    seq(|xs|, i requires 0 <= i < |xs| => StripCustomPrefix(xs[i]))
  }

  /** The trimmed, non-empty selections of a medical-conditions answer. */
  function Selections(response: Json): seq<Json>
  {
    TruthyOnly(TrimEntries(ToArray(response)))
  }

  predicate MentionsNone(selections: seq<Json>)
  {
    exists i :: 0 <= i < |selections| && ToLower(ToStr(selections[i])) == "none"
  }

  /** The `medical_conditions` value for an answer. */
  function MedicalConditions(response: Json): Json
  {
    var selections := Selections(response);
    if MentionsNone(selections) then Arr([Str("None")])
    else
      var cleaned := TruthyOnly(StripEntries(selections));
      var unique := Unique(cleaned);
      if |unique| > 0 then Arr(unique) else Null
  }

  function PregnancyStatusUpdates(status: Json): ProfileUpdate
  {
    var base := map["pregnancy_status" := status];
    var weeks := if !ContainsWord(status, "pregnan") then base["weeks_pregnant" := Null]["current_week" := Null] else base;
    if !ContainsWord(status, "plan") then weeks["planning_window" := Null] else weeks
  }

  function HasDoctorUpdates(hasDoctor: Json): ProfileUpdate
  {
    var base := map["has_doctor" := hasDoctor];
    if hasDoctor == Bool(false) then base["next_appointment" := Null] else base
  }

  /** `buildProfileUpdates` */
  function BuildProfileUpdates(slug: string, response: Json): ProfileUpdate
  {
    if IsNullish(response) then map[]
    else
      var trimmed := NormaliseString(response);
      match RuleOf(slug)
      case FreeText(column) => map[column := OrNull(trimmed)]
      case Age => map["age" := ParseNumber(response)]
      case PregnancyStatus => PregnancyStatusUpdates(OrNull(trimmed))
      case PregnancyWeeks =>
        var weeks := ParseNumber(response);
        if !weeks.Null? then map["weeks_pregnant" := weeks, "current_week" := weeks] else map[]
      case FirstPregnancy => map["is_first_pregnancy" := ParseBooleanFromPhrase(response)]
      case MedicalConditionsRule => map["medical_conditions" := MedicalConditions(response)]
      case HasDoctor => HasDoctorUpdates(ParseBooleanFromPhrase(response))
      case EmergencyContact =>
        map["emergency_contact" := if Truthy(trimmed) then Obj([("raw", trimmed)]) else Null]
      case NoRule => map[]
  }

  // ---------------------------------------------------------------------
  // Properties
  // ---------------------------------------------------------------------

  /** The switch has a rule for exactly the known slugs. */
  lemma RuleOfKnownSlugs(slug: string)
    ensures RuleOf(slug) != NoRule <==> slug in KnownSlugs
  {
  }

  /** A null or undefined answer, or a slug without a rule, changes nothing. */
  lemma EmptyUpdateForNothingOrUnknown(slug: string, response: Json)
    requires IsNullish(response) || slug !in KnownSlugs
    ensures BuildProfileUpdates(slug, response) == map[]
  {
    RuleOfKnownSlugs(slug);
  }

  /** A free-text slug sets exactly its one column: to the trimmed text, or
      to null when the text trims to nothing. */
  lemma FreeTextSetsOneColumn(slug: string, text: string)
    requires RuleOf(slug).FreeText?
    ensures var u := BuildProfileUpdates(slug, Str(text));
      && u.Keys == {RuleOf(slug).column}
      && u[RuleOf(slug).column] == (if Trim(text) == "" then Null else Str(Trim(text)))
  {
  }

  /** Phrase parsing ignores letter case. */
  lemma PhraseIgnoresCase(s: string)
    ensures ParseBooleanFromPhrase(Str(ToLower(s))) == ParseBooleanFromPhrase(Str(s))
  {
    ToLowerIdempotent(s);
  }

  /** "yes" is checked first: a phrase starting with "yes" is true even when
      it also mentions "not yet"; a phrase with neither a "yes"/"no" start nor
      "not yet" is null. */
  lemma PhraseClassification(s: string)
    ensures StartsWith(ToLower(s), "yes") ==> ParseBooleanFromPhrase(Str(s)) == Bool(true)
    ensures !StartsWith(ToLower(s), "yes") && (StartsWith(ToLower(s), "no") || Includes(ToLower(s), "not yet"))
            ==> ParseBooleanFromPhrase(Str(s)) == Bool(false)
    ensures !StartsWith(ToLower(s), "yes") && !StartsWith(ToLower(s), "no") && !Includes(ToLower(s), "not yet")
            ==> ParseBooleanFromPhrase(Str(s)) == Null
  {
  }

  /** has-doctor clears `next_appointment` exactly when the answer parsed as
      false; null (an unclear answer) leaves it alone. */
  lemma HasDoctorGate(response: Json)
    requires !IsNullish(response)
    ensures var u := BuildProfileUpdates("has-doctor", response);
      && "has_doctor" in u
      && u["has_doctor"] == ParseBooleanFromPhrase(response)
      && ("next_appointment" in u <==> u["has_doctor"] == Bool(false))
      && ("next_appointment" in u ==> u["next_appointment"] == Null)
      && u.Keys <= {"has_doctor", "next_appointment"}
  {
    assert RuleOf("has-doctor") == HasDoctor;
  }

  lemma HasDoctorNoNotYet()
    ensures BuildProfileUpdates("has-doctor", Str("No, not yet"))
            == map["has_doctor" := Bool(false), "next_appointment" := Null]
  {
    assert RuleOf("has-doctor") == HasDoctor;
    var lowered := ToLower("No, not yet");
    assert lowered[0] == 'n' && lowered[1] == 'o';
    assert lowered[..2] == "no";
    assert !StartsWith(lowered, "yes") by { assert lowered[..3][0] == 'n'; }
  }

  /** pregnancy-weeks sets both week columns to the same parsed number, or
      nothing at all when the answer does not parse. */
  lemma PregnancyWeeksBothOrNothing(response: Json)
    requires !IsNullish(response)
    ensures var u := BuildProfileUpdates("pregnancy-weeks", response);
      && (u == map[] <==> ToNumber(response).None?)
      && (ToNumber(response).Some? ==>
            u == map["weeks_pregnant" := Num(ToNumber(response).value), "current_week" := Num(ToNumber(response).value)])
  {
    assert RuleOf("pregnancy-weeks") == PregnancyWeeks;
    var u := BuildProfileUpdates("pregnancy-weeks", response);
    if ToNumber(response).Some? {
      assert "weeks_pregnant" in u;
    }
  }

  /** The decimal text of a week number stores that number in both columns. */
  lemma PregnancyWeeksOfNumberText(n: int)
    ensures BuildProfileUpdates("pregnancy-weeks", Str(IntToString(n)))
            == map["weeks_pregnant" := Num(n), "current_week" := Num(n)]
  {
    NumberOfIntToString(n);
    PregnancyWeeksBothOrNothing(Str(IntToString(n)));
  }

  /** Blank text counts as week 0, as `Number('')` is 0. */
  lemma PregnancyWeeksBlank()
    ensures BuildProfileUpdates("pregnancy-weeks", Str("")) == map["weeks_pregnant" := Num(0), "current_week" := Num(0)]
  {
    assert RuleOf("pregnancy-weeks") == PregnancyWeeks;
  }

  /** A status without "pregnan" clears both week columns, one without "plan"
      clears the planning window; the status itself is the trimmed text or
      null. */
  lemma StatusUpdatesShape(status: Json)
    ensures var u := PregnancyStatusUpdates(status);
      && u["pregnancy_status"] == status
      && ("weeks_pregnant" in u <==> !ContainsWord(status, "pregnan"))
      && ("current_week" in u <==> !ContainsWord(status, "pregnan"))
      && ("planning_window" in u <==> !ContainsWord(status, "plan"))
      && (forall k :: k in u && k != "pregnancy_status" ==> u[k] == Null)
      && u.Keys <= {"pregnancy_status", "weeks_pregnant", "current_week", "planning_window"}
  {
  }

  lemma PregnancyStatusClearing(response: Json)
    requires !IsNullish(response)
    ensures var u := BuildProfileUpdates("pregnancy-status", response);
      var status := OrNull(NormaliseString(response));
      && u["pregnancy_status"] == status
      && ("weeks_pregnant" in u <==> !ContainsWord(status, "pregnan"))
      && ("current_week" in u <==> !ContainsWord(status, "pregnan"))
      && ("planning_window" in u <==> !ContainsWord(status, "plan"))
      && (forall k :: k in u && k != "pregnancy_status" ==> u[k] == Null)
      && u.Keys <= {"pregnancy_status", "weeks_pregnant", "current_week", "planning_window"}
  {
    assert RuleOf("pregnancy-status") == PregnancyStatus;
    StatusUpdatesShape(OrNull(NormaliseString(response)));
  }

  /** A "None" selection, in any letter case, wins over every other one. */
  lemma MedicalConditionsNoneWins(response: Json)
    requires !IsNullish(response)
    requires MentionsNone(Selections(response))
    ensures BuildProfileUpdates("medical-conditions", response) == map["medical_conditions" := Arr([Str("None")])]
  {
    assert RuleOf("medical-conditions") == MedicalConditionsRule;
  }

  /** In a list answer, one text entry that trims to "none" (any case) is
      enough for the whole answer to be stored as `['None']`. */
  lemma MedicalConditionsNoneEntry(items: seq<Json>, i: int)
    requires 0 <= i < |items| && items[i].Str? && ToLower(Trim(items[i].s)) == "none"
    ensures BuildProfileUpdates("medical-conditions", Arr(items)) == map["medical_conditions" := Arr([Str("None")])]
  {
    var trimmed := TrimEntries(items);
    assert trimmed[i] == Str(Trim(items[i].s));
    assert Truthy(trimmed[i]);
    assert trimmed[i] in trimmed;
    var sel := Selections(Arr(items));
    assert trimmed[i] in sel;
    var k :| 0 <= k < |sel| && sel[k] == trimmed[i];
    assert ToStr(sel[k]) == Trim(items[i].s);
    assert MentionsNone(sel);
    MedicalConditionsNoneWins(Arr(items));
  }

  /** Without "None", the stored list holds only non-empty values, no value
      twice, each one an unwrapped selection, and every non-empty unwrapped
      selection; an empty result is stored as null. */
  lemma MedicalConditionsCleaned(response: Json)
    requires !MentionsNone(Selections(response))
    ensures var v := MedicalConditions(response);
      var selections := Selections(response);
      && (v.Null? || (v.Arr? && |v.items| > 0))
      && (v.Arr? ==> forall i :: 0 <= i < |v.items| ==> Truthy(v.items[i]))
      && (v.Arr? ==> forall i, j :: 0 <= i < j < |v.items| ==> !SameValueZero(v.items[i], v.items[j]))
      && (v.Arr? ==> forall x :: x in v.items ==> exists k :: 0 <= k < |selections| && x == StripCustomPrefix(selections[k]))
      && (v.Arr? ==> forall k :: 0 <= k < |selections| && Truthy(StripCustomPrefix(selections[k])) ==> StripCustomPrefix(selections[k]) in v.items)
      && (v.Null? <==> forall k :: 0 <= k < |selections| ==> !Truthy(StripCustomPrefix(selections[k])))
  {
    var selections := Selections(response);
    var stripped := StripEntries(selections);
    var cleaned := TruthyOnly(stripped);
    UniqueSpec(cleaned);
    var unique := Unique(cleaned);
    assert MedicalConditions(response) == if |unique| > 0 then Arr(unique) else Null;
    forall x | x in unique
      ensures Truthy(x) && exists k :: 0 <= k < |selections| && x == StripCustomPrefix(selections[k])
    {
      assert x in cleaned;
      var k :| 0 <= k < |stripped| && stripped[k] == x;
    }
    forall k | 0 <= k < |selections| && Truthy(StripCustomPrefix(selections[k]))
      ensures StripCustomPrefix(selections[k]) in unique
    {
      assert stripped[k] in stripped;
    }
    if !forall k :: 0 <= k < |selections| ==> !Truthy(StripCustomPrefix(selections[k])) {
      var k :| 0 <= k < |selections| && Truthy(StripCustomPrefix(selections[k]));
      assert stripped[k] in unique;
    }
  }

  /** Without "None", the stored list is the first occurrence of each
      unwrapped, non-empty selection, in the order chosen, or null when there
      is none. */
  lemma MedicalConditionsInOrder(response: Json)
    requires !MentionsNone(Selections(response))
    ensures var cleaned := FirstOccurrences(TruthyOnly(StripEntries(Selections(response))));
      MedicalConditions(response) == if cleaned != [] then Arr(cleaned) else Null
  {
    UniqueIsFirstOccurrences(TruthyOnly(StripEntries(Selections(response))));
  }

  /** medical-conditions sets only its own column. */
  lemma MedicalConditionsOneColumn(response: Json)
    requires !IsNullish(response)
    ensures BuildProfileUpdates("medical-conditions", response) == map["medical_conditions" := MedicalConditions(response)]
  {
    assert RuleOf("medical-conditions") == MedicalConditionsRule;
  }

  /** emergency-contact wraps the trimmed text in `{ raw: ... }`. */
  lemma EmergencyContactShape(text: string)
    ensures var u := BuildProfileUpdates("emergency-contact", Str(text));
      u == map["emergency_contact" := if Trim(text) == "" then Null else Obj([("raw", Str(Trim(text)))])]
  {
    assert RuleOf("emergency-contact") == EmergencyContact;
    EmergencyContactRule("emergency-contact", text);
  }

  lemma EmergencyContactRule(slug: string, text: string)
    requires RuleOf(slug) == EmergencyContact
    ensures var u := BuildProfileUpdates(slug, Str(text));
      u == map["emergency_contact" := if Trim(text) == "" then Null else Obj([("raw", Str(Trim(text)))])]
  {
  }
}
