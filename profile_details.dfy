/** How the profile page renders one stored profile value. */
module ProfileDetails {
  import opened JsValues
  import opened OnboardingProjector

  const NotProvided := "Not provided yet"

  /** `formatValue`: the rendered form of a value, which is text, the value
      itself, or the `raw` member of an object. */
  function FormatValue(value: Json): (r: Json)
    ensures r.Str? || r == value || (value.Obj? && r == Get(value.fields, "raw"))
    ensures r == Str("") ==> value.Arr? || (value.Obj? && !Truthy(Get(value.fields, "raw")))
    ensures value.Str? && value.s != "" ==> r == value
  {
    if IsNullish(value) || value == Str("") then Str(NotProvided)
    else if value.Bool? then Str(if value.b then "Yes" else "No")
    else if value.Arr? then
      (if |value.items| > 0 then Str(JoinValues(value.items, ", ")) else Str(NotProvided))
    else if value.Obj? then
      var raw := Get(value.fields, "raw");
      if Truthy(raw) then raw else Str(Stringify(value))
    else value
  }

  /** null, undefined, '' and the empty list show the placeholder. */
  lemma MissingShowsPlaceholder(value: Json)
    requires IsNullish(value) || value == Str("") || value == Arr([])
    ensures FormatValue(value) == Str(NotProvided)
  {
  }

  /** Conversely the placeholder shows only for those values, or for a value
      whose own text is the placeholder: an object without `raw` never
      does, since its JSON text starts with a brace. */
  lemma PlaceholderOnlyForMissing(value: Json)
    requires FormatValue(value) == Str(NotProvided)
    ensures || IsNullish(value) || value == Str("") || value == Arr([])
            || value == Str(NotProvided)
            || (value.Arr? && JoinValues(value.items, ", ") == NotProvided)
            || (value.Obj? && Get(value.fields, "raw") == Str(NotProvided))
  {
    if value.Obj? && !Truthy(Get(value.fields, "raw")) {
      assert Stringify(value)[0] == '{';
      assert NotProvided[0] == 'N';
    }
  }

  /** Booleans read as Yes or No; false is an answer, not a missing value. */
  lemma BooleansReadAsWords(b: bool)
    ensures FormatValue(Bool(b)) == Str(if b then "Yes" else "No")
    ensures FormatValue(Bool(b)) != Str(NotProvided)
  {
  }

  /** Numbers, 0 included, are shown as they are. */
  lemma NumbersAreKept(n: int)
    ensures FormatValue(Num(n)) == Num(n)
  {
  }

  /** A non-empty list shows its elements joined with a comma and a space. */
  lemma ListsAreJoined(items: seq<Json>)
    requires items != []
    ensures FormatValue(Arr(items)) == Str(JoinValues(items, ", "))
  {
  }

  /** An object without a truthy `raw` shows as its JSON text. */
  lemma OtherObjectsShowJson(fields: seq<(string, Json)>)
    requires !Truthy(Get(fields, "raw"))
    ensures FormatValue(Obj(fields)) == Str(Stringify(Obj(fields)))
    ensures FormatValue(Obj(fields)).s[0] == '{'
  {
  }

  /** The emergency contact stored by the onboarding flow shows as the text
      the user typed, trimmed; a blank answer was stored as null and shows
      the placeholder. */
  lemma EmergencyContactShowsTypedText(text: string)
    ensures var stored := Col(BuildProfileUpdates("emergency-contact", Str(text)), "emergency_contact");
      FormatValue(stored) == Str(if Trim(text) == "" then NotProvided else Trim(text))
  {
    EmergencyContactShape(text);
  }
}
