/** The daily health check form: the symptom list that the symptom buttons
    toggle and the custom-symptom box extends, the per-field edits, and the
    body the form submits. */
module DailyHealthCheck {
  import opened JsValues

  /** `xs.filter(s => s !== symptom)` */
  function Without(xs: seq<string>, symptom: string): (r: seq<string>)
    ensures |r| <= |xs|
  {
    if xs == [] then []
    else (if xs[0] == symptom then [] else [xs[0]]) + Without(xs[1..], symptom)
  }

  /** The filter keeps exactly the other symptoms, and leaves a list without
      the symptom as it is. */
  lemma {:induction false} WithoutSpec(xs: seq<string>, symptom: string)
    ensures forall x :: x in Without(xs, symptom) <==> x in xs && x != symptom
    ensures symptom !in xs ==> Without(xs, symptom) == xs
  {
    if xs != [] {
      WithoutSpec(xs[1..], symptom);
      assert xs == [xs[0]] + xs[1..];
    }
  }

  /** Filtering distributes over concatenation, so it keeps the order of
      what it leaves. */
  lemma {:induction false} WithoutAppend(xs: seq<string>, ys: seq<string>, symptom: string)
    ensures Without(xs + ys, symptom) == Without(xs, symptom) + Without(ys, symptom)
  {
    if xs == [] {
      assert xs + ys == ys;
    } else {
      assert (xs + ys)[1..] == xs[1..] + ys;
      WithoutAppend(xs[1..], ys, symptom);
    }
  }

  /** `handleSymptomToggle`: a listed symptom is removed, every occurrence
      of it; another is appended. */
  function Toggled(xs: seq<string>, symptom: string): (r: seq<string>)
    ensures symptom in xs ==> symptom !in r && forall x :: x != symptom ==> (x in r <==> x in xs)
    ensures symptom !in xs ==> r == xs + [symptom]
  {
    WithoutSpec(xs, symptom);
    if symptom in xs then Without(xs, symptom) else xs + [symptom]
  }

  /** Toggling an absent symptom twice gives back the list it started from. */
  lemma ToggleTwiceRestores(xs: seq<string>, symptom: string)
    requires symptom !in xs
    ensures Toggled(Toggled(xs, symptom), symptom) == xs
  {
    WithoutAppend(xs, [symptom], symptom);
    WithoutSpec(xs, symptom);
    assert Without([symptom], symptom) == [];
    assert xs + [] == xs;
  }

  /** Toggling a listed symptom twice moves it, once, to the end. */
  lemma ToggleTwiceMovesToEnd(xs: seq<string>, symptom: string)
    requires symptom in xs
    ensures Toggled(Toggled(xs, symptom), symptom) == Without(xs, symptom) + [symptom]
  {
  }

  predicate NoDuplicates(xs: seq<string>)
  {
    forall i, j :: 0 <= i < j < |xs| ==> xs[i] != xs[j]
  }

  lemma {:induction false} WithoutKeepsNoDuplicates(xs: seq<string>, symptom: string)
    requires NoDuplicates(xs)
    ensures NoDuplicates(Without(xs, symptom))
  {
    if xs != [] {
      assert NoDuplicates(xs[1..]) by {
        forall i, j | 0 <= i < j < |xs[1..]| ensures xs[1..][i] != xs[1..][j] {
          assert xs[1..][i] == xs[i + 1] && xs[1..][j] == xs[j + 1];
        }
      }
      WithoutKeepsNoDuplicates(xs[1..], symptom);
      WithoutSpec(xs[1..], symptom);
      assert xs[0] !in xs[1..] by {
        forall k | 0 <= k < |xs[1..]| ensures xs[1..][k] != xs[0] {
          assert xs[1..][k] == xs[k + 1];
        }
      }
    }
  }

  lemma AppendKeepsNoDuplicates(xs: seq<string>, x: string)
    requires NoDuplicates(xs) && x !in xs
    ensures NoDuplicates(xs + [x])
  {
    forall i, j | 0 <= i < j < |xs + [x]| ensures (xs + [x])[i] != (xs + [x])[j] {
      if j == |xs| {
        assert (xs + [x])[i] == xs[i];
      }
    }
  }

  /** A duplicate-free symptom list stays duplicate-free under a toggle. */
  lemma ToggleKeepsNoDuplicates(xs: seq<string>, symptom: string)
    requires NoDuplicates(xs)
    ensures NoDuplicates(Toggled(xs, symptom))
  {
    if symptom in xs {
      WithoutKeepsNoDuplicates(xs, symptom);
    } else {
      AppendKeepsNoDuplicates(xs, symptom);
    }
  }

  /** Whether `handleAddCustomSymptom` adds the typed text. */
  predicate Addable(xs: seq<string>, typed: string)
  {
    Trim(typed) != "" && Trim(typed) !in xs
  }

  /** The form's state: `healthData` and `customSymptom`. The measurement
      fields hold the text typed into their inputs. */
  class HealthCheckForm {
    var systolic: string
    var diastolic: string
    var weight: string
    var symptoms: seq<string>
    var symptomNotes: string
    var mood: string
    var customSymptom: string

    /** The initial state: every text empty and no symptom. */
    constructor()
      ensures systolic == "" && diastolic == "" && weight == "" && symptoms == []
      ensures symptomNotes == "" && mood == "" && customSymptom == ""
    {
      systolic := "";
      diastolic := "";
      weight := "";
      symptoms := [];
      symptomNotes := "";
      mood := "";
      customSymptom := "";
    }

    /** `handleSymptomToggle` */
    method ToggleSymptom(symptom: string)
      modifies this
      ensures symptoms == Toggled(old(symptoms), symptom)
      ensures systolic == old(systolic) && diastolic == old(diastolic) && weight == old(weight)
      ensures symptomNotes == old(symptomNotes) && mood == old(mood) && customSymptom == old(customSymptom)
      ensures NoDuplicates(old(symptoms)) ==> NoDuplicates(symptoms)
    {
      if NoDuplicates(symptoms) {
        ToggleKeepsNoDuplicates(symptoms, symptom);
      }
      symptoms := Toggled(symptoms, symptom);
    }

    /** `handleAddCustomSymptom`: the trimmed text is appended and the box
        cleared when it is non-empty and not yet listed; otherwise nothing
        changes. */
    method AddCustomSymptom()
      modifies this
      ensures Addable(old(symptoms), old(customSymptom)) ==>
        symptoms == old(symptoms) + [Trim(old(customSymptom))] && customSymptom == ""
      ensures !Addable(old(symptoms), old(customSymptom)) ==>
        symptoms == old(symptoms) && customSymptom == old(customSymptom)
      ensures systolic == old(systolic) && diastolic == old(diastolic) && weight == old(weight)
      ensures symptomNotes == old(symptomNotes) && mood == old(mood)
      ensures NoDuplicates(old(symptoms)) ==> NoDuplicates(symptoms)
    {
      var text := Trim(customSymptom);
      if text != "" && text !in symptoms {
        if NoDuplicates(symptoms) {
          AppendKeepsNoDuplicates(symptoms, text);
        }
        symptoms := symptoms + [text];
        customSymptom := "";
      }
    }

    /** A mood button. */
    method SetMood(choice: string)
      modifies this
      ensures mood == choice
      ensures systolic == old(systolic) && diastolic == old(diastolic) && weight == old(weight)
      ensures symptoms == old(symptoms) && symptomNotes == old(symptomNotes) && customSymptom == old(customSymptom)
    {
      mood := choice;
    }

    /** The systolic input. */
    method SetSystolic(text: string)
      modifies this
      ensures systolic == text
      ensures diastolic == old(diastolic) && weight == old(weight) && mood == old(mood)
      ensures symptoms == old(symptoms) && symptomNotes == old(symptomNotes) && customSymptom == old(customSymptom)
    {
      systolic := text;
    }

    /** The diastolic input. */
    method SetDiastolic(text: string)
      modifies this
      ensures diastolic == text
      ensures systolic == old(systolic) && weight == old(weight) && mood == old(mood)
      ensures symptoms == old(symptoms) && symptomNotes == old(symptomNotes) && customSymptom == old(customSymptom)
    {
      diastolic := text;
    }

    /** The weight input. */
    method SetWeight(text: string)
      modifies this
      ensures weight == text
      ensures systolic == old(systolic) && diastolic == old(diastolic) && mood == old(mood)
      ensures symptoms == old(symptoms) && symptomNotes == old(symptomNotes) && customSymptom == old(customSymptom)
    {
      weight := text;
    }

    /** The notes box. */
    method SetNotes(text: string)
      modifies this
      ensures symptomNotes == text
      ensures systolic == old(systolic) && diastolic == old(diastolic) && weight == old(weight)
      ensures symptoms == old(symptoms) && mood == old(mood) && customSymptom == old(customSymptom)
    {
      symptomNotes := text;
    }

    /** The custom-symptom box. */
    method SetCustomSymptom(text: string)
      modifies this
      ensures customSymptom == text
      ensures systolic == old(systolic) && diastolic == old(diastolic) && weight == old(weight)
      ensures symptoms == old(symptoms) && symptomNotes == old(symptomNotes) && mood == old(mood)
    {
      customSymptom := text;
    }

    /** The body `handleSubmit` posts; `parsedWeight` is what `parseFloat`
        makes of the weight text. */
    function SubmitBody(parsedWeight: Json): (body: Json)
      reads this
      ensures body.Obj? && |body.fields| == 6
    {
      var listed := symptoms;
      Obj([("blood_pressure_systolic", Measurement(systolic)),
           ("blood_pressure_diastolic", Measurement(diastolic)),
           ("weight_kg", if weight != "" then parsedWeight else Null),
           ("symptoms", Arr(seq(|listed|, i requires 0 <= i < |listed| => Str(listed[i])))),
           ("symptom_notes", Str(symptomNotes)),
           ("mood", Str(mood))])
    }
  }

  /** `text ? parseInt(text) : null` as `JSON.stringify` writes it: a NaN
      becomes null too. */
  function Measurement(text: string): (r: Json)
    ensures text == "" ==> r == Null
    ensures r.Num? <==> text != "" && ParseInt(text).Some?
    ensures r.Num? ==> r == Num(ParseInt(text).value)
  {
    if text == "" then Null
    else match ParseInt(text)
      case None => Null
      case Some(n) => Num(n)
  }

  /** Reading the measurement members of a body with the fields in the
      order `handleSubmit` writes them. */
  lemma BodyMeasurementsRead(systolic: Json, diastolic: Json, weight: Json, symptoms: Json, notes: Json, mood: Json)
    ensures var fields := [("blood_pressure_systolic", systolic), ("blood_pressure_diastolic", diastolic),
                           ("weight_kg", weight), ("symptoms", symptoms), ("symptom_notes", notes), ("mood", mood)];
      && Get(fields, "blood_pressure_systolic") == systolic
      && Get(fields, "blood_pressure_diastolic") == diastolic
      && Get(fields, "weight_kg") == weight
  {
    var fields := [("blood_pressure_systolic", systolic), ("blood_pressure_diastolic", diastolic),
                   ("weight_kg", weight), ("symptoms", symptoms), ("symptom_notes", notes), ("mood", mood)];
    assert "weight_kg"[0] != "symptoms"[0] && "weight_kg"[0] != "symptom_notes"[0] && "weight_kg"[0] != "mood"[0];
    GetMember(fields, 2, "weight_kg");
    assert "blood_pressure_diastolic"[0] != "weight_kg"[0] && "blood_pressure_diastolic"[0] != "symptoms"[0];
    assert "blood_pressure_diastolic"[0] != "symptom_notes"[0] && "blood_pressure_diastolic"[0] != "mood"[0];
    GetMember(fields, 1, "blood_pressure_diastolic");
    assert "blood_pressure_systolic"[15] != "blood_pressure_diastolic"[15];
    assert "blood_pressure_systolic"[0] != "weight_kg"[0] && "blood_pressure_systolic"[0] != "symptoms"[0];
    assert "blood_pressure_systolic"[0] != "symptom_notes"[0] && "blood_pressure_systolic"[0] != "mood"[0];
    GetMember(fields, 0, "blood_pressure_systolic");
  }

  /** Blank blood-pressure and weight fields are submitted as null, and a
      typed blood pressure as the number `parseInt` reads, null when it
      reads none. */
  lemma BlankFieldsSubmitNull(form: HealthCheckForm, parsedWeight: Json)
    ensures var body := form.SubmitBody(parsedWeight);
      && Get(body.fields, "blood_pressure_systolic") == Measurement(form.systolic)
      && Get(body.fields, "blood_pressure_diastolic") == Measurement(form.diastolic)
      && Get(body.fields, "weight_kg") == (if form.weight == "" then Null else parsedWeight)
    ensures form.systolic == "" ==> Get(form.SubmitBody(parsedWeight).fields, "blood_pressure_systolic") == Null
    ensures form.diastolic == "" ==> Get(form.SubmitBody(parsedWeight).fields, "blood_pressure_diastolic") == Null
    ensures form.weight == "" ==> Get(form.SubmitBody(parsedWeight).fields, "weight_kg") == Null
  {
    var listed := form.symptoms;
    BodyMeasurementsRead(Measurement(form.systolic), Measurement(form.diastolic),
                         if form.weight != "" then parsedWeight else Null,
                         Arr(seq(|listed|, i requires 0 <= i < |listed| => Str(listed[i]))),
                         Str(form.symptomNotes), Str(form.mood));
  }

}
