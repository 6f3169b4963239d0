/** The selection logic of the question card: how a multi-select answer
    changes when an option is toggled or the custom condition text is edited,
    and when the "Answer later" button is shown. */
module QuestionCard {
  import opened JsValues
  import opened OnboardingQuestions

  const CustomPrefix := "Custom: "

  /** `typeof item === 'string' && item.startsWith('Custom: ')` */
  predicate IsCustomText(item: Json)
  {
    item.Str? && StartsWith(item.s, CustomPrefix)
  }

  /** `String(item).startsWith('Custom: ')` */
  predicate ReadsAsCustom(item: Json)
  {
    StartsWith(ToStr(item), CustomPrefix)
  }

  /** `Array.isArray(value) ? value : []` */
  function SelectionsOf(value: Json): seq<Json>
  {
    if value.Arr? then value.items else []
  }

  /** The first custom entry's text, or "" when there is none. */
  function CustomEntry(selections: seq<Json>): (r: string)
    ensures r != "" ==> exists i :: 0 <= i < |selections| && IsCustomText(selections[i]) && selections[i].s == r
                                    && forall k :: 0 <= k < i ==> !IsCustomText(selections[k])
    ensures (exists i :: 0 <= i < |selections| && IsCustomText(selections[i])) ==> StartsWith(r, CustomPrefix)
  {
    if selections == [] then ""
    else if IsCustomText(selections[0]) then selections[0].s
    else
      var r := CustomEntry(selections[1..]);
      assert forall i :: 1 <= i < |selections| ==> selections[i] == selections[1..][i - 1];
      r
  }

  /** `customEntry.replace(/^Custom:\s*\/i, '')` */
  function CustomValue(selections: seq<Json>): string
  {
    var entry := CustomEntry(selections);
    if StartsWith(ToLower(entry), "custom:") then TrimStart(entry[7..]) else entry
  }

  /** `selections.some(...)` for a custom entry. */
  predicate HasCustomEntry(selections: seq<Json>)
  {
    exists i :: 0 <= i < |selections| && IsCustomText(selections[i])
  }

  /** `xs.filter(item => item !== x)` */
  function Without(xs: seq<Json>, x: Json): (r: seq<Json>)
    ensures forall y :: y in r <==> y in xs && y != x
    ensures |r| <= |xs|
  {
    if xs == [] then []
    else (if xs[0] != x then [xs[0]] else []) + Without(xs[1..], x)
  }

  /** `xs.filter(item => !String(item).startsWith('Custom: '))` */
  function WithoutCustom(xs: seq<Json>): (r: seq<Json>)
    ensures forall y :: y in r <==> y in xs && !ReadsAsCustom(y)
  {
    if xs == [] then []
    else (if !ReadsAsCustom(xs[0]) then [xs[0]] else []) + WithoutCustom(xs[1..])
  }

  /** The selections `toggleOption` starts from: custom entries dropped on the
      medical-conditions question, and "None" dropped. */
  function Kept(selections: seq<Json>, isMedical: bool): (r: seq<Json>)
    ensures forall y :: y in r <==> y in selections && y != Str("None") && !(isMedical && ReadsAsCustom(y))
  {
    Without(if isMedical then WithoutCustom(selections) else selections, Str("None"))
  }

  /** The custom entry `toggleOption` puts back at the end. */
  function CustomTail(selections: seq<Json>): seq<Json>
  {
    var v := CustomValue(selections);
    if v != "" then [Str(CustomPrefix + v)] else []
  }

  /** The selection after `toggleOption(option)`. */
  function Toggle(value: Json, option: string, isMedical: bool): seq<Json>
  {
    var selections := SelectionsOf(value);
    if option == "None" then [Str("None")]
    else
      var next := Kept(selections, isMedical);
      if isMedical && option == "Other" then
        if HasCustomEntry(selections) then next else next + [Str(CustomPrefix)]
      else
        var flipped := if Str(option) in next then Without(next, Str(option)) else next + [Str(option)];
        flipped + CustomTail(selections)
  }

  /** `toggleOption`, reassigning and pushing onto `next` as the handler does. */
  method ToggleOption(value: Json, option: string, isMedical: bool) returns (next: seq<Json>)
    ensures next == Toggle(value, option, isMedical)
  {
    var selections := SelectionsOf(value);
    if option == "None" {
      return [Str("None")];
    }
    next := Kept(selections, isMedical);
    var currentlySelected := Str(option) in next;
    if isMedical && option == "Other" {
      if !HasCustomEntry(selections) {
        next := next + [Str(CustomPrefix)];
      }
      return;
    }
    if currentlySelected {
      next := Without(next, Str(option));
    } else {
      next := next + [Str(option)];
    }
    var customValue := CustomValue(selections);
    if customValue != "" {
      next := next + [Str(CustomPrefix + customValue)];
    }
  }

  /** The selection after `handleCustomChange` with the typed text. */
  function CustomChange(value: Json, typed: string): seq<Json>
  {
    var text := Trim(typed);
    var base := WithoutCustom(SelectionsOf(value));
    if text == "" then base else Without(base, Str("None")) + [Str(CustomPrefix + text)]
  }

  /** `!question.isRequired && question.allowAnswerLater` */
  function ShowAnswerLater(q: Question): (r: bool)
    ensures r ==> !q.isRequired
    ensures r <==> !q.isRequired && q.allowAnswerLater
  {
    !q.isRequired && q.allowAnswerLater
  }

  // ---------------------------------------------------------------------
  // Properties
  // ---------------------------------------------------------------------

  /** "None" is exclusive: choosing it leaves exactly `['None']`. */
  lemma ToggleNoneIsExclusive(value: Json, isMedical: bool)
    ensures Toggle(value, "None", isMedical) == [Str("None")]
  {
  }

  lemma CustomValueIsNotNone(selections: seq<Json>)
    ensures CustomTail(selections) == [] || CustomTail(selections)[0] != Str("None")
  {
    if CustomValue(selections) != "" {
      assert (CustomPrefix + CustomValue(selections))[0] == 'C';
    }
  }

  /** Choosing any other option drops "None". */
  lemma ToggleOtherDropsNone(value: Json, option: string, isMedical: bool)
    requires option != "None"
    ensures Str("None") !in Toggle(value, option, isMedical)
  {
    var selections := SelectionsOf(value);
    var next := Kept(selections, isMedical);
    CustomValueIsNotNone(selections);
    if isMedical && option == "Other" {
      assert Str(CustomPrefix) != Str("None") by { assert CustomPrefix[0] != "None"[0]; }
    }
  }

  /** An ordinary option: not "None", not the custom toggle, and not itself
      custom text. */
  predicate Ordinary(option: string, isMedical: bool)
  {
    option != "None" && !(isMedical && option == "Other") && !StartsWith(option, CustomPrefix)
  }

  lemma CustomTailNotOption(selections: seq<Json>, option: string)
    requires !StartsWith(option, CustomPrefix)
    ensures Str(option) !in CustomTail(selections)
  {
    var v := CustomValue(selections);
    if v != "" {
      assert (CustomPrefix + v)[..|CustomPrefix|] == CustomPrefix;
    }
  }

  /** Toggling an ordinary option flips its membership and keeps every other
      ordinary item; an absent option goes right after the kept items, with
      at most the custom entry after it. */
  lemma ToggleFlipsOnlyTheOption(value: Json, option: string, isMedical: bool)
    requires Ordinary(option, isMedical)
    ensures var selections := SelectionsOf(value);
      var r := Toggle(value, option, isMedical);
      var kept := Kept(selections, isMedical);
      && (Str(option) in r <==> Str(option) !in selections)
      && (forall x :: x != Str(option) && x != Str("None") && !ReadsAsCustom(x) ==> (x in r <==> x in selections))
      && (Str(option) !in selections ==>
            && r[..|kept|] == kept && r[|kept|] == Str(option)
            && |r| == |kept| + 1 + |CustomTail(selections)|)
  {
    var selections := SelectionsOf(value);
    var kept := Kept(selections, isMedical);
    CustomTailNotOption(selections, option);
    assert ReadsAsCustom(Str(option)) <==> StartsWith(option, CustomPrefix);
    var r := Toggle(value, option, isMedical);
    forall x | x != Str(option) && x != Str("None") && !ReadsAsCustom(x)
      ensures x in r <==> x in selections
    {
      if x.Str? {
        assert !StartsWith(x.s, CustomPrefix);
        CustomTailOnlyCustom(selections, x);
      } else {
        CustomTailOnlyStrings(selections, x);
      }
    }
    if Str(option) !in selections {
      assert r == (kept + [Str(option)]) + CustomTail(selections);
    }
  }

  lemma CustomTailOnlyCustom(selections: seq<Json>, x: Json)
    requires x.Str? && !StartsWith(x.s, CustomPrefix)
    ensures x !in CustomTail(selections)
  {
    var v := CustomValue(selections);
    if v != "" {
      assert (CustomPrefix + v)[..|CustomPrefix|] == CustomPrefix;
    }
  }

  lemma CustomTailOnlyStrings(selections: seq<Json>, x: Json)
    requires !x.Str?
    ensures x !in CustomTail(selections)
  {
  }

  /** On the medical-conditions question a custom text survives toggling an
      ordinary option, as the single custom entry, at the end. */
  lemma ToggleKeepsCustomText(value: Json, option: string)
    requires Ordinary(option, true)
    requires CustomValue(SelectionsOf(value)) != ""
    ensures var r := Toggle(value, option, true);
      && r != [] && r[|r| - 1] == Str(CustomPrefix + CustomValue(SelectionsOf(value)))
      && forall i :: 0 <= i < |r| - 1 ==> !ReadsAsCustom(r[i])
  {
    var selections := SelectionsOf(value);
    var kept := Kept(selections, true);
    var next := if Str(option) in kept then Without(kept, Str(option)) else kept + [Str(option)];
    assert ReadsAsCustom(Str(option)) <==> StartsWith(option, CustomPrefix);
    assert forall y :: y in next ==> !ReadsAsCustom(y);
    var r := Toggle(value, option, true);
    assert r == next + [Str(CustomPrefix + CustomValue(selections))];
    forall i | 0 <= i < |r| - 1 ensures !ReadsAsCustom(r[i]) {
      assert r[i] == next[i];
      assert next[i] in next;
    }
  }

  /** On the medical-conditions question "Other" adds an empty custom
      placeholder when there is no custom entry, and removes the custom entry
      when there is one. */
  lemma ToggleOtherSwitchesCustom(value: Json)
    ensures var selections := SelectionsOf(value);
      var r := Toggle(value, "Other", true);
      && (!HasCustomEntry(selections) ==> r == Kept(selections, true) + [Str(CustomPrefix)])
      && (HasCustomEntry(selections) ==> forall y :: y in r ==> !ReadsAsCustom(y) && y in selections)
  {
  }

  /** Blank custom text removes every custom entry and keeps the rest in
      order; other text replaces them with one trimmed custom entry at the
      end and drops "None". */
  lemma CustomChangeSpec(value: Json, typed: string)
    ensures var selections := SelectionsOf(value);
      var r := CustomChange(value, typed);
      && (Trim(typed) == "" ==> r == WithoutCustom(selections) && forall y :: y in r <==> y in selections && !ReadsAsCustom(y))
      && (Trim(typed) != "" ==>
            && r != [] && r[|r| - 1] == Str(CustomPrefix + Trim(typed))
            && Str("None") !in r
            && forall i :: 0 <= i < |r| - 1 ==> !ReadsAsCustom(r[i]) && r[i] in selections)
  {
    var selections := SelectionsOf(value);
    var text := Trim(typed);
    if text != "" {
      var base := Without(WithoutCustom(selections), Str("None"));
      var r := CustomChange(value, typed);
      assert r == base + [Str(CustomPrefix + text)];
      assert (CustomPrefix + text)[0] != "None"[0];
      forall i | 0 <= i < |r| - 1 ensures !ReadsAsCustom(r[i]) && r[i] in selections {
        assert r[i] == base[i];
        assert base[i] in base;
      }
    }
  }
}
