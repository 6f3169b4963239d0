/** The baby insights page: the developmental milestone and the size
    comparison shown for the current pregnancy week. */
module BabyInsights {
  import opened JsValues

  /** The milestone weeks, ascending: the keys of the milestone table, as
      `Object.keys(...).map(Number).sort(...)` lists them. */
  const MilestoneWeeks: seq<int> := seq(10, j => 4 * (j + 1))

  /** The milestone texts, in the order of `MilestoneWeeks`. */
  const MilestoneTexts: seq<string> :=
    [
     "The neural tube is forming, which will become the brain and spinal cord.",
     "Tiny fingers and toes are developing. The heart is beating about 150-170 times per minute.",
     "Baby can make sucking motions and is developing reflexes.",
     "Baby can hear your voice and may start responding to sounds.",
     "You might feel the first flutters of movement. Baby is developing sleep-wake cycles.",
     "Baby's lungs are developing rapidly. Eyelids can open and close.",
     "Baby can recognize your voice. Brain development is accelerating.",
     "Baby is practicing breathing movements and developing fat layers.",
     "Baby is getting into position for birth. Organs are nearly fully developed.",
     "Baby is ready to meet you! All systems are go for delivery."
    ]

  predicate IsMilestoneWeek(key: int)
  {
    4 <= key <= 40 && key % 4 == 0
  }

  /** The table entry of a milestone week. */
  function MilestoneText(key: int): string
    requires IsMilestoneWeek(key)
  {
    MilestoneTexts[key / 4 - 1]
  }

  /** Which entry a week gets, worked out arithmetically: the week rounded
      down to a multiple of 4, kept within 4..40; a week that is not a
      number (NaN) compares false against every key and gets week 4. */
  function MilestoneKey(week: Option<int>): (k: int)
    ensures IsMilestoneWeek(k)
  {
    if week.None? || week.value < 4 then 4
    else if week.value >= 40 then 40
    else week.value - week.value % 4
  }

  /** `getMilestone`: the descending search over the sorted keys, with the
      week-4 text when no key is at most the week. `week >= key` compares
      `Number(week)` with the key. */
  method GetMilestone(week: Json) returns (text: string)
    ensures text == MilestoneText(MilestoneKey(ToNumber(week)))
  {
    var key := FindMilestoneWeek(week);
    text := MilestoneText(key);
  }

  /** The loop of `getMilestone`: the key whose entry it returns. */
  method FindMilestoneWeek(week: Json) returns (key: int)
    ensures IsMilestoneWeek(key) && key == MilestoneKey(ToNumber(week))
  {
    var milestones := MilestoneWeeks;
    var n := ToNumber(week);
    var i := |milestones| - 1;
    while i >= 0
      invariant -1 <= i < |milestones|
      invariant forall j :: i < j < |milestones| ==> !(n.Some? && n.value >= milestones[j])
    {
      if n.Some? && n.value >= milestones[i] {
        assert i + 1 < |milestones| ==> n.value < milestones[i + 1];
        return milestones[i];
      }
      i := i - 1;
    }
    assert n.Some? ==> n.value < milestones[0];
    return 4;
  }

  /** The key chosen is the largest milestone week not above the week; below
      week 4 (or for a non-number) it is week 4. */
  lemma MilestoneKeyIsLargest(week: int)
    ensures MilestoneKey(Some(week)) in MilestoneWeeks
    ensures week >= 4 ==> MilestoneKey(Some(week)) <= week
    ensures week >= 4 ==> forall j :: 0 <= j < |MilestoneWeeks| && MilestoneWeeks[j] <= week ==> MilestoneWeeks[j] <= MilestoneKey(Some(week))
    ensures week < 4 ==> MilestoneKey(Some(week)) == 4
  {
    var k := MilestoneKey(Some(week));
    assert MilestoneWeeks[k / 4 - 1] == k;
  }

  /** The milestone shown is always one of the ten entries. */
  lemma MilestoneIsAnEntry(week: Option<int>)
    ensures exists j :: 0 <= j < |MilestoneTexts| && MilestoneText(MilestoneKey(week)) == MilestoneTexts[j]
  {
    var k := MilestoneKey(week);
    assert MilestoneText(k) == MilestoneTexts[k / 4 - 1];
  }

  /** Every week from one key up to the next gets the same entry. */
  lemma MilestoneConstantBetweenKeys(j: int, week: int)
    requires 0 <= j < |MilestoneWeeks|
    requires MilestoneWeeks[j] <= week
    requires j + 1 < |MilestoneWeeks| ==> week < MilestoneWeeks[j + 1]
    ensures MilestoneKey(Some(week)) == MilestoneWeeks[j]
    ensures MilestoneText(MilestoneKey(Some(week))) == MilestoneTexts[j]
  {
  }

  /** An entry of the size comparison table (the emoji is not modelled). */
  datatype Size = Size(item: string, size: string)

  /** The size comparisons of weeks 4 to 40, in week order. */
  const SizeComparisons: seq<Size> :=
    [
     Size("Poppy seed", "2mm"),
     Size("Sesame seed", "3mm"),
     Size("Lentil", "5mm"),
     Size("Blueberry", "10mm"),
     Size("Raspberry", "16mm"),
     Size("Cherry", "23mm"),
     Size("Strawberry", "31mm"),
     Size("Fig", "41mm"),
     Size("Plum", "54mm"),
     Size("Lemon", "74mm"),
     Size("Peach", "87mm"),
     Size("Apple", "10cm"),
     Size("Avocado", "12cm"),
     Size("Pear", "13cm"),
     Size("Bell pepper", "14cm"),
     Size("Mango", "15cm"),
     Size("Banana", "16cm"),
     Size("Carrot", "27cm"),
     Size("Papaya", "28cm"),
     Size("Grapefruit", "29cm"),
     Size("Cantaloupe", "30cm"),
     Size("Cauliflower", "34cm"),
     Size("Lettuce head", "35cm"),
     Size("Cabbage", "36cm"),
     Size("Eggplant", "37cm"),
     Size("Butternut squash", "38cm"),
     Size("Cucumber", "40cm"),
     Size("Coconut", "41cm"),
     Size("Jicama", "42cm"),
     Size("Pineapple", "44cm"),
     Size("Honeydew melon", "45cm"),
     Size("Honeydew melon", "46cm"),
     Size("Romaine lettuce", "47cm"),
     Size("Swiss chard", "48cm"),
     Size("Leek", "49cm"),
     Size("Mini watermelon", "50cm"),
     Size("Small pumpkin", "51cm")
    ]

  /** The table week an index `obj[week]` hits: the property key is
      `String(week)`, which names an entry only when it is the decimal text
      of a week from 4 to 40. */
  function SizeKey(week: Json): (k: Option<int>)
    ensures k.Some? ==> 4 <= k.value <= 40 && ToStr(week) == IntToString(k.value)
  {
    var n := StringToNumber(ToStr(week));
    if n.Some? && 4 <= n.value <= 40 && IntToString(n.value) == ToStr(week) then n else None
  }

  function SizeFor(currentWeek: Json): Size
  {
    if Truthy(currentWeek) && SizeKey(currentWeek).Some? then SizeComparisons[SizeKey(currentWeek).value - 4]
    else SizeComparisons[20 - 4]
  }

  lemma KeyTextIsDigits(k: int)
    requires k >= 4
    ensures IntToString(k) != "" && IsDigit(IntToString(k)[0])
  {
  }

  /** A week whose text is the decimal text of a table week gets that week's
      entry. */
  lemma SizeForKey(week: Json, k: int)
    requires 4 <= k <= 40 && ToStr(week) == IntToString(k)
    ensures SizeFor(week) == SizeComparisons[k - 4]
  {
    KeyOfText(week, k);
  }

  /** The decimal text of a table week names that week, and only a truthy
      value has it. */
  lemma KeyOfText(week: Json, k: int)
    requires 4 <= k <= 40 && ToStr(week) == IntToString(k)
    ensures SizeKey(week) == Some(k) && Truthy(week)
  {
    NumberOfIntToString(k);
    KeyTextIsDigits(k);
    if week.Num? {
      NumberOfIntToString(week.n);
    }
  }

  /** Any other week, or none, gets the week-20 entry. */
  lemma SizeForOther(week: Json)
    requires forall k :: 4 <= k <= 40 ==> ToStr(week) != IntToString(k)
    ensures SizeFor(week) == SizeComparisons[20 - 4]
    ensures SizeFor(week) == SizeFor(Num(20))
  {
    SizeForKey(Num(20), 20);
  }

  /** For a numeric week: the week's own entry from 4 to 40, week 20's
      entry otherwise. */
  lemma SizeForNumber(n: int)
    ensures 4 <= n <= 40 ==> SizeFor(Num(n)) == SizeComparisons[n - 4]
    ensures !(4 <= n <= 40) ==> SizeFor(Num(n)) == SizeComparisons[20 - 4]
  {
    if 4 <= n <= 40 {
      SizeForKey(Num(n), n);
    } else {
      forall k | 4 <= k <= 40 ensures ToStr(Num(n)) != IntToString(k) {
        NumberOfIntToString(k);
        NumberOfIntToString(n);
      }
      SizeForOther(Num(n));
    }
  }

  /** `current_week || weeks_pregnant` of the profile summary. */
  function CurrentWeek(summary: Option<Row>): (w: Json)
  {
    if summary.None? then Undefined
    else Or(Col(summary.value, "current_week"), Col(summary.value, "weeks_pregnant"))
  }

  /** The synced week wins over the onboarding answer when it is set. */
  lemma CurrentWeekPrefersSynced(summary: Row)
    ensures Truthy(Col(summary, "current_week")) ==> CurrentWeek(Some(summary)) == Col(summary, "current_week")
    ensures !Truthy(Col(summary, "current_week")) ==> CurrentWeek(Some(summary)) == Col(summary, "weeks_pregnant")
    ensures Truthy(CurrentWeek(Some(summary))) <==> Truthy(Col(summary, "current_week")) || Truthy(Col(summary, "weeks_pregnant"))
  {
  }

  /** The milestone line: '' without a week, the week's milestone otherwise. */
  method MilestoneLine(currentWeek: Json) returns (text: string)
    ensures !Truthy(currentWeek) ==> text == ""
    ensures Truthy(currentWeek) ==> text == MilestoneText(MilestoneKey(ToNumber(currentWeek))) && text != ""
  {
    if Truthy(currentWeek) {
      text := GetMilestone(currentWeek);
      MilestoneTextsAreNotEmpty(MilestoneKey(ToNumber(currentWeek)));
    } else {
      text := "";
    }
  }

  lemma MilestoneTextsAreNotEmpty(key: int)
    requires IsMilestoneWeek(key)
    ensures MilestoneText(key) != ""
  {
  }
}
