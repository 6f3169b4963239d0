/** The progress page: the current week, the 40-week grid and its
    past/current/future classification, and which key milestones are
    reached. */
module Progress {
  import opened JsValues

  /** `current_week || weeks_pregnant || 0` of the profile summary. */
  function CurrentWeek(profile: Option<Row>): (w: Json)
    ensures Truthy(w) || w == Num(0)
  {
    if profile.None? then Num(0)
    else Or(Or(Col(profile.value, "current_week"), Col(profile.value, "weeks_pregnant")), Num(0))
  }

  /** `Array.from({ length: 40 }, (_, i) => i + 1)` */
  function Weeks(): (r: seq<int>)
    ensures |r| == 40
  {
    seq(40, i => i + 1)
  }

  /** The grid is weeks 1 to 40, each once, in order. */
  lemma WeeksAreOneToForty()
    ensures forall w :: w in Weeks() <==> 1 <= w <= 40
    ensures forall i, j :: 0 <= i < j < |Weeks()| ==> Weeks()[i] < Weeks()[j]
  {
    forall w | 1 <= w <= 40 ensures w in Weeks() {
      assert Weeks()[w - 1] == w;
    }
  }

  /** `week < currentWeek`: the comparison converts the week value with
      `Number()`; NaN compares false. */
  predicate IsPast(week: int, current: Json)
  {
    var n := ToNumber(current);
    n.Some? && week < n.value
  }

  /** `week === currentWeek`: strict equality, so only the number itself. */
  predicate IsCurrent(week: int, current: Json)
  {
    current == Num(week)
  }

  predicate IsFuture(week: int, current: Json)
  {
    var n := ToNumber(current);
    n.Some? && week > n.value
  }

  /** With a numeric current week every grid week is exactly one of past,
      current and future. */
  lemma ExactlyOnePhase(week: int, current: int)
    ensures IsPast(week, Num(current)) || IsCurrent(week, Num(current)) || IsFuture(week, Num(current))
    ensures !(IsPast(week, Num(current)) && IsCurrent(week, Num(current)))
    ensures !(IsPast(week, Num(current)) && IsFuture(week, Num(current)))
    ensures !(IsCurrent(week, Num(current)) && IsFuture(week, Num(current)))
  {
  }

  /** A week held as text is never current under strict equality, so its
      own grid cell is neither past, current nor future. */
  lemma TextWeekIsNeverCurrent(week: int, s: string)
    ensures !IsCurrent(week, Str(s))
    ensures StringToNumber(s) == Some(week) ==> !IsPast(week, Str(s)) && !IsFuture(week, Str(s))
  {
  }

  /** Past weeks are exactly those before the current one, so the past part
      of the grid is its first `current - 1` weeks. */
  lemma PastIsAPrefix(current: int)
    ensures forall i :: 0 <= i < |Weeks()| ==> (IsPast(Weeks()[i], Num(current)) <==> i + 1 < current)
  {
  }

  datatype Milestone = Milestone(week: int, title: string, desc: string)

  /** The key milestones listed on the page. */
  const KeyMilestones: seq<Milestone> :=
    [Milestone(12, "First Trimester Complete", "Major organs formed"),
     Milestone(20, "Halfway There!", "Baby can hear your voice"),
     Milestone(28, "Third Trimester", "Baby's eyes can open"),
     Milestone(37, "Full Term", "Baby is ready to meet you"),
     Milestone(40, "Due Date", "Welcome to the world!")]

  /** `currentWeek >= milestone.week` */
  predicate Reached(m: Milestone, current: Json)
  {
    var n := ToNumber(current);
    n.Some? && n.value >= m.week
  }

  /** The milestone weeks, in list order. */
  lemma MilestoneWeeksAre()
    ensures |KeyMilestones| == 5
    ensures KeyMilestones[0].week == 12 && KeyMilestones[1].week == 20 && KeyMilestones[2].week == 28
    ensures KeyMilestones[3].week == 37 && KeyMilestones[4].week == 40
  {
  }

  /** Reaching is monotone in the week: a milestone reached stays reached. */
  lemma ReachedGrowsWithTheWeek(m: Milestone, earlier: int, later: int)
    requires earlier <= later
    requires Reached(m, Num(earlier))
    ensures Reached(m, Num(later))
  {
  }

  /** Without a week (which defaults to 0) nothing is reached; from week 40
      on everything is. */
  lemma ReachedAtTheEnds(current: int)
    ensures current < 12 ==> forall i :: 0 <= i < |KeyMilestones| ==> !Reached(KeyMilestones[i], Num(current))
    ensures current >= 40 ==> forall i :: 0 <= i < |KeyMilestones| ==> Reached(KeyMilestones[i], Num(current))
  {
    MilestoneWeeksAre();
  }

  /** A profile without any week reaches no milestone. */
  lemma NoWeekReachesNothing(profile: Option<Row>)
    requires profile.Some? ==> !Truthy(Col(profile.value, "current_week")) && !Truthy(Col(profile.value, "weeks_pregnant"))
    ensures CurrentWeek(profile) == Num(0)
    ensures forall i :: 0 <= i < |KeyMilestones| ==> !Reached(KeyMilestones[i], CurrentWeek(profile))
  {
    ReachedAtTheEnds(0);
  }
}
