/** The smart check-in notification: the first matching prompt rule, the
    notification built from it, the time-of-day bucket the scheduler passes
    in, and the web-push payload made from a notification. */
module CheckIn {
  import opened JsValues

  datatype Prompt = Prompt(question: string, category: string, priority: string)

  /** The destructured `context`; a member the caller leaves out is
      undefined. */
  datatype Context = Context(lastCheckIn: Json, babyAge: Json, recentMood: Json, timeOfDay: Json)

  /** The prompt rules, one per entry of the `prompts` list. */
  datatype Rule = Morning | Evening | Stressed | YoungBaby | Stale

  /** The order of the `prompts` list, which `find` scans. */
  const Rules: seq<Rule> := [Morning, Evening, Stressed, YoungBaby, Stale]

  /** One day in milliseconds. */
  const DayMs: int := 24 * 60 * 60 * 1000

  /** The prompt of the chosen rule; None is the fallback used when no
      rule matches. */
  function QuestionOf(rule: Option<Rule>): string
  {
    match rule
    case None => "How are you and your little one doing today?"
    case Some(Morning) => "Good morning! How did you and your baby sleep last night?"
    case Some(Evening) => "How was your day? Any challenges or wins you'd like to share?"
    case Some(Stressed) => "I noticed you've been stressed. Would you like to talk about what's on your mind?"
    case Some(YoungBaby) => "How is feeding going today? Any questions or concerns?"
    case Some(Stale) => "We haven't heard from you in a while. How are you doing?"
  }

  function CategoryOf(rule: Option<Rule>): string
  {
    match rule
    case None => "general"
    case Some(Morning) => "sleep"
    case Some(Evening) => "daily_reflection"
    case Some(Stressed) => "emotional_support"
    case Some(YoungBaby) => "feeding"
    case Some(Stale) => "wellness_check"
  }

  function PriorityOf(rule: Option<Rule>): string
  {
    match rule
    case None => "low"
    case Some(Morning) => "medium"
    case Some(Evening) => "medium"
    case Some(Stressed) => "high"
    case Some(YoungBaby) => "medium"
    case Some(Stale) => "high"
  }

  /** A rule's `condition()` at time `now` (milliseconds). Comparisons with
      numbers convert the value with `Number()`, and NaN compares false. */
  predicate Holds(rule: Rule, ctx: Context, now: int)
  {
    match rule
    case Morning => ctx.timeOfDay == Str("morning")
    case Evening => ctx.timeOfDay == Str("evening")
    case Stressed => ctx.recentMood == Str("stressed")
    case YoungBaby => Truthy(ctx.babyAge) && AtMost(ctx.babyAge, 3)
    case Stale => !Truthy(ctx.lastCheckIn) || OlderThan(ctx.lastCheckIn, now, DayMs)
  }

  /** `v <= bound` */
  predicate AtMost(v: Json, bound: int)
  {
    var n := ToNumber(v);
    n.Some? && n.value <= bound
  }

  /** `now - v > span` */
  predicate OlderThan(v: Json, now: int, span: int)
  {
    var n := ToNumber(v);
    n.Some? && now - n.value > span
  }

  /** `rules.find(p => p.condition())` */
  function FirstMatch(rules: seq<Rule>, ctx: Context, now: int): (r: Option<Rule>)
    ensures r.Some? ==> r.value in rules && Holds(r.value, ctx, now)
  {
    if rules == [] then None
    else if Holds(rules[0], ctx, now) then Some(rules[0])
    else FirstMatch(rules[1..], ctx, now)
  }

  /** `find` returns the first rule that holds, and nothing when none does. */
  lemma {:induction false} FirstMatchIsFirst(rules: seq<Rule>, ctx: Context, now: int)
    ensures FirstMatch(rules, ctx, now).None? <==> forall j :: 0 <= j < |rules| ==> !Holds(rules[j], ctx, now)
    ensures FirstMatch(rules, ctx, now).Some? ==>
      exists k :: 0 <= k < |rules| && FirstMatch(rules, ctx, now).value == rules[k]
        && Holds(rules[k], ctx, now) && forall j :: 0 <= j < k ==> !Holds(rules[j], ctx, now)
  {
    if rules != [] && !Holds(rules[0], ctx, now) {
      FirstMatchIsFirst(rules[1..], ctx, now);
      assert forall j :: 1 <= j < |rules| ==> rules[j] == rules[1..][j - 1];
      if FirstMatch(rules[1..], ctx, now).Some? {
        var k :| 0 <= k < |rules[1..]| && FirstMatch(rules[1..], ctx, now).value == rules[1..][k]
          && Holds(rules[1..][k], ctx, now) && forall j :: 0 <= j < k ==> !Holds(rules[1..][j], ctx, now);
        assert FirstMatch(rules, ctx, now).value == rules[k + 1];
      }
    } else if rules != [] {
      assert FirstMatch(rules, ctx, now).value == rules[0];
    }
  }

  /** The rule `find` picks. */
  function ChosenRule(ctx: Context, now: int): Option<Rule>
  {
    FirstMatch(Rules, ctx, now)
  }

  /** `relevantPrompt` */
  function ChosenPrompt(ctx: Context, now: int): Prompt
  {
    var rule := ChosenRule(ctx, now);
    Prompt(QuestionOf(rule), CategoryOf(rule), PriorityOf(rule))
  }

  datatype CheckInData = CheckInData(url: string, promptId: string, question: string, requiresResponse: bool)

  datatype Notification = Notification(
    userId: string, title: string, body: string, category: string, priority: string, data: CheckInData)

  const CheckInTitle := "\U{1F338} Mum.entum Check-in"

  /** `generateCheckInNotification` with the clock reading `now`. */
  function GenerateCheckInNotification(userId: string, ctx: Context, now: int): (n: Notification)
    ensures n.body == n.data.question
    ensures n.data.url == "/assistant" && n.data.requiresResponse
    ensures n.data.promptId == "checkin_" + IntToString(now)
  {
    var p := ChosenPrompt(ctx, now);
    Notification(userId, CheckInTitle, p.question, p.category, p.priority,
                 CheckInData("/assistant", "checkin_" + IntToString(now), p.question, true))
  }

  // ---------------------------------------------------------------------
  // Properties of the rule order
  // ---------------------------------------------------------------------

  /** The chosen rule is the first rule, in list order, whose condition
      holds; with none the fallback prompt is used. */
  lemma ChosenIsFirstMatching(ctx: Context, now: int)
    ensures ChosenRule(ctx, now).None? <==> forall j :: 0 <= j < |Rules| ==> !Holds(Rules[j], ctx, now)
    ensures forall k :: 0 <= k < |Rules| && Holds(Rules[k], ctx, now) && (forall j :: 0 <= j < k ==> !Holds(Rules[j], ctx, now))
              ==> ChosenRule(ctx, now) == Some(Rules[k])
  {
    FirstMatchIsFirst(Rules, ctx, now);
    forall k | 0 <= k < |Rules| && Holds(Rules[k], ctx, now) && (forall j :: 0 <= j < k ==> !Holds(Rules[j], ctx, now))
      ensures ChosenRule(ctx, now) == Some(Rules[k])
    {
      var k' :| 0 <= k' < |Rules| && FirstMatch(Rules, ctx, now).value == Rules[k']
        && Holds(Rules[k'], ctx, now) && forall j :: 0 <= j < k' ==> !Holds(Rules[j], ctx, now);
      assert k' == k;
    }
  }

  /** Order beats priority: a morning check-in asks about sleep at medium
      priority even when the mood is stressed, whose prompt is high. */
  lemma MorningBeatsStress(ctx: Context, now: int)
    requires ctx.timeOfDay == Str("morning")
    ensures ChosenRule(ctx, now) == Some(Morning)
    ensures CategoryOf(ChosenRule(ctx, now)) == "sleep" && PriorityOf(ChosenRule(ctx, now)) == "medium"
  {
  }

  /** A stressed mood wins when it is neither morning nor evening. */
  lemma StressWinsOutsideMorningAndEvening(ctx: Context, now: int)
    requires ctx.timeOfDay != Str("morning") && ctx.timeOfDay != Str("evening")
    requires ctx.recentMood == Str("stressed")
    ensures ChosenRule(ctx, now) == Some(Stressed)
    ensures CategoryOf(ChosenRule(ctx, now)) == "emotional_support" && PriorityOf(ChosenRule(ctx, now)) == "high"
  {
    ChosenIsFirstMatching(ctx, now);
    assert Rules[2] == Stressed;
  }

  /** A baby age of 0 is falsy, so it never triggers the feeding prompt;
      an age from 1 to 3 does. */
  lemma BabyAgeRule(ctx: Context, now: int)
    ensures ctx.babyAge == Num(0) ==> !Holds(YoungBaby, ctx, now)
    ensures ctx.babyAge.Num? && 1 <= ctx.babyAge.n <= 3 ==> Holds(YoungBaby, ctx, now)
    ensures ctx.babyAge.Num? && ctx.babyAge.n > 3 ==> !Holds(YoungBaby, ctx, now)
  {
  }

  /** The stale rule: no previous check-in, or one more than a day before
      `now`; exactly a day old is not stale. */
  lemma StaleRule(ctx: Context, now: int)
    ensures !Truthy(ctx.lastCheckIn) ==> Holds(Stale, ctx, now)
    ensures forall t :: t != 0 && ctx.lastCheckIn == Num(t) ==> (Holds(Stale, ctx, now) <==> now - t > DayMs)
    ensures DayMs == 86400000
  {
  }

  /** Nothing matching gives the general prompt with low priority. */
  lemma NoMatchIsGeneral(ctx: Context, now: int)
    requires forall r :: !Holds(r, ctx, now)
    ensures ChosenRule(ctx, now) == None
    ensures CategoryOf(ChosenRule(ctx, now)) == "general" && PriorityOf(ChosenRule(ctx, now)) == "low"
  {
  }

  /** The notification carries the chosen prompt's text, category and
      priority. */
  lemma NotificationCarriesPrompt(userId: string, ctx: Context, now: int)
    ensures var n := GenerateCheckInNotification(userId, ctx, now);
      && n.body == QuestionOf(ChosenRule(ctx, now))
      && n.data.question == QuestionOf(ChosenRule(ctx, now))
      && n.category == CategoryOf(ChosenRule(ctx, now))
      && n.priority == PriorityOf(ChosenRule(ctx, now))
      && n.userId == userId && n.title == CheckInTitle
  {
  }

  // ---------------------------------------------------------------------
  // The scheduler's context
  // ---------------------------------------------------------------------

  /** `timeOfDay` of `scheduleSmartCheckIns` for an hour 0..23. */
  function TimeOfDay(hour: int): (t: string)
    ensures t == "morning" <==> hour < 12
    ensures t == "afternoon" <==> 12 <= hour < 18
    ensures t == "evening" <==> hour >= 18
  {
    if hour < 12 then "morning" else if hour < 18 then "afternoon" else "evening"
  }

  /** The context the scheduler builds: it never passes `recentMood`. */
  function ScheduledContext(lastCheckIn: Json, babyAge: Json, hour: int): Context
  {
    Context(lastCheckIn, babyAge, Undefined, Str(TimeOfDay(hour)))
  }

  /** A scheduled check-in never chooses the stressed prompt; in the
      morning it asks about sleep and in the evening about the day. */
  lemma ScheduledNeverStressed(lastCheckIn: Json, babyAge: Json, hour: int, now: int)
    ensures ChosenRule(ScheduledContext(lastCheckIn, babyAge, hour), now) != Some(Stressed)
    ensures hour < 12 ==> ChosenRule(ScheduledContext(lastCheckIn, babyAge, hour), now) == Some(Morning)
    ensures hour >= 18 ==> ChosenRule(ScheduledContext(lastCheckIn, babyAge, hour), now) == Some(Evening)
  {
    var ctx := ScheduledContext(lastCheckIn, babyAge, hour);
    assert !Holds(Stressed, ctx, now);
    if hour >= 18 {
      assert "evening"[0] != "morning"[0];
      ChosenIsFirstMatching(ctx, now);
      assert Rules[1] == Evening;
    }
  }

  // ---------------------------------------------------------------------
  // The push payload
  // ---------------------------------------------------------------------

  /** `notification.x` on the notification object. */
  function Prop(v: Json, key: string): Json
  {
    if v.Obj? then Get(v.fields, key) else Undefined
  }

  /** The object `sendPushNotification` serialises. */
  datatype PushMessage = PushMessage(
    title: Json, body: Json, icon: string, badge: string, data: Json,
    tag: Json, requireInteraction: bool, vibrate: seq<int>)

  function PushPayload(notification: Json): (m: PushMessage)
  {
    PushMessage(Prop(notification, "title"), Prop(notification, "body"), "/icon-192x192.png",
                "/badge-72x72.png", Prop(notification, "data"), Prop(notification, "category"),
                Prop(notification, "priority") == Str("high"), [200, 100, 200])
  }

  /** The tag is the category, and interaction is required exactly for
      priority 'high'. */
  lemma PushPayloadSpec(notification: Json)
    ensures PushPayload(notification).tag == Prop(notification, "category")
    ensures PushPayload(notification).requireInteraction <==> Prop(notification, "priority") == Str("high")
    ensures PushPayload(notification).vibrate == [200, 100, 200]
  {
  }

  function MessageJson(m: PushMessage): Json
  {
    Obj([("title", m.title), ("body", m.body), ("icon", Str(m.icon)), ("badge", Str(m.badge)),
         ("data", m.data), ("tag", m.tag), ("requireInteraction", Bool(m.requireInteraction)),
         ("vibrate", Arr(seq(|m.vibrate|, i requires 0 <= i < |m.vibrate| => Num(m.vibrate[i]))))])
  }

  /** The payload text sent to the push service: `JSON.stringify`, which
      leaves out members that are undefined. */
  function PayloadText(notification: Json): (s: string)
    ensures |s| >= 2 && s[0] == '{' && s[|s| - 1] == '}'
  {
    Stringify(MessageJson(PushPayload(notification)))
  }

  /** A check-in notification as the object passed along. */
  function AsJson(n: Notification): Json
  {
    Obj([("userId", Str(n.userId)), ("title", Str(n.title)), ("body", Str(n.body)),
         ("category", Str(n.category)), ("priority", Str(n.priority)),
         ("data", Obj([("url", Str(n.data.url)), ("promptId", Str(n.data.promptId)),
                       ("question", Str(n.data.question)), ("requiresResponse", Bool(n.data.requiresResponse))]))])
  }

  lemma AsJsonReads(n: Notification)
    ensures Prop(AsJson(n), "category") == Str(n.category)
    ensures Prop(AsJson(n), "priority") == Str(n.priority)
  {
    var fields := AsJson(n).fields;
    assert "category"[0] != "priority"[0] && "category"[0] != "data"[0];
    GetMember(fields, 3, "category");
    assert "priority"[0] != "data"[0];
    GetMember(fields, 4, "priority");
  }

  /** For a check-in, the push tag is its category and the notification
      demands interaction exactly for the stressed and the stale prompts. */
  lemma CheckInPayload(userId: string, ctx: Context, now: int)
    ensures var n := GenerateCheckInNotification(userId, ctx, now);
      var m := PushPayload(AsJson(n));
      && m.tag == Str(n.category)
      && (m.requireInteraction <==> ChosenRule(ctx, now) == Some(Stressed) || ChosenRule(ctx, now) == Some(Stale))
  {
    var n := GenerateCheckInNotification(userId, ctx, now);
    AsJsonReads(n);
  }
}
