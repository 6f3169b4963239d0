/** The important-updates list: each notification's severity, its label
    and its CSS modifier, and the empty-list message. */
module ImportantNotifications {
  import opened JsValues

  /** `(notification.severity || 'info').toLowerCase()`; a truthy severity
      that is not text has no `toLowerCase` and makes the render fail
      (None). */
  function Severity(severity: Json): (r: Option<string>)
    ensures !Truthy(severity) ==> r == Some("info")
    ensures severity.Str? && severity.s != "" ==> r == Some(ToLower(severity.s))
    ensures r.None? <==> Truthy(severity) && !severity.Str?
  {
    LowerCaseInfo();
    var v := Or(severity, Str("info"));
    if v.Str? then Some(ToLower(v.s)) else None
  }

  lemma LowerCaseInfo()
    ensures ToLower("info") == "info"
  {
    assert forall i :: 0 <= i < 4 ==> ToLower("info")[i] == LowerChar("info"[i]);
  }

  /** `severity.charAt(0).toUpperCase() + severity.slice(1)` */
  function Label(severity: string): (shown: string)
    ensures |shown| == |severity|
  {
    if severity == [] then [] else ToUpper([severity[0]]) + severity[1..]
  }

  /** The label differs from the severity only in its first character,
      which is upper-cased. */
  lemma LabelCapitalises(severity: string)
    requires severity != []
    ensures Label(severity)[0] == UpperChar(severity[0])
    ensures Label(severity)[1..] == severity[1..]
  {
  }

  /** A missing severity is labelled 'Info'. */
  lemma MissingSeverityIsInfo(severity: Json)
    requires !Truthy(severity)
    ensures Severity(severity) == Some("info") && Label(Severity(severity).value) == "Info"
  {
  }

  /** The severity is lower case, so labelling never changes its length
      and the label of a lower-case word starts with a capital letter. */
  lemma SeverityIsLowerCase(severity: Json)
    requires Severity(severity).Some?
    ensures ToLower(Severity(severity).value) == Severity(severity).value
    ensures |Label(Severity(severity).value)| == |Severity(severity).value|
  {
    var v := Or(severity, Str("info"));
    ToLowerIdempotent(v.s);
  }

  /** `notifications__item notifications__item--${severity}` */
  function ItemClass(severity: string): (c: string)
    ensures |c| == 41 + |severity| && c[41..] == severity
  {
    "notifications__item notifications__item--" + severity
  }

  /** The modifier carries the lower-cased severity, whatever its case was
      in the notification. */
  lemma ModifierIsLowerCase(a: string, b: string)
    requires ToLower(a) == ToLower(b) && a != "" && b != ""
    ensures ItemClass(Severity(Str(a)).value) == ItemClass(Severity(Str(b)).value)
  {
  }

  const AllCaughtUp := "You are all caught up for now—no urgent nudges today."

  /** What the section lists: the message when the list is missing or
      empty, otherwise one item per notification. */
  datatype Shown = Message(text: string) | Items(count: nat)

  function ListView(items: Option<seq<Json>>): (s: Shown)
    ensures s.Message? <==> items.None? || items.value == []
    ensures s.Message? ==> s.text == AllCaughtUp
    ensures s.Items? ==> s.count == |items.value| > 0
  {
    if items.Some? && |items.value| > 0 then Items(|items.value|) else Message(AllCaughtUp)
  }
}
