/** The treatment recommendations panel: the risk level's colour palette
    and icon, the list that acknowledging a recommendation shrinks, and
    which screen the panel shows. */
module TreatmentRecommendations {
  import opened JsValues

  /** The three cases the risk switches fall into. */
  datatype Bucket = High | Medium | Low

  /** The case of `switch (level.toLowerCase())`; a level that is not text
      has no `toLowerCase` and makes the render fail (None). */
  function RiskBucket(level: Json): (b: Option<Bucket>)
    ensures b.None? <==> !level.Str?
    ensures b == Some(High) <==> level.Str? && (ToLower(level.s) == "high" || ToLower(level.s) == "critical")
    ensures b == Some(Medium) <==> level.Str? && (ToLower(level.s) == "medium" || ToLower(level.s) == "moderate")
  {
    if !level.Str? then None
    else
      var l := ToLower(level.s);
      if l == "high" || l == "critical" then Some(High)
      else if l == "medium" || l == "moderate" then Some(Medium)
      else Some(Low)
  }

  datatype Colors = Colors(bg: string, border: string, text: string)

  function Palette(b: Bucket): Colors
  {
    match b
    case High => Colors("#fee", "#f44", "#c00")
    case Medium => Colors("#ffefd5", "#ffa500", "#cc8400")
    case Low => Colors("#e8f5e9", "#4caf50", "#2e7d32")
  }

  function Icon(b: Bucket): string
  {
    match b
    case High => "\U{1F6A8}"
    case Medium => "⚠️"
    case Low => "\U{1F4A1}"
  }

  /** `getRiskColor` */
  function RiskColor(level: Json): (c: Option<Colors>)
    ensures c.None? <==> !level.Str?
  {
    match RiskBucket(level)
    case None => None
    case Some(b) => Some(Palette(b))
  }

  /** `getRiskIcon` */
  function RiskIcon(level: Json): (i: Option<string>)
    ensures i.None? <==> !level.Str?
  {
    match RiskBucket(level)
    case None => None
    case Some(b) => Some(Icon(b))
  }

  /** The switches ignore case: levels equal up to case share colour and
      icon. */
  lemma CaseInsensitive(a: string, b: string)
    requires ToLower(a) == ToLower(b)
    ensures RiskColor(Str(a)) == RiskColor(Str(b)) && RiskIcon(Str(a)) == RiskIcon(Str(b))
  {
  }

  /** High and critical give the red palette, medium and moderate the
      orange one, and every other text, 'low' and the unknown alike, the
      green one. */
  lemma PalettesOfLevels(level: string)
    ensures ToLower(level) == "high" || ToLower(level) == "critical" ==> RiskColor(Str(level)) == Some(Colors("#fee", "#f44", "#c00"))
    ensures ToLower(level) == "medium" || ToLower(level) == "moderate" ==> RiskColor(Str(level)) == Some(Colors("#ffefd5", "#ffa500", "#cc8400"))
    ensures ToLower(level) !in {"high", "critical", "medium", "moderate"} ==>
      RiskColor(Str(level)) == Some(Colors("#e8f5e9", "#4caf50", "#2e7d32")) && RiskIcon(Str(level)) == Some("\U{1F4A1}")
  {
  }

  /** Each palette and each icon belongs to one bucket. */
  lemma PaletteAndIconAreDistinct(b: Bucket, c: Bucket)
    ensures Palette(b) == Palette(c) <==> b == c
    ensures Icon(b) == Icon(c) <==> b == c
  {
    if b != c {
      assert Palette(b).bg != Palette(c).bg by {
        assert Palette(High).bg[1] != Palette(Medium).bg[1] || |Palette(High).bg| != |Palette(Medium).bg|;
        assert |Palette(Medium).bg| == |Palette(Low).bg| && Palette(Medium).bg[1] != Palette(Low).bg[1];
      }
      assert Icon(b)[0] != Icon(c)[0] || |Icon(b)| != |Icon(c)|;
    }
  }

  /** Icon and colour always agree: a level shows a bucket's icon exactly
      when it shows that bucket's palette. */
  lemma IconAgreesWithColor(level: Json, b: Bucket)
    ensures RiskColor(level) == Some(Palette(b)) <==> RiskIcon(level) == Some(Icon(b))
  {
    if RiskBucket(level).Some? {
      PaletteAndIconAreDistinct(RiskBucket(level).value, b);
    }
  }

  /** A recommendation card: the fields the panel's logic reads. */
  datatype Recommendation = Recommendation(id: Json, riskLevel: Json)

  /** `list.filter(r => r.id !== id)` */
  function WithoutId(list: seq<Recommendation>, id: Json): (r: seq<Recommendation>)
    ensures forall x :: x in r <==> x in list && x.id != id
    ensures |r| <= |list|
  {
    if list == [] then []
    else (if list[0].id == id then [] else [list[0]]) + WithoutId(list[1..], id)
  }

  /** The filter distributes over concatenation, so the cards left keep
      their order. */
  lemma {:induction false} WithoutIdAppend(xs: seq<Recommendation>, ys: seq<Recommendation>, id: Json)
    ensures WithoutId(xs + ys, id) == WithoutId(xs, id) + WithoutId(ys, id)
  {
    if xs == [] {
      assert xs + ys == ys;
    } else {
      assert (xs + ys)[1..] == xs[1..] + ys;
      WithoutIdAppend(xs[1..], ys, id);
    }
  }

  /** A list without the id is left as it is. */
  lemma {:induction false} WithoutAbsentId(list: seq<Recommendation>, id: Json)
    requires forall i :: 0 <= i < |list| ==> list[i].id != id
    ensures WithoutId(list, id) == list
  {
    if list != [] {
      assert forall i :: 0 <= i < |list[1..]| ==> list[1..][i] == list[i + 1];
      WithoutAbsentId(list[1..], id);
    }
  }

  /** Acknowledging twice is acknowledging once. */
  lemma WithoutIdIdempotent(list: seq<Recommendation>, id: Json)
    ensures WithoutId(WithoutId(list, id), id) == WithoutId(list, id)
  {
    var r := WithoutId(list, id);
    forall i | 0 <= i < |r| ensures r[i].id != id {
      assert r[i] in r;
    }
    WithoutAbsentId(r, id);
  }

  /** What the panel shows. */
  datatype Screen = Loading | AllClear | Cards(count: nat)

  function View(loading: bool, list: seq<Recommendation>): (s: Screen)
    ensures s == AllClear <==> !loading && |list| == 0
    ensures s.Cards? ==> s.count == |list| && s.count > 0
  {
    if loading then Loading else if |list| == 0 then AllClear else Cards(|list|)
  }

  /** The panel's state. */
  class Panel {
    var recommendations: seq<Recommendation>
    var loading: bool

    constructor()
      ensures recommendations == [] && loading
    {
      recommendations := [];
      loading := true;
    }

    /** `handleAcknowledge`: once the request has been sent, every card with
        the id is removed; a request that throws leaves the list alone. */
    method Acknowledge(id: Json, requestThrew: bool)
      modifies this
      ensures requestThrew ==> recommendations == old(recommendations)
      ensures !requestThrew ==> recommendations == WithoutId(old(recommendations), id)
      ensures forall i :: 0 <= i < |recommendations| && !requestThrew ==> recommendations[i].id != id
      ensures loading == old(loading)
    {
      if !requestThrew {
        var kept := WithoutId(recommendations, id);
        forall i | 0 <= i < |kept| ensures kept[i].id != id {
          assert kept[i] in kept;
        }
        recommendations := kept;
      }
    }

    /** `fetchRecommendations`: a successful reply replaces the list; either
        way loading ends. */
    method Fetched(reply: Option<seq<Recommendation>>)
      modifies this
      ensures reply.Some? ==> recommendations == reply.value
      ensures reply.None? ==> recommendations == old(recommendations)
      ensures !loading
    {
      if reply.Some? {
        recommendations := reply.value;
      }
      loading := false;
    }
  }
}
