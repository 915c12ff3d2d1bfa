/**
 * The subjective wellness metrics (src/app/shared/wellnessConfig.ts): the
 * metric table, the colour of a slider value under the metric's polarity,
 * and the label of a value.
 */
module WellnessConfig {
  import opened Wrappers

  /** Standard: a higher score is better. Inverted: a higher score is worse. */
  datatype Polarity = Standard | Inverted

  /** A metric: its score column, its caption (`label`), its polarity and its five value labels. */
  datatype MetricConfig = MetricConfig(name: string, caption: string, polarity: Polarity, labels: seq<string>)

  const WellnessMetrics: seq<MetricConfig> := [
    MetricConfig("sleep_score", "\U{1F634} Sleep Quality", Standard,
                 ["Poor", "Below Average", "Average", "Good", "Excellent"]),
    MetricConfig("diet_score", "\U{1F34E} Diet Quality", Standard,
                 ["Poor", "Below Average", "Average", "Good", "Excellent"]),
    MetricConfig("mood_score", "\U{1F60A} Mood", Standard,
                 ["Miserable", "Low", "Neutral", "Good", "Fantastic"]),
    MetricConfig("muscle_soreness_score", "\U{1F4AA} Muscle Soreness", Inverted,
                 ["No Soreness", "Mild", "Moderate", "Significant", "Severe"]),
    MetricConfig("stress_score", "\U{1F630} Stress Level", Inverted,
                 ["No Stress", "Low", "Moderate", "High", "Highly Stressed"]),
    MetricConfig("fatigue_score", "\U{1F50B} Fatigue Level", Inverted,
                 ["Fresh", "Slightly Tired", "Moderate", "Tired", "Exhausted"])]

  /** The value read on the standard scale: `6 - value` under inverted polarity. */
  function Normalize(value: int, polarity: Polarity): (n: int)
    ensures polarity == Standard ==> n == value
    ensures polarity == Inverted ==> n + value == 6
  {
    if polarity == Inverted then 6 - value else value
  }

  /** The five colour bands, from worst to best. */
  datatype Band = Red | Orange | Yellow | Lime | Green

  /** The band of a value on the standard scale. */
  function BandOf(n: int): (b: Band)
    ensures b == Red <==> n <= 1
    ensures b == Green <==> n >= 5
    ensures 2 <= n <= 4 ==> Rank(b) == n - 1
  {
    if n <= 1 then Red else if n == 2 then Orange else if n == 3 then Yellow else if n == 4 then Lime else Green
  }

  function Rank(b: Band): nat {
    match b
    case Red => 0
    case Orange => 1
    case Yellow => 2
    case Lime => 3
    case Green => 4
  }

  /** The Tailwind colour of a band. */
  function Colour(b: Band): string {
    match b
    case Red => "red-500"
    case Orange => "orange-500"
    case Yellow => "yellow-500"
    case Lime => "lime-500"
    case Green => "green-500"
  }

  /** `getSliderColor`: the background colour of the normalised value's band. */
  function GetSliderColor(value: int, polarity: Polarity): (c: string)
    ensures c == "bg-" + Colour(BandOf(Normalize(value, polarity)))
  {
    var n := Normalize(value, polarity);
    if n <= 1 then "bg-red-500"
    else if n == 2 then "bg-orange-500"
    else if n == 3 then "bg-yellow-500"
    else if n == 4 then "bg-lime-500"
    else "bg-green-500"
  }

  /** `getSliderTextColor`: the text colour of the same band. */
  function GetSliderTextColor(value: int, polarity: Polarity): (c: string)
    ensures c == "text-" + Colour(BandOf(Normalize(value, polarity)))
  {
    var n := Normalize(value, polarity);
    if n <= 1 then "text-red-500"
    else if n == 2 then "text-orange-500"
    else if n == 3 then "text-yellow-500"
    else if n == 4 then "text-lime-500"
    else "text-green-500"
  }

  /** Inverted polarity at `v` colours like standard polarity at `6 - v`. */
  lemma InvertedMirrorsStandard(value: int)
    ensures GetSliderColor(value, Inverted) == GetSliderColor(6 - value, Standard)
    ensures GetSliderTextColor(value, Inverted) == GetSliderTextColor(6 - value, Standard)
  {
  }

  /**
   * A higher score never shows a worse colour under standard polarity, and
   * never a better one under inverted polarity.
   */
  lemma BandMonotone(v: int, w: int)
    requires v <= w
    ensures Rank(BandOf(Normalize(v, Standard))) <= Rank(BandOf(Normalize(w, Standard)))
    ensures Rank(BandOf(Normalize(v, Inverted))) >= Rank(BandOf(Normalize(w, Inverted)))
  {
  }

  // ---------------------------------------------------------------------
  // Labels

  /** `wellnessMetrics.find(m => m.name === name)`. */
  function FindMetric(table: seq<MetricConfig>, name: string): (r: Option<MetricConfig>)
    ensures r.None? <==> forall i :: 0 <= i < |table| ==> table[i].name != name
    ensures r.Some? ==> exists i ::
      && 0 <= i < |table| && table[i] == r.value && r.value.name == name
      && forall j :: 0 <= j < i ==> table[j].name != name
  {
    if table == [] then None
    else if table[0].name == name then Some(table[0])
    else
      var r := FindMetric(table[1..], name);
      assert r.Some? ==> exists i ::
        && 0 <= i < |table[1..]| && table[1..][i] == r.value && r.value.name == name
        && forall j :: 0 <= j < i ==> table[1..][j].name != name;
      r
  }

  /** `labels[value - 1] || ''`: an index outside the labels, or an empty label, gives `''`. */
  function LabelAt(labels: seq<string>, value: int): string {
    if 1 <= value <= |labels| then labels[value - 1] else ""
  }

  /** `getMetricLabel`. */
  function GetMetricLabel(name: string, value: int): (text: string)
    ensures FindMetric(WellnessMetrics, name).None? ==> text == ""
    ensures FindMetric(WellnessMetrics, name).Some? ==>
      text == LabelAt(FindMetric(WellnessMetrics, name).value.labels, value)
  {
    match FindMetric(WellnessMetrics, name)
    case None => ""
    case Some(metric) => LabelAt(metric.labels, value)
  }

  /** Six distinct names, five non-empty labels each; sleep, diet and mood standard, the rest inverted. */
  lemma TableShape()
    ensures |WellnessMetrics| == 6
    ensures forall i, j :: 0 <= i < j < |WellnessMetrics| ==> WellnessMetrics[i].name != WellnessMetrics[j].name
    ensures forall i :: 0 <= i < |WellnessMetrics| ==>
      |WellnessMetrics[i].labels| == 5 && forall k :: 0 <= k < 5 ==> WellnessMetrics[i].labels[k] != ""
    ensures forall i :: 0 <= i < |WellnessMetrics| ==>
      (WellnessMetrics[i].polarity == Standard <==> WellnessMetrics[i].name in {"sleep_score", "diet_score", "mood_score"})
  {
  }

  /**
   * For a metric of the table, a value in 1..5 gives its label at that
   * 1-based position; any other value gives `''`.
   */
  lemma MetricLabelRange(i: nat, value: int)
    requires i < |WellnessMetrics|
    ensures 1 <= value <= 5 ==>
      GetMetricLabel(WellnessMetrics[i].name, value) == WellnessMetrics[i].labels[value - 1]
    ensures !(1 <= value <= 5) ==> GetMetricLabel(WellnessMetrics[i].name, value) == ""
  {
    TableShape();
    var r := FindMetric(WellnessMetrics, WellnessMetrics[i].name);
    assert r.Some?;
    var k :| 0 <= k < |WellnessMetrics| && WellnessMetrics[k] == r.value && r.value.name == WellnessMetrics[i].name
      && forall j :: 0 <= j < k ==> WellnessMetrics[j].name != WellnessMetrics[i].name;
    assert k == i;
  }

  /** A name outside the table has no label. */
  lemma UnknownMetricHasNoLabel(name: string, value: int)
    requires forall i :: 0 <= i < |WellnessMetrics| ==> WellnessMetrics[i].name != name
    ensures GetMetricLabel(name, value) == ""
  {
  }

  lemma MetricLabelExamples()
    ensures GetMetricLabel("stress_score", 5) == "Highly Stressed"
    ensures GetMetricLabel("mood_score", 3) == "Neutral"
    ensures GetMetricLabel("sleep_score", 0) == ""
    ensures GetMetricLabel("sleep_score", 6) == ""
  {
    MetricLabelRange(4, 5);
    MetricLabelRange(2, 3);
    MetricLabelRange(0, 0);
    MetricLabelRange(0, 6);
  }
}
