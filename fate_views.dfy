/**
 * The declarative view schemas (src/fate/views.ts). A view lists its fields
 * in declaration order; a field is a leaf (`true`), a nested view, or a list
 * of a view.
 */
module FateViews {

  datatype View = View(name: string, fields: seq<Field>)

  datatype Field = Field(name: string, config: FieldConfig)

  datatype FieldConfig =
    | Leaf
    | Nested(view: View)
    | ListOf(element: View)

  const ACWRView: View := View("ACWR", [
    Field("acute_load", Leaf),
    Field("chronic_load", Leaf),
    Field("ratio", Leaf),
    Field("isDanger", Leaf)])

  const WellnessMetricView: View := View("WellnessMetric", [
    Field("id", Leaf),
    Field("date", Leaf),
    Field("rhr", Leaf),
    Field("hrv_rmssd", Leaf),
    Field("hrv_ratio", Leaf)])

  const ReadinessView: View := View("Readiness", [
    Field("acwr", Nested(ACWRView)),
    Field("wellnessHistory", ListOf(WellnessMetricView))])

  function FieldNames(fields: seq<Field>): (names: seq<string>)
    ensures |names| == |fields|
    ensures forall i :: 0 <= i < |fields| ==> names[i] == fields[i].name
  {
    seq(|fields|, i requires 0 <= i < |fields| => fields[i].name)
  }

  /** Every field of the view is a leaf. */
  predicate LeavesOnly(v: View) {
    forall i :: 0 <= i < |v.fields| ==> v.fields[i].config.Leaf?
  }

  /** No two fields of the view share a name (an object literal's keys). */
  predicate DistinctNames(v: View) {
    forall i, j :: 0 <= i < j < |v.fields| ==> v.fields[i].name != v.fields[j].name
  }

  lemma ACWRViewShape()
    ensures LeavesOnly(ACWRView) && DistinctNames(ACWRView)
    ensures FieldNames(ACWRView.fields) == ["acute_load", "chronic_load", "ratio", "isDanger"]
  {
  }

  lemma WellnessMetricViewShape()
    ensures LeavesOnly(WellnessMetricView) && DistinctNames(WellnessMetricView)
    ensures FieldNames(WellnessMetricView.fields) == ["id", "date", "rhr", "hrv_rmssd", "hrv_ratio"]
  {
  }

  lemma ReadinessViewShape()
    ensures DistinctNames(ReadinessView)
    ensures FieldNames(ReadinessView.fields) == ["acwr", "wellnessHistory"]
    ensures ReadinessView.fields[0].config == Nested(ACWRView)
    ensures ReadinessView.fields[1].config == ListOf(WellnessMetricView)
  {
  }
}
