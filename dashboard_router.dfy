/**
 * `dashboard.getReadinessView` (src/fate/dashboardRouter.ts): the protected
 * procedure that computes the ACWR for a date, fetches the wellness history
 * window ending on it, reshapes both into the readiness view's records and
 * hands them to the resolver with the caller's selection.
 */
module DashboardRouter {
  import opened Wrappers
  import opened Calendar
  import opened FateViews
  import opened FateUtils
  import opened FateResolve
  import WS = WorkoutSessionService
  import A = AcwrService
  import W = DailyWellnessService

  const DefaultHistoryDays: int := 28
  const MinHistoryDays: int := 7
  const MaxHistoryDays: int := 90

  /** The selection used when the caller gives none. */
  const DefaultSelect: seq<string> := ["acwr", "wellnessHistory"]

  /** The procedure's input: `history_days` and `select` may be omitted. */
  datatype ReadinessInput = ReadinessInput(date: Day, historyDays: Option<int>, select: Option<seq<string>>)

  /** What the input schema accepts: `history_days`, when given, is an integer in [7, 90]. */
  predicate ValidInput(input: ReadinessInput) {
    input.historyDays.None? || MinHistoryDays <= input.historyDays.value <= MaxHistoryDays
  }

  /** The schema's `history_days`: 28 when omitted. */
  function HistoryDays(input: ReadinessInput): (h: int)
    requires ValidInput(input)
    ensures input.historyDays.None? ==> h == DefaultHistoryDays
    ensures input.historyDays.Some? ==> h == input.historyDays.value
    ensures MinHistoryDays <= h <= MaxHistoryDays
  {
    input.historyDays.GetOr(DefaultHistoryDays)
  }

  /** The wellness fetch: from `historyDays - 1` days before the date up to the date. */
  function WellnessQuery(tenantId: string, userId: string, date: Day, historyDays: int): (q: W.RangeQuery)
    ensures q.tenantId == tenantId && q.userId == userId && q.endDate == date
    ensures historyDays >= 1 ==> WindowLength(q.startDate, q.endDate) == historyDays
    ensures forall d :: InWindow(d, q.startDate, q.endDate) <==> date - historyDays < d <= date
  {
    W.RangeQuery(tenantId, userId, date - historyDays + 1, date)
  }

  /** `acwrData`: the four ACWR fields under the view's names. */
  function AcwrData(r: A.AcwrResult): (m: map<string, Value>)
    ensures m.Keys == {"acute_load", "chronic_load", "ratio", "isDanger"}
    ensures m["acute_load"] == Num(r.acuteLoad as real) && m["chronic_load"] == Num(r.chronicLoad)
    ensures m["ratio"] == Num(r.ratio) && m["isDanger"] == Bool(r.isDanger)
  {
    map["acute_load" := Num(r.acuteLoad as real), "chronic_load" := Num(r.chronicLoad),
        "ratio" := Num(r.ratio), "isDanger" := Bool(r.isDanger)]
  }

  /** One `WellnessMetric`: id, date, rhr, hrv_rmssd and hrv_ratio of a record. */
  function WellnessMetric(w: W.WellnessRecord): (m: map<string, Value>)
    ensures m.Keys == {"id", "date", "rhr", "hrv_rmssd", "hrv_ratio"}
    ensures m["id"] == Str(w.row.id) && m["date"] == Date(w.row.date)
    ensures m["rhr"] == Num(w.row.rhr) && m["hrv_rmssd"] == Num(w.row.hrvRmssd)
    ensures m["hrv_ratio"] == Num(w.hrvRatio)
  {
    map["id" := Str(w.row.id), "date" := Date(w.row.date), "rhr" := Num(w.row.rhr),
        "hrv_rmssd" := Num(w.row.hrvRmssd), "hrv_ratio" := Num(w.hrvRatio)]
  }

  /** `wellnessData`: one metric object per fetched record, in order. */
  function WellnessData(history: seq<W.WellnessRecord>): (elems: seq<Value>)
    ensures |elems| == |history|
    ensures forall j :: 0 <= j < |history| ==> elems[j] == Obj(WellnessMetric(history[j]))
  {
    seq(|history|, j requires 0 <= j < |history| => Obj(WellnessMetric(history[j])))
  }

  /** The object handed to `resolve`. */
  function ReadinessData(acwr: A.AcwrResult, history: seq<W.WellnessRecord>): (m: map<string, Value>)
    ensures m.Keys == {"acwr", "wellnessHistory"}
    ensures m["acwr"] == Obj(AcwrData(acwr)) && m["wellnessHistory"] == Arr(WellnessData(history))
  {
    map["acwr" := Obj(AcwrData(acwr)), "wellnessHistory" := Arr(WellnessData(history))]
  }

  /**
   * `getReadinessView` for the authenticated caller (`tenantId`, `userId`,
   * both non-empty once the protected procedure has let the request through)
   * over the stored workout sessions and wellness rows. The resolver's
   * cursor function and pagination block are parameters.
   */
  function GetReadinessView(sessions: seq<WS.WorkoutSession>, wellness: seq<W.WellnessRow>,
                            tenantId: string, userId: string, input: ReadinessInput,
                            cursorOf: Value -> string, pagination: Pagination): (v: Value)
    requires tenantId != "" && userId != ""
    requires ValidInput(input)
    ensures v.Obj? && v.props.Keys <= {"acwr", "wellnessHistory"}
  {
    var acwr := ReportedAcwr(sessions, tenantId, userId, input.date);
    var history := ReportedHistory(wellness, tenantId, userId, input.date, HistoryDays(input));
    var select := input.select.GetOr(DefaultSelect);
    var data := ReadinessData(acwr, history);
    ProjectedKeys(ReadinessView, select, data, |ReadinessView.fields|, cursorOf, pagination);
    Resolve(ReadinessView, select, data, cursorOf, pagination)
  }

  /** The ACWR of the date over the caller's own sessions. */
  function ReportedAcwr(sessions: seq<WS.WorkoutSession>, tenantId: string, userId: string, date: Day): A.AcwrResult {
    A.CalculateAcwr(sessions, A.AcwrInput(tenantId, Some(userId), date))
  }

  /** The caller's wellness records of the `h` days ending on the date. */
  function ReportedHistory(wellness: seq<W.WellnessRow>, tenantId: string, userId: string, date: Day, h: int)
    : seq<W.WellnessRecord>
  {
    W.DailyWellnessByDateRange(wellness, WellnessQuery(tenantId, userId, date, h))
  }

  /** The readiness view with every field selected. */
  function FullView(acwr: A.AcwrResult, history: seq<W.WellnessRecord>,
                    cursorOf: Value -> string, pagination: Pagination): Value {
    var elems := WellnessData(history);
    Obj(map["acwr" := Obj(AcwrData(acwr)),
            "wellnessHistory" := Connection(seq(|elems|, j requires 0 <= j < |elems| =>
                                   Edge(cursorOf(elems[j]), elems[j])), pagination)])
  }

  // ---------------------------------------------------------------------
  // Properties

  /**
   * With no selection the view holds the ACWR of the date, over the caller's
   * own sessions, and one connection item per wellness record of the window,
   * each carrying all five metric fields.
   */
  lemma DefaultViewIsFull(sessions: seq<WS.WorkoutSession>, wellness: seq<W.WellnessRow>,
                          tenantId: string, userId: string, input: ReadinessInput,
                          cursorOf: Value -> string, pagination: Pagination)
    requires tenantId != "" && userId != ""
    requires ValidInput(input) && input.select.None?
    ensures var h := if input.historyDays.None? then 28 else input.historyDays.value;
      GetReadinessView(sessions, wellness, tenantId, userId, input, cursorOf, pagination)
        == FullView(ReportedAcwr(sessions, tenantId, userId, input.date),
                    ReportedHistory(wellness, tenantId, userId, input.date, h), cursorOf, pagination)
  {
    DefaultSelectionKeepsAll();
    ViewWithAllFields(DefaultSelect, ReportedAcwr(sessions, tenantId, userId, input.date),
                      ReportedHistory(wellness, tenantId, userId, input.date, HistoryDays(input)),
                      cursorOf, pagination);
  }

  /** Passing the paths `generateSelectPaths` produces is the same as passing no selection. */
  lemma GeneratedSelectionSameAsDefault(sessions: seq<WS.WorkoutSession>, wellness: seq<W.WellnessRow>,
                                        tenantId: string, userId: string, date: Day, historyDays: Option<int>,
                                        cursorOf: Value -> string, pagination: Pagination)
    requires tenantId != "" && userId != ""
    requires historyDays.None? || 7 <= historyDays.value <= 90
    ensures GetReadinessView(sessions, wellness, tenantId, userId,
                             ReadinessInput(date, historyDays, Some(SelectPaths(ReadinessView, ""))),
                             cursorOf, pagination)
         == GetReadinessView(sessions, wellness, tenantId, userId, ReadinessInput(date, historyDays, None),
                             cursorOf, pagination)
  {
    var generated := ReadinessInput(date, historyDays, Some(SelectPaths(ReadinessView, "")));
    var acwr := ReportedAcwr(sessions, tenantId, userId, date);
    var history := ReportedHistory(wellness, tenantId, userId, date, HistoryDays(generated));
    DefaultSelectionKeepsAll();
    ViewWithAllFields(DefaultSelect, acwr, history, cursorOf, pagination);
    GeneratedSelectionKeepsAll();
    ACWRViewShape();
    WellnessMetricViewShape();
    var select := SelectPaths(ReadinessView, "");
    assert forall i :: 0 <= i < |ACWRView.fields| ==>
      Selected(ACWRView.fields[i].name, SubSelection(ACWRView, "acwr", select));
    assert forall i :: 0 <= i < |WellnessMetricView.fields| ==>
      Selected(WellnessMetricView.fields[i].name, SubSelection(WellnessMetricView, "wellnessHistory", select));
    ViewWithAllFields(select, acwr, history, cursorOf, pagination);
  }

  /** Any selection that keeps every field of both parts resolves to the full view. */
  lemma ViewWithAllFields(select: seq<string>, acwr: A.AcwrResult, history: seq<W.WellnessRecord>,
                          cursorOf: Value -> string, pagination: Pagination)
    requires Selected("acwr", select) && Selected("wellnessHistory", select)
    requires forall i :: 0 <= i < |ACWRView.fields| ==>
      Selected(ACWRView.fields[i].name, SubSelection(ACWRView, "acwr", select))
    requires forall i :: 0 <= i < |WellnessMetricView.fields| ==>
      Selected(WellnessMetricView.fields[i].name, SubSelection(WellnessMetricView, "wellnessHistory", select))
    ensures Resolve(ReadinessView, select, ReadinessData(acwr, history), cursorOf, pagination)
         == FullView(acwr, history, cursorOf, pagination)
  {
    var data := ReadinessData(acwr, history);
    ReadinessFullyResolved(select, data, cursorOf, pagination);
    var r := Resolve(ReadinessView, select, data, cursorOf, pagination).props;
    var full := FullView(acwr, history, cursorOf, pagination).props;
    AcwrDataHasViewKeys(acwr);
    var elems := WellnessData(history);
    forall j | 0 <= j < |elems|
      ensures r["wellnessHistory"].items[j] == full["wellnessHistory"].items[j]
    {
      WellnessMetricHasViewKeys(history[j]);
    }
    assert r["wellnessHistory"].items == full["wellnessHistory"].items;
    assert r == full;
  }

  lemma RestrictToOwnKeys(m: map<string, Value>, names: seq<string>)
    requires forall k :: k in m ==> k in names
    ensures Restrict(m, names) == m
  {
  }

  lemma AcwrDataHasViewKeys(acwr: A.AcwrResult)
    ensures Restrict(AcwrData(acwr), FieldNames(ACWRView.fields)) == AcwrData(acwr)
  {
    ACWRViewShape();
    RestrictToOwnKeys(AcwrData(acwr), FieldNames(ACWRView.fields));
  }

  lemma WellnessMetricHasViewKeys(w: W.WellnessRecord)
    ensures Restrict(WellnessMetric(w), FieldNames(WellnessMetricView.fields)) == WellnessMetric(w)
  {
    WellnessMetricViewShape();
    RestrictToOwnKeys(WellnessMetric(w), FieldNames(WellnessMetricView.fields));
  }

  /** The default window is the 28 days ending on the requested date. */
  lemma DefaultWindow(tenantId: string, userId: string, date: Day)
    ensures var q := WellnessQuery(tenantId, userId, date, DefaultHistoryDays);
      q.startDate == date - 27 && q.endDate == date && WindowLength(q.startDate, q.endDate) == 28
  {
  }

  /** Every reported wellness record is the caller's own and falls in the window. */
  lemma HistoryIsCallersWindow(wellness: seq<W.WellnessRow>, tenantId: string, userId: string, date: Day, h: int)
    ensures forall rec :: rec in ReportedHistory(wellness, tenantId, userId, date, h) ==>
      && rec.row in wellness
      && rec.row.tenantId == tenantId && rec.row.userId == userId
      && date - h < rec.row.date <= date
  {
    var q := WellnessQuery(tenantId, userId, date, h);
    var recs := ReportedHistory(wellness, tenantId, userId, date, h);
    forall rec | rec in recs
      ensures rec.row in wellness && W.InRange(q, rec.row)
    {
      var j :| 0 <= j < |recs| && recs[j] == rec;
      assert rec.row == W.RowsInRange(wellness, q)[j];
    }
  }
}
