/**
 * The chart rows of the readiness dashboard (src/app/pages/dashboard.tsx,
 * lines 27-38): the wellness history is indexed by date in a `Map`, and every
 * ACWR history point becomes a row carrying the resting heart rate and HRV of
 * the wellness sample of its date, if there is one.
 */
module DashboardChart {
  import opened Wrappers
  import opened Calendar

  datatype HistoryPoint = HistoryPoint(date: Day, acuteLoad: real, chronicLoad: real, ratio: real, isDanger: bool)

  datatype WellnessPoint = WellnessPoint(id: string, date: Day, rhr: real, hrvRmssd: real)

  /** The payload the page reads; a field the server did not send is `None`. */
  datatype ReadinessData = ReadinessData(
    acwrHistory: Option<seq<HistoryPoint>>,
    wellnessHistory: Option<seq<WellnessPoint>>)

  /** A chart row; `None` stands for `undefined`. */
  datatype ChartRow = ChartRow(
    date: Day,
    ratio: real,
    acuteLoad: real,
    chronicLoad: real,
    rhr: Option<real>,
    hrvRmssd: Option<real>)

  /** The rows, or the `TypeError` of calling `map` on a missing `acwrHistory`. */
  datatype ChartOutcome = Rows(rows: seq<ChartRow>) | TypeError

  /**
   * `new Map(ws.map(w => [w.date, w]))`: entries are set in list order, so
   * the last sample of a date is the one kept.
   */
  function WellnessMap(ws: seq<WellnessPoint>): (m: map<Day, WellnessPoint>)
    ensures forall d :: d in m <==> exists i :: 0 <= i < |ws| && ws[i].date == d
    ensures forall d :: d in m ==>
      exists i :: 0 <= i < |ws| && ws[i] == m[d] && m[d].date == d
        && forall j :: i < j < |ws| ==> ws[j].date != d
  {
    if ws == [] then map[]
    else
      var init := ws[..|ws| - 1];
      var last := ws[|ws| - 1];
      var m := WellnessMap(init)[last.date := last];
      assert forall i :: 0 <= i < |init| ==> init[i] == ws[i];
      m
  }

  /** `wellnessMap.get(date)`. */
  function Lookup(m: map<Day, WellnessPoint>, date: Day): Option<WellnessPoint> {
    if date in m then Some(m[date]) else None
  }

  /** One row: the history point's own fields, and `w?.rhr`, `w?.hrv_rmssd`. */
  function Row(a: HistoryPoint, w: Option<WellnessPoint>): ChartRow {
    ChartRow(a.date, a.ratio, a.acuteLoad, a.chronicLoad,
             if w.Some? then Some(w.value.rhr) else None,
             if w.Some? then Some(w.value.hrvRmssd) else None)
  }

  /** `chartData`: `data?.acwrHistory.map(...) || []`. */
  function ChartData(data: Option<ReadinessData>): (out: ChartOutcome)
    ensures data.None? ==> out == Rows([])
    ensures data.Some? && data.value.acwrHistory.None? ==> out == TypeError
    ensures data.Some? && data.value.acwrHistory.Some? ==> out.Rows? && |out.rows| == |data.value.acwrHistory.value|
  {
    match data
    case None => Rows([])
    case Some(d) =>
      match d.acwrHistory
      case None => TypeError
      case Some(history) =>
        var m := WellnessMap(d.wellnessHistory.GetOr([]));
        Rows(seq(|history|, i requires 0 <= i < |history| => Row(history[i], Lookup(m, history[i].date))))
  }

  // ---------------------------------------------------------------------
  // Properties

  /**
   * Every row copies its history point, and carries the heart-rate values of
   * the last wellness sample of the same date, or none when no sample has it.
   */
  lemma RowsJoinByDate(history: seq<HistoryPoint>, ws: Option<seq<WellnessPoint>>, i: nat)
    requires i < |history|
    ensures var out := ChartData(Some(ReadinessData(Some(history), ws)));
      var samples := ws.GetOr([]);
      var row := out.rows[i];
      && row.date == history[i].date && row.ratio == history[i].ratio
      && row.acuteLoad == history[i].acuteLoad && row.chronicLoad == history[i].chronicLoad
      && ((forall k :: 0 <= k < |samples| ==> samples[k].date != history[i].date) ==>
            row.rhr.None? && row.hrvRmssd.None?)
      && forall k :: 0 <= k < |samples| && samples[k].date == history[i].date
                     && (forall j :: k < j < |samples| ==> samples[j].date != history[i].date) ==>
            row.rhr == Some(samples[k].rhr) && row.hrvRmssd == Some(samples[k].hrvRmssd)
  {
    var samples := ws.GetOr([]);
    var m := WellnessMap(samples);
    var d := history[i].date;
    if d in m {
      var k0 :| 0 <= k0 < |samples| && samples[k0] == m[d] && m[d].date == d
        && forall j :: k0 < j < |samples| ==> samples[j].date != d;
      assert forall k :: (0 <= k < |samples| && samples[k].date == d
                          && forall j :: k < j < |samples| ==> samples[j].date != d) ==> k == k0;
    }
  }

  /** Two samples on one date: the later one is joined. */
  lemma LaterSampleWins(a: HistoryPoint, first: WellnessPoint, second: WellnessPoint)
    requires first.date == a.date && second.date == a.date
    ensures ChartData(Some(ReadinessData(Some([a]), Some([first, second]))))
         == Rows([ChartRow(a.date, a.ratio, a.acuteLoad, a.chronicLoad, Some(second.rhr), Some(second.hrvRmssd))])
  {
    var m := WellnessMap([first, second]);
    assert [first, second][..1] == [first];
    assert [first][..0] == [];
    assert m == map[a.date := second];
  }

  /** A history point with no sample of its date gets no heart-rate values. */
  lemma MissingSampleIsUndefined(a: HistoryPoint, ws: seq<WellnessPoint>)
    requires forall k :: 0 <= k < |ws| ==> ws[k].date != a.date
    ensures ChartData(Some(ReadinessData(Some([a]), Some(ws))))
         == Rows([ChartRow(a.date, a.ratio, a.acuteLoad, a.chronicLoad, None, None)])
  {
    assert a.date !in WellnessMap(ws);
  }
}
