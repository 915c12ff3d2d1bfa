/**
 * Daily wellness samples (src/services/dailyWellness.service.ts): the HRV
 * ratio, the two getters that enrich rows with it, and create/upsert over the
 * daily_wellness table keyed by (tenant, user, date).
 */
module DailyWellnessService {
  import opened Wrappers
  import opened Calendar

  /** The six optional subjective scores; `None` is a null column. */
  datatype Scores = Scores(
    sleep: Option<int>,
    fatigue: Option<int>,
    muscleSoreness: Option<int>,
    stress: Option<int>,
    mood: Option<int>,
    diet: Option<int>)

  /** A row of the daily_wellness table (timestamps left out). */
  datatype WellnessRow = WellnessRow(
    id: string,
    tenantId: string,
    userId: string,
    date: Day,
    rhr: real,
    hrvRmssd: real,
    scores: Scores)

  /** A row as the service returns it, extended with its HRV ratio. */
  datatype WellnessRecord = WellnessRecord(row: WellnessRow, hrvRatio: real)

  /** Input of create and upsert; an omitted score is `None`. */
  datatype CreateInput = CreateInput(
    tenantId: string,
    userId: string,
    date: Day,
    rhr: real,
    hrvRmssd: real,
    scores: Scores)

  /** The natural key of a sample. */
  datatype WellnessKey = WellnessKey(tenantId: string, userId: string, date: Day)

  function KeyOf(r: WellnessRow): WellnessKey {
    WellnessKey(r.tenantId, r.userId, r.date)
  }

  function InputKey(input: CreateInput): WellnessKey {
    WellnessKey(input.tenantId, input.userId, input.date)
  }

  /** HRV (RMSSD) over resting heart rate, 0 when the heart rate is 0. */
  function HrvRatio(hrvRmssd: real, rhr: real): (ratio: real)
    ensures rhr == 0.0 ==> ratio == 0.0
    ensures rhr != 0.0 ==> ratio * rhr == hrvRmssd
  {
    if rhr == 0.0 then 0.0 else hrvRmssd / rhr
  }

  /** `{...row, hrv_ratio}` computed from the row's own values. */
  function Enrich(r: WellnessRow): WellnessRecord {
    WellnessRecord(r, HrvRatio(r.hrvRmssd, r.rhr))
  }

  // ---------------------------------------------------------------------
  // Getters

  datatype RangeQuery = RangeQuery(tenantId: string, userId: string, startDate: Day, endDate: Day)

  predicate InRange(q: RangeQuery, r: WellnessRow) {
    r.tenantId == q.tenantId && r.userId == q.userId && InWindow(r.date, q.startDate, q.endDate)
  }

  /** The rows the range query selects, in their stored order. */
  function RowsInRange(rows: seq<WellnessRow>, q: RangeQuery): (r: seq<WellnessRow>)
    ensures |r| <= |rows|
    ensures forall w :: w in r <==> w in rows && InRange(q, w)
  {
    if rows == [] then []
    else
      var rest := RowsInRange(rows[1..], q);
      assert forall w :: w in rows <==> w == rows[0] || w in rows[1..];
      if InRange(q, rows[0]) then [rows[0]] + rest else rest
  }

  /** Each row in range is selected exactly as often as it is stored, and no other row. */
  lemma {:induction false} RowsInRangeCounts(rows: seq<WellnessRow>, q: RangeQuery, w: WellnessRow)
    ensures multiset(RowsInRange(rows, q))[w] == if InRange(q, w) then multiset(rows)[w] else 0
  {
    if rows != [] {
      RowsInRangeCounts(rows[1..], q, w);
      assert rows == [rows[0]] + rows[1..];
      assert multiset(rows) == multiset{rows[0]} + multiset(rows[1..]);
    }
  }

  /** `getDailyWellnessByDateRange`: every selected row, each with its own ratio. */
  function DailyWellnessByDateRange(rows: seq<WellnessRow>, q: RangeQuery): (r: seq<WellnessRecord>)
    ensures |r| == |RowsInRange(rows, q)|
    ensures forall i :: 0 <= i < |r| ==>
      r[i].row == RowsInRange(rows, q)[i]
      && r[i].hrvRatio == HrvRatio(r[i].row.hrvRmssd, r[i].row.rhr)
  {
    var selected := RowsInRange(rows, q);
    seq(|selected|, i requires 0 <= i < |selected| => Enrich(selected[i]))
  }

  /** Index of the first row with the key, if any (`executeTakeFirst`). */
  function FirstIndexOf(rows: seq<WellnessRow>, key: WellnessKey): (r: Option<nat>)
    ensures r.None? <==> forall i :: 0 <= i < |rows| ==> KeyOf(rows[i]) != key
    ensures r.Some? ==>
      && r.value < |rows| && KeyOf(rows[r.value]) == key
      && forall i :: 0 <= i < r.value ==> KeyOf(rows[i]) != key
  {
    if rows == [] then None
    else if KeyOf(rows[0]) == key then Some(0)
    else match FirstIndexOf(rows[1..], key)
      case None => None
      case Some(i) => Some(i + 1)
  }

  /** `getDailyWellnessByDate`: the first row with the key, enriched, or nothing. */
  function DailyWellnessByDate(rows: seq<WellnessRow>, key: WellnessKey): (r: Option<WellnessRecord>)
    ensures r.None? <==> forall w :: w in rows ==> KeyOf(w) != key
    ensures r.Some? ==>
      && r.value.row in rows && KeyOf(r.value.row) == key
      && r.value.hrvRatio == HrvRatio(r.value.row.hrvRmssd, r.value.row.rhr)
  {
    match FirstIndexOf(rows, key)
    case None => None
    case Some(i) => Some(Enrich(rows[i]))
  }

  // ---------------------------------------------------------------------
  // Create and upsert

  /** At most one sample per (tenant, user, date): the table's unique constraint. */
  predicate UniqueKeys(rows: seq<WellnessRow>) {
    forall i, j :: 0 <= i < j < |rows| ==> KeyOf(rows[i]) != KeyOf(rows[j])
  }

  predicate UniqueIds(rows: seq<WellnessRow>) {
    forall i, j :: 0 <= i < j < |rows| ==> rows[i].id != rows[j].id
  }

  predicate FreshId(rows: seq<WellnessRow>, id: string) {
    forall i :: 0 <= i < |rows| ==> rows[i].id != id
  }

  /** The row `createDailyWellness` inserts. */
  function NewRow(id: string, input: CreateInput): WellnessRow {
    WellnessRow(id, input.tenantId, input.userId, input.date, input.rhr, input.hrvRmssd, input.scores)
  }

  /** The update branch: same row, new measurements, every score overwritten. */
  function Overwrite(existing: WellnessRow, input: CreateInput): WellnessRow {
    existing.(rhr := input.rhr, hrvRmssd := input.hrvRmssd, scores := input.scores)
  }

  /** The table after `upsertDailyWellness`: update the row with the key, else append. */
  function Upserted(rows: seq<WellnessRow>, input: CreateInput, freshId: string): seq<WellnessRow> {
    match FirstIndexOf(rows, InputKey(input))
    case Some(i) => rows[i := Overwrite(rows[i], input)]
    case None => rows + [NewRow(freshId, input)]
  }

  /** Every row whose id is `id` gets the update (`where('id', '=', id)`). */
  function UpdateWhereId(rows: seq<WellnessRow>, id: string, input: CreateInput): (r: seq<WellnessRow>)
    ensures |r| == |rows|
    ensures forall i :: 0 <= i < |rows| ==>
      r[i] == if rows[i].id == id then Overwrite(rows[i], input) else rows[i]
  {
    seq(|rows|, i requires 0 <= i < |rows| =>
      if rows[i].id == id then Overwrite(rows[i], input) else rows[i])
  }

  class WellnessStore {
    var rows: seq<WellnessRow>

    ghost predicate Valid()
      reads this
    {
      UniqueKeys(rows) && UniqueIds(rows)
    }

    constructor ()
      ensures Valid() && rows == []
    {
      rows := [];
    }

    /**
     * `createDailyWellness`: inserts the input under the fresh id; when the
     * key is already taken the unique constraint rejects the insert and the
     * result is `None`.
     */
    method CreateDailyWellness(input: CreateInput, freshId: string) returns (created: Option<WellnessRecord>)
      requires Valid() && FreshId(rows, freshId)
      modifies this
      ensures Valid()
      ensures old(DailyWellnessByDate(rows, InputKey(input))).Some? ==> created.None? && rows == old(rows)
      ensures old(DailyWellnessByDate(rows, InputKey(input))).None? ==>
        rows == old(rows) + [NewRow(freshId, input)]
        && created == Some(WellnessRecord(NewRow(freshId, input), HrvRatio(input.hrvRmssd, input.rhr)))
    {
      if DailyWellnessByDate(rows, InputKey(input)).Some? {
        created := None;
      } else {
        var row := NewRow(freshId, input);
        rows := rows + [row];
        created := Some(WellnessRecord(row, HrvRatio(input.hrvRmssd, input.rhr)));
      }
    }

    /**
     * `upsertDailyWellness`: reads the sample with the input's key; when one
     * exists it is updated in place by its id, otherwise the input is created.
     * The returned ratio is computed from the input.
     */
    method UpsertDailyWellness(input: CreateInput, freshId: string) returns (rec: WellnessRecord)
      requires Valid() && FreshId(rows, freshId)
      modifies this
      ensures Valid()
      ensures rows == Upserted(old(rows), input, freshId)
      ensures rec.row in rows && KeyOf(rec.row) == InputKey(input)
      ensures rec.hrvRatio == HrvRatio(input.hrvRmssd, input.rhr)
    {
      var hrvRatio := HrvRatio(input.hrvRmssd, input.rhr);
      var existing := DailyWellnessByDate(rows, InputKey(input));
      if existing.Some? {
        ghost var i := FirstIndexOf(rows, InputKey(input)).value;
        var updated := Overwrite(existing.value.row, input);
        rows := UpdateWhereId(rows, existing.value.row.id, input);
        assert rows == old(rows)[i := updated];
        UpsertKeepsUnique(old(rows), input, freshId);
        rec := WellnessRecord(updated, hrvRatio);
      } else {
        var created := CreateDailyWellness(input, freshId);
        rec := created.value;
      }
    }
  }

  // ---------------------------------------------------------------------
  // Properties of upsert

  lemma UpsertKeepsUnique(rows: seq<WellnessRow>, input: CreateInput, freshId: string)
    requires UniqueKeys(rows) && UniqueIds(rows) && FreshId(rows, freshId)
    ensures UniqueKeys(Upserted(rows, input, freshId)) && UniqueIds(Upserted(rows, input, freshId))
  {
  }

  /** After an upsert, the by-date getter returns the input's values under the key. */
  lemma UpsertThenGet(rows: seq<WellnessRow>, input: CreateInput, freshId: string)
    requires UniqueKeys(rows)
    ensures var got := DailyWellnessByDate(Upserted(rows, input, freshId), InputKey(input));
      got.Some?
      && got.value.row.rhr == input.rhr && got.value.row.hrvRmssd == input.hrvRmssd
      && got.value.row.scores == input.scores
      && got.value.hrvRatio == HrvRatio(input.hrvRmssd, input.rhr)
      && (got.value.row.id == match DailyWellnessByDate(rows, InputKey(input))
                                case Some(prev) => prev.row.id
                                case None => freshId)
  {
    var key := InputKey(input);
    var after := Upserted(rows, input, freshId);
    match FirstIndexOf(rows, key)
    case Some(i) =>
      assert FirstIndexOf(after, key) == Some(i) by {
        FirstIndexOfUnique(after, key, i);
      }
    case None =>
      assert FirstIndexOf(after, key) == Some(|rows|) by {
        FirstIndexOfUnique(after, key, |rows|);
      }
  }

  lemma FirstIndexOfUnique(rows: seq<WellnessRow>, key: WellnessKey, i: nat)
    requires i < |rows| && KeyOf(rows[i]) == key
    requires forall j :: 0 <= j < i ==> KeyOf(rows[j]) != key
    ensures FirstIndexOf(rows, key) == Some(i)
  {
    var r := FirstIndexOf(rows, key);
    assert r.Some?;
  }

  /** An upsert leaves every other key's sample as it was. */
  lemma UpsertLeavesOtherKeys(rows: seq<WellnessRow>, input: CreateInput, freshId: string, key: WellnessKey)
    requires UniqueKeys(rows)
    requires key != InputKey(input)
    ensures DailyWellnessByDate(Upserted(rows, input, freshId), key) == DailyWellnessByDate(rows, key)
  {
    var after := Upserted(rows, input, freshId);
    assert forall i :: 0 <= i < |rows| ==> KeyOf(after[i]) == KeyOf(rows[i]) && (KeyOf(rows[i]) == key ==> after[i] == rows[i]);
    match FirstIndexOf(rows, key)
    case Some(i) =>
      FirstIndexOfUnique(after, key, i);
    case None =>
      assert FirstIndexOf(after, key).None?;
  }

  /** Upserting the same input twice leaves the table as one upsert does. */
  lemma UpsertIdempotent(rows: seq<WellnessRow>, input: CreateInput, id1: string, id2: string)
    requires UniqueKeys(rows)
    ensures Upserted(Upserted(rows, input, id1), input, id2) == Upserted(rows, input, id1)
  {
    var key := InputKey(input);
    var once := Upserted(rows, input, id1);
    match FirstIndexOf(rows, key)
    case Some(i) =>
      FirstIndexOfUnique(once, key, i);
    case None =>
      FirstIndexOfUnique(once, key, |rows|);
  }

  lemma HrvRatioExamples()
    ensures HrvRatio(45.0, 0.0) == 0.0
    ensures HrvRatio(45.0, 55.0) == 45.0 / 55.0
  {
  }
}
