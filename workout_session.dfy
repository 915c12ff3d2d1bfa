/**
 * Workout sessions (src/services/workoutSession.service.ts): the per-session
 * load formula, the insert that stores it, and the date-range query over the
 * workout_session table, here an in-memory sequence of rows.
 */
module WorkoutSessionService {
  import opened Wrappers
  import opened Calendar

  datatype Modality = Strength | Rowing | Running | Cycling | Swimming | Other

  /** A row of the workout_session table (timestamps left out). */
  datatype WorkoutSession = WorkoutSession(
    id: string,
    tenantId: string,
    userId: string,
    date: Day,
    modality: Modality,
    durationMinutes: int,
    srpe: int,
    trainingLoad: int)

  /** The caller's part of a new session; the load is not among it. */
  datatype CreateInput = CreateInput(
    tenantId: string,
    userId: string,
    date: Day,
    modality: Modality,
    durationMinutes: int,
    srpe: int)

  /** Session-RPE training load: minutes times perceived exertion. */
  function TrainingLoad(durationMinutes: int, srpe: int): (load: int)
    ensures durationMinutes == 0 || srpe == 0 ==> load == 0
    ensures srpe == 1 ==> load == durationMinutes
    ensures durationMinutes >= 0 && srpe >= 0 ==> load >= 0
  {
    durationMinutes * srpe
  }

  /** The row `createWorkoutSession` inserts: the input, a new id, the computed load. */
  function NewSession(id: string, input: CreateInput): WorkoutSession {
    WorkoutSession(id, input.tenantId, input.userId, input.date, input.modality,
                   input.durationMinutes, input.srpe,
                   TrainingLoad(input.durationMinutes, input.srpe))
  }

  /** The table, as the rows in insertion order. */
  class SessionStore {
    var rows: seq<WorkoutSession>

    constructor ()
      ensures rows == []
    {
      rows := [];
    }

    /**
     * Inserts one session whose load is computed from the input's duration
     * and sRPE; `id` stands for the fresh UUID the source generates.
     */
    method CreateWorkoutSession(input: CreateInput, id: string) returns (created: WorkoutSession)
      modifies this
      ensures created.id == id && created.tenantId == input.tenantId
      ensures created.userId == input.userId && created.date == input.date
      ensures created.modality == input.modality
      ensures created.durationMinutes == input.durationMinutes && created.srpe == input.srpe
      ensures created.trainingLoad == input.durationMinutes * input.srpe
      ensures rows == old(rows) + [created]
    {
      created := NewSession(id, input);
      rows := rows + [created];
    }
  }

  /** Arguments of `getWorkoutSessionsByDateRange`; the user id is optional. */
  datatype RangeQuery = RangeQuery(tenantId: string, startDate: Day, endDate: Day, userId: Option<string>)

  /** One `where` clause of the query builder. */
  datatype Condition =
    | TenantIs(tenantId: string)
    | DateAtLeast(startDate: Day)
    | DateAtMost(endDate: Day)
    | UserIs(userId: string)

  predicate Holds(c: Condition, s: WorkoutSession) {
    match c
    case TenantIs(t) => s.tenantId == t
    case DateAtLeast(d) => s.date >= d
    case DateAtMost(d) => s.date <= d
    case UserIs(u) => s.userId == u
  }

  /** JavaScript truthiness of an optional string: present and non-empty. */
  predicate Truthy(u: Option<string>) {
    u.Some? && u.value != ""
  }

  /**
   * The `where` clauses the query accumulates: tenant and both date bounds,
   * and the user only when the given user id is truthy.
   */
  function BuildQuery(q: RangeQuery): (conds: seq<Condition>)
    ensures |conds| == if Truthy(q.userId) then 4 else 3
    ensures conds[..3] == [TenantIs(q.tenantId), DateAtLeast(q.startDate), DateAtMost(q.endDate)]
    ensures Truthy(q.userId) ==> conds[3] == UserIs(q.userId.value)
  {
    var query := [TenantIs(q.tenantId), DateAtLeast(q.startDate), DateAtMost(q.endDate)];
    if Truthy(q.userId) then query + [UserIs(q.userId.value)] else query
  }

  predicate SatisfiesAll(conds: seq<Condition>, s: WorkoutSession) {
    forall i :: 0 <= i < |conds| ==> Holds(conds[i], s)
  }

  /** The tenant and (when truthy) user scope of a query, whatever the dates. */
  predicate InScope(tenantId: string, userId: Option<string>, s: WorkoutSession) {
    s.tenantId == tenantId && (Truthy(userId) ==> s.userId == userId.value)
  }

  /** The rows the query keeps: in scope, with both date bounds inclusive. */
  predicate Matches(q: RangeQuery, s: WorkoutSession) {
    InScope(q.tenantId, q.userId, s) && InWindow(s.date, q.startDate, q.endDate)
  }

  lemma BuiltQueryMeansMatches(q: RangeQuery, s: WorkoutSession)
    ensures SatisfiesAll(BuildQuery(q), s) <==> Matches(q, s)
  {
    var conds := BuildQuery(q);
    if SatisfiesAll(conds, s) {
      assert Holds(conds[0], s) && Holds(conds[1], s) && Holds(conds[2], s);
      if Truthy(q.userId) {
        assert Holds(conds[3], s);
      }
    }
  }

  /** `getWorkoutSessionsByDateRange` over the rows, in their stored order. */
  function SessionsByDateRange(rows: seq<WorkoutSession>, q: RangeQuery): (r: seq<WorkoutSession>)
    ensures |r| <= |rows|
    ensures forall s :: s in r <==> s in rows && SatisfiesAll(BuildQuery(q), s)
  {
    if rows == [] then []
    else
      var rest := SessionsByDateRange(rows[1..], q);
      assert forall s :: s in rows <==> s == rows[0] || s in rows[1..];
      if SatisfiesAll(BuildQuery(q), rows[0]) then [rows[0]] + rest else rest
  }

  /**
   * Each matching row is returned exactly as often as it is stored, and no
   * other row at all: the query neither drops nor duplicates rows.
   */
  lemma {:induction false} SessionsByDateRangeCounts(rows: seq<WorkoutSession>, q: RangeQuery, s: WorkoutSession)
    ensures multiset(SessionsByDateRange(rows, q))[s]
         == if SatisfiesAll(BuildQuery(q), s) then multiset(rows)[s] else 0
  {
    if rows != [] {
      SessionsByDateRangeCounts(rows[1..], q, s);
      assert rows == [rows[0]] + rows[1..];
      assert multiset(rows) == multiset{rows[0]} + multiset(rows[1..]);
    }
  }

  /** The range query's result, stated with the plain predicate. */
  lemma SessionsByDateRangeMembers(rows: seq<WorkoutSession>, q: RangeQuery, s: WorkoutSession)
    ensures s in SessionsByDateRange(rows, q) <==>
      s in rows && s.tenantId == q.tenantId && q.startDate <= s.date <= q.endDate
      && (Truthy(q.userId) ==> s.userId == q.userId.value)
  {
    BuiltQueryMeansMatches(q, s);
  }

  /** Without a truthy user id the query returns the sessions of every user of the tenant. */
  lemma NoUserFilterCoversTenant(rows: seq<WorkoutSession>, q: RangeQuery, s: WorkoutSession)
    requires !Truthy(q.userId)
    requires s in rows && s.tenantId == q.tenantId && q.startDate <= s.date <= q.endDate
    ensures s in SessionsByDateRange(rows, q)
  {
    BuiltQueryMeansMatches(q, s);
  }

  lemma TrainingLoadExamples()
    ensures TrainingLoad(60, 7) == 420
    ensures TrainingLoad(0, 7) == 0
    ensures TrainingLoad(30, 1) == 30
    ensures TrainingLoad(30, 10) == 300
  {
  }
}
