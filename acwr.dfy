/**
 * The Acute:Chronic Workload Ratio (src/services/acwr.service.ts): acute load
 * is the load of the trailing 7 calendar days, chronic load the load of the
 * trailing 28 calendar days divided by 4, and the ratio between them flags a
 * danger zone above 1.5.
 */
module AcwrService {
  import opened Wrappers
  import opened Calendar
  import WS = WorkoutSessionService

  /** The `{date, training_load}` shape the load functions read. */
  datatype DatedLoad = DatedLoad(date: Day, trainingLoad: int)

  datatype AcwrResult = AcwrResult(acuteLoad: int, chronicLoad: real, ratio: real, isDanger: bool)

  /** Arguments of `calculateACWR`; the user id is optional. */
  datatype AcwrInput = AcwrInput(tenantId: string, userId: Option<string>, date: Day)

  function LoadsOf(sessions: seq<WS.WorkoutSession>): (loads: seq<DatedLoad>)
    ensures |loads| == |sessions|
    ensures forall i :: 0 <= i < |sessions| ==>
      loads[i] == DatedLoad(sessions[i].date, sessions[i].trainingLoad)
  {
    if sessions == [] then []
    else [DatedLoad(sessions[0].date, sessions[0].trainingLoad)] + LoadsOf(sessions[1..])
  }

  /** Sum of every load, whatever its date. */
  function Total(loads: seq<DatedLoad>): int {
    if loads == [] then 0 else loads[0].trainingLoad + Total(loads[1..])
  }

  /** The filter-then-reduce chain: sum of the loads dated in [from, to]. */
  function WindowSum(loads: seq<DatedLoad>, from: Day, to: Day): int {
    if loads == [] then 0
    else
      (if InWindow(loads[0].date, from, to) then loads[0].trainingLoad else 0)
      + WindowSum(loads[1..], from, to)
  }

  /** `calculateAcuteLoad`: the closed 7-day window [ref - 6, ref]. */
  function AcuteLoad(loads: seq<DatedLoad>, ref: Day): int {
    WindowSum(loads, ref - 6, ref)
  }

  /** `calculateChronicLoad`: the closed 28-day window [ref - 27, ref], over 4. */
  function ChronicLoad(loads: seq<DatedLoad>, ref: Day): real {
    WindowSum(loads, ref - 27, ref) as real / 4.0
  }

  /**
   * The acute load is the total of the loads when all of them fall in the
   * last 7 days, 0 when none does, and between 0 and the total for
   * non-negative loads.
   */
  lemma AcuteLoadRange(loads: seq<DatedLoad>, ref: Day)
    ensures (forall x :: x in loads ==> ref - 6 <= x.date <= ref) ==> AcuteLoad(loads, ref) == Total(loads)
    ensures (forall x :: x in loads ==> x.date < ref - 6 || ref < x.date) ==> AcuteLoad(loads, ref) == 0
    ensures (forall x :: x in loads ==> x.trainingLoad >= 0) ==> 0 <= AcuteLoad(loads, ref) <= Total(loads)
  {
    WindowSumExtremes(loads, ref - 6, ref);
  }

  /**
   * Four times the chronic load is the total of the loads when all of them
   * fall in the last 28 days, 0 when none does, and between 0 and the total
   * for non-negative loads.
   */
  lemma ChronicLoadRange(loads: seq<DatedLoad>, ref: Day)
    ensures (forall x :: x in loads ==> ref - 27 <= x.date <= ref) ==> 4.0 * ChronicLoad(loads, ref) == Total(loads) as real
    ensures (forall x :: x in loads ==> x.date < ref - 27 || ref < x.date) ==> ChronicLoad(loads, ref) == 0.0
    ensures (forall x :: x in loads ==> x.trainingLoad >= 0) ==> 0.0 <= 4.0 * ChronicLoad(loads, ref) <= Total(loads) as real
  {
    WindowSumExtremes(loads, ref - 27, ref);
  }

  /** `isDangerZone`: strictly above 1.5. */
  function IsDangerZone(ratio: real): (danger: bool)
    ensures danger <==> ratio > 1.5
  {
    ratio > 1.5
  }

  /** Acute over chronic, with 0 in place of a division by zero. */
  function Ratio(acute: real, chronic: real): (ratio: real)
    ensures chronic == 0.0 ==> ratio == 0.0
    ensures chronic != 0.0 ==> ratio * chronic == acute
  {
    if chronic == 0.0 then 0.0 else acute / chronic
  }

  /** The result `calculateACWR` builds from the two fetched lists. */
  function ComposeAcwr(acuteSessions: seq<DatedLoad>, chronicSessions: seq<DatedLoad>, ref: Day): (r: AcwrResult)
    ensures r.acuteLoad == AcuteLoad(acuteSessions, ref) && r.chronicLoad == ChronicLoad(chronicSessions, ref)
    ensures r.chronicLoad == 0.0 ==> r.ratio == 0.0 && !r.isDanger
    ensures r.chronicLoad != 0.0 ==> r.ratio * r.chronicLoad == r.acuteLoad as real
    ensures r.isDanger <==> r.ratio > 1.5
  {
    var acute := AcuteLoad(acuteSessions, ref);
    var chronic := ChronicLoad(chronicSessions, ref);
    var ratio := Ratio(acute as real, chronic);
    AcwrResult(acute, chronic, ratio, IsDangerZone(ratio))
  }

  /** The range query `calculateACWR` issues for the window starting `back` days before the date. */
  function FetchQuery(input: AcwrInput, back: int): WS.RangeQuery {
    WS.RangeQuery(input.tenantId, input.date - back, input.date, input.userId)
  }

  /**
   * `calculateACWR` over the stored sessions: the acute fetch covers
   * [date - 6, date], the chronic fetch [date - 27, date], both scoped to the
   * tenant and the optional user. The result equals the composition over the
   * whole scope: the two fetch ranges lose nothing the windows need, so the
   * 28-day fetch alone would give the same acute load.
   */
  function CalculateAcwr(rows: seq<WS.WorkoutSession>, input: AcwrInput): (r: AcwrResult)
    ensures var all := ScopedLoads(rows, input.tenantId, input.userId);
      r == ComposeAcwr(all, all, input.date)
  {
    var acuteSessions := WS.SessionsByDateRange(rows, FetchQuery(input, 6));
    var chronicSessions := WS.SessionsByDateRange(rows, FetchQuery(input, 27));
    FetchedWindowSum(rows, FetchQuery(input, 6), input.date - 6, input.date);
    FetchedWindowSum(rows, FetchQuery(input, 27), input.date - 27, input.date);
    ComposeAcwr(LoadsOf(acuteSessions), LoadsOf(chronicSessions), input.date)
  }

  // ---------------------------------------------------------------------
  // Window sums

  lemma {:induction false} WindowSumAppend(a: seq<DatedLoad>, b: seq<DatedLoad>, from: Day, to: Day)
    ensures WindowSum(a + b, from, to) == WindowSum(a, from, to) + WindowSum(b, from, to)
  {
    if a == [] {
      assert a + b == b;
    } else {
      assert (a + b)[1..] == a[1..] + b;
      WindowSumAppend(a[1..], b, from, to);
    }
  }

  /** Reordering the input changes neither load. */
  lemma {:induction false} WindowSumPermutation(a: seq<DatedLoad>, b: seq<DatedLoad>, from: Day, to: Day)
    requires multiset(a) == multiset(b)
    ensures WindowSum(a, from, to) == WindowSum(b, from, to)
    decreases |a|
  {
    if a == [] {
      assert |b| == |multiset(b)| == 0;
    } else {
      var x := a[0];
      assert x in multiset(b) by {
        assert x in multiset(a);
      }
      var i :| 0 <= i < |b| && b[i] == x;
      var rest := b[..i] + b[i + 1..];
      RemoveAtMultiset(b, i);
      assert multiset(a[1..]) == multiset(a) - multiset{x} by {
        assert a == [x] + a[1..];
      }
      WindowSumPermutation(a[1..], rest, from, to);
      WindowSumRemoveAt(b, i, from, to);
    }
  }

  lemma RemoveAtMultiset<T>(s: seq<T>, i: nat)
    requires i < |s|
    ensures multiset(s[..i] + s[i + 1..]) == multiset(s) - multiset{s[i]}
  {
    assert s == s[..i] + [s[i]] + s[i + 1..];
  }

  lemma WindowSumRemoveAt(b: seq<DatedLoad>, i: nat, from: Day, to: Day)
    requires i < |b|
    ensures WindowSum(b, from, to)
         == WindowSum(b[..i] + b[i + 1..], from, to) + WindowSum([b[i]], from, to)
  {
    assert b == b[..i] + [b[i]] + b[i + 1..];
    WindowSumAppend(b[..i] + [b[i]], b[i + 1..], from, to);
    WindowSumAppend(b[..i], [b[i]], from, to);
    WindowSumAppend(b[..i], b[i + 1..], from, to);
  }

  lemma WindowSumCons(x: DatedLoad, rest: seq<DatedLoad>, from: Day, to: Day)
    ensures WindowSum([x] + rest, from, to)
         == (if InWindow(x.date, from, to) then x.trainingLoad else 0) + WindowSum(rest, from, to)
  {
    assert ([x] + rest)[1..] == rest;
  }

  /** Loads dated outside the window, wherever they are added, change nothing. */
  lemma {:induction false} WindowSumIgnoresOutside(a: seq<DatedLoad>, extra: seq<DatedLoad>, from: Day, to: Day)
    requires forall x :: x in extra ==> !InWindow(x.date, from, to)
    ensures WindowSum(a + extra, from, to) == WindowSum(a, from, to)
    ensures WindowSum(extra + a, from, to) == WindowSum(a, from, to)
  {
    WindowSumAppend(a, extra, from, to);
    WindowSumAppend(extra, a, from, to);
    OutsideSumsToZero(extra, from, to);
  }

  lemma {:induction false} OutsideSumsToZero(extra: seq<DatedLoad>, from: Day, to: Day)
    requires forall x :: x in extra ==> !InWindow(x.date, from, to)
    ensures WindowSum(extra, from, to) == 0
  {
    if extra != [] {
      assert extra[0] in extra;
      assert forall x :: x in extra[1..] ==> x in extra;
      OutsideSumsToZero(extra[1..], from, to);
    }
  }

  /** A window holding every load sums to the total; one holding none sums to 0. */
  lemma {:induction false} WindowSumExtremes(loads: seq<DatedLoad>, from: Day, to: Day)
    ensures (forall x :: x in loads ==> InWindow(x.date, from, to)) ==> WindowSum(loads, from, to) == Total(loads)
    ensures (forall x :: x in loads ==> !InWindow(x.date, from, to)) ==> WindowSum(loads, from, to) == 0
    ensures (forall x :: x in loads ==> x.trainingLoad >= 0) ==> 0 <= WindowSum(loads, from, to) <= Total(loads)
  {
    if forall x :: x in loads ==> x.trainingLoad >= 0 {
      WindowSumBounds(loads, from, to);
    }
    if forall x :: x in loads ==> InWindow(x.date, from, to) {
      WindowSumOfInside(loads, from, to);
    }
    if forall x :: x in loads ==> !InWindow(x.date, from, to) {
      OutsideSumsToZero(loads, from, to);
    }
  }

  /** With non-negative loads, a window sums to between 0 and the total. */
  lemma {:induction false} WindowSumBounds(loads: seq<DatedLoad>, from: Day, to: Day)
    requires forall x :: x in loads ==> x.trainingLoad >= 0
    ensures 0 <= WindowSum(loads, from, to) <= Total(loads)
  {
    if loads != [] {
      assert loads[0] in loads;
      assert forall x :: x in loads[1..] ==> x in loads;
      WindowSumBounds(loads[1..], from, to);
    }
  }

  /** When every load lies in the window, the window sum is the plain total. */
  lemma {:induction false} WindowSumOfInside(a: seq<DatedLoad>, from: Day, to: Day)
    requires forall x :: x in a ==> InWindow(x.date, from, to)
    ensures WindowSum(a, from, to) == Total(a)
  {
    if a != [] {
      assert a[0] in a;
      assert forall x :: x in a[1..] ==> x in a;
      WindowSumOfInside(a[1..], from, to);
    }
  }

  /** A window inside a wider one sums to no more, when loads are non-negative. */
  lemma {:induction false} WindowSumMonotone(a: seq<DatedLoad>, from: Day, to: Day, lo: Day, hi: Day)
    requires lo <= from && to <= hi
    requires forall x :: x in a ==> x.trainingLoad >= 0
    ensures WindowSum(a, from, to) <= WindowSum(a, lo, hi)
  {
    if a != [] {
      assert a[0] in a;
      assert forall x :: x in a[1..] ==> x in a;
      WindowSumMonotone(a[1..], from, to, lo, hi);
    }
  }

  // ---------------------------------------------------------------------
  // The fetch ranges

  /** The loads of every stored session in the tenant/user scope, whatever their date. */
  function ScopedLoads(rows: seq<WS.WorkoutSession>, tenantId: string, userId: Option<string>): seq<DatedLoad> {
    if rows == [] then []
    else
      (if WS.InScope(tenantId, userId, rows[0]) then [DatedLoad(rows[0].date, rows[0].trainingLoad)] else [])
      + ScopedLoads(rows[1..], tenantId, userId)
  }

  /**
   * Re-filtering a range fetch by a window inside the range gives the same
   * sum as filtering the whole scope: the fetch range is no narrower than
   * the window that is summed.
   */
  lemma {:induction false} FetchedWindowSum(rows: seq<WS.WorkoutSession>, q: WS.RangeQuery, from: Day, to: Day)
    requires q.startDate <= from && to <= q.endDate
    ensures WindowSum(LoadsOf(WS.SessionsByDateRange(rows, q)), from, to)
         == WindowSum(ScopedLoads(rows, q.tenantId, q.userId), from, to)
  {
    if rows != [] {
      var s := rows[0];
      var rest := WS.SessionsByDateRange(rows[1..], q);
      FetchedWindowSum(rows[1..], q, from, to);
      WS.BuiltQueryMeansMatches(q, s);
      if WS.SatisfiesAll(WS.BuildQuery(q), s) {
        assert WS.SessionsByDateRange(rows, q) == [s] + rest;
        assert LoadsOf([s] + rest) == [DatedLoad(s.date, s.trainingLoad)] + LoadsOf(rest);
      } else {
        assert WS.SessionsByDateRange(rows, q) == rest;
      }
      assert [DatedLoad(s.date, s.trainingLoad)] + ScopedLoads(rows[1..], q.tenantId, q.userId)
          == ScopedLoads(rows, q.tenantId, q.userId)
          || ScopedLoads(rows[1..], q.tenantId, q.userId) == ScopedLoads(rows, q.tenantId, q.userId);
    }
  }

  /** With non-negative loads, four times the chronic load bounds the acute load. */
  lemma AcuteWithinChronic(rows: seq<WS.WorkoutSession>, input: AcwrInput)
    requires forall s :: s in rows ==> s.trainingLoad >= 0
    ensures var r := CalculateAcwr(rows, input); 4.0 * r.chronicLoad >= r.acuteLoad as real >= 0.0
  {
    var all := ScopedLoads(rows, input.tenantId, input.userId);
    ScopedLoadsNonNegative(rows, input.tenantId, input.userId);
    WindowSumMonotone(all, input.date - 6, input.date, input.date - 27, input.date);
    WindowSumBounds(all, input.date - 6, input.date);
  }

  lemma {:induction false} ScopedLoadsNonNegative(rows: seq<WS.WorkoutSession>, tenantId: string, userId: Option<string>)
    requires forall s :: s in rows ==> s.trainingLoad >= 0
    ensures forall x :: x in ScopedLoads(rows, tenantId, userId) ==> x.trainingLoad >= 0
  {
    if rows != [] {
      assert rows[0] in rows;
      assert forall s :: s in rows[1..] ==> s in rows;
      ScopedLoadsNonNegative(rows[1..], tenantId, userId);
    }
  }

  /** With no stored session in scope the result is all zero and not dangerous. */
  lemma NoSessionsGiveZero(rows: seq<WS.WorkoutSession>, input: AcwrInput)
    requires forall s :: s in rows ==> !WS.InScope(input.tenantId, input.userId, s)
    ensures CalculateAcwr(rows, input) == AcwrResult(0, 0.0, 0.0, false)
  {
    NothingInScope(rows, input.tenantId, input.userId);
  }

  lemma {:induction false} NothingInScope(rows: seq<WS.WorkoutSession>, tenantId: string, userId: Option<string>)
    requires forall s :: s in rows ==> !WS.InScope(tenantId, userId, s)
    ensures ScopedLoads(rows, tenantId, userId) == []
  {
    if rows != [] {
      assert rows[0] in rows;
      assert forall s :: s in rows[1..] ==> s in rows;
      NothingInScope(rows[1..], tenantId, userId);
    }
  }

  /** A session dated after the reference date counts toward neither load. */
  lemma FutureSessionIgnored(loads: seq<DatedLoad>, later: DatedLoad, ref: Day)
    requires later.date > ref
    ensures AcuteLoad(loads + [later], ref) == AcuteLoad(loads, ref)
    ensures ChronicLoad(loads + [later], ref) == ChronicLoad(loads, ref)
  {
    WindowSumIgnoresOutside(loads, [later], ref - 6, ref);
    WindowSumIgnoresOutside(loads, [later], ref - 27, ref);
  }

  // ---------------------------------------------------------------------
  // The documented examples

  /** `n` consecutive days ending at `ref`, one session of `load` each. */
  function DailySessions(ref: Day, n: nat, load: int): (s: seq<DatedLoad>)
    ensures |s| == n
    ensures forall x :: x in s ==> ref - n < x.date <= ref && x.trainingLoad == load
  {
    if n == 0 then [] else [DatedLoad(ref - n + 1, load)] + DailySessions(ref, n - 1, load)
  }

  lemma {:induction false} DailySessionsTotal(ref: Day, n: nat, load: int)
    ensures Total(DailySessions(ref, n, load)) == n * load
  {
    if n > 0 {
      DailySessionsTotal(ref, n - 1, load);
    }
  }

  /** 28 days at 100 and one day at 2800 give the same chronic load, 700. */
  lemma ChronicLoadSparsityExample(ref: Day)
    ensures ChronicLoad(DailySessions(ref, 28, 100), ref) == 700.0
    ensures ChronicLoad([DatedLoad(ref, 2800)], ref) == 700.0
  {
    WindowSumOfInside(DailySessions(ref, 28, 100), ref - 27, ref);
    DailySessionsTotal(ref, 28, 100);
    WindowSumCons(DatedLoad(ref, 2800), [], ref - 27, ref);
    assert [DatedLoad(ref, 2800)] + [] == [DatedLoad(ref, 2800)];
  }

  /** The seven days before and including the reference day; a session 7 days back is left out. */
  lemma AcuteLoadExamples(ref: Day)
    ensures AcuteLoad([DatedLoad(ref, 100), DatedLoad(ref - 1, 150), DatedLoad(ref - 2, 200),
                       DatedLoad(ref - 3, 100), DatedLoad(ref - 4, 50), DatedLoad(ref - 5, 100),
                       DatedLoad(ref - 6, 200)], ref) == 900
    ensures AcuteLoad([DatedLoad(ref, 100), DatedLoad(ref - 7, 500)], ref) == 100
  {
    var from := ref - 6;
    var week := [DatedLoad(ref, 100), DatedLoad(ref - 1, 150), DatedLoad(ref - 2, 200),
                 DatedLoad(ref - 3, 100), DatedLoad(ref - 4, 50), DatedLoad(ref - 5, 100),
                 DatedLoad(ref - 6, 200)];
    var i := 7;
    while i > 0
      invariant 0 <= i <= 7
      invariant WindowSum(week[i..], from, ref) == [900, 800, 650, 450, 350, 300, 200, 0][i]
    {
      i := i - 1;
      WindowSumCons(week[i], week[i + 1..], from, ref);
      assert week[i..] == [week[i]] + week[i + 1..];
    }
    assert week[0..] == week;
    WindowSumCons(DatedLoad(ref, 100), [DatedLoad(ref - 7, 500)], from, ref);
    WindowSumCons(DatedLoad(ref - 7, 500), [], from, ref);
    assert [DatedLoad(ref - 7, 500)] + [] == [DatedLoad(ref - 7, 500)];
  }

  lemma DangerZoneBoundary()
    ensures !IsDangerZone(1.5) && IsDangerZone(1.6) && !IsDangerZone(1.2)
  {
  }

  /**
   * A stored load of 4000 on the day and 100 twenty days earlier give acute
   * load 4000 and chronic load 1025, which is in the danger zone.
   */
  lemma DangerExample(tenantId: string, ref: Day)
    ensures var rows := [
        WS.WorkoutSession("a", tenantId, "user-1", ref, WS.Strength, 400, 10, WS.TrainingLoad(400, 10)),
        WS.WorkoutSession("b", tenantId, "user-1", ref - 20, WS.Strength, 10, 10, WS.TrainingLoad(10, 10))];
      var r := CalculateAcwr(rows, AcwrInput(tenantId, None, ref));
      r.acuteLoad == 4000 && r.chronicLoad == 1025.0 && r.isDanger
  {
    var rows := [
        WS.WorkoutSession("a", tenantId, "user-1", ref, WS.Strength, 400, 10, WS.TrainingLoad(400, 10)),
        WS.WorkoutSession("b", tenantId, "user-1", ref - 20, WS.Strength, 10, 10, WS.TrainingLoad(10, 10))];
    var input := AcwrInput(tenantId, None, ref);
    assert rows[1..] == [rows[1]] && rows[1..][1..] == [];
    var all := ScopedLoads(rows, tenantId, None);
    assert ScopedLoads(rows[1..][1..], tenantId, None) == [];
    assert ScopedLoads(rows[1..], tenantId, None) == [DatedLoad(ref - 20, 100)] + [];
    assert all == [DatedLoad(ref, 4000)] + [DatedLoad(ref - 20, 100)];
    assert [DatedLoad(ref - 20, 100)] + [] == [DatedLoad(ref - 20, 100)];
    WindowSumCons(DatedLoad(ref, 4000), [DatedLoad(ref - 20, 100)], ref - 6, ref);
    WindowSumCons(DatedLoad(ref, 4000), [DatedLoad(ref - 20, 100)], ref - 27, ref);
    WindowSumCons(DatedLoad(ref - 20, 100), [], ref - 6, ref);
    WindowSumCons(DatedLoad(ref - 20, 100), [], ref - 27, ref);
    assert ChronicLoad(all, ref) == 1025.0;
  }
}
