/** Guarantees of the early-exit loop over whole runs, with the guards free to change between verdicts. */
module EarlyExitLaws {
  import opened Common
  import opened EarlyExit

  /**
   * The wall clock: a row is written no earlier than its cycle's clock, rows in order, and a position
   * opened after a snapshot enters no earlier than it.
   */
  ghost predicate Timely(steps: seq<Step>) {
    && (forall i, j | 0 <= i < j < |steps| && steps[i].BeginCycle? && steps[j].Opened? ::
          EntersAfter(steps[j].entryTime, steps[i].taken))
    && (forall i | 0 <= i < |steps| && steps[i].Verdict? :: steps[i].now <= steps[i].createdAt)
    && (forall i, j | 0 <= i < j < |steps| && steps[i].Verdict? && steps[j].Verdict? ::
        steps[i].createdAt <= steps[j].createdAt)
  }

  predicate EntersAfter(entryTime: Option<int>, t: int) {
    entryTime.None? || entryTime.value >= t
  }

  // -------------------------------------------------------------- cooldown

  ghost predicate SpacedAtLeast(rows: seq<Row>) {
    forall i, j | 0 <= i < j < |rows| && rows[i].symbol == rows[j].symbol && rows[j].guards.cooldownMin > 0 ::
      rows[j].createdAt - rows[i].createdAt >= rows[j].guards.cooldownMin * MINUTE
  }

  lemma {:induction false} LastExitIsLatest(rows: seq<Row>, symbol: string)
    ensures forall i | 0 <= i < |rows| && rows[i].symbol == symbol ::
              LastExit(rows, symbol).Some? && rows[i].createdAt <= LastExit(rows, symbol).value
    decreases |rows|
  {
    if rows != [] {
      LastExitIsLatest(rows[..|rows| - 1], symbol);
      assert rows == rows[..|rows| - 1] + [rows[|rows| - 1]];
    }
  }

  /** Two news closes of one symbol are at least the cooldown in force at the later one apart. */
  lemma {:induction false} CooldownKept(steps: seq<Step>, zone: int)
    requires Timely(steps)
    ensures SpacedAtLeast(Run(steps, zone).rows)
    decreases |steps|
  {
    if steps != [] {
      var before, v := steps[..|steps| - 1], steps[|steps| - 1];
      var s := Run(before, zone);
      CooldownKept(before, zone);
      if v.Verdict? && Judged(s, v.id) {
        LastExitIsLatest(s.rows, s.trades[v.id].symbol);
      }
    }
  }

  // ---------------------------------------------------------------- budget

  lemma {:induction false} CountMonotone(rows: seq<Row>, symbol: string, from: int, from': int, until: Option<int>)
    requires from' <= from
    ensures CountBetween(rows, symbol, from, until) <= CountBetween(rows, symbol, from', None)
    decreases |rows|
  {
    if rows != [] {
      CountMonotone(rows[..|rows| - 1], symbol, from, from', until);
    }
  }

  function DayOf(t: int): int {
    t / DAY * DAY
  }

  /** Closes of a symbol so far, the `j`th included, on the UTC day of the `j`th. */
  function SameDay(rows: seq<Row>, j: nat): nat
    requires j < |rows|
  {
    CountBetween(rows[..j + 1], rows[j].symbol, DayOf(rows[j].createdAt), Some(DayOf(rows[j].createdAt) + DAY))
  }

  ghost predicate WithinBudget(rows: seq<Row>) {
    forall j | 0 <= j < |rows| && rows[j].guards.maxPerDay > 0 :: SameDay(rows, j) <= rows[j].guards.maxPerDay
  }

  /** On a clock at or west of UTC the store's midnight is never after the row's own day began. */
  lemma MidnightNotAhead(now: int, createdAt: int, zone: int)
    requires zone <= 0 && now <= createdAt
    ensures StartOfDay(now, zone) <= DayOf(createdAt)
  {
    DayMonotone(now + zone, createdAt);
  }

  lemma DayMonotone(a: int, b: int)
    requires a <= b
    ensures a / DAY * DAY <= b / DAY * DAY
  {
  }

  lemma EarlierDay(rows: seq<Row>, row: Row, j: nat)
    requires j < |rows|
    ensures SameDay(rows + [row], j) == SameDay(rows, j)
  {
    hide CountBetween, DayOf;
    assert (rows + [row])[..j + 1] == rows[..j + 1];
  }

  lemma LastDay(rows: seq<Row>, row: Row, from: int)
    requires from <= DayOf(row.createdAt)
    ensures SameDay(rows + [row], |rows|) <= CountBetween(rows, row.symbol, from, None) + 1
  {
    hide DayOf;
    var all := rows + [row];
    assert all[..|rows| + 1] == all && all[..|all| - 1] == rows;
    CountMonotone(rows, row.symbol, DayOf(row.createdAt), from, Some(DayOf(row.createdAt) + DAY));
  }

  lemma AppendWithinBudget(rows: seq<Row>, row: Row, from: int)
    requires WithinBudget(rows) && from <= DayOf(row.createdAt)
    requires row.guards.maxPerDay > 0 ==> CountBetween(rows, row.symbol, from, None) < row.guards.maxPerDay
    ensures WithinBudget(rows + [row])
  {
    var all := rows + [row];
    forall j | 0 <= j < |all| && all[j].guards.maxPerDay > 0
      ensures SameDay(all, j) <= all[j].guards.maxPerDay
    {
      if j < |rows| {
        EarlierDay(rows, row, j);
      } else {
        LastDay(rows, row, from);
      }
      hide *;
    }
  }

  /** No symbol exceeds the daily budget in force, on any UTC day, while the process clock is not east of UTC. */
  lemma {:induction false} BudgetKept(steps: seq<Step>, zone: int)
    requires Timely(steps) && zone <= 0
    ensures WithinBudget(Run(steps, zone).rows)
    decreases |steps|
  {
    if steps != [] {
      var before, v := steps[..|steps| - 1], steps[|steps| - 1];
      var s := Run(before, zone);
      BudgetKept(before, zone);
      if v.Verdict? && Next(s, v, zone).rows != s.rows {
        MidnightNotAhead(v.now, v.createdAt, zone);
        AppendWithinBudget(s.rows, Row(s.trades[v.id].symbol, v.createdAt, v.guards), StartOfDay(v.now, zone));
      }
    }
  }

  const ONE_A_DAY: Guards := Guards(true, 0, 0, 1, 0.5)

  /** A position of "A" entered at `entry`, then a cycle that judges position `id` at `t`. */
  function OneClose(id: nat, entry: int, t: int): seq<Step> {
    [Opened("A", Some(entry)), BeginCycle(t), Verdict(id, t, None, 0.9, ONE_A_DAY, t, true)]
  }

  /** East of UTC the local date turns before the UTC day ends, and the count starts over. */
  function EastRun(zone: int): seq<Step> {
    OneClose(0, 0, DAY - zone - 1) + OneClose(1, DAY - zone - 1, DAY - zone)
  }

  lemma RunStep(steps: seq<Step>, step: Step, zone: int)
    ensures Run(steps + [step], zone) == Next(Run(steps, zone), step, zone)
  {
    assert (steps + [step])[..|steps|] == steps;
  }

  lemma ThreeSteps(steps: seq<Step>, a: Step, b: Step, c: Step, zone: int)
    ensures Run(steps + [a, b, c], zone) == Next(Next(Next(Run(steps, zone), a, zone), b, zone), c, zone)
  {
    hide *;
    RunStep(steps, a, zone);
    RunStep(steps + [a], b, zone);
    RunStep(steps + [a] + [b], c, zone);
    assert steps + [a] + [b] + [c] == steps + [a, b, c];
  }

  /** A fresh position of "A" is opened and closed on the news at `t`, the count since midnight being zero. */
  lemma OneEastClose(s: State, entry: int, t: int, zone: int)
    requires s.open == map[] && entry <= t && CountBetween(s.rows, "A", StartOfDay(t, zone), None) == 0
    ensures var v := Verdict(|s.trades|, t, None, 0.9, ONE_A_DAY, t, true);
            var s' := Next(Next(Next(s, Opened("A", Some(entry)), zone), BeginCycle(t), zone), v, zone);
            && s'.rows == s.rows + [Row("A", t, ONE_A_DAY)] && s'.open == map[] && |s'.trades| == |s.trades| + 1
            && s'.failedWrites == s.failedWrites
  {
    hide CountBetween, StartOfDay, LastExit;
    var s1 := Next(s, Opened("A", Some(entry)), zone);
    assert s1.trades[|s.trades|] == Position("A", Some(entry)) && s1.open == map["A" := |s.trades|];
    var s2 := Next(s1, BeginCycle(t), zone);
    assert Judged(s2, |s.trades|);
    assert GuardsPass(s2, Verdict(|s.trades|, t, None, 0.9, ONE_A_DAY, t, true), zone);
  }

  lemma EastMidnight(zone: int)
    requires 0 < zone < DAY
    ensures StartOfDay(DAY - zone, zone) == DAY
    ensures DayOf(DAY - zone) == 0 && DayOf(DAY - zone - 1) == 0
  {
  }

  lemma EastTimely(zone: int)
    ensures Timely(EastRun(zone))
  {
  }

  lemma FirstEastClose(a: int, zone: int)
    requires 0 <= a
    ensures var s1 := Run(OneClose(0, 0, a), zone);
            s1.rows == [Row("A", a, ONE_A_DAY)] && s1.open == map[] && |s1.trades| == 1 && s1.failedWrites == 0
  {
    CountOfNone("A", StartOfDay(a, zone), None);
    assert Run([], zone) == INIT && INIT.trades == [] && INIT.rows == [] && INIT.open == map[]
           && INIT.failedWrites == 0;
    hide Run, Next, GuardsPass, Judged, StartOfDay, CountBetween;
    assert [] + OneClose(0, 0, a) == OneClose(0, 0, a);
    ThreeSteps([], Opened("A", Some(0)), BeginCycle(a), Verdict(0, a, None, 0.9, ONE_A_DAY, a, true), zone);
    OneEastClose(INIT, 0, a, zone);
  }

  lemma EastRows(zone: int)
    requires 0 < zone < DAY
    ensures var s := Run(EastRun(zone), zone);
            s.rows == [Row("A", DAY - zone - 1, ONE_A_DAY), Row("A", DAY - zone, ONE_A_DAY)] && s.failedWrites == 0
  {
    var a, b := DAY - zone - 1, DAY - zone;
    EastMidnight(zone);
    CountOfOne(Row("A", a, ONE_A_DAY), DAY, None);
    var s1 := Run(OneClose(0, 0, a), zone);
    FirstEastClose(a, zone);
    hide Run, Next, GuardsPass, Judged, StartOfDay, CountBetween;
    ThreeSteps(OneClose(0, 0, a), Opened("A", Some(a)), BeginCycle(b),
               Verdict(1, b, None, 0.9, ONE_A_DAY, b, true), zone);
    OneEastClose(s1, a, b, zone);
  }

  lemma BudgetBrokenEast(zone: int)
    requires 0 < zone < DAY
    ensures Timely(EastRun(zone)) && !WithinBudget(Run(EastRun(zone), zone).rows)
  {
    EastMidnight(zone);
    hide Run, WithinBudget, Timely, EastRun, DayOf, StartOfDay;
    EastTimely(zone);
    EastRows(zone);
    EastDayHasTwo(Row("A", DAY - zone - 1, ONE_A_DAY), Row("A", DAY - zone, ONE_A_DAY));
  }

  lemma CountOfNone(symbol: string, from: int, until: Option<int>)
    ensures CountBetween([], symbol, from, until) == 0
  {
  }

  lemma CountOfOne(row: Row, from: int, until: Option<int>)
    ensures CountBetween([row], row.symbol, from, until)
            == if row.createdAt >= from && (until.None? || row.createdAt < until.value) then 1 else 0
  {
    assert [row][..0] == [];
  }

  lemma EastDayHasTwo(row1: Row, row2: Row)
    requires row1.symbol == row2.symbol && row2.guards == ONE_A_DAY && 0 <= row1.createdAt <= row2.createdAt < DAY
    requires DayOf(row2.createdAt) == 0
    ensures !WithinBudget([row1, row2])
  {
    var rows := [row1, row2];
    assert rows[..2] == rows && rows[..1] == [row1];
    CountOfOne(row1, 0, Some(DAY));
    assert SameDay(rows, 1) == 2;
  }

  /** The budget holds for every run exactly when the process clock is not east of UTC. */
  lemma BudgetKeptIff(zone: int)
    requires -DAY < zone < DAY
    ensures (forall steps | Timely(steps) :: WithinBudget(Run(steps, zone).rows)) <==> zone <= 0
  {
    if zone <= 0 {
      forall steps | Timely(steps)
        ensures WithinBudget(Run(steps, zone).rows)
      {
        BudgetKept(steps, zone);
      }
    } else {
      BudgetBrokenEast(zone);
    }
  }

  // ------------------------------------------------------ holds and alerts

  ghost predicate IdsInRange(s: State) {
    && (forall x | x in s.open :: 0 <= s.open[x] < |s.trades|)
    && (forall i | 0 <= i < |s.closings| ::
        0 <= s.closings[i].judged < |s.trades| && 0 <= s.closings[i].closed < |s.trades|)
  }

  /** What each close was allowed on: the switch, the confidence, and the age of the position judged. */
  ghost predicate Allowed(s: State, c: Closing)
    requires 0 <= c.judged < |s.trades|
  {
    && c.guards.enabled && c.noul >= c.guards.confFloor && c.confidence >= c.guards.confFloor
    && (c.guards.minHoldMin > 0 ==> Age(s.trades[c.judged], c.at) >= c.guards.minHoldMin * MINUTE)
  }

  ghost predicate AllAllowed(s: State) {
    IdsInRange(s) && forall i | 0 <= i < |s.closings| :: Allowed(s, s.closings[i])
  }

  lemma NextAllowed(s: State, step: Step, zone: int)
    requires AllAllowed(s)
    ensures AllAllowed(Next(s, step, zone))
  {
    var s' := Next(s, step, zone);
    assert s.trades <= s'.trades;
  }

  lemma {:induction false} RunAllowed(steps: seq<Step>, zone: int)
    ensures AllAllowed(Run(steps, zone))
    decreases |steps|
  {
    if steps != [] {
      RunAllowed(steps[..|steps| - 1], zone);
      NextAllowed(Run(steps[..|steps| - 1], zone), steps[|steps| - 1], zone);
    }
  }

  /** Every close had the switch, the confidence and the minimum hold of the position judged, on any clock. */
  lemma MinHoldKept(steps: seq<Step>, zone: int, i: nat)
    requires i < |Run(steps, zone).closings|
    ensures var s := Run(steps, zone); var c := s.closings[i];
            && 0 <= c.closed < |s.trades| && 0 <= c.judged < |s.trades|
            && Allowed(s, c)
            && (c.closed == c.judged && c.guards.minHoldMin > 0 ==> HoldKept(s, c))
  {
    RunAllowed(steps, zone);
  }

  // A symbol's open position is the one the cycle read, or entered no earlier than the cycle's snapshot.

  ghost predicate SinceSnapshot(s: State, id: int, symbol: string, sn: Snapshot)
    requires 0 <= id < |s.trades|
  {
    (symbol in sn.open && sn.open[symbol] == id) || EntersAfter(s.trades[id].entryTime, sn.taken)
  }

  ghost predicate OpenSinceSnapshot(s: State) {
    && IdsInRange(s)
    && (s.snapshot.Some? ==> forall x | x in s.open :: SinceSnapshot(s, s.open[x], x, s.snapshot.value))
    && (forall i | 0 <= i < |s.closings| :: ClosedIsJudgedOrLater(s, s.closings[i]))
  }

  ghost predicate ClosedIsJudgedOrLater(s: State, c: Closing)
    requires 0 <= c.closed < |s.trades|
  {
    c.closed == c.judged || EntersAfter(s.trades[c.closed].entryTime, c.taken)
  }

  lemma {:induction false} SnapshotWasTaken(steps: seq<Step>, zone: int)
    ensures Run(steps, zone).snapshot.Some? ==>
              exists i :: 0 <= i < |steps| && steps[i] == BeginCycle(Run(steps, zone).snapshot.value.taken)
    decreases |steps|
  {
    if steps != [] {
      var before, last := steps[..|steps| - 1], steps[|steps| - 1];
      SnapshotWasTaken(before, zone);
      if last.BeginCycle? {
        assert steps[|steps| - 1] == BeginCycle(Run(steps, zone).snapshot.value.taken);
      } else if Run(before, zone).snapshot.Some? {
        var i :| 0 <= i < |before| && before[i] == BeginCycle(Run(before, zone).snapshot.value.taken);
        assert steps[i] == before[i];
      }
    }
  }

  lemma NextOpenSinceSnapshot(s: State, step: Step, zone: int)
    requires OpenSinceSnapshot(s)
    requires step.Opened? && s.snapshot.Some? ==> EntersAfter(step.entryTime, s.snapshot.value.taken)
    ensures OpenSinceSnapshot(Next(s, step, zone))
  {
    hide GuardsPass;
    assert s.trades <= Next(s, step, zone).trades;
  }

  lemma {:induction false} RunOpenSinceSnapshot(steps: seq<Step>, zone: int)
    requires Timely(steps)
    ensures OpenSinceSnapshot(Run(steps, zone))
    decreases |steps|
  {
    if steps != [] {
      var before, last := steps[..|steps| - 1], steps[|steps| - 1];
      RunOpenSinceSnapshot(before, zone);
      SnapshotWasTaken(before, zone);
      NextOpenSinceSnapshot(Run(before, zone), last, zone);
    }
  }

  /** The position closed had reached the minimum hold in force. */
  ghost predicate HoldKept(s: State, c: Closing)
    requires 0 <= c.closed < |s.trades|
  {
    Age(s.trades[c.closed], c.at) >= c.guards.minHoldMin * MINUTE
  }

  /**
   * The close goes by symbol: where the symbol's open position is the one judged, the position closed has had its
   * hold; where it is another, it is too young - for every cycle that reads its clock within the hold
   * of its snapshot, which it takes five lines before. So the hold is kept exactly when the id open
   * under the symbol at the close is the id judged.
   */
  lemma MinHoldKeptIff(steps: seq<Step>, zone: int, i: nat)
    requires Timely(steps) && i < |Run(steps, zone).closings|
    ensures var s := Run(steps, zone); var c := s.closings[i];
            && 0 <= c.closed < |s.trades|
            && (c.guards.minHoldMin > 0 && c.at - c.taken < c.guards.minHoldMin * MINUTE ==>
                  (HoldKept(s, c) <==> c.closed == c.judged))
  {
    MinHoldKept(steps, zone, i);
    RunOpenSinceSnapshot(steps, zone);
    var s := Run(steps, zone);
    var c := s.closings[i];
    assert ClosedIsJudgedOrLater(s, c);
  }

  /** The same of one verdict, read before the position is closed: what the engine has open under the symbol. */
  lemma NextCloseKeepsHoldIff(steps: seq<Step>, v: Step, zone: int)
    requires Timely(steps + [v]) && v.Verdict? && v.guards.minHoldMin > 0
    requires var s := Run(steps, zone);
             && Judged(s, v.id) && GuardsPass(s, v, zone) && s.trades[v.id].symbol in s.open
             && v.now - s.snapshot.value.taken < v.guards.minHoldMin * MINUTE
    ensures var s := Run(steps, zone); var id := s.open[s.trades[v.id].symbol];
            && 0 <= id < |s.trades|
            && (Age(s.trades[id], v.now) >= v.guards.minHoldMin * MINUTE <==> id == v.id)
  {
    assert (steps + [v])[..|steps|] == steps;
    var s, after := Run(steps, zone), Run(steps + [v], zone);
    RunOpenSinceSnapshot(steps, zone);
    RunStep(steps, v, zone);
    MinHoldKeptIff(steps + [v], zone, |s.closings|);
    assert after.trades == s.trades;
  }

  const HOLD_TEN: Guards := Guards(true, 10, 0, 0, 0.5)

  const LATE_VERDICT: Step := Verdict(0, 10 * MINUTE, None, 0.9, HOLD_TEN, 10 * MINUTE, true)

  /** A symbol read by a cycle, then closed and reopened, and only then judged. */
  function ReopenedRun(): seq<Step> {
    [Opened("A", Some(0)), BeginCycle(10 * MINUTE)]
      + [ClosedElsewhere("A"), Opened("A", Some(10 * MINUTE)), LATE_VERDICT]
  }

  lemma ReopenedTimely()
    ensures Timely(ReopenedRun())
  {
  }

  lemma JudgedAfterReopening(s: State)
    requires s.trades == [Position("A", Some(0))] && s.open == map["A" := 0] && s.rows == [] && s.closings == []
    requires s.snapshot == Some(Snapshot(10 * MINUTE, map["A" := 0]))
    ensures var s' := Next(Next(Next(s, ClosedElsewhere("A"), 0), Opened("A", Some(10 * MINUTE)), 0), LATE_VERDICT, 0);
            && s'.trades == [Position("A", Some(0)), Position("A", Some(10 * MINUTE))]
            && |s'.closings| == 1 && s'.closings[0].closed == 1 && s'.closings[0].judged == 0
               && s'.closings[0].at == 10 * MINUTE
  {
    var s3 := Next(s, ClosedElsewhere("A"), 0);
    assert s3.open == map[];
    var s4 := Next(s3, Opened("A", Some(10 * MINUTE)), 0);
    assert s4.trades == s.trades + [Position("A", Some(10 * MINUTE))] && s4.open == map["A" := 1] && s4.rows == [];
    assert Judged(s4, 0) && GuardsPass(s4, LATE_VERDICT, 0);
  }

  /** The verdict on the old position closes the newborn one. */
  lemma ReopenedPositionIsClosedYoung()
    ensures var s := Run(ReopenedRun(), 0);
            && Timely(ReopenedRun()) && |s.closings| == 1 && |s.trades| == 2
            && s.closings[0].closed == 1 && s.closings[0].judged == 0 && Age(s.trades[1], s.closings[0].at) == 0
  {
    ReopenedTimely();
    var a := [Opened("A", Some(0)), BeginCycle(10 * MINUTE)];
    assert Run([], 0) == INIT && [] + [a[0]] == [a[0]] && [a[0]] + [a[1]] == a;
    RunStep([], a[0], 0);
    RunStep([a[0]], a[1], 0);
    var s1 := Next(INIT, a[0], 0);
    assert s1.trades == [Position("A", Some(0))] && s1.open == map["A" := 0];
    assert Next(s1, a[1], 0).snapshot == Some(Snapshot(10 * MINUTE, map["A" := 0]));
    hide Run, Next, Timely;
    JudgedAfterReopening(Run(a, 0));
    ThreeSteps(a, ClosedElsewhere("A"), Opened("A", Some(10 * MINUTE)), LATE_VERDICT, 0);
  }

  /**
   * Alerts sent, positions closed and rows written: one alert per close always, one row per close but for failed
   * writes.
   */
  ghost predicate Tallied(s: State) {
    && s.alerts == |s.closings|
    && |s.rows| + s.failedWrites == |s.closings|
    && IdsInRange(s)
    && (s.failedWrites == 0 ==> forall i | 0 <= i < |s.rows| ::
          s.rows[i] == Row(s.trades[s.closings[i].judged].symbol, s.closings[i].createdAt, s.closings[i].guards))
  }

  lemma NextTallied(s: State, step: Step, zone: int)
    requires Tallied(s)
    ensures Tallied(Next(s, step, zone))
  {
    assert s.trades <= Next(s, step, zone).trades;
  }

  lemma {:induction false} RunTallied(steps: seq<Step>, zone: int)
    ensures Tallied(Run(steps, zone))
    decreases |steps|
  {
    if steps != [] {
      RunTallied(steps[..|steps| - 1], zone);
      NextTallied(Run(steps[..|steps| - 1], zone), steps[|steps| - 1], zone);
    }
  }

  /** The closes read as the rows they should have left. */
  ghost function ClosesAsRows(s: State): seq<Row>
    requires IdsInRange(s)
  {
    seq(|s.closings|, i requires 0 <= i < |s.closings| =>
      Row(s.trades[s.closings[i].judged].symbol, s.closings[i].createdAt, s.closings[i].guards))
  }

  lemma RowsAreCloses(steps: seq<Step>, zone: int)
    requires Run(steps, zone).failedWrites == 0
    ensures IdsInRange(Run(steps, zone)) && Run(steps, zone).rows == ClosesAsRows(Run(steps, zone))
  {
    RunTallied(steps, zone);
  }

  /** With every write succeeding, the spacing is one of the closes themselves, not only of their rows. */
  lemma ClosesSpaced(steps: seq<Step>, zone: int, i: nat, j: nat)
    requires Timely(steps) && Run(steps, zone).failedWrites == 0
    requires i < j < |Run(steps, zone).closings|
    ensures var s := Run(steps, zone); var a, b := s.closings[i], s.closings[j];
            && 0 <= a.judged < |s.trades| && 0 <= b.judged < |s.trades|
            && (s.trades[a.judged].symbol == s.trades[b.judged].symbol && b.guards.cooldownMin > 0 ==>
                  b.createdAt - a.createdAt >= b.guards.cooldownMin * MINUTE)
  {
    RowsAreCloses(steps, zone);
    CooldownKept(steps, zone);
    var s := Run(steps, zone);
    assert s.rows[i].createdAt == s.closings[i].createdAt && s.rows[j].createdAt == s.closings[j].createdAt;
  }

  /**
   * With every write succeeding, the daily budget holds of the closes for every run exactly when the clock is
   * not east of UTC.
   */
  lemma CloseBudgetKeptIff(zone: int)
    requires -DAY < zone < DAY
    ensures (forall steps | Timely(steps) && Run(steps, zone).failedWrites == 0 ::
               IdsInRange(Run(steps, zone)) && WithinBudget(ClosesAsRows(Run(steps, zone)))) <==> zone <= 0
  {
    if zone <= 0 {
      forall steps | Timely(steps) && Run(steps, zone).failedWrites == 0
        ensures IdsInRange(Run(steps, zone)) && WithinBudget(ClosesAsRows(Run(steps, zone)))
      {
        RowsAreCloses(steps, zone);
        BudgetKept(steps, zone);
      }
    } else {
      BudgetBrokenEast(zone);
      EastRows(zone);
      RowsAreCloses(EastRun(zone), zone);
    }
  }

  // ------------------------------------------------------- exactly when it closes

  /** The rows of a symbol written since `from`. */
  function RowsSince(rows: seq<Row>, symbol: string, from: int): set<int> {
    set i | 0 <= i < |rows| && rows[i].symbol == symbol && rows[i].createdAt >= from
  }

  lemma {:induction false} CountIsSize(rows: seq<Row>, symbol: string, from: int)
    ensures CountBetween(rows, symbol, from, None) == |RowsSince(rows, symbol, from)|
    decreases |rows|
  {
    if rows != [] {
      var n := |rows| - 1;
      CountIsSize(rows[..n], symbol, from);
      var counts := rows[n].symbol == symbol && rows[n].createdAt >= from;
      assert RowsSince(rows, symbol, from) == RowsSince(rows[..n], symbol, from) + if counts then {n} else {};
    }
  }

  /** No row of the symbol was written less than `rest` before `now`. */
  predicate Rested(rows: seq<Row>, symbol: string, now: int, rest: int) {
    forall i | 0 <= i < |rows| && rows[i].symbol == symbol :: now - rows[i].createdAt >= rest
  }

  lemma {:induction false} RestedIff(rows: seq<Row>, symbol: string, now: int, rest: int)
    ensures Rested(rows, symbol, now, rest) <==>
            (LastExit(rows, symbol).Some? ==> now - LastExit(rows, symbol).value >= rest)
    decreases |rows|
  {
    if rows != [] {
      var n := |rows| - 1;
      RestedIff(rows[..n], symbol, now, rest);
      assert Rested(rows, symbol, now, rest) <==>
             Rested(rows[..n], symbol, now, rest) && (rows[n].symbol == symbol ==> now - rows[n].createdAt >= rest);
    }
  }

  /** The position has been held for `hold`; one without an entry time never has. */
  predicate HeldFor(p: Position, now: int, hold: int) {
    hold <= 0 || (p.entryTime.Some? && now - p.entryTime.value >= hold)
  }

  /**
   * A verdict on a judged position closes exactly when the symbol is open, the switch is on, the verdict and
   * the confidence reach the floor, the hold is over, the symbol has rested its cooldown since every row of
   * it, and fewer rows of it than the budget were written since the store's midnight. Otherwise nothing changes.
   */
  lemma VerdictClosesIff(s: State, v: Step, zone: int)
    requires v.Verdict? && Judged(s, v.id)
    ensures var g, p, s' := v.guards, s.trades[v.id], Next(s, v, zone);
            var noul := if v.noul.Some? then v.noul.value else v.answerConfidence;
            var closes :=
              && p.symbol in s.open && g.enabled && noul >= g.confFloor
              && (v.answerConfidence == 0.0 || v.answerConfidence >= g.confFloor)
              && HeldFor(p, v.now, g.minHoldMin * MINUTE)
              && (g.cooldownMin <= 0 || Rested(s.rows, p.symbol, v.now, g.cooldownMin * MINUTE))
              && (g.maxPerDay <= 0 || |RowsSince(s.rows, p.symbol, (v.now + zone) / DAY * DAY)| < g.maxPerDay);
            && (closes ==> s'.open == s.open - {p.symbol} && s'.alerts == s.alerts + 1
                           && |s'.closings| == |s.closings| + 1
                           && s'.rows == s.rows + if v.written then [Row(p.symbol, v.createdAt, g)] else [])
            && (!closes ==> s' == s)
  {
    var p := s.trades[v.id];
    CountIsSize(s.rows, p.symbol, StartOfDay(v.now, zone));
    RestedIff(s.rows, p.symbol, v.now, v.guards.cooldownMin * MINUTE);
    HeldIff(p, v.now, v.guards.minHoldMin);
    hide LastExit, CountBetween, Rested, RowsSince, HeldFor, Age;
  }

  lemma HeldIff(p: Position, now: int, minutes: int)
    ensures HeldFor(p, now, minutes * MINUTE) <==> !(minutes > 0 && Age(p, now) < minutes * MINUTE)
  {
  }

  /** An hour old, last exited two hours ago, one of three exits today: the verdict closes. */
  lemma RestedSymbolCloses()
    ensures var g := Guards(true, 10, 30, 3, 0.6);
            var s := State([Position("A", Some(2 * 60 * MINUTE))], map["A" := 0],
                           Some(Snapshot(3 * 60 * MINUTE, map["A" := 0])), [Row("A", 60 * MINUTE, g)], [], 0, 0);
            var s' := Next(s, Verdict(0, 3 * 60 * MINUTE, Some(0.9), 0.9, g, 3 * 60 * MINUTE, true), 0);
            s'.open == map[] && s'.alerts == 1 && |s'.rows| == 2
  {
    var g := Guards(true, 10, 30, 3, 0.6);
    var rows := [Row("A", 60 * MINUTE, g)];
    var s := State([Position("A", Some(2 * 60 * MINUTE))], map["A" := 0],
                   Some(Snapshot(3 * 60 * MINUTE, map["A" := 0])), rows, [], 0, 0);
    VerdictClosesIff(s, Verdict(0, 3 * 60 * MINUTE, Some(0.9), 0.9, g, 3 * 60 * MINUTE, true), 0);
    assert RowsSince(rows, "A", 0) == {0};
    hide Next;
  }
}
