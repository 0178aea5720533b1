/**
 * News-driven early exits: hard guards, the close itself, the alert and the judgment row. Time is
 * in nanoseconds since the epoch. A cycle judges the positions open when it took its snapshot;
 * positions may be closed and opened by others before a verdict is processed.
 */
module EarlyExit {
  import opened Common

  const MINUTE: int := 60_000_000_000
  const DAY: int := 86_400_000_000_000

  // ------------------------------------------------------------------ guards

  datatype Guards = Guards(enabled: bool, minHoldMin: int, cooldownMin: int, maxPerDay: int, confFloor: real)

  datatype Refusal = KillSwitch | TooYoung | CoolingDown | BudgetSpent | LowConfidence

  /** Which guards the decision core sets each cycle. */
  datatype Managed = Managed(minHold: bool, cooldown: bool, maxPerDay: bool, confFloor: bool)

  /** The core's numeric answers; `None` is a missing or malformed one. */
  datatype Answers = Answers(minHold: Option<real>, cooldown: Option<real>, maxPerDay: Option<real>,
                             confFloor: Option<real>)

  predicate Answered(m: Managed, a: Answers) {
    && (m.minHold ==> a.minHold.Some?) && (m.cooldown ==> a.cooldown.Some?)
    && (m.maxPerDay ==> a.maxPerDay.Some?) && (m.confFloor ==> a.confFloor.Some?)
  }

  function Nearest(x: real, lo: int, hi: int): int {
    if RoundAway(x) < lo then lo else if RoundAway(x) > hi then hi else RoundAway(x)
  }

  /** A count answer as the code applies it: rounded, unless the raw answer is out of bounds. */
  method ApplyCount(x: real, lo: int, hi: int) returns (applied: int)
    requires lo <= hi
    ensures applied == Nearest(x, lo, hi) && lo <= applied <= hi
  {
    applied := RoundAway(x);
    if x < lo as real {
      applied := lo;
    } else if x > hi as real {
      applied := hi;
    }
  }

  /**
   * Guards for one cycle: a managed guard is the core's answer within its hard bounds, any other the
   * configured value; a managed guard without an answer fails the cycle. The kill switch is never managed.
   */
  method ResolveEarlyExitGuards(cfg: Guards, m: Managed, a: Answers) returns (r: Option<Guards>)
    ensures r.Some? <==> Answered(m, a)
    ensures r.Some? ==>
      && r.value.enabled == cfg.enabled
      && r.value.minHoldMin == (if m.minHold then Nearest(a.minHold.value, 0, 1440) else cfg.minHoldMin)
      && r.value.cooldownMin == (if m.cooldown then Nearest(a.cooldown.value, 0, 1440) else cfg.cooldownMin)
      && r.value.maxPerDay == (if m.maxPerDay then Nearest(a.maxPerDay.value, 1, 10) else cfg.maxPerDay)
      && r.value.confFloor == (if m.confFloor then Max(0.5, Min(1.0, a.confFloor.value)) else cfg.confFloor)
    ensures r.Some? && m.maxPerDay ==> 1 <= r.value.maxPerDay <= 10
  {
    var res := cfg;
    if m.minHold {
      if a.minHold.None? {
        return None;
      }
      var applied := ApplyCount(a.minHold.value, 0, 1440);
      res := res.(minHoldMin := applied);
    }
    if m.cooldown {
      if a.cooldown.None? {
        return None;
      }
      var applied := ApplyCount(a.cooldown.value, 0, 1440);
      res := res.(cooldownMin := applied);
    }
    if m.maxPerDay {
      if a.maxPerDay.None? {
        return None;
      }
      var applied := ApplyCount(a.maxPerDay.value, 1, 10);
      res := res.(maxPerDay := applied);
    }
    if m.confFloor {
      if a.confFloor.None? {
        return None;
      }
      var applied := a.confFloor.value;
      if applied < 0.5 {
        applied := 0.5;
      } else if applied > 1.0 {
        applied := 1.0;
      }
      res := res.(confFloor := applied);
    }
    r := Some(res);
  }

  /** First failed guard, in the fixed order. */
  function EvaluateEarlyExitGuards(g: Guards, positionAge: int, lastExitAge: Option<int>, exitsToday: int,
                                   confidence: real): Option<Refusal> {
    if !g.enabled then Some(KillSwitch)
    else if g.minHoldMin > 0 && positionAge < g.minHoldMin * MINUTE then Some(TooYoung)
    else if g.cooldownMin > 0 && lastExitAge.Some? && lastExitAge.value < g.cooldownMin * MINUTE then Some(CoolingDown)
    else if g.maxPerDay > 0 && exitsToday >= g.maxPerDay then Some(BudgetSpent)
    else if confidence < g.confFloor then Some(LowConfidence)
    else None
  }

  // ------------------------------------------------------------------- state

  datatype Position = Position(symbol: string, entryTime: Option<int>)

  /** A judgment row with action `closed`, and the guards in force when it was written. */
  datatype Row = Row(symbol: string, createdAt: int, guards: Guards)

  /** One close: the position judged and the one closed, the cycle's snapshot and clock, and the row's time. */
  datatype Closing = Closing(
    judged: int,
    closed: int,
    taken: int,
    at: int,
    createdAt: int,
    guards: Guards,
    noul: real,
    confidence: real)

  /** The open positions a cycle starts from, and when it read them. */
  datatype Snapshot = Snapshot(taken: int, open: map<string, int>)

  datatype State = State(
    trades: seq<Position>,          // every position ever opened; its index is its id
    open: map<string, int>,         // id of the open position of a symbol
    snapshot: Option<Snapshot>,     // of the cycle under way
    rows: seq<Row>,
    closings: seq<Closing>,
    alerts: nat,
    failedWrites: nat)

  datatype Step =
    | Opened(symbol: string, entryTime: Option<int>)
    | ClosedElsewhere(symbol: string)
    | BeginCycle(taken: int)
    | Verdict(id: nat, now: int, noul: Option<real>, answerConfidence: real, guards: Guards, createdAt: int,
              written: bool)

  const INIT: State := State([], map[], None, [], [], 0, 0)

  /** `MAX(created_at)` of a symbol's closed judgments. */
  function LastExit(rows: seq<Row>, symbol: string): Option<int>
    decreases |rows|
  {
    if rows == [] then None
    else
      var rest, row := LastExit(rows[..|rows| - 1], symbol), rows[|rows| - 1];
      if row.symbol != symbol then rest
      else if rest.Some? && rest.value > row.createdAt then rest else Some(row.createdAt)
  }

  /** Closed judgments of a symbol from `from` on, before `until` if that is given. */
  function CountBetween(rows: seq<Row>, symbol: string, from: int, until: Option<int>): (n: nat)
    ensures n <= |rows|
    decreases |rows|
  {
    if rows == [] then 0
    else
      var row := rows[|rows| - 1];
      CountBetween(rows[..|rows| - 1], symbol, from, until)
      + if row.symbol == symbol && row.createdAt >= from && (until.None? || row.createdAt < until.value) then 1 else 0
  }

  /** The store's midnight: the local date of `now` read as a UTC date. */
  function StartOfDay(now: int, zone: int): int {
    (now + zone) / DAY * DAY
  }

  function Noul(v: Step): real
    requires v.Verdict?
  {
    if v.noul.Some? then v.noul.value else v.answerConfidence
  }

  function Confidence(v: Step): real
    requires v.Verdict?
  {
    if v.answerConfidence == 0.0 then Noul(v) else v.answerConfidence
  }

  function Age(p: Position, now: int): int {
    if p.entryTime.None? || now < p.entryTime.value then 0 else now - p.entryTime.value
  }

  /** The position is among those the cycle read, and the one it read for its symbol. */
  predicate Judged(s: State, id: nat) {
    && s.snapshot.Some? && id < |s.trades| && s.trades[id].symbol in s.snapshot.value.open
    && s.snapshot.value.open[s.trades[id].symbol] == id
  }

  predicate GuardsPass(s: State, v: Step, zone: int)
    requires v.Verdict? && v.id < |s.trades|
  {
    var p := s.trades[v.id];
    var last := LastExit(s.rows, p.symbol);
    && Noul(v) >= v.guards.confFloor
    && EvaluateEarlyExitGuards(v.guards, Age(p, v.now), if last.Some? then Some(v.now - last.value) else None,
                               CountBetween(s.rows, p.symbol, StartOfDay(v.now, zone), None), Confidence(v)).None?
  }

  function Next(s: State, step: Step, zone: int): State {
    match step
    case Opened(symbol, entryTime) =>
      if symbol in s.open then s
      else s.(trades := s.trades + [Position(symbol, entryTime)], open := s.open[symbol := |s.trades|])
    case ClosedElsewhere(symbol) => s.(open := s.open - {symbol})
    case BeginCycle(taken) => s.(snapshot := Some(Snapshot(taken, s.open)))
    case Verdict(id, now, _, _, guards, createdAt, written) =>
      if !Judged(s, id) || !GuardsPass(s, step, zone) then s
      else
        var symbol := s.trades[id].symbol;
        if symbol !in s.open then s
        else
          s.(open := s.open - {symbol},
             closings := s.closings + [Closing(id, s.open[symbol], s.snapshot.value.taken, now, createdAt, guards,
                                               Noul(step), Confidence(step))],
             alerts := s.alerts + 1,
             rows := if written then s.rows + [Row(symbol, createdAt, guards)] else s.rows,
             failedWrites := if written then s.failedWrites else s.failedWrites + 1)
  }

  function Run(steps: seq<Step>, zone: int): State {
    if steps == [] then INIT else Next(Run(steps[..|steps| - 1], zone), steps[|steps| - 1], zone)
  }

  // ---------------------------------------------------- the service's own form

  class EarlyExitManager {
    const zone: int
    var trades: seq<Position>
    var open: map<string, int>
    var snapshot: Option<Snapshot>
    var rows: seq<Row>
    var alerts: nat
    ghost var closings: seq<Closing>
    ghost var failedWrites: nat

    ghost function Abs(): State
      reads this
    {
      State(trades, open, snapshot, rows, closings, alerts, failedWrites)
    }

    constructor (zone: int)
      ensures Abs() == INIT && this.zone == zone
    {
      this.zone := zone;
      trades, open, snapshot, rows, alerts := [], map[], None, [], 0;
      closings, failedWrites := [], 0;
    }

    /** Reads the open positions a cycle will judge. */
    method BeginCycle(taken: int)
      modifies this
      ensures Abs() == Next(old(Abs()), Step.BeginCycle(taken), zone)
    {
      snapshot := Some(Snapshot(taken, open));
    }

    /** Guards, close, alert exactly once, and the judgment row - in that order. */
    method ProcessEarlyExitVerdict(v: Step) returns (closed: bool)
      requires v.Verdict? && Judged(Abs(), v.id)
      modifies this
      ensures Abs() == Next(old(Abs()), v, zone)
      ensures closed <==> alerts == old(alerts) + 1
      ensures !closed ==> Abs() == old(Abs())
    {
      hide LastExit, CountBetween, StartOfDay, EvaluateEarlyExitGuards;
      var pos := trades[v.id];
      var noul := if v.noul.Some? then v.noul.value else v.answerConfidence;
      var conf := v.answerConfidence;
      if conf == 0.0 {
        conf := noul;
      }
      if noul < v.guards.confFloor {
        return false;
      }
      var posAge := 0;
      if pos.entryTime.Some? {
        posAge := v.now - pos.entryTime.value;
        if posAge < 0 {
          posAge := 0;
        }
      }
      var last := LastExit(rows, pos.symbol);
      var exitsToday := CountBetween(rows, pos.symbol, StartOfDay(v.now, zone), None);
      var sinceLast := if last.Some? then Some(v.now - last.value) else None;
      var refusal := EvaluateEarlyExitGuards(v.guards, posAge, sinceLast, exitsToday, conf);
      if refusal.Some? {
        return false;
      }
      if pos.symbol !in open {
        return false;
      }
      closings := closings
        + [Closing(v.id, open[pos.symbol], snapshot.value.taken, v.now, v.createdAt, v.guards, noul, conf)];
      open := open - {pos.symbol};
      alerts := alerts + 1;
      if v.written {
        rows := rows + [Row(pos.symbol, v.createdAt, v.guards)];
      } else {
        failedWrites := failedWrites + 1;
      }
      closed := true;
    }
  }
}
