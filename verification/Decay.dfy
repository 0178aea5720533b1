/** The time-decay state machine of one active signal, as the reconciler drives it. */
module Decay {
  import opened Common
  import opened FuturesMath
  import opened Session

  datatype DecayState = Untouched | Breakeven | Ended

  datatype Action = NoAction | MoveToBreakeven | CloseDead | TimeExit

  /** The signal's fields this path reads and writes. */
  datatype Active = Active(
    dir: Direction,
    entryPrice: real,
    stopLoss: real,
    createdAt: int,
    decayState: DecayState,
    open: bool)

  datatype Tick = Tick(now: int, price: real)

  function EvaluateDecay(age: int, rMultiple: real, current: DecayState, prof: RiskProfile): (DecayState, Action) {
    if prof.horizonMin > 0 && age >= prof.horizonMin * 60 then (Ended, TimeExit)
    else if prof.decayFlatAtMin > 0 && age >= prof.decayFlatAtMin * 60 && rMultiple <= 0.0 then (Ended, CloseDead)
    else if prof.decayBreakevenAtMin > 0 && age >= prof.decayBreakevenAtMin * 60 && current.Untouched?
      && rMultiple < 0.5
    then (Breakeven, MoveToBreakeven)
    else (current, NoAction)
  }

  function BreakevenStopPrice(entry: real, dir: Direction, feeRate: real): real {
    var rate := if feeRate < 0.0 then 0.001 else feeRate;
    if dir.Long? then entry * (1.0 + rate) else entry * (1.0 - rate)
  }

  /** Distance from entry down to the stop; not positive once the stop is past entry. */
  function RiskDistance(s: Active): real {
    -Gain(s.entryPrice, s.stopLoss, s.dir)
  }

  predicate Driven(s: Active) {
    s.open && s.entryPrice > 0.0 && s.stopLoss > 0.0 && RiskDistance(s) > 0.0
  }

  function RMultiple(s: Active, price: real): real
    requires RiskDistance(s) > 0.0
  {
    Gain(s.entryPrice, price, s.dir) / RiskDistance(s)
  }

  function Verdict(s: Active, tick: Tick, prof: RiskProfile): (DecayState, Action)
    requires RiskDistance(s) > 0.0
  {
    var (state, action) := EvaluateDecay(tick.now - s.createdAt, RMultiple(s, tick.price), s.decayState, prof);
    if action.NoAction? && MustFlatten(tick.now, s.createdAt, prof) then (Ended, TimeExit) else (state, action)
  }

  /** One reconciler pass over the signal, with the store writes succeeding. */
  function ApplyDecayState(s: Active, tick: Tick, prof: RiskProfile): Active {
    if !Driven(s) then s
    else
      match Verdict(s, tick, prof)
      case (_, NoAction) => s
      case (state, MoveToBreakeven) =>
        var beStop := BreakevenStopPrice(s.entryPrice, s.dir, 0.001);
        if Gain(s.stopLoss, beStop, s.dir) > 0.0 then s.(stopLoss := beStop, decayState := state) else s
      case (_, _) => if tick.price <= 0.0 then s else s.(open := false, decayState := Ended)
  }

  function Run(s: Active, ticks: seq<Tick>, prof: RiskProfile): Active
    decreases |ticks|
  {
    if ticks == [] then s else Run(ApplyDecayState(s, ticks[0], prof), ticks[1..], prof)
  }

  /** The break-even stop lies beyond entry, so it leaves no risk distance behind. */
  lemma BreakevenPastEntry(entry: real, dir: Direction)
    requires entry > 0.0
    ensures Gain(entry, BreakevenStopPrice(entry, dir, 0.001), dir) > 0.0
  {
  }

  /** Over any run the stop only ever moves forward, at most once, and then to break-even plus fees. */
  lemma {:induction false} StopMovesOnceForward(s: Active, ticks: seq<Tick>, prof: RiskProfile)
    requires s.entryPrice > 0.0
    ensures var r := Run(s, ticks, prof);
            && Gain(s.stopLoss, r.stopLoss, s.dir) >= 0.0
            && (r.stopLoss == s.stopLoss || r.stopLoss == BreakevenStopPrice(s.entryPrice, s.dir, 0.001))
            && r.entryPrice == s.entryPrice && r.dir == s.dir && r.createdAt == s.createdAt && (r.open ==> s.open)
    decreases |ticks|
  {
    if ticks != [] {
      StopMovesOnceForward(ApplyDecayState(s, ticks[0], prof), ticks[1..], prof);
      if ApplyDecayState(s, ticks[0], prof).stopLoss != s.stopLoss {
        ProtectedIsLeftAlone(s, ticks[0], ticks[1..], prof);
      }
    }
  }

  /**
   * A signal moved to break-even is never touched by this path again: no flat checkpoint, no hard
   * horizon and no weekend edge closes it, at any price and time, although the horizon is
   * documented to close every trade.
   */
  lemma {:induction false} ProtectedIsLeftAlone(s: Active, move: Tick, ticks: seq<Tick>, prof: RiskProfile)
    requires s.entryPrice > 0.0 && ApplyDecayState(s, move, prof).stopLoss != s.stopLoss
    ensures Run(ApplyDecayState(s, move, prof), ticks, prof) == ApplyDecayState(s, move, prof)
    decreases |ticks|
  {
    BreakevenPastEntry(s.entryPrice, s.dir);
    var r := ApplyDecayState(s, move, prof);
    assert !Driven(r);
    if ticks != [] {
      assert ApplyDecayState(r, ticks[0], prof) == r;
      ProtectedIsLeftAlone(s, move, ticks[1..], prof);
    }
  }

  /**
   * Whether the breakeven checkpoint claims this pass: a laggard in the window, still in profit or before the
   * flat one.
   */
  predicate ProtectionDue(s: Active, tick: Tick, prof: RiskProfile)
    requires RiskDistance(s) > 0.0
  {
    var age := tick.now - s.createdAt;
    && s.decayState.Untouched? && RMultiple(s, tick.price) < 0.5
    && prof.decayBreakevenAtMin * 60 <= age < prof.horizonMin * 60
    && (age < prof.decayFlatAtMin * 60 || RMultiple(s, tick.price) > 0.0)
  }

  /** Horizon and checkpoints as every profile and timeframe sets them. */
  predicate CheckpointsOrdered(prof: RiskProfile) {
    prof.horizonMin > 0 && 0 < prof.decayBreakevenAtMin < prof.decayFlatAtMin
  }

  /**
   * At an instant where a position must be flat - horizon, or weekend edge - the pass closes an open
   * signal exactly when its stop is still on the losing side of entry and protection is not due.
   */
  lemma FlattenedIff(s: Active, tick: Tick, prof: RiskProfile)
    requires CheckpointsOrdered(prof) && s.open && s.entryPrice > 0.0 && s.stopLoss > 0.0 && tick.price > 0.0
    requires MustFlatten(tick.now, s.createdAt, prof)
    ensures !ApplyDecayState(s, tick, prof).open <==> RiskDistance(s) > 0.0 && !ProtectionDue(s, tick, prof)
  {
  }

  lemma {:induction false} UndrivenStays(s: Active, ticks: seq<Tick>, prof: RiskProfile)
    requires !Driven(s)
    ensures Run(s, ticks, prof) == s
    decreases |ticks|
  {
    if ticks != [] {
      UndrivenStays(s, ticks[1..], prof);
    }
  }

  /**
   * So this path lets a weekend-flat position ride the gap: from the first pass within fifteen minutes of
   * a gap instant of its life on, through whatever passes follow, the signal stays open exactly when it
   * was protected before or protection is due at that very pass.
   */
  lemma RidesTheGapIff(s: Active, gap: int, edge: Tick, ticks: seq<Tick>, prof: RiskProfile)
    requires prof.weekendFlat && CheckpointsOrdered(prof)
    requires s.open && s.entryPrice > 0.0 && s.stopLoss > 0.0 && edge.price > 0.0
    requires s.createdAt <= gap <= edge.now + GAP_BUFFER && WeekendGapOpen(gap)
    ensures Run(s, [edge] + ticks, prof).open <==> RiskDistance(s) <= 0.0 || ProtectionDue(s, edge, prof)
  {
    NextGapIsFirst(s.createdAt, gap);
    FlattenedIff(s, edge, prof);
    BreakevenPastEntry(s.entryPrice, s.dir);
    var r := ApplyDecayState(s, edge, prof);
    assert ([edge] + ticks)[1..] == ticks;
    assert !Driven(r);
    UndrivenStays(r, ticks, prof);
  }

  // --------------------------------------------------------- what a pass does

  /** The breakeven checkpoint has come for a signal not yet protected that has gained less than half its risk. */
  predicate Laggard(s: Active, tick: Tick, prof: RiskProfile) {
    && s.decayState.Untouched? && tick.now - s.createdAt >= prof.decayBreakevenAtMin * 60
    && 2.0 * Gain(s.entryPrice, tick.price, s.dir) < RiskDistance(s)
  }

  /** The hard horizon, the flat checkpoint without a gain, or a session edge that finds no laggard to protect. */
  predicate Ends(s: Active, tick: Tick, prof: RiskProfile) {
    var age := tick.now - s.createdAt;
    || age >= prof.horizonMin * 60
    || (age >= prof.decayFlatAtMin * 60 && Gain(s.entryPrice, tick.price, s.dir) <= 0.0)
    || (MustFlatten(tick.now, s.createdAt, prof) && !Laggard(s, tick, prof))
  }

  lemma MultipleIs(s: Active, price: real)
    requires RiskDistance(s) > 0.0
    ensures RMultiple(s, price) <= 0.0 <==> Gain(s.entryPrice, price, s.dir) <= 0.0
    ensures RMultiple(s, price) < 0.5 <==> 2.0 * Gain(s.entryPrice, price, s.dir) < RiskDistance(s)
  {
    var g, d := Gain(s.entryPrice, price, s.dir), RiskDistance(s);
    RatioAtLeast(g, d, 0.5);
    assert g / d * d == g;
    if g > 0.0 { QuotientPositive(g, d); }
    if g <= 0.0 { DivMonotone(g, 0.0, d); }
    hide Gain, RiskDistance;
  }

  /** Every pass over an open signal with a stop still behind entry closes it, protects it, or leaves it. */
  lemma PassIs(s: Active, tick: Tick, prof: RiskProfile)
    requires CheckpointsOrdered(prof) && Driven(s) && tick.price > 0.0
    ensures ApplyDecayState(s, tick, prof) ==
            if Ends(s, tick, prof) then s.(open := false, decayState := Ended)
            else if Laggard(s, tick, prof) then
              s.(stopLoss := if s.dir.Long? then s.entryPrice * 1.001 else s.entryPrice * 0.999,
                 decayState := Breakeven)
            else s
  {
    MultipleIs(s, tick.price);
    BreakevenPastEntry(s.entryPrice, s.dir);
    hide RMultiple, MustFlatten;
  }
}
