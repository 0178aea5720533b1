/**
 * Where a symbol's signal and its position can stand, over every run of everything that moves either,
 * through one signal after another of that symbol.
 */
module LifecycleLaws {
  import opened Common
  import opened FuturesMath
  import opened Lifecycle
  import opened Session
  import D = Decay
  import F = Friction
  import L = Ledger
  import LL = LedgerLaws
  import A = SignalAssembly
  import S = SignalLaws
  import W = SignalLimits

  // ----------------------------------------------------------- what is known

  ghost predicate NeverLiquidates(t: L.TradeRow) {
    forall price :: L.ExitTrigger(t, price) != Some("LIQUIDATION")
  }

  /** The position the signal's order would open, whoever's ledger it is. */
  function Bare(o: L.SignalOrder): L.TradeRow
    requires o.entryPrice > 0.0
  {
    L.SignalTrade(L.NewLedger(0.0), o)
  }

  /**
   * What assembly guarantees of every order it builds: money at stake, levels on the sides where signal
   * and engine read them alike, and with a leverage of at least 1 no liquidation before them.
   */
  ghost predicate Fit(o: L.SignalOrder) {
    && o.entryPrice > 0.0 && o.allocatedCapitalUSD > 0.0 && o.stopLoss > 0.0
    && (o.direction.Long? ==> o.takeProfit1 > 0.0)
    && (o.leverage >= 1 ==> NeverLiquidates(Bare(o)))
  }

  /** The position held for the signal: same side, entry, size, leverage and target, and never liquidated first. */
  ghost predicate Mirrors(o: L.SignalOrder, t: L.TradeRow) {
    && t.status.Open? && t.symbol == o.symbol && t.side == L.SideOf(o.direction) && t.entryPrice == o.entryPrice > 0.0
    && t.takeProfit == o.takeProfit1 && t.stopLoss > 0.0
    && t.positionSize == Quantity(o.allocatedCapitalUSD, AtLeastOne(o.leverage), o.entryPrice)
    && t.leverage == AtLeastOne(o.leverage) && t.executionFee >= 0.0
    && (o.leverage >= 1 ==> NeverLiquidates(t))
  }

  ghost predicate Held(p: Pair) {
    p.row.order.symbol in p.book.positions
  }

  ghost function Position(p: Pair): L.TradeRow
    requires Held(p)
  {
    p.book.positions[p.row.order.symbol]
  }

  /** The position is the signal's, its stop the signal's own or, after protection, one further back. */
  ghost predicate Paired(p: Pair) {
    var o := p.row.order;
    && Held(p) && Mirrors(o, Position(p))
    && (p.row.decayState.Untouched? ==> o.stopLoss == Position(p).stopLoss)
    && Gain(Position(p).stopLoss, o.stopLoss, o.direction) >= 0.0
  }

  /** Closed on a stop that protection had moved past the position's own, so the position was left behind. */
  ghost predicate Orphaned(p: Pair) {
    && Held(p) && Position(p).status.Open? && Position(p).symbol == p.row.order.symbol && p.row.exit.Some?
    && var x, o := p.row.exit.value, p.row.order;
       && x.reason == "STOP_LOSS" && !p.row.decayState.Untouched?
       && Gain(Position(p).stopLoss, x.price, o.direction) > 0.0 && Gain(x.price, o.stopLoss, o.direction) >= 0.0
  }

  /**
   * What always holds: an active signal is fit and any position under its symbol is its own; a closed
   * signal has no position, unless a moved stop orphaned it. An active signal may have none.
   */
  ghost predicate Sound(p: Pair) {
    if p.row.active then Fit(p.row.order) && (Held(p) ==> Paired(p)) else Held(p) ==> Orphaned(p)
  }

  ghost predicate Together(p: Pair) {
    p.row.active <==> Held(p)
  }

  // ------------------------------------------------------ guards, read before

  /** The price closes the signal on its stop but leaves its position. */
  ghost predicate BetweenStops(p: Pair, price: real) {
    && Held(p) && Settleable(p.row.order) && LevelCrossed(p.row.order, price) == Some("STOP_LOSS")
    && Gain(Position(p).stopLoss, price, p.row.order.direction) > 0.0
  }

  /** The event opens the symbol's next signal. */
  predicate Succeeds(p: Pair, e: Event) {
    e.NextSignal? && !p.row.active && e.order.symbol == p.row.order.symbol && !Blocked(p.book, e.order.symbol)
  }

  /** The event parts an active signal from its position. */
  ghost predicate Parts(p: Pair, e: Event, maxAge: int) {
    match e
    case PriceTick(price) => p.row.active && price > 0.0 && BetweenStops(p, price)
    case Pass(tick) =>
      p.row.active && tick.price > 0.0 && tick.now - p.row.createdAt < maxAge && BetweenStops(p, tick.price)
    case ManualClose(_, _) => false
    case NewsExit => p.row.active
    case Guardian(price) => p.row.active && Held(p) && L.ExitTrigger(Position(p), price).Some?
    case Ensure => false
    case NextSignal(order, _, _) => Succeeds(p, e) && order.allocatedCapitalUSD > p.book.cash
    case Elsewhere(_) => false
    case Restart(_) => p.row.active
  }

  predicate DecayCloses(r: Row, tick: D.Tick) {
    && D.Driven(Active(r))
    && var action := D.Verdict(Active(r), tick, r.profile).1;
       action.CloseDead? || action.TimeExit?
  }

  /** A pass closes an active row: by age, by a level or by decay - at a price only if it can be settled there. */
  predicate PassCloses(r: Row, tick: D.Tick, maxAge: int) {
    if tick.price <= 0.0 then tick.now - r.createdAt >= maxAge
    else
      Settleable(r.order) &&
      (tick.now - r.createdAt >= maxAge || LevelCrossed(r.order, tick.price).Some? || DecayCloses(r, tick))
  }

  /** The event brings the two together again: the signal closes or regains a position, the orphan is released. */
  ghost predicate Rejoins(p: Pair, e: Event, maxAge: int) {
    match e
    case PriceTick(price) =>
      p.row.active && price > 0.0 && Settleable(p.row.order) && LevelCrossed(p.row.order, price).Some?
    case Pass(tick) => p.row.active && PassCloses(p.row, tick, maxAge)
    case ManualClose(price, _) => p.row.active && price > 0.0 && Settleable(p.row.order)
    case NewsExit => !p.row.active
    case Guardian(price) => Held(p) && L.ExitTrigger(Position(p), price).Some?
    case Ensure => p.row.active && p.row.order.allocatedCapitalUSD <= p.book.cash
    case NextSignal(_, _, _) => false
    case Elsewhere(_) => false
    case Restart(_) => !p.row.active
  }

  /** Every signal that follows is one the assembly builds (`BuiltIsFit`). */
  ghost predicate FitNext(e: Event) {
    e.NextSignal? ==> Fit(e.order)
  }

  ghost predicate AllFit(events: seq<Event>) {
    forall e | e in events :: FitNext(e)
  }

  /** One event keeps the invariant, and leaves the two together exactly as its guard says. */
  ghost predicate StepsAs(p: Pair, e: Event, q: Pair, maxAge: int) {
    Sound(q) && (Together(q) <==> if Together(p) then !Parts(p, e, maxAge) else Rejoins(p, e, maxAge))
  }

  // --------------------------------------------------------- positions alone

  lemma SameLevelsSameTrigger(a: L.TradeRow, b: L.TradeRow)
    requires a.side == b.side && a.takeProfit == b.takeProfit && a.stopLoss == b.stopLoss
             && a.liquidationPrice == b.liquidationPrice
    ensures NeverLiquidates(a) <==> NeverLiquidates(b)
  {
    assert forall price :: L.ExitTrigger(a, price) == L.ExitTrigger(b, price);
  }

  /** Moving a stop forward cannot put liquidation before it. */
  lemma ForwardStopStaysFirst(a: L.TradeRow, b: L.TradeRow)
    requires NeverLiquidates(a) && b == a.(stopLoss := b.stopLoss) && a.stopLoss > 0.0 && b.stopLoss > 0.0
    requires Gain(a.stopLoss, b.stopLoss, L.DirectionOf(a.side)) >= 0.0
    ensures NeverLiquidates(b)
  {
    forall price
      ensures L.ExitTrigger(b, price) != Some("LIQUIDATION")
    {
      assert L.ExitTrigger(a, price) != Some("LIQUIDATION");
    }
  }

  lemma FitMovesForward(o: L.SignalOrder, stop: real)
    requires Fit(o) && stop > 0.0 && Gain(o.stopLoss, stop, o.direction) >= 0.0
    ensures Fit(o.(stopLoss := stop))
  {
    if o.leverage >= 1 {
      ForwardStopStaysFirst(Bare(o), Bare(o.(stopLoss := stop)));
    }
  }

  /** The order opened on any ledger gives a position that mirrors it. */
  lemma FitMirrors(o: L.SignalOrder, l: L.Ledger)
    requires Fit(o)
    ensures Mirrors(o, L.SignalTrade(l, o)) && L.SignalTrade(l, o).stopLoss == o.stopLoss
  {
    SameLevelsSameTrigger(Bare(o), L.SignalTrade(l, o));
    hide NeverLiquidates, L.LiquidationOrZero;
  }

  /** A forced close takes an open position off its symbol and touches nothing else there. */
  lemma ForcedRemoves(l: L.Ledger, symbol: string, price: real, reason: string)
    requires symbol in l.positions ==> l.positions[symbol].status.Open?
    ensures symbol !in L.Step(l, L.ForceClose(symbol, price, reason)).0.positions
  {
    hide L.Settled, L.Proceeds;
  }

  lemma TriggeredRemoves(l: L.Ledger, symbol: string, price: real)
    requires symbol in l.positions ==> l.positions[symbol].status.Open?
    ensures var l' := L.Step(l, L.CheckExit(symbol, price)).0;
            && (symbol in l'.positions <==> symbol in l.positions && L.ExitTrigger(l.positions[symbol], price).None?)
            && (symbol in l'.positions ==> l'.positions[symbol] == l.positions[symbol])
  {
    hide L.Settled, L.Proceeds, L.ExitTrigger;
  }

  lemma ElsewhereUntouched(l: L.Ledger, op: L.Op, symbol: string)
    requires SymbolOf(op) != symbol
    ensures var l' := L.Step(l, op).0;
            && (symbol in l'.positions <==> symbol in l.positions)
            && (symbol in l'.positions ==> l'.positions[symbol] == l.positions[symbol])
  {
    assert op.ExecuteOrder? ==> L.OrderTrade(l, op.req).symbol == op.req.symbol;
    hide L.Settled, L.Proceeds, L.ExitTrigger, L.OrderTrade, L.SignalTrade;
  }

  // ------------------------------------------------------------- level exits

  /** The position's own trigger, for a price the signal has just closed on. */
  lemma TriggersCompared(o: L.SignalOrder, t: L.TradeRow, price: real)
    requires Fit(o) && Settleable(o) && Mirrors(o, t) && price > 0.0
    requires Gain(t.stopLoss, o.stopLoss, o.direction) >= 0.0 && LevelCrossed(o, price).Some?
    ensures L.ExitTrigger(t, price).Some? ==> L.ExitTrigger(t, price) == LevelCrossed(o, price)
    ensures L.ExitTrigger(t, price).None? <==>
            LevelCrossed(o, price) == Some("STOP_LOSS") && Gain(t.stopLoss, price, o.direction) > 0.0
    ensures L.ExitTrigger(t, price).None? ==> Gain(price, o.stopLoss, o.direction) >= 0.0
  {
    assert L.ExitTrigger(t, price) != Some("LIQUIDATION");
  }

  /**
   * When a level closes an active signal, its position closes with it - at the same price, for the
   * same reason - unless the price lies between the position's stop and the signal's moved one.
   */
  lemma LevelExitOrphansIff(p: Pair, price: real)
    requires p.row.active && Sound(p) && Held(p) && price > 0.0 && Resolve(p.row, price).Some?
    ensures var o, q := p.row.order, OnTick(p, price);
            && !q.row.active
            && (Held(q) <==> BetweenStops(p, price))
            && (Held(q) <==> Orphaned(q))
            && (!Held(q) ==> q.book.closedTrades[|p.book.closedTrades|].exitReason == q.row.exit.value.reason)
  {
    var o := p.row.order;
    SettlesIff(p.row, price, LevelCrossed(o, price).value, p.book);
    TriggersCompared(o, Position(p), price);
    SettleKeepsOrder(p.row, price, LevelCrossed(o, price).value);
    hide L.ExitTrigger, LevelCrossed, Settle, NeverLiquidates;
  }

  lemma SettleKeepsOrder(r: Row, price: real, reason: string)
    ensures Settle(r, price, reason).Some? ==>
              var c := Settle(r, price, reason).value; !c.active && c.order == r.order && c.decayState == r.decayState
  {
  }

  lemma ResolvesIff(r: Row, price: real)
    requires r.active && price > 0.0
    ensures Resolve(r, price).Some? <==> Settleable(r.order) && LevelCrossed(r.order, price).Some?
    ensures Resolve(r, price).Some? ==> !Resolve(r, price).value.active && Resolve(r, price).value.order == r.order
  {
    if LevelCrossed(r.order, price).Some? {
      SettlesIff(r, price, LevelCrossed(r.order, price).value, L.NewLedger(0.0));
      SettleKeepsOrder(r, price, LevelCrossed(r.order, price).value);
    }
  }

  lemma ClosesNowIff(r: Row, price: real, reason: string)
    requires r.active
    ensures CloseNow(r, price, reason).Some? <==> price > 0.0 && Settleable(r.order)
    ensures CloseNow(r, price, reason).Some? ==>
              !CloseNow(r, price, reason).value.active && CloseNow(r, price, reason).value.order == r.order
  {
    if price > 0.0 {
      var given := if reason == "" then "MANUAL_EXIT" else reason;
      SettlesIff(r, price, given, L.NewLedger(0.0));
      SettleKeepsOrder(r, price, given);
    }
  }

  // ---------------------------------------------------------- event by event

  lemma TickSteps(p: Pair, price: real, maxAge: int)
    requires Sound(p)
    ensures StepsAs(p, PriceTick(price), OnTick(p, price), maxAge)
  {
    if p.row.active && price > 0.0 {
      ResolvesIff(p.row, price);
      if Resolve(p.row, price).Some? {
        if Held(p) {
          LevelExitOrphansIff(p, price);
        } else {
          TriggeredRemoves(p.book, p.row.order.symbol, price);
        }
      }
      hide Resolve, LevelCrossed, Fit, Paired, Orphaned, L.Step;
    }
  }

  /** A signal closed together with whatever position it has. */
  lemma ForcedEndsTogether(p: Pair, closed: Row, price: real, reason: string)
    requires p.row.active && Sound(p) && !closed.active && closed.order == p.row.order
    ensures var q := Forced(p, closed, price, reason); Sound(q) && Together(q)
  {
    ForcedRemoves(p.book, p.row.order.symbol, price, reason);
    hide L.Step, NeverLiquidates;
  }

  lemma VerdictMoves(s: D.Active, tick: D.Tick, prof: RiskProfile)
    requires D.RiskDistance(s) > 0.0 && D.Verdict(s, tick, prof).1.MoveToBreakeven?
    ensures D.Verdict(s, tick, prof).0.Breakeven?
  {
  }

  /** Protection moves the signal's stop only: the position's is now further back. */
  lemma ProtectedSound(p: Pair, state: D.DecayState, stop: real)
    requires p.row.active && Sound(p) && !state.Untouched? && stop > 0.0
    requires Gain(p.row.order.stopLoss, stop, p.row.order.direction) > 0.0
    ensures var q := p.(row := p.row.(order := p.row.order.(stopLoss := stop), decayState := state));
            Sound(q) && (Together(q) <==> Together(p))
  {
    FitMovesForward(p.row.order, stop);
    hide NeverLiquidates, L.SignalTrade;
  }

  lemma BreakevenPositive(entry: real, dir: Direction)
    requires entry > 0.0
    ensures D.BreakevenStopPrice(entry, dir, 0.001) > 0.0
  {
  }

  lemma DecaySteps(p: Pair, tick: D.Tick)
    requires p.row.active && Sound(p) && tick.price > 0.0
    ensures var q := Decayed(p, tick);
            Sound(q) && (Together(q) <==> Together(p) || (Settleable(p.row.order) && DecayCloses(p.row, tick)))
  {
    var s := Active(p.row);
    if D.Driven(s) {
      BreakevenPositive(s.entryPrice, s.dir);
      ClosesNowIff(p.row, tick.price, "TIME_EXIT");
      var (state, action) := D.Verdict(s, tick, p.row.profile);
      match action {
        case NoAction =>
        case MoveToBreakeven =>
          VerdictMoves(s, tick, p.row.profile);
          var stop := D.BreakevenStopPrice(s.entryPrice, s.dir, 0.001);
          if Gain(s.stopLoss, stop, s.dir) > 0.0 {
            ProtectedSound(p, state, stop);
          }
        case _ =>
          if Settleable(p.row.order) {
            var closed := CloseNow(p.row, tick.price, "TIME_EXIT").value.(decayState := D.Ended);
            ForcedEndsTogether(p, closed, tick.price, "TIME_EXIT");
          }
      }
      hide D.Verdict, D.BreakevenStopPrice, CloseNow, Fit, Paired, Orphaned, L.Step;
    }
  }

  lemma PassSteps(p: Pair, tick: D.Tick, maxAge: int)
    requires Sound(p)
    ensures StepsAs(p, Pass(tick), OnPass(p, tick, maxAge), maxAge)
  {
    if p.row.active {
      ClosesNowIff(p.row, tick.price, "TIME_EXIT");
      if tick.now - p.row.createdAt >= maxAge {
        if tick.price > 0.0 && Settleable(p.row.order) {
          ForcedEndsTogether(p, CloseNow(p.row, tick.price, "TIME_EXIT").value, tick.price, "TIME_EXIT");
        } else if tick.price <= 0.0 {
          ForcedEndsTogether(p, Expired(p.row, tick.price), tick.price, "TIME_EXIT");
        }
      } else if tick.price > 0.0 {
        ResolvesIff(p.row, tick.price);
        TickSteps(p, tick.price, maxAge);
        DecaySteps(p, tick);
      }
      hide CloseNow, Resolve, LevelCrossed, Decayed, DecayCloses, Sound, Forced, Levelled;
    }
  }

  lemma ManualSteps(p: Pair, price: real, reason: string, maxAge: int)
    requires Sound(p)
    ensures StepsAs(p, ManualClose(price, reason), OnManual(p, price, reason), maxAge)
  {
    if p.row.active {
      ClosesNowIff(p.row, price, reason);
      if price > 0.0 && Settleable(p.row.order) {
        ForcedEndsTogether(p, CloseNow(p.row, price, reason).value, price, reason);
      }
      hide CloseNow, Sound, Forced;
    }
  }

  lemma EnsureSteps(p: Pair, maxAge: int)
    requires Sound(p)
    ensures StepsAs(p, Ensure, OnEnsure(p), maxAge)
  {
    if p.row.active {
      FitMirrors(p.row.order, p.book);
      hide NeverLiquidates, L.SignalTrade, Mirrors;
    }
  }

  /** The symbol's next signal starts as sound as the first, together with its position if the cash covers it. */
  lemma NextSignalSteps(p: Pair, order: L.SignalOrder, now: int, profile: RiskProfile, maxAge: int)
    requires Sound(p) && Fit(order)
    ensures StepsAs(p, NextSignal(order, now, profile), OnNext(p, order, now, profile), maxAge)
  {
    hide Blocked;
    if Held(p) && !p.row.active {
      HeldBlocks(p, p.row.order.symbol);
    }
    FitMirrors(order, p.book);
    hide NeverLiquidates, L.SignalTrade, Mirrors;
  }

  /** A position blocks its own symbol and every one correlated with it. */
  lemma HeldBlocks(p: Pair, symbol: string)
    requires Held(p) && Position(p).symbol == p.row.order.symbol
    requires AreCorrelatedCommodities(p.row.order.symbol, symbol)
    ensures Blocked(p.book, symbol)
  {
  }

  /** Events on the position alone: it goes or it stays as it was. */
  lemma BookSteps(p: Pair, e: Event, maxAge: int)
    requires Sound(p) && (e.NewsExit? || e.Guardian? || e.Elsewhere? || e.Restart?)
    ensures StepsAs(p, e, Next(p, e, maxAge), maxAge)
    ensures var q := Next(p, e, maxAge); q.row == p.row && (Held(q) ==> Held(p) && Position(q) == Position(p))
  {
    var symbol := p.row.order.symbol;
    match e {
      case NewsExit => ForcedRemoves(p.book, symbol, 0.0, "NEWS_EARLY_EXIT");
      case Guardian(price) => TriggeredRemoves(p.book, symbol, price);
      case Elsewhere(op) => if SymbolOf(op) != symbol { ElsewhereUntouched(p.book, op, symbol); }
      case Restart(_) =>
    }
    hide L.Step, L.ExitTrigger, NeverLiquidates, Fit, Mirrors;
  }

  /**
   * Every event keeps the invariant, and tells exactly when signal and position are together after it
   * by a guard read before it: a level exit parts them between the two stops, a news exit and a restart
   * always, the guardian when the position triggers, the next signal when the cash does not cover it.
   */
  lemma NextTogetherIff(p: Pair, e: Event, maxAge: int)
    requires Sound(p) && FitNext(e)
    ensures Sound(Next(p, e, maxAge))
    ensures Together(Next(p, e, maxAge)) <==>
            if Together(p) then !Parts(p, e, maxAge) else Rejoins(p, e, maxAge)
  {
    match e {
      case PriceTick(price) => TickSteps(p, price, maxAge);
      case Pass(tick) => PassSteps(p, tick, maxAge);
      case ManualClose(price, reason) => ManualSteps(p, price, reason, maxAge);
      case Ensure => EnsureSteps(p, maxAge);
      case NextSignal(order, now, profile) => NextSignalSteps(p, order, now, profile, maxAge);
      case _ => BookSteps(p, e, maxAge);
    }
    hide Sound, Together, Parts, Rejoins, OnTick, OnPass, OnManual, OnEnsure, L.Step;
  }

  // ---------------------------------------------------------------- whole runs

  lemma TwoEvents(p: Pair, a: Event, b: Event, maxAge: int)
    ensures Run(p, [a, b], maxAge) == Next(Next(p, a, maxAge), b, maxAge)
  {
    hide Next;
    assert [a, b][1..] == [b] && [b][1..] == [];
    var q := Next(p, a, maxAge);
    assert Run(q, [b], maxAge) == Run(Next(q, b, maxAge), [], maxAge);
  }

  /** Over every run an active signal is fit and owns its position, and a closed one has none or an orphan. */
  lemma {:induction false} RunSound(p: Pair, events: seq<Event>, maxAge: int)
    requires Sound(p) && AllFit(events)
    ensures Sound(Run(p, events, maxAge))
    decreases |events|
  {
    if events != [] {
      assert events[0] in events;
      NextTogetherIff(p, events[0], maxAge);
      hide Sound, Next, FitNext;
      RunSound(Next(p, events[0], maxAge), events[1..], maxAge);
    }
  }

  ghost predicate AlwaysTogether(p: Pair, events: seq<Event>, maxAge: int)
    decreases |events|
  {
    Together(p) && (events == [] || AlwaysTogether(Next(p, events[0], maxAge), events[1..], maxAge))
  }

  ghost predicate NothingParts(p: Pair, events: seq<Event>, maxAge: int)
    decreases |events|
  {
    events == [] ||
    (!Parts(p, events[0], maxAge) && NothingParts(Next(p, events[0], maxAge), events[1..], maxAge))
  }

  /** Signal and position stay together through a whole run exactly when no event of it meets its parting guard. */
  lemma {:induction false} StayTogetherIff(p: Pair, events: seq<Event>, maxAge: int)
    requires Sound(p) && Together(p) && AllFit(events)
    ensures AlwaysTogether(p, events, maxAge) <==> NothingParts(p, events, maxAge)
    decreases |events|
  {
    if events != [] {
      assert events[0] in events;
      NextTogetherIff(p, events[0], maxAge);
      hide Sound, Together, Parts, Rejoins, Next, FitNext;
      if Together(Next(p, events[0], maxAge)) {
        StayTogetherIff(Next(p, events[0], maxAge), events[1..], maxAge);
      } else {
        ApartAtOnce(Next(p, events[0], maxAge), events[1..], maxAge);
      }
    }
  }

  lemma ApartAtOnce(p: Pair, events: seq<Event>, maxAge: int)
    requires !Together(p)
    ensures !AlwaysTogether(p, events, maxAge)
  {
  }

  /** Whether the two are together after a run, followed guard by guard. */
  ghost predicate JoinedAfter(p: Pair, together: bool, events: seq<Event>, maxAge: int)
    decreases |events|
  {
    if events == [] then together
    else
      var next := if together then !Parts(p, events[0], maxAge) else Rejoins(p, events[0], maxAge);
      JoinedAfter(Next(p, events[0], maxAge), next, events[1..], maxAge)
  }

  /** Signal and position end a run together exactly when the last guard to fire was not a parting one. */
  lemma {:induction false} EndTogetherIff(p: Pair, events: seq<Event>, maxAge: int)
    requires Sound(p) && AllFit(events)
    ensures Together(Run(p, events, maxAge)) <==> JoinedAfter(p, Together(p), events, maxAge)
    decreases |events|
  {
    if events != [] {
      assert events[0] in events;
      NextTogetherIff(p, events[0], maxAge);
      hide Sound, Together, Parts, Rejoins, Next, FitNext;
      EndTogetherIff(Next(p, events[0], maxAge), events[1..], maxAge);
    }
  }

  /** Neither a news exit, nor the guardian, nor a restart, and every next signal paid for. */
  predicate ThroughTheSignal(p: Pair, e: Event) {
    !e.NewsExit? && !e.Guardian? && !e.Restart? && (e.NextSignal? ==> e.order.allocatedCapitalUSD <= p.book.cash)
  }

  /** No event of the run finds its signal protected, or reaches the position past the signal. */
  predicate Unprotected(p: Pair, events: seq<Event>, maxAge: int)
    decreases |events|
  {
    events == [] ||
    (p.row.decayState.Untouched? && ThroughTheSignal(p, events[0])
     && Unprotected(Next(p, events[0], maxAge), events[1..], maxAge))
  }

  lemma UntouchedNeverParts(p: Pair, e: Event, maxAge: int)
    requires Sound(p) && p.row.decayState.Untouched? && ThroughTheSignal(p, e)
    ensures !Parts(p, e, maxAge)
  {
    hide NeverLiquidates, L.ExitTrigger, Blocked;
  }

  /** Closed only through the signal and never protected, the two stay together through every run. */
  lemma {:induction false} EndTogetherUnprotected(p: Pair, events: seq<Event>, maxAge: int)
    requires Sound(p) && Together(p) && AllFit(events) && Unprotected(p, events, maxAge)
    ensures AlwaysTogether(p, events, maxAge)
    ensures var q := Run(p, events, maxAge); q.row.active <==> Held(q)
    decreases |events|
  {
    if events != [] {
      assert events[0] in events;
      NextTogetherIff(p, events[0], maxAge);
      UntouchedNeverParts(p, events[0], maxAge);
      hide Sound, Parts, Rejoins, Next, FitNext;
      EndTogetherUnprotected(Next(p, events[0], maxAge), events[1..], maxAge);
    }
  }

  /** A symbol without signal and position stays so until its next signal: the guards of an evaluation stay true. */
  lemma VacantStays(p: Pair, e: Event, maxAge: int)
    requires !p.row.active && !Held(p) && !e.NextSignal?
    ensures var q := Next(p, e, maxAge); q.row == p.row && !Held(q)
  {
    if e.NewsExit? || e.Guardian? || e.Elsewhere? || e.Restart? {
      BookSteps(p, e, maxAge);
    }
    hide L.Step;
  }

  // ------------------------------------------- what a tick, a pass or a close does

  predicate TargetReached(o: L.SignalOrder, price: real) {
    if o.direction == Long then price >= o.takeProfit1 else price <= o.takeProfit1
  }

  predicate StopReached(o: L.SignalOrder, price: real) {
    if o.direction == Long then price <= o.stopLoss else price >= o.stopLoss
  }

  /** The row is closed at `price`: profit is the signal's own move times its size, return is on its capital. */
  ghost predicate ClosedAt(r: Row, c: Row, price: real, reason: string)
    requires Settleable(r.order)
  {
    && c.order == r.order && c.createdAt == r.createdAt && c.profile == r.profile && !c.active
    && c.exit.Some? && c.exit.value.price == price && c.exit.value.reason == reason
    && c.exit.value.pnlUSD == Profit(r.order, price)
    && c.exit.value.roiPct == Profit(r.order, price) / r.order.allocatedCapitalUSD * 100.0
  }

  /** Its position is closed by force at `price`, and gone. */
  ghost predicate ForcedAt(p: Pair, q: Pair, price: real, reason: string) {
    q.book == L.Step(p.book, L.ForceClose(p.row.order.symbol, price, reason)).0 && !Held(q)
  }

  /** Its position is left to the levels it has itself. */
  ghost predicate LeftToLevels(p: Pair, q: Pair, price: real) {
    q.book == L.Step(p.book, L.CheckExit(p.row.order.symbol, price)).0
  }

  function Profit(o: L.SignalOrder, price: real): real
    requires o.entryPrice > 0.0
  {
    o.allocatedCapitalUSD * o.leverage as real / o.entryPrice * Gain(o.entryPrice, price, o.direction)
  }

  lemma SettledAt(r: Row, price: real, reason: string)
    requires Settleable(r.order) && price > 0.0
    ensures Settle(r, price, reason).Some? && ClosedAt(r, Settle(r, price, reason).value, price, reason)
    ensures Settle(r, price, reason).value.decayState == r.decayState
  {
    SettlesIff(r, price, reason, L.NewLedger(0.0));
    SettleKeepsOrder(r, price, reason);
    ProfitIs(r.order, L.NewLedger(0.0), price);
    SettleKeepsRest(r, price, reason);
    hide Settle, L.SignalTrade;
  }

  lemma SettleKeepsRest(r: Row, price: real, reason: string)
    ensures Settle(r, price, reason).Some? ==>
              var c := Settle(r, price, reason).value; c.createdAt == r.createdAt && c.profile == r.profile
  {
    hide CalculateFuturesPnL;
  }

  lemma ProfitIs(o: L.SignalOrder, l: L.Ledger, price: real)
    requires Settleable(o)
    ensures L.SignalTrade(l, o).Unrealized(price) == Profit(o, price)
  {
    var size := o.allocatedCapitalUSD * o.leverage as real / o.entryPrice;
    assert L.SignalTrade(l, o).positionSize == size;
    assert L.SignalTrade(l, o).Unrealized(price) == Gain(o.entryPrice, price, o.direction) * size;
  }

  /** A tick closes an active signal exactly when it has a price that reaches a level and the signal can be settled. */
  lemma TickIs(p: Pair, price: real)
    requires p.row.active
    ensures var o, q := p.row.order, OnTick(p, price);
            if price > 0.0 && Settleable(o) && (TargetReached(o, price) || StopReached(o, price)) then
              && ClosedAt(p.row, q.row, price, if TargetReached(o, price) then "TAKE_PROFIT" else "STOP_LOSS")
              && LeftToLevels(p, q, price)
            else q == p
  {
    LevelIs(p.row.order, price);
    if price > 0.0 {
      ResolvesIff(p.row, price);
      if Settleable(p.row.order) && LevelCrossed(p.row.order, price).Some? {
        SettledAt(p.row, price, LevelCrossed(p.row.order, price).value);
      }
    }
    hide LevelCrossed, Settle, ClosedAt, TargetReached, StopReached, L.Step;
  }

  lemma LevelIs(o: L.SignalOrder, price: real)
    ensures LevelCrossed(o, price) ==
            if TargetReached(o, price) then Some("TAKE_PROFIT")
            else if StopReached(o, price) then Some("STOP_LOSS") else None
  {
  }

  /**
   * A reconciler pass over an active signal, at any time and price: too old, it is closed - without a price
   * for nothing; else on a level it reaches; else, its stop still behind entry, where decay ends it; always
   * with its position, except between the two stops. Otherwise the row stays, but for a laggard's stop.
   */
  lemma PassIs(p: Pair, tick: D.Tick, maxAge: int)
    requires p.row.active && Sound(p) && D.CheckpointsOrdered(p.row.profile)
    ensures var r, o, q, s := p.row, p.row.order, OnPass(p, tick, maxAge), Active(p.row);
            var old_ := tick.now - r.createdAt >= maxAge;
            if tick.price <= 0.0 then
              if old_ then q.row == Expired(r, tick.price) && ForcedAt(p, q, tick.price, "TIME_EXIT") else q == p
            else if !Settleable(o) then
              q.row.active
            else if old_ then
              ClosedAt(r, q.row, tick.price, "TIME_EXIT") && ForcedAt(p, q, tick.price, "TIME_EXIT")
            else if TargetReached(o, tick.price) || StopReached(o, tick.price) then
              && ClosedAt(r, q.row, tick.price, if TargetReached(o, tick.price) then "TAKE_PROFIT" else "STOP_LOSS")
              && LeftToLevels(p, q, tick.price) && (Held(q) <==> BetweenStops(p, tick.price))
            else if D.Driven(s) && D.Ends(s, tick, r.profile) then
              ClosedAt(r, q.row, tick.price, "TIME_EXIT") && ForcedAt(p, q, tick.price, "TIME_EXIT")
            else if D.Driven(s) && D.Laggard(s, tick, r.profile) then
              && q.book == p.book && q.row.active && q.row.decayState.Breakeven?
              && q.row.order == o.(stopLoss :=
                                  if o.direction == Long then o.entryPrice * 1.001 else o.entryPrice * 0.999)
            else q == p
  {
    var o, old_ := p.row.order, tick.now - p.row.createdAt >= maxAge;
    if tick.price <= 0.0 {
      ExpiryIs(p, tick, maxAge);
    } else if !Settleable(o) {
      UnsettledPass(p, tick, maxAge);
    } else if old_ {
      AgedIs(p, tick, maxAge);
    } else {
      LevelIs(o, tick.price);
      if LevelCrossed(o, tick.price).Some? {
        LevelPassIs(p, tick, maxAge);
      } else {
        DecayPassIs(p, tick, maxAge);
      }
    }
    hide OnPass, Sound, LevelCrossed, TargetReached, StopReached, ClosedAt, BetweenStops, D.Driven, D.Ends, D.Laggard;
  }

  lemma ExpiryIs(p: Pair, tick: D.Tick, maxAge: int)
    requires p.row.active && Sound(p) && tick.price <= 0.0
    ensures var q := OnPass(p, tick, maxAge);
            if tick.now - p.row.createdAt >= maxAge then
              q.row == Expired(p.row, tick.price) && ForcedAt(p, q, tick.price, "TIME_EXIT")
            else q == p
  {
    ForcedRemoves(p.book, p.row.order.symbol, tick.price, "TIME_EXIT");
    hide L.Step, Fit, NeverLiquidates;
  }

  lemma AgedIs(p: Pair, tick: D.Tick, maxAge: int)
    requires p.row.active && Sound(p) && tick.price > 0.0 && Settleable(p.row.order)
    requires tick.now - p.row.createdAt >= maxAge
    ensures var q := OnPass(p, tick, maxAge);
            ClosedAt(p.row, q.row, tick.price, "TIME_EXIT") && ForcedAt(p, q, tick.price, "TIME_EXIT")
  {
    SettledAt(p.row, tick.price, "TIME_EXIT");
    ForcedRemoves(p.book, p.row.order.symbol, tick.price, "TIME_EXIT");
    hide L.Step, Fit, NeverLiquidates, Settle;
  }

  lemma LevelPassIs(p: Pair, tick: D.Tick, maxAge: int)
    requires p.row.active && Sound(p) && tick.price > 0.0 && Settleable(p.row.order)
    requires tick.now - p.row.createdAt < maxAge && LevelCrossed(p.row.order, tick.price).Some?
    ensures var q := OnPass(p, tick, maxAge);
            && ClosedAt(p.row, q.row, tick.price, LevelCrossed(p.row.order, tick.price).value)
            && LeftToLevels(p, q, tick.price) && (Held(q) <==> BetweenStops(p, tick.price))
  {
    SettledAt(p.row, tick.price, LevelCrossed(p.row.order, tick.price).value);
    ResolvesIff(p.row, tick.price);
    assert OnPass(p, tick, maxAge) == OnTick(p, tick.price) by { hide Resolve, L.Step; }
    if Held(p) {
      LevelExitOrphansIff(p, tick.price);
    } else {
      TriggeredRemoves(p.book, p.row.order.symbol, tick.price);
    }
    hide L.Step, Fit, NeverLiquidates, Settle, LevelCrossed, Paired, OnPass;
  }

  lemma DecayPassIs(p: Pair, tick: D.Tick, maxAge: int)
    requires p.row.active && Sound(p) && tick.price > 0.0 && Settleable(p.row.order)
    requires D.CheckpointsOrdered(p.row.profile)
    requires tick.now - p.row.createdAt < maxAge && LevelCrossed(p.row.order, tick.price).None?
    ensures var r, o, q, s := p.row, p.row.order, OnPass(p, tick, maxAge), Active(p.row);
            if D.Driven(s) && D.Ends(s, tick, r.profile) then
              ClosedAt(r, q.row, tick.price, "TIME_EXIT") && ForcedAt(p, q, tick.price, "TIME_EXIT")
            else if D.Driven(s) && D.Laggard(s, tick, r.profile) then
              && q.book == p.book && q.row.active && q.row.decayState.Breakeven?
              && q.row.order == o.(stopLoss :=
                                  if o.direction == Long then o.entryPrice * 1.001 else o.entryPrice * 0.999)
            else q == p
  {
    var s := Active(p.row);
    ResolvesIff(p.row, tick.price);
    assert OnPass(p, tick, maxAge) == Decayed(p, tick) by { hide Resolve, Decayed; }
    if D.Driven(s) {
      D.PassIs(s, tick, p.row.profile);
      DecayedAgrees(p, tick);
      SettledAt(p.row, tick.price, "TIME_EXIT");
      ForcedRemoves(p.book, p.row.order.symbol, tick.price, "TIME_EXIT");
      DecayedIs(p, tick);
    }
    hide OnPass, L.Step, Fit, NeverLiquidates, Settle, LevelCrossed, Paired, D.ApplyDecayState, D.Ends, D.Laggard,
      Sound, ClosedAt, Decayed;
  }

  /** The decay pass closes row and position, or moves the stop, or nothing, as its row tells. */
  lemma DecayedIs(p: Pair, tick: D.Tick)
    requires p.row.active && Settleable(p.row.order) && tick.price > 0.0 && D.Driven(Active(p.row))
    ensures var q := Decayed(p, tick);
            && (!q.row.active ==>
                  q == Forced(p, Settle(p.row, tick.price, "TIME_EXIT").value.(decayState := D.Ended), tick.price,
                              "TIME_EXIT"))
            && (q.row.active ==>
                  && q.book == p.book
                  && q.row == p.row.(order := q.row.order, decayState := q.row.decayState)
                  && q.row.order == p.row.order.(stopLoss := q.row.order.stopLoss))
  {
    ClosesNowIff(p.row, tick.price, "TIME_EXIT");
    hide Settle, L.Step, D.Verdict, D.BreakevenStopPrice;
  }

  /** An operator's close settles what can be settled at a price, row and position, under the reason given. */
  lemma ManualIs(p: Pair, price: real, reason: string)
    requires p.row.active && Sound(p)
    ensures var q := OnManual(p, price, reason);
            if price > 0.0 && Settleable(p.row.order) then
              && ClosedAt(p.row, q.row, price, if reason == "" then "MANUAL_EXIT" else reason)
              && ForcedAt(p, q, price, reason)
            else q == p
  {
    ClosesNowIff(p.row, price, reason);
    if price > 0.0 && Settleable(p.row.order) {
      SettledAt(p.row, price, if reason == "" then "MANUAL_EXIT" else reason);
      ForcedRemoves(p.book, p.row.order.symbol, price, reason);
    }
    hide L.Step, Fit, NeverLiquidates, Settle;
  }

  // ------------------------------------------------------- from a built signal

  /** The signal just persisted, and the ledger once its position is open. */
  function Opened(s: A.FuturesSignal, now: int, profile: RiskProfile, l: L.Ledger): Pair {
    Pair(NewRow(S.OrderOf(s), now, profile), L.Step(l, L.OpenFromSignal(S.OrderOf(s))).0)
  }

  /** Whatever bounds, leverage and decision it came from, the order of a built signal is fit. */
  lemma BuiltIsFit(cfg: A.SignalConfig, prof: RiskProfile, c: A.Candidate, s: A.FuturesSignal)
    requires A.Assemble(cfg, prof, c) == A.Built(s)
    ensures Fit(S.OrderOf(s))
  {
    S.BuiltStop(cfg, prof, c, s);
    S.BuiltMargin(cfg, prof, c, s);
    S.BuiltTargetPositive(cfg, prof, c, s);
    hide A.Assemble, S.RiskBudget, S.BudgetedMove, S.WithinTargets, L.ExitTrigger, WithinBudget;
    if s.leverage >= 1 {
      S.BuiltSignalNeverLiquidates(cfg, prof, c, s, L.NewLedger(0.0));
    }
  }

  /** A built signal whose position the engine opened starts out sound and together, so all of the above holds of it. */
  lemma OpenedIsSound(cfg: A.SignalConfig, prof: RiskProfile, c: A.Candidate, s: A.FuturesSignal, now: int,
                      profile: RiskProfile, l: L.Ledger)
    requires A.Assemble(cfg, prof, c) == A.Built(s)
    requires L.Step(l, L.OpenFromSignal(S.OrderOf(s))).1.Opened?
    ensures var p := Opened(s, now, profile, l); Sound(p) && Together(p) && Paired(p)
  {
    BuiltIsFit(cfg, prof, c, s);
    hide A.Assemble;
    OpenedSound(S.OrderOf(s), now, profile, l);
  }

  lemma OpenedSound(o: L.SignalOrder, now: int, profile: RiskProfile, l: L.Ledger)
    requires Fit(o) && L.Step(l, L.OpenFromSignal(o)).1.Opened?
    ensures var p := Pair(NewRow(o, now, profile), L.Step(l, L.OpenFromSignal(o)).0);
            Sound(p) && Together(p) && Paired(p)
  {
    FitMirrors(o, l);
    hide NeverLiquidates, Mirrors, L.SignalTrade;
  }

  /** The failing run: a news exit leaves every built signal ACTIVE without a position. */
  lemma NewsExitStrands(cfg: A.SignalConfig, prof: RiskProfile, c: A.Candidate, s: A.FuturesSignal,
                        now: int, profile: RiskProfile, l: L.Ledger, maxAge: int)
    requires A.Assemble(cfg, prof, c) == A.Built(s)
    requires L.Step(l, L.OpenFromSignal(S.OrderOf(s))).1.Opened?
    ensures var p := Opened(s, now, profile, l); var q := Next(p, NewsExit, maxAge);
            Together(p) && q.row == p.row && q.row.active && !Held(q)
  {
    hide A.Assemble, Fit, NeverLiquidates, L.Step;
    OpenedIsSound(cfg, prof, c, s, now, profile, l);
    BookSteps(Opened(s, now, profile, l), NewsExit, maxAge);
    ForcedRemoves(Opened(s, now, profile, l).book, s.symbol, 0.0, "NEWS_EARLY_EXIT");
  }

  /**
   * Reopening then undoes the news exit at a price: if the cash still covers it, the symbol holds the
   * same position again, at the old entry and on the signal's own stop, and the cash never gained.
   */
  lemma NewsExitUndone(p: Pair, maxAge: int)
    requires p.row.active && Sound(p) && Held(p) && p.book.friction.Valid()
    requires p.row.order.allocatedCapitalUSD <= Next(p, NewsExit, maxAge).book.cash
    ensures var q := Run(p, [NewsExit, Ensure], maxAge);
            var t, u := Position(p), q.book.positions[p.row.order.symbol];
            && q.row == p.row && Held(q)
            && u.side == t.side && u.entryPrice == t.entryPrice && u.positionSize == t.positionSize
            && u.takeProfit == t.takeProfit && u.stopLoss == p.row.order.stopLoss
            && q.book.cash <= p.book.cash
  {
    var o, t := p.row.order, Position(p);
    var mid := Next(p, NewsExit, maxAge);
    TwoEvents(p, NewsExit, Ensure, maxAge);
    BookSteps(p, NewsExit, maxAge);
    ForcedRemoves(p.book, o.symbol, 0.0, "NEWS_EARLY_EXIT");
    FitMirrors(o, mid.book);
    NewsExitProceeds(p);
    hide Run, L.Settled, L.SignalTrade, L.Proceeds, NeverLiquidates, Fit, Quantity, L.ExitTrigger;
  }

  /** A news exit returns at most the capital the signal had put in. */
  lemma NewsExitProceeds(p: Pair)
    requires p.row.active && Sound(p) && Held(p) && p.book.friction.Valid()
    ensures L.Step(p.book, L.ForceClose(p.row.order.symbol, 0.0, "NEWS_EARLY_EXIT")).0.cash
         <= p.book.cash + p.row.order.allocatedCapitalUSD
  {
    var o, t := p.row.order, Position(p);
    QuantityPositive(o.allocatedCapitalUSD, o.leverage, o.entryPrice);
    LL.PricelessCloseNeverGains(p.book, o.symbol, 0.0, "NEWS_EARLY_EXIT");
    LL.SettledKeepsTerms(p.book.friction, t, t.entryPrice, "NEWS_EARLY_EXIT");
    PositionMargin(o, t);
    hide L.Settled, Quantity, L.ExitTrigger, NeverLiquidates;
  }

  // ------------------------------------------------------------- the weekend gap

  /**
   * Where a position must be flat - past the horizon or at the weekend edge - a pass with a price leaves
   * its signal active exactly when the signal cannot be settled, or is young enough, between its levels
   * and either protected already or due for protection.
   */
  lemma FlatPassLeavesIff(p: Pair, tick: D.Tick, maxAge: int)
    requires p.row.active && Sound(p) && D.CheckpointsOrdered(p.row.profile) && tick.price > 0.0
    requires MustFlatten(tick.now, p.row.createdAt, p.row.profile)
    ensures OnPass(p, tick, maxAge).row.active <==>
            || !Settleable(p.row.order)
            || (&& tick.now - p.row.createdAt < maxAge && LevelCrossed(p.row.order, tick.price).None?
                && (D.RiskDistance(Active(p.row)) <= 0.0 || D.ProtectionDue(Active(p.row), tick, p.row.profile)))
  {
    ClosesNowIff(p.row, tick.price, "TIME_EXIT");
    ResolvesIff(p.row, tick.price);
    if Settleable(p.row.order) {
      DecayedAgrees(p, tick);
      D.FlattenedIff(Active(p.row), tick, p.row.profile);
    } else {
      UnsettledPass(p, tick, maxAge);
    }
    hide CloseNow, Resolve, LevelCrossed, Decayed, Fit, Paired, L.Step, D.ApplyDecayState, D.ProtectionDue, MustFlatten;
  }

  lemma UnsettledPass(p: Pair, tick: D.Tick, maxAge: int)
    requires p.row.active && !Settleable(p.row.order) && tick.price > 0.0
    ensures OnPass(p, tick, maxAge).row.active
  {
    NextLeaves(p, Pass(tick), maxAge);
    hide OnPass;
  }

  /** Protection leaves no distance to lose. */
  lemma ProtectionEndsRisk(p: Pair, tick: D.Tick)
    requires p.row.active && Sound(p) && D.CheckpointsOrdered(p.row.profile) && D.Driven(Active(p.row))
    requires D.ProtectionDue(Active(p.row), tick, p.row.profile)
    ensures D.RiskDistance(Active(Decayed(p, tick).row)) < 0.0
  {
    D.BreakevenPastEntry(p.row.order.entryPrice, p.row.order.direction);
    hide L.Step, Fit, Paired, D.RMultiple, MustFlatten;
  }

  /** The signal is weekend-flat and the tick has a price, inside the gap and the signal's life. */
  predicate GapTick(r: Row, tick: D.Tick) {
    r.profile.weekendFlat && tick.price > 0.0 && r.createdAt <= tick.now && WeekendGapOpen(tick.now)
  }

  /**
   * After any run, a pass with a price inside the gap leaves a weekend-flat signal active only if it can
   * no longer lose - its stop is past entry - or can never be settled.
   */
  lemma GapPassLeavesProtected(p: Pair, events: seq<Event>, tick: D.Tick, maxAge: int)
    requires Sound(p) && AllFit(events)
    requires var r := Run(p, events, maxAge).row; D.CheckpointsOrdered(r.profile) && GapTick(r, tick)
    ensures var q := OnPass(Run(p, events, maxAge), tick, maxAge);
            q.row.active ==> !Settleable(q.row.order) || D.RiskDistance(Active(q.row)) <= 0.0
  {
    RunSound(p, events, maxAge);
    GapPass(Run(p, events, maxAge), tick, maxAge);
  }

  lemma GapPass(p: Pair, tick: D.Tick, maxAge: int)
    requires Sound(p) && D.CheckpointsOrdered(p.row.profile) && GapTick(p.row, tick)
    ensures var q := OnPass(p, tick, maxAge);
            q.row.active ==> !Settleable(q.row.order) || D.RiskDistance(Active(q.row)) <= 0.0
  {
    var q := OnPass(p, tick, maxAge);
    if p.row.active && q.row.active && Settleable(p.row.order) {
      NeverRidesTheGap(tick.now, p.row.createdAt, p.row.profile);
      FlatPassLeavesIff(p, tick, maxAge);
      ResolvesIff(p.row, tick.price);
      assert q == Decayed(p, tick);
      if D.Driven(Active(p.row)) {
        ProtectionEndsRisk(p, tick);
      } else {
        assert D.RiskDistance(Active(p.row)) <= 0.0;
      }
    } else if p.row.active && !Settleable(p.row.order) {
      UnsettledStays(p, tick, maxAge);
    }
  }

  lemma UnsettledStays(p: Pair, tick: D.Tick, maxAge: int)
    requires p.row.active && !Settleable(p.row.order) && tick.price > 0.0
    ensures !Settleable(OnPass(p, tick, maxAge).row.order)
  {
    NextLeaves(p, Pass(tick), maxAge);
    hide OnPass, Settleable;
  }

  /** Every settleable order the assembly builds: something to lose between entry and stop (`BuiltIsAtRisk`). */
  ghost predicate AtRisk(o: L.SignalOrder) {
    Fit(o) && Settleable(o) && Gain(o.entryPrice, o.stopLoss, o.direction) < 0.0
  }

  lemma BuiltIsAtRisk(cfg: A.SignalConfig, prof: RiskProfile, c: A.Candidate, s: A.FuturesSignal)
    requires A.Assemble(cfg, prof, c) == A.Built(s) && s.leverage >= 1
    ensures AtRisk(S.OrderOf(s))
  {
    BuiltIsFit(cfg, prof, c, s);
    S.BuiltStop(cfg, prof, c, s);
    hide A.Assemble, Fit, StopAt;
    S.StopSide(s.entryPrice, A.FinalStopPct(cfg, prof, c), s.dir);
    S.BuiltMargin(cfg, prof, c, s);
  }

  /** An active signal can be settled, under one of the profiles; a weekend-flat one is still on its first stop. */
  ghost predicate Exposed(p: Pair, profiles: set<RiskProfile>) {
    && Sound(p)
    && (p.row.active ==>
          && Settleable(p.row.order) && p.row.profile in profiles
          && (p.row.profile.weekendFlat ==> AtRisk(p.row.order) && p.row.decayState.Untouched?))
  }

  ghost predicate ExposedNext(e: Event, profiles: set<RiskProfile>) {
    e.NextSignal? ==> AtRisk(e.order) && e.profile in profiles
  }

  /** Every next signal starts with something to lose, under one of the profiles. */
  ghost predicate AllAtRisk(events: seq<Event>, profiles: set<RiskProfile>) {
    forall e | e in events :: ExposedNext(e, profiles)
  }

  /** A signal is too old, or past its horizon, by the time the breakeven checkpoint could protect it. */
  predicate CheckpointTooLate(maxAge: int, prof: RiskProfile) {
    maxAge <= prof.decayBreakevenAtMin * 60 || prof.horizonMin <= prof.decayBreakevenAtMin
  }

  ghost predicate AllTooLate(maxAge: int, profiles: set<RiskProfile>) {
    forall prof | prof in profiles && prof.weekendFlat :: CheckpointTooLate(maxAge, prof)
  }

  ghost predicate AllOrdered(profiles: set<RiskProfile>) {
    forall prof | prof in profiles :: D.CheckpointsOrdered(prof)
  }

  lemma NextExposed(p: Pair, e: Event, maxAge: int, profiles: set<RiskProfile>)
    requires Exposed(p, profiles) && ExposedNext(e, profiles)
    requires AllOrdered(profiles) && AllTooLate(maxAge, profiles)
    ensures Exposed(Next(p, e, maxAge), profiles)
  {
    NextTogetherIff(p, e, maxAge);
    RowKept(p, e, maxAge);
    if p.row.active && p.row.profile.weekendFlat {
      RowOrClosed(p, e, maxAge);
    }
    hide Sound, Fit, Next, Blocked;
  }

  /** Whatever happens to its stop, a row that stays active keeps its profile and can still be settled. */
  lemma RowKept(p: Pair, e: Event, maxAge: int)
    ensures var q := Next(p, e, maxAge);
            || !q.row.active
            || (&& p.row.active && q.row.profile == p.row.profile
                && (Settleable(q.row.order) <==> Settleable(p.row.order)))
            || (e.NextSignal? && !p.row.active && q.row == NewRow(e.order, e.now, e.profile))
  {
    hide Blocked, L.Step, LevelCrossed, CalculateFuturesPnL, D.Driven, D.Verdict, D.BreakevenStopPrice, Gain;
  }

  /** Under such a profile no event moves the stop of an active signal: the row stays or closes. */
  lemma RowOrClosed(p: Pair, e: Event, maxAge: int)
    requires p.row.active && D.CheckpointsOrdered(p.row.profile) && CheckpointTooLate(maxAge, p.row.profile)
    ensures var q := Next(p, e, maxAge); q.row == p.row || !q.row.active
  {
    if e.Pass? && e.tick.now - p.row.createdAt < maxAge && D.Driven(Active(p.row)) {
      assert !D.Verdict(Active(p.row), e.tick, p.row.profile).1.MoveToBreakeven?;
    }
    hide Blocked, L.Step, LevelCrossed, CalculateFuturesPnL, D.Driven, D.Verdict;
  }

  lemma {:induction false} RunExposed(p: Pair, events: seq<Event>, maxAge: int, profiles: set<RiskProfile>)
    requires Exposed(p, profiles) && AllAtRisk(events, profiles)
    requires AllOrdered(profiles) && AllTooLate(maxAge, profiles)
    ensures Exposed(Run(p, events, maxAge), profiles)
    decreases |events|
  {
    if events != [] {
      assert events[0] in events;
      NextExposed(p, events[0], maxAge, profiles);
      hide Exposed, ExposedNext, Next;
      RunExposed(Next(p, events[0], maxAge), events[1..], maxAge, profiles);
    }
  }

  /** A pass with a price inside the gap finds the weekend-flat signal closed, or closes it. */
  predicate FlatInTheGap(p: Pair, events: seq<Event>, tick: D.Tick, maxAge: int) {
    var q := Run(p, events, maxAge);
    GapTick(q.row, tick) ==> !OnPass(q, tick, maxAge).row.active
  }

  /**
   * No weekend-flat signal rides the gap, over every run of every event and one signal after another,
   * each under any of the profiles, exactly when the breakeven checkpoint of every weekend-flat one
   * comes too late to protect a signal.
   */
  lemma NoneRidesTheGapIff(maxAge: int, profiles: set<RiskProfile>)
    requires AllOrdered(profiles)
    ensures (forall p, events, tick | Exposed(p, profiles) && AllAtRisk(events, profiles) ::
               FlatInTheGap(p, events, tick, maxAge))
            <==> AllTooLate(maxAge, profiles)
  {
    if AllTooLate(maxAge, profiles) {
      forall p, events, tick | Exposed(p, profiles) && AllAtRisk(events, profiles)
        ensures FlatInTheGap(p, events, tick, maxAge)
      {
        RunExposed(p, events, maxAge, profiles);
        var q := Run(p, events, maxAge);
        if GapTick(q.row, tick) && q.row.active {
          ClosedInTheGap(q, tick, maxAge);
        }
      }
    } else {
      var prof :| prof in profiles && prof.weekendFlat && !CheckpointTooLate(maxAge, prof);
      var p, tick := GapRider(prof), D.Tick(GAP_START, 100.5);
      GapRiderRides(maxAge, prof, profiles);
      assert Run(p, [], maxAge) == p;
      hide Run, OnPass;
      assert !FlatInTheGap(p, [], tick, maxAge);
    }
  }

  lemma ClosedInTheGap(p: Pair, tick: D.Tick, maxAge: int)
    requires p.row.active && Sound(p) && AtRisk(p.row.order) && p.row.decayState.Untouched?
    requires D.CheckpointsOrdered(p.row.profile) && CheckpointTooLate(maxAge, p.row.profile) && GapTick(p.row, tick)
    ensures !OnPass(p, tick, maxAge).row.active
  {
    NeverRidesTheGap(tick.now, p.row.createdAt, p.row.profile);
    FlatPassLeavesIff(p, tick, maxAge);
    hide OnPass, Sound, Fit, MustFlatten;
  }

  /** At the default age limit of an hour no commodity signal rides, exactly on the timeframes from four hours up. */
  lemma CommodityRidesIff(timeframe: string, profiles: set<RiskProfile>)
    requires TimeframeProfile(timeframe).Some? && profiles == {Overridden(W.COMMODITY, timeframe)}
    ensures (forall p, events, tick | Exposed(p, profiles) && AllAtRisk(events, profiles) ::
               FlatInTheGap(p, events, tick, 3600))
            <==> timeframe in {"4h", "6h", "12h", "1d"}
  {
    var prof := Overridden(W.COMMODITY, timeframe);
    assert AllOrdered(profiles) && (AllTooLate(3600, profiles) <==> CheckpointTooLate(3600, prof));
    assert CheckpointTooLate(3600, prof) <==> timeframe in {"4h", "6h", "12h", "1d"};
    hide *;
    NoneRidesTheGapIff(3600, profiles);
  }

  /** A Friday 16:45, New York time. */
  const GAP_START: int := 164700

  const RIDER: L.SignalOrder := L.SignalOrder("A", Long, 100.0, 97.5, 106.25, 1, 10.0)

  /** Its breakeven checkpoint falls on the very start of the gap. */
  function GapRider(prof: RiskProfile): Pair {
    Pair(NewRow(RIDER, GAP_START - prof.decayBreakevenAtMin * 60, prof),
         L.Step(L.NewLedger(1000.0), L.OpenFromSignal(RIDER)).0)
  }

  lemma RiderFit(prof: RiskProfile, profiles: set<RiskProfile>)
    requires prof in profiles
    ensures AtRisk(RIDER) && Exposed(GapRider(prof), profiles)
  {
    assert Bare(RIDER).liquidationPrice == 0.5;
    forall price
      ensures L.ExitTrigger(Bare(RIDER), price) != Some("LIQUIDATION")
    {
    }
    OpenedSound(RIDER, GAP_START - prof.decayBreakevenAtMin * 60, prof, L.NewLedger(1000.0));
  }

  lemma GapRiderRides(maxAge: int, prof: RiskProfile, profiles: set<RiskProfile>)
    requires prof in profiles && D.CheckpointsOrdered(prof) && prof.weekendFlat && !CheckpointTooLate(maxAge, prof)
    ensures var p, tick := GapRider(prof), D.Tick(GAP_START, 100.5);
            Exposed(p, profiles) && GapTick(p.row, tick) && OnPass(p, tick, maxAge).row.active
  {
    RiderFit(prof, profiles);
    RiderIsDue(maxAge, prof);
    hide *;
    FlatPassLeavesIff(GapRider(prof), D.Tick(GAP_START, 100.5), maxAge);
    RiderInSight(prof, profiles);
  }

  lemma RiderInSight(prof: RiskProfile, profiles: set<RiskProfile>)
    requires Exposed(GapRider(prof), profiles)
    ensures Sound(GapRider(prof)) && GapRider(prof).row.active && GapRider(prof).row.profile == prof
  {
    hide Sound, L.Step;
  }

  /** At the start of the gap the rider is flat by demand, young enough, between its levels and due. */
  lemma RiderIsDue(maxAge: int, prof: RiskProfile)
    requires D.CheckpointsOrdered(prof) && prof.weekendFlat && !CheckpointTooLate(maxAge, prof)
    ensures var p, tick := GapRider(prof), D.Tick(GAP_START, 100.5);
            && GapTick(p.row, tick) && MustFlatten(tick.now, p.row.createdAt, p.row.profile)
            && tick.now - p.row.createdAt < maxAge && LevelCrossed(p.row.order, tick.price).None?
            && D.ProtectionDue(Active(p.row), tick, p.row.profile)
  {
    var p := GapRider(prof);
    hide L.Step, MustFlatten, Settle, Fit, Sound;
    NeverRidesTheGap(GAP_START, p.row.createdAt, prof);
    assert D.RMultiple(Active(p.row), 100.5) == 0.2;
  }

  /**
   * It does happen under the default commodity profile on its hourly timeframe and the default age limit:
   * a long built on Friday at 16:00, protected at the 16:30 edge, is still active after the gap has opened.
   */
  lemma CommodityRidesTheGap()
    ensures A.Assemble(W.CONFIG, W.COMMODITY, W.Plain(Long, 1, W.NO_PARAMS)).Built?
    ensures var s := A.Assemble(W.CONFIG, W.COMMODITY, W.Plain(Long, 1, W.NO_PARAMS)).sig;
            var p := Opened(s, GAP_START - 2700, Overridden(W.COMMODITY, "1h"), L.NewLedger(1000.0));
            && p.row.profile.weekendFlat && !WeekendGapOpen(p.row.createdAt) && WeekendGapOpen(GAP_START + 300)
            && Run(p, [Pass(EDGE), Pass(INSIDE)], 3600).row.active
  {
    W.CommodityIsBuilt();
    GapInstants();
    hide A.Assemble, Sound, Paired, Fit, Run, WeekendGapOpen;
    var c, l := W.Plain(Long, 1, W.NO_PARAMS), L.NewLedger(1000.0);
    var s := A.Assemble(W.CONFIG, W.COMMODITY, c).sig;
    S.BuiltMargin(W.CONFIG, W.COMMODITY, c, s);
    OpenedOrder(s, GAP_START - 2700, Overridden(W.COMMODITY, "1h"), l);
    OpenedIsSound(W.CONFIG, W.COMMODITY, c, s, GAP_START - 2700, Overridden(W.COMMODITY, "1h"), l);
    hide *;
    TwoGapPasses(Opened(s, GAP_START - 2700, Overridden(W.COMMODITY, "1h"), l));
  }

  const EDGE: D.Tick := D.Tick(GAP_START - 900, 100.5)
  const INSIDE: D.Tick := D.Tick(GAP_START + 300, 100.5)

  lemma GapInstants()
    ensures !WeekendGapOpen(GAP_START - 2700) && WeekendGapOpen(GAP_START) && WeekendGapOpen(GAP_START + 300)
  {
  }

  lemma OpenedOrder(s: A.FuturesSignal, now: int, profile: RiskProfile, l: L.Ledger)
    requires s.entryPrice > 0.0 && s.symbol !in l.positions && 0.0 < s.allocatedCapitalUSD <= l.cash
    ensures L.Step(l, L.OpenFromSignal(S.OrderOf(s))).1.Opened?
    ensures var r := Opened(s, now, profile, l).row;
            && r.active && r.profile == profile
            && r.createdAt == now && r.decayState.Untouched? && r.order.direction == s.dir
            && r.order.entryPrice == s.entryPrice && r.order.stopLoss == s.stopLoss
            && r.order.takeProfit1 == s.takeProfit1
            && (Settleable(r.order) <==> s.leverage >= 1)
  {
  }

  lemma TwoGapPasses(p: Pair)
    requires Sound(p) && p.row.active && p.row.createdAt == GAP_START - 2700 && p.row.decayState.Untouched?
    requires p.row.profile == Overridden(W.COMMODITY, "1h")
    requires p.row.order.direction == Long && p.row.order.entryPrice == 100.0 && Settleable(p.row.order)
    requires p.row.order.stopLoss == 97.5 && p.row.order.takeProfit1 == 108.0
    ensures Run(p, [Pass(EDGE), Pass(INSIDE)], 3600).row.active
  {
    TwoEvents(p, Pass(EDGE), Pass(INSIDE), 3600);
    hide Run, Sound, L.Step;
    assert D.RMultiple(Active(p.row), 100.5) == 0.2;
    var q := OnPass(p, EDGE, 3600);
    assert q.row.order == p.row.order.(stopLoss := 100.1) && q.row.active && q.row.createdAt == p.row.createdAt;
    assert !D.Driven(Active(q.row));
    hide D.Verdict, D.RMultiple;
    assert OnPass(q, INSIDE, 3600) == q;
  }

  // ------------------------------------------------------ signals never closed

  /** Every event that reads a price reads a positive one. */
  predicate Priced(e: Event) {
    match e
    case PriceTick(price) => price > 0.0
    case Pass(tick) => tick.price > 0.0
    case _ => true
  }

  lemma NextLeaves(p: Pair, e: Event, maxAge: int)
    requires p.row.active && !Settleable(p.row.order) && Priced(e)
    ensures var q := Next(p, e, maxAge); q.row.active && !Settleable(q.row.order)
    ensures e.PriceTick? || e.Pass? || e.ManualClose? ==> Next(p, e, maxAge).book == p.book
  {
    forall price, reason | price > 0.0
      ensures Settle(p.row, price, reason).None?
    {
      SettlesIff(p.row, price, reason, p.book);
    }
    hide Settle, D.Verdict, D.Driven, LevelCrossed, D.BreakevenStopPrice, Gain, L.Step;
  }

  /** A signal that cannot be settled is never closed by any run of priced events, whatever happens to its position. */
  lemma {:induction false} UnsettleableNeverCloses(p: Pair, events: seq<Event>, maxAge: int)
    requires p.row.active && !Settleable(p.row.order)
    requires forall e | e in events :: Priced(e)
    ensures Run(p, events, maxAge).row.active
    ensures (forall e | e in events :: e.PriceTick? || e.Pass? || e.ManualClose?)
            ==> Run(p, events, maxAge).book == p.book
    decreases |events|
  {
    if events != [] {
      var e := events[0];
      assert e in events;
      NextLeaves(p, e, maxAge);
      hide Next, Settleable;
      UnsettleableNeverCloses(Next(p, e, maxAge), events[1..], maxAge);
    }
  }

  // ------------------------------------------------------------------ orphans

  /** What takes an orphan off its symbol: nothing its signal does. */
  ghost predicate Releases(p: Pair, e: Event)
    requires Held(p)
  {
    e.NewsExit? || e.Restart? || (e.Guardian? && L.ExitTrigger(Position(p), e.price).Some?)
  }

  /** An orphan is released exactly by a news exit, by a restart, or by the guardian on the position's own levels. */
  lemma OrphanReleasedIff(p: Pair, e: Event, maxAge: int)
    requires !p.row.active && Orphaned(p) && FitNext(e)
    ensures var q := Next(p, e, maxAge);
            && q.row == p.row
            && (Held(q) <==> !Releases(p, e))
            && (Held(q) ==> Position(q) == Position(p))
  {
    HeldBlocks(p, p.row.order.symbol);
    NextTogetherIff(p, e, maxAge);
    if e.NewsExit? || e.Guardian? || e.Elsewhere? || e.Restart? {
      BookSteps(p, e, maxAge);
    }
    hide L.Step, L.ExitTrigger, NeverLiquidates, Fit, Mirrors;
  }

  ghost predicate NothingReleases(p: Pair, events: seq<Event>) {
    Held(p) && forall e | e in events :: !Releases(p, e)
  }

  /** Another open position blocks the symbol. */
  predicate BlockedByOthers(p: Pair) {
    exists s | s in p.book.positions && s != p.row.order.symbol ::
      AreCorrelatedCommodities(p.book.positions[s].symbol, p.row.order.symbol)
  }

  /**
   * Until it is released an orphan stays as it was, through any run, and no signal of its symbol - for
   * a commodity, of any symbol in its exposure group - is evaluated; the event that releases it
   * unblocks the symbol, unless another position still blocks it.
   */
  lemma {:induction false} OrphanBlocksUntilReleased(p: Pair, events: seq<Event>, maxAge: int,
                                                     symbol: string, e: Event)
    requires !p.row.active && Orphaned(p) && NothingReleases(p, events) && AllFit(events) && FitNext(e)
    ensures var q := Run(p, events, maxAge);
            && q.row == p.row && Held(q) && Position(q) == Position(p)
            && (AreCorrelatedCommodities(p.row.order.symbol, symbol) ==> Blocked(q.book, symbol))
            && !Succeeds(q, e)
            && var next := Next(q, e, maxAge);
               && next.row == p.row
               && (Blocked(next.book, p.row.order.symbol) <==> !Releases(p, e) || BlockedByOthers(next))
    decreases |events|
  {
    if events != [] {
      var q := Next(p, events[0], maxAge);
      assert events[0] in events;
      OrphanReleasedIff(p, events[0], maxAge);
      hide Next, L.ExitTrigger, FitNext, Blocked, BlockedByOthers, Succeeds, AreCorrelatedCommodities;
      forall e | e in events[1..]
        ensures !Releases(q, e)
      {
        assert e in events && !Releases(p, e);
      }
      OrphanBlocksUntilReleased(q, events[1..], maxAge, symbol, e);
    } else {
      OrphanReleasedIff(p, e, maxAge);
      if AreCorrelatedCommodities(p.row.order.symbol, symbol) {
        OrphanBlocks(p, symbol);
      }
      OrphanBlocks(p, p.row.order.symbol);
      hide Next, Releases, AreCorrelatedCommodities;
    }
  }

  lemma OrphanBlocks(p: Pair, symbol: string)
    requires Orphaned(p) && AreCorrelatedCommodities(p.row.order.symbol, symbol)
    ensures Blocked(p.book, symbol)
  {
  }

  /** Once released the symbol's next signal is taken and opened, if nothing else blocks it and the cash covers it. */
  lemma ReleasedThenSucceeded(p: Pair, e: Event, order: L.SignalOrder, now: int, profile: RiskProfile, maxAge: int)
    requires !p.row.active && Orphaned(p) && FitNext(e) && Fit(order) && order.symbol == p.row.order.symbol
    requires var q := Next(p, e, maxAge); !BlockedByOthers(q) && order.allocatedCapitalUSD <= q.book.cash
    ensures var q := Run(p, [e, NextSignal(order, now, profile)], maxAge);
            if Releases(p, e) then q.row == NewRow(order, now, profile) && Together(q) && Sound(q)
            else q.row == p.row && Held(q)
  {
    var q, next := Next(p, e, maxAge), NextSignal(order, now, profile);
    TwoEvents(p, e, next, maxAge);
    OrphanReleasedIff(p, e, maxAge);
    if Releases(p, e) {
      OrphanBlocksUntilReleased(p, [], maxAge, order.symbol, e);
      NextTogetherIff(p, e, maxAge);
      NextTogetherIff(q, next, maxAge);
      hide L.Step, Blocked, BlockedByOthers, Releases, Fit, Paired, Run, Next, Orphaned;
    } else {
      HeldBlocks(q, order.symbol);
      hide L.Step, Blocked, BlockedByOthers, Releases, Fit, Paired, Run, Next;
    }
  }

  /** Protection followed by a tick between the two stops orphans the position, whatever the rest of the book holds. */
  lemma ProtectionCanOrphan(p: Pair, tick: D.Tick, price: real, maxAge: int)
    requires p.row.active && Sound(p) && Held(p) && Settleable(p.row.order) && D.Driven(Active(p.row))
    requires tick.price > 0.0 && tick.now - p.row.createdAt < maxAge && LevelCrossed(p.row.order, tick.price).None?
    requires D.Verdict(Active(p.row), tick, p.row.profile).1.MoveToBreakeven?
    requires var o := p.row.order;
             && price > 0.0 && Gain(Position(p).stopLoss, price, o.direction) > 0.0
             && Gain(price, D.BreakevenStopPrice(o.entryPrice, o.direction, 0.001), o.direction) >= 0.0
             && Gain(price, o.takeProfit1, o.direction) > 0.0
    ensures var q := Run(p, [Pass(tick), PriceTick(price)], maxAge);
            !q.row.active && Orphaned(q) && q.book == p.book
  {
    var o := p.row.order;
    D.BreakevenPastEntry(o.entryPrice, o.direction);
    TwoEvents(p, Pass(tick), PriceTick(price), maxAge);
    var q := OnPass(p, tick, maxAge);
    assert q == Decayed(p, tick);
    PassSteps(p, tick, maxAge);
    hide D.Verdict, Mirrors, Fit;
    assert q.book == p.book && q.row.active && q.row.order.takeProfit1 == o.takeProfit1;
    assert LevelCrossed(q.row.order, price) == Some("STOP_LOSS");
    ResolvesIff(q.row, price);
    LevelExitOrphansIff(q, price);
  }

  /** It does happen: the plain long, protected after thirty minutes at 100.5, then ticking at 100.05. */
  lemma OrphanHappens()
    ensures var s := A.Assemble(W.CONFIG, W.CRYPTO, W.Plain(Long, 1, W.NO_PARAMS)).sig;
            var p := Opened(s, 0, Overridden(W.CRYPTO, "1h"), L.NewLedger(1000.0));
            var q := Run(p, [Pass(D.Tick(1800, 100.5)), PriceTick(100.05)], 3600);
            !q.row.active && Orphaned(q)
  {
    W.PlainSignalIsBuilt(Long);
    var c := W.Plain(Long, 1, W.NO_PARAMS);
    var s := A.Assemble(W.CONFIG, W.CRYPTO, c).sig;
    var l := L.NewLedger(1000.0);
    hide A.Assemble, Sound, Paired, Fit;
    assert L.Step(l, L.OpenFromSignal(S.OrderOf(s))).1.Opened?;
    OpenedIsSound(W.CONFIG, W.CRYPTO, c, s, 0, Overridden(W.CRYPTO, "1h"), l);
    S.BuiltMargin(W.CONFIG, W.CRYPTO, c, s);
    PlainOrphans(Opened(s, 0, Overridden(W.CRYPTO, "1h"), l));
  }

  lemma PlainOrphans(p: Pair)
    requires Sound(p) && Paired(p) && p.row.active && p.row.createdAt == 0 && p.row.decayState.Untouched?
    requires p.row.profile == Overridden(W.CRYPTO, "1h")
    requires p.row.order.direction == Long && p.row.order.entryPrice == 100.0 && Settleable(p.row.order)
    requires p.row.order.stopLoss == 97.5 && p.row.order.takeProfit1 == 106.25
    ensures var q := Run(p, [Pass(D.Tick(1800, 100.5)), PriceTick(100.05)], 3600);
            !q.row.active && Orphaned(q)
  {
    hide Run, Settleable, Orphaned, L.ExitTrigger, Fit, NeverLiquidates;
    var tick := D.Tick(1800, 100.5);
    assert D.Driven(Active(p.row));
    assert D.RMultiple(Active(p.row), 100.5) == 0.2;
    assert D.Verdict(Active(p.row), tick, p.row.profile).1.MoveToBreakeven?;
    assert Position(p).stopLoss == 97.5;
    ProtectionCanOrphan(p, tick, 100.05, 3600);
  }

  // ---------------------------------------------------------- what is reported

  lemma PositionMargin(o: L.SignalOrder, t: L.TradeRow)
    requires o.entryPrice > 0.0 && Mirrors(o, t)
    ensures t.Margin() == o.allocatedCapitalUSD
  {
    QuantityPositive(o.allocatedCapitalUSD, o.leverage, o.entryPrice);
  }

  lemma LevelExitSettles(p: Pair, price: real)
    requires p.row.active && Sound(p) && Held(p) && price > 0.0
    requires Resolve(p.row, price).Some? && !Held(OnTick(p, price))
    ensures OnTick(p, price).book.closedTrades
         == p.book.closedTrades
           + [L.Settled(p.book.friction, Position(p), price, LevelCrossed(p.row.order, price).value)]
  {
    LevelExitOrphansIff(p, price);
    TriggersCompared(p.row.order, Position(p), price);
    hide L.Settled, L.ExitTrigger, LevelCrossed, Settle, Mirrors;
  }

  lemma SettledBelowMove(f: F.FrictionModel, t: L.TradeRow, price: real, reason: string)
    requires f.Valid() && t.Sane() && price > 0.0
    ensures L.Settled(f, t, price, reason).realizedPnL <= t.Unrealized(price)
  {
    LL.SettlesBelowMark(f, t, price, reason);
    LL.SettledKeepsTerms(f, t, price, reason);
    hide L.Settled;
  }

  /** Reported profit is the position's own before costs: what the engine realizes is never more. */
  lemma RealizedAtMostReported(p: Pair, price: real)
    requires p.row.active && Sound(p) && Held(p) && price > 0.0 && p.book.friction.Valid()
    requires Resolve(p.row, price).Some? && !Held(OnTick(p, price))
    ensures var q := OnTick(p, price);
            q.book.closedTrades[|p.book.closedTrades|].realizedPnL <= q.row.exit.value.pnlUSD
  {
    var t, reason := Position(p), LevelCrossed(p.row.order, price).value;
    SettlesIff(p.row, price, reason, p.book);
    PositionSane(p, price);
    LevelExitSettles(p, price);
    SettledBelowMove(p.book.friction, t, price, reason);
    hide L.Settled, L.ExitTrigger, LevelCrossed, Settle, Quantity, L.SignalTrade, Sound, L.Step, Settleable;
  }

  lemma PositionSane(p: Pair, price: real)
    requires p.row.active && Sound(p) && Held(p) && Settleable(p.row.order)
    ensures Position(p).Sane()
    ensures p.row.order.entryPrice > 0.0
    ensures Position(p).Unrealized(price) == L.SignalTrade(p.book, p.row.order).Unrealized(price)
  {
    var o := p.row.order;
    QuantityPositive(o.allocatedCapitalUSD, o.leverage, o.entryPrice);
    SameUnrealized(L.SignalTrade(p.book, o), Position(p), price);
    hide NeverLiquidates, Quantity, Orphaned;
  }

  lemma SameUnrealized(a: L.TradeRow, b: L.TradeRow, price: real)
    requires a.side == b.side && a.entryPrice == b.entryPrice && a.positionSize == b.positionSize
    ensures a.Unrealized(price) == b.Unrealized(price)
  {
  }
}
