/**
 * The life of a symbol's signal next to its engine position: level exits on ticks, the reconciler's
 * age, level and decay passes, manual closes, everything that moves the position alone - news exits,
 * the guardian daemon, reopening, a restart - and the symbol's next signal once this one is closed.
 */
module Lifecycle {
  import opened Common
  import opened FuturesMath
  import D = Decay
  import L = Ledger
  import E = Engine

  datatype Exit = Exit(price: real, reason: string, pnlUSD: real, roiPct: real)

  /**
   * The persisted signal: what the engine read when it opened the position, the profile that drives it -
   * its asset class's, overridden by its timeframe - and what has happened since.
   */
  datatype Row = Row(
    order: L.SignalOrder,
    createdAt: int,
    profile: RiskProfile,
    decayState: D.DecayState,
    active: bool,
    exit: Option<Exit>)

  function NewRow(order: L.SignalOrder, now: int, profile: RiskProfile): Row {
    Row(order, now, profile, D.Untouched, true, None)
  }

  /** Horizon, breakeven and flat minutes of a timeframe. */
  function TimeframeProfile(timeframe: string): Option<(int, int, int)> {
    match timeframe
    case "15m" => Some((45, 15, 30))
    case "30m" => Some((90, 25, 45))
    case "1h" => Some((120, 30, 60))
    case "2h" => Some((180, 45, 90))
    case "4h" => Some((360, 90, 180))
    case "6h" => Some((540, 135, 270))
    case "12h" => Some((720, 180, 360))
    case "1d" => Some((1440, 360, 720))
    case _ => None
  }

  /** The validated profile as the reconciler drives it: overridden, and not validated again. */
  function Overridden(base: RiskProfile, timeframe: string): RiskProfile {
    match TimeframeProfile(timeframe)
    case None => base
    case Some((horizon, breakeven, flat)) =>
      base.(horizonMin := horizon, decayBreakevenAtMin := breakeven, decayFlatAtMin := flat)
  }

  /** Every profile the reconciler drives a signal by has its checkpoints in order. */
  lemma OverriddenOrdered(base: RiskProfile, timeframe: string)
    requires base.Valid()
    ensures D.CheckpointsOrdered(Overridden(base, timeframe))
  {
  }

  /** But it need not be valid any more: it is exactly when the flat checkpoint still precedes the longest horizon. */
  lemma OverriddenValidIff(base: RiskProfile, timeframe: string)
    requires base.Valid() && TimeframeProfile(timeframe).Some?
    ensures Overridden(base, timeframe).Valid() <==>
            var (horizon, _, flat) := TimeframeProfile(timeframe).value;
            horizon <= base.horizonMax && flat < base.horizonMax
  {
  }

  // -------------------------------------------------------------- settlement

  function CalculateFuturesPnL(entry: real, exit: real, quantity: real, leverage: int, dir: Direction)
    : Option<(real, real)>
  {
    if entry <= 0.0 || exit <= 0.0 || quantity <= 0.0 || leverage < 1 then None
    else
      var margin := (quantity * entry) / leverage as real;
      if margin <= 0.0 then None
      else
        var pnl := quantity * Gain(entry, exit, dir);
        Some((pnl, pnl / margin * 100.0))
  }

  function Quantity(margin: real, leverage: int, entry: real): real
    requires entry > 0.0
  {
    (margin * leverage as real) / entry
  }

  /** The row closed at `price`, or none when its profit cannot be computed. */
  function Settle(r: Row, price: real, reason: string): Option<Row> {
    var o := r.order;
    if o.entryPrice <= 0.0 then None
    else
      match CalculateFuturesPnL(o.entryPrice, price, Quantity(o.allocatedCapitalUSD, o.leverage, o.entryPrice),
                                o.leverage, o.direction)
      case None => None
      case Some((pnl, roi)) => Some(r.(active := false, exit := Some(Exit(price, reason, pnl, roi))))
  }

  /** The level a price crosses on the signal itself: target first, then stop. */
  function LevelCrossed(o: L.SignalOrder, price: real): Option<string> {
    match o.direction
    case Long =>
      if price >= o.takeProfit1 then Some("TAKE_PROFIT") else if price <= o.stopLoss then Some("STOP_LOSS") else None
    case Short =>
      if price <= o.takeProfit1 then Some("TAKE_PROFIT") else if price >= o.stopLoss then Some("STOP_LOSS") else None
  }

  function Resolve(r: Row, price: real): Option<Row> {
    if !r.active || LevelCrossed(r.order, price).None? then None
    else Settle(r, price, LevelCrossed(r.order, price).value)
  }

  function CloseNow(r: Row, price: real, reason: string): Option<Row> {
    if !r.active || price <= 0.0 then None else Settle(r, price, if reason == "" then "MANUAL_EXIT" else reason)
  }

  /** What closing needs of a signal: positive money at stake and a leverage of at least 1. */
  predicate Settleable(o: L.SignalOrder) {
    o.entryPrice > 0.0 && o.allocatedCapitalUSD > 0.0 && o.leverage >= 1
  }

  lemma QuantityPositive(alloc: real, lev: int, entry: real)
    requires entry > 0.0
    ensures lev >= 1 ==> ((alloc * lev as real) / entry > 0.0 <==> alloc > 0.0)
    ensures lev >= 1 ==> ((alloc * lev as real) / entry * entry) / lev as real == alloc
  {
    if lev >= 1 {
      var n := alloc * lev as real;
      DivMulCancel(n, entry);
      MulDivCancel(alloc, lev as real);
      if alloc > 0.0 { QuotientPositive(n, entry); }
      if n / entry > 0.0 { assert n > 0.0; }
    }
  }

  /**
   * A signal can be closed at a positive price exactly when it is settleable, and then its profit is
   * that of the position the engine opened for it, and its return is measured on the capital allocated.
   */
  lemma SettlesIff(r: Row, price: real, reason: string, l: L.Ledger)
    requires price > 0.0
    ensures Settle(r, price, reason).Some? <==> Settleable(r.order)
    ensures Settleable(r.order) ==>
      var x := Settle(r, price, reason).value.exit.value;
      && x.pnlUSD == L.SignalTrade(l, r.order).Unrealized(price)
      && x.roiPct == x.pnlUSD / r.order.allocatedCapitalUSD * 100.0
      && x.price == price && x.reason == reason
  {
    var o := r.order;
    if o.entryPrice > 0.0 {
      QuantityPositive(o.allocatedCapitalUSD, o.leverage, o.entryPrice);
    }
  }

  // ------------------------------------------------------------------- steps

  /** One signal and the ledger it shares with every other. */
  datatype Pair = Pair(row: Row, book: L.Ledger)

  function Active(r: Row): D.Active {
    D.Active(r.order.direction, r.order.entryPrice, r.order.stopLoss, r.createdAt, r.decayState, r.active)
  }

  function Levelled(p: Pair, closed: Row, price: real): Pair {
    Pair(closed, L.Step(p.book, L.CheckExit(p.row.order.symbol, price)).0)
  }

  function Forced(p: Pair, closed: Row, price: real, reason: string): Pair {
    Pair(closed, L.Step(p.book, L.ForceClose(p.row.order.symbol, price, reason)).0)
  }

  /** A price tick: the signal's level exit, and only then the position's. */
  function OnTick(p: Pair, price: real): Pair {
    if price <= 0.0 then p
    else
      match Resolve(p.row, price)
      case None => p
      case Some(closed) => Levelled(p, closed, price)
  }

  function Decayed(p: Pair, tick: D.Tick): Pair {
    var s := Active(p.row);
    if !D.Driven(s) then p
    else
      match D.Verdict(s, tick, p.row.profile)
      case (_, NoAction) => p
      case (state, MoveToBreakeven) =>
        var beStop := D.BreakevenStopPrice(s.entryPrice, s.dir, 0.001);
        if Gain(s.stopLoss, beStop, s.dir) > 0.0
        then p.(row := p.row.(order := p.row.order.(stopLoss := beStop), decayState := state)) else p
      case (_, _) =>
        match CloseNow(p.row, tick.price, "TIME_EXIT")
        case None => p
        case Some(closed) => Forced(p, closed.(decayState := D.Ended), tick.price, "TIME_EXIT")
  }

  /** A row past its age with no price to settle at. */
  function Expired(r: Row, price: real): Row {
    r.(active := false, exit := Some(Exit(price, "TIME_EXIT", 0.0, 0.0)))
  }

  /** One reconciler pass: age first, then levels, then decay. */
  function OnPass(p: Pair, tick: D.Tick, maxAge: int): Pair {
    if !p.row.active then p
    else if tick.now - p.row.createdAt >= maxAge then
      if tick.price > 0.0 then
        match CloseNow(p.row, tick.price, "TIME_EXIT")
        case None => p
        case Some(closed) => Forced(p, closed, tick.price, "TIME_EXIT")
      else Forced(p, Expired(p.row, tick.price), tick.price, "TIME_EXIT")
    else if tick.price <= 0.0 then p
    else
      match Resolve(p.row, tick.price)
      case Some(closed) => Levelled(p, closed, tick.price)
      case None => Decayed(p, tick)
  }

  /** An operator's close: signal first, then position. */
  function OnManual(p: Pair, price: real, reason: string): Pair {
    match CloseNow(p.row, price, reason)
    case None => p
    case Some(closed) => Forced(p, closed, price, reason)
  }

  function OnEnsure(p: Pair): Pair {
    if p.row.active then p.(book := L.Step(p.book, L.OpenFromSignal(p.row.order)).0) else p
  }

  // ---------------------------------------------------------- the next signal

  const COMMODITY_GROUPS: set<string> :=
    {"GOLD", "SILVER", "COPPER", "PLATINUM", "PALLADIUM", "OIL", "ALUMINUM", "NATGAS"}

  /** The exposure group of a symbol as far as the guard reads it: a commodity's, else the base coin. */
  function ExposureGroup(symbol: string): string {
    var clean := UpperAll(symbol);
    if clean in {"PAXG/USDT", "XAU/USDT", "PAXGUSDT", "XAUUSDT"} then "GOLD"
    else if clean in {"XAG/USDT", "XAGUSDT"} then "SILVER"
    else if clean in {"COPPER/USDT", "COPPERUSDT"} then "COPPER"
    else if clean in {"XPT/USDT", "XPTUSDT"} then "PLATINUM"
    else if clean in {"XPD/USDT", "XPDUSDT"} then "PALLADIUM"
    else if clean in {"OIL/USDT", "BRENT/USDT", "OILUSDT", "BRENTUSDT", "CL=F", "BZ=F"} then "OIL"
    else if clean in {"NG/USDT", "NGUSDT", "NG=F"} then "NATGAS"
    else if clean in {"ALU/USDT", "ALUUSDT", "ALI=F"} then "ALUMINUM"
    else BaseOf(clean)
  }

  function UpperAll(s: string): string {
    seq(|s|, i requires 0 <= i < |s| => if 'a' <= s[i] <= 'z' then (s[i] as int - 32) as char else s[i])
  }

  /** The part before the first slash. */
  function BaseOf(s: string): string {
    if s == "" || s[0] == '/' then "" else [s[0]] + BaseOf(s[1..])
  }

  /** The same symbol, or commodities of one exposure group. */
  predicate AreCorrelatedCommodities(a: string, b: string) {
    a == b || (ExposureGroup(a) in COMMODITY_GROUPS && ExposureGroup(a) == ExposureGroup(b))
  }

  /** Correlation is an equivalence: commodities by what they are, any other symbol by itself alone. */
  lemma CorrelationIs(a: string, b: string, c: string)
    ensures AreCorrelatedCommodities(a, a)
    ensures AreCorrelatedCommodities(a, b) ==> AreCorrelatedCommodities(b, a)
    ensures AreCorrelatedCommodities(a, b) && AreCorrelatedCommodities(b, c) ==> AreCorrelatedCommodities(a, c)
    ensures ExposureGroup(a) !in COMMODITY_GROUPS ==> (AreCorrelatedCommodities(a, b) <==> a == b)
  {
    hide ExposureGroup;
  }

  lemma AlreadyUpper(s: string)
    requires forall c | c in s :: !('a' <= c <= 'z')
    ensures UpperAll(s) == s
  {
    assert forall i | 0 <= i < |s| :: s[i] in s;
  }

  /** The groups of the listed commodities, with or without the slash. */
  lemma GroupsAre(s: string)
    requires forall c | c in s :: !('a' <= c <= 'z')
    ensures s in {"PAXG/USDT", "XAU/USDT", "PAXGUSDT", "XAUUSDT"} ==> ExposureGroup(s) == "GOLD"
    ensures s in {"XAG/USDT", "XAGUSDT"} ==> ExposureGroup(s) == "SILVER"
    ensures s in {"COPPER/USDT", "COPPERUSDT"} ==> ExposureGroup(s) == "COPPER"
    ensures s in {"XPT/USDT", "XPTUSDT"} ==> ExposureGroup(s) == "PLATINUM"
    ensures s in {"XPD/USDT", "XPDUSDT"} ==> ExposureGroup(s) == "PALLADIUM"
    ensures s in {"OIL/USDT", "BRENT/USDT", "OILUSDT", "BRENTUSDT", "CL=F", "BZ=F"} ==> ExposureGroup(s) == "OIL"
    ensures s in {"NG/USDT", "NGUSDT", "NG=F"} ==> ExposureGroup(s) == "NATGAS"
    ensures s in {"ALU/USDT", "ALUUSDT", "ALI=F"} ==> ExposureGroup(s) == "ALUMINUM"
  {
    AlreadyUpper(s);
    hide UpperAll, BaseOf;
  }

  /** An open position correlated with the symbol: its evaluation holds, whatever the news. */
  predicate Blocked(book: L.Ledger, symbol: string) {
    exists s | s in book.positions :: AreCorrelatedCommodities(book.positions[s].symbol, symbol)
  }

  /** The symbol's next signal: evaluated only when none is active and nothing blocks it, then persisted and opened. */
  function OnNext(p: Pair, order: L.SignalOrder, now: int, profile: RiskProfile): Pair {
    if p.row.active || order.symbol != p.row.order.symbol || Blocked(p.book, order.symbol) then p
    else Pair(NewRow(order, now, profile), L.Step(p.book, L.OpenFromSignal(order)).0)
  }

  /** The symbol an operation is about. */
  function SymbolOf(op: L.Op): string {
    match op
    case ExecuteOrder(req) => req.symbol
    case OpenFromSignal(sig) => sig.symbol
    case CheckExit(symbol, _) => symbol
    case ForceClose(symbol, _, _) => symbol
  }

  datatype Event =
    | PriceTick(price: real)
    | Pass(tick: D.Tick)
    | ManualClose(price: real, reason: string)
    | NewsExit                    // closes the position at no price; the trade carries no signal id
    | Guardian(price: real)       // the daemon's level check, on the position alone
    | Ensure                      // reopens the position of an ACTIVE signal
    | NextSignal(order: L.SignalOrder, now: int, profile: RiskProfile)
    | Elsewhere(op: L.Op)         // anything on another symbol
    | Restart(capital: real)      // the ledger lives in memory only

  function Next(p: Pair, e: Event, maxAge: int): Pair {
    var symbol := p.row.order.symbol;
    match e
    case PriceTick(price) => OnTick(p, price)
    case Pass(tick) => OnPass(p, tick, maxAge)
    case ManualClose(price, reason) => OnManual(p, price, reason)
    case NewsExit => p.(book := L.Step(p.book, L.ForceClose(symbol, 0.0, "NEWS_EARLY_EXIT")).0)
    case Guardian(price) => p.(book := L.Step(p.book, L.CheckExit(symbol, price)).0)
    case Ensure => OnEnsure(p)
    case NextSignal(order, now, profile) => OnNext(p, order, now, profile)
    case Elsewhere(op) => if SymbolOf(op) == symbol then p else p.(book := L.Step(p.book, op).0)
    case Restart(capital) => p.(book := L.NewLedger(capital))
  }

  function Run(p: Pair, events: seq<Event>, maxAge: int): Pair
    decreases |events|
  {
    if events == [] then p else Run(Next(p, events[0], maxAge), events[1..], maxAge)
  }

  /** The decay pass here is the one of `Decay`, for every signal that can be closed. */
  lemma DecayedAgrees(p: Pair, tick: D.Tick)
    requires Settleable(p.row.order) && p.row.active
    ensures Active(Decayed(p, tick).row) == D.ApplyDecayState(Active(p.row), tick, p.row.profile)
  {
    if tick.price > 0.0 {
      SettlesIff(p.row, tick.price, "TIME_EXIT", p.book);
    }
    hide D.Verdict, Settle, Gain, D.BreakevenStopPrice;
  }

  // -------------------------------------------------------- objects in place

  class FuturesSignal {
    const symbol: string
    const direction: Direction
    const entryPrice: real
    var stopLoss: real
    const takeProfit1: real
    const leverage: int
    const allocatedCapitalUSD: real
    const createdAt: int
    const profile: RiskProfile
    var decayState: D.DecayState
    var active: bool
    var exit: Option<Exit>

    function View(): Row
      reads this
    {
      Row(L.SignalOrder(symbol, direction, entryPrice, stopLoss, takeProfit1, leverage, allocatedCapitalUSD),
          createdAt, profile, decayState, active, exit)
    }

    constructor (row: Row)
      ensures View() == row
    {
      var o := row.order;
      symbol, direction, entryPrice, stopLoss := o.symbol, o.direction, o.entryPrice, o.stopLoss;
      takeProfit1, leverage, allocatedCapitalUSD := o.takeProfit1, o.leverage, o.allocatedCapitalUSD;
      createdAt, profile, decayState, active, exit := row.createdAt, row.profile, row.decayState, row.active, row.exit;
    }

    /** Prices the exit and marks the signal closed; an exit that cannot be priced changes nothing. */
    method SettleAndClose(exitPrice: real, exitReason: string) returns (ok: bool)
      modifies this
      ensures ok <==> Settle(old(View()), exitPrice, exitReason).Some?
      ensures View() == if ok then Settle(old(View()), exitPrice, exitReason).value else old(View())
    {
      hide CalculateFuturesPnL, Quantity;
      if entryPrice <= 0.0 {
        return false;
      }
      var quantity := Quantity(allocatedCapitalUSD, leverage, entryPrice);
      var result := CalculateFuturesPnL(entryPrice, exitPrice, quantity, leverage, direction);
      if result.None? {
        return false;
      }
      active := false;
      exit := Some(Exit(exitPrice, exitReason, result.value.0, result.value.1));
      ok := true;
    }

    /** Closes on a crossed level. */
    method CheckSignalResolution(currentPrice: real) returns (resolved: bool)
      modifies this
      ensures resolved <==> Resolve(old(View()), currentPrice).Some?
      ensures View() == if resolved then Resolve(old(View()), currentPrice).value else old(View())
    {
      if !active {
        return false;
      }
      var crossed := LevelCrossed(View().order, currentPrice);
      if crossed.None? {
        return false;
      }
      hide Settle, LevelCrossed;
      resolved := SettleAndClose(currentPrice, crossed.value);
    }

    /** Closes whatever the levels say. */
    method CloseSignalNow(exitPrice: real, exitReason: string) returns (ok: bool)
      modifies this
      ensures ok <==> CloseNow(old(View()), exitPrice, exitReason).Some?
      ensures View() == if ok then CloseNow(old(View()), exitPrice, exitReason).value else old(View())
    {
      hide Settle;
      if !active || exitPrice <= 0.0 {
        return false;
      }
      var reason := exitReason;
      if reason == "" {
        reason := "MANUAL_EXIT";
      }
      ok := SettleAndClose(exitPrice, reason);
    }
  }

  method CheckSignalExitForTick(sig: FuturesSignal, engine: E.ExecutionEngine, price: real)
    requires engine.Valid()
    modifies sig, engine, engine.positions.Values
    ensures engine.Valid()
    ensures Pair(sig.View(), engine.Abs()) == OnTick(old(Pair(sig.View(), engine.Abs())), price)
  {
    hide Resolve, L.Step;
    if price <= 0.0 {
      return;
    }
    var resolved := sig.CheckSignalResolution(price);
    if resolved {
      var trade := engine.CheckExit(sig.symbol, price);
    }
  }

  method ApplyDecayState(sig: FuturesSignal, engine: E.ExecutionEngine, tick: D.Tick)
    requires engine.Valid()
    modifies sig, engine, engine.positions.Values
    ensures engine.Valid()
    ensures Pair(sig.View(), engine.Abs()) == Decayed(old(Pair(sig.View(), engine.Abs())), tick)
  {
    hide CloseNow, L.Step, D.Verdict, D.BreakevenStopPrice;
    var s := Active(sig.View());
    if !D.Driven(s) {
      return;
    }
    var (state, action) := D.Verdict(s, tick, sig.profile);
    match action {
      case NoAction =>
      case MoveToBreakeven =>
        var beStop := D.BreakevenStopPrice(sig.entryPrice, sig.direction, 0.001);
        if Gain(sig.stopLoss, beStop, sig.direction) > 0.0 {
          sig.stopLoss := beStop;
          sig.decayState := state;
        }
      case _ =>
        var ok := sig.CloseSignalNow(tick.price, "TIME_EXIT");
        if ok {
          var trade := engine.ForceClosePosition(sig.symbol, tick.price, "TIME_EXIT");
          sig.decayState := D.Ended;
        }
    }
  }

  method ReconcileSignal(sig: FuturesSignal, engine: E.ExecutionEngine, tick: D.Tick, maxAge: int)
    requires engine.Valid()
    modifies sig, engine, engine.positions.Values
    ensures engine.Valid()
    ensures Pair(sig.View(), engine.Abs()) == OnPass(old(Pair(sig.View(), engine.Abs())), tick, maxAge)
  {
    hide CloseNow, Resolve, L.Step, Decayed;
    if !sig.active {
      return;
    }
    if tick.now - sig.createdAt >= maxAge {
      if tick.price > 0.0 {
        var ok := sig.CloseSignalNow(tick.price, "TIME_EXIT");
        if !ok {
          return;
        }
      } else {
        sig.active, sig.exit := false, Some(Exit(tick.price, "TIME_EXIT", 0.0, 0.0));
      }
      var trade := engine.ForceClosePosition(sig.symbol, tick.price, "TIME_EXIT");
      return;
    }
    if tick.price <= 0.0 {
      return;
    }
    var resolved := sig.CheckSignalResolution(tick.price);
    if resolved {
      var trade := engine.CheckExit(sig.symbol, tick.price);
    } else {
      ApplyDecayState(sig, engine, tick);
    }
  }

  /** The operator's handler, once it has a positive price. */
  method CloseFuturesSignal(sig: FuturesSignal, engine: E.ExecutionEngine, exitPrice: real, exitReason: string)
    requires engine.Valid()
    modifies sig, engine, engine.positions.Values
    ensures engine.Valid()
    ensures Pair(sig.View(), engine.Abs()) == OnManual(old(Pair(sig.View(), engine.Abs())), exitPrice, exitReason)
  {
    hide CloseNow, L.Step;
    var ok := sig.CloseSignalNow(exitPrice, exitReason);
    if ok {
      var trade := engine.ForceClosePosition(sig.symbol, exitPrice, exitReason);
    }
  }

  /** Opens the position of an active signal unless its symbol has one. */
  method EnsureSignalPosition(sig: FuturesSignal, engine: E.ExecutionEngine)
    requires engine.Valid()
    modifies engine
    ensures engine.Valid()
    ensures Pair(sig.View(), engine.Abs()) == OnEnsure(old(Pair(sig.View(), engine.Abs())))
  {
    hide L.Step;
    if !sig.active {
      return;
    }
    var trade := engine.OpenPositionFromSignal(sig.View().order);
  }

  /** Reads every open trade of the engine, in any order. */
  method CorrelatedPositionOpen(engine: E.ExecutionEngine, symbol: string) returns (found: bool)
    requires engine.Valid()
    ensures found <==> Blocked(engine.Abs(), symbol)
  {
    var left := engine.positions.Keys;
    while left != {}
      invariant left <= engine.positions.Keys
      invariant forall s | s in engine.positions.Keys - left ::
                  !AreCorrelatedCommodities(engine.positions[s].symbol, symbol)
      decreases left
    {
      hide AreCorrelatedCommodities;
      var s :| s in left;
      if AreCorrelatedCommodities(engine.positions[s].symbol, symbol) {
        assert engine.Abs().positions[s].symbol == engine.positions[s].symbol;
        return true;
      }
      left := left - {s};
    }
    found := false;
  }

  /** The evaluation of a closed signal's symbol, as far as it touches store and engine; null when it holds. */
  method PlaceNextSignal(last: FuturesSignal, engine: E.ExecutionEngine, order: L.SignalOrder, now: int,
                         profile: RiskProfile)
    returns (sig: FuturesSignal?)
    requires engine.Valid() && order.symbol == last.symbol
    modifies engine
    ensures engine.Valid() && last.View() == old(last.View())
    ensures Pair(if sig == null then last.View() else sig.View(), engine.Abs())
         == OnNext(old(Pair(last.View(), engine.Abs())), order, now, profile)
    ensures sig == null <==> last.active || old(Blocked(engine.Abs(), order.symbol))
    ensures sig != null ==> fresh(sig)
  {
    hide L.Step, Blocked;
    if last.active {
      return null;
    }
    var blocked := CorrelatedPositionOpen(engine, order.symbol);
    if blocked {
      return null;
    }
    sig := new FuturesSignal(NewRow(order, now, profile));
    var trade := engine.OpenPositionFromSignal(order);
  }
}
