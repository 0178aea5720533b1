/**
 * The paper ledger as a state machine over values: cash, open positions by symbol and
 * the list of closed trades. `ExecutionEngine` (Engine.dfy) is proved to take these steps.
 */
module Ledger {
  import opened Common
  import opened Friction
  import opened FuturesMath

  datatype Status = Open | Closed

  datatype TradeRow = TradeRow(
    id: int,
    symbol: string,
    side: Side,
    positionSize: real,
    entryPrice: real,
    stopLoss: real,
    takeProfit: real,
    leverage: int,
    liquidationPrice: real,
    status: Status,
    exitPrice: real,
    exitReason: string,
    executionFee: real,
    slippagePaid: real,
    realizedPnL: real,
    returnPct: Option<real>)
  {
    function EffLev(): (lev: int)
      ensures lev >= 1
    {
      AtLeastOne(leverage)
    }

    /** Collateral locked by the position. */
    function Margin(): real {
      (positionSize * entryPrice) / EffLev() as real
    }

    function Unrealized(price: real): real {
      (if side.Buy? then price - entryPrice else entryPrice - price) * positionSize
    }

    /** What the position contributes to equity at `price`. */
    function Mark(price: real): real {
      Margin() + Unrealized(price)
    }

    /** Net PnL and return on margin; `None` is the division by zero margin, NaN or an infinity in floats. */
    function CalculatePnL(): (real, Option<real>) {
      if exitPrice == 0.0 || entryPrice == 0.0 then (0.0, Some(0.0))
      else
        var net := Unrealized(exitPrice) - executionFee;
        (net, if Margin() == 0.0 then None else Some(net / Margin() * 100.0))
    }

    /** Orders of a sane size at a sane price; fees already charged are not negative. */
    predicate Sane() {
      entryPrice > 0.0 && positionSize >= 0.0 && executionFee >= 0.0
    }
  }

  /** An active futures signal as the engine reads it. */
  datatype SignalOrder = SignalOrder(
    symbol: string,
    direction: Direction,
    entryPrice: real,
    stopLoss: real,
    takeProfit1: real,
    leverage: int,
    allocatedCapitalUSD: real)

  datatype OrderRequest = OrderRequest(
    symbol: string,
    side: string,
    price: real,
    positionSize: real,
    stopLoss: real,
    takeProfit: real,
    leverage: int,
    symbolSpreadPct: real,
    availableDepthQty: real,
    isTaker: bool)

  datatype Ledger = Ledger(
    initialEquity: real,
    cash: real,
    positions: map<string, TradeRow>,
    closedTrades: seq<TradeRow>,
    orderCounter: int,
    friction: FrictionModel)

  datatype Op =
    | ExecuteOrder(req: OrderRequest)
    | OpenFromSignal(sig: SignalOrder)
    | CheckExit(symbol: string, price: real)
    | ForceClose(symbol: string, price: real, reason: string)

  datatype Reply =
    | Opened(trade: TradeRow)
    | AlreadyOpen(trade: TradeRow)
    | Exited(trade: TradeRow)
    | Refused
    | NoExit

  function NewLedger(capital: real): Ledger {
    Ledger(capital, capital, map[], [], 0, DefaultFrictionModel())
  }

  function LiquidationOrZero(entry: real, leverage: int, dir: Direction): real {
    match CalculateLiquidationPrice(entry, leverage, dir, MMR)
    case Ok(p) => p
    case Err(_) => 0.0
  }

  // ------------------------------------------------------------------ opening

  function OrderSide(side: string): Side {
    if side == "SELL" || side == "SHORT" then Sell else Buy
  }

  function DirectionOf(side: Side): Direction {
    if side.Sell? then Short else Long
  }

  function SideOf(dir: Direction): Side {
    if dir.Short? then Sell else Buy
  }

  function OrderQuote(f: FrictionModel, req: OrderRequest): ExecutionQuote {
    CalculateExecution(f, OrderSide(req.side), req.positionSize, req.price,
                       req.symbolSpreadPct, req.availableDepthQty, req.isTaker)
  }

  function OrderTrade(l: Ledger, req: OrderRequest): TradeRow {
    var q := OrderQuote(l.friction, req);
    var side := OrderSide(req.side);
    var lev := AtLeastOne(req.leverage);
    TradeRow(l.orderCounter + 1, req.symbol, side, req.positionSize, q.effectivePrice, req.stopLoss, req.takeProfit,
             lev, LiquidationOrZero(q.effectivePrice, lev, DirectionOf(side)),
             Open, 0.0, "", q.totalFee, q.slippage, 0.0, Some(0.0))
  }

  function SignalTrade(l: Ledger, sig: SignalOrder): TradeRow
    requires sig.entryPrice > 0.0
  {
    var lev := AtLeastOne(sig.leverage);
    TradeRow(l.orderCounter + 1, sig.symbol, SideOf(sig.direction),
             (sig.allocatedCapitalUSD * lev as real) / sig.entryPrice, sig.entryPrice, sig.stopLoss, sig.takeProfit1,
             lev, LiquidationOrZero(sig.entryPrice, lev, sig.direction),
             Open, 0.0, "", 0.0, 0.0, 0.0, Some(0.0))
  }

  // ------------------------------------------------------------------ closing

  /** Which level, if any, `price` triggers: take profit first, then stop, then liquidation. */
  function ExitTrigger(t: TradeRow, price: real): Option<string> {
    match t.side
    case Buy =>
      if t.takeProfit > 0.0 && price >= t.takeProfit then Some("TAKE_PROFIT")
      else if t.stopLoss > 0.0 && price <= t.stopLoss then Some("STOP_LOSS")
      else if t.liquidationPrice > 0.0 && price <= t.liquidationPrice then Some("LIQUIDATION")
      else None
    case Sell =>
      if t.takeProfit > 0.0 && price <= t.takeProfit then Some("TAKE_PROFIT")
      else if t.stopLoss > 0.0 && price >= t.stopLoss then Some("STOP_LOSS")
      else if t.liquidationPrice > 0.0 && price >= t.liquidationPrice then Some("LIQUIDATION")
      else None
  }

  function ExitQuote(f: FrictionModel, t: TradeRow, price: real): ExecutionQuote {
    CalculateExecution(f, if t.side.Sell? then Buy else Sell, t.positionSize, price, 0.0002, 100.0, true)
  }

  /** The trade row after its exit has been priced and settled. */
  function Settled(f: FrictionModel, t: TradeRow, price: real, reason: string): TradeRow {
    var q := ExitQuote(f, t, price);
    var closed := t.(exitPrice := q.effectivePrice, exitReason := reason, status := Closed,
                     executionFee := t.executionFee + q.totalFee, slippagePaid := t.slippagePaid + q.slippage);
    var (pnl, ret) := closed.CalculatePnL();
    closed.(realizedPnL := pnl, returnPct := ret)
  }

  /** Cash credited when a settled trade leaves the book: never less than nothing. */
  function Proceeds(t: TradeRow): real {
    Max(0.0, t.Margin() + t.realizedPnL)
  }

  function Close(l: Ledger, symbol: string, price: real, reason: string): Ledger
    requires symbol in l.positions
  {
    var t := Settled(l.friction, l.positions[symbol], price, reason);
    l.(cash := l.cash + Proceeds(t), positions := l.positions - {symbol}, closedTrades := l.closedTrades + [t])
  }

  // -------------------------------------------------------------------- steps

  /** Debits margin and entry fee and files the trade, replacing whatever its symbol held. */
  function Place(l: Ledger, t: TradeRow): (Ledger, Reply) {
    var counted := l.(orderCounter := l.orderCounter + 1);
    var cost := t.Margin() + t.executionFee;
    if cost > l.cash then (counted, Refused)
    else (counted.(cash := l.cash - cost, positions := l.positions[t.symbol := t]), Opened(t))
  }

  function Step(l: Ledger, op: Op): (Ledger, Reply) {
    match op
    case ExecuteOrder(req) => Place(l, OrderTrade(l, req))
    case OpenFromSignal(sig) =>
      if sig.entryPrice <= 0.0 then (l, Refused)
      else if sig.symbol in l.positions then (l, AlreadyOpen(l.positions[sig.symbol]))
      else
        var counted := l.(orderCounter := l.orderCounter + 1);
        var t := SignalTrade(l, sig);
        if sig.allocatedCapitalUSD > l.cash then (counted, Refused)
        else (counted.(cash := l.cash - sig.allocatedCapitalUSD, positions := l.positions[sig.symbol := t]), Opened(t))
    case CheckExit(symbol, price) =>
      if symbol !in l.positions || l.positions[symbol].status.Closed? then (l, NoExit)
      else (
        match ExitTrigger(l.positions[symbol], price)
        case None => (l, NoExit)
        case Some(reason) =>
          var l' := Close(l, symbol, price, reason);
          (l', Exited(l'.closedTrades[|l.closedTrades|]))
      )
    case ForceClose(symbol, price, reason) =>
      if symbol !in l.positions || l.positions[symbol].status.Closed? then (l, NoExit)
      else
        var l' := Close(l, symbol, ForcedPrice(l.positions[symbol], price), ForcedReason(reason));
        (l', Exited(l'.closedTrades[|l.closedTrades|]))
  }

  function ForcedPrice(t: TradeRow, price: real): real {
    if price <= 0.0 then t.entryPrice else price
  }

  function ForcedReason(reason: string): string {
    if reason == "" then "MANUAL_EXIT" else reason
  }

  function Run(l: Ledger, ops: seq<Op>): Ledger
    decreases |ops|
  {
    if ops == [] then l else Run(Step(l, ops[0]).0, ops[1..])
  }
}
