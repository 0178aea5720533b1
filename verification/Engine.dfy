/** The in-memory execution engine: objects and fields updated in place, refining `Ledger`. */
module Engine {
  import opened Common
  import opened Friction
  import opened FuturesMath
  import opened MapSums
  import opened Ledger
  import opened LedgerLaws

  class Trade {
    const id: int
    const symbol: string
    const side: Side
    const positionSize: real
    const entryPrice: real
    const stopLoss: real
    const takeProfit: real
    const leverage: int
    const liquidationPrice: real
    var status: Status
    var exitPrice: real
    var exitReason: string
    var executionFee: real
    var slippagePaid: real
    var realizedPnL: real
    var returnPct: Option<real>

    function Row(): TradeRow
      reads this
    {
      TradeRow(id, symbol, side, positionSize, entryPrice, stopLoss, takeProfit, leverage, liquidationPrice,
               status, exitPrice, exitReason, executionFee, slippagePaid, realizedPnL, returnPct)
    }

    constructor (row: TradeRow)
      ensures Row() == row
    {
      id := row.id;
      symbol := row.symbol;
      side := row.side;
      positionSize := row.positionSize;
      entryPrice := row.entryPrice;
      stopLoss := row.stopLoss;
      takeProfit := row.takeProfit;
      leverage := row.leverage;
      liquidationPrice := row.liquidationPrice;
      status := row.status;
      exitPrice := row.exitPrice;
      exitReason := row.exitReason;
      executionFee := row.executionFee;
      slippagePaid := row.slippagePaid;
      realizedPnL := row.realizedPnL;
      returnPct := row.returnPct;
    }

    /** Prices the exit and updates the trade's fields in place, in the order the engine makes them. */
    method Settle(f: FrictionModel, currentPrice: real, reason: string)
      modifies this
      ensures Row() == Settled(f, old(Row()), currentPrice, reason)
    {
      var exitSide := if side.Sell? then Buy else Sell;
      var q := CalculateExecution(f, exitSide, positionSize, currentPrice, 0.0002, 100.0, true);
      exitPrice := q.effectivePrice;
      exitReason := reason;
      status := Closed;
      executionFee := executionFee + q.totalFee;
      slippagePaid := slippagePaid + q.slippage;
      var (pnl, ret) := Row().CalculatePnL();
      realizedPnL := pnl;
      returnPct := ret;
    }
  }

  class ExecutionEngine {
    var initialEquity: real
    var cash: real
    var positions: map<string, Trade>
    var closedTrades: seq<Trade>
    var orderCounter: int
    var friction: FrictionModel

    /** No trade object is filed twice, and none is both open and closed. */
    ghost predicate Valid()
      reads this
    {
      && (forall s, t | s in positions && t in positions && s != t :: positions[s] != positions[t])
      && (forall s | s in positions :: positions[s] !in closedTrades)
    }

    ghost function Open(): map<string, TradeRow>
      reads this, positions.Values
    {
      map s | s in positions :: positions[s].Row()
    }

    ghost function Done(): seq<TradeRow>
      reads this, closedTrades
    {
      seq(|closedTrades|, i requires 0 <= i < |closedTrades| reads this, closedTrades => closedTrades[i].Row())
    }

    ghost function Abs(): Ledger
      reads this, positions.Values, closedTrades
    {
      Ledger(initialEquity, cash, Open(), Done(), orderCounter, friction)
    }

    constructor (initialCapital: real)
      ensures Valid() && Abs() == NewLedger(initialCapital)
    {
      initialEquity := initialCapital;
      cash := initialCapital;
      positions := map[];
      closedTrades := [];
      orderCounter := 0;
      friction := DefaultFrictionModel();
    }

    method SetFrictionModel(f: FrictionModel)
      requires Valid()
      modifies this`friction
      ensures Valid() && Abs() == old(Abs()).(friction := f)
    {
      friction := f;
    }

    /** Opens a position with friction; on a held symbol the old position is replaced. */
    method ExecuteOrder(req: OrderRequest) returns (trade: Trade?)
      requires Valid()
      modifies this
      ensures Valid()
      ensures Abs() == Step(old(Abs()), Op.ExecuteOrder(req)).0
      ensures trade == null <==> Step(old(Abs()), Op.ExecuteOrder(req)).1.Refused?
      ensures trade != null ==> fresh(trade) && req.symbol in positions && positions[req.symbol] == trade
    {
      var row, totalEntryCost := PriceOrder(req);
      trade := Debit(row, totalEntryCost);
    }

    /** Opens a priced position if the cash covers its cost; the order counts either way. */
    method Debit(row: TradeRow, totalEntryCost: real) returns (trade: Trade?)
      requires Valid() && totalEntryCost == row.Margin() + row.executionFee
      modifies this
      ensures Valid()
      ensures Abs() == Place(old(Abs()), row).0
      ensures trade == null <==> Place(old(Abs()), row).1.Refused?
      ensures trade != null ==> fresh(trade) && row.symbol in positions && positions[row.symbol] == trade
    {
      orderCounter := orderCounter + 1;
      assert Open() == old(Open()) && Done() == old(Done());
      if totalEntryCost > cash {
        return null;
      }
      trade := File(row, totalEntryCost);
    }

    /** Prices an order with friction; the cost is the margin plus the entry fee. */
    method PriceOrder(req: OrderRequest) returns (row: TradeRow, totalEntryCost: real)
      ensures row == OrderTrade(Abs(), req)
      ensures totalEntryCost == row.Margin() + row.executionFee
    {
      var side := OrderSide(req.side);
      var quote := CalculateExecution(friction, side, req.positionSize, req.price,
                                      req.symbolSpreadPct, req.availableDepthQty, req.isTaker);
      var lev := if req.leverage < 1 then 1 else req.leverage;
      var marginCost := (req.positionSize * quote.effectivePrice) / lev as real;
      totalEntryCost := marginCost + quote.totalFee;
      var liqPrice := LiquidationOrZero(quote.effectivePrice, lev, DirectionOf(side));
      row := TradeRow(orderCounter + 1, req.symbol, side, req.positionSize, quote.effectivePrice,
                      req.stopLoss, req.takeProfit, lev, liqPrice, Status.Open, 0.0, "",
                      quote.totalFee, quote.slippage, 0.0, Some(0.0));
    }

    /** Debits the cost of a position and files it under its symbol. */
    method File(row: TradeRow, cost: real) returns (trade: Trade)
      requires Valid()
      modifies this
      ensures Valid() && fresh(trade)
      ensures Abs() == old(Abs()).(cash := old(cash) - cost, positions := old(Open())[row.symbol := row])
      ensures row.symbol in positions && positions[row.symbol] == trade
    {
      trade := new Trade(row);
      cash := cash - cost;
      positions := positions[row.symbol := trade];
      assert Open() == old(Open())[row.symbol := row];
      assert Done() == old(Done());
    }

    /** Opens the position of a persisted signal, at most one per symbol. */
    method OpenPositionFromSignal(sig: SignalOrder) returns (trade: Trade?)
      requires Valid()
      modifies this
      ensures Valid()
      ensures Abs() == Step(old(Abs()), OpenFromSignal(sig)).0
      ensures trade == null <==> Step(old(Abs()), OpenFromSignal(sig)).1.Refused?
      ensures trade != null ==> sig.symbol in positions && positions[sig.symbol] == trade
    {
      if sig.entryPrice <= 0.0 {
        return null;
      }
      if sig.symbol in positions {
        return positions[sig.symbol];
      }
      orderCounter := orderCounter + 1;
      assert Open() == old(Open()) && Done() == old(Done());
      var lev := if sig.leverage < 1 then 1 else sig.leverage;
      var marginRequired := sig.allocatedCapitalUSD;
      if marginRequired > cash {
        return null;
      }
      var notionalValue := marginRequired * lev as real;
      var posSize := notionalValue / sig.entryPrice;
      var liqPrice := LiquidationOrZero(sig.entryPrice, lev, sig.direction);
      var row := TradeRow(orderCounter, sig.symbol, SideOf(sig.direction), posSize, sig.entryPrice,
                          sig.stopLoss, sig.takeProfit1, lev, liqPrice, Status.Open, 0.0, "",
                          0.0, 0.0, 0.0, Some(0.0));
      assert row == SignalTrade(old(Abs()), sig);
      trade := File(row, marginRequired);
    }

    /** Closes the symbol's position when `currentPrice` triggers one of its levels. */
    method CheckExit(symbol: string, currentPrice: real) returns (trade: Trade?)
      requires Valid()
      modifies this, if symbol in positions then {positions[symbol]} else {}
      ensures Valid()
      ensures Abs() == Step(old(Abs()), Op.CheckExit(symbol, currentPrice)).0
      ensures trade != null <==> Step(old(Abs()), Op.CheckExit(symbol, currentPrice)).1.Exited?
      ensures trade != null ==> symbol in old(positions) && trade == old(positions[symbol])
    {
      if symbol !in positions || positions[symbol].status != Status.Open {
        return null;
      }
      trade := positions[symbol];
      var trigger := ExitTrigger(trade.Row(), currentPrice);
      if trigger.None? {
        return null;
      }
      ClosePositionLocked(symbol, currentPrice, trigger.value);
    }

    /** Closes the symbol's position whatever its levels; a missing price means the entry price. */
    method ForceClosePosition(symbol: string, currentPrice: real, exitReason: string) returns (trade: Trade?)
      requires Valid()
      modifies this, if symbol in positions then {positions[symbol]} else {}
      ensures Valid()
      ensures Abs() == Step(old(Abs()), ForceClose(symbol, currentPrice, exitReason)).0
      ensures trade != null <==> Step(old(Abs()), ForceClose(symbol, currentPrice, exitReason)).1.Exited?
      ensures trade != null ==> symbol in old(positions) && trade == old(positions[symbol])
    {
      if symbol !in positions || positions[symbol].status != Status.Open {
        return null;
      }
      trade := positions[symbol];
      var price, reason := currentPrice, exitReason;
      if price <= 0.0 {
        price := trade.entryPrice;
      }
      if reason == "" {
        reason := "MANUAL_EXIT";
      }
      ClosePositionLocked(symbol, price, reason);
    }

    method ClosePositionLocked(symbol: string, currentPrice: real, exitReason: string)
      requires Valid() && symbol in positions
      modifies this, positions[symbol]
      ensures Valid()
      ensures Abs() == Close(old(Abs()), symbol, currentPrice, exitReason)
      ensures closedTrades == old(closedTrades) + [old(positions[symbol])]
    {
      var trade := positions[symbol];
      trade.Settle(friction, currentPrice, exitReason);
      assert trade.Row() == Settled(friction, old(Open())[symbol], currentPrice, exitReason);
      assert Open() - {symbol} == old(Open()) - {symbol} && Done() == old(Done());
      Release(symbol, trade);
    }

    /** Margin plus result, never less than nothing. */
    method Due(trade: Trade) returns (proceeds: real)
      ensures proceeds == Proceeds(trade.Row())
    {
      var margin := (trade.positionSize * trade.entryPrice) / trade.Row().EffLev() as real;
      proceeds := margin + trade.realizedPnL;
      if proceeds < 0.0 {
        proceeds := 0.0;
      }
    }

    /** Credits the proceeds of a settled trade and moves it to the closed list. */
    method Release(symbol: string, trade: Trade)
      requires Valid() && symbol in positions && positions[symbol] == trade
      modifies this
      ensures Valid()
      ensures Abs() == old(Abs()).(cash := old(cash) + Proceeds(trade.Row()),
                                   positions := old(Open()) - {symbol},
                                   closedTrades := old(Done()) + [trade.Row()])
      ensures closedTrades == old(closedTrades) + [trade]
    {
      hide Proceeds;
      var proceeds := Due(trade);
      cash := cash + proceeds;
      positions := positions - {symbol};
      closedTrades := closedTrades + [trade];
      assert Open() == old(Open()) - {symbol};
      assert Done() == old(Done()) + [trade.Row()] by { hide Valid; }
    }

    /** Marks every open position to `prices`, visiting the map in no particular order. */
    method GetTotalEquity(prices: map<string, real>) returns (equity: real)
      requires Valid()
      ensures equity == MarkedEquity(Abs(), prices)
    {
      equity := cash;
      ghost var marks := Marks(Open(), prices);
      ghost var unvisited := marks;
      var left := positions.Keys;
      while left != {}
        invariant left <= positions.Keys
        invariant unvisited.Keys == left && forall s | s in left :: unvisited[s] == marks[s]
        invariant equity + MapSum(unvisited) == MarkedEquity(Abs(), prices)
        decreases left
      {
        var sym :| sym in left;
        var pos := positions[sym];
        var currPrice := if sym in prices then prices[sym] else pos.entryPrice;
        assert Open()[sym] == pos.Row();
        MapSumRemove(unvisited, sym);
        left, unvisited := left - {sym}, unvisited - {sym};
        equity := equity + pos.Row().Mark(currPrice);
      }
    }
  }
}
