/** What a close pays: its fill, its fees and its return in plain numbers, and the cash of whole runs. */
module FeeLaws {
  import opened Common
  import opened Friction
  import opened FuturesMath
  import opened MapSums
  import opened Ledger
  import opened LedgerLaws

  // ---------------------------------------------------------------- one close

  /** What an exit gives up per unit: one basis point of the price, and impact up to the cap. */
  function Drop(f: FrictionModel, size: real, price: real): real {
    price / 10000.0 + price * Min(f.impactFactor * (size / 100.0) * (size / 100.0), f.CapPct())
  }

  /** The fill of an exit: never for nothing, a long that would fill at zero or below fills at a hundredth. */
  function Fill(f: FrictionModel, side: Side, size: real, price: real): real {
    if side.Sell? then price + Drop(f, size, price)
    else if Drop(f, size, price) >= price then price / 100.0
    else price - Drop(f, size, price)
  }

  lemma ExitFill(f: FrictionModel, t: TradeRow, price: real)
    requires price > 0.0
    ensures ExitQuote(f, t, price).effectivePrice == Fill(f, t.side, t.positionSize, price)
    ensures ExitQuote(f, t, price).totalFee ==
            Fill(f, t.side, t.positionSize, price) * t.positionSize * f.takerFeeRate
    ensures f.Valid() && t.positionSize >= 0.0 ==> Fill(f, t.side, t.positionSize, price) > 0.0
  {
    hide *;
    var side, size := if t.side.Sell? then Buy else Sell, t.positionSize;
    var q, fill := ExitQuote(f, t, price), Fill(f, t.side, size, price);
    ExitQuoteIs(f, t, price, side);
    if f.Valid() && size >= 0.0 {
      ExecutionIsAdverse(f, side, size, price, 0.0002, 100.0, true);
    }
    QuoteFills(f, side, size, price);
    FillsAtDrop(f, t.side, size, price, Drop(f, size, price));
    SameFee(q.effectivePrice, fill, size, f.takerFeeRate);
  }

  lemma ExitQuoteIs(f: FrictionModel, t: TradeRow, price: real, side: Side)
    requires side == if t.side.Sell? then Buy else Sell
    ensures ExitQuote(f, t, price) == CalculateExecution(f, side, t.positionSize, price, 0.0002, 100.0, true)
  {
    hide CalculateExecution;
  }

  lemma SameFee(a: real, b: real, size: real, rate: real)
    requires a == b
    ensures a * size * rate == b * size * rate
  {
  }

  lemma FillsAtDrop(f: FrictionModel, side: Side, size: real, price: real, drop: real)
    requires drop == Drop(f, size, price)
    ensures Fill(f, side, size, price) ==
            if side.Sell? then price + drop else if drop >= price then price / 100.0 else price - drop
  {
    hide Drop;
  }

  lemma QuoteFills(f: FrictionModel, side: Side, size: real, price: real)
    requires price > 0.0
    ensures var q, drop := CalculateExecution(f, side, size, price, 0.0002, 100.0, true), Drop(f, size, price);
            && q.effectivePrice ==
               (if side.Buy? then price + drop else if drop >= price then price / 100.0 else price - drop)
            && q.totalFee == q.effectivePrice * size * f.takerFeeRate
  {
    var q := CalculateExecution(f, side, size, price, 0.0002, 100.0, true);
    SlippageIs(f, size, price);
    SwapSides(q.effectivePrice, size, f.takerFeeRate);
    hide Slippage, Drop, FrictionModel.CapPct;
  }

  lemma HalfSpreadIs(price: real)
    ensures price * (0.0002 / 2.0) == price / 10000.0
  {
  }

  lemma SlippageIs(f: FrictionModel, size: real, price: real)
    requires price > 0.0
    ensures price * (0.0002 / 2.0) + Slippage(f, size, price, 100.0) == Drop(f, size, price)
  {
    var r := size / 100.0;
    HalfSpreadIs(price);
    Regroup(price, f.impactFactor, r);
    MinScales(price, f.impactFactor * r * r, f.CapPct());
  }

  lemma Regroup(p: real, i: real, r: real)
    ensures p * i * (r * r) == p * (i * r * r)
  {
  }

  lemma MinScales(p: real, a: real, b: real)
    requires p > 0.0
    ensures p * Min(a, b) == Min(p * a, p * b)
  {
    if a <= b { MulMonotone(a, b, p); } else { MulMonotone(b, a, p); }
  }

  /** The trade's recorded result is its price move times its size, less every fee it was charged. */
  ghost predicate Paid(c: TradeRow) {
    && c.realizedPnL == Move(c, c.exitPrice) * c.positionSize - c.executionFee
    && (Stake(c) == 0.0 ==> c.returnPct == None)
    && (Stake(c) != 0.0 ==> c.returnPct == Some(c.realizedPnL / Stake(c) * 100.0))
  }

  /** The collateral behind a trade. */
  function Stake(t: TradeRow): real {
    t.positionSize * t.entryPrice / AtLeastOne(t.leverage) as real
  }

  /** The close `c` of position `t` at `price`: filled with friction, charged the taker fee on the fill. */
  ghost predicate ClosesAt(f: FrictionModel, t: TradeRow, c: TradeRow, price: real) {
    && c.side == t.side && c.positionSize == t.positionSize && c.entryPrice == t.entryPrice && c.leverage == t.leverage
    && c.exitPrice == Fill(f, t.side, t.positionSize, price)
    && c.executionFee == t.executionFee + c.exitPrice * t.positionSize * f.takerFeeRate
    && Paid(c)
  }

  /** What settlement records of a trade whose prices are known. */
  lemma CalculatedPays(t: TradeRow)
    requires t.exitPrice != 0.0 && t.entryPrice != 0.0
    ensures Paid(t.(realizedPnL := t.CalculatePnL().0, returnPct := t.CalculatePnL().1))
  {
    var (pnl, ret) := t.CalculatePnL();
    var u := t.(realizedPnL := pnl, returnPct := ret);
    UnrealizedIsMove(t);
    MarginIsStake(t);
    hide TradeRow.Unrealized, TradeRow.Margin, Move;
    assert pnl == Move(t, t.exitPrice) * t.positionSize - t.executionFee;
    assert ret == if t.Margin() == 0.0 then None else Some(pnl / t.Margin() * 100.0);
    ReadsTheSame(t, u);
    hide TradeRow.CalculatePnL, Stake;
  }

  lemma ReadsTheSame(t: TradeRow, u: TradeRow)
    requires u == t.(realizedPnL := u.realizedPnL, returnPct := u.returnPct)
    ensures Move(u, u.exitPrice) == Move(t, t.exitPrice) && Stake(u) == Stake(t)
  {
  }

  lemma UnrealizedIsMove(t: TradeRow)
    ensures t.Unrealized(t.exitPrice) == Move(t, t.exitPrice) * t.positionSize
  {
  }

  lemma MarginIsStake(t: TradeRow)
    ensures t.Margin() == Stake(t)
  {
  }

  lemma SettledPays(f: FrictionModel, t: TradeRow, price: real, reason: string)
    requires price > 0.0 && t.entryPrice != 0.0 && f.Valid() && t.positionSize >= 0.0
    ensures ClosesAt(f, t, Settled(f, t, price, reason), price)
  {
    ExitFill(f, t, price);
    hide ExitQuote, Fill, Paid, TradeRow.CalculatePnL;
    var q := ExitQuote(f, t, price);
    CalculatedPays(t.(exitPrice := q.effectivePrice, exitReason := reason, status := Closed,
                      executionFee := t.executionFee + q.totalFee, slippagePaid := t.slippagePaid + q.slippage));
    SwapSides(q.effectivePrice, t.positionSize, f.takerFeeRate);
  }

  lemma SwapSides(a: real, b: real, c: real)
    ensures a * b * c == b * a * c
  {
  }

  /**
   * Every close, on a level or forced: price move times size, less the fee the position was opened with
   * and the taker fee on the exit fill, is what the trade realizes; its return is that over its margin;
   * and cash gains margin and result, but never less than nothing.
   */
  lemma ClosePaysFees(l: Ledger, op: Op)
    requires op.CheckExit? || op.ForceClose?
    requires Step(l, op).1.Exited? && (op.CheckExit? ==> op.price > 0.0)
    requires op.symbol in l.positions && l.positions[op.symbol].Sane() && l.friction.Valid()
    ensures var (l', reply) := Step(l, op);
            var t, c := l.positions[op.symbol], reply.trade;
            && ClosesAt(l.friction, t, c, if op.price > 0.0 then op.price else t.entryPrice)
            && l'.closedTrades == l.closedTrades + [c] && l'.positions == l.positions - {op.symbol}
            && l'.cash == l.cash + Max(0.0, Stake(t) + c.realizedPnL)
  {
    hide *;
    var t := l.positions[op.symbol];
    var price := if op.price > 0.0 then op.price else t.entryPrice;
    SaneTerms(t);
    if op.CheckExit? {
      TriggeredHas(l, op);
    }
    var reason := if op.CheckExit? then ExitTrigger(t, price).value else ForcedReason(op.reason);
    ClosingStep(l, op, price, reason);
    SettledPays(l.friction, t, price, reason);
    StakeIsMargin(l.friction, t, price, reason);
  }

  lemma SaneTerms(t: TradeRow)
    requires t.Sane()
    ensures t.entryPrice > 0.0 && t.positionSize >= 0.0
  {
  }

  lemma TriggeredHas(l: Ledger, op: Op)
    requires op.CheckExit? && Step(l, op).1.Exited?
    ensures op.symbol in l.positions && ExitTrigger(l.positions[op.symbol], op.price).Some?
  {
    hide Settled, ExitTrigger;
  }

  lemma ClosingStep(l: Ledger, op: Op, price: real, reason: string)
    requires op.CheckExit? || op.ForceClose?
    requires Step(l, op).1.Exited? && (op.CheckExit? ==> op.price > 0.0) && op.symbol in l.positions
    requires price == if op.price > 0.0 then op.price else l.positions[op.symbol].entryPrice
    requires reason == if op.CheckExit? then ExitTrigger(l.positions[op.symbol], price).value
                       else ForcedReason(op.reason)
    ensures var (l', reply) := Step(l, op);
            var c := Settled(l.friction, l.positions[op.symbol], price, reason);
            && reply.trade == c && l'.closedTrades == l.closedTrades + [c] && l'.positions == l.positions - {op.symbol}
            && l'.cash == l.cash + Max(0.0, c.Margin() + c.realizedPnL)
  {
    hide Settled, ExitTrigger;
  }

  lemma StakeIsMargin(f: FrictionModel, t: TradeRow, price: real, reason: string)
    ensures Settled(f, t, price, reason).Margin() == Stake(t)
  {
    SettledKeepsTerms(f, t, price, reason);
    MarginIsStake(t);
    hide *;
  }

  // ---------------------------------------------------------- what a close records

  /** `price` is at or past `level` for the holder. */
  predicate Gained(t: TradeRow, price: real, level: real) {
    if t.side == Buy then price >= level else price <= level
  }

  predicate Lost(t: TradeRow, price: real, level: real) {
    if t.side == Buy then price <= level else price >= level
  }

  /** The target comes before the stop, and the stop before liquidation; a level of zero is none. */
  lemma TriggerIs(t: TradeRow, price: real)
    ensures ExitTrigger(t, price) == Some("TAKE_PROFIT") <==> t.takeProfit > 0.0 && Gained(t, price, t.takeProfit)
    ensures ExitTrigger(t, price) == Some("STOP_LOSS") <==>
            && !(t.takeProfit > 0.0 && Gained(t, price, t.takeProfit))
            && t.stopLoss > 0.0 && Lost(t, price, t.stopLoss)
    ensures ExitTrigger(t, price) == Some("LIQUIDATION") <==>
            && !(t.takeProfit > 0.0 && Gained(t, price, t.takeProfit))
            && !(t.stopLoss > 0.0 && Lost(t, price, t.stopLoss))
            && t.liquidationPrice > 0.0 && Lost(t, price, t.liquidationPrice)
    ensures ExitTrigger(t, price).None? || ExitTrigger(t, price).value in {"TAKE_PROFIT", "STOP_LOSS", "LIQUIDATION"}
  {
  }

  /** What impact costs a unit of a fill that takes `share` of the depth. */
  function Impact(f: FrictionModel, price: real, share: real): real {
    price * Min(f.impactFactor * share * share, f.CapPct())
  }

  /** A close changes exit, fee, slippage, result and return of the trade, and nothing else of it. */
  lemma CloseRecords(l: Ledger, op: Op)
    requires op.CheckExit? || op.ForceClose?
    requires Step(l, op).1.Exited? && op.symbol in l.positions && (op.CheckExit? ==> op.price > 0.0)
    ensures var t, c := l.positions[op.symbol], Step(l, op).1.trade;
            var price := if op.price > 0.0 then op.price else t.entryPrice;
            && c == t.(status := Closed, exitPrice := c.exitPrice, executionFee := c.executionFee,
                       slippagePaid := c.slippagePaid, realizedPnL := c.realizedPnL, returnPct := c.returnPct,
                       exitReason := if op.CheckExit? then ExitTrigger(t, price).value
                                     else if op.reason == "" then "MANUAL_EXIT" else op.reason)
            && (price > 0.0 ==>
                  c.slippagePaid == t.slippagePaid + Impact(l.friction, price, t.positionSize / 100.0))
  {
    hide *;
    var t := l.positions[op.symbol];
    var price := if op.price > 0.0 then op.price else t.entryPrice;
    if op.CheckExit? {
      TriggeredHas(l, op);
    }
    var reason := if op.CheckExit? then ExitTrigger(t, price).value else ForcedReason(op.reason);
    ClosingStep(l, op, price, reason);
    ReasonIs(op);
    SettledRecords(l.friction, t, price, reason);
  }

  lemma ReasonIs(op: Op)
    requires op.ForceClose? || op.CheckExit?
    ensures op.ForceClose? ==> ForcedReason(op.reason) == if op.reason == "" then "MANUAL_EXIT" else op.reason
  {
  }

  lemma SettledRecords(f: FrictionModel, t: TradeRow, price: real, reason: string)
    ensures var c := Settled(f, t, price, reason);
            && c == t.(status := Closed, exitPrice := c.exitPrice, executionFee := c.executionFee, exitReason := reason,
                       slippagePaid := c.slippagePaid, realizedPnL := c.realizedPnL, returnPct := c.returnPct)
            && (price > 0.0 ==> c.slippagePaid == t.slippagePaid + Impact(f, price, t.positionSize / 100.0))
  {
    if price > 0.0 {
      ExitSlippage(f, t, price, t.positionSize / 100.0);
    }
    hide TradeRow.CalculatePnL, ExitQuote, Impact;
  }

  lemma ExitSlippage(f: FrictionModel, t: TradeRow, price: real, share: real)
    requires price > 0.0 && share == t.positionSize / 100.0
    ensures ExitQuote(f, t, price).slippage == Impact(f, price, share)
  {
    SlippageInDepth(f, t.positionSize, price, 100.0, 100.0, share);
    hide Slippage, EffectivePrice, FrictionModel.CapPct, Min, SpreadOrDefault;
  }

  // ---------------------------------------------------------------- whole runs

  function Moves(closed: seq<TradeRow>): real {
    if closed == [] then 0.0
    else
      var n := |closed| - 1;
      Moves(closed[..n]) + Moved(closed[n])
  }

  /** What the price move was worth on the whole size. */
  function Moved(c: TradeRow): real {
    Move(c, c.exitPrice) * c.positionSize
  }

  /** Taker fees on the exit fills. */
  function ExitFees(closed: seq<TradeRow>, rate: real): real {
    if closed == [] then 0.0
    else
      var n := |closed| - 1;
      ExitFees(closed[..n], rate) + closed[n].exitPrice * closed[n].positionSize * rate
  }

  /** Every fee the closed trades carry. */
  function Carried(closed: seq<TradeRow>): real {
    if closed == [] then 0.0 else Carried(closed[..|closed| - 1]) + closed[|closed| - 1].executionFee
  }

  /** Losses beyond the margin, which nobody pays. */
  function WrittenOff(closed: seq<TradeRow>): real {
    if closed == [] then 0.0
    else
      var c := closed[|closed| - 1];
      WrittenOff(closed[..|closed| - 1]) + Max(0.0, -(c.Margin() + c.realizedPnL))
  }

  ghost function FeesOf(positions: map<string, TradeRow>): map<string, real> {
    map s | s in positions :: positions[s].executionFee
  }

  ghost function OpenFees(l: Ledger): real {
    MapSum(FeesOf(l.positions))
  }

  /** The entry fee a replaced position carried. */
  ghost function LostFee(l: Ledger, op: Op): real {
    if op.ExecuteOrder? && Step(l, op).1.Opened? && op.req.symbol in l.positions
    then l.positions[op.req.symbol].executionFee else 0.0
  }

  ghost function LostFees(l: Ledger, ops: seq<Op>): real
    decreases |ops|
  {
    if ops == [] then 0.0 else LostFee(l, ops[0]) + LostFees(Step(l, ops[0]).0, ops[1..])
  }

  predicate PricedOp(op: Op) {
    SaneOp(op) && (op.CheckExit? ==> op.price > 0.0)
  }

  /** Sane positions, those of no size without a fee, and every closed trade paid. */
  ghost predicate FeesKept(l: Ledger) {
    && AllSane(l)
    && (forall s | s in l.positions && l.positions[s].positionSize == 0.0 :: l.positions[s].executionFee == 0.0)
    && (forall c | c in l.closedTrades :: Paid(c))
  }

  /** Fees on the books, less those charged on exits. */
  ghost function FeeBooks(l: Ledger): real {
    Carried(l.closedTrades) + OpenFees(l) - ExitFees(l.closedTrades, l.friction.takerFeeRate)
  }

  lemma OneMoreFee(positions: map<string, TradeRow>, s: string, t: TradeRow)
    ensures MapSum(FeesOf(positions[s := t])) ==
            MapSum(FeesOf(positions)) + t.executionFee - (if s in positions then positions[s].executionFee else 0.0)
  {
    assert FeesOf(positions[s := t]) == FeesOf(positions)[s := t.executionFee];
    MapSumInsert(FeesOf(positions), s, t.executionFee);
  }

  lemma OneMoreClosed(closed: seq<TradeRow>, c: TradeRow, rate: real)
    ensures Moves(closed + [c]) == Moves(closed) + Moved(c)
    ensures ExitFees(closed + [c], rate) == ExitFees(closed, rate) + c.exitPrice * c.positionSize * rate
    ensures Carried(closed + [c]) == Carried(closed) + c.executionFee
  {
    assert (closed + [c])[..|closed|] == closed;
  }

  lemma CloseStepFees(l: Ledger, op: Op)
    requires FeesKept(l) && PricedOp(op) && (op.CheckExit? || op.ForceClose?) && Step(l, op).1.Exited?
    ensures FeesKept(Step(l, op).0) && FeeBooks(Step(l, op).0) == FeeBooks(l)
  {
    hide *;
    ExitedWasOpen(l, op);
    PricedIsSane(l, op);
    ClosePaysFees(l, op);
    StepKeepsSane(l, op);
    StepKeepsFriction(l, op);
    ClosedTerms(l.friction, l.positions[op.symbol], Step(l, op).1.trade,
                if op.price > 0.0 then op.price else l.positions[op.symbol].entryPrice);
    MovedToClosed(l, Step(l, op).0, op.symbol, Step(l, op).1.trade);
  }

  lemma PricedIsSane(l: Ledger, op: Op)
    requires FeesKept(l) && PricedOp(op)
    ensures AllSane(l) && SaneOp(op) && (op.CheckExit? ==> op.price > 0.0)
  {
  }

  lemma ClosedTerms(f: FrictionModel, t: TradeRow, c: TradeRow, price: real)
    requires ClosesAt(f, t, c, price)
    ensures Paid(c) && c.executionFee == t.executionFee + c.exitPrice * c.positionSize * f.takerFeeRate
  {
    hide Paid, Fill;
  }

  lemma ExitedWasOpen(l: Ledger, op: Op)
    requires (op.CheckExit? || op.ForceClose?) && Step(l, op).1.Exited? && FeesKept(l)
    ensures op.symbol in l.positions && l.positions[op.symbol].Sane() && l.friction.Valid()
  {
    hide Settled, ExitTrigger;
  }

  lemma MovedToClosed(l: Ledger, l': Ledger, symbol: string, c: TradeRow)
    requires FeesKept(l) && AllSane(l') && symbol in l.positions && Paid(c) && l'.friction == l.friction
    requires l'.closedTrades == l.closedTrades + [c] && l'.positions == l.positions - {symbol}
    requires c.executionFee == l.positions[symbol].executionFee + c.exitPrice * c.positionSize * l.friction.takerFeeRate
    ensures FeesKept(l') && FeeBooks(l') == FeeBooks(l)
  {
    hide Paid, AllSane;
    OneMoreClosed(l.closedTrades, c, l.friction.takerFeeRate);
    assert FeesOf(l'.positions) == FeesOf(l.positions) - {symbol};
    MapSumRemove(FeesOf(l.positions), symbol);
  }

  lemma StepKeepsFriction(l: Ledger, op: Op)
    ensures Step(l, op).0.friction == l.friction
  {
    hide ExitTrigger, OrderTrade, SignalTrade, Settled;
  }

  lemma OpenStepFees(l: Ledger, op: Op)
    requires FeesKept(l) && PricedOp(op) && (op.ExecuteOrder? || op.OpenFromSignal?)
    ensures FeesKept(Step(l, op).0)
    ensures FeeBooks(Step(l, op).0) == FeeBooks(l) + EntryFee(l, op) - LostFee(l, op)
  {
    StepKeepsSane(l, op);
    if op.ExecuteOrder? {
      var t := OrderTrade(l, op.req);
      assert t.positionSize == 0.0 ==> t.executionFee == 0.0;
      OneMoreFee(l.positions, op.req.symbol, t);
      hide OrderTrade, Paid, AllSane;
    } else if op.sig.entryPrice > 0.0 {
      OneMoreFee(l.positions, op.sig.symbol, SignalTrade(l, op.sig));
      hide Paid, AllSane;
    }
  }

  lemma StepFees(l: Ledger, op: Op)
    requires FeesKept(l) && PricedOp(op)
    ensures FeesKept(Step(l, op).0)
    ensures FeeBooks(Step(l, op).0) == FeeBooks(l) + EntryFee(l, op) - LostFee(l, op)
  {
    if op.ExecuteOrder? || op.OpenFromSignal? {
      OpenStepFees(l, op);
    } else if Step(l, op).1.Exited? {
      CloseStepFees(l, op);
    } else {
      NoExitNoChange(l, op);
    }
    hide FeesKept, Step, FeeBooks;
  }

  lemma NoExitNoChange(l: Ledger, op: Op)
    requires (op.CheckExit? || op.ForceClose?) && !Step(l, op).1.Exited?
    ensures Step(l, op).0 == l
  {
    hide ExitTrigger;
  }

  lemma {:induction false} RunFees(l: Ledger, ops: seq<Op>)
    requires FeesKept(l) && forall op | op in ops :: PricedOp(op)
    ensures FeesKept(Run(l, ops)) && Run(l, ops).friction == l.friction
    ensures FeeBooks(Run(l, ops)) == FeeBooks(l) + EntryFees(l, ops) - LostFees(l, ops)
    decreases |ops|
  {
    if ops != [] {
      assert PricedOp(ops[0]);
      StepFees(l, ops[0]);
      StepKeepsFriction(l, ops[0]);
      hide FeesKept, Step, FeeBooks, EntryFee, LostFee;
      RunFees(Step(l, ops[0]).0, ops[1..]);
    }
  }

  /** Paid trades: what closed trades gave back is their moves, less fees, plus what was written off. */
  lemma {:induction false} ResultIsMovesLessFees(closed: seq<TradeRow>)
    requires forall c | c in closed :: Paid(c)
    ensures ClosedResult(closed) == Moves(closed) - Carried(closed) + WrittenOff(closed)
    decreases |closed|
  {
    if closed != [] {
      var n := |closed| - 1;
      ResultIsMovesLessFees(closed[..n]);
      assert closed[n] in closed;
      OneResult(closed[n]);
      hide Paid, Max, TradeRow.Margin, Moved;
    }
  }

  lemma OneResult(c: TradeRow)
    requires Paid(c)
    ensures Max(c.realizedPnL, -c.Margin()) == Moved(c) - c.executionFee + Max(0.0, -(c.Margin() + c.realizedPnL))
  {
    hide TradeRow.Margin, Move, Stake;
  }

  /**
   * The cash of every run of sane orders and priced exits, to the cent: capital and price moves, less
   * locked and lost margin, exit fees - and entry fees twice, since an order pays its fee from cash and
   * its close charges it again.
   */
  lemma CashOfRun(capital: real, ops: seq<Op>)
    requires forall op | op in ops :: PricedOp(op)
    ensures var start := NewLedger(capital); var l := Run(start, ops);
            l.cash + LockedMargin(l) + LostMargin(start, ops)
            + 2.0 * EntryFees(start, ops) + ExitFees(l.closedTrades, 0.0005)
            == capital + Moves(l.closedTrades) + WrittenOff(l.closedTrades) + OpenFees(l) + LostFees(start, ops)
  {
    var start := NewLedger(capital);
    var l := Run(start, ops);
    assert start.friction.takerFeeRate == 0.0005 && FeesOf(start.positions) == map[];
    RunFees(start, ops);
    Conservation(capital, ops);
    ResultIsMovesLessFees(l.closedTrades);
    hide Run, EntryFees, LostFees, LostMargin, LockedMargin;
  }

  lemma {:induction false} NothingReplacedNoFeeLost(l: Ledger, ops: seq<Op>)
    requires FeesKept(l) && NothingReplaced(l, ops) && forall op | op in ops :: PricedOp(op)
    ensures LostFees(l, ops) == 0.0
    decreases |ops|
  {
    if ops != [] {
      assert PricedOp(ops[0]);
      StepFees(l, ops[0]);
      assert LostFee(l, ops[0]) == 0.0 by {
        hide OrderTrade;
      }
      hide FeesKept, Step, FeeBooks, EntryFee, LostFee, Replaces;
      NothingReplacedNoFeeLost(Step(l, ops[0]).0, ops[1..]);
    }
  }

  /**
   * With every position closed again, nothing replaced and no loss beyond its margin, cash is the capital
   * plus every price move times its size, less the exit fees and twice the entry fees.
   */
  lemma CashWhenAllClosed(capital: real, ops: seq<Op>)
    requires forall op | op in ops :: PricedOp(op)
    requires NothingReplaced(NewLedger(capital), ops)
    requires var l := Run(NewLedger(capital), ops); l.positions == map[] && WrittenOff(l.closedTrades) == 0.0
    ensures var start := NewLedger(capital); var l := Run(start, ops);
            l.cash == capital + Moves(l.closedTrades) - ExitFees(l.closedTrades, 0.0005) - 2.0 * EntryFees(start, ops)
  {
    var start := NewLedger(capital);
    var l := Run(start, ops);
    assert FeesOf(start.positions) == map[];
    CashOfRun(capital, ops);
    NothingReplacedNoFeeLost(start, ops);
    SaneWhenPriced(ops);
    LostMarginIff(start, ops);
    assert FeesOf(l.positions) == map[] && Margins(l.positions) == map[];
    hide Run, EntryFees, LostFees, LostMargin;
  }

  lemma SaneWhenPriced(ops: seq<Op>)
    requires forall op | op in ops :: PricedOp(op)
    ensures forall op | op in ops :: SaneOp(op)
  {
  }

  lemma PlainFill()
    ensures Fill(DefaultFrictionModel(), Buy, 1.0, 110.0) == 109.98845
  {
    var f := DefaultFrictionModel();
    assert f.impactFactor * (1.0 / 100.0) * (1.0 / 100.0) == 0.000005;
    assert Drop(f, 1.0, 110.0) == 0.01155;
  }

  /** Long from 100 with 100 USD at leverage 1, closed at 110: both fees and the spread are paid. */
  lemma PlainClose()
    ensures var sig := SignalOrder("A", Long, 100.0, 95.0, 120.0, 1, 100.0);
            var l := Step(NewLedger(1000.0), OpenFromSignal(sig)).0;
            var (l', reply) := Step(l, ForceClose("A", 110.0, ""));
            reply.Exited? && reply.trade.realizedPnL == 9.933455775 && l'.cash == 1009.933455775
            && reply.trade.returnPct == Some(9.933455775)
  {
    var sig := SignalOrder("A", Long, 100.0, 95.0, 120.0, 1, 100.0);
    var l := Step(NewLedger(1000.0), OpenFromSignal(sig)).0;
    PlainOpen(sig);
    PlainFill();
    hide Fill, Drop, SignalTrade, TradeRow.Sane;
    ClosePlain(l, l.positions["A"]);
  }

  lemma PlainOpen(sig: SignalOrder)
    requires sig == SignalOrder("A", Long, 100.0, 95.0, 120.0, 1, 100.0)
    ensures var l := Step(NewLedger(1000.0), OpenFromSignal(sig)).0;
            && "A" in l.positions && l.cash == 900.0 && l.friction == DefaultFrictionModel()
            && var t := l.positions["A"];
               t.Sane() && t.status.Open? && t.side == Buy && t.positionSize == 1.0 && t.entryPrice == 100.0
               && t.executionFee == 0.0 && t.leverage == 1
  {
  }

  lemma ClosePlain(l: Ledger, t: TradeRow)
    requires "A" in l.positions && l.positions["A"] == t && l.cash == 900.0 && l.friction == DefaultFrictionModel()
    requires t.Sane() && t.status.Open? && t.side == Buy && t.positionSize == 1.0 && t.entryPrice == 100.0
    requires t.executionFee == 0.0 && t.leverage == 1
    ensures var (l', reply) := Step(l, ForceClose("A", 110.0, ""));
            reply.Exited? && reply.trade.realizedPnL == 9.933455775 && l'.cash == 1009.933455775
            && reply.trade.returnPct == Some(9.933455775)
  {
    PlainFill();
    assert Step(l, ForceClose("A", 110.0, "")).1.Exited? by { hide Settled; }
    hide Step, Fill;
    ClosePaysFees(l, ForceClose("A", 110.0, ""));
  }

  /** One unit bought at 100 and closed at its own fill's level: the entry fee leaves the cash twice. */
  lemma EntryFeeChargedTwice()
    ensures var req := OrderRequest("A", "BUY", 100.0, 1.0, 0.0, 0.0, 1, 0.0, 0.0, true);
            var l := Step(NewLedger(1000.0), ExecuteOrder(req)).0;
            var (l', reply) := Step(l, ForceClose("A", 110.0, ""));
            && reply.Exited?
            && var entryFee, exitFee := 0.05000525, reply.trade.exitPrice * 0.0005;
               l'.cash == 1000.0 + (reply.trade.exitPrice - 100.0105) - exitFee - 2.0 * entryFee
  {
    var req := OrderRequest("A", "BUY", 100.0, 1.0, 0.0, 0.0, 1, 0.0, 0.0, true);
    var l0 := NewLedger(1000.0);
    var q := OrderQuote(l0.friction, req);
    assert q.effectivePrice == 100.0105 && q.totalFee == 0.05000525;
    var l := Step(l0, ExecuteOrder(req)).0;
    var t := l.positions["A"];
    assert t.positionSize == 1.0 && t.entryPrice == 100.0105 && t.executionFee == 0.05000525 && t.leverage == 1;
    assert l.cash == 1000.0 - 100.0105 - 0.05000525;
    ClosePaysFees(l, ForceClose("A", 110.0, ""));
    PlainFill();
  }

  // ------------------------------------------------------------------ opening

  /** What a fill gives up per unit: half the spread, and impact up to the cap. */
  function DropOf(f: FrictionModel, price: real, spread: real, share: real): real {
    price * spread / 2.0 + price * Min(f.impactFactor * share * share, f.CapPct())
  }

  /** The spread and depth of an order; an unknown one has its default. */
  function SpreadOf(req: OrderRequest): real {
    if req.symbolSpreadPct <= 0.0 then 0.0002 else req.symbolSpreadPct
  }

  function DepthOf(req: OrderRequest): (r: real)
    ensures r > 0.0
  {
    if req.availableDepthQty <= 0.0 then 100.0 else req.availableDepthQty
  }

  function EntryDrop(f: FrictionModel, req: OrderRequest): real {
    DropOf(f, req.price, SpreadOf(req), req.positionSize / DepthOf(req))
  }

  predicate Sells(req: OrderRequest) {
    req.side == "SELL" || req.side == "SHORT"
  }

  function EntryFill(f: FrictionModel, req: OrderRequest): real {
    if !Sells(req) then req.price + EntryDrop(f, req)
    else if EntryDrop(f, req) >= req.price then req.price / 100.0
    else req.price - EntryDrop(f, req)
  }

  function EntryFeeOf(f: FrictionModel, req: OrderRequest): real {
    EntryFill(f, req) * req.positionSize * if req.isTaker then f.takerFeeRate else f.makerFeeRate
  }

  lemma OrderFill(f: FrictionModel, req: OrderRequest)
    requires req.price > 0.0
    ensures OrderQuote(f, req).effectivePrice == EntryFill(f, req)
    ensures OrderQuote(f, req).totalFee == EntryFeeOf(f, req)
  {
    var spread, depth, drop := SpreadOf(req), DepthOf(req), EntryDrop(f, req);
    SideIs(req);
    FillIs(f, req, drop);
    QuoteOfOrder(f, req);
    QuoteIs(f, OrderSide(req.side), req.positionSize, req.price, req.symbolSpreadPct, req.availableDepthQty,
            req.isTaker, spread, depth, drop);
    hide CalculateExecution, OrderQuote, DropOf, EntryFill, EntryFeeOf, OrderSide, Sells;
  }

  lemma SideIs(req: OrderRequest)
    ensures OrderSide(req.side).Sell? <==> Sells(req)
  {
  }

  lemma FillIs(f: FrictionModel, req: OrderRequest, drop: real)
    requires drop == EntryDrop(f, req)
    ensures EntryFill(f, req) == (if !Sells(req) then req.price + drop
                                  else if drop >= req.price then req.price / 100.0 else req.price - drop)
    ensures EntryFeeOf(f, req) ==
            EntryFill(f, req) * req.positionSize * if req.isTaker then f.takerFeeRate else f.makerFeeRate
  {
    hide EntryDrop;
  }

  lemma QuoteOfOrder(f: FrictionModel, req: OrderRequest)
    ensures OrderQuote(f, req) == CalculateExecution(f, OrderSide(req.side), req.positionSize, req.price,
                                                     req.symbolSpreadPct, req.availableDepthQty, req.isTaker)
  {
    hide CalculateExecution, OrderSide;
  }

  /** A quote in closed form, from what it gives up per unit. */
  lemma QuoteIs(f: FrictionModel, side: Side, size: real, price: real, spreadIn: real, depthIn: real, isTaker: bool,
                spread: real, depth: real, drop: real)
    requires price > 0.0
    requires spread == (if spreadIn <= 0.0 then 0.0002 else spreadIn)
    requires depth == if depthIn <= 0.0 then 100.0 else depthIn
    requires drop == DropOf(f, price, spread, size / depth)
    ensures var q := CalculateExecution(f, side, size, price, spreadIn, depthIn, isTaker);
            && q.effectivePrice ==
               (if side.Buy? then price + drop else if drop >= price then price / 100.0 else price - drop)
            && q.totalFee == q.effectivePrice * size * if isTaker then f.takerFeeRate else f.makerFeeRate
  {
    var q := CalculateExecution(f, side, size, price, spreadIn, depthIn, isTaker);
    QuoteDrop(f, size, price, spreadIn, depthIn, spread, depth, size / depth);
    SwapSides(q.effectivePrice, size, if isTaker then f.takerFeeRate else f.makerFeeRate);
    hide Slippage, SpreadOrDefault, FrictionModel.CapPct, DropOf;
  }

  lemma QuoteDrop(f: FrictionModel, size: real, price: real, spreadIn: real, depthIn: real, spread: real, depth: real,
                  share: real)
    requires price > 0.0 && spread == if spreadIn <= 0.0 then 0.0002 else spreadIn
    requires depth == (if depthIn <= 0.0 then 100.0 else depthIn) && share == size / depth
    ensures price * (SpreadOrDefault(spreadIn) / 2.0) + Slippage(f, size, price, depthIn) ==
            DropOf(f, price, spread, share)
  {
    HalfOf(price, spread);
    SlippageInDepth(f, size, price, depthIn, depth, share);
    hide Slippage, FrictionModel.CapPct;
  }

  lemma SlippageInDepth(f: FrictionModel, size: real, price: real, depthIn: real, depth: real, share: real)
    requires price > 0.0 && depth == (if depthIn <= 0.0 then 100.0 else depthIn) && share == size / depth
    ensures Slippage(f, size, price, depthIn) == price * Min(f.impactFactor * share * share, f.CapPct())
  {
    Regroup(price, f.impactFactor, share);
    MinScales(price, f.impactFactor * share * share, f.CapPct());
  }

  lemma HalfOf(p: real, spread: real)
    ensures p * (spread / 2.0) == p * spread / 2.0
  {
  }

  /** An order opens exactly when the cash covers stake and fee at its fill, and then pays both at once. */
  lemma OrderIs(l: Ledger, req: OrderRequest)
    requires req.price > 0.0
    ensures var (l', reply) := Step(l, ExecuteOrder(req)); var t := OrderTrade(l, req);
            && t.entryPrice == EntryFill(l.friction, req) && t.executionFee == EntryFeeOf(l.friction, req)
            && t.side == (if Sells(req) then Sell else Buy) && t.positionSize == req.positionSize
            && t.leverage == AtLeastOne(req.leverage) && t.stopLoss == req.stopLoss && t.takeProfit == req.takeProfit
            && t.symbol == req.symbol && t.status.Open? && t.id == l.orderCounter + 1
            && l'.orderCounter == l.orderCounter + 1 && l'.closedTrades == l.closedTrades
            && (if Stake(t) + t.executionFee <= l.cash then
                  reply == Opened(t) && l'.cash == l.cash - Stake(t) - t.executionFee
                  && l'.positions == l.positions[req.symbol := t]
                else reply.Refused? && l'.cash == l.cash && l'.positions == l.positions)
  {
    OrderFill(l.friction, req);
    MarginIsStake(OrderTrade(l, req));
    hide OrderQuote, EntryFill, EntryFeeOf, TradeRow.Margin, Stake, LiquidationOrZero;
  }

  /**
   * A signal opens exactly when its symbol is free and the cash covers its capital, which buys its notional at
   * entry.
   */
  lemma SignalOpenIs(l: Ledger, sig: SignalOrder)
    ensures var (l', reply) := Step(l, OpenFromSignal(sig));
            if sig.entryPrice <= 0.0 then reply.Refused? && l' == l
            else if sig.symbol in l.positions then reply == AlreadyOpen(l.positions[sig.symbol]) && l' == l
            else if sig.allocatedCapitalUSD > l.cash then reply.Refused? && l' == l.(orderCounter := l.orderCounter + 1)
            else
              && reply.Opened?
              && var t := reply.trade;
                 && t.positionSize * sig.entryPrice == sig.allocatedCapitalUSD * AtLeastOne(sig.leverage) as real
                 && t.entryPrice == sig.entryPrice && t.executionFee == 0.0 && t.leverage == AtLeastOne(sig.leverage)
                 && t.stopLoss == sig.stopLoss && t.takeProfit == sig.takeProfit1 && t.symbol == sig.symbol
                 && (t.side == Sell <==> sig.direction == Short) && t.status.Open? && t.id == l.orderCounter + 1
                 && l' == l.(cash := l.cash - sig.allocatedCapitalUSD, orderCounter := l.orderCounter + 1,
                             positions := l.positions[sig.symbol := t])
  {
    if sig.entryPrice > 0.0 {
      DivMulCancel(sig.allocatedCapitalUSD * AtLeastOne(sig.leverage) as real, sig.entryPrice);
    }
    hide LiquidationOrZero;
  }

  /** Liquidation lies 100 over the leverage, less half a percent, away; past a leverage of 125 there is none. */
  lemma LiquidationOf(entry: real, leverage: int, dir: Direction, distance: real)
    requires entry > 0.0 && leverage >= 1 && distance == 100.0 / leverage as real - 0.5
    ensures leverage > 125 ==> LiquidationOrZero(entry, leverage, dir) == 0.0
    ensures leverage <= 125 ==> -100.0 * Gain(entry, LiquidationOrZero(entry, leverage, dir), dir) == entry * distance
  {
    if leverage <= 125 {
      LiquidationIsAStop(entry, leverage, dir);
      StopDistanceTimes(entry, distance, dir);
    }
    hide LiquidationLevel, StopAt, Gain;
  }

  lemma StopDistanceTimes(entry: real, pct: real, dir: Direction)
    ensures -100.0 * Gain(entry, StopAt(entry, pct, dir), dir) == entry * pct
  {
  }

  /** The liquidation price and the slippage an order is opened with; a signal pays no slippage. */
  lemma OrderRecords(l: Ledger, req: OrderRequest)
    requires req.price > 0.0
    ensures var t := OrderTrade(l, req);
            && t.liquidationPrice == LiquidationOrZero(t.entryPrice, t.leverage, if Sells(req) then Short else Long)
            && t.slippagePaid == Impact(l.friction, req.price, req.positionSize / DepthOf(req))
  {
    SideIs(req);
    QuoteOfOrder(l.friction, req);
    QuotedSlippage(l.friction, req, req.positionSize / DepthOf(req));
    hide LiquidationOrZero, OrderQuote, CalculateExecution, OrderSide, Sells, Impact, DepthOf;
  }

  lemma QuotedSlippage(f: FrictionModel, req: OrderRequest, share: real)
    requires req.price > 0.0 && share == req.positionSize / DepthOf(req)
    ensures CalculateExecution(f, OrderSide(req.side), req.positionSize, req.price, req.symbolSpreadPct,
                               req.availableDepthQty, req.isTaker).slippage == Impact(f, req.price, share)
  {
    SlippageInDepth(f, req.positionSize, req.price, req.availableDepthQty, DepthOf(req), share);
    hide Slippage, EffectivePrice, FrictionModel.CapPct, Min, OrderSide, SpreadOrDefault;
  }

  lemma SignalRecords(l: Ledger, sig: SignalOrder)
    requires sig.entryPrice > 0.0
    ensures var t := SignalTrade(l, sig);
            t.liquidationPrice == LiquidationOrZero(sig.entryPrice, t.leverage, sig.direction) && t.slippagePaid == 0.0
  {
    hide LiquidationOrZero;
  }

  // --------------------------------------------------- when fees are charged once

  /** No order of any size is taken. */
  ghost predicate OrdersNothing(l: Ledger, ops: seq<Op>)
    decreases |ops|
  {
    ops != [] ==>
      && (ops[0].ExecuteOrder? && Step(l, ops[0]).1.Opened? ==> ops[0].req.positionSize == 0.0)
      && OrdersNothing(Step(l, ops[0]).0, ops[1..])
  }

  lemma FeeOfSize(l: Ledger, op: Op)
    requires PricedOp(op) && l.friction == DefaultFrictionModel()
    ensures EntryFee(l, op) >= 0.0
    ensures EntryFee(l, op) == 0.0 <==>
            (op.ExecuteOrder? && Step(l, op).1.Opened? ==> op.req.positionSize == 0.0)
  {
    if op.ExecuteOrder? {
      var req := op.req;
      DefaultRates();
      SaneOrder(op);
      OrderIs(l, req);
      OrderFill(l.friction, req);
      QuoteOfOrder(l.friction, req);
      ExecutionIsAdverse(l.friction, OrderSide(req.side), req.positionSize, req.price, req.symbolSpreadPct,
                         req.availableDepthQty, req.isTaker);
      FeeSign(EntryFill(l.friction, req), req.positionSize,
              if req.isTaker then l.friction.takerFeeRate else l.friction.makerFeeRate);
      FillIs(l.friction, req, EntryDrop(l.friction, req));
      hide Step, OrderTrade, OrderQuote, EntryFill, EntryDrop, EntryFeeOf, CalculateExecution, DefaultFrictionModel,
        OrderSide, PricedOp;
    }
  }

  lemma DefaultRates()
    ensures var f := DefaultFrictionModel(); f.Valid() && f.takerFeeRate > 0.0 && f.makerFeeRate > 0.0
  {
  }

  lemma SaneOrder(op: Op)
    requires PricedOp(op) && op.ExecuteOrder?
    ensures op.req.price > 0.0 && op.req.positionSize >= 0.0
  {
  }

  lemma FeeSign(fill: real, size: real, rate: real)
    requires fill > 0.0 && size >= 0.0 && rate > 0.0
    ensures fill * size * rate >= 0.0
    ensures fill * size * rate == 0.0 <==> size == 0.0
  {
    if size > 0.0 {
      assert fill * size > 0.0;
      assert fill * size * rate > 0.0;
    }
  }

  lemma {:induction false} NoFeesIff(l: Ledger, ops: seq<Op>)
    requires l.friction == DefaultFrictionModel() && forall op | op in ops :: PricedOp(op)
    ensures EntryFees(l, ops) >= 0.0
    ensures EntryFees(l, ops) == 0.0 <==> OrdersNothing(l, ops)
    decreases |ops|
  {
    if ops != [] {
      assert PricedOp(ops[0]);
      FeeOfSize(l, ops[0]);
      StepKeepsFriction(l, ops[0]);
      hide Step, EntryFee, DefaultFrictionModel, PricedOp;
      NoFeesIff(Step(l, ops[0]).0, ops[1..]);
    }
  }

  /** So every fee is charged once exactly when no order of any size was taken. */
  lemma ChargedOnceIff(capital: real, ops: seq<Op>)
    requires forall op | op in ops :: PricedOp(op)
    requires NothingReplaced(NewLedger(capital), ops)
    requires var l := Run(NewLedger(capital), ops); l.positions == map[] && WrittenOff(l.closedTrades) == 0.0
    ensures var start := NewLedger(capital); var l := Run(start, ops);
            l.cash == capital + Moves(l.closedTrades) - ExitFees(l.closedTrades, 0.0005) - EntryFees(start, ops)
            <==> OrdersNothing(start, ops)
  {
    CashWhenAllClosed(capital, ops);
    NoFeesIff(NewLedger(capital), ops);
    hide Run, EntryFees, OrdersNothing, NothingReplaced, Moves, ExitFees, WrittenOff, PricedOp;
  }
}
