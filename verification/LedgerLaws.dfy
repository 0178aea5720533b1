/** Conservation and valuation laws of the paper ledger. */
module LedgerLaws {
  import opened Common
  import opened Friction
  import opened FuturesMath
  import opened MapSums
  import opened Ledger

  // ------------------------------------------------- conservation over runs

  ghost function Margins(positions: map<string, TradeRow>): map<string, real> {
    map s | s in positions :: positions[s].Margin()
  }

  ghost function LockedMargin(l: Ledger): real {
    MapSum(Margins(l.positions))
  }

  /** What closed trades gave back beyond their own margin: a loss is capped at the margin. */
  ghost function ClosedResult(closed: seq<TradeRow>): real {
    if closed == [] then 0.0
    else ClosedResult(closed[..|closed| - 1]) + Max(closed[|closed| - 1].realizedPnL, -closed[|closed| - 1].Margin())
  }

  /** Entry fee charged by one step. */
  ghost function EntryFee(l: Ledger, op: Op): real {
    if op.ExecuteOrder? && Step(l, op).1.Opened? then Step(l, op).1.trade.executionFee else 0.0
  }

  /** Margin that vanishes because an order replaces a position that is still open. */
  ghost function Overwritten(l: Ledger, op: Op): real {
    if op.ExecuteOrder? && Step(l, op).1.Opened? && op.req.symbol in l.positions
    then l.positions[op.req.symbol].Margin() else 0.0
  }

  ghost function EntryFees(l: Ledger, ops: seq<Op>): real
    decreases |ops|
  {
    if ops == [] then 0.0 else EntryFee(l, ops[0]) + EntryFees(Step(l, ops[0]).0, ops[1..])
  }

  ghost function LostMargin(l: Ledger, ops: seq<Op>): real
    decreases |ops|
  {
    if ops == [] then 0.0 else Overwritten(l, ops[0]) + LostMargin(Step(l, ops[0]).0, ops[1..])
  }

  /** Money the book can account for: free cash, locked margin, and what closed trades took. */
  ghost function Books(l: Ledger): real {
    l.cash + LockedMargin(l) - ClosedResult(l.closedTrades)
  }

  lemma InsertPosition(positions: map<string, TradeRow>, s: string, t: TradeRow)
    ensures MapSum(Margins(positions[s := t])) ==
            MapSum(Margins(positions)) + t.Margin() - (if s in positions then positions[s].Margin() else 0.0)
  {
    assert Margins(positions[s := t]) == Margins(positions)[s := t.Margin()];
    MapSumInsert(Margins(positions), s, t.Margin());
  }

  /** The margin read back from a signal's position is exactly the capital allocated to it. */
  lemma SignalMargin(l: Ledger, sig: SignalOrder)
    requires sig.entryPrice > 0.0
    ensures SignalTrade(l, sig).Margin() == sig.allocatedCapitalUSD
  {
    var t := SignalTrade(l, sig);
    var lev := t.EffLev() as real;
    assert t.positionSize * sig.entryPrice == sig.allocatedCapitalUSD * lev;
    assert (sig.allocatedCapitalUSD * lev) / lev == sig.allocatedCapitalUSD;
  }

  lemma SettledKeepsTerms(f: FrictionModel, t: TradeRow, price: real, reason: string)
    ensures var c := Settled(f, t, price, reason);
            && c.id == t.id && c.symbol == t.symbol && c.side == t.side && c.leverage == t.leverage
            && c.positionSize == t.positionSize && c.entryPrice == t.entryPrice && c.status.Closed?
            && c.Margin() == t.Margin()
  {
    SameTermsSameMargin(t, Settled(f, t, price, reason));
  }

  lemma SameTermsSameMargin(t: TradeRow, c: TradeRow)
    requires c.leverage == t.leverage && c.positionSize == t.positionSize && c.entryPrice == t.entryPrice
    ensures c.Margin() == t.Margin()
  {
  }

  /** Taking a settled trade off the book, whatever its result was. */
  lemma RemoveKeepsBooks(l: Ledger, symbol: string, t: TradeRow, l': Ledger)
    requires symbol in l.positions
    requires t.Margin() == l.positions[symbol].Margin()
    requires l'.cash == l.cash + Proceeds(t)
    requires l'.positions == l.positions - {symbol} && l'.closedTrades == l.closedTrades + [t]
    ensures Books(l') == Books(l)
  {
    assert Margins(l'.positions) == Margins(l.positions) - {symbol};
    MapSumRemove(Margins(l.positions), symbol);
    assert l'.closedTrades[..|l'.closedTrades| - 1] == l.closedTrades;
  }

  lemma CloseKeepsBooks(l: Ledger, symbol: string, price: real, reason: string)
    requires symbol in l.positions
    ensures Books(Close(l, symbol, price, reason)) == Books(l)
  {
    var t := Settled(l.friction, l.positions[symbol], price, reason);
    SettledKeepsTerms(l.friction, l.positions[symbol], price, reason);
    RemoveKeepsBooks(l, symbol, t, Close(l, symbol, price, reason));
  }

  lemma StepBooks(l: Ledger, op: Op)
    ensures Books(Step(l, op).0) == Books(l) - EntryFee(l, op) - Overwritten(l, op)
  {
    match op
    case ExecuteOrder(req) =>
      InsertPosition(l.positions, req.symbol, OrderTrade(l, req));
    case OpenFromSignal(sig) =>
      if sig.entryPrice > 0.0 {
        SignalMargin(l, sig);
        InsertPosition(l.positions, sig.symbol, SignalTrade(l, sig));
      }
    case CheckExit(symbol, price) =>
      if Step(l, op).1.Exited? {
        CloseKeepsBooks(l, symbol, price, ExitTrigger(l.positions[symbol], price).value);
      }
    case ForceClose(symbol, price, reason) =>
      if Step(l, op).1.Exited? {
        CloseKeepsBooks(l, symbol, ForcedPrice(l.positions[symbol], price), ForcedReason(reason));
      }
  }

  lemma {:induction false} RunBooks(l: Ledger, ops: seq<Op>)
    ensures Books(Run(l, ops)) + EntryFees(l, ops) + LostMargin(l, ops) == Books(l)
    decreases |ops|
  {
    if ops != [] {
      StepBooks(l, ops[0]);
      RunBooks(Step(l, ops[0]).0, ops[1..]);
    }
  }

  /** The conservation law: every dollar of the starting capital is accounted for after any run. */
  ghost predicate Conserved(capital: real, ops: seq<Op>) {
    var l := Run(NewLedger(capital), ops);
    l.cash + LockedMargin(l) + EntryFees(NewLedger(capital), ops) == capital + ClosedResult(l.closedTrades)
  }

  /**
   * For every run of opens, level exits and forced closes, on any inputs: money is conserved
   * up to the margin of positions that an order replaced while they were open, so the plain
   * law holds exactly when that margin is zero.
   */
  lemma Conservation(capital: real, ops: seq<Op>)
    ensures var l := Run(NewLedger(capital), ops);
            l.cash + LockedMargin(l) + EntryFees(NewLedger(capital), ops) + LostMargin(NewLedger(capital), ops)
            == capital + ClosedResult(l.closedTrades)
    ensures Conserved(capital, ops) <==> LostMargin(NewLedger(capital), ops) == 0.0
  {
    RunBooks(NewLedger(capital), ops);
  }

  /** Orders go only to symbols without an open position: what a caller can check beforehand. */
  ghost predicate SymbolsFree(l: Ledger, ops: seq<Op>)
    decreases |ops|
  {
    ops == [] ||
    ((ops[0].ExecuteOrder? ==> ops[0].req.symbol !in l.positions) && SymbolsFree(Step(l, ops[0]).0, ops[1..]))
  }

  lemma {:induction false} FreeSymbolsLoseNothing(l: Ledger, ops: seq<Op>)
    requires SymbolsFree(l, ops)
    ensures LostMargin(l, ops) == 0.0
    decreases |ops|
  {
    if ops != [] {
      FreeSymbolsLoseNothing(Step(l, ops[0]).0, ops[1..]);
    }
  }

  lemma ConservationOnFreeSymbols(capital: real, ops: seq<Op>)
    requires SymbolsFree(NewLedger(capital), ops)
    ensures Conserved(capital, ops)
  {
    FreeSymbolsLoseNothing(NewLedger(capital), ops);
    Conservation(capital, ops);
  }

  /** The order finds its symbol held by a position of some size, and the cash covers it (engine.go:107 and 132). */
  ghost predicate Replaces(l: Ledger, op: Op) {
    && op.ExecuteOrder? && op.req.symbol in l.positions && l.positions[op.req.symbol].positionSize > 0.0
    && OrderTrade(l, op.req).Margin() + OrderTrade(l, op.req).executionFee <= l.cash
  }

  ghost predicate NothingReplaced(l: Ledger, ops: seq<Op>)
    decreases |ops|
  {
    ops == [] || (!Replaces(l, ops[0]) && NothingReplaced(Step(l, ops[0]).0, ops[1..]))
  }

  lemma SaneMargin(t: TradeRow)
    requires t.Sane()
    ensures t.Margin() >= 0.0 && (t.Margin() > 0.0 <==> t.positionSize > 0.0)
  {
    var lev := t.EffLev() as real;
    MulMonotone(0.0, t.positionSize, t.entryPrice);
    if t.positionSize > 0.0 {
      QuotientPositive(t.positionSize * t.entryPrice, lev);
    } else {
      assert t.positionSize * t.entryPrice == 0.0;
    }
  }

  /** What one step overwrites is never negative, and positive exactly when it replaces a position. */
  lemma OverwrittenIff(l: Ledger, op: Op)
    requires AllSane(l)
    ensures Overwritten(l, op) >= 0.0 && (Overwritten(l, op) > 0.0 <==> Replaces(l, op))
  {
    if op.ExecuteOrder? && op.req.symbol in l.positions {
      SaneMargin(l.positions[op.req.symbol]);
    }
    hide OrderTrade;
  }

  lemma {:induction false} LostMarginIff(l: Ledger, ops: seq<Op>)
    requires AllSane(l) && forall op | op in ops :: SaneOp(op)
    ensures LostMargin(l, ops) >= 0.0 && (LostMargin(l, ops) == 0.0 <==> NothingReplaced(l, ops))
    decreases |ops|
  {
    if ops != [] {
      assert SaneOp(ops[0]);
      OverwrittenIff(l, ops[0]);
      StepKeepsSane(l, ops[0]);
      hide Overwritten, Replaces, Step;
      LostMarginIff(Step(l, ops[0]).0, ops[1..]);
    }
  }

  /**
   * For every run of sane inputs the plain law holds exactly when no accepted order found its symbol
   * held: the condition is the engine's own guard, read before each order.
   */
  lemma ConservationIff(capital: real, ops: seq<Op>)
    requires forall op | op in ops :: SaneOp(op)
    ensures Conserved(capital, ops) <==> NothingReplaced(NewLedger(capital), ops)
  {
    Conservation(capital, ops);
    LostMarginIff(NewLedger(capital), ops);
  }

  /** A second order on a held symbol makes its margin disappear: the law fails on this run. */
  lemma OverwriteLosesMargin()
    ensures var req := OrderRequest("A", "BUY", 100.0, 1.0, 0.0, 0.0, 1, 0.0, 0.0, true);
            !Conserved(1000.0, [ExecuteOrder(req), ExecuteOrder(req)])
  {
    var req := OrderRequest("A", "BUY", 100.0, 1.0, 0.0, 0.0, 1, 0.0, 0.0, true);
    var ops := [ExecuteOrder(req), ExecuteOrder(req)];
    var l0 := NewLedger(1000.0);
    var l1 := Step(l0, ops[0]).0;
    var q := OrderQuote(l0.friction, req);
    assert q.effectivePrice == 100.0105;
    assert q.totalFee == 0.05000525;
    assert "A" in l1.positions && l1.positions["A"].Margin() == 100.0105;
    assert Overwritten(l1, ops[1]) == 100.0105;
    assert ops[1..] == [ops[1]] && ops[1..][1..] == [];
    assert LostMargin(Step(l1, ops[1]).0, []) == 0.0;
    assert LostMargin(l1, ops[1..]) == 100.0105;
    assert Overwritten(l0, ops[0]) == 0.0;
    assert LostMargin(l0, ops) == 100.0105;
    Conservation(1000.0, ops);
  }

  // -------------------------------------------------- invariants over runs

  /** Cash is never overdrawn, on any inputs at all. */
  lemma {:induction false} CashNeverNegative(l: Ledger, ops: seq<Op>)
    requires l.cash >= 0.0
    ensures Run(l, ops).cash >= 0.0
    decreases |ops|
  {
    if ops != [] {
      CashNeverNegative(Step(l, ops[0]).0, ops[1..]);
    }
  }

  /** Every open position is filed under its own symbol, is open, and no trade id is used twice. */
  ghost predicate WellKept(l: Ledger) {
    && l.friction.Valid()
    && (forall s | s in l.positions ::
          l.positions[s].symbol == s && l.positions[s].status.Open? && l.positions[s].leverage >= 1
          && l.positions[s].id <= l.orderCounter)
    && (forall s, t | s in l.positions && t in l.positions && s != t :: l.positions[s].id != l.positions[t].id)
    && (forall i | 0 <= i < |l.closedTrades| ::
          l.closedTrades[i].status.Closed? && l.closedTrades[i].id <= l.orderCounter)
    && (forall i, s | 0 <= i < |l.closedTrades| && s in l.positions :: l.closedTrades[i].id != l.positions[s].id)
    && (forall i, j | 0 <= i < j < |l.closedTrades| :: l.closedTrades[i].id != l.closedTrades[j].id)
  }

  lemma OpeningWellKept(l: Ledger, s: string, t: TradeRow, l': Ledger)
    requires WellKept(l)
    requires t.symbol == s && t.status.Open? && t.leverage >= 1 && t.id == l.orderCounter + 1
    requires l'.positions == l.positions[s := t] && l'.orderCounter == l.orderCounter + 1
    requires l'.closedTrades == l.closedTrades && l'.friction == l.friction
    ensures WellKept(l')
  {
  }

  lemma ClosingWellKept(l: Ledger, symbol: string, price: real, reason: string)
    requires WellKept(l) && symbol in l.positions
    ensures WellKept(Close(l, symbol, price, reason))
    ensures l.closedTrades <= Close(l, symbol, price, reason).closedTrades
  {
    SettledKeepsTerms(l.friction, l.positions[symbol], price, reason);
    var t := Settled(l.friction, l.positions[symbol], price, reason);
    RemovalWellKept(l, symbol, t, Close(l, symbol, price, reason));
  }

  lemma RemovalWellKept(l: Ledger, symbol: string, t: TradeRow, l': Ledger)
    requires WellKept(l) && symbol in l.positions
    requires t.id == l.positions[symbol].id && t.status.Closed?
    requires l'.positions == l.positions - {symbol} && l'.closedTrades == l.closedTrades + [t]
    requires l'.orderCounter == l.orderCounter && l'.friction == l.friction
    ensures WellKept(l') && l.closedTrades <= l'.closedTrades
  {
  }

  lemma StepWellKept(l: Ledger, op: Op)
    requires WellKept(l)
    ensures WellKept(Step(l, op).0)
    ensures l.closedTrades <= Step(l, op).0.closedTrades
  {
    match op
    case ExecuteOrder(req) =>
      if Step(l, op).1.Opened? { OpeningWellKept(l, req.symbol, OrderTrade(l, req), Step(l, op).0); }
    case OpenFromSignal(sig) =>
      if Step(l, op).1.Opened? { OpeningWellKept(l, sig.symbol, SignalTrade(l, sig), Step(l, op).0); }
    case CheckExit(symbol, price) =>
      if Step(l, op).1.Exited? { ClosingWellKept(l, symbol, price, ExitTrigger(l.positions[symbol], price).value); }
    case ForceClose(symbol, price, reason) =>
      if Step(l, op).1.Exited? {
        ClosingWellKept(l, symbol, ForcedPrice(l.positions[symbol], price), ForcedReason(reason));
      }
  }

  /** Over any run the book stays well kept and closed trades are never rewritten. */
  lemma {:induction false} RunWellKept(l: Ledger, ops: seq<Op>)
    requires WellKept(l)
    ensures WellKept(Run(l, ops))
    ensures l.closedTrades <= Run(l, ops).closedTrades
    decreases |ops|
  {
    if ops != [] {
      StepWellKept(l, ops[0]);
      RunWellKept(Step(l, ops[0]).0, ops[1..]);
    }
  }

  // ------------------------------------------------------- marked equity

  ghost function Marks(positions: map<string, TradeRow>, prices: map<string, real>): map<string, real> {
    map s | s in positions :: positions[s].Mark(if s in prices then prices[s] else positions[s].entryPrice)
  }

  /** Cash plus every position marked at the given price, or at entry when none is given. */
  ghost function MarkedEquity(l: Ledger, prices: map<string, real>): real {
    l.cash + MapSum(Marks(l.positions, prices))
  }

  /** Opening from a signal only moves cash into margin: equity at entry does not change. */
  lemma OpenKeepsEquity(l: Ledger, sig: SignalOrder, prices: map<string, real>)
    requires Step(l, OpenFromSignal(sig)).1.Opened?
    ensures MarkedEquity(Step(l, OpenFromSignal(sig)).0, prices[sig.symbol := sig.entryPrice])
            == MarkedEquity(l, prices)
  {
    var l' := Step(l, OpenFromSignal(sig)).0;
    var t := SignalTrade(l, sig);
    SignalMargin(l, sig);
    assert t.Mark(sig.entryPrice) == sig.allocatedCapitalUSD;
    assert Marks(l'.positions, prices[sig.symbol := sig.entryPrice])
        == Marks(l.positions, prices)[sig.symbol := sig.allocatedCapitalUSD];
    MapSumInsert(Marks(l.positions, prices), sig.symbol, sig.allocatedCapitalUSD);
  }

  /** The signed price move of a position, per unit. */
  function Move(t: TradeRow, price: real): real {
    if t.side.Buy? then price - t.entryPrice else t.entryPrice - price
  }

  lemma AdverseFillBelowMark(t: TradeRow, c: TradeRow, price: real)
    requires t.Sane() && c.executionFee >= 0.0 && c.exitPrice != 0.0
    requires c.side == t.side && c.leverage == t.leverage
    requires c.positionSize == t.positionSize && c.entryPrice == t.entryPrice
    requires if t.side.Buy? then c.exitPrice <= price else c.exitPrice >= price
    ensures c.Margin() + c.CalculatePnL().0 <= t.Mark(price)
  {
    MulMonotone(Move(t, c.exitPrice), Move(t, price), t.positionSize);
    SameTermsSameMargin(t, c);
    assert c.CalculatePnL().0 == c.Unrealized(c.exitPrice) - c.executionFee;
    assert c.Unrealized(c.exitPrice) == Move(t, c.exitPrice) * t.positionSize;
    assert t.Unrealized(price) == Move(t, price) * t.positionSize;
  }

  lemma SettledResult(f: FrictionModel, t: TradeRow, price: real, reason: string)
    ensures var c := Settled(f, t, price, reason); var q := ExitQuote(f, t, price);
            && c.exitPrice == q.effectivePrice
            && c.executionFee == t.executionFee + q.totalFee
            && c.realizedPnL == c.CalculatePnL().0
  {
    var c, q := Settled(f, t, price, reason), ExitQuote(f, t, price);
    PnLReads(t.(exitPrice := q.effectivePrice, exitReason := reason, status := Closed,
                executionFee := t.executionFee + q.totalFee, slippagePaid := t.slippagePaid + q.slippage),
             c.realizedPnL, c.returnPct);
    hide ExitQuote;
  }

  /** A trade's result does not depend on the result already recorded. */
  lemma PnLReads(t: TradeRow, pnl: real, ret: Option<real>)
    ensures t.(realizedPnL := pnl, returnPct := ret).CalculatePnL() == t.CalculatePnL()
  {
    var u := t.(realizedPnL := pnl, returnPct := ret);
    assert u.Unrealized(t.exitPrice) == t.Unrealized(t.exitPrice) && u.Margin() == t.Margin();
    hide TradeRow.Unrealized, TradeRow.Margin;
  }

  /** A sane position settles for no more than its mark at the trigger price. */
  lemma SettlesBelowMark(f: FrictionModel, t: TradeRow, price: real, reason: string)
    requires f.Valid() && t.Sane() && price > 0.0
    ensures Settled(f, t, price, reason).Margin() + Settled(f, t, price, reason).realizedPnL <= t.Mark(price)
  {
    ExecutionIsAdverse(f, if t.side.Sell? then Buy else Sell, t.positionSize, price, 0.0002, 100.0, true);
    SettledKeepsTerms(f, t, price, reason);
    SettledResult(f, t, price, reason);
    AdverseFillBelowMark(t, Settled(f, t, price, reason), price);
  }

  /**
   * Closing a position at a positive price raises the marked equity exactly when the position
   * was worth less than nothing there, and then by exactly the debt that is written off.
   */
  lemma CloseRaisesEquityIffUnderwater(l: Ledger, symbol: string, price: real, reason: string,
                                       prices: map<string, real>)
    requires symbol in l.positions && l.positions[symbol].Sane() && l.friction.Valid() && price > 0.0
    ensures var before := MarkedEquity(l, prices[symbol := price]);
            var after := MarkedEquity(Close(l, symbol, price, reason), prices);
            var mark := l.positions[symbol].Mark(price);
            && (after > before <==> mark < 0.0)
            && (mark < 0.0 ==> after == before - mark)
  {
    var t := l.positions[symbol];
    SettlesBelowMark(l.friction, t, price, reason);
    var l' := Close(l, symbol, price, reason);
    var marks := Marks(l.positions, prices[symbol := price]);
    assert Marks(l'.positions, prices) == marks - {symbol};
    MapSumRemove(marks, symbol);
  }

  /**
   * A forced close without a price - a news exit never passes one - settles at the entry price, so it
   * can only realize a loss, whatever the market has done since.
   */
  lemma PricelessCloseNeverGains(l: Ledger, symbol: string, price: real, reason: string)
    requires symbol in l.positions && l.positions[symbol].status.Open? && l.positions[symbol].Sane()
             && l.friction.Valid()
    requires price <= 0.0
    ensures var (l', reply) := Step(l, ForceClose(symbol, price, reason));
            reply.Exited? && reply.trade.realizedPnL <= 0.0
            && l' == Step(l, ForceClose(symbol, l.positions[symbol].entryPrice, reason)).0
  {
    var t := l.positions[symbol];
    SettlesBelowMark(l.friction, t, t.entryPrice, ForcedReason(reason));
    SettledKeepsTerms(l.friction, t, t.entryPrice, ForcedReason(reason));
    hide Settled;
    assert t.Unrealized(t.entryPrice) == 0.0;
  }

  /** Inputs the order entry points receive from the repository's own callers. */
  predicate SaneOp(op: Op) {
    match op
    case ExecuteOrder(req) => req.price > 0.0 && req.positionSize >= 0.0
    case OpenFromSignal(sig) => sig.allocatedCapitalUSD >= 0.0
    case CheckExit(_, _) => true
    case ForceClose(_, _, _) => true
  }

  ghost predicate AllSane(l: Ledger) {
    l.friction.Valid() && forall s | s in l.positions :: l.positions[s].Sane()
  }

  lemma StepKeepsSane(l: Ledger, op: Op)
    requires AllSane(l) && SaneOp(op)
    ensures AllSane(Step(l, op).0)
  {
    if op.ExecuteOrder? {
      var req := op.req;
      ExecutionIsAdverse(l.friction, OrderSide(req.side), req.positionSize, req.price,
                         req.symbolSpreadPct, req.availableDepthQty, req.isTaker);
    } else if op.OpenFromSignal? && op.sig.entryPrice > 0.0 {
      assert op.sig.allocatedCapitalUSD * AtLeastOne(op.sig.leverage) as real >= 0.0;
      assert SignalTrade(l, op.sig).positionSize >= 0.0;
    }
  }

  lemma {:induction false} RunKeepsSane(l: Ledger, ops: seq<Op>)
    requires AllSane(l) && forall op | op in ops :: SaneOp(op)
    ensures AllSane(Run(l, ops))
    decreases |ops|
  {
    if ops != [] {
      assert SaneOp(ops[0]);
      StepKeepsSane(l, ops[0]);
      RunKeepsSane(Step(l, ops[0]).0, ops[1..]);
    }
  }

  /**
   * After any sane run, a level exit or forced close at a positive price never lifts equity,
   * unless it wipes out a position whose mark had gone negative.
   */
  lemma ExitsNeverLiftEquity(capital: real, ops: seq<Op>, exit: Op, prices: map<string, real>)
    requires forall op | op in ops :: SaneOp(op)
    requires (exit.CheckExit? || exit.ForceClose?) && exit.price > 0.0
    ensures var l := Run(NewLedger(capital), ops);
            var (l', reply) := Step(l, exit);
            reply.Exited? ==>
              && exit.symbol in l.positions
              && (l.positions[exit.symbol].Mark(exit.price) >= 0.0 ==>
                    MarkedEquity(l', prices) <= MarkedEquity(l, prices[exit.symbol := exit.price]))
  {
    RunKeepsSane(NewLedger(capital), ops);
    var l := Run(NewLedger(capital), ops);
    if Step(l, exit).1.Exited? {
      var reason := if exit.CheckExit? then ExitTrigger(l.positions[exit.symbol], exit.price).value
                    else ForcedReason(exit.reason);
      CloseRaisesEquityIffUnderwater(l, exit.symbol, exit.price, reason, prices);
    }
  }
}
