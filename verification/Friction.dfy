/** Execution friction: spread, capped quadratic impact and fees. */
module Friction {
  import opened Common

  datatype Side = Buy | Sell

  datatype FrictionModel = FrictionModel(
    makerFeeRate: real,
    takerFeeRate: real,
    impactFactor: real,
    maxSlippagePct: real)
  {
    /** Rates the configuration accepts: fees and impact are never negative. */
    predicate Valid() {
      makerFeeRate >= 0.0 && takerFeeRate >= 0.0 && impactFactor >= 0.0
    }

    /** The slippage cap in force; a missing cap means five percent. */
    function CapPct(): (r: real)
      ensures r > 0.0
    {
      if maxSlippagePct <= 0.0 then 0.05 else maxSlippagePct
    }
  }

  function NewFrictionModel(makerFee: real, takerFee: real, impactFactor: real,
                            maxSlippagePct: real): (f: FrictionModel)
    ensures f.Valid() && f.takerFeeRate > 0.0 && f.maxSlippagePct > 0.0
  {
    FrictionModel(
      if makerFee <= 0.0 then 0.0002 else makerFee,
      if takerFee <= 0.0 then 0.0005 else takerFee,
      if impactFactor <= 0.0 then 0.05 else impactFactor,
      if maxSlippagePct <= 0.0 then 0.05 else maxSlippagePct)
  }

  function DefaultFrictionModel(): FrictionModel {
    NewFrictionModel(0.0002, 0.0005, 0.05, 0.05)
  }

  datatype ExecutionQuote = ExecutionQuote(
    basePrice: real,
    effectivePrice: real,
    halfSpread: real,
    slippage: real,
    feeRate: real,
    totalFee: real,
    totalGrossCost: real,
    totalNetCost: real)

  function SpreadOrDefault(symbolSpreadPct: real): (r: real)
    ensures r > 0.0
  {
    if symbolSpreadPct <= 0.0 then 0.0002 else symbolSpreadPct
  }

  function Slippage(f: FrictionModel, quantity: real, midPrice: real, availableDepthQty: real): real {
    var depth := if availableDepthQty <= 0.0 then 100.0 else availableDepthQty;
    var liquidityRatio := quantity / depth;
    Min(midPrice * f.impactFactor * (liquidityRatio * liquidityRatio), midPrice * f.CapPct())
  }

  function EffectivePrice(side: Side, midPrice: real, halfSpread: real, slippage: real): real {
    match side
    case Buy => midPrice + halfSpread + slippage
    case Sell =>
      var p := midPrice - halfSpread - slippage;
      if p <= 0.0 then midPrice * 0.01 else p
  }

  function CalculateExecution(f: FrictionModel, side: Side, quantity: real, midPrice: real,
                              symbolSpreadPct: real, availableDepthQty: real, isTaker: bool): ExecutionQuote
  {
    var halfSpread := midPrice * (SpreadOrDefault(symbolSpreadPct) / 2.0);
    var slippage := Slippage(f, quantity, midPrice, availableDepthQty);
    var effectivePrice := EffectivePrice(side, midPrice, halfSpread, slippage);
    var feeRate := if isTaker then f.takerFeeRate else f.makerFeeRate;
    var grossValue := quantity * effectivePrice;
    var feeAmount := grossValue * feeRate;
    ExecutionQuote(midPrice, effectivePrice, halfSpread, slippage, feeRate, feeAmount, grossValue,
                   if side.Buy? then grossValue + feeAmount else grossValue - feeAmount)
  }

  lemma SlippageIsCapped(f: FrictionModel, quantity: real, midPrice: real, depth: real)
    requires f.Valid() && midPrice >= 0.0
    ensures 0.0 <= Slippage(f, quantity, midPrice, depth) <= midPrice * f.CapPct()
  {
    var d := if depth <= 0.0 then 100.0 else depth;
    var ratio := quantity / d;
    assert ratio * ratio >= 0.0;
    assert midPrice * f.impactFactor >= 0.0;
    assert midPrice * f.impactFactor * (ratio * ratio) >= 0.0;
    assert midPrice * f.CapPct() >= 0.0;
  }

  /**
   * Friction only ever hurts: a buy fills above the mid price and a sell below it, the
   * fill stays within half the spread plus the slippage cap, and a sell is never free.
   */
  lemma ExecutionIsAdverse(f: FrictionModel, side: Side, quantity: real, midPrice: real, spread: real, depth: real,
                           isTaker: bool)
    requires f.Valid() && midPrice > 0.0 && quantity >= 0.0
    ensures var q := CalculateExecution(f, side, quantity, midPrice, spread, depth, isTaker);
            && q.effectivePrice > 0.0
            && q.totalFee >= 0.0
            && (side.Buy? ==>
                  midPrice < q.effectivePrice <= midPrice * (1.0 + SpreadOrDefault(spread) / 2.0 + f.CapPct()))
            && (side.Sell? ==> q.effectivePrice < midPrice)
            && (side.Sell? ==> q.effectivePrice >= midPrice * (1.0 - SpreadOrDefault(spread) / 2.0 - f.CapPct()))
  {
    SlippageIsCapped(f, quantity, midPrice, depth);
    var half := SpreadOrDefault(spread) / 2.0;
    assert midPrice * half > 0.0;
    assert midPrice * (1.0 + half + f.CapPct()) == midPrice + midPrice * half + midPrice * f.CapPct();
    assert midPrice * (1.0 - half - f.CapPct()) == midPrice - midPrice * half - midPrice * f.CapPct();
    var q := CalculateExecution(f, side, quantity, midPrice, spread, depth, isTaker);
    assert q.effectivePrice > 0.0;
    assert quantity * q.effectivePrice >= 0.0;
  }

  /** Below the cap impact is quadratic: scaling the order scales the slippage by the square. */
  lemma ImpactIsQuadratic(f: FrictionModel, quantity: real, midPrice: real, depth: real, k: real)
    requires Slippage(f, quantity, midPrice, depth) < midPrice * f.CapPct()
    requires Slippage(f, k * quantity, midPrice, depth) < midPrice * f.CapPct()
    ensures Slippage(f, k * quantity, midPrice, depth) == k * k * Slippage(f, quantity, midPrice, depth)
  {
    var d := if depth <= 0.0 then 100.0 else depth;
    var r := quantity / d;
    assert k * quantity / d == k * r;
    ScaledSquare(midPrice * f.impactFactor, k, r);
  }

  lemma ScaledSquare(a: real, k: real, r: real)
    ensures a * ((k * r) * (k * r)) == k * k * (a * (r * r))
  {
    assert (k * r) * (k * r) == (k * k) * (r * r);
  }

  /** Buying and selling back at one price loses both fees and the whole distance between the two fills. */
  lemma RoundTripLoses(f: FrictionModel, quantity: real, midPrice: real, spread: real, depth: real, isTaker: bool,
                       buy: ExecutionQuote, sell: ExecutionQuote)
    requires f.Valid() && midPrice > 0.0 && quantity > 0.0
    requires buy == CalculateExecution(f, Buy, quantity, midPrice, spread, depth, isTaker)
    requires sell == CalculateExecution(f, Sell, quantity, midPrice, spread, depth, isTaker)
    ensures buy.totalGrossCost > sell.totalGrossCost
    ensures buy.totalNetCost - sell.totalNetCost
            == buy.totalGrossCost - sell.totalGrossCost + buy.totalFee + sell.totalFee
  {
    hide *;
    FillsStraddle(f, quantity, midPrice, spread, depth, isTaker);
    QuoteTotals(f, Buy, quantity, midPrice, spread, depth, isTaker);
    QuoteTotals(f, Sell, quantity, midPrice, spread, depth, isTaker);
    FillsApart(quantity, buy.effectivePrice, sell.effectivePrice);
  }

  lemma FillsStraddle(f: FrictionModel, quantity: real, midPrice: real, spread: real, depth: real, isTaker: bool)
    requires f.Valid() && midPrice > 0.0 && quantity > 0.0
    ensures CalculateExecution(f, Sell, quantity, midPrice, spread, depth, isTaker).effectivePrice
          < CalculateExecution(f, Buy, quantity, midPrice, spread, depth, isTaker).effectivePrice
  {
    hide CalculateExecution;
    ExecutionIsAdverse(f, Buy, quantity, midPrice, spread, depth, isTaker);
    ExecutionIsAdverse(f, Sell, quantity, midPrice, spread, depth, isTaker);
  }

  lemma QuoteTotals(f: FrictionModel, side: Side, quantity: real, midPrice: real, spread: real, depth: real,
                    isTaker: bool)
    ensures var q := CalculateExecution(f, side, quantity, midPrice, spread, depth, isTaker);
            && q.totalGrossCost == quantity * q.effectivePrice
            && q.totalNetCost == q.totalGrossCost + if side.Buy? then q.totalFee else -q.totalFee
  {
    hide EffectivePrice, Slippage, SpreadOrDefault;
  }

  lemma FillsApart(quantity: real, high: real, low: real)
    requires quantity > 0.0 && low < high
    ensures quantity * low < quantity * high
  {
  }
}
