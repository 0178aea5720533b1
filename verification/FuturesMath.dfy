/** Isolated-margin futures arithmetic: liquidation, risk/reward, sizing, stops and targets. */
module FuturesMath {
  import opened Common

  datatype Direction = Long | Short

  datatype MathError = BadEntry | BadLeverage | BadLevels | WrongSide | NoCapital | ZeroRisk

  /** The maintenance margin rate every caller in the repository passes. */
  const MMR: real := 0.005

  /** The slippage buffer on a stop fill, ten basis points of entry. */
  const STOP_SLIPPAGE: real := 0.001

  /** The evidence-based parameters of one asset class. */
  datatype RiskProfile = RiskProfile(
    horizonMin: int,
    horizonMax: int,
    decayBreakevenAtMin: int,
    decayFlatAtMin: int,
    slAtrMult: real,
    slSwingOffset: real,
    slMinPct: real,
    slMaxPct: real,
    tp1AtrMult: real,
    tp2AtrMult: real,
    tp1CloseFrac: real,
    targetHourlyVolPct: real,
    liqBufferMin: real,
    riskPerTradePct: real,
    freshnessHalfLifeMin: real,
    weekendFlat: bool)
  {
    predicate Valid() {
      && horizonMin > 0
      && horizonMax >= horizonMin
      && 0 < decayBreakevenAtMin < decayFlatAtMin
      && (horizonMax > 0 ==> decayFlatAtMin < horizonMax)
      && 0.0 < slMinPct <= slMaxPct
      && slAtrMult > 0.0 && tp1AtrMult > 0.0
      && 0.0 < tp1CloseFrac < 1.0
      && 0.0 < riskPerTradePct <= 0.05
      && liqBufferMin >= 1.0
      && freshnessHalfLifeMin > 0.0
    }
  }

  // ------------------------------------------------------------ price levels

  /** The price `gain` in the trade's favour beyond `entry`. */
  function PriceAt(entry: real, gain: real, dir: Direction): real {
    match dir
    case Long => entry + gain
    case Short => entry - gain
  }

  /** How far `price` lies beyond `entry` in the trade's favour. */
  function Gain(entry: real, price: real, dir: Direction): real {
    match dir
    case Long => price - entry
    case Short => entry - price
  }

  /** `pct` percent of `entry`, as a price distance. */
  function Pct(entry: real, pct: real): real {
    entry * pct / 100.0
  }

  /** The stop `pct` percent of entry away from it on the losing side. */
  function StopAt(entry: real, pct: real, dir: Direction): real {
    match dir
    case Long => entry * (1.0 - pct / 100.0)
    case Short => entry * (1.0 + pct / 100.0)
  }

  lemma StopDistance(entry: real, pct: real, dir: Direction)
    ensures Gain(entry, StopAt(entry, pct, dir), dir) == -Pct(entry, pct)
  {
    assert entry * (pct / 100.0) == entry * pct / 100.0;
  }

  // ------------------------------------------------------------- liquidation

  function CalculateLiquidationPrice(entry: real, leverage: int, dir: Direction, mmr: real): Result<real, MathError> {
    if entry <= 0.0 then Err(BadEntry)
    else if leverage < 1 || leverage > 125 then Err(BadLeverage)
    else
      var rate := if mmr < 0.0 || mmr >= 1.0 then 0.005 else mmr;
      Ok(LiquidationLevel(entry, 1.0 / leverage as real, rate, dir))
  }

  function LiquidationLevel(entry: real, levFactor: real, rate: real, dir: Direction): real {
    match dir
    case Long => Max(0.0, entry * (1.0 - levFactor + rate))
    case Short => entry * (1.0 + levFactor - rate)
  }

  lemma LevelIsAStop(entry: real, levFactor: real, rate: real, pct: real, dir: Direction)
    requires entry > 0.0 && pct / 100.0 == levFactor - rate && levFactor - rate <= 1.0
    ensures LiquidationLevel(entry, levFactor, rate, dir) == StopAt(entry, pct, dir)
  {
    assert 1.0 - levFactor + rate == 1.0 - pct / 100.0;
    assert 1.0 + levFactor - rate == 1.0 + pct / 100.0;
    MulMonotone(0.0, 1.0 - pct / 100.0, entry);
  }

  /** Distance to liquidation in percent of entry, for a leverage the exchange accepts. */
  function LiquidationDistancePct(leverage: int): real
    requires leverage >= 1
  {
    100.0 / leverage as real - 0.5
  }

  /** The liquidation price is an ordinary stop at the liquidation distance. */
  lemma LiquidationIsAStop(entry: real, leverage: int, dir: Direction)
    requires entry > 0.0 && 1 <= leverage <= 125
    ensures LiquidationDistancePct(leverage) >= 0.3
    ensures CalculateLiquidationPrice(entry, leverage, dir, MMR)
            == Ok(StopAt(entry, LiquidationDistancePct(leverage), dir))
  {
    var f := 1.0 / leverage as real;
    DivAntitone(1.0, 1.0, leverage as real);
    DivAntitone(1.0, leverage as real, 125.0);
    var d := LiquidationDistancePct(leverage);
    assert d == 100.0 * f - 0.5 by { assert 100.0 / leverage as real == 100.0 * f; }
    LevelIsAStop(entry, f, MMR, d, dir);
  }

  /** Lower leverage never brings liquidation closer. */
  lemma LiquidationDistanceMonotone(low: int, high: int)
    requires 1 <= low <= high
    ensures LiquidationDistancePct(low) >= LiquidationDistancePct(high)
  {
    DivAntitone(100.0, low as real, high as real);
  }

  function LiquidationBufferOK(entry: real, slPct: real, leverage: int, dir: Direction, prof: RiskProfile): bool {
    match CalculateLiquidationPrice(entry, leverage, dir, MMR)
    case Err(_) => false
    case Ok(liq) =>
      var liqDist := Abs(entry - liq) / entry * 100.0;
      slPct > 0.0 && liqDist / slPct >= prof.liqBufferMin
  }

  /** The buffer test, read without prices: leverage in range and the distance a multiple of the stop. */
  lemma BufferMeaning(entry: real, slPct: real, leverage: int, dir: Direction, prof: RiskProfile)
    requires entry > 0.0 && slPct > 0.0
    ensures LiquidationBufferOK(entry, slPct, leverage, dir, prof) <==>
            1 <= leverage <= 125 && LiquidationDistancePct(leverage) >= prof.liqBufferMin * slPct
  {
    if 1 <= leverage <= 125 {
      LiquidationIsAStop(entry, leverage, dir);
      var d := LiquidationDistancePct(leverage);
      StopDistance(entry, d, dir);
      var liq := StopAt(entry, d, dir);
      assert entry * d >= 0.0;
      assert Abs(entry - liq) == entry * d / 100.0;
      assert entry * d / 100.0 / entry == d / 100.0;
      RatioAtLeast(d, slPct, prof.liqBufferMin);
    }
  }

  lemma RatioAtLeast(x: real, y: real, k: real)
    requires y > 0.0
    ensures x / y >= k <==> x >= k * y
  {
    assert (x / y) * y == x;
    if x / y >= k { MulMonotone(k, x / y, y); }
    MulDivCancel(k, y);
    if x >= k * y { DivMonotone(k * y, x, y); }
  }

  // ------------------------------------------------------------- risk/reward

  function CalculateRiskRewardRatio(entry: real, stopLoss: real, takeProfit: real, dir: Direction)
    : Result<real, MathError>
  {
    if entry <= 0.0 || stopLoss <= 0.0 || takeProfit <= 0.0 then Err(BadLevels)
    else if Gain(entry, stopLoss, dir) >= 0.0 then Err(WrongSide)
    else if Gain(entry, takeProfit, dir) <= 0.0 then Err(WrongSide)
    else Ok(Abs(takeProfit - entry) / Abs(entry - stopLoss))
  }

  // ------------------------------------------------------------------ sizing

  /** Leverage as sizing and the engine read it: anything below 1 means 1. */
  function AtLeastOne(leverage: int): (lev: int)
    ensures lev >= 1
  {
    if leverage < 1 then 1 else leverage
  }

  /** The risk fraction sizing really uses: outside (0, 10%] it falls back to 2%. */
  function NormalRisk(maxRiskPct: real): (r: real)
    ensures 0.0 < r <= 0.10
  {
    if maxRiskPct <= 0.0 || maxRiskPct > 0.10 then 0.02 else maxRiskPct
  }

  datatype Sizing = Sizing(quantity: real, marginRequired: real, riskAmountUSD: real)

  function CalculatePositionSizing(equity: real, maxRiskPct: real, available: real, entry: real, stopLoss: real,
                                   leverage: int)
    : Result<Sizing, MathError>
  {
    if equity <= 0.0 || available <= 0.0 then Err(NoCapital)
    else
      var lev := AtLeastOne(leverage) as real;
      var riskDistance := Abs(entry - stopLoss);
      if riskDistance <= 0.0 then Err(ZeroRisk)
      else
        var riskAmount := equity * NormalRisk(maxRiskPct);
        Ok(FitMargin(riskAmount / riskDistance, riskAmount, riskDistance, entry, lev, available))
  }

  /** Scales the quantity down when its margin exceeds the available capital. */
  function FitMargin(quantity: real, riskAmount: real, riskDistance: real, entry: real, lev: real,
                     available: real): Sizing
    requires lev >= 1.0 && available > 0.0
  {
    var margin := quantity * entry / lev;
    if margin > available && entry != 0.0 then
      var q := available * lev / entry;
      Sizing(q, available, q * riskDistance)
    else Sizing(quantity, margin, riskAmount)
  }

  function CalculatePositionSizingWithSlippage(equity: real, maxRiskPct: real, available: real, entry: real,
                                               stopLoss: real, leverage: int)
    : Result<Sizing, MathError>
  {
    if entry <= 0.0 || stopLoss <= 0.0 then Err(BadLevels)
    else
      var baseDist := Abs(entry - stopLoss);
      var adjusted := if entry > stopLoss then entry - baseDist - STOP_SLIPPAGE * entry
                      else entry + baseDist + STOP_SLIPPAGE * entry;
      CalculatePositionSizing(equity, maxRiskPct, available, entry, adjusted, leverage)
  }

  /** Margin times leverage buys a quantity that, moved by `dist`, changes value by at most `risk`. */
  predicate WithinBudget(margin: real, lev: real, entry: real, dist: real, risk: real)
    requires entry != 0.0
  {
    margin * lev / entry * dist <= risk
  }

  /**
   * Sizing never spends more than the available capital nor risks more than the budget: margin
   * times leverage, moved over the whole risk distance, stays within the risk amount.
   */
  lemma SizingRespectsBudget(equity: real, maxRiskPct: real, available: real, entry: real, stopLoss: real,
                             leverage: int)
    requires entry > 0.0
    ensures var r := CalculatePositionSizing(equity, maxRiskPct, available, entry, stopLoss, leverage);
            var lev := AtLeastOne(leverage) as real;
            r.Ok? ==>
              && 0.0 < r.value.marginRequired <= available
              && WithinBudget(r.value.marginRequired, lev, entry, Abs(entry - stopLoss),
                              equity * NormalRisk(maxRiskPct))
  {
    if equity > 0.0 && available > 0.0 && Abs(entry - stopLoss) > 0.0 {
      var lev := AtLeastOne(leverage) as real;
      var dist := Abs(entry - stopLoss);
      var risk := equity * NormalRisk(maxRiskPct);
      QuotientPositive(risk, dist);
      FittedBudget(risk / dist, risk, dist, entry, lev, available);
    }
  }

  lemma FittedBudget(q: real, risk: real, dist: real, entry: real, lev: real, available: real)
    requires dist > 0.0 && entry > 0.0 && lev >= 1.0 && available > 0.0
    requires q > 0.0 && q * dist == risk
    ensures var s := FitMargin(q, risk, dist, entry, lev, available);
            0.0 < s.marginRequired <= available && WithinBudget(s.marginRequired, lev, entry, dist, risk)
  {
    BudgetHolds(q, risk, dist, entry, lev, FitMargin(q, risk, dist, entry, lev, available).marginRequired);
  }

  lemma QuotientPositive(x: real, y: real)
    requires x > 0.0 && y > 0.0
    ensures x / y > 0.0 && x / y * y == x
  {
  }

  lemma BudgetHolds(q: real, risk: real, dist: real, entry: real, lev: real, margin: real)
    requires dist > 0.0 && entry > 0.0 && lev > 0.0
    requires q > 0.0 && q * dist == risk
    requires margin <= q * entry / lev
    ensures q * entry / lev > 0.0
    ensures margin * lev / entry * dist <= risk
  {
    QuotientPositive(q * entry, lev);
    MulMonotone(margin, q * entry / lev, lev);
    DivMonotone(margin * lev, q * entry, entry);
    assert q * entry / entry == q;
    MulMonotone(margin * lev / entry, q, dist);
  }

  /** The same guarantee over the stop distance widened by the fill slippage. */
  lemma SlippageSizingRespectsBudget(equity: real, maxRiskPct: real, available: real, entry: real, stopLoss: real,
                                     leverage: int, sizing: Sizing, move: real, budget: real)
    requires CalculatePositionSizingWithSlippage(equity, maxRiskPct, available, entry, stopLoss, leverage) == Ok(sizing)
    requires move == Abs(entry - stopLoss) + STOP_SLIPPAGE * entry
    requires budget == equity * NormalRisk(maxRiskPct)
    ensures entry > 0.0 && stopLoss > 0.0
    ensures 0.0 < sizing.marginRequired <= available
    ensures WithinBudget(sizing.marginRequired, AtLeastOne(leverage) as real, entry, move, budget)
  {
    hide CalculatePositionSizing, WithinBudget, NormalRisk;
    var adjusted := if entry > stopLoss then entry - Abs(entry - stopLoss) - STOP_SLIPPAGE * entry
                    else entry + Abs(entry - stopLoss) + STOP_SLIPPAGE * entry;
    assert Abs(entry - adjusted) == move;
    SizingRespectsBudget(equity, maxRiskPct, available, entry, adjusted, leverage);
  }

  // ------------------------------------------------------- stops and targets

  /** The stop price before any clamp: behind the swing, or the profile's multiple of ATRs away. */
  function RawATRStop(entry: real, swingLow: real, swingHigh: real, atr: real, dir: Direction,
                      prof: RiskProfile): real {
    match dir
    case Long =>
      var anchor := if swingLow <= 0.0 && atr > 0.0 then entry - prof.slAtrMult * atr else swingLow;
      if anchor > 0.0 && atr > 0.0 then anchor - prof.slSwingOffset * atr else anchor
    case Short =>
      var anchor := if swingHigh <= 0.0 && atr > 0.0 then entry + prof.slAtrMult * atr else swingHigh;
      if anchor > 0.0 && atr > 0.0 then anchor + prof.slSwingOffset * atr else anchor
  }

  function CalculateATRStopPct(entry: real, swingLow: real, swingHigh: real, atr: real, dir: Direction,
                               prof: RiskProfile): real
    requires entry != 0.0
  {
    var raw := RawATRStop(entry, swingLow, swingHigh, atr, dir, prof);
    Min(Max(Abs(entry - raw) / entry * 100.0, prof.slMinPct), prof.slMaxPct)
  }

  /**
   * Without a swing or an ATR measurement the distance is 100 percent, clamped: the profile's widest
   * stop, unless that exceeds the whole price. It is the minimum the source's comment promises only
   * where the clamp leaves no choice.
   */
  lemma MissingATRGivesWidestStop(entry: real, dir: Direction, prof: RiskProfile)
    requires entry > 0.0 && prof.Valid()
    ensures var p := CalculateATRStopPct(entry, 0.0, 0.0, 0.0, dir, prof);
            && p == (if prof.slMaxPct <= 100.0 then prof.slMaxPct else Max(100.0, prof.slMinPct))
            && (p == prof.slMinPct <==> prof.slMinPct == prof.slMaxPct || prof.slMinPct >= 100.0)
  {
    assert entry / entry == 1.0;
  }

  function CalculateStagedTargets(entry: real, atr: real, dir: Direction, prof: RiskProfile): (real, real) {
    if atr <= 0.0 then
      var riskDist := Pct(entry, prof.slMinPct);
      (PriceAt(entry, riskDist, dir), PriceAt(entry, 2.0 * riskDist, dir))
    else (PriceAt(entry, prof.tp1AtrMult * atr, dir), PriceAt(entry, prof.tp2AtrMult * atr, dir))
  }

  function CalculateVolTargetLeverage(natrPct: real, maxLeverage: int, prof: RiskProfile): (lev: int)
    ensures 1 <= lev && (lev <= maxLeverage || lev == 1)
  {
    if natrPct <= 0.0 || prof.targetHourlyVolPct <= 0.0 then 1
    else
      var ceiling := if maxLeverage < 1 then 1 else maxLeverage;
      var lev := (prof.targetHourlyVolPct / natrPct).Floor;
      if lev < 1 then 1 else if lev > ceiling then ceiling else lev
  }
}
