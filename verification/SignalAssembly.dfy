/**
 * Signal assembly: from a directional decision and its measurements to price levels, leverage
 * and margin. The functions state it direction-free, as gains beyond entry; the methods do it
 * as the service does, on prices, variable by variable, and are proved to agree.
 */
module SignalAssembly {
  import opened Common
  import opened FuturesMath
  import opened EntryGate

  datatype SignalConfig = SignalConfig(
    minRiskRewardRatio: real,
    defaultLeverage: int,
    minStopLossPct: real,
    maxStopLossPct: real,
    minTakeProfitPct: real,
    maxTakeProfitPct: real,
    maxRiskPerTradePct: real,
    maxTradeMarginPct: real)

  datatype ATRRegime = ATRRegime(slAtrMult: Option<real>, tpAtrMult: Option<real>)

  /** Managed trade parameters as resolved for this candidate; any may be missing. */
  datatype ManagedParams = ManagedParams(
    confluence: Option<real>,
    atrRegime: Option<ATRRegime>,
    minRR: Option<real>,
    leverage: Option<real>,
    conviction: Option<real>)

  datatype Candidate = Candidate(
    symbol: string,
    entryPrice: real,
    natr: real,
    confluenceScore: real,
    dir: Direction,
    aiStopPct: real,
    aiLeverage: int,
    params: ManagedParams,
    hasCatalyst: bool,
    totalEquity: real,
    availableCapital: real,
    measured: Measurements)

  datatype FuturesSignal = FuturesSignal(
    symbol: string,
    dir: Direction,
    entryPrice: real,
    stopLoss: real,
    takeProfit1: real,
    takeProfit2: Option<real>,
    leverage: int,
    riskRewardRatio: real,
    allocatedCapitalUSD: real,
    allocatedCapitalPct: real,
    atrAtEntry: real,
    tp1CloseFraction: real)

  datatype HoldReason = LowConfluence | NoCatalyst | TakeProfitBound | Vetoed(rule: Rule)

  datatype Failure = BadQuote | NoEquity | NoBudget | BadProfile | ConfigMissing | SizingFailed(error: MathError)

  /** `Panicked` is the write of a stop clamp into the map that malformed target bounds leave nil. */
  datatype Outcome = Built(sig: FuturesSignal) | Held(reason: HoldReason) | Failed(error: Failure) | Panicked

  // ------------------------------------------------------------- parameters

  function Truncate(x: real): int {
    if x >= 0.0 then x.Floor else -((-x).Floor)
  }

  function ATRPrice(c: Candidate): real {
    if c.natr > 0.0 then c.natr * c.entryPrice else 0.0
  }

  /** The profile after the managed ATR regime: TP2 takes the multiple, TP1 keeps its staged ratio. */
  function Tuned(prof: RiskProfile, p: ManagedParams): RiskProfile {
    if p.atrRegime.None? then prof
    else
      var sl, tp := p.atrRegime.value.slAtrMult, p.atrRegime.value.tpAtrMult;
      var withStop := if sl.Some? && sl.value > 0.0 then prof.(slAtrMult := sl.value) else prof;
      if tp.Some? && tp.value > 0.0 then
        var ratio := if prof.tp2AtrMult > 0.0 then prof.tp1AtrMult / prof.tp2AtrMult else 0.33;
        withStop.(tp2AtrMult := tp.value, tp1AtrMult := tp.value * ratio)
      else withStop
  }

  function EffectiveMinRR(cfg: SignalConfig, p: ManagedParams): real {
    if p.minRR.Some? && p.minRR.value > 0.0 then p.minRR.value else cfg.minRiskRewardRatio
  }

  function EffectiveDefaultLeverage(cfg: SignalConfig, p: ManagedParams): int {
    if p.leverage.Some? then Truncate(p.leverage.value) else cfg.defaultLeverage
  }

  function MaxRisk(cfg: SignalConfig, prof: RiskProfile, p: ManagedParams): real {
    var r := if p.conviction.Some? && p.conviction.value > 0.0 then p.conviction.value else prof.riskPerTradePct;
    if r <= 0.0 then cfg.maxRiskPerTradePct else r
  }

  predicate ConfluenceTooLow(c: Candidate) {
    && c.params.confluence.Some? && c.params.confluence.value > 0.0
    && c.confluenceScore > 0.0 && c.confluenceScore < c.params.confluence.value
  }

  // ------------------------------------------------------------------- stop

  function ATRStopPct(prof: RiskProfile, c: Candidate): real
    requires c.entryPrice > 0.0
  {
    CalculateATRStopPct(c.entryPrice, 0.0, 0.0, ATRPrice(c), c.dir, prof)
  }

  /** The AI stop counts only when it widens the ATR stop inside the profile's clamp. */
  function WidenedStopPct(prof: RiskProfile, c: Candidate): real
    requires c.entryPrice > 0.0
  {
    if ATRStopPct(prof, c) < c.aiStopPct <= prof.slMaxPct then c.aiStopPct else ATRStopPct(prof, c)
  }

  /** The configured bounds win last. */
  function FinalStopPct(cfg: SignalConfig, prof: RiskProfile, c: Candidate): real
    requires c.entryPrice > 0.0
  {
    var widened := WidenedStopPct(prof, c);
    var raised := if cfg.minStopLossPct > 0.0 then Max(widened, cfg.minStopLossPct) else widened;
    if cfg.maxStopLossPct > 0.0 then Min(raised, cfg.maxStopLossPct) else raised
  }

  function FinalStop(cfg: SignalConfig, prof: RiskProfile, c: Candidate): real
    requires c.entryPrice > 0.0
  {
    StopAt(c.entryPrice, FinalStopPct(cfg, prof, c), c.dir)
  }

  /** Whether a configured bound moved the stop: the entries the clamp record then carries. */
  predicate StopClamped(cfg: SignalConfig, prof: RiskProfile, c: Candidate)
    requires c.entryPrice > 0.0
  {
    || (cfg.minStopLossPct > 0.0 && WidenedStopPct(prof, c) < cfg.minStopLossPct)
    || (cfg.maxStopLossPct > 0.0 && cfg.maxStopLossPct <
          (if cfg.minStopLossPct > 0.0 then Max(WidenedStopPct(prof, c), cfg.minStopLossPct)
           else WidenedStopPct(prof, c)))
  }

  // ---------------------------------------------------------------- targets

  /** The reward the minimum ratio asks for on the ATR stop. */
  function MinReward(cfg: SignalConfig, prof: RiskProfile, c: Candidate): real
    requires c.entryPrice > 0.0
  {
    EffectiveMinRR(cfg, c.params) * Abs(c.entryPrice - StopAt(c.entryPrice, ATRStopPct(prof, c), c.dir))
  }

  /** Staged gains; without an ATR they are stretched to the minimum reward on the ATR stop. */
  function StagedGains(cfg: SignalConfig, prof: RiskProfile, c: Candidate): (real, real)
    requires c.entryPrice > 0.0
  {
    GainsFrom(c.entryPrice, ATRPrice(c), Tuned(prof, c.params), MinReward(cfg, prof, c))
  }

  function GainsFrom(entry: real, atr: real, prof: RiskProfile, minReward: real): (real, real) {
    if atr <= 0.0 then
      var unit := Pct(entry, prof.slMinPct);
      (Max(unit, minReward), Max(2.0 * unit, minReward * 1.5))
    else (prof.tp1AtrMult * atr, prof.tp2AtrMult * atr)
  }

  /** The first target reaches the minimum reward, or is moved there; with the ratio it then has. */
  function FlooredGain(entry: real, stop: real, gain: real, dir: Direction, minRR: real): (real, real) {
    match CalculateRiskRewardRatio(entry, stop, PriceAt(entry, gain, dir), dir)
    case Ok(rr) => if rr < minRR then (minRR * Abs(entry - stop), minRR) else (gain, rr)
    case Err(_) => (minRR * Abs(entry - stop), minRR)
  }

  predicate BoundsWellFormed(minPct: real, maxPct: real) {
    0.0 < minPct <= maxPct
  }

  function Clamp(x: real, lo: real, hi: real): (r: real)
    ensures lo <= hi ==> lo <= r <= hi
    ensures lo <= x <= hi ==> r == x
  {
    if x < lo then lo else if x > hi then hi else x
  }

  /** Both gains between `lo` and `hi`, the second beyond the first, re-staged or omitted. */
  function RunnerBeyond(g1: real, g2: real, lo: real, hi: real): (real, Option<real>) {
    var b1, b2 := Clamp(g1, lo, hi), Clamp(g2, lo, hi);
    (b1, if b2 > b1 then Some(b2) else if b1 > 0.0 && 2.0 * b1 <= hi then Some(2.0 * b1) else None)
  }

  /** The configured bounds in force; malformed bounds enforce nothing. */
  function BoundedGains(entry: real, g1: real, g2: real, minPct: real, maxPct: real): (real, Option<real>) {
    if !BoundsWellFormed(minPct, maxPct) then (g1, Some(g2))
    else RunnerBeyond(g1, g2, Pct(entry, minPct), Pct(entry, maxPct))
  }

  // --------------------------------------------------------------- leverage

  function RequestedLeverage(cfg: SignalConfig, prof: RiskProfile, c: Candidate): int {
    var fallback := EffectiveDefaultLeverage(cfg, c.params);
    var asked := if c.aiLeverage < 1 then fallback else c.aiLeverage;
    var ceiling := if c.natr > 0.0 then CalculateVolTargetLeverage(c.natr * 100.0, fallback, prof) else fallback;
    if asked > ceiling then ceiling else asked
  }

  /** The largest leverage at most `lev` that keeps the liquidation buffer, or 1 when none does. */
  function SafeLeverage(entry: real, slPct: real, lev: int, dir: Direction, prof: RiskProfile): (r: int)
    ensures r <= lev
    ensures forall k | r < k <= lev :: !LiquidationBufferOK(entry, slPct, k, dir, prof)
    ensures r > 1 ==> LiquidationBufferOK(entry, slPct, r, dir, prof)
    ensures if lev >= 1 then r >= 1 else r == lev
    decreases lev
  {
    if lev > 1 && !LiquidationBufferOK(entry, slPct, lev, dir, prof) then SafeLeverage(entry, slPct, lev - 1, dir, prof)
    else lev
  }

  function FinalLeverage(cfg: SignalConfig, prof: RiskProfile, c: Candidate): int
    requires c.entryPrice > 0.0
  {
    var tuned := Tuned(prof, c.params);
    SafeLeverage(c.entryPrice, FinalStopPct(cfg, prof, c), RequestedLeverage(cfg, tuned, c), c.dir, tuned)
  }

  // --------------------------------------------------------------- assembly

  function MarginCap(cfg: SignalConfig, c: Candidate): real {
    c.totalEquity * (if cfg.maxTradeMarginPct <= 0.0 then 0.20 else cfg.maxTradeMarginPct)
  }

  function SizedMargin(cfg: SignalConfig, prof: RiskProfile, c: Candidate): Result<Sizing, MathError>
    requires c.entryPrice > 0.0
  {
    CalculatePositionSizingWithSlippage(c.totalEquity, MaxRisk(cfg, prof, c.params), c.availableCapital,
                                        c.entryPrice, FinalStop(cfg, prof, c), FinalLeverage(cfg, prof, c))
  }

  datatype Levels = Levels(gain1: real, gain2: Option<real>, rr: real)

  /** Targets as gains beyond entry, and the risk/reward ratio recorded with them. */
  function LevelsFrom(entry: real, stop: real, staged1: real, staged2: real, dir: Direction, minRR: real, minPct: real,
                      maxPct: real): Levels {
    var (g1, rr) := FlooredGain(entry, stop, staged1, dir, minRR);
    var (b1, b2) := BoundedGains(entry, g1, staged2, minPct, maxPct);
    match CalculateRiskRewardRatio(entry, stop, PriceAt(entry, b1, dir), dir)
    case Ok(final) => Levels(b1, b2, final)
    case Err(_) => Levels(b1, b2, rr)
  }

  function FinalLevels(cfg: SignalConfig, prof: RiskProfile, c: Candidate): Levels
    requires c.entryPrice > 0.0
  {
    var (s1, s2) := StagedGains(cfg, prof, c);
    LevelsFrom(c.entryPrice, FinalStop(cfg, prof, c), s1, s2, c.dir, EffectiveMinRR(cfg, c.params),
               cfg.minTakeProfitPct, cfg.maxTakeProfitPct)
  }

  /** Slack of the final risk/reward test. */
  const RR_SLACK: real := 0.000000001

  function PercentOf(part: real, whole: real): real
    requires whole != 0.0
  {
    part / whole * 100.0
  }

  function SignalOf(cfg: SignalConfig, prof: RiskProfile, c: Candidate, sizing: Sizing): FuturesSignal
    requires c.entryPrice > 0.0 && c.totalEquity > 0.0
  {
    var lv := FinalLevels(cfg, prof, c);
    var margin := Min(Min(sizing.marginRequired, MarginCap(cfg, c)), c.availableCapital);
    FuturesSignal(c.symbol, c.dir, c.entryPrice, FinalStop(cfg, prof, c), PriceAt(c.entryPrice, lv.gain1, c.dir),
                  if lv.gain2.Some? then Some(PriceAt(c.entryPrice, lv.gain2.value, c.dir)) else None,
                  FinalLeverage(cfg, prof, c), lv.rr, margin, PercentOf(margin, c.totalEquity),
                  ATRPrice(c), prof.tp1CloseFrac)
  }

  /** Everything after sizing: target bounds, the risk/reward floor and the entry gate. */
  function Finish(cfg: SignalConfig, prof: RiskProfile, c: Candidate, sizing: Sizing): Outcome
    requires c.entryPrice > 0.0 && c.totalEquity > 0.0
  {
    var slPct := FinalStopPct(cfg, prof, c);
    if !BoundsWellFormed(cfg.minTakeProfitPct, cfg.maxTakeProfitPct) && StopClamped(cfg, prof, c) then Panicked
    else if FinalLevels(cfg, prof, c).rr + RR_SLACK < EffectiveMinRR(cfg, c.params) then Held(TakeProfitBound)
    else
      match EvaluateEntryGate(c.measured, c.entryPrice, c.dir, slPct, FinalLeverage(cfg, prof, c), prof.liqBufferMin)
      case Some(rule) => Held(Vetoed(rule))
      case None => Built(SignalOf(cfg, prof, c, sizing))
  }

  function Assemble(cfg: SignalConfig, prof: RiskProfile, c: Candidate): Outcome {
    if c.entryPrice <= 0.0 then Failed(BadQuote)
    else if c.totalEquity <= 0.0 then Failed(NoEquity)
    else if c.availableCapital <= 0.0 then Failed(NoBudget)
    else if !prof.Valid() then Failed(BadProfile)
    else if ConfluenceTooLow(c) then Held(LowConfluence)
    else if MaxRisk(cfg, prof, c.params) <= 0.0 then Failed(ConfigMissing)
    else
      match SizedMargin(cfg, prof, c)
      case Err(e) => Failed(SizingFailed(e))
      case Ok(sizing) => if !c.hasCatalyst then Held(NoCatalyst) else Finish(cfg, prof, c, sizing)
  }

  // ---------------------------------------------- the service's own algorithm

  method ChooseStop(cfg: SignalConfig, prof: RiskProfile, c: Candidate, atrPct: real)
    returns (stopLoss: real, slPct: real, clamped: bool)
    requires c.entryPrice > 0.0 && atrPct == ATRStopPct(prof, c)
    ensures slPct == FinalStopPct(cfg, prof, c) && stopLoss == FinalStop(cfg, prof, c)
    ensures clamped <==> StopClamped(cfg, prof, c)
  {
    slPct, clamped := atrPct, false;
    if c.aiStopPct > slPct && c.aiStopPct <= prof.slMaxPct {
      slPct := c.aiStopPct;
    }
    if cfg.minStopLossPct > 0.0 && slPct < cfg.minStopLossPct {
      slPct, clamped := cfg.minStopLossPct, true;
    }
    if cfg.maxStopLossPct > 0.0 && slPct > cfg.maxStopLossPct {
      slPct, clamped := cfg.maxStopLossPct, true;
    }
    stopLoss := StopAt(c.entryPrice, slPct, c.dir);
  }

  method StageTargets(entry: real, atr: real, dir: Direction, prof: RiskProfile, minReward: real)
    returns (tp1: real, tp2: real)
    requires entry > 0.0 && prof.slMinPct > 0.0
    ensures var (g1, g2) := GainsFrom(entry, atr, prof, minReward);
            tp1 == PriceAt(entry, g1, dir) && tp2 == PriceAt(entry, g2, dir)
  {
    var (t1, t2) := CalculateStagedTargets(entry, atr, dir, prof);
    tp1, tp2 := t1, t2;
    if atr <= 0.0 {
      ghost var unit := Pct(entry, prof.slMinPct);
      MulMonotone(0.0, prof.slMinPct, entry);
      tp1 := Stretch(entry, tp1, minReward, dir, unit);
      tp2 := Stretch(entry, tp2, minReward * 1.5, dir, 2.0 * unit);
    }
  }

  /** Moves a target out to `minReward` when it sits closer to entry. */
  method Stretch(entry: real, tp: real, minReward: real, dir: Direction, ghost gain: real) returns (r: real)
    requires gain >= 0.0 && tp == PriceAt(entry, gain, dir)
    ensures r == PriceAt(entry, Max(gain, minReward), dir)
  {
    r := tp;
    if Abs(tp - entry) < minReward {
      r := if dir.Long? then entry + minReward else entry - minReward;
    }
  }

  method Bound(v: real, lo: real, hi: real) returns (r: real)
    ensures r == Clamp(v, lo, hi)
  {
    r := v;
    if r < lo {
      r := lo;
    } else if r > hi {
      r := hi;
    }
  }

  /** Writes both targets through; `tp2OK` is false when the runner must be omitted. */
  method ClampTakeProfits(entry: real, tp1: real, tp2: real, dir: Direction, minPct: real, maxPct: real)
    returns (out1: real, out2: real, tp2OK: bool, nilMap: bool)
    requires entry > 0.0
    ensures var (b1, b2) := BoundedGains(entry, Gain(entry, tp1, dir), Gain(entry, tp2, dir), minPct, maxPct);
            && out1 == PriceAt(entry, b1, dir)
            && (tp2OK <==> b2.Some?)
            && (tp2OK ==> out2 == PriceAt(entry, b2.value, dir))
    ensures nilMap <==> !BoundsWellFormed(minPct, maxPct)
  {
    out1, out2 := tp1, tp2;
    if minPct <= 0.0 || maxPct < minPct {
      return out1, out2, true, true;
    }
    PercentLevels(entry, minPct, maxPct);
    var lo, hi;
    if dir.Long? {
      lo, hi := entry * (1.0 + minPct / 100.0), entry * (1.0 + maxPct / 100.0);
    } else {
      lo, hi := entry * (1.0 - maxPct / 100.0), entry * (1.0 - minPct / 100.0);
    }
    out1, out2, tp2OK := ClampWithin(entry, out1, out2, dir, lo, hi);
    nilMap := false;
  }

  method ClampWithin(entry: real, tp1: real, tp2: real, dir: Direction, lo: real, hi: real)
    returns (out1: real, out2: real, tp2OK: bool)
    requires lo <= hi
    ensures var (b1, b2) := RunnerBeyond(Gain(entry, tp1, dir), Gain(entry, tp2, dir),
                                         if dir.Long? then lo - entry else entry - hi,
                                         if dir.Long? then hi - entry else entry - lo);
            && out1 == PriceAt(entry, b1, dir)
            && (tp2OK <==> b2.Some?)
            && (tp2OK ==> out2 == PriceAt(entry, b2.value, dir))
  {
    out1 := Bound(tp1, lo, hi);
    out2 := Bound(tp2, lo, hi);
    if dir.Long? {
      if out2 > out1 {
        return out1, out2, true;
      }
      var want := out1 + (out1 - entry);
      if out1 > entry && want <= hi {
        return out1, want, true;
      }
      return out1, out2, false;
    }
    if out2 >= out1 {
      var want := 2.0 * out1 - entry;
      if out1 < entry && want >= lo {
        return out1, want, true;
      }
      return out1, out2, false;
    }
    tp2OK := true;
  }

  /** The source's bound prices are the bound gains, on either side. */
  lemma PercentLevels(entry: real, minPct: real, maxPct: real)
    requires entry > 0.0 && 0.0 < minPct <= maxPct
    ensures entry * (1.0 + minPct / 100.0) == entry + Pct(entry, minPct)
    ensures entry * (1.0 + maxPct / 100.0) == entry + Pct(entry, maxPct)
    ensures entry * (1.0 - minPct / 100.0) == entry - Pct(entry, minPct)
    ensures entry * (1.0 - maxPct / 100.0) == entry - Pct(entry, maxPct)
    ensures 0.0 < Pct(entry, minPct) <= Pct(entry, maxPct)
  {
    MulMonotone(minPct, maxPct, entry);
    assert entry * minPct > 0.0;
  }

  method ChooseLeverage(cfg: SignalConfig, prof: RiskProfile, c: Candidate, slPct: real) returns (leverage: int)
    requires c.entryPrice > 0.0
    ensures leverage == SafeLeverage(c.entryPrice, slPct, RequestedLeverage(cfg, prof, c), c.dir, prof)
  {
    var effectiveDefaultLev := EffectiveDefaultLeverage(cfg, c.params);
    leverage := c.aiLeverage;
    if leverage < 1 {
      leverage := effectiveDefaultLev;
    }
    if c.natr > 0.0 {
      var volTargetLev := CalculateVolTargetLeverage(c.natr * 100.0, effectiveDefaultLev, prof);
      if leverage > volTargetLev {
        leverage := volTargetLev;
      }
    } else if leverage > effectiveDefaultLev {
      leverage := effectiveDefaultLev;
    }
    if !LiquidationBufferOK(c.entryPrice, slPct, leverage, c.dir, prof) {
      while leverage > 1
        invariant SafeLeverage(c.entryPrice, slPct, leverage, c.dir, prof)
               == SafeLeverage(c.entryPrice, slPct, RequestedLeverage(cfg, prof, c), c.dir, prof)
        invariant leverage > 1 ==> !LiquidationBufferOK(c.entryPrice, slPct, leverage, c.dir, prof)
        invariant leverage <= RequestedLeverage(cfg, prof, c)
      {
        leverage := leverage - 1;
        if LiquidationBufferOK(c.entryPrice, slPct, leverage, c.dir, prof) {
          break;
        }
      }
    }
  }

  method FloorTarget(entry: real, stop: real, tp1: real, dir: Direction, minRR: real) returns (out1: real, rr: real)
    ensures var (g1, r) := FlooredGain(entry, stop, Gain(entry, tp1, dir), dir, minRR);
            out1 == PriceAt(entry, g1, dir) && rr == r
  {
    out1, rr := tp1, 0.0;
    var first := CalculateRiskRewardRatio(entry, stop, tp1, dir);
    assert PriceAt(entry, Gain(entry, tp1, dir), dir) == tp1;
    if first.Ok? {
      rr := first.value;
    }
    if first.Err? || rr < minRR {
      var riskDist := Abs(entry - stop);
      out1 := if dir.Long? then entry + minRR * riskDist else entry - minRR * riskDist;
      rr := minRR;
    }
  }

  method RewardOnStop(cfg: SignalConfig, prof: RiskProfile, c: Candidate, atrPct: real) returns (minReward: real)
    requires c.entryPrice > 0.0 && atrPct == ATRStopPct(prof, c)
    ensures minReward == MinReward(cfg, prof, c)
  {
    var stopLoss := StopAt(c.entryPrice, atrPct, c.dir);
    minReward := EffectiveMinRR(cfg, c.params) * Abs(c.entryPrice - stopLoss);
  }

  /** Levels, leverage and margin of one candidate, or the reason there is no signal. */
  method EvaluateMarketSignal(cfg: SignalConfig, prof: RiskProfile, c: Candidate) returns (r: Outcome)
    ensures r == Assemble(cfg, prof, c)
  {
    if c.entryPrice <= 0.0 {
      return Failed(BadQuote);
    }
    if c.totalEquity <= 0.0 {
      return Failed(NoEquity);
    }
    if c.availableCapital <= 0.0 {
      return Failed(NoBudget);
    }
    if !prof.Valid() {
      return Failed(BadProfile);
    }
    var atrPct := ATRStopPct(prof, c);
    if ConfluenceTooLow(c) {
      return Held(LowConfluence);
    }
    var tuned := Tuned(prof, c.params);
    var minReward := RewardOnStop(cfg, prof, c, atrPct);
    var tp1, tp2 := StageTargets(c.entryPrice, ATRPrice(c), c.dir, tuned, minReward);
    var stopLoss, slPct, clamped := ChooseStop(cfg, prof, c, atrPct);
    var leverage := ChooseLeverage(cfg, tuned, c, slPct);

    var maxRiskPct := MaxRisk(cfg, prof, c.params);
    if maxRiskPct <= 0.0 {
      return Failed(ConfigMissing);
    }
    var sizing := CalculatePositionSizingWithSlippage(c.totalEquity, maxRiskPct, c.availableCapital, c.entryPrice,
                                                      stopLoss, leverage);
    if sizing.Err? {
      return Failed(SizingFailed(sizing.error));
    }
    if !c.hasCatalyst {
      return Held(NoCatalyst);
    }
    r := FinishSignal(cfg, prof, c, sizing.value, stopLoss, slPct, clamped, leverage, tp1, tp2);
  }

  method FinishTargets(cfg: SignalConfig, prof: RiskProfile, c: Candidate, stopLoss: real, staged1: real, staged2: real)
    returns (tp1: real, tp2: real, tp2OK: bool, nilMap: bool, rr: real)
    requires c.entryPrice > 0.0 && stopLoss == FinalStop(cfg, prof, c)
    requires var (g1, g2) := StagedGains(cfg, prof, c);
             staged1 == PriceAt(c.entryPrice, g1, c.dir) && staged2 == PriceAt(c.entryPrice, g2, c.dir)
    ensures var lv := FinalLevels(cfg, prof, c);
            && tp1 == PriceAt(c.entryPrice, lv.gain1, c.dir) && rr == lv.rr
            && (tp2OK <==> lv.gain2.Some?)
            && (tp2OK ==> tp2 == PriceAt(c.entryPrice, lv.gain2.value, c.dir))
    ensures nilMap <==> !BoundsWellFormed(cfg.minTakeProfitPct, cfg.maxTakeProfitPct)
  {
    var entry := c.entryPrice;
    ghost var (g1, g2) := StagedGains(cfg, prof, c);
    assert Gain(entry, staged1, c.dir) == g1 && Gain(entry, staged2, c.dir) == g2;
    var floored, rr0 := FloorTarget(entry, stopLoss, staged1, c.dir, EffectiveMinRR(cfg, c.params));
    tp1, tp2, tp2OK, nilMap := ClampTakeProfits(entry, floored, staged2, c.dir, cfg.minTakeProfitPct,
                                                cfg.maxTakeProfitPct);
    rr := rr0;
    var final := CalculateRiskRewardRatio(entry, stopLoss, tp1, c.dir);
    if final.Ok? {
      rr := final.value;
    }
  }

  method FinishSignal(cfg: SignalConfig, prof: RiskProfile, c: Candidate, sizing: Sizing,
                      stopLoss: real, slPct: real, clamped: bool, leverage: int, staged1: real, staged2: real)
    returns (r: Outcome)
    requires c.entryPrice > 0.0 && c.totalEquity > 0.0
    requires stopLoss == FinalStop(cfg, prof, c) && slPct == FinalStopPct(cfg, prof, c)
    requires clamped <==> StopClamped(cfg, prof, c)
    requires leverage == FinalLeverage(cfg, prof, c)
    requires var (g1, g2) := StagedGains(cfg, prof, c);
             staged1 == PriceAt(c.entryPrice, g1, c.dir) && staged2 == PriceAt(c.entryPrice, g2, c.dir)
    ensures r == Finish(cfg, prof, c, sizing)
  {
    var entry, minRR := c.entryPrice, EffectiveMinRR(cfg, c.params);
    var marginRequired := sizing.marginRequired;
    var maxTradeMargin := MarginCap(cfg, c);
    if marginRequired > maxTradeMargin {
      marginRequired := maxTradeMargin;
    }
    if marginRequired > c.availableCapital {
      marginRequired := c.availableCapital;
    }
    var tp1, tp2, tp2OK, nilMap, rr := FinishTargets(cfg, prof, c, stopLoss, staged1, staged2);
    if nilMap && clamped {
      return Panicked;
    }
    if rr + RR_SLACK < minRR {
      return Held(TakeProfitBound);
    }
    var gate := EvaluateEntryGate(c.measured, entry, c.dir, slPct, leverage, prof.liqBufferMin);
    if gate.Some? {
      return Held(Vetoed(gate.value));
    }
    r := Built(FuturesSignal(c.symbol, c.dir, entry, stopLoss, tp1, if tp2OK then Some(tp2) else None, leverage, rr,
                             marginRequired, marginRequired / c.totalEquity * 100.0, ATRPrice(c), prof.tp1CloseFrac));
  }
}
