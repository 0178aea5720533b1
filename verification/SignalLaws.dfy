/** What every signal the assembly builds satisfies, whatever decision and measurements went in. */
module SignalLaws {
  import opened Common
  import opened FuturesMath
  import opened EntryGate
  import opened SignalAssembly
  import F = Friction
  import L = Ledger
  import LL = LedgerLaws

  // ----------------------------------------------------------------- bands

  /**
   * The stop distance is positive, obeys the configured bounds where they are set and
   * consistent, and the profile's clamp where they are not.
   */
  lemma StopInBands(cfg: SignalConfig, prof: RiskProfile, c: Candidate)
    requires c.entryPrice > 0.0 && prof.Valid()
    ensures var p := FinalStopPct(cfg, prof, c);
            && p > 0.0
            && (cfg.maxStopLossPct > 0.0 ==> p <= cfg.maxStopLossPct)
            && (cfg.minStopLossPct > 0.0 && (cfg.maxStopLossPct <= 0.0 || cfg.minStopLossPct <= cfg.maxStopLossPct) ==>
                  p >= cfg.minStopLossPct)
            && (!StopClamped(cfg, prof, c) ==> prof.slMinPct <= p <= prof.slMaxPct)
  {
    WidenedInProfile(prof, c);
  }

  lemma WidenedInProfile(prof: RiskProfile, c: Candidate)
    requires c.entryPrice > 0.0 && prof.Valid()
    ensures prof.slMinPct <= WidenedStopPct(prof, c) <= prof.slMaxPct
  {
  }

  /** Target bounds under which the levels of a signal are guaranteed: a short cannot gain 100 percent. */
  predicate TargetBoundsOk(cfg: SignalConfig, dir: Direction) {
    BoundsWellFormed(cfg.minTakeProfitPct, cfg.maxTakeProfitPct) && (dir.Short? ==> cfg.maxTakeProfitPct < 100.0)
  }

  /** Stop, entry and targets stand in the order the direction asks for, at positive prices. */
  predicate Ordered(s: FuturesSignal) {
    match s.dir
    case Long =>
      0.0 < s.stopLoss < s.entryPrice < s.takeProfit1 && (s.takeProfit2.Some? ==> s.takeProfit1 < s.takeProfit2.value)
    case Short =>
      && 0.0 < s.takeProfit1 < s.entryPrice < s.stopLoss
      && (s.takeProfit2.Some? ==> 0.0 < s.takeProfit2.value < s.takeProfit1)
  }

  predicate WithinTargets(cfg: SignalConfig, s: FuturesSignal, price: real) {
    Pct(s.entryPrice, cfg.minTakeProfitPct) <= Gain(s.entryPrice, price, s.dir)
      <= Pct(s.entryPrice, cfg.maxTakeProfitPct)
  }

  lemma PctPositive(entry: real, p: real)
    requires entry > 0.0 && p > 0.0
    ensures Pct(entry, p) > 0.0
  {
    MulMonotone(0.0, p, entry);
    assert entry * p > 0.0;
  }

  /** A stop at `p` percent sits on the losing side, its distance that percentage of entry. */
  lemma StopSide(entry: real, p: real, dir: Direction)
    requires entry > 0.0 && p > 0.0
    ensures Gain(entry, StopAt(entry, p, dir), dir) == -Pct(entry, p) < 0.0
    ensures Abs(entry - StopAt(entry, p, dir)) == Pct(entry, p)
  {
    StopDistance(entry, p, dir);
    PctPositive(entry, p);
  }

  lemma ShortGainBelowEntry(entry: real, pct: real, gain: real)
    requires entry > 0.0 && pct < 100.0 && gain <= Pct(entry, pct)
    ensures gain < entry
  {
    assert entry * pct < entry * 100.0;
  }

  /** Flooring leaves a gain that meets the minimum ratio. */
  lemma FlooredMeetsRatio(entry: real, stop: real, gain: real, dir: Direction, minRR: real, risk: real)
    requires risk > 0.0 && Gain(entry, stop, dir) == -risk
    ensures FlooredGain(entry, stop, gain, dir, minRR).0 >= minRR * risk
  {
    assert Abs(entry - stop) == risk;
    if entry > 0.0 && stop > 0.0 && PriceAt(entry, gain, dir) > 0.0 && gain > 0.0 {
      assert Abs(PriceAt(entry, gain, dir) - entry) == gain;
      RatioAtLeast(gain, risk, minRR);
    }
  }

  // ---------------------------------------------------------------- levels

  /** What well-formed bounds guarantee of the levels, over plain numbers. */
  ghost predicate LevelsHold(lv: Levels, lo: real, hi: real, risk: real, minRR: real) {
    && risk > 0.0 && 0.0 < lo <= lv.gain1 <= hi
    && (lv.gain2.Some? ==> lv.gain1 < lv.gain2.value <= hi)
    && lv.rr == lv.gain1 / risk
    && (lv.gain1 < hi ==> lv.gain1 >= minRR * risk)
  }

  lemma BoundedTargets(entry: real, stop: real, s1: real, s2: real, dir: Direction, minRR: real, minPct: real,
                       maxPct: real, risk: real)
    requires entry > 0.0 && stop > 0.0 && BoundsWellFormed(minPct, maxPct)
    requires risk > 0.0 && Gain(entry, stop, dir) == -risk
    requires dir.Short? ==> Pct(entry, maxPct) < entry
    ensures LevelsHold(LevelsFrom(entry, stop, s1, s2, dir, minRR, minPct, maxPct),
                       Pct(entry, minPct), Pct(entry, maxPct), risk, minRR)
  {
    PercentLevels(entry, minPct, maxPct);
    FlooredMeetsRatio(entry, stop, s1, dir, minRR, risk);
    var g1 := FlooredGain(entry, stop, s1, dir, minRR).0;
    var lo, hi := Pct(entry, minPct), Pct(entry, maxPct);
    RunnerHolds(g1, s2, lo, hi, minRR * risk);
    assert dir.Short? ==> hi < entry;
    RatioOfGain(entry, stop, RunnerBeyond(g1, s2, lo, hi).0, dir, risk);
  }

  lemma RunnerHolds(g1: real, g2: real, lo: real, hi: real, floor: real)
    requires 0.0 < lo <= hi && g1 >= floor
    ensures var (b1, b2) := RunnerBeyond(g1, g2, lo, hi);
            && lo <= b1 <= hi && (b2.Some? ==> b1 < b2.value <= hi) && (b1 < hi ==> b1 >= floor)
  {
  }

  lemma RatioOfGain(entry: real, stop: real, gain: real, dir: Direction, risk: real)
    requires entry > 0.0 && stop > 0.0 && risk > 0.0 && Gain(entry, stop, dir) == -risk
    requires 0.0 < gain && (dir.Short? ==> gain < entry)
    ensures CalculateRiskRewardRatio(entry, stop, PriceAt(entry, gain, dir), dir) == Ok(gain / risk)
  {
    assert Abs(entry - stop) == risk && Abs(PriceAt(entry, gain, dir) - entry) == gain;
  }

  /** The first target after bounding, and the ratio recorded with it. */
  lemma FinalTargets(cfg: SignalConfig, prof: RiskProfile, c: Candidate)
    requires c.entryPrice > 0.0 && prof.Valid() && TargetBoundsOk(cfg, c.dir) && FinalStop(cfg, prof, c) > 0.0
    ensures LevelsHold(FinalLevels(cfg, prof, c), Pct(c.entryPrice, cfg.minTakeProfitPct),
                       Pct(c.entryPrice, cfg.maxTakeProfitPct), Pct(c.entryPrice, FinalStopPct(cfg, prof, c)),
                       EffectiveMinRR(cfg, c.params))
    ensures c.dir.Short? ==> Pct(c.entryPrice, cfg.maxTakeProfitPct) < c.entryPrice
  {
    hide FinalStopPct, StagedGains, LevelsFrom, LevelsHold, EffectiveMinRR, Pct, StopAt, Gain;
    var entry, p := c.entryPrice, FinalStopPct(cfg, prof, c);
    StopInBands(cfg, prof, c);
    StopSide(entry, p, c.dir);
    if c.dir.Short? { ShortGainBelowEntry(entry, cfg.maxTakeProfitPct, Pct(entry, cfg.maxTakeProfitPct)); }
    var (s1, s2) := StagedGains(cfg, prof, c);
    BoundedTargets(entry, FinalStop(cfg, prof, c), s1, s2, c.dir, EffectiveMinRR(cfg, c.params),
                   cfg.minTakeProfitPct, cfg.maxTakeProfitPct, Pct(entry, p));
  }

  /** The stages a candidate must pass before its levels matter. */
  ghost predicate Sized(cfg: SignalConfig, prof: RiskProfile, c: Candidate) {
    && c.entryPrice > 0.0 && c.totalEquity > 0.0 && c.availableCapital > 0.0
    && prof.Valid() && !ConfluenceTooLow(c) && c.hasCatalyst
    && MaxRisk(cfg, prof, c.params) > 0.0 && SizedMargin(cfg, prof, c).Ok?
  }

  lemma SizedHasPositiveStop(cfg: SignalConfig, prof: RiskProfile, c: Candidate)
    requires Sized(cfg, prof, c)
    ensures FinalStop(cfg, prof, c) > 0.0
  {
    hide FinalStop, FinalLeverage, MaxRisk;
  }

  /** A built signal is a sized candidate that passed every later test. */
  lemma BuiltFacts(cfg: SignalConfig, prof: RiskProfile, c: Candidate, s: FuturesSignal)
    requires Assemble(cfg, prof, c) == Built(s)
    ensures Sized(cfg, prof, c)
    ensures s == SignalOf(cfg, prof, c, SizedMargin(cfg, prof, c).value)
    ensures FinalLevels(cfg, prof, c).rr + RR_SLACK >= EffectiveMinRR(cfg, c.params)
    ensures EvaluateEntryGate(c.measured, c.entryPrice, c.dir, FinalStopPct(cfg, prof, c), FinalLeverage(cfg, prof, c),
                              prof.liqBufferMin).None?
  {
    hide FinalStopPct, FinalStop, FinalLevels, FinalLeverage, SizedMargin, SignalOf, EvaluateEntryGate, StopClamped,
      MaxRisk, EffectiveMinRR;
  }

  /** The fields of the signal itself, once its levels are known to hold. */
  lemma SignalFields(cfg: SignalConfig, prof: RiskProfile, c: Candidate, sizing: Sizing)
    requires c.entryPrice > 0.0 && c.totalEquity > 0.0
    ensures var s := SignalOf(cfg, prof, c, sizing); var lv := FinalLevels(cfg, prof, c);
            && s.entryPrice == c.entryPrice && s.dir == c.dir && s.stopLoss == FinalStop(cfg, prof, c)
            && s.leverage == FinalLeverage(cfg, prof, c) && s.riskRewardRatio == lv.rr
            && s.allocatedCapitalUSD == Min(Min(sizing.marginRequired, MarginCap(cfg, c)), c.availableCapital)
            && s.takeProfit1 == PriceAt(c.entryPrice, lv.gain1, c.dir)
            && s.takeProfit2 == if lv.gain2.Some? then Some(PriceAt(c.entryPrice, lv.gain2.value, c.dir)) else None
  {
    hide FinalLevels, FinalStop, FinalLeverage, MarginCap;
  }

  /** Levels that hold, read back as prices. */
  lemma LevelsAsPrices(s: FuturesSignal, lv: Levels, lo: real, hi: real, risk: real, minRR: real)
    requires LevelsHold(lv, lo, hi, risk, minRR) && lv.rr + RR_SLACK >= minRR
    requires s.entryPrice > 0.0 && s.stopLoss > 0.0 && Gain(s.entryPrice, s.stopLoss, s.dir) == -risk
    requires s.dir.Short? ==> hi < s.entryPrice
    requires s.takeProfit1 == PriceAt(s.entryPrice, lv.gain1, s.dir) && s.riskRewardRatio == lv.rr
    requires s.takeProfit2 == if lv.gain2.Some? then Some(PriceAt(s.entryPrice, lv.gain2.value, s.dir)) else None
    ensures Ordered(s)
    ensures lo <= Gain(s.entryPrice, s.takeProfit1, s.dir) <= hi
    ensures s.takeProfit2.Some? ==> lo <= Gain(s.entryPrice, s.takeProfit2.value, s.dir) <= hi
    ensures s.riskRewardRatio == Gain(s.entryPrice, s.takeProfit1, s.dir) / Abs(s.entryPrice - s.stopLoss)
    ensures s.riskRewardRatio >= minRR - RR_SLACK
  {
    assert Gain(s.entryPrice, s.takeProfit1, s.dir) == lv.gain1;
    assert Abs(s.entryPrice - s.stopLoss) == risk;
  }

  lemma RefusedFacts(cfg: SignalConfig, prof: RiskProfile, c: Candidate)
    requires Sized(cfg, prof, c) && BoundsWellFormed(cfg.minTakeProfitPct, cfg.maxTakeProfitPct)
    ensures Assemble(cfg, prof, c) == Held(TakeProfitBound) <==>
            FinalLevels(cfg, prof, c).rr + RR_SLACK < EffectiveMinRR(cfg, c.params)
  {
    hide FinalStopPct, FinalStop, FinalLevels, FinalLeverage, SizedMargin, SignalOf, EvaluateEntryGate, StopClamped,
      MaxRisk, EffectiveMinRR;
  }

  /**
   * The end result of assembly: levels ordered and at positive prices, the stop and both targets
   * inside their configured percentages, and the recorded risk/reward the true ratio, at least the
   * effective minimum up to the 1e-9 slack - for any decision, ATR, AI stop and managed parameters.
   */
  lemma BuiltSignalIsSound(cfg: SignalConfig, prof: RiskProfile, c: Candidate, s: FuturesSignal)
    requires Assemble(cfg, prof, c) == Built(s) && TargetBoundsOk(cfg, c.dir)
    ensures s.entryPrice == c.entryPrice > 0.0 && s.dir == c.dir && Ordered(s)
    ensures s.stopLoss == StopAt(c.entryPrice, FinalStopPct(cfg, prof, c), c.dir)
    ensures WithinTargets(cfg, s, s.takeProfit1)
    ensures s.takeProfit2.Some? ==> WithinTargets(cfg, s, s.takeProfit2.value)
    ensures s.riskRewardRatio == Gain(s.entryPrice, s.takeProfit1, s.dir) / Abs(s.entryPrice - s.stopLoss)
    ensures s.riskRewardRatio >= EffectiveMinRR(cfg, c.params) - RR_SLACK
  {
    hide Assemble, FinalStopPct, FinalLevels, FinalLeverage, SizedMargin, EffectiveMinRR, SignalOf;
    hide Pct, StopAt, Gain, PriceAt, LevelsHold, Ordered;
    BuiltFacts(cfg, prof, c, s);
    SignalFields(cfg, prof, c, SizedMargin(cfg, prof, c).value);
    SizedHasPositiveStop(cfg, prof, c);
    FinalTargets(cfg, prof, c);
    StopInBands(cfg, prof, c);
    var p := FinalStopPct(cfg, prof, c);
    StopSide(c.entryPrice, p, c.dir);
    LevelsAsPrices(s, FinalLevels(cfg, prof, c), Pct(c.entryPrice, cfg.minTakeProfitPct),
                   Pct(c.entryPrice, cfg.maxTakeProfitPct), Pct(c.entryPrice, p), EffectiveMinRR(cfg, c.params));
  }

  /**
   * A sized candidate is refused for its target exactly when the largest allowed target cannot
   * pay the minimum ratio on its stop - whatever the ATR, the AI stop or the staging said.
   */
  lemma TargetRefusedIff(cfg: SignalConfig, prof: RiskProfile, c: Candidate)
    requires Sized(cfg, prof, c) && TargetBoundsOk(cfg, c.dir)
    ensures Assemble(cfg, prof, c) == Held(TakeProfitBound) <==>
            cfg.maxTakeProfitPct + RR_SLACK * FinalStopPct(cfg, prof, c)
              < EffectiveMinRR(cfg, c.params) * FinalStopPct(cfg, prof, c)
  {
    hide *;
    RefusableLevels(cfg, prof, c);
    RatioRefused(c.entryPrice, FinalStopPct(cfg, prof, c), FinalLevels(cfg, prof, c).gain1, cfg.maxTakeProfitPct,
                 EffectiveMinRR(cfg, c.params));
    RefusedFacts(cfg, prof, c);
  }

  lemma RefusableLevels(cfg: SignalConfig, prof: RiskProfile, c: Candidate)
    requires Sized(cfg, prof, c) && TargetBoundsOk(cfg, c.dir)
    ensures c.entryPrice > 0.0 && FinalStopPct(cfg, prof, c) > 0.0
    ensures BoundsWellFormed(cfg.minTakeProfitPct, cfg.maxTakeProfitPct)
    ensures var risk, hi := Pct(c.entryPrice, FinalStopPct(cfg, prof, c)), Pct(c.entryPrice, cfg.maxTakeProfitPct);
            var lv := FinalLevels(cfg, prof, c);
            && risk > 0.0 && lv.gain1 <= hi && lv.rr == lv.gain1 / risk
            && (lv.gain1 < hi ==> lv.gain1 >= EffectiveMinRR(cfg, c.params) * risk)
  {
    hide Assemble, FinalStopPct, FinalLevels, SizedMargin, EffectiveMinRR, Pct;
    SizedHasPositiveStop(cfg, prof, c);
    FinalTargets(cfg, prof, c);
    StopInBands(cfg, prof, c);
  }

  lemma RatioRefused(entry: real, p: real, gain: real, maxPct: real, minRR: real)
    requires entry > 0.0 && p > 0.0 && gain <= Pct(entry, maxPct)
    requires Pct(entry, p) > 0.0
    requires gain < Pct(entry, maxPct) ==> gain >= minRR * Pct(entry, p)
    ensures gain / Pct(entry, p) + RR_SLACK < minRR <==> maxPct + RR_SLACK * p < minRR * p
  {
    var risk, k := Pct(entry, p), minRR - RR_SLACK;
    RatioAtLeast(gain, risk, k);
    ScaleCompare(entry, p, maxPct, k);
    if gain < Pct(entry, maxPct) {
      MulMonotone(k, minRR, risk);
    }
  }

  lemma ScaleCompare(entry: real, p: real, maxPct: real, k: real)
    requires entry > 0.0
    ensures maxPct < k * p <==> Pct(entry, maxPct) < k * Pct(entry, p)
  {
    assert k * Pct(entry, p) == entry * (k * p) / 100.0;
    if maxPct < k * p { assert entry * maxPct < entry * (k * p); }
    if maxPct >= k * p { MulMonotone(k * p, maxPct, entry); }
  }

  // -------------------------------------------------------------- leverage

  /** Leverage is at least 1 exactly when a usable default exists, or the AI's own is capped by volatility. */
  lemma LeverageAtLeastOneIff(cfg: SignalConfig, prof: RiskProfile, c: Candidate)
    requires c.entryPrice > 0.0
    ensures FinalLeverage(cfg, prof, c) >= 1 <==>
            EffectiveDefaultLeverage(cfg, c.params) >= 1 || (c.aiLeverage >= 1 && c.natr > 0.0)
  {
  }

  /**
   * The leverage loop finds the maximum: every leverage from 1 to the result keeps the liquidation
   * buffer and none above it up to the request does, unless even 1 fails - which happens exactly
   * when the stop times the required buffer exceeds 99.5 percent.
   */
  lemma LeverageIsLargestSafe(entry: real, slPct: real, asked: int, dir: Direction, prof: RiskProfile)
    requires entry > 0.0 && slPct > 0.0 && asked >= 1
    ensures var lev := SafeLeverage(entry, slPct, asked, dir, prof);
            && (LiquidationBufferOK(entry, slPct, lev, dir, prof) <==> prof.liqBufferMin * slPct <= 99.5)
            && (prof.liqBufferMin * slPct <= 99.5 ==>
                  forall k | 1 <= k <= asked :: LiquidationBufferOK(entry, slPct, k, dir, prof) <==> k <= lev)
            && (prof.liqBufferMin * slPct > 99.5 ==> lev == 1)
  {
    var lev := SafeLeverage(entry, slPct, asked, dir, prof);
    BufferMeaning(entry, slPct, 1, dir, prof);
    BufferMeaning(entry, slPct, lev, dir, prof);
    LiquidationDistanceMonotone(1, lev);
    forall k | 1 <= k <= lev && LiquidationBufferOK(entry, slPct, lev, dir, prof)
      ensures LiquidationBufferOK(entry, slPct, k, dir, prof)
    {
      BufferMeaning(entry, slPct, k, dir, prof);
      LiquidationDistanceMonotone(k, lev);
    }
  }

  // ----------------------------------------------- what the ledger does with it

  /** The persisted signal as the execution engine reads it. */
  function OrderOf(s: FuturesSignal): L.SignalOrder {
    L.SignalOrder(s.symbol, s.dir, s.entryPrice, s.stopLoss, s.takeProfit1, s.leverage, s.allocatedCapitalUSD)
  }

  /** A built signal's leverage never exceeds what the exchange accepts. */
  lemma BuiltLeverageInRange(cfg: SignalConfig, prof: RiskProfile, c: Candidate, s: FuturesSignal)
    requires Assemble(cfg, prof, c) == Built(s)
    ensures AtLeastOne(s.leverage) <= 125
  {
    var tuned := Tuned(prof, c.params);
    StopInBands(cfg, prof, c);
    var lev := FinalLeverage(cfg, prof, c);
    if lev > 1 {
      BufferMeaning(c.entryPrice, FinalStopPct(cfg, prof, c), lev, c.dir, tuned);
    }
  }

  /** Comparing two stops of one entry is comparing their percentages. */
  lemma StopOrder(entry: real, p: real, q: real, dir: Direction)
    requires entry > 0.0
    ensures p <= q <==> Gain(entry, StopAt(entry, p, dir), dir) >= Gain(entry, StopAt(entry, q, dir), dir)
  {
    StopDistance(entry, p, dir);
    StopDistance(entry, q, dir);
    if p <= q { MulMonotone(p, q, entry); } else { assert entry * p > entry * q; }
  }

  /**
   * For an ordered signal with its stop `p` percent away, some price liquidates the position before
   * its stop exactly when the liquidation distance at the engine's leverage is shorter than `p`.
   */
  lemma LiquidationReachableIff(l: L.Ledger, s: FuturesSignal, p: real)
    requires Ordered(s) && s.entryPrice > 0.0 && AtLeastOne(s.leverage) <= 125
             && s.stopLoss == StopAt(s.entryPrice, p, s.dir)
    ensures (exists price :: L.ExitTrigger(L.SignalTrade(l, OrderOf(s)), price) == Some("LIQUIDATION")) <==>
            p > LiquidationDistancePct(AtLeastOne(s.leverage))
  {
    var t := L.SignalTrade(l, OrderOf(s));
    var d := LiquidationDistancePct(AtLeastOne(s.leverage));
    LiquidationIsAStop(s.entryPrice, AtLeastOne(s.leverage), s.dir);
    StopOrder(s.entryPrice, p, d, s.dir);
    StopSide(s.entryPrice, d, s.dir);
    assert t.liquidationPrice == StopAt(s.entryPrice, d, s.dir);
    if p > d {
      assert L.ExitTrigger(t, t.liquidationPrice) == Some("LIQUIDATION");
    } else {
      forall price
        ensures L.ExitTrigger(t, price) != Some("LIQUIDATION")
      {
      }
    }
  }

  /** A stop no further than the liquidation distance comes first at every price, whatever the target. */
  lemma StopComesFirst(l: L.Ledger, s: FuturesSignal, p: real)
    requires s.entryPrice > 0.0 && s.stopLoss > 0.0 && s.stopLoss == StopAt(s.entryPrice, p, s.dir)
    requires AtLeastOne(s.leverage) <= 125 && p <= LiquidationDistancePct(AtLeastOne(s.leverage))
    ensures forall price :: L.ExitTrigger(L.SignalTrade(l, OrderOf(s)), price) != Some("LIQUIDATION")
  {
    var t := L.SignalTrade(l, OrderOf(s));
    var d := LiquidationDistancePct(AtLeastOne(s.leverage));
    LiquidationIsAStop(s.entryPrice, AtLeastOne(s.leverage), s.dir);
    StopOrder(s.entryPrice, p, d, s.dir);
    assert t.liquidationPrice == StopAt(s.entryPrice, d, s.dir);
  }

  /**
   * A position held from a built signal is never liquidated: at every price its stop or target
   * triggers first, because the leverage loop and the entry gate together keep the buffer. The one
   * exception is a leverage below 1, which neither of them tests, with a stop beyond 99.5 percent.
   */
  lemma BuiltSignalNeverLiquidates(cfg: SignalConfig, prof: RiskProfile, c: Candidate, s: FuturesSignal, l: L.Ledger)
    requires Assemble(cfg, prof, c) == Built(s)
    requires s.leverage >= 1 || FinalStopPct(cfg, prof, c) <= 99.5
    ensures forall price :: L.ExitTrigger(L.SignalTrade(l, OrderOf(s)), price) != Some("LIQUIDATION")
  {
    hide Assemble, FinalStopPct, FinalLevels, FinalLeverage, SizedMargin, EvaluateEntryGate, EffectiveMinRR;
    hide L.ExitTrigger, L.SignalTrade, OrderOf, LiquidationDistancePct, LiquidationBufferOK, StopAt;
    BuiltStop(cfg, prof, c, s);
    BuiltLeverageInRange(cfg, prof, c, s);
    BuiltDistance(cfg, prof, c, s);
    StopComesFirst(l, s, FinalStopPct(cfg, prof, c));
  }

  /** The stop of a built signal: at its percentage, on a positive price. */
  lemma BuiltStop(cfg: SignalConfig, prof: RiskProfile, c: Candidate, s: FuturesSignal)
    requires Assemble(cfg, prof, c) == Built(s)
    ensures s.entryPrice == c.entryPrice > 0.0 && s.dir == c.dir && FinalStopPct(cfg, prof, c) > 0.0
    ensures s.leverage == FinalLeverage(cfg, prof, c)
    ensures s.stopLoss == StopAt(s.entryPrice, FinalStopPct(cfg, prof, c), s.dir) > 0.0
  {
    hide Assemble, FinalStopPct, FinalLevels, FinalLeverage, SizedMargin, EvaluateEntryGate, EffectiveMinRR;
    hide StopAt, SignalOf;
    BuiltFacts(cfg, prof, c, s);
    SignalFields(cfg, prof, c, SizedMargin(cfg, prof, c).value);
    SizedHasPositiveStop(cfg, prof, c);
    StopInBands(cfg, prof, c);
  }

  /** The first target of a built long lies beyond entry, under any bounds; a short's may lie at or below zero. */
  lemma BuiltTargetPositive(cfg: SignalConfig, prof: RiskProfile, c: Candidate, s: FuturesSignal)
    requires Assemble(cfg, prof, c) == Built(s)
    ensures s.dir.Long? ==> s.takeProfit1 > s.entryPrice > 0.0
  {
    BuiltStop(cfg, prof, c, s);
    BuiltFacts(cfg, prof, c, s);
    SignalFields(cfg, prof, c, SizedMargin(cfg, prof, c).value);
    hide Assemble, FinalStopPct, FinalLeverage, SizedMargin, EvaluateEntryGate, EffectiveMinRR;
    if c.dir.Long? {
      StagedPositive(cfg, prof, c);
      StopSide(c.entryPrice, FinalStopPct(cfg, prof, c), c.dir);
      hide StagedGains, StopAt;
      var (s1, s2) := StagedGains(cfg, prof, c);
      LongGainPositive(c.entryPrice, FinalStop(cfg, prof, c), s1, s2, EffectiveMinRR(cfg, c.params),
                       cfg.minTakeProfitPct, cfg.maxTakeProfitPct);
    }
  }

  lemma StagedPositive(cfg: SignalConfig, prof: RiskProfile, c: Candidate)
    requires c.entryPrice > 0.0 && prof.Valid()
    ensures StagedGains(cfg, prof, c).0 > 0.0
  {
    hide MinReward;
    PctPositive(c.entryPrice, prof.slMinPct);
  }

  lemma LongGainPositive(entry: real, stop: real, s1: real, s2: real, minRR: real, minPct: real, maxPct: real)
    requires entry > 0.0 && stop > 0.0 && Gain(entry, stop, Long) < 0.0 && s1 > 0.0
    ensures LevelsFrom(entry, stop, s1, s2, Long, minRR, minPct, maxPct).gain1 > 0.0
  {
    if BoundsWellFormed(minPct, maxPct) {
      PctPositive(entry, minPct);
      MulMonotone(minPct, maxPct, entry);
    }
    var risk := Abs(entry - stop);
    assert CalculateRiskRewardRatio(entry, stop, PriceAt(entry, s1, Long), Long) == Ok(s1 / risk);
    QuotientPositive(s1, risk);
    if s1 / risk < minRR {
      MulMonotone(0.0, minRR, risk);
      assert minRR * risk > 0.0;
    }
  }

  lemma GateKeepsDistance(m: Measurements, price: real, dir: Direction, p: real, leverage: int, prof: RiskProfile)
    requires prof.Valid() && price > 0.0 && p > 0.0 && 1 <= leverage <= 125
    requires EvaluateEntryGate(m, price, dir, p, leverage, prof.liqBufferMin).None?
    ensures p <= LiquidationDistancePct(leverage)
  {
    AllowedKeepsBuffer(m, price, dir, p, leverage, prof);
    hide LiquidationBufferOK, LiquidationDistancePct, EvaluateEntryGate;
    MulMonotone(1.0, prof.liqBufferMin, p);
  }

  /** Its distance is within the liquidation distance, and beyond it exactly in that exception. */
  lemma BuiltDistance(cfg: SignalConfig, prof: RiskProfile, c: Candidate, s: FuturesSignal)
    requires Assemble(cfg, prof, c) == Built(s)
    ensures c.entryPrice > 0.0
    ensures FinalStopPct(cfg, prof, c) > LiquidationDistancePct(AtLeastOne(s.leverage)) <==>
            s.leverage < 1 && FinalStopPct(cfg, prof, c) > 99.5
  {
    BuiltStop(cfg, prof, c, s);
    BuiltLeverageInRange(cfg, prof, c, s);
    BuiltFacts(cfg, prof, c, s);
    hide *;
    if s.leverage >= 1 {
      GateKeepsDistance(c.measured, c.entryPrice, c.dir, FinalStopPct(cfg, prof, c), s.leverage, prof);
    }
  }

  /** Under usable target bounds that exception is exact: some price liquidates the position only, and always, there. */
  lemma BuiltSignalLiquidatesIff(cfg: SignalConfig, prof: RiskProfile, c: Candidate, s: FuturesSignal, l: L.Ledger)
    requires Assemble(cfg, prof, c) == Built(s) && TargetBoundsOk(cfg, c.dir)
    ensures s.entryPrice > 0.0 && c.entryPrice > 0.0
    ensures (exists price :: L.ExitTrigger(L.SignalTrade(l, OrderOf(s)), price) == Some("LIQUIDATION")) <==>
            s.leverage < 1 && FinalStopPct(cfg, prof, c) > 99.5
  {
    hide Assemble, FinalStopPct, FinalLevels, FinalLeverage, SizedMargin, EvaluateEntryGate, Ordered, EffectiveMinRR;
    hide L.ExitTrigger, L.SignalTrade, OrderOf, LiquidationDistancePct, LiquidationBufferOK, StopAt, WithinTargets;
    BuiltSignalIsSound(cfg, prof, c, s);
    BuiltLeverageInRange(cfg, prof, c, s);
    BuiltDistance(cfg, prof, c, s);
    LiquidationReachableIff(l, s, FinalStopPct(cfg, prof, c));
  }

  /** The distance the position is sized for: the stop, plus ten basis points of entry for its fill. */
  function BudgetedMove(s: FuturesSignal): real {
    Abs(s.entryPrice - s.stopLoss) + STOP_SLIPPAGE * s.entryPrice
  }

  function RiskBudget(cfg: SignalConfig, prof: RiskProfile, c: Candidate): real {
    c.totalEquity * NormalRisk(MaxRisk(cfg, prof, c.params))
  }

  lemma BuiltMargin(cfg: SignalConfig, prof: RiskProfile, c: Candidate, s: FuturesSignal)
    requires Assemble(cfg, prof, c) == Built(s)
    ensures 0.0 < s.allocatedCapitalUSD <= c.availableCapital
    ensures s.allocatedCapitalUSD <= MarginCap(cfg, c)
    ensures s.entryPrice == c.entryPrice > 0.0
    ensures WithinBudget(s.allocatedCapitalUSD, AtLeastOne(s.leverage) as real, s.entryPrice, BudgetedMove(s),
                         RiskBudget(cfg, prof, c))
  {
    hide Assemble, FinalStop, FinalLevels, FinalLeverage, MaxRisk, WithinBudget, MarginCap, NormalRisk, SignalOf;
    hide CalculatePositionSizingWithSlippage, ConfluenceTooLow;
    BuiltFacts(cfg, prof, c, s);
    var sizing := SizedMargin(cfg, prof, c).value;
    SignalFields(cfg, prof, c, sizing);
    SlippageSizingRespectsBudget(c.totalEquity, MaxRisk(cfg, prof, c.params), c.availableCapital,
                                 c.entryPrice, FinalStop(cfg, prof, c), FinalLeverage(cfg, prof, c),
                                 sizing, BudgetedMove(s), RiskBudget(cfg, prof, c));
    CapPositive(cfg, c);
    BudgetMonotone(s.allocatedCapitalUSD, sizing.marginRequired, AtLeastOne(s.leverage) as real,
                   c.entryPrice, BudgetedMove(s), RiskBudget(cfg, prof, c));
  }

  lemma CapPositive(cfg: SignalConfig, c: Candidate)
    requires c.totalEquity > 0.0
    ensures MarginCap(cfg, c) > 0.0
  {
  }

  lemma BudgetMonotone(small: real, large: real, lev: real, entry: real, dist: real, risk: real)
    requires small <= large && lev >= 1.0 && entry > 0.0 && dist >= 0.0
    requires WithinBudget(large, lev, entry, dist, risk)
    ensures WithinBudget(small, lev, entry, dist, risk)
  {
    MulMonotone(small, large, lev);
    DivMonotone(small * lev, large * lev, entry);
    MulMonotone(small * lev / entry, large * lev / entry, dist);
  }

  /** The ledger after opening a signal, and its reply to a price. */
  function HeldAfter(s: FuturesSignal, l: L.Ledger): L.Ledger {
    L.Step(l, L.OpenFromSignal(OrderOf(s))).0
  }

  function ExitReply(s: FuturesSignal, l: L.Ledger, price: real): L.Reply {
    L.Step(HeldAfter(s, l), L.CheckExit(s.symbol, price)).1
  }

  /**
   * End to end, for every built signal: the margin its position locks is within the tier capital and
   * the margin cap, and an exit that fills within ten basis points of entry beyond the stop loses,
   * before fees, at most the risk budget.
   */
  lemma StopLossWithinRiskBudget(cfg: SignalConfig, prof: RiskProfile, c: Candidate, s: FuturesSignal, l: L.Ledger,
                                 price: real)
    requires Assemble(cfg, prof, c) == Built(s) && L.Step(l, L.OpenFromSignal(OrderOf(s))).1.Opened?
    ensures var held, reply := HeldAfter(s, l), ExitReply(s, l, price);
            && held.positions[s.symbol].Margin() <= Min(c.availableCapital, MarginCap(cfg, c))
            && (reply.Exited? && -Gain(s.entryPrice, reply.trade.exitPrice, s.dir) <= BudgetedMove(s) ==>
                  reply.trade.Unrealized(reply.trade.exitPrice) >= -RiskBudget(cfg, prof, c))
  {
    hide Assemble, RiskBudget, BudgetedMove, WithinBudget, MarginCap, L.Settled, L.ExitTrigger, L.LiquidationOrZero;
    var held, reply := HeldAfter(s, l), ExitReply(s, l, price);
    var t := L.SignalTrade(l, OrderOf(s));
    BuiltMargin(cfg, prof, c, s);
    LL.SignalMargin(l, OrderOf(s));
    assert t.Margin() == s.allocatedCapitalUSD;
    if reply.Exited? {
      ExitKeepsTerms(held, s.symbol, price);
      if -Gain(s.entryPrice, reply.trade.exitPrice, s.dir) <= BudgetedMove(s) {
        LossBounded(t, reply.trade.exitPrice, s.allocatedCapitalUSD, AtLeastOne(s.leverage) as real, BudgetedMove(s),
                    RiskBudget(cfg, prof, c));
      }
    }
  }

  /** With a leverage of at least 1, or a stop within 99.5 percent, no such exit is a liquidation. */
  lemma ExitIsNoLiquidation(cfg: SignalConfig, prof: RiskProfile, c: Candidate, s: FuturesSignal, l: L.Ledger,
                            price: real)
    requires Assemble(cfg, prof, c) == Built(s)
    requires s.leverage >= 1 || FinalStopPct(cfg, prof, c) <= 99.5
    requires L.Step(l, L.OpenFromSignal(OrderOf(s))).1.Opened?
    ensures var reply := ExitReply(s, l, price); reply.Exited? ==> reply.trade.exitReason != "LIQUIDATION"
  {
    hide Assemble, L.Settled, L.ExitTrigger, L.LiquidationOrZero, FinalStopPct;
    BuiltSignalNeverLiquidates(cfg, prof, c, s, l);
    if ExitReply(s, l, price).Exited? {
      ExitKeepsTerms(HeldAfter(s, l), s.symbol, price);
    }
  }

  // The fill, from what is known before it: the trigger price, the position's size and the impact factor.

  /** Half the exit's spread and its uncapped impact, as a fraction of the price. */
  function FillCost(f: F.FrictionModel, quantity: real): real {
    0.0001 + f.impactFactor * ((quantity / 100.0) * (quantity / 100.0))
  }

  /** The worst an exit triggered at `price` can fill. */
  function WorstFill(f: F.FrictionModel, quantity: real, price: real, dir: Direction): real {
    if dir.Long? then price - price * FillCost(f, quantity) else price + price * FillCost(f, quantity)
  }

  lemma FillNoWorse(f: F.FrictionModel, t: L.TradeRow, price: real)
    requires price > 0.0
    ensures Gain(t.entryPrice, L.ExitQuote(f, t, price).effectivePrice, L.DirectionOf(t.side))
         >= Gain(t.entryPrice, WorstFill(f, t.positionSize, price, L.DirectionOf(t.side)), L.DirectionOf(t.side))
  {
    var ratio := t.positionSize / 100.0;
    CostSplit(price, f.impactFactor, ratio * ratio);
    assert F.Slippage(f, t.positionSize, price, 100.0) <= price * f.impactFactor * (ratio * ratio);
    hide F.Slippage, FillCost;
  }

  lemma CostSplit(price: real, impact: real, square: real)
    ensures price * (0.0001 + impact * square) == price * (0.0002 / 2.0) + price * impact * square
  {
  }

  /**
   * The same end to end with nothing read from the fill: if the worst fill at the trigger price stays
   * within ten basis points of entry beyond the stop, the loss before fees is within the risk budget.
   */
  lemma TriggerWithinRiskBudget(cfg: SignalConfig, prof: RiskProfile, c: Candidate, s: FuturesSignal, l: L.Ledger,
                                price: real)
    requires Assemble(cfg, prof, c) == Built(s) && L.Step(l, L.OpenFromSignal(OrderOf(s))).1.Opened? && price > 0.0
    requires var t := L.SignalTrade(l, OrderOf(s));
             -Gain(s.entryPrice, WorstFill(l.friction, t.positionSize, price, s.dir), s.dir) <= BudgetedMove(s)
    ensures var reply := ExitReply(s, l, price);
            reply.Exited? ==> reply.trade.Unrealized(reply.trade.exitPrice) >= -RiskBudget(cfg, prof, c)
  {
    StopLossWithinRiskBudget(cfg, prof, c, s, l, price);
    var t := L.SignalTrade(l, OrderOf(s));
    FillNoWorse(l.friction, t, price);
    hide Assemble, RiskBudget, BudgetedMove, WorstFill, L.ExitTrigger, L.LiquidationOrZero, L.ExitQuote;
    if ExitReply(s, l, price).Exited? {
      ExitFill(HeldAfter(s, l), s.symbol, price);
      hide L.Settled;
    }
  }

  lemma ExitFill(l: L.Ledger, symbol: string, price: real)
    requires L.Step(l, L.CheckExit(symbol, price)).1.Exited?
    ensures L.Step(l, L.CheckExit(symbol, price)).1.trade.exitPrice
         == L.ExitQuote(l.friction, l.positions[symbol], price).effectivePrice
  {
    hide L.ExitQuote, L.ExitTrigger;
    LL.SettledResult(l.friction, l.positions[symbol], price, L.ExitTrigger(l.positions[symbol], price).value);
  }

  lemma ExitKeepsTerms(l: L.Ledger, symbol: string, price: real)
    requires L.Step(l, L.CheckExit(symbol, price)).1.Exited?
    ensures var t, x := l.positions[symbol], L.Step(l, L.CheckExit(symbol, price)).1.trade;
            && x.side == t.side && x.entryPrice == t.entryPrice && x.positionSize == t.positionSize
            && L.ExitTrigger(t, price) == Some(x.exitReason)
  {
  }

  lemma LossBounded(t: L.TradeRow, exitPrice: real, margin: real, lev: real, dist: real, risk: real)
    requires t.entryPrice > 0.0 && lev >= 1.0 && margin > 0.0 && t.positionSize == margin * lev / t.entryPrice
    requires WithinBudget(margin, lev, t.entryPrice, dist, risk)
    requires -Gain(t.entryPrice, exitPrice, L.DirectionOf(t.side)) <= dist
    ensures t.Unrealized(exitPrice) >= -risk
  {
    assert t.positionSize >= 0.0;
    MulMonotone(-Gain(t.entryPrice, exitPrice, L.DirectionOf(t.side)), dist, t.positionSize);
  }
}
