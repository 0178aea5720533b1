/** Where the assembly's guarantees stop: inputs outside the conditions of `SignalLaws`, and a dead parameter. */
module SignalLimits {
  import opened Common
  import opened FuturesMath
  import opened EntryGate
  import opened SignalAssembly
  import opened SignalLaws
  import L = Ledger

  const CRYPTO: RiskProfile :=
    RiskProfile(60, 60, 30, 40, 1.5, 0.25, 0.6, 2.5, 0.75, 2.3, 0.6, 3.5, 4.0, 0.015, 15.0, false)

  const COMMODITY: RiskProfile :=
    RiskProfile(240, 720, 120, 180, 2.5, 0.25, 0.6, 4.0, 1.2, 2.3, 0.6, 1.2, 4.0, 0.010, 60.0, true)

  const UNMEASURED: Measurements := Measurements(0.0, 0.0, 0.0, 0.0, "", 0.0, None)

  const NO_PARAMS: ManagedParams := ManagedParams(None, None, None, None, None)

  const CONFIG: SignalConfig := SignalConfig(2.5, 8, 0.6, 2.5, 1.5, 8.0, 0.015, 0.2)

  function Plain(dir: Direction, aiLeverage: int, params: ManagedParams): Candidate {
    Candidate("A", 100.0, 0.0, 0.0, dir, 0.0, aiLeverage, params, true, 1000.0, 1000.0, UNMEASURED)
  }

  /** Without an ATR the plain candidate's stop is the profile's widest, 2.5 percent. */
  lemma PlainStop(cfg: SignalConfig, dir: Direction, aiLeverage: int, params: ManagedParams)
    requires cfg.minStopLossPct == 0.6 && cfg.maxStopLossPct == 2.5
    ensures FinalStopPct(cfg, CRYPTO, Plain(dir, aiLeverage, params)) == 2.5
    ensures FinalStop(cfg, CRYPTO, Plain(dir, aiLeverage, params)) == if dir.Long? then 97.5 else 102.5
    ensures !StopClamped(cfg, CRYPTO, Plain(dir, aiLeverage, params))
  {
    MissingATRGivesWidestStop(100.0, dir, CRYPTO);
  }

  /**
   * The guarantees are about something: the plain candidate builds a signal, on either side, and the ledger
   * opens it.
   */
  lemma PlainSignalIsBuilt(dir: Direction)
    ensures TargetBoundsOk(CONFIG, dir) && Assemble(CONFIG, CRYPTO, Plain(dir, 1, NO_PARAMS)).Built?
    ensures var s := Assemble(CONFIG, CRYPTO, Plain(dir, 1, NO_PARAMS)).sig;
            && s.symbol == "A" && s.dir == dir && s.entryPrice == 100.0 && s.leverage == 1
            && s.stopLoss == (if dir.Long? then 97.5 else 102.5)
            && s.takeProfit1 == (if dir.Long? then 106.25 else 93.75)
            && s.allocatedCapitalUSD <= 200.0
  {
    var c := Plain(dir, 1, NO_PARAMS);
    PlainStop(CONFIG, dir, 1, c.params);
    assert FinalLevels(CONFIG, CRYPTO, c).gain1 == 6.25 && FinalLevels(CONFIG, CRYPTO, c).rr == 2.5;
    assert FinalLeverage(CONFIG, CRYPTO, c) == 1;
    assert SizedMargin(CONFIG, CRYPTO, c).Ok?;
    assert !ThinBuffer(2.5, 1, 4.0);
  }

  /** A measured ATR of one percent of entry: the stop lies 1.75 ATRs away, and the target pays 2.5 times that. */
  lemma MeasuredSignalIsBuilt(dir: Direction)
    ensures var c := Plain(dir, 1, NO_PARAMS).(natr := 0.01);
            && Assemble(CONFIG, CRYPTO, c).Built?
            && var s := Assemble(CONFIG, CRYPTO, c).sig;
               && s.atrAtEntry == 1.0
               && s.stopLoss == (if dir.Long? then 98.25 else 101.75)
               && s.takeProfit1 == (if dir.Long? then 104.375 else 95.625)
  {
    var c := Plain(dir, 1, NO_PARAMS).(natr := 0.01);
    MeasuredStopIs(dir);
    assert FinalLevels(CONFIG, CRYPTO, c).gain1 == 4.375 && FinalLevels(CONFIG, CRYPTO, c).rr == 2.5;
    assert FinalLeverage(CONFIG, CRYPTO, c) == 1;
    assert SizedMargin(CONFIG, CRYPTO, c).Ok?;
    assert !ThinBuffer(1.75, 1, 4.0);
  }

  lemma MeasuredStopIs(dir: Direction)
    ensures var c := Plain(dir, 1, NO_PARAMS).(natr := 0.01);
            && FinalStopPct(CONFIG, CRYPTO, c) == 1.75 && !StopClamped(CONFIG, CRYPTO, c)
            && FinalStop(CONFIG, CRYPTO, c) == (if dir.Long? then 98.25 else 101.75)
  {
    var c := Plain(dir, 1, NO_PARAMS).(natr := 0.01);
    assert ATRPrice(c) == 1.0;
    assert RawATRStop(100.0, 0.0, 0.0, 1.0, dir, CRYPTO) == if dir.Long? then 98.25 else 101.75;
    assert ATRStopPct(CRYPTO, c) == 1.75;
  }

  /** The same candidate under the default commodity profile, its stop clamped to the configured 2.5 percent. */
  lemma CommodityIsBuilt()
    ensures Assemble(CONFIG, COMMODITY, Plain(Long, 1, NO_PARAMS)).Built?
    ensures var s := Assemble(CONFIG, COMMODITY, Plain(Long, 1, NO_PARAMS)).sig;
            && s.symbol == "A" && s.dir == Long && s.entryPrice == 100.0 && s.leverage == 1
            && s.stopLoss == 97.5 && s.takeProfit1 == 108.0 && s.allocatedCapitalUSD <= 200.0
  {
    var c := Plain(Long, 1, NO_PARAMS);
    MissingATRGivesWidestStop(100.0, Long, COMMODITY);
    assert FinalStopPct(CONFIG, COMMODITY, c) == 2.5 && FinalStop(CONFIG, COMMODITY, c) == 97.5;
    assert FinalLevels(CONFIG, COMMODITY, c).gain1 == 8.0 && FinalLevels(CONFIG, COMMODITY, c).rr == 3.2;
    assert FinalLeverage(CONFIG, COMMODITY, c) == 1;
    assert SizedMargin(CONFIG, COMMODITY, c).Ok?;
    assert !ThinBuffer(2.5, 1, 4.0);
  }

  /** A short ships with its take-profit at zero or below, for every target bound of 100 percent or more. */
  lemma ShortNeedsBoundBelow100(maxTP: real)
    requires maxTP >= 100.0
    ensures var cfg := CONFIG.(minStopLossPct := 10.0, maxStopLossPct := 12.0, maxTakeProfitPct := maxTP);
            var c := Plain(Short, 1, NO_PARAMS.(minRR := Some(10.0)));
            && BoundsWellFormed(cfg.minTakeProfitPct, cfg.maxTakeProfitPct)
            && Assemble(cfg, CRYPTO, c).Built? && Assemble(cfg, CRYPTO, c).sig.takeProfit1 == 0.0
  {
    var cfg := CONFIG.(minStopLossPct := 10.0, maxStopLossPct := 12.0, maxTakeProfitPct := maxTP);
    var c := Plain(Short, 1, NO_PARAMS.(minRR := Some(10.0)));
    MissingATRGivesWidestStop(100.0, Short, CRYPTO);
    assert FinalStopPct(cfg, CRYPTO, c) == 10.0 && FinalStop(cfg, CRYPTO, c) == 110.0;
    assert FinalLevels(cfg, CRYPTO, c).gain1 == 100.0 && FinalLevels(cfg, CRYPTO, c).rr == 10.0;
    assert FinalLeverage(cfg, CRYPTO, c) == 1;
    assert SizedMargin(cfg, CRYPTO, c).Ok?;
    assert !ThinBuffer(10.0, 1, 4.0);
  }

  /** Every short built under the configuration has a positive first target. */
  ghost predicate ShortTargetsPositive(cfg: SignalConfig) {
    forall prof, c, s | Assemble(cfg, prof, c) == Built(s) && c.dir.Short? :: s.takeProfit1 > 0.0
  }

  /**
   * Under well-formed bounds no configuration with this upper bound ships such a short, exactly when it is below
   * 100.
   */
  lemma ShortTargetsPositiveIff(maxTP: real)
    ensures (forall cfg: SignalConfig |
               BoundsWellFormed(cfg.minTakeProfitPct, cfg.maxTakeProfitPct) && cfg.maxTakeProfitPct == maxTP ::
               ShortTargetsPositive(cfg)) <==> maxTP < 100.0
  {
    if maxTP < 100.0 {
      forall cfg: SignalConfig, prof, c, s
        | BoundsWellFormed(cfg.minTakeProfitPct, cfg.maxTakeProfitPct) && cfg.maxTakeProfitPct == maxTP
          && Assemble(cfg, prof, c) == Built(s) && c.dir.Short?
        ensures s.takeProfit1 > 0.0
      {
        hide Assemble;
        BuiltSignalIsSound(cfg, prof, c, s);
      }
    } else {
      var cfg := CONFIG.(minStopLossPct := 10.0, maxStopLossPct := 12.0, maxTakeProfitPct := maxTP);
      var c := Plain(Short, 1, NO_PARAMS.(minRR := Some(10.0)));
      ShortNeedsBoundBelow100(maxTP);
      hide Assemble;
      assert Assemble(cfg, CRYPTO, c) == Built(Assemble(cfg, CRYPTO, c).sig);
      assert !ShortTargetsPositive(cfg);
    }
  }

  // ---------------------------------------------------------------- leverage

  /** Where the registry's leverage comes from: a validated override, or the core's whole-number answer. */
  datatype LeverageSetting = Override(leverage: int) | Answered(raw: int)

  predicate Accepted(x: LeverageSetting) {
    x.Override? ==> 1 <= x.leverage <= 125
  }

  function RegistryLeverage(x: LeverageSetting): int {
    match x
    case Override(leverage) => leverage
    case Answered(raw) => if raw < 1 then 1 else if raw > 12 then 12 else raw
  }

  /** A parameter record the registry emits: with a leverage of its own, or with none at all. */
  ghost predicate FromRegistry(p: ManagedParams) {
    p.leverage.None? || exists x :: Accepted(x) && p.leverage == Some(RegistryLeverage(x) as real)
  }

  /**
   * Whatever the decision and the measurements, a record of the registry ships a leverage of at least 1,
   * the service's constructor having replaced a missing default by 8.
   */
  lemma RegistryLeverageSound(cfg: SignalConfig, prof: RiskProfile, c: Candidate, provided: int)
    requires c.entryPrice > 0.0 && FromRegistry(c.params)
    requires cfg.defaultLeverage == if provided > 0 then provided else 8
    ensures FinalLeverage(cfg, prof, c) >= 1
  {
    LeverageAtLeastOneIff(cfg, prof, c);
  }

  /**
   * A record the model wrote itself can carry a fraction: it truncates to zero and, with no volatility
   * measured, caps the decision's own leverage of 1.
   */
  lemma LeverageCanBeZero()
    ensures var c := Plain(Long, 1, NO_PARAMS.(leverage := Some(0.5)));
            Assemble(CONFIG, CRYPTO, c).Built? && Assemble(CONFIG, CRYPTO, c).sig.leverage == 0
  {
    var c := Plain(Long, 1, NO_PARAMS.(leverage := Some(0.5)));
    PlainStop(CONFIG, Long, 1, c.params);
    assert FinalLevels(CONFIG, CRYPTO, c).gain1 == 6.25 && FinalLevels(CONFIG, CRYPTO, c).rr == 2.5;
    assert FinalLeverage(CONFIG, CRYPTO, c) == 0;
    assert SizedMargin(CONFIG, CRYPTO, c).Ok?;
    assert !ThinBuffer(2.5, 0, 4.0);
  }

  /**
   * Such a signal whose stop lies beyond 99.5 percent is liquidated before it, as the engine holds it at
   * leverage 1: at 0.4 the price has passed the liquidation level but not the stop.
   */
  lemma LiquidationHappens(l: L.Ledger)
    ensures var cfg := CONFIG.(minStopLossPct := 99.7, maxStopLossPct := 99.7, maxTakeProfitPct := 300.0);
            var outcome := Assemble(cfg, CRYPTO, Plain(Long, 1, NO_PARAMS.(leverage := Some(0.5))));
            && outcome.Built? && outcome.sig.leverage == 0
            && L.ExitTrigger(L.SignalTrade(l, OrderOf(outcome.sig)), 0.4) == Some("LIQUIDATION")
  {
    var cfg := CONFIG.(minStopLossPct := 99.7, maxStopLossPct := 99.7, maxTakeProfitPct := 300.0);
    var c := Plain(Long, 1, NO_PARAMS.(leverage := Some(0.5)));
    MissingATRGivesWidestStop(100.0, Long, CRYPTO);
    assert FinalStopPct(cfg, CRYPTO, c) == 99.7 && FinalStop(cfg, CRYPTO, c) == 0.3;
    assert FinalLevels(cfg, CRYPTO, c).gain1 == 249.25 && FinalLevels(cfg, CRYPTO, c).rr == 2.5;
    assert FinalLeverage(cfg, CRYPTO, c) == 0;
    assert SizedMargin(cfg, CRYPTO, c).Ok?;
    assert !ThinBuffer(99.7, 0, 4.0);
  }

  // ----------------------------------------------------------- malformed bounds

  /** Only malformed target bounds while a configured bound moves the stop reach the write into the nil clamp map. */
  lemma PanicNeedsMalformedBounds(cfg: SignalConfig, prof: RiskProfile, c: Candidate)
    ensures Assemble(cfg, prof, c).Panicked? ==>
              !BoundsWellFormed(cfg.minTakeProfitPct, cfg.maxTakeProfitPct) && c.entryPrice > 0.0
                && StopClamped(cfg, prof, c)
  {
    hide FinalStopPct, FinalLevels, FinalLeverage, SizedMargin, EvaluateEntryGate, MaxRisk, SignalOf, EffectiveMinRR,
      StopClamped;
  }

  /** Every sized candidate under malformed bounds whose stop was moved reaches it, and no other sized one does. */
  lemma PanicsIff(cfg: SignalConfig, prof: RiskProfile, c: Candidate)
    requires Sized(cfg, prof, c)
    ensures Assemble(cfg, prof, c).Panicked? <==>
            !BoundsWellFormed(cfg.minTakeProfitPct, cfg.maxTakeProfitPct) && StopClamped(cfg, prof, c)
  {
    hide FinalStopPct, FinalLevels, FinalLeverage, SizedMargin, EvaluateEntryGate, MaxRisk, SignalOf, EffectiveMinRR,
      StopClamped;
  }

  /** For every malformed pair of bounds some setting does it. */
  lemma MalformedBoundsCanPanic(minTP: real, maxTP: real)
    requires !BoundsWellFormed(minTP, maxTP)
    ensures var cfg := CONFIG.(minTakeProfitPct := minTP, maxTakeProfitPct := maxTP, maxStopLossPct := 2.0);
            Assemble(cfg, CRYPTO, Plain(Long, 1, NO_PARAMS)).Panicked?
  {
    var cfg := CONFIG.(minTakeProfitPct := minTP, maxTakeProfitPct := maxTP, maxStopLossPct := 2.0);
    var c := Plain(Long, 1, NO_PARAMS);
    MissingATRGivesWidestStop(100.0, Long, CRYPTO);
    assert WidenedStopPct(CRYPTO, c) == 2.5;
    assert FinalStop(cfg, CRYPTO, c) == 98.0;
    assert SizedMargin(cfg, CRYPTO, c).Ok?;
  }

  /** Profiles that differ in the stop multiple only, as two settings of the managed regime make them. */
  predicate SameButStop(p: RiskProfile, q: RiskProfile) {
    p == q.(slAtrMult := p.slAtrMult)
  }

  lemma TunedSameButStop(prof: RiskProfile, p: ManagedParams, regime: ATRRegime, other: Option<real>)
    requires p.atrRegime == Some(regime)
    ensures SameButStop(Tuned(prof, p), Tuned(prof, p.(atrRegime := Some(regime.(slAtrMult := other)))))
  {
  }

  ghost predicate SameButRegime(c: Candidate, c': Candidate) {
    c.entryPrice > 0.0 && c' == c.(params := c.params.(atrRegime := c'.params.atrRegime))
  }

  lemma StopIgnoresRegime(cfg: SignalConfig, prof: RiskProfile, c: Candidate, c': Candidate)
    requires SameButRegime(c, c')
    ensures ATRStopPct(prof, c) == ATRStopPct(prof, c')
    ensures FinalStopPct(cfg, prof, c) == FinalStopPct(cfg, prof, c')
            && FinalStop(cfg, prof, c) == FinalStop(cfg, prof, c')
    ensures StopClamped(cfg, prof, c) == StopClamped(cfg, prof, c')
  {
    hide CalculateATRStopPct, StopAt;
    assert ATRPrice(c) == ATRPrice(c');
  }

  lemma LeverageIgnoresStopMultiple(cfg: SignalConfig, prof: RiskProfile, c: Candidate, c': Candidate)
    requires SameButRegime(c, c') && SameButStop(Tuned(prof, c.params), Tuned(prof, c'.params))
    ensures FinalLeverage(cfg, prof, c) == FinalLeverage(cfg, prof, c')
  {
    hide Tuned, FinalStopPct, SafeLeverage, CalculateVolTargetLeverage;
    var p, q := Tuned(prof, c.params), Tuned(prof, c'.params);
    StopIgnoresRegime(cfg, prof, c, c');
    VolTargetIgnoresStopMultiple(c.natr * 100.0, EffectiveDefaultLeverage(cfg, c.params), p, q);
    SafeLeverageReadsBufferOnly(c.entryPrice, FinalStopPct(cfg, prof, c), RequestedLeverage(cfg, p, c), c.dir, p, q);
  }

  lemma VolTargetIgnoresStopMultiple(natrPct: real, maxLeverage: int, p: RiskProfile, q: RiskProfile)
    requires SameButStop(p, q)
    ensures CalculateVolTargetLeverage(natrPct, maxLeverage, p) == CalculateVolTargetLeverage(natrPct, maxLeverage, q)
  {
  }

  lemma GainsIgnoreStopMultiple(entry: real, atr: real, p: RiskProfile, q: RiskProfile, minReward: real)
    requires SameButStop(p, q)
    ensures GainsFrom(entry, atr, p, minReward) == GainsFrom(entry, atr, q, minReward)
  {
    assert p.tp1AtrMult * atr == q.tp1AtrMult * atr && p.tp2AtrMult * atr == q.tp2AtrMult * atr;
    assert Pct(entry, p.slMinPct) == Pct(entry, q.slMinPct);
    var g, h := GainsFrom(entry, atr, p, minReward), GainsFrom(entry, atr, q, minReward);
    assert g.0 == h.0 && g.1 == h.1;
  }

  lemma LevelsIgnoreStopMultiple(cfg: SignalConfig, prof: RiskProfile, c: Candidate, c': Candidate)
    requires SameButRegime(c, c') && SameButStop(Tuned(prof, c.params), Tuned(prof, c'.params))
    ensures FinalLevels(cfg, prof, c) == FinalLevels(cfg, prof, c')
  {
    hide Tuned, FinalStopPct, FinalStop, ATRStopPct, LevelsFrom, StopAt, GainsFrom;
    StopIgnoresRegime(cfg, prof, c, c');
    assert MinReward(cfg, prof, c) == MinReward(cfg, prof, c');
    GainsIgnoreStopMultiple(c.entryPrice, ATRPrice(c), Tuned(prof, c.params), Tuned(prof, c'.params),
                            MinReward(cfg, prof, c));
    assert StagedGains(cfg, prof, c') == StagedGains(cfg, prof, c);
  }

  lemma SizingIgnoresRegime(cfg: SignalConfig, prof: RiskProfile, c: Candidate, c': Candidate)
    requires SameButRegime(c, c') && FinalLeverage(cfg, prof, c) == FinalLeverage(cfg, prof, c')
    ensures ConfluenceTooLow(c) == ConfluenceTooLow(c')
    ensures MaxRisk(cfg, prof, c.params) == MaxRisk(cfg, prof, c'.params)
    ensures MaxRisk(cfg, prof, c.params) > 0.0 ==> SizedMargin(cfg, prof, c) == SizedMargin(cfg, prof, c')
  {
    StopIgnoresRegime(cfg, prof, c, c');
    hide FinalStop, FinalLeverage, FinalStopPct, StopClamped, CalculatePositionSizingWithSlippage;
  }

  lemma FinishIgnoresStopMultiple(cfg: SignalConfig, prof: RiskProfile, c: Candidate, c': Candidate, sizing: Sizing)
    requires SameButRegime(c, c') && c.totalEquity > 0.0
    requires FinalLeverage(cfg, prof, c) == FinalLeverage(cfg, prof, c')
    requires FinalLevels(cfg, prof, c) == FinalLevels(cfg, prof, c')
    ensures Finish(cfg, prof, c, sizing) == Finish(cfg, prof, c', sizing)
  {
    StopIgnoresRegime(cfg, prof, c, c');
    CapIgnoresRegime(cfg, c, c');
    SignalIgnoresStopMultiple(cfg, prof, c, c', sizing);
    hide FinalStop, FinalLevels, FinalLeverage, FinalStopPct, StopClamped, EvaluateEntryGate, SignalOf,
      MarginCap, ATRPrice;
  }

  lemma SignalIgnoresStopMultiple(cfg: SignalConfig, prof: RiskProfile, c: Candidate, c': Candidate, sizing: Sizing)
    requires SameButRegime(c, c') && c.totalEquity > 0.0
    requires FinalStop(cfg, prof, c) == FinalStop(cfg, prof, c')
    requires FinalLeverage(cfg, prof, c) == FinalLeverage(cfg, prof, c')
    requires FinalLevels(cfg, prof, c) == FinalLevels(cfg, prof, c')
    ensures SignalOf(cfg, prof, c, sizing) == SignalOf(cfg, prof, c', sizing)
  {
    CapIgnoresRegime(cfg, c, c');
    hide FinalStop, FinalLevels, FinalLeverage, PriceAt, PercentOf, Min, MarginCap, ATRPrice;
  }

  lemma CapIgnoresRegime(cfg: SignalConfig, c: Candidate, c': Candidate)
    requires SameButRegime(c, c')
    ensures MarginCap(cfg, c) == MarginCap(cfg, c') && ATRPrice(c) == ATRPrice(c')
    ensures EffectiveMinRR(cfg, c.params) == EffectiveMinRR(cfg, c'.params)
  {
  }

  /** The managed stop multiple never reaches the stop, which is computed before the regime is applied. */
  lemma ManagedStopMultipleIsDead(cfg: SignalConfig, prof: RiskProfile, c: Candidate, regime: ATRRegime,
                                  other: Option<real>)
    requires c.params.atrRegime == Some(regime)
    ensures Assemble(cfg, prof, c) ==
            Assemble(cfg, prof, c.(params := c.params.(atrRegime := Some(regime.(slAtrMult := other)))))
  {
    hide Tuned, FinalLevels, FinalLeverage, MaxRisk, SizedMargin, ConfluenceTooLow, Finish, SameButStop,
      RiskProfile.Valid;
    var c' := c.(params := c.params.(atrRegime := Some(regime.(slAtrMult := other))));
    if c.entryPrice > 0.0 {
      TunedSameButStop(prof, c.params, regime, other);
      LeverageIgnoresStopMultiple(cfg, prof, c, c');
      LevelsIgnoreStopMultiple(cfg, prof, c, c');
      SizingIgnoresRegime(cfg, prof, c, c');
      if c.totalEquity > 0.0 && MaxRisk(cfg, prof, c.params) > 0.0 && SizedMargin(cfg, prof, c).Ok? {
        FinishIgnoresStopMultiple(cfg, prof, c, c', SizedMargin(cfg, prof, c).value);
      }
    }
  }

  lemma {:induction false} SafeLeverageReadsBufferOnly(entry: real, slPct: real, lev: int, dir: Direction,
                                                       p: RiskProfile, q: RiskProfile)
    requires p.liqBufferMin == q.liqBufferMin
    ensures SafeLeverage(entry, slPct, lev, dir, p) == SafeLeverage(entry, slPct, lev, dir, q)
    decreases lev
  {
    if lev > 1 {
      SafeLeverageReadsBufferOnly(entry, slPct, lev - 1, dir, p, q);
    }
  }
}
