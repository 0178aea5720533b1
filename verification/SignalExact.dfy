/** The levels, leverage and margin of every built signal, each as plain arithmetic on what went in. */
module SignalExact {
  import opened Common
  import opened FuturesMath
  import opened EntryGate
  import opened SignalAssembly
  import opened SignalLaws

  // -------------------------------------------------------------------- stop

  /** The distance of a measured ATR stop, in percent of entry; below zero the swing offset is left out. */
  function ATRDistance(prof: RiskProfile, natr: real, dir: Direction): real {
    if dir.Long? && prof.slAtrMult * natr >= 1.0 then prof.slAtrMult * natr * 100.0
    else Abs(prof.slAtrMult + prof.slSwingOffset) * natr * 100.0
  }

  lemma PercentOfEntry(entry: real, natr: real, m: real)
    requires entry > 0.0
    ensures m * (natr * entry) / entry * 100.0 == m * natr * 100.0
  {
    assert m * (natr * entry) == (m * natr) * entry;
    MulDivCancel(m * natr, entry);
  }

  lemma AbsTimes(m: real, x: real)
    requires x >= 0.0
    ensures Abs(m * x) == Abs(m) * x
  {
  }

  /** The price distance before the clamp. */
  function RawDistance(prof: RiskProfile, c: Candidate): real {
    Abs(c.entryPrice - RawATRStop(c.entryPrice, 0.0, 0.0, ATRPrice(c), c.dir, prof))
  }

  lemma RawDistanceIs(prof: RiskProfile, c: Candidate, atr: real, reach: real, offset: real)
    requires c.entryPrice > 0.0 && c.natr > 0.0 && prof.Valid() && atr == c.natr * c.entryPrice
    requires reach == prof.slAtrMult * atr && offset == prof.slSwingOffset * atr
    ensures RawDistance(prof, c) == if c.dir.Long? && reach >= c.entryPrice then reach else Abs(reach + offset)
  {
    ProductPositive(c.natr, c.entryPrice);
    ProductPositive(prof.slAtrMult, atr);
    assert prof.slAtrMult > 0.0;
    RawOfATR(prof, c, atr);
    hide *;
    RawStopIs(c.entryPrice, atr, c.dir, prof, reach, offset);
  }

  lemma RawOfATR(prof: RiskProfile, c: Candidate, atr: real)
    requires c.natr > 0.0 && atr == c.natr * c.entryPrice
    ensures RawDistance(prof, c) == Abs(c.entryPrice - RawATRStop(c.entryPrice, 0.0, 0.0, atr, c.dir, prof))
  {
    assert ATRPrice(c) == atr;
    hide RawATRStop, Abs, ATRPrice;
  }

  lemma ProductPositive(a: real, b: real)
    requires a > 0.0 && b > 0.0
    ensures a * b > 0.0
  {
  }

  lemma RawStopIs(entry: real, atr: real, dir: Direction, prof: RiskProfile, reach: real, offset: real)
    requires entry > 0.0 && atr > 0.0 && reach > 0.0
    requires reach == prof.slAtrMult * atr && offset == prof.slSwingOffset * atr
    ensures Abs(entry - RawATRStop(entry, 0.0, 0.0, atr, dir, prof)) ==
            if dir.Long? && reach >= entry then reach else Abs(reach + offset)
  {
  }

  lemma DistanceInPercent(entry: real, natr: real, atr: real, m: real, o: real, reach: real, offset: real)
    requires entry > 0.0 && natr > 0.0 && atr == natr * entry
    requires reach == m * atr && offset == o * atr
    ensures reach / entry * 100.0 == m * natr * 100.0
    ensures Abs(reach + offset) / entry * 100.0 == Abs(m + o) * natr * 100.0
    ensures reach >= entry <==> m * natr >= 1.0
  {
    ProductPositive(natr, entry);
    PercentOfEntry(entry, natr, m);
    PercentOfEntry(entry, natr, Abs(m + o));
    SumOfProducts(m, o, atr);
    ScaledPastOne(m, natr, entry);
  }

  lemma SumOfProducts(m: real, o: real, x: real)
    requires x > 0.0
    ensures Abs(m * x + o * x) == Abs(m + o) * x
  {
    assert m * x + o * x == (m + o) * x;
    AbsTimes(m + o, x);
  }

  lemma ScaledPastOne(m: real, natr: real, entry: real)
    requires entry > 0.0
    ensures m * (natr * entry) >= entry <==> m * natr >= 1.0
  {
    var k := m * natr;
    assert m * (natr * entry) == k * entry;
    if k >= 1.0 { MulMonotone(1.0, k, entry); } else { assert (1.0 - k) * entry > 0.0; }
  }

  /** A measured ATR puts the stop at that distance, clamped to the profile's band. */
  lemma MeasuredStop(prof: RiskProfile, c: Candidate)
    requires c.entryPrice > 0.0 && c.natr > 0.0 && prof.Valid()
    ensures var d, p := ATRDistance(prof, c.natr, c.dir), ATRStopPct(prof, c);
            && (prof.slMinPct <= d <= prof.slMaxPct ==> p == d)
            && (d < prof.slMinPct ==> p == prof.slMinPct)
            && (d > prof.slMaxPct ==> p == prof.slMaxPct)
  {
    hide *;
    ClampedRaw(prof, c);
    RawInPercent(prof, c, c.natr * c.entryPrice);
    ClampIs(ATRDistance(prof, c.natr, c.dir), prof);
  }

  lemma RawInPercent(prof: RiskProfile, c: Candidate, atr: real)
    requires c.entryPrice > 0.0 && c.natr > 0.0 && prof.Valid() && atr == c.natr * c.entryPrice
    ensures RawDistance(prof, c) / c.entryPrice * 100.0 == ATRDistance(prof, c.natr, c.dir)
  {
    hide *;
    var reach, offset := prof.slAtrMult * atr, prof.slSwingOffset * atr;
    RawDistanceIs(prof, c, atr, reach, offset);
    DistanceIs(prof, c.natr, c.dir);
    DistanceInPercent(c.entryPrice, c.natr, atr, prof.slAtrMult, prof.slSwingOffset, reach, offset);
  }

  lemma ClampedRaw(prof: RiskProfile, c: Candidate)
    requires c.entryPrice > 0.0
    ensures ATRStopPct(prof, c) == Min(Max(RawDistance(prof, c) / c.entryPrice * 100.0, prof.slMinPct), prof.slMaxPct)
  {
  }

  lemma ClampIs(d: real, prof: RiskProfile)
    requires prof.Valid()
    ensures var p := Min(Max(d, prof.slMinPct), prof.slMaxPct);
            && (prof.slMinPct <= d <= prof.slMaxPct ==> p == d)
            && (d < prof.slMinPct ==> p == prof.slMinPct)
            && (d > prof.slMaxPct ==> p == prof.slMaxPct)
  {
  }

  lemma DistanceIs(prof: RiskProfile, natr: real, dir: Direction)
    ensures ATRDistance(prof, natr, dir) ==
            if dir.Long? && prof.slAtrMult * natr >= 1.0 then prof.slAtrMult * natr * 100.0
            else Abs(prof.slAtrMult + prof.slSwingOffset) * natr * 100.0
  {
  }

  /**
   * The stop of every built signal with a measured ATR, in percent of entry: the ATR distance clamped to
   * the profile's band; the AI's own stop where that widens it inside the band; and the configured
   * bounds over both, the upper one last. Where none of them interferes it is the ATR distance itself.
   */
  lemma BuiltStopIs(cfg: SignalConfig, prof: RiskProfile, c: Candidate, s: FuturesSignal, p: real)
    requires Assemble(cfg, prof, c) == Built(s) && c.natr > 0.0
    requires p == Abs(s.entryPrice - s.stopLoss) / s.entryPrice * 100.0
    ensures s.atrAtEntry == c.natr * s.entryPrice
    ensures if s.dir.Long? then s.stopLoss < s.entryPrice else s.stopLoss > s.entryPrice
    ensures BoundedStop(cfg, WideStop(prof, c), p)
  {
    hide *;
    BuiltStop(cfg, prof, c, s);
    BuiltFacts(cfg, prof, c, s);
    SizedIsValid(cfg, prof, c);
    StopSide(s.entryPrice, FinalStopPct(cfg, prof, c), s.dir);
    GainSide(s.entryPrice, s.stopLoss, s.dir);
    PercentBack(s.entryPrice, FinalStopPct(cfg, prof, c));
    AtrRecorded(cfg, prof, c, SizedMargin(cfg, prof, c).value);
    FinalStopIs(cfg, prof, c);
  }

  lemma GainSide(entry: real, price: real, dir: Direction)
    requires Gain(entry, price, dir) < 0.0
    ensures if dir.Long? then price < entry else price > entry
  {
  }

  lemma FinalStopIs(cfg: SignalConfig, prof: RiskProfile, c: Candidate)
    requires c.entryPrice > 0.0 && c.natr > 0.0 && prof.Valid()
    ensures BoundedStop(cfg, WideStop(prof, c), FinalStopPct(cfg, prof, c))
  {
    MeasuredStop(prof, c);
    hide ATRStopPct, ATRDistance;
  }

  /** The ATR distance inside the profile's band, or the AI's stop where that is wider and still inside. */
  function WideStop(prof: RiskProfile, c: Candidate): real {
    var d := ATRDistance(prof, c.natr, c.dir);
    var band := if d < prof.slMinPct then prof.slMinPct else if d > prof.slMaxPct then prof.slMaxPct else d;
    if band < c.aiStopPct && c.aiStopPct <= prof.slMaxPct then c.aiStopPct else band
  }

  /** `p` is `wide` where the configured bounds allow it, else the bound it breaks, the upper one last. */
  predicate BoundedStop(cfg: SignalConfig, wide: real, p: real) {
    if cfg.maxStopLossPct > 0.0 && wide > cfg.maxStopLossPct then p == cfg.maxStopLossPct
    else if cfg.minStopLossPct > 0.0 && wide < cfg.minStopLossPct then
      p == if 0.0 < cfg.maxStopLossPct < cfg.minStopLossPct then cfg.maxStopLossPct else cfg.minStopLossPct
    else p == wide
  }

  lemma SizedIsValid(cfg: SignalConfig, prof: RiskProfile, c: Candidate)
    requires Sized(cfg, prof, c)
    ensures prof.Valid() && c.entryPrice > 0.0 && c.totalEquity > 0.0 && c.availableCapital > 0.0
    ensures SizedMargin(cfg, prof, c).Ok?
  {
  }

  lemma AtrRecorded(cfg: SignalConfig, prof: RiskProfile, c: Candidate, sizing: Sizing)
    requires c.entryPrice > 0.0 && c.totalEquity > 0.0
    ensures SignalOf(cfg, prof, c, sizing).atrAtEntry == if c.natr > 0.0 then c.natr * c.entryPrice else 0.0
  {
    hide FinalLevels, FinalStop, FinalLeverage, MarginCap;
  }

  lemma PercentBack(entry: real, p: real)
    requires entry > 0.0
    ensures Pct(entry, p) / entry * 100.0 == p
  {
    assert entry * p / 100.0 / entry == p / 100.0;
  }

  /** In price: undisturbed, the stop lies the profile's multiple plus its swing offset of ATRs away. */
  lemma BuiltStopInATRs(cfg: SignalConfig, prof: RiskProfile, c: Candidate, s: FuturesSignal)
    requires Assemble(cfg, prof, c) == Built(s) && c.natr > 0.0 && (c.dir.Long? ==> prof.slAtrMult * c.natr < 1.0)
    requires var d := Abs(prof.slAtrMult + prof.slSwingOffset) * c.natr * 100.0;
             && prof.slMinPct <= d <= prof.slMaxPct && !(d < c.aiStopPct <= prof.slMaxPct)
             && (cfg.minStopLossPct <= 0.0 || d >= cfg.minStopLossPct)
             && (cfg.maxStopLossPct <= 0.0 || d <= cfg.maxStopLossPct)
    ensures Abs(s.entryPrice - s.stopLoss) == Abs(prof.slAtrMult + prof.slSwingOffset) * s.atrAtEntry
  {
    hide *;
    var dist, m := Abs(s.entryPrice - s.stopLoss), Abs(prof.slAtrMult + prof.slSwingOffset);
    BuiltStop(cfg, prof, c, s);
    UndisturbedWide(prof, c);
    UndisturbedStop(cfg, WideStop(prof, c), dist / s.entryPrice * 100.0);
    BuiltStopIs(cfg, prof, c, s, dist / s.entryPrice * 100.0);
    BackToPrice(s.entryPrice, dist, m, c.natr);
  }

  lemma UndisturbedWide(prof: RiskProfile, c: Candidate)
    requires c.dir.Long? ==> prof.slAtrMult * c.natr < 1.0
    requires var d := Abs(prof.slAtrMult + prof.slSwingOffset) * c.natr * 100.0;
             prof.slMinPct <= d <= prof.slMaxPct && !(d < c.aiStopPct <= prof.slMaxPct)
    ensures WideStop(prof, c) == Abs(prof.slAtrMult + prof.slSwingOffset) * c.natr * 100.0
  {
    DistanceIs(prof, c.natr, c.dir);
    hide ATRDistance, Abs;
  }

  lemma UndisturbedStop(cfg: SignalConfig, wide: real, p: real)
    requires cfg.minStopLossPct <= 0.0 || wide >= cfg.minStopLossPct
    requires cfg.maxStopLossPct <= 0.0 || wide <= cfg.maxStopLossPct
    ensures BoundedStop(cfg, wide, p) <==> p == wide
  {
  }

  lemma BackToPrice(entry: real, dist: real, m: real, natr: real)
    requires entry > 0.0 && dist / entry * 100.0 == m * natr * 100.0
    ensures dist == m * (natr * entry)
  {
    assert dist / entry == m * natr;
    assert dist == (dist / entry) * entry;
  }

  // ----------------------------------------------------------------- targets

  /** Target multiples in force: a managed second one takes the first along in the profile's proportion. */
  function Multiples(prof: RiskProfile, p: ManagedParams): (real, real) {
    if p.atrRegime.Some? && p.atrRegime.value.tpAtrMult.Some? && p.atrRegime.value.tpAtrMult.value > 0.0 then
      var m := p.atrRegime.value.tpAtrMult.value;
      (m * (if prof.tp2AtrMult > 0.0 then prof.tp1AtrMult / prof.tp2AtrMult else 0.33), m)
    else (prof.tp1AtrMult, prof.tp2AtrMult)
  }

  function MinRatio(cfg: SignalConfig, p: ManagedParams): real {
    if p.minRR.Some? && p.minRR.value > 0.0 then p.minRR.value else cfg.minRiskRewardRatio
  }

  /**
   * What the staging aims for: ATR multiples; without a measurement the profile's minimum stop and twice
   * that, or the minimum ratio (and half as much again) on its widest stop, whichever is more.
   */
  ghost predicate Staged(cfg: SignalConfig, prof: RiskProfile, c: Candidate, g1: real, g2: real) {
    if c.natr > 0.0 then
      var m := Multiples(prof, c.params);
      g1 == m.0 * (c.natr * c.entryPrice) && g2 == m.1 * (c.natr * c.entryPrice)
    else
      var widest := if prof.slMaxPct <= 100.0 then prof.slMaxPct else Max(100.0, prof.slMinPct);
      var least := MinRatio(cfg, c.params) * Pct(c.entryPrice, widest);
      && g1 == Max(Pct(c.entryPrice, prof.slMinPct), least)
      && g2 == Max(2.0 * Pct(c.entryPrice, prof.slMinPct), 1.5 * least)
  }

  lemma StagedIs(cfg: SignalConfig, prof: RiskProfile, c: Candidate)
    requires c.entryPrice > 0.0 && prof.Valid()
    ensures Staged(cfg, prof, c, StagedGains(cfg, prof, c).0, StagedGains(cfg, prof, c).1)
  {
    if c.natr > 0.0 {
      StagedWithATR(cfg, prof, c);
    } else {
      StagedWithout(cfg, prof, c);
    }
  }

  lemma StagedWithATR(cfg: SignalConfig, prof: RiskProfile, c: Candidate)
    requires c.entryPrice > 0.0 && c.natr > 0.0
    ensures Staged(cfg, prof, c, StagedGains(cfg, prof, c).0, StagedGains(cfg, prof, c).1)
  {
    assert c.natr * c.entryPrice > 0.0;
    TunedTargets(prof, c.params);
    hide MinReward, Multiples, Tuned;
  }

  lemma TunedTargets(prof: RiskProfile, p: ManagedParams)
    ensures Multiples(prof, p) == (Tuned(prof, p).tp1AtrMult, Tuned(prof, p).tp2AtrMult)
    ensures Tuned(prof, p).slMinPct == prof.slMinPct
  {
  }

  lemma StagedWithout(cfg: SignalConfig, prof: RiskProfile, c: Candidate)
    requires c.entryPrice > 0.0 && prof.Valid() && c.natr <= 0.0
    ensures Staged(cfg, prof, c, StagedGains(cfg, prof, c).0, StagedGains(cfg, prof, c).1)
  {
    MissingATRGivesWidestStop(c.entryPrice, c.dir, prof);
    var widest := if prof.slMaxPct <= 100.0 then prof.slMaxPct else Max(100.0, prof.slMinPct);
    assert ATRStopPct(prof, c) == widest > 0.0 by { hide CalculateATRStopPct; }
    StopSide(c.entryPrice, widest, c.dir);
    TunedTargets(prof, c.params);
    RewardIs(cfg, prof, c, widest);
    hide ATRStopPct, CalculateATRStopPct, Pct, MinReward, StopAt, Tuned, MinRatio;
  }

  lemma RewardIs(cfg: SignalConfig, prof: RiskProfile, c: Candidate, p: real)
    requires c.entryPrice > 0.0 && ATRStopPct(prof, c) == p > 0.0
    ensures MinReward(cfg, prof, c) == MinRatio(cfg, c.params) * Pct(c.entryPrice, p)
  {
    StopSide(c.entryPrice, p, c.dir);
    hide ATRStopPct, Pct, StopAt, Abs;
  }

  /** The staged gain where it pays the minimum ratio, else what does; a short cannot gain its whole price. */
  function Floored(entry: real, g: real, dir: Direction, least: real): real {
    if (dir.Short? && g >= entry) || g < least then least else g
  }

  lemma FlooredIs(entry: real, stop: real, g: real, dir: Direction, minRR: real, risk: real, least: real)
    requires entry > 0.0 && stop > 0.0 && risk > 0.0 && Gain(entry, stop, dir) == -risk && g > 0.0
    requires least == minRR * risk
    ensures FlooredGain(entry, stop, g, dir, minRR).0 == Floored(entry, g, dir, least)
  {
    assert Abs(entry - stop) == risk;
    if dir.Long? || g < entry {
      assert Abs(PriceAt(entry, g, dir) - entry) == g;
      RatioAtLeast(g, risk, minRR);
    }
  }

  function Bounded(x: real, lo: real, hi: real): real {
    if x < lo then lo else if x > hi then hi else x
  }

  /**
   * The targets of every built signal under usable bounds: the first is the staged gain, floored at the
   * minimum ratio on the final risk, within the configured bounds; the runner is its own staged gain
   * within them where that lies beyond, else twice the first where that is allowed, else none.
   */
  lemma BuiltTargetsAre(cfg: SignalConfig, prof: RiskProfile, c: Candidate, s: FuturesSignal, g1: real, g2: real,
                        least: real)
    requires Assemble(cfg, prof, c) == Built(s) && TargetBoundsOk(cfg, c.dir) && Staged(cfg, prof, c, g1, g2)
    requires least == MinRatio(cfg, c.params) * Abs(s.entryPrice - s.stopLoss)
    ensures s.entryPrice == c.entryPrice > 0.0
    ensures var lo, hi := Pct(s.entryPrice, cfg.minTakeProfitPct), Pct(s.entryPrice, cfg.maxTakeProfitPct);
            var first, second := Bounded(Floored(s.entryPrice, g1, s.dir, least), lo, hi), Bounded(g2, lo, hi);
            && Gain(s.entryPrice, s.takeProfit1, s.dir) == first
            && (second > first ==> s.takeProfit2.Some? && Gain(s.entryPrice, s.takeProfit2.value, s.dir) == second)
            && (second <= first && 2.0 * first <= hi ==>
                  s.takeProfit2.Some? && Gain(s.entryPrice, s.takeProfit2.value, s.dir) == 2.0 * first)
            && (second <= first && 2.0 * first > hi ==> s.takeProfit2.None?)
  {
    hide *;
    BuiltStop(cfg, prof, c, s);
    BuiltFacts(cfg, prof, c, s);
    SizedIsValid(cfg, prof, c);
    SignalFields(cfg, prof, c, SizedMargin(cfg, prof, c).value);
    var p := FinalStopPct(cfg, prof, c);
    StopSide(s.entryPrice, p, s.dir);
    var risk := Abs(s.entryPrice - s.stopLoss);
    StagedIs(cfg, prof, c);
    StagedUnique(cfg, prof, c, g1, g2);
    StagedPositive(cfg, prof, c);
    FlooredIs(s.entryPrice, s.stopLoss, g1, s.dir, MinRatio(cfg, c.params), risk, least);
    LevelsAre(cfg, prof, c, g1, g2);
    var lv := FinalLevels(cfg, prof, c);
    var floored := Floored(s.entryPrice, g1, s.dir, least);
    assert FlooredGain(c.entryPrice, FinalStop(cfg, prof, c), g1, c.dir, MinRatio(cfg, c.params)).0 == floored;
    var lo, hi := Pct(s.entryPrice, cfg.minTakeProfitPct), Pct(s.entryPrice, cfg.maxTakeProfitPct);
    assert lv.gain1 == Bounded(floored, lo, hi);
    GainOfPrice(s.entryPrice, lv.gain1, s.dir);
    assert Gain(s.entryPrice, s.takeProfit1, s.dir) == lv.gain1;
    if lv.gain2.Some? {
      GainOfPrice(s.entryPrice, lv.gain2.value, s.dir);
    }
  }

  lemma StagedUnique(cfg: SignalConfig, prof: RiskProfile, c: Candidate, g1: real, g2: real)
    requires c.entryPrice > 0.0
    requires Staged(cfg, prof, c, g1, g2)
    requires Staged(cfg, prof, c, StagedGains(cfg, prof, c).0, StagedGains(cfg, prof, c).1)
    ensures StagedGains(cfg, prof, c) == (g1, g2)
  {
    hide StagedGains, Pct, Multiples, MinRatio;
  }

  lemma GainOfPrice(entry: real, gain: real, dir: Direction)
    ensures Gain(entry, PriceAt(entry, gain, dir), dir) == gain
  {
  }

  /** The levels over their staged and floored gains. */
  lemma LevelsAre(cfg: SignalConfig, prof: RiskProfile, c: Candidate, g1: real, g2: real)
    requires c.entryPrice > 0.0 && StagedGains(cfg, prof, c) == (g1, g2) && TargetBoundsOk(cfg, c.dir)
    ensures EffectiveMinRR(cfg, c.params) == MinRatio(cfg, c.params)
    ensures var lo, hi := Pct(c.entryPrice, cfg.minTakeProfitPct), Pct(c.entryPrice, cfg.maxTakeProfitPct);
            var floored := FlooredGain(c.entryPrice, FinalStop(cfg, prof, c), g1, c.dir, MinRatio(cfg, c.params)).0;
            var first, second := Bounded(floored, lo, hi), Bounded(g2, lo, hi);
            && 0.0 < lo <= first && FinalLevels(cfg, prof, c).gain1 == first
            && FinalLevels(cfg, prof, c).gain2 ==
               if second > first then Some(second) else if 2.0 * first <= hi then Some(2.0 * first) else None
  {
    PctPositive(c.entryPrice, cfg.minTakeProfitPct);
    PctOrder(c.entryPrice, cfg.minTakeProfitPct, cfg.maxTakeProfitPct);
    hide Pct, FlooredGain, FinalStop, CalculateRiskRewardRatio, StagedGains;
  }

  lemma PctOrder(entry: real, p: real, q: real)
    requires entry > 0.0 && p <= q
    ensures Pct(entry, p) <= Pct(entry, q)
  {
    MulMonotone(p, q, entry);
  }

  // ------------------------------------------------------------------ margin

  /** The risk fraction: the managed conviction, else the profile's; beyond ten percent it is two. */
  function RiskFraction(prof: RiskProfile, p: ManagedParams): real {
    var asked := if p.conviction.Some? && p.conviction.value > 0.0 then p.conviction.value else prof.riskPerTradePct;
    if asked > 0.10 then 0.02 else asked
  }

  /** What spends the whole risk fraction of equity over the stop distance plus ten basis points of entry. */
  function RiskMargin(prof: RiskProfile, c: Candidate, s: FuturesSignal): real
    requires s.entryPrice > 0.0
  {
    var lev := (if s.leverage < 1 then 1 else s.leverage) as real;
    c.totalEquity * RiskFraction(prof, c.params) / MoveOf(s.entryPrice, s.stopLoss) * s.entryPrice / lev
  }

  function CapOnTrade(cfg: SignalConfig, c: Candidate): real {
    c.totalEquity * if cfg.maxTradeMarginPct <= 0.0 then 0.20 else cfg.maxTradeMarginPct
  }

  /** The margin of every built signal is the least of three: that, the cap on one trade, and the tier's capital. */
  lemma BuiltMarginIs(cfg: SignalConfig, prof: RiskProfile, c: Candidate, s: FuturesSignal)
    requires Assemble(cfg, prof, c) == Built(s)
    ensures s.entryPrice > 0.0 && c.totalEquity > 0.0
    ensures s.allocatedCapitalUSD == Min(Min(RiskMargin(prof, c, s), CapOnTrade(cfg, c)), c.availableCapital)
    ensures s.allocatedCapitalPct == s.allocatedCapitalUSD / c.totalEquity * 100.0
  {
    hide *;
    BuiltStop(cfg, prof, c, s);
    BuiltFacts(cfg, prof, c, s);
    SizedIsValid(cfg, prof, c);
    var sizing := SizedMargin(cfg, prof, c).value;
    SignalFields(cfg, prof, c, sizing);
    PctRecorded(cfg, prof, c, sizing);
    SizedMarginIs(cfg, prof, c, sizing, s);
    CapIs(cfg, c);
    LeastOfThree(RiskMargin(prof, c, s), CapOnTrade(cfg, c), c.availableCapital);
  }

  /** The stop distance plus ten basis points of entry. */
  function MoveOf(entry: real, stop: real): (move: real)
    ensures entry > 0.0 ==> move > 0.0
  {
    Abs(entry - stop) + entry / 1000.0
  }

  lemma CapIs(cfg: SignalConfig, c: Candidate)
    ensures MarginCap(cfg, c) == CapOnTrade(cfg, c)
  {
  }

  lemma PctRecorded(cfg: SignalConfig, prof: RiskProfile, c: Candidate, sizing: Sizing)
    requires c.entryPrice > 0.0 && c.totalEquity > 0.0
    ensures var s := SignalOf(cfg, prof, c, sizing);
            s.allocatedCapitalPct == s.allocatedCapitalUSD / c.totalEquity * 100.0
  {
    hide FinalLevels, FinalStop, FinalLeverage, MarginCap;
  }

  lemma RiskIs(cfg: SignalConfig, prof: RiskProfile, p: ManagedParams)
    requires prof.Valid()
    ensures NormalRisk(MaxRisk(cfg, prof, p)) == RiskFraction(prof, p) > 0.0
  {
  }

  /** Whatever fits: sizing stops at the available capital, which bounds the margin anyway. */
  lemma SizedMarginIs(cfg: SignalConfig, prof: RiskProfile, c: Candidate, sizing: Sizing, s: FuturesSignal)
    requires prof.Valid() && c.entryPrice > 0.0 && SizedMargin(cfg, prof, c) == Ok(sizing)
    requires s.entryPrice == c.entryPrice && s.stopLoss == FinalStop(cfg, prof, c)
    requires s.leverage == FinalLeverage(cfg, prof, c)
    ensures sizing.marginRequired == Min(RiskMargin(prof, c, s), c.availableCapital)
  {
    hide *;
    var risk := MaxRisk(cfg, prof, c.params);
    SizingCall(cfg, prof, c, sizing, s);
    var move, amount := MoveOf(s.entryPrice, s.stopLoss), c.totalEquity * NormalRisk(risk);
    var spend := amount / move * s.entryPrice / AtLeastOne(s.leverage) as real;
    WidenedSizing(c.totalEquity, risk, c.availableCapital, s.entryPrice, s.stopLoss, s.leverage, sizing,
                  move, amount, spend);
    RiskIs(cfg, prof, c.params);
    RiskMarginIs(prof, c, s, move, amount, spend);
  }

  lemma SizingCall(cfg: SignalConfig, prof: RiskProfile, c: Candidate, sizing: Sizing, s: FuturesSignal)
    requires c.entryPrice > 0.0 && SizedMargin(cfg, prof, c) == Ok(sizing)
    requires s.entryPrice == c.entryPrice && s.stopLoss == FinalStop(cfg, prof, c)
    requires s.leverage == FinalLeverage(cfg, prof, c)
    ensures CalculatePositionSizingWithSlippage(c.totalEquity, MaxRisk(cfg, prof, c.params), c.availableCapital,
                                                s.entryPrice, s.stopLoss, s.leverage) == Ok(sizing)
  {
    hide CalculatePositionSizingWithSlippage, FinalStop, FinalLeverage, MaxRisk;
  }

  lemma RiskMarginIs(prof: RiskProfile, c: Candidate, s: FuturesSignal, move: real, amount: real, spend: real)
    requires s.entryPrice > 0.0 && move == MoveOf(s.entryPrice, s.stopLoss)
    requires spend == amount / move * s.entryPrice / AtLeastOne(s.leverage) as real
    requires amount == c.totalEquity * RiskFraction(prof, c.params)
    ensures RiskMargin(prof, c, s) == spend
  {
    hide MoveOf, RiskFraction;
  }

  lemma WidenedSizing(equity: real, risk: real, available: real, entry: real, stop: real, lev: int, sizing: Sizing,
                      move: real, amount: real, spend: real)
    requires CalculatePositionSizingWithSlippage(equity, risk, available, entry, stop, lev) == Ok(sizing)
    requires move == MoveOf(entry, stop) && amount == equity * NormalRisk(risk)
    requires move > 0.0 && spend == amount / move * entry / AtLeastOne(lev) as real
    ensures sizing.marginRequired == Min(spend, available)
  {
    var adjusted := if entry > stop then entry - Abs(entry - stop) - STOP_SLIPPAGE * entry
                    else entry + Abs(entry - stop) + STOP_SLIPPAGE * entry;
    assert CalculatePositionSizing(equity, risk, available, entry, adjusted, lev) == Ok(sizing)
      by { hide CalculatePositionSizing; }
    assert Abs(entry - adjusted) == move by { assert STOP_SLIPPAGE * entry == entry / 1000.0; }
    hide CalculatePositionSizingWithSlippage;
    ExactSizing(equity, risk, available, entry, adjusted, lev, sizing, move, amount, spend);
  }

  /** Sizing spends the whole risk amount, or all the capital. */
  lemma ExactSizing(equity: real, risk: real, available: real, entry: real, stop: real, lev: int, sizing: Sizing,
                    dist: real, amount: real, spend: real)
    requires entry > 0.0 && CalculatePositionSizing(equity, risk, available, entry, stop, lev) == Ok(sizing)
    requires dist == Abs(entry - stop) > 0.0 && amount == equity * NormalRisk(risk)
    requires spend == amount / dist * entry / AtLeastOne(lev) as real
    ensures sizing.marginRequired == Min(spend, available)
  {
    hide NormalRisk;
  }

  lemma LeastOfThree(a: real, b: real, c: real)
    ensures Min(Min(Min(a, c), b), c) == Min(Min(a, b), c)
  {
  }

  // ---------------------------------------------------------------- leverage

  /** The decision's own leverage, or the default where it gave none. */
  function AskedLeverage(cfg: SignalConfig, c: Candidate): int {
    if c.aiLeverage < 1 then DefaultLeverage(cfg, c.params) else c.aiLeverage
  }

  function DefaultLeverage(cfg: SignalConfig, p: ManagedParams): int {
    if p.leverage.None? then cfg.defaultLeverage
    else if p.leverage.value >= 0.0 then p.leverage.value.Floor
    else -((-p.leverage.value).Floor)
  }

  /**
   * The leverage of every candidate: `k` is within it exactly when it is within what was asked for, within
   * the default, or with a measured volatility at most as large as targets the hourly volatility, and
   * keeps the required liquidation buffer on the final stop. One needs no buffer, and no volatility test.
   */
  lemma LeverageIs(cfg: SignalConfig, prof: RiskProfile, c: Candidate, k: int)
    requires c.entryPrice > 0.0 && prof.Valid() && k >= 1
    ensures FinalLeverage(cfg, prof, c) >= k <==>
            && k <= AskedLeverage(cfg, c)
            && (if c.natr > 0.0 then
                  k == 1 || (k <= DefaultLeverage(cfg, c.params)
                             && k as real * (c.natr * 100.0) <= prof.targetHourlyVolPct)
                else k <= DefaultLeverage(cfg, c.params))
            && (k == 1 || (k <= 125 && prof.liqBufferMin * FinalStopPct(cfg, prof, c) + 0.5 <= 100.0 / k as real))
  {
    hide *;
    var tuned, p := Tuned(prof, c.params), FinalStopPct(cfg, prof, c);
    StopInBands(cfg, prof, c);
    TunedKeeps(prof, c.params);
    RequestedIs(cfg, tuned, c, k);
    var asked := RequestedLeverage(cfg, tuned, c);
    FinalIsSafe(cfg, prof, c);
    if asked >= 1 {
      LargestSafeIff(c.entryPrice, p, asked, c.dir, tuned, k);
    } else {
      SafeBelowOne(c.entryPrice, p, asked, c.dir, tuned);
      RequestedIs(cfg, tuned, c, 1);
    }
  }

  lemma TunedKeeps(prof: RiskProfile, p: ManagedParams)
    ensures Tuned(prof, p).targetHourlyVolPct == prof.targetHourlyVolPct
    ensures Tuned(prof, p).liqBufferMin == prof.liqBufferMin
  {
  }

  lemma FinalIsSafe(cfg: SignalConfig, prof: RiskProfile, c: Candidate)
    requires c.entryPrice > 0.0
    ensures var tuned := Tuned(prof, c.params);
            FinalLeverage(cfg, prof, c) ==
            SafeLeverage(c.entryPrice, FinalStopPct(cfg, prof, c), RequestedLeverage(cfg, tuned, c), c.dir, tuned)
  {
    hide FinalStopPct, SafeLeverage, RequestedLeverage, Tuned;
  }

  lemma SafeBelowOne(entry: real, p: real, asked: int, dir: Direction, prof: RiskProfile)
    requires asked < 1
    ensures SafeLeverage(entry, p, asked, dir, prof) == asked
  {
  }

  lemma RequestedIs(cfg: SignalConfig, prof: RiskProfile, c: Candidate, k: int)
    requires k >= 1
    ensures RequestedLeverage(cfg, prof, c) >= k <==>
            && k <= AskedLeverage(cfg, c)
            && (if c.natr > 0.0 then
                  k == 1 || (k <= DefaultLeverage(cfg, c.params)
                             && k as real * (c.natr * 100.0) <= prof.targetHourlyVolPct)
                else k <= DefaultLeverage(cfg, c.params))
  {
    assert EffectiveDefaultLeverage(cfg, c.params) == DefaultLeverage(cfg, c.params);
    if c.natr > 0.0 {
      VolTargetIs(c.natr * 100.0, DefaultLeverage(cfg, c.params), prof, k);
    }
    hide CalculateVolTargetLeverage, EffectiveDefaultLeverage, DefaultLeverage;
  }

  /** The volatility-targeted leverage is the largest whose hourly move stays within the target, at least one. */
  lemma VolTargetIs(natrPct: real, maxLeverage: int, prof: RiskProfile, k: int)
    requires natrPct > 0.0 && k >= 1
    ensures CalculateVolTargetLeverage(natrPct, maxLeverage, prof) >= k <==>
            k == 1 || (k <= maxLeverage && k as real * natrPct <= prof.targetHourlyVolPct)
  {
    var x := prof.targetHourlyVolPct / natrPct;
    RatioAtLeast(prof.targetHourlyVolPct, natrPct, k as real);
    assert k <= x.Floor <==> k as real <= x;
    if prof.targetHourlyVolPct <= 0.0 {
      assert k as real * natrPct > 0.0;
    }
  }

  lemma LargestSafeIff(entry: real, p: real, asked: int, dir: Direction, prof: RiskProfile, k: int)
    requires entry > 0.0 && p > 0.0 && asked >= 1 && k >= 1
    ensures SafeLeverage(entry, p, asked, dir, prof) >= k <==>
            k <= asked && (k == 1 || (k <= 125 && prof.liqBufferMin * p + 0.5 <= 100.0 / k as real))
  {
    var lev := SafeLeverage(entry, p, asked, dir, prof);
    LeverageIsLargestSafe(entry, p, asked, dir, prof);
    BufferMeaning(entry, p, k, dir, prof);
    hide SafeLeverage, LiquidationBufferOK;
    assert LiquidationDistancePct(k) == 100.0 / k as real - 0.5;
    if k > 1 && prof.liqBufferMin * p > 99.5 {
      LiquidationDistanceMonotone(1, k);
      assert LiquidationDistancePct(1) == 99.5;
    }
  }

  // -------------------------------------------------------------- which are built

  /** Stop and sizing go through for every candidate with money, a price and a stop short of the whole price. */
  lemma SizedIff(cfg: SignalConfig, prof: RiskProfile, c: Candidate)
    ensures Sized(cfg, prof, c) <==>
            && c.entryPrice > 0.0 && c.totalEquity > 0.0 && c.availableCapital > 0.0
            && prof.Valid() && !ConfluenceTooLow(c) && c.hasCatalyst
            && (c.dir.Long? ==> FinalStopPct(cfg, prof, c) < 100.0)
  {
    if c.entryPrice > 0.0 && c.totalEquity > 0.0 && c.availableCapital > 0.0 && prof.Valid() {
      assert MaxRisk(cfg, prof, c.params) > 0.0;
      StopInBands(cfg, prof, c);
      StopPositiveIff(c.entryPrice, FinalStopPct(cfg, prof, c), c.dir);
      hide FinalStopPct, MaxRisk, FinalLeverage, ConfluenceTooLow, StopAt, NormalRisk;
      var stop := FinalStop(cfg, prof, c);
      assert Abs(c.entryPrice - (if c.entryPrice > stop
                                 then c.entryPrice - Abs(c.entryPrice - stop) - STOP_SLIPPAGE * c.entryPrice
                                 else c.entryPrice + Abs(c.entryPrice - stop) + STOP_SLIPPAGE * c.entryPrice)) > 0.0;
    }
  }

  lemma StopPositiveIff(entry: real, p: real, dir: Direction)
    requires entry > 0.0 && p > 0.0
    ensures StopAt(entry, p, dir) > 0.0 <==> dir.Short? || p < 100.0
  {
    if dir.Long? {
      var k := 1.0 - p / 100.0;
      if p < 100.0 { assert k > 0.0 && entry * k > 0.0; } else { assert k <= 0.0; MulMonotone(k, 0.0, entry); }
    } else {
      assert 1.0 + p / 100.0 > 0.0;
    }
  }

  /**
   * Under usable target bounds a candidate becomes a signal exactly when it has money, a price, a catalyst,
   * the confluence asked for and a stop short of the whole price; the largest allowed target pays the
   * minimum ratio on it; and trend, volume, chase, trap and liquidation buffer all allow it.
   */
  lemma BuiltIff(cfg: SignalConfig, prof: RiskProfile, c: Candidate)
    requires c.entryPrice > 0.0 && TargetBoundsOk(cfg, c.dir)
    ensures var p := FinalStopPct(cfg, prof, c);
            Assemble(cfg, prof, c).Built? <==>
            && c.totalEquity > 0.0 && c.availableCapital > 0.0 && prof.Valid() && c.hasCatalyst
            && !(c.params.confluence.Some? && 0.0 < c.confluenceScore < c.params.confluence.value)
            && (c.dir.Long? ==> p < 100.0)
            && cfg.maxTakeProfitPct + RR_SLACK * p >= MinRatio(cfg, c.params) * p
            && TrendOK(c.measured, c.entryPrice, c.dir) && VolumeOK(c.measured)
            && ChaseOK(c.measured, c.entryPrice, c.dir) && TrapOK(c.measured, c.dir)
            && BufferOK(p, FinalLeverage(cfg, prof, c), prof.liqBufferMin)
  {
    hide *;
    SizedIff(cfg, prof, c);
    ConfluenceIs(c);
    GateIs(c.measured, c.entryPrice, c.dir, FinalStopPct(cfg, prof, c), FinalLeverage(cfg, prof, c), prof.liqBufferMin);
    BoundsAre(cfg, c.dir);
    if Sized(cfg, prof, c) {
      RefusedIs(cfg, prof, c, FinalStopPct(cfg, prof, c));
      BuiltUnlessRefused(cfg, prof, c);
    } else if Assemble(cfg, prof, c).Built? {
      BuiltFacts(cfg, prof, c, Assemble(cfg, prof, c).sig);
    }
  }

  lemma BoundsAre(cfg: SignalConfig, dir: Direction)
    requires TargetBoundsOk(cfg, dir)
    ensures BoundsWellFormed(cfg.minTakeProfitPct, cfg.maxTakeProfitPct)
  {
  }

  lemma ConfluenceIs(c: Candidate)
    ensures ConfluenceTooLow(c) <==>
            c.params.confluence.Some? && 0.0 < c.confluenceScore < c.params.confluence.value
  {
  }

  lemma RefusedIs(cfg: SignalConfig, prof: RiskProfile, c: Candidate, p: real)
    requires Sized(cfg, prof, c) && TargetBoundsOk(cfg, c.dir) && p == FinalStopPct(cfg, prof, c)
    ensures Assemble(cfg, prof, c) == Held(TakeProfitBound) <==>
            cfg.maxTakeProfitPct + RR_SLACK * p < MinRatio(cfg, c.params) * p
  {
    hide *;
    TargetRefusedIff(cfg, prof, c);
    RatioIs(cfg, c.params);
    assert EffectiveMinRR(cfg, c.params) * p == MinRatio(cfg, c.params) * p;
  }

  lemma RatioIs(cfg: SignalConfig, p: ManagedParams)
    ensures EffectiveMinRR(cfg, p) == MinRatio(cfg, p)
  {
  }

  lemma BuiltUnlessRefused(cfg: SignalConfig, prof: RiskProfile, c: Candidate)
    requires Sized(cfg, prof, c) && BoundsWellFormed(cfg.minTakeProfitPct, cfg.maxTakeProfitPct)
    ensures Assemble(cfg, prof, c).Built? <==>
            && Assemble(cfg, prof, c) != Held(TakeProfitBound)
            && EvaluateEntryGate(c.measured, c.entryPrice, c.dir, FinalStopPct(cfg, prof, c),
                                 FinalLeverage(cfg, prof, c), prof.liqBufferMin).None?
  {
    hide FinalStopPct, FinalStop, FinalLevels, FinalLeverage, SizedMargin, SignalOf, EvaluateEntryGate, StopClamped,
      MaxRisk, EffectiveMinRR;
  }
}
