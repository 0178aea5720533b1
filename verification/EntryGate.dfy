/** The rule chain that vetoes a candidate before it is persisted. */
module EntryGate {
  import opened Common
  import opened FuturesMath

  /** Measurements the gate reads; zero, the empty string and `None` mean unknown. */
  datatype Measurements = Measurements(
    vwap: real,
    upperBand: real,
    lowerBand: real,
    midBand: real,
    superTrend: string,
    volumeRatio: real,
    oiDeltaPct: Option<real>)

  datatype Rule = NoTrend | NoVolume | ChaseBlocked | OiTrap | LiqBuffer

  const VOLUME_RATIO_MIN: real := 2.5
  const CHASE_SIGMA_LIMIT: real := 2.0
  const OI_DELTA_TRAP_PCT: real := 1.5

  predicate AgainstTrend(m: Measurements, price: real, dir: Direction) {
    && m.vwap > 0.0 && m.superTrend != ""
    && !(if dir.Long? then price > m.vwap && m.superTrend == "BULL"
         else price <= m.vwap && m.superTrend != "BULL")
  }

  predicate Chasing(m: Measurements, price: real, dir: Direction) {
    && m.upperBand > 0.0 && m.lowerBand > 0.0 && m.midBand > 0.0
    && var sigma := (m.upperBand - m.lowerBand) / 4.0;
       sigma > 0.0 && Gain(m.midBand, price, dir) / sigma > CHASE_SIGMA_LIMIT
  }

  predicate Trapped(m: Measurements, dir: Direction) {
    m.oiDeltaPct.Some? &&
    (if dir.Long? then m.oiDeltaPct.value < -OI_DELTA_TRAP_PCT else m.oiDeltaPct.value > OI_DELTA_TRAP_PCT)
  }

  predicate ThinBuffer(slPct: real, leverage: int, liqBufferMin: real) {
    && leverage >= 1 && slPct > 0.0 && liqBufferMin > 0.0
    && LiquidationDistancePct(leverage) > 0.0
    && LiquidationDistancePct(leverage) / slPct < liqBufferMin
  }

  /** First violated rule, in the fixed order. */
  function EvaluateEntryGate(m: Measurements, price: real, dir: Direction, slPct: real, leverage: int,
                             liqBufferMin: real)
    : Option<Rule>
  {
    if AgainstTrend(m, price, dir) then Some(NoTrend)
    else if m.volumeRatio > 0.0 && m.volumeRatio < VOLUME_RATIO_MIN then Some(NoVolume)
    else if Chasing(m, price, dir) then Some(ChaseBlocked)
    else if Trapped(m, dir) then Some(OiTrap)
    else if ThinBuffer(slPct, leverage, liqBufferMin) then Some(LiqBuffer)
    else None
  }

  /** Whatever passes the gate at a leverage the exchange accepts keeps its liquidation buffer. */
  lemma AllowedKeepsBuffer(m: Measurements, price: real, dir: Direction, slPct: real, leverage: int, prof: RiskProfile)
    requires prof.Valid() && price > 0.0 && slPct > 0.0 && 1 <= leverage <= 125
    requires EvaluateEntryGate(m, price, dir, slPct, leverage, prof.liqBufferMin).None?
    ensures LiquidationDistancePct(leverage) >= prof.liqBufferMin * slPct
    ensures LiquidationBufferOK(price, slPct, leverage, dir, prof)
  {
    LiquidationIsAStop(price, leverage, dir);
    RatioAtLeast(LiquidationDistancePct(leverage), slPct, prof.liqBufferMin);
    BufferMeaning(price, slPct, leverage, dir, prof);
  }

  // ------------------------------------------------------- each rule, in plain terms

  /** With the trend, as far as it is known: a long above VWAP in a bull trend, a short at or below it in another. */
  predicate TrendOK(m: Measurements, price: real, dir: Direction) {
    || m.vwap <= 0.0 || m.superTrend == ""
    || (dir == Long && price > m.vwap && m.superTrend == "BULL")
    || (dir == Short && price <= m.vwap && m.superTrend != "BULL")
  }

  predicate VolumeOK(m: Measurements) {
    m.volumeRatio <= 0.0 || m.volumeRatio >= 2.5
  }

  /** At most two standard deviations beyond the middle band: half the width of the bands. */
  predicate ChaseOK(m: Measurements, price: real, dir: Direction) {
    || m.upperBand <= 0.0 || m.lowerBand <= 0.0 || m.midBand <= 0.0 || m.upperBand <= m.lowerBand
    || (if dir == Long then 2.0 * (price - m.midBand) else 2.0 * (m.midBand - price)) <= m.upperBand - m.lowerBand
  }

  /** Open interest has not fallen by more than 1.5 percent against a long, nor risen by more against a short. */
  predicate TrapOK(m: Measurements, dir: Direction) {
    m.oiDeltaPct.None? || (if dir == Long then m.oiDeltaPct.value >= -1.5 else m.oiDeltaPct.value <= 1.5)
  }

  predicate BufferOK(slPct: real, leverage: int, liqBufferMin: real) {
    || leverage < 1 || slPct <= 0.0 || liqBufferMin <= 0.0 || leverage >= 200
    || liqBufferMin * slPct + 0.5 <= 100.0 / leverage as real
  }

  lemma ChaseIs(m: Measurements, price: real, dir: Direction)
    ensures Chasing(m, price, dir) <==> !ChaseOK(m, price, dir)
  {
    var sigma := (m.upperBand - m.lowerBand) / 4.0;
    if sigma > 0.0 {
      RatioAbove(Gain(m.midBand, price, dir), sigma, CHASE_SIGMA_LIMIT);
    }
  }

  lemma RatioAbove(x: real, y: real, k: real)
    requires y > 0.0
    ensures x / y > k <==> x > k * y
  {
    DivMulCancel(x, y);
    if x / y > k { assert (x / y - k) * y > 0.0; }
    if x / y <= k { MulMonotone(x / y, k, y); }
  }

  lemma BufferIs(slPct: real, leverage: int, liqBufferMin: real)
    ensures ThinBuffer(slPct, leverage, liqBufferMin) <==> !BufferOK(slPct, leverage, liqBufferMin)
  {
    if leverage >= 1 {
      var d := LiquidationDistancePct(leverage);
      assert d == 100.0 / leverage as real - 0.5;
      BufferPositive(leverage);
      if slPct > 0.0 {
        RatioAtLeast(d, slPct, liqBufferMin);
      }
    }
  }

  lemma BufferPositive(leverage: int)
    requires leverage >= 1
    ensures LiquidationDistancePct(leverage) > 0.0 <==> leverage < 200
  {
    var l := leverage as real;
    DivMulCancel(100.0, l);
    if leverage < 200 {
      DivAntitone(100.0, l, 199.0);
    } else {
      DivAntitone(100.0, 200.0, l);
    }
  }

  /** The gate passes exactly what no rule refuses, and names the first rule that does. */
  lemma GateIs(m: Measurements, price: real, dir: Direction, slPct: real, leverage: int, liqBufferMin: real)
    ensures EvaluateEntryGate(m, price, dir, slPct, leverage, liqBufferMin) ==
            if !TrendOK(m, price, dir) then Some(NoTrend)
            else if !VolumeOK(m) then Some(NoVolume)
            else if !ChaseOK(m, price, dir) then Some(ChaseBlocked)
            else if !TrapOK(m, dir) then Some(OiTrap)
            else if !BufferOK(slPct, leverage, liqBufferMin) then Some(LiqBuffer)
            else None
  {
    ChaseIs(m, price, dir);
    BufferIs(slPct, leverage, liqBufferMin);
    hide Chasing, ChaseOK, ThinBuffer, BufferOK;
  }
}
