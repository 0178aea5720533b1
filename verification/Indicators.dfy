/** Rolling-window volatility, efficiency and money-flow indicators. */
module Indicators {
  import opened Common

  datatype Candle = Candle(open: real, high: real, low: real, close: real, volume: real)

  const GK_FACTOR: real := 0.3862943611198906

  const PARKINSON_FACTOR: real := 2.772588722239781

  /** Ranges, paths and volumes at or below this count as zero. */
  const TINY: real := 0.000000001

  // ------------------------------------------------------- windows and sums

  /** The sum of `v[lo..hi]`. */
  function SumOf(v: seq<real>, lo: nat, hi: nat): real
    requires lo <= hi <= |v|
    decreases hi - lo
  {
    if lo == hi then 0.0 else SumOf(v, lo, hi - 1) + v[hi - 1]
  }

  /** Where the window of at most `period` values ending at `i` begins. */
  function WindowStart(i: nat, period: nat): (lo: nat)
    requires period > 0
    ensures lo <= i && i + 1 - lo <= period && (i + 1 >= period ==> i + 1 - lo == period)
  {
    if i >= period then i + 1 - period else 0
  }

  function WindowSum(v: seq<real>, i: nat, period: nat): real
    requires period > 0 && i < |v|
  {
    SumOf(v, WindowStart(i, period), i + 1)
  }

  function WindowMean(v: seq<real>, i: nat, period: nat): real
    requires period > 0 && i < |v|
  {
    WindowSum(v, i, period) / (i + 1 - WindowStart(i, period)) as real
  }

  lemma {:induction false} SumDropsFirst(v: seq<real>, lo: nat, hi: nat)
    requires lo < hi <= |v|
    ensures SumOf(v, lo, hi) == v[lo] + SumOf(v, lo + 1, hi)
    decreases hi - lo
  {
    if lo + 1 < hi {
      SumDropsFirst(v, lo, hi - 1);
    }
  }

  /** One step of a running sum: add the newest value, drop the one leaving the window. */
  lemma SumSlides(v: seq<real>, i: nat, period: nat)
    requires period > 0 && i < |v|
    ensures i == 0 ==> WindowSum(v, i, period) == v[0]
    ensures 0 < i < period ==> WindowSum(v, i, period) == WindowSum(v, i - 1, period) + v[i]
    ensures 0 < i && i >= period ==> WindowSum(v, i, period) == WindowSum(v, i - 1, period) + v[i] - v[i - period]
  {
    if i == 0 {
      assert SumOf(v, 0, 1) == SumOf(v, 0, 0) + v[0];
    } else if i >= period {
      SumDropsFirst(v, i - period, i + 1);
    }
  }

  ghost predicate NonNegative(v: seq<real>) {
    forall k | 0 <= k < |v| :: v[k] >= 0.0
  }

  lemma {:induction false} SumNonNegative(v: seq<real>, lo: nat, hi: nat)
    requires lo <= hi <= |v| && NonNegative(v)
    ensures SumOf(v, lo, hi) >= 0.0
    decreases hi - lo
  {
    if lo < hi {
      SumNonNegative(v, lo, hi - 1);
    }
  }

  /** The argument handed to the square root is never negative. */
  lemma MeanNonNegative(v: seq<real>, i: nat, period: nat)
    requires period > 0 && i < |v| && NonNegative(v)
    ensures WindowMean(v, i, period) >= 0.0
  {
    SumNonNegative(v, WindowStart(i, period), i + 1);
    DivMonotone(0.0, WindowSum(v, i, period), (i + 1 - WindowStart(i, period)) as real);
  }

  // ------------------------------------------------------------- volatility

  function Squared(x: real): (r: real)
    ensures r >= 0.0
  {
    x * x
  }

  function GKVariance(c: Candle, log: real -> real): (v: real)
    ensures v >= 0.0
  {
    if c.low <= 0.0 || c.open <= 0.0 then 0.0
    else Max(0.0, 0.5 * Squared(log(c.high / c.low)) - GK_FACTOR * Squared(log(c.close / c.open)))
  }

  function ParkinsonVariance(c: Candle, log: real -> real): (v: real)
    ensures v >= 0.0
  {
    if c.low <= 0.0 then 0.0
    else
      DivMonotone(0.0, Squared(log(c.high / c.low)), PARKINSON_FACTOR);
      Squared(log(c.high / c.low)) / PARKINSON_FACTOR
  }

  function GKVariances(candles: seq<Candle>, log: real -> real): (v: seq<real>)
    ensures |v| == |candles| && NonNegative(v)
  {
    hide GKVariance; seq(|candles|, i requires 0 <= i < |candles| => GKVariance(candles[i], log))
  }

  function ParkinsonVariances(candles: seq<Candle>, log: real -> real): (v: seq<real>)
    ensures |v| == |candles| && NonNegative(v)
  {
    hide ParkinsonVariance; seq(|candles|, i requires 0 <= i < |candles| => ParkinsonVariance(candles[i], log))
  }

  /** Rolling Garman-Klass volatility: at each index the root of the mean variance of its window. */
  method CalculateGarmanKlass(candles: seq<Candle>, period: int, log: real -> real, sqrt: real --> real)
    returns (result: array<real>)
    requires forall x | x >= 0.0 :: sqrt.requires(x)
    ensures result.Length == |candles|
    ensures period <= 0 ==> forall i | 0 <= i < |candles| :: result[i] == 0.0
    ensures period > 0 ==> forall i | 0 <= i < |candles| ::
      WindowMean(GKVariances(candles, log), i, period) >= 0.0
      && result[i] == sqrt(WindowMean(GKVariances(candles, log), i, period))
  {
    var n := |candles|;
    result := new real[n](_ => 0.0);
    if n == 0 || period <= 0 {
      return;
    }
    var variances := new real[n](_ => 0.0);
    for i := 0 to n
      invariant forall k | 0 <= k < i :: variances[k] == GKVariances(candles, log)[k]
    {
      var c := candles[i];
      if c.low <= 0.0 || c.open <= 0.0 {
        variances[i] := 0.0;
      } else {
        var hl, co := log(c.high / c.low), log(c.close / c.open);
        var gk := 0.5 * Squared(hl) - GK_FACTOR * Squared(co);
        variances[i] := if gk < 0.0 then 0.0 else gk;
      }
    }
    RollingRoot(variances[..], period, sqrt, result);
    assert variances[..] == GKVariances(candles, log);
  }

  /** Rolling Parkinson volatility: at each index the root of the mean variance of its window. */
  method CalculateParkinson(candles: seq<Candle>, period: int, log: real -> real, sqrt: real --> real)
    returns (result: array<real>)
    requires forall x | x >= 0.0 :: sqrt.requires(x)
    ensures result.Length == |candles|
    ensures period <= 0 ==> forall i | 0 <= i < |candles| :: result[i] == 0.0
    ensures period > 0 ==> forall i | 0 <= i < |candles| ::
      WindowMean(ParkinsonVariances(candles, log), i, period) >= 0.0
      && result[i] == sqrt(WindowMean(ParkinsonVariances(candles, log), i, period))
  {
    var n := |candles|;
    result := new real[n](_ => 0.0);
    if n == 0 || period <= 0 {
      return;
    }
    var variances := new real[n](_ => 0.0);
    for i := 0 to n
      invariant forall k | 0 <= k < i :: variances[k] == ParkinsonVariances(candles, log)[k]
    {
      var c := candles[i];
      if c.low <= 0.0 {
        variances[i] := 0.0;
      } else {
        variances[i] := Squared(log(c.high / c.low)) / PARKINSON_FACTOR;
      }
    }
    RollingRoot(variances[..], period, sqrt, result);
    assert variances[..] == ParkinsonVariances(candles, log);
  }

  /** The loop both estimators share: a running sum, averaged over the part of the window that exists. */
  method RollingRoot(v: seq<real>, period: int, sqrt: real --> real, result: array<real>)
    requires period > 0 && result.Length == |v| && NonNegative(v)
    requires forall x | x >= 0.0 :: sqrt.requires(x)
    modifies result
    ensures forall i | 0 <= i < |v| :: WindowMean(v, i, period) >= 0.0 && result[i] == sqrt(WindowMean(v, i, period))
  {
    hide SumOf;
    var rollingSum := 0.0;
    for i := 0 to |v|
      invariant i > 0 ==> rollingSum == WindowSum(v, i - 1, period)
      invariant i == 0 ==> rollingSum == 0.0
      invariant forall k | 0 <= k < i :: WindowMean(v, k, period) >= 0.0 && result[k] == sqrt(WindowMean(v, k, period))
    {
      SumSlides(v, i, period);
      MeanNonNegative(v, i, period);
      rollingSum := rollingSum + v[i];
      if i >= period {
        rollingSum := rollingSum - v[i - period];
        var avg := rollingSum / period as real;
        result[i] := sqrt(avg);
      } else {
        var avg := rollingSum / (i + 1) as real;
        result[i] := sqrt(avg);
      }
    }
  }

  // ------------------------------------------------------------- efficiency

  /** The steps between consecutive closes; the first has none. */
  function Steps(closes: seq<real>): (d: seq<real>)
    ensures |d| == |closes| && NonNegative(d)
  {
    seq(|closes|, k requires 0 <= k < |closes| => if k == 0 then 0.0 else Abs(closes[k] - closes[k - 1]))
  }

  /** The close a window compares with: `period` bars back, or the first. */
  function Base(i: nat, period: nat): (b: nat)
    ensures b <= i
  {
    if i >= period then i - period else 0
  }

  function Path(closes: seq<real>, a: nat, b: nat): real
    requires a <= b < |closes|
  {
    SumOf(Steps(closes), a + 1, b + 1)
  }

  function Ratio(move: real, path: real): real {
    if path > TINY then move / path else 0.0
  }

  /** Net move over distance travelled, without any cap. */
  function EfficiencyRatio(closes: seq<real>, i: nat, period: nat): real
    requires i < |closes|
  {
    Ratio(Abs(closes[i] - closes[Base(i, period)]), Path(closes, Base(i, period), i))
  }

  ghost predicate Rising(closes: seq<real>, a: nat, b: nat)
    requires a <= b < |closes|
  {
    forall j, k | a <= j <= k <= b :: closes[j] <= closes[k]
  }

  ghost predicate Falling(closes: seq<real>, a: nat, b: nat)
    requires a <= b < |closes|
  {
    forall j, k | a <= j <= k <= b :: closes[j] >= closes[k]
  }

  /** The triangle inequality along a path, with its equality cases: only a one-way path has no detour. */
  lemma PathBoundsMove(closes: seq<real>, a: nat, b: nat)
    requires a <= b < |closes|
    ensures closes[b] - closes[a] <= Path(closes, a, b) && closes[a] - closes[b] <= Path(closes, a, b)
    ensures closes[b] - closes[a] == Path(closes, a, b) <==> Rising(closes, a, b)
    ensures closes[a] - closes[b] == Path(closes, a, b) <==> Falling(closes, a, b)
  {
    Triangle(closes, a, b);
    hide Path, Rising, Falling;
  }

  predicate NoDetour(move: real, path: real, rising: bool, falling: bool) {
    move <= path && -move <= path && (move == path <==> rising) && (-move == path <==> falling)
  }

  lemma {:induction false} Triangle(closes: seq<real>, a: nat, b: nat)
    requires a <= b < |closes|
    ensures NoDetour(closes[b] - closes[a], Path(closes, a, b), Rising(closes, a, b), Falling(closes, a, b))
    decreases b
  {
    hide Path;
    PathSteps(closes, a, b);
    if a < b {
      hide Rising, Falling, Abs, NoDetour;
      Triangle(closes, a, b - 1);
      OneMoreStep(closes, a, b);
      var move, d := closes[b - 1] - closes[a], closes[b] - closes[b - 1];
      StepBounds(move, Path(closes, a, b - 1), d, Rising(closes, a, b - 1), Falling(closes, a, b - 1));
      assert move + d == closes[b] - closes[a];
      assert Rising(closes, a, b) == (Rising(closes, a, b - 1) && d >= 0.0);
      assert Falling(closes, a, b) == (Falling(closes, a, b - 1) && d <= 0.0);
    }
  }

  lemma StepBounds(move: real, path: real, d: real, rising: bool, falling: bool)
    requires NoDetour(move, path, rising, falling)
    ensures NoDetour(move + d, path + Abs(d), rising && d >= 0.0, falling && d <= 0.0)
  {
  }

  lemma OneMoreStep(closes: seq<real>, a: nat, b: nat)
    requires a < b < |closes|
    ensures Rising(closes, a, b) <==> Rising(closes, a, b - 1) && closes[b - 1] <= closes[b]
    ensures Falling(closes, a, b) <==> Falling(closes, a, b - 1) && closes[b - 1] >= closes[b]
  {
    assert forall j | a <= j < b :: Rising(closes, a, b - 1) ==> closes[j] <= closes[b - 1];
    assert forall j | a <= j < b :: Falling(closes, a, b - 1) ==> closes[j] >= closes[b - 1];
  }

  lemma PathSteps(closes: seq<real>, a: nat, b: nat)
    requires a <= b < |closes|
    ensures Path(closes, a, a) == 0.0
    ensures a < b ==> Path(closes, a, b) == Path(closes, a, b - 1) + Abs(closes[b] - closes[b - 1])
  {
    assert a < b ==> Steps(closes)[b] == Abs(closes[b] - closes[b - 1]);
    hide Steps;
  }

  /** The ratio lies in [0, 1] by itself, and is 1 exactly when the closes of the window only rise or only fall. */
  lemma EfficiencyMeaning(closes: seq<real>, i: nat, period: nat)
    requires i < |closes|
    ensures 0.0 <= EfficiencyRatio(closes, i, period) <= 1.0
    ensures Path(closes, Base(i, period), i) > TINY ==>
              (EfficiencyRatio(closes, i, period) == 1.0 <==>
               Rising(closes, Base(i, period), i) || Falling(closes, Base(i, period), i))
  {
    var b := Base(i, period);
    PathBoundsMove(closes, b, i);
    hide Path, Rising, Falling, Base, Ratio;
    RatioMeaning(Abs(closes[i] - closes[b]), Path(closes, b, i));
  }

  lemma RatioMeaning(move: real, path: real)
    requires 0.0 <= move <= path
    ensures 0.0 <= Ratio(move, path) <= 1.0
    ensures path > TINY ==> (Ratio(move, path) == 1.0 <==> move == path)
  {
    if path > TINY {
      UnitQuotient(move, path);
    }
  }

  lemma SignedUnitQuotient(x: real, y: real)
    requires y > 0.0 && -y <= x <= y
    ensures -1.0 <= x / y <= 1.0
  {
    DivMonotone(-1.0 * y, x, y);
    DivMonotone(x, 1.0 * y, y);
    MulDivCancel(-1.0, y);
    MulDivCancel(1.0, y);
  }

  /** Kaufman efficiency: the uncapped ratio at every index, so neither cap ever changes a value. */
  method CalculateKaufmanER(closes: seq<real>, period: int) returns (result: array<real>)
    ensures result.Length == |closes|
    ensures forall i | 0 <= i < |closes| :: result[i] == if period <= 0 then 0.0 else EfficiencyRatio(closes, i, period)
  {
    var n := |closes|;
    result := new real[n](_ => 0.0);
    if n == 0 || period <= 0 {
      return;
    }
    var diffs := StepArray(closes);
    for i := 0 to n
      invariant diffs[..] == Steps(closes)
      invariant forall k | 0 <= k < i :: result[k] == EfficiencyRatio(closes, k, period)
    {
      hide EfficiencyRatio, Steps;
      result[i] := EfficiencyAt(closes, diffs, i, period);
    }
  }

  /** The step into every close, zero at the first. */
  method StepArray(closes: seq<real>) returns (diffs: array<real>)
    requires closes != []
    ensures fresh(diffs) && diffs[..] == Steps(closes)
  {
    diffs := new real[|closes|](_ => 0.0);
    for i := 1 to |closes|
      invariant forall k | 0 <= k < i :: diffs[k] == Steps(closes)[k]
    {
      diffs[i] := Abs(closes[i] - closes[i - 1]);
    }
  }

  /** The ratio at one index: from the first close while the window is not full, else from `period` bars back. */
  method EfficiencyAt(closes: seq<real>, diffs: array<real>, i: nat, period: nat) returns (er: real)
    requires i < |closes| && period > 0 && diffs[..] == Steps(closes)
    ensures er == EfficiencyRatio(closes, i, period)
  {
    RatioInUnit(closes, i, period);
    hide SumOf, Steps;
    if i < period {
      if i == 0 {
        NoPathYet(closes, period);
        return 0.0;
      }
      var direction := Abs(closes[i] - closes[0]);
      var path := PathSum(diffs, 1, i + 1);
      return if path > TINY then Min(1.0, direction / path) else 0.0;
    }
    var direction := Abs(closes[i] - closes[i - period]);
    var path := PathSum(diffs, i - period + 1, i + 1);
    if path <= TINY {
      return 0.0;
    }
    er := direction / path;
    if er > 1.0 {
      er := 1.0;
    }
  }

  lemma RatioInUnit(closes: seq<real>, i: nat, period: nat)
    requires i < |closes|
    ensures 0.0 <= EfficiencyRatio(closes, i, period) <= 1.0
  {
    hide *;
    EfficiencyMeaning(closes, i, period);
  }

  lemma NoPathYet(closes: seq<real>, period: nat)
    requires closes != [] && period > 0
    ensures EfficiencyRatio(closes, 0, period) == 0.0
  {
    assert SumOf(Steps(closes), 1, 1) == 0.0;
  }

  /** The inner loop: the steps of one window added up. */
  method PathSum(diffs: array<real>, lo: nat, hi: nat) returns (path: real)
    requires lo <= hi <= diffs.Length
    ensures path == SumOf(diffs[..], lo, hi)
  {
    path := 0.0;
    for k := lo to hi
      invariant path == SumOf(diffs[..], lo, k)
    {
      path := path + diffs[k];
    }
  }

  // ------------------------------------------------------------- money flow

  /** Where the close sits in the bar, from -1 at the low to 1 at the high. */
  function CloseLocation(c: Candle): real {
    if c.high - c.low > TINY then ((c.close - c.low) - (c.high - c.close)) / (c.high - c.low) else 0.0
  }

  function Scaled(x: real, volume: real): real {
    x * volume
  }

  function FlowVolume(c: Candle): real {
    Scaled(CloseLocation(c), c.volume)
  }

  function Flows(candles: seq<Candle>): (v: seq<real>)
    ensures |v| == |candles| && forall k | 0 <= k < |candles| :: v[k] == FlowVolume(candles[k])
  {
    seq(|candles|, k requires 0 <= k < |candles| => FlowVolume(candles[k]))
  }

  function Volumes(candles: seq<Candle>): (v: seq<real>)
    ensures |v| == |candles| && forall k | 0 <= k < |candles| :: v[k] == candles[k].volume
  {
    seq(|candles|, k requires 0 <= k < |candles| => candles[k].volume)
  }

  /** Volume-weighted mean close location over the window, without any clamp. */
  function MoneyFlow(candles: seq<Candle>, i: nat, period: nat): real
    requires period > 0 && i < |candles|
  {
    var volume := WindowSum(Volumes(candles), i, period);
    if volume > TINY then WindowSum(Flows(candles), i, period) / volume else 0.0
  }

  ghost predicate Sound(c: Candle) {
    c.low <= c.close <= c.high && c.volume >= 0.0
  }

  function ClampUnit(x: real): real {
    if x > 1.0 then 1.0 else if x < -1.0 then -1.0 else x
  }

  lemma FlowWithinVolume(c: Candle)
    requires Sound(c)
    ensures -c.volume <= FlowVolume(c) <= c.volume
  {
    LocationInUnit(c);
    hide CloseLocation, Scaled;
    SignedScale(CloseLocation(c), c.volume);
  }

  lemma LocationInUnit(c: Candle)
    requires Sound(c)
    ensures -1.0 <= CloseLocation(c) <= 1.0
  {
    var range := c.high - c.low;
    if range > TINY {
      SignedUnitQuotient((c.close - c.low) - (c.high - c.close), range);
    }
  }

  lemma SignedScale(x: real, v: real)
    requires -1.0 <= x <= 1.0 && v >= 0.0
    ensures -v <= Scaled(x, v) <= v
  {
    MulMonotone(-1.0, x, v);
    MulMonotone(x, 1.0, v);
  }

  lemma {:induction false} SumDominated(v: seq<real>, w: seq<real>, lo: nat, hi: nat)
    requires |v| == |w| && lo <= hi <= |v| && forall k | 0 <= k < |v| :: -w[k] <= v[k] <= w[k]
    ensures -SumOf(w, lo, hi) <= SumOf(v, lo, hi) <= SumOf(w, lo, hi)
    decreases hi - lo
  {
    if lo < hi {
      SumDominated(v, w, lo, hi - 1);
    }
  }

  /** For bars whose close lies within their range, money flow lies in [-1, 1] by itself. */
  lemma MoneyFlowInUnit(candles: seq<Candle>, i: nat, period: nat)
    requires period > 0 && i < |candles| && forall k | 0 <= k < |candles| :: Sound(candles[k])
    ensures -1.0 <= MoneyFlow(candles, i, period) <= 1.0
    ensures ClampUnit(MoneyFlow(candles, i, period)) == MoneyFlow(candles, i, period)
  {
    forall k | 0 <= k < |candles|
      ensures -Volumes(candles)[k] <= Flows(candles)[k] <= Volumes(candles)[k]
    {
      FlowWithinVolume(candles[k]);
    }
    SumDominated(Flows(candles), Volumes(candles), WindowStart(i, period), i + 1);
    var volume := WindowSum(Volumes(candles), i, period);
    if volume > TINY {
      SignedUnitQuotient(WindowSum(Flows(candles), i, period), volume);
    }
  }

  /** A close outside its bar's range takes the unclamped value past 1, so there the clamp does fire. */
  lemma ClampFiresOnUnsoundBar(close: real)
    requires close > 2.0
    ensures var c := Candle(1.0, 2.0, 1.0, close, 1.0);
            MoneyFlow([c], 0, 1) > 1.0 && ClampUnit(MoneyFlow([c], 0, 1)) == 1.0
  {
    var c := Candle(1.0, 2.0, 1.0, close, 1.0);
    assert CloseLocation(c) == (close - 1.0) - (2.0 - close);
    SumSlides(Flows([c]), 0, 1);
    SumSlides(Volumes([c]), 0, 1);
    assert WindowSum(Flows([c]), 0, 1) == FlowVolume(c);
  }

  /** Chaikin money flow: at each index the clamped ratio of the two window sums. */
  method CalculateCMF(candles: seq<Candle>, period: int) returns (result: array<real>)
    ensures result.Length == |candles|
    ensures forall i | 0 <= i < |candles| ::
      result[i] == if period <= 0 then 0.0 else ClampUnit(MoneyFlow(candles, i, period))
  {
    var n := |candles|;
    result := new real[n](_ => 0.0);
    if n == 0 || period <= 0 {
      return;
    }
    var mfv, vols := FlowArrays(candles);
    var sumMFV, sumVol := 0.0, 0.0;
    for i := 0 to n
      invariant mfv[..] == Flows(candles) && vols[..] == Volumes(candles)
      invariant Running(Flows(candles), i, period, sumMFV) && Running(Volumes(candles), i, period, sumVol)
      invariant forall k | 0 <= k < i :: result[k] == ClampUnit(MoneyFlow(candles, k, period))
    {
      hide FlowVolume, ClampUnit, MoneyFlow, Running;
      sumMFV := Slide(mfv, i, period, sumMFV);
      sumVol := Slide(vols, i, period, sumVol);
      result[i] := RatioOfSums(candles, i, period, sumMFV, sumVol);
    }
  }

  /** Money flow volume and volume of every bar. */
  method FlowArrays(candles: seq<Candle>) returns (mfv: array<real>, vols: array<real>)
    ensures fresh(mfv) && fresh(vols) && mfv[..] == Flows(candles) && vols[..] == Volumes(candles)
  {
    mfv, vols := new real[|candles|](_ => 0.0), new real[|candles|](_ => 0.0);
    for i := 0 to |candles|
      invariant forall k | 0 <= k < i :: mfv[k] == Flows(candles)[k] && vols[k] == Volumes(candles)[k]
    {
      var c := candles[i];
      var rangeHL := c.high - c.low;
      if rangeHL > TINY {
        var clv := ((c.close - c.low) - (c.high - c.close)) / rangeHL;
        mfv[i] := clv * c.volume;
      } else {
        mfv[i] := 0.0;
      }
      vols[i] := c.volume;
    }
  }

  /** The running sum before index `i` is read. */
  predicate Running(v: seq<real>, i: nat, period: nat, sum: real)
    requires period > 0 && i <= |v|
  {
    sum == if i == 0 then 0.0 else WindowSum(v, i - 1, period)
  }

  /** Adds the newest value and drops the one leaving the window. */
  method Slide(v: array<real>, i: nat, period: nat, sum: real) returns (next: real)
    requires period > 0 && i < v.Length && Running(v[..], i, period, sum)
    ensures next == WindowSum(v[..], i, period) && Running(v[..], i + 1, period, next)
  {
    SumSlides(v[..], i, period);
    hide WindowSum;
    next := sum + v[i];
    if i >= period {
      next := next - v[i - period];
    }
  }

  /** The quotient of the two sums, clamped to the unit interval. */
  method RatioOfSums(candles: seq<Candle>, i: nat, period: nat, sumMFV: real, sumVol: real) returns (cmf: real)
    requires period > 0 && i < |candles|
    requires sumMFV == WindowSum(Flows(candles), i, period) && sumVol == WindowSum(Volumes(candles), i, period)
    ensures cmf == ClampUnit(MoneyFlow(candles, i, period))
  {
    hide WindowSum, Flows, Volumes;
    if sumVol <= TINY {
      return 0.0;
    }
    cmf := sumMFV / sumVol;
    if cmf > 1.0 {
      cmf := 1.0;
    } else if cmf < -1.0 {
      cmf := -1.0;
    }
  }

  // ------------------------------------------------------------ in plain terms

  /** Net move is the ratio of the distance travelled. */
  lemma EfficiencyIs(closes: seq<real>, i: nat, period: nat)
    requires i < |closes|
    ensures var b := if i >= period then i - period else 0;
            var path := Path(closes, b, i);
            && (path > TINY ==> EfficiencyRatio(closes, i, period) * path == Abs(closes[i] - closes[b]))
            && (path <= TINY ==> EfficiencyRatio(closes, i, period) == 0.0)
  {
    var b := if i >= period then i - period else 0;
    hide Path;
    if Path(closes, b, i) > TINY {
      DivMulCancel(Abs(closes[i] - closes[b]), Path(closes, b, i));
    }
  }

  /** The flow of a bar times its range is its volume times what the close gained on the middle, twice over. */
  lemma FlowIs(c: Candle)
    ensures c.high - c.low > TINY ==>
              FlowVolume(c) * (c.high - c.low) == (2.0 * c.close - c.high - c.low) * c.volume
    ensures c.high - c.low <= TINY ==> FlowVolume(c) == 0.0
  {
    var range := c.high - c.low;
    if range > TINY {
      var x := 2.0 * c.close - c.high - c.low;
      assert CloseLocation(c) == x / range;
      Reassociate(x / range, c.volume, range);
      DivMulCancel(x, range);
    }
  }

  lemma Reassociate(a: real, b: real, c: real)
    ensures a * b * c == a * c * b
  {
  }

  /** Money flow times the volume of the window is the flow of its bars. */
  lemma MoneyFlowIs(candles: seq<Candle>, i: nat, period: nat)
    requires period > 0 && i < |candles|
    ensures var volume, flow := WindowSum(Volumes(candles), i, period), WindowSum(Flows(candles), i, period);
            && (volume > TINY ==> MoneyFlow(candles, i, period) * volume == flow)
            && (volume <= TINY ==> MoneyFlow(candles, i, period) == 0.0)
  {
    hide WindowSum;
    var volume := WindowSum(Volumes(candles), i, period);
    if volume > TINY {
      DivMulCancel(WindowSum(Flows(candles), i, period), volume);
    }
  }

  /** Garman-Klass, where it is not cut at zero: half the squared range, less (2 ln 2 - 1) of the squared move. */
  lemma GKIs(c: Candle, log: real -> real, range: real, move: real)
    requires c.low > 0.0 && c.open > 0.0 && range == log(c.high / c.low) && move == log(c.close / c.open)
    ensures var v := range * range / 2.0 - 0.3862943611198906 * (move * move);
            GKVariance(c, log) == if v < 0.0 then 0.0 else v
  {
    assert 0.5 * (range * range) == range * range / 2.0;
  }

  /** Parkinson: the squared range is 4 ln 2 variances. */
  lemma ParkinsonIs(c: Candle, log: real -> real, range: real)
    requires c.low > 0.0 && range == log(c.high / c.low)
    ensures ParkinsonVariance(c, log) * 2.772588722239781 == range * range
  {
    DivMulCancel(range * range, PARKINSON_FACTOR);
  }
}
