/** Streaming peak and drawdown: the latched circuit breaker, the backtest's capital loop and its bootstrap paths. */
module Drawdown {
  import opened Common

  // ------------------------------------------------- streaming and pairwise

  function Peak(curve: seq<real>): (p: real)
    requires curve != []
    ensures p in curve && forall k | 0 <= k < |curve| :: curve[k] <= p
  {
    var last := curve[|curve| - 1];
    if |curve| == 1 then last
    else
      var before := curve[..|curve| - 1];
      assert curve == before + [last];
      Max(last, Peak(before))
  }

  /** The fall from `high` to `low`, as a fraction of `high`. */
  function Fall(high: real, low: real): real
    requires high != 0.0
  {
    (high - low) / high
  }

  function Share(fraction: real, level: real): real {
    fraction * level
  }

  lemma FallAtLeast(high: real, low: real, limit: real)
    requires high > 0.0
    ensures Fall(high, low) >= limit <==> high - low >= Share(limit, high)
    ensures Fall(high, high) == 0.0
  {
    DivMulCancel(high - low, high);
    MulDivCancel(limit, high);
    if Fall(high, low) >= limit {
      MulMonotone(limit, Fall(high, low), high);
    } else {
      MulMonotone(Fall(high, low), limit, high);
    }
    if high - low >= limit * high {
      DivMonotone(limit * high, high - low, high);
    } else {
      DivMonotone(high - low, limit * high, high);
    }
  }

  /** From a higher peak, a fall to a non-negative level is at least as deep. */
  lemma FallFromHigher(high: real, higher: real, low: real)
    requires 0.0 < high <= higher && low >= 0.0
    ensures Fall(high, low) <= Fall(higher, low)
  {
    DivAntitone(low, high, higher);
    FallAsShare(high, low);
    FallAsShare(higher, low);
  }

  lemma FallAsShare(high: real, low: real)
    requires high > 0.0
    ensures Fall(high, low) == 1.0 - low / high
  {
    assert high / high == 1.0;
    assert (high - low) / high == high / high - low / high;
  }

  /** The deepest fall below the running peak, as the loops track it; 0 for a curve that never falls. */
  function MaxDrawdown(curve: seq<real>): (dd: real)
    requires curve != [] && curve[0] > 0.0
    ensures dd >= 0.0
  {
    if |curve| == 1 then 0.0
    else
      var before := curve[..|curve| - 1];
      PeakPositive(curve);
      Max(MaxDrawdown(before), Fall(Peak(curve), curve[|curve| - 1]))
  }

  lemma PeakPositive(curve: seq<real>)
    requires curve != [] && curve[0] > 0.0
    ensures Peak(curve) > 0.0
  {
  }

  /** A point and a later point no less than `dd` below it. */
  ghost predicate FallReached(curve: seq<real>, i: nat, j: nat, dd: real) {
    i <= j < |curve| && curve[i] > 0.0 && Fall(curve[i], curve[j]) >= dd
  }

  /** The streaming drawdown is reached by some earlier point and a later one. */
  lemma {:induction false} DrawdownReached(curve: seq<real>)
    requires curve != [] && curve[0] > 0.0
    ensures exists i: nat, j: nat :: FallReached(curve, i, j, MaxDrawdown(curve))
    decreases |curve|
  {
    var n := |curve| - 1;
    hide Fall;
    if n == 0 {
      FallAtLeast(curve[0], curve[0], 0.0);
      assert FallReached(curve, 0, 0, MaxDrawdown(curve));
    } else {
      PeakPositive(curve);
      DrawdownReached(curve[..n]);
      var i: nat, j: nat :| FallReached(curve[..n], i, j, MaxDrawdown(curve[..n]));
      var p :| 0 <= p < |curve| && curve[p] == Peak(curve);
      if MaxDrawdown(curve) == MaxDrawdown(curve[..n]) {
        assert FallReached(curve, i, j, MaxDrawdown(curve));
      } else {
        assert FallReached(curve, p, n, MaxDrawdown(curve));
      }
    }
  }

  /** While equity stays non-negative the streaming drawdown bounds every fall between two points. */
  lemma {:induction false} DrawdownBoundsFalls(curve: seq<real>, i: nat, j: nat)
    requires curve != [] && curve[0] > 0.0 && i <= j < |curve| && curve[i] > 0.0
    requires forall k | 0 <= k < |curve| :: curve[k] >= 0.0
    ensures Fall(curve[i], curve[j]) <= MaxDrawdown(curve)
    decreases |curve|
  {
    var n := |curve| - 1;
    if j == n {
      PeakPositive(curve);
      FallFromHigher(curve[i], Peak(curve), curve[j]);
      if n == 0 {
        FallAtLeast(curve[0], curve[0], 0.0);
      }
    } else {
      DrawdownBoundsFalls(curve[..n], i, j);
    }
    hide Fall;
  }

  /** A single negative level is enough to make the streaming value too small, whatever that level is. */
  lemma NegativeEquityUndercounts(low: real)
    requires low < 0.0
    ensures var curve := [1.0, 2.0, low];
            Fall(curve[0], curve[2]) > MaxDrawdown(curve)
  {
    var curve := [1.0, 2.0, low];
    assert curve[..2] == [1.0, 2.0] && curve[..2][..1] == [1.0];
    assert Peak([1.0]) == 1.0 && Peak([1.0, 2.0]) == 2.0 && Peak(curve) == 2.0;
    FallAsShare(1.0, low);
    FallAsShare(2.0, low);
    FallAsShare(2.0, 2.0);
    assert MaxDrawdown([1.0, 2.0]) == Max(0.0, Fall(2.0, 2.0));
    assert MaxDrawdown(curve) == Max(MaxDrawdown([1.0, 2.0]), Fall(2.0, low));
  }

  /** No fall from a positive level to a later one exceeds the streaming drawdown. */
  ghost predicate BoundsEveryFall(curve: seq<real>)
    requires curve != [] && curve[0] > 0.0
  {
    forall i, j | 0 <= i <= j < |curve| && curve[i] > 0.0 :: Fall(curve[i], curve[j]) <= MaxDrawdown(curve)
  }

  ghost predicate StaysAbove(curve: seq<real>, low: real) {
    curve != [] && curve[0] > 0.0 && forall k | 0 <= k < |curve| :: curve[k] >= low
  }

  /** It bounds every fall, of every curve that stays above a level, exactly when that level is not negative. */
  lemma DrawdownExactIff(low: real)
    ensures (forall curve: seq<real> | StaysAbove(curve, low) :: BoundsEveryFall(curve)) <==> low >= 0.0
  {
    if low >= 0.0 {
      forall curve: seq<real> | StaysAbove(curve, low)
        ensures BoundsEveryFall(curve)
      {
        forall i, j | 0 <= i <= j < |curve| && curve[i] > 0.0
          ensures Fall(curve[i], curve[j]) <= MaxDrawdown(curve)
        {
          DrawdownBoundsFalls(curve, i, j);
        }
        hide Fall, MaxDrawdown;
      }
    } else {
      NegativeEquityUndercounts(low);
      var curve := [1.0, 2.0, low];
      hide Fall, MaxDrawdown;
      assert StaysAbove(curve, low) && !BoundsEveryFall(curve);
    }
  }

  // --------------------------------------------------------- circuit breaker

  /** Some sample was at or beyond the limit below an earlier level. */
  ghost predicate Breached(levels: seq<real>, limit: real) {
    exists i: nat, j: nat :: BreachedAt(levels, limit, i, j)
  }

  /** `levels[0]` is the level the breaker started or was reset at; only later ones are samples. */
  ghost predicate BreachedAt(levels: seq<real>, limit: real, i: nat, j: nat) {
    0 < j < |levels| && i <= j && levels[i] > 0.0 && levels[i] - levels[j] >= Share(limit, levels[i])
  }

  class CircuitBreaker {
    var peakEquity: real
    var currEquity: real
    const maxDDPct: real
    var isHalted: bool
    /** The level at the last start or reset, followed by every sample since. */
    ghost var levels: seq<real>

    ghost predicate Valid()
      reads this
    {
      && levels != []
      && peakEquity == Peak(levels) && currEquity == levels[|levels| - 1]
      && (isHalted <==> PeakBreached(levels, maxDDPct))
    }

    constructor (initialCapital: real, maxDrawdownPct: real)
      ensures Valid() && levels == [initialCapital] && maxDDPct == maxDrawdownPct
    {
      peakEquity, currEquity, maxDDPct, isHalted := initialCapital, initialCapital, maxDrawdownPct, false;
      levels := [initialCapital];
    }

    method UpdateEquity(equity: real)
      requires Valid()
      modifies this
      ensures Valid() && levels == old(levels) + [equity]
    {
      hide PeakBreached, Peak, Fall, Share;
      PeakBreachedNext(levels, equity, maxDDPct);
      PeakNext(levels, equity);
      levels := levels + [equity];
      currEquity := equity;
      if equity > peakEquity {
        peakEquity := equity;
      }
      if peakEquity > 0.0 {
        var dd := Fall(peakEquity, equity);
        FallAtLeast(peakEquity, equity, maxDDPct);
        if dd >= maxDDPct {
          isHalted := true;
        }
      }
    }

    /** Halted exactly when a sample since the last reset fell by the limit from some earlier level. */
    method IsHalted() returns (halted: bool)
      requires Valid()
      ensures halted <==> PeakBreached(levels, maxDDPct)
      ensures maxDDPct <= 1.0 ==> (halted <==> Breached(levels, maxDDPct))
    {
      halted := isHalted;
      if maxDDPct <= 1.0 {
        PeakBreachedIffBreached(levels, maxDDPct);
      }
    }

    method CurrentDrawdownPct() returns (dd: real)
      requires Valid()
      ensures Peak(levels) <= 0.0 ==> dd == 0.0
      ensures Peak(levels) > 0.0 ==> dd == Fall(Peak(levels), levels[|levels| - 1]) * 100.0 && dd >= 0.0
    {
      if peakEquity <= 0.0 {
        return 0.0;
      }
      FallAtLeast(peakEquity, currEquity, 0.0);
      dd := Fall(peakEquity, currEquity) * 100.0;
      if dd < 0.0 {
        return 0.0;
      }
    }

    method Reset()
      requires Valid()
      modifies this
      ensures Valid() && levels == [old(currEquity)] && !isHalted
    {
      isHalted := false;
      peakEquity := currEquity;
      levels := [currEquity];
    }
  }

  /** What the breaker compares: a sample against the running peak, itself included. */
  ghost predicate PeakBreached(levels: seq<real>, limit: real)
    requires levels != []
  {
    |levels| > 1 &&
    (PeakBreached(levels[..|levels| - 1], limit) ||
     (Peak(levels) > 0.0 && Peak(levels) - levels[|levels| - 1] >= Share(limit, Peak(levels))))
  }

  lemma PeakNext(levels: seq<real>, level: real)
    requires levels != []
    ensures Peak(levels + [level]) == Max(level, Peak(levels))
  {
    assert (levels + [level])[..|levels|] == levels;
  }

  lemma PeakBreachedNext(levels: seq<real>, level: real, limit: real)
    requires levels != []
    ensures PeakBreached(levels + [level], limit) <==>
            PeakBreached(levels, limit) ||
            (Peak(levels + [level]) > 0.0 && Peak(levels + [level]) - level >= Share(limit, Peak(levels + [level])))
  {
    assert (levels + [level])[..|levels|] == levels;
  }

  /** With a limit of at most the whole equity, comparing with the peak alone finds a breach iff any pair is one. */
  lemma {:induction false} PeakBreachedIffBreached(levels: seq<real>, limit: real)
    requires levels != [] && limit <= 1.0
    ensures PeakBreached(levels, limit) <==> Breached(levels, limit)
    decreases |levels|
  {
    var n := |levels| - 1;
    if n > 0 {
      var before := levels[..n];
      PeakBreachedIffBreached(before, limit);
      hide Share;
      if PeakBreached(before, limit) {
        var i: nat, j: nat :| BreachedAt(before, limit, i, j);
        assert BreachedAt(levels, limit, i, j);
      } else if PeakBreached(levels, limit) {
        var p :| 0 <= p < |levels| && levels[p] == Peak(levels);
        assert BreachedAt(levels, limit, p, n);
      }
      if Breached(levels, limit) {
        var i: nat, j: nat :| BreachedAt(levels, limit, i, j);
        if j < n {
          assert BreachedAt(before, limit, i, j);
        } else {
          PeakFallsFurther(levels[i], Peak(levels), levels[n], limit);
        }
      }
    }
  }

  lemma PeakFallsFurther(level: real, peak: real, low: real, limit: real)
    requires level <= peak && limit <= 1.0 && level - low >= Share(limit, level)
    ensures peak - low >= Share(limit, peak)
  {
    MulMonotone(level, peak, 1.0 - limit);
  }

  /** With a limit above the whole equity the latched form can miss a pair: it is exact iff the limit is at most 1. */
  lemma BreakerExactIff(limit: real)
    ensures limit <= 1.0 <==> forall levels: seq<real> | levels != [] ::
              PeakBreached(levels, limit) <==> Breached(levels, limit)
  {
    if limit <= 1.0 {
      forall levels: seq<real> | levels != []
        ensures PeakBreached(levels, limit) <==> Breached(levels, limit)
      {
        PeakBreachedIffBreached(levels, limit);
      }
    } else {
      var levels := [1.0, 2.0, 1.0 - limit];
      assert BreachedAt(levels, limit, 0, 2);
      assert levels[..2] == [1.0, 2.0] && levels[..2][..1] == [1.0];
      assert Peak([1.0]) == 1.0 && Peak([1.0, 2.0]) == 2.0 && Peak(levels) == 2.0;
      assert !PeakBreached([1.0, 2.0], limit);
      assert !PeakBreached(levels, limit) && Breached(levels, limit);
    }
  }

  // ------------------------------------------------------------- backtesting

  function Sum(v: seq<real>): real {
    if v == [] then 0.0 else Sum(v[..|v| - 1]) + v[|v| - 1]
  }

  /** Capital bar by bar: `closed[i]` is the net result of the trade bar `i` closes, if it closes one. */
  function EquityCurve(initial: real, closed: seq<Option<real>>): (curve: seq<real>)
    ensures |curve| == |closed| + 1 && curve[0] == initial
  {
    if closed == [] then [initial]
    else
      var n := |closed| - 1;
      var before := EquityCurve(initial, closed[..n]);
      before + [before[n] + if closed[n].Some? then closed[n].value else 0.0]
  }

  /** Every level of the curve is the initial capital plus the results of the trades closed by then. */
  lemma {:induction false} CurveIsSum(initial: real, closed: seq<Option<real>>, i: nat)
    requires i <= |closed|
    ensures EquityCurve(initial, closed)[i] == initial + Sum(Closes(closed[..i]))
    decreases |closed|
  {
    var n := |closed| - 1;
    if i <= n {
      CurveIsSum(initial, closed[..n], i);
      assert closed[..n][..i] == closed[..i];
    } else {
      assert closed[..i] == closed;
      if n >= 0 {
        CurveIsSum(initial, closed[..n], n);
        assert closed[..n][..n] == closed[..n];
        var trades := Closes(closed);
        if closed[n].Some? {
          assert trades[..|trades| - 1] == Closes(closed[..n]);
          assert Sum(trades) == Sum(Closes(closed[..n])) + closed[n].value;
        } else {
          assert trades == Closes(closed[..n]);
        }
      }
    }
  }

  /** The net results of the trades, in order. */
  function Closes(closed: seq<Option<real>>): seq<real> {
    if closed == [] then []
    else
      var last := closed[|closed| - 1];
      Closes(closed[..|closed| - 1]) + if last.Some? then [last.value] else []
  }

  /** The peak and drawdown after one more level of a curve, as both loops update them. */
  method TrackLevel(ghost curve: seq<real>, peak: real, maxDrawdown: real, level: real)
    returns (newPeak: real, newDrawdown: real)
    requires curve != [] && curve[0] > 0.0 && peak == Peak(curve) && maxDrawdown == MaxDrawdown(curve)
    ensures newPeak == Peak(curve + [level]) && newDrawdown == MaxDrawdown(curve + [level])
  {
    hide Fall;
    newPeak, newDrawdown := peak, maxDrawdown;
    if level > peak {
      newPeak := level;
    }
    CurveNext(curve, level, newPeak);
    var dd := Fall(newPeak, level);
    if dd > maxDrawdown {
      newDrawdown := dd;
    }
  }

  /**
   * The capital side of the bar loop: the ending capital is the initial capital plus all trade results,
   * and the reported drawdown is that of the reported curve.
   */
  method TrackCapital(initial: real, closed: seq<Option<real>>)
    returns (capital: real, maxDrawdown: real, trades: seq<real>, curve: seq<real>)
    requires initial > 0.0
    ensures curve == EquityCurve(initial, closed) && trades == Closes(closed)
    ensures capital == initial + Sum(trades) && capital == curve[|curve| - 1]
    ensures maxDrawdown == MaxDrawdown(curve)
  {
    hide *;
    capital, maxDrawdown, trades, curve := initial, 0.0, [], [initial];
    var peakCapital := initial;
    StartOfCurve(initial, 0.0);
    assert closed[..|closed|] == closed && closed[..0] == [];
    CurveIsSum(initial, closed, |closed|);
    for i := 0 to |closed|
      invariant curve == EquityCurve(initial, closed[..i]) && trades == Closes(closed[..i])
      invariant |curve| == i + 1 && curve[0] == initial && capital == curve[i]
      invariant peakCapital == Peak(curve) && maxDrawdown == MaxDrawdown(curve)
    {
      EquityNext(initial, closed, i);
      ghost var before := capital;
      if closed[i].Some? {
        capital := capital + closed[i].value;
        trades := trades + [closed[i].value];
      }
      assert capital == before + if closed[i].Some? then closed[i].value else 0.0;
      peakCapital, maxDrawdown := TrackLevel(curve, peakCapital, maxDrawdown, capital);
      curve := curve + [capital];
    }
  }

  /** One more level, given the peak including it. */
  lemma CurveNext(curve: seq<real>, level: real, peak: real)
    requires curve != [] && curve[0] > 0.0
    requires peak == if level > Peak(curve) then level else Peak(curve)
    ensures Peak(curve + [level]) == peak && peak > 0.0
    ensures MaxDrawdown(curve + [level]) ==
            if Fall(peak, level) > MaxDrawdown(curve) then Fall(peak, level) else MaxDrawdown(curve)
  {
    PeakPositive(curve);
    hide Fall;
    assert (curve + [level])[..|curve|] == curve;
    PeakNext(curve, level);
  }

  lemma StartOfCurve(initial: real, threshold: real)
    requires initial > 0.0
    ensures Peak([initial]) == initial && MaxDrawdown([initial]) == 0.0 && !Ruined([initial], threshold)
    ensures EquityCurve(initial, []) == [initial] && Closes([]) == [] && PathCurve(initial, []) == [initial]
  {
  }

  lemma EquityNext(initial: real, closed: seq<Option<real>>, i: nat)
    requires i < |closed|
    ensures var before, after := closed[..i], closed[..i + 1];
            && EquityCurve(initial, after) == EquityCurve(initial, before)
               + [EquityCurve(initial, before)[i] + if closed[i].Some? then closed[i].value else 0.0]
            && Closes(after) == if closed[i].Some? then Closes(before) + [closed[i].value] else Closes(before)
  {
    assert closed[..i + 1][..i] == closed[..i];
  }

  lemma PathNext(initial: real, returns_: seq<real>, i: nat)
    requires i < |returns_|
    ensures var before := PathCurve(initial, returns_[..i]);
            PathCurve(initial, returns_[..i + 1]) == before + [before[i] + Share(before[i], returns_[i])]
  {
    assert returns_[..i + 1][..i] == returns_[..i];
  }

  /** Capital along one bootstrap path of resampled returns. */
  function PathCurve(initial: real, returns_: seq<real>): (curve: seq<real>)
    ensures |curve| == |returns_| + 1 && curve[0] == initial
  {
    if returns_ == [] then [initial]
    else
      var n := |returns_| - 1;
      var before := PathCurve(initial, returns_[..n]);
      before + [before[n] + Share(before[n], returns_[n])]
  }

  /** Some step of the path ended at or below the threshold. */
  ghost predicate Ruined(curve: seq<real>, threshold: real) {
    exists k | 0 < k < |curve| :: curve[k] <= threshold
  }

  lemma RuinedNext(curve: seq<real>, level: real, threshold: real)
    requires curve != []
    ensures Ruined(curve + [level], threshold) <==> Ruined(curve, threshold) || level <= threshold
  {
    var next := curve + [level];
    assert next[|curve|] == level && forall k | 0 <= k < |curve| :: next[k] == curve[k];
    if Ruined(curve, threshold) {
      var k :| 0 < k < |curve| && curve[k] <= threshold;
      assert next[k] <= threshold;
    }
  }

  /** One path: its drawdown is that of its curve, and it counts as ruined iff some step ends at half or below. */
  method SimulatePath(initial: real, returns_: seq<real>) returns (capital: real, maxDrawdown: real, ruined: bool)
    requires initial > 0.0
    ensures var curve := PathCurve(initial, returns_);
            && capital == curve[|returns_|] && maxDrawdown == MaxDrawdown(curve)
            && (ruined <==> Ruined(curve, initial * 0.5))
  {
    hide *;
    capital, maxDrawdown, ruined := initial, 0.0, false;
    var peak := initial;
    var threshold := initial * 0.5;
    StartOfCurve(initial, threshold);
    assert returns_[..|returns_|] == returns_ && returns_[..0] == [];
    for i := 0 to |returns_|
      invariant capital == PathCurve(initial, returns_[..i])[i]
      invariant peak == Peak(PathCurve(initial, returns_[..i]))
                && maxDrawdown == MaxDrawdown(PathCurve(initial, returns_[..i]))
      invariant ruined <==> Ruined(PathCurve(initial, returns_[..i]), threshold)
    {
      PathNext(initial, returns_, i);
      ghost var curve := PathCurve(initial, returns_[..i]);
      capital := capital + Share(capital, returns_[i]);
      peak, maxDrawdown := TrackLevel(curve, peak, maxDrawdown, capital);
      RuinedNext(curve, capital, threshold);
      if capital <= threshold {
        ruined := true;
      }
    }
  }

  /** If no trade loses more than it staked, a path never goes below zero, so its drawdown bounds every fall on it. */
  lemma {:induction false} PathStaysNonNegative(initial: real, returns_: seq<real>)
    requires initial > 0.0 && forall k | 0 <= k < |returns_| :: returns_[k] >= -1.0
    ensures forall k | 0 <= k < |PathCurve(initial, returns_)| :: PathCurve(initial, returns_)[k] >= 0.0
    decreases |returns_|
  {
    if returns_ != [] {
      var n := |returns_| - 1;
      PathStaysNonNegative(initial, returns_[..n]);
      var level := PathCurve(initial, returns_[..n])[n];
      MulMonotone(-1.0, returns_[n], level);
      assert Share(level, returns_[n]) >= -level;
      hide Share;
    }
  }
}
