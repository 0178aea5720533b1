/** Macro regime scoring and the three-tier capital allocator it steers. */
module Allocator {
  import opened Common

  // ----------------------------------------------------------------- rounding

  lemma GridOrder(x: real, y: real, k: nat)
    requires x <= y
    ensures GridIndex(x, k) <= GridIndex(y, k)
  {
    MulMonotone(x, y, k as real);
    RoundAwayMonotone(x * k as real, y * k as real);
  }

  lemma RoundAwayMonotone(x: real, y: real)
    requires x <= y
    ensures RoundAway(x) <= RoundAway(y)
  {
  }

  lemma GridPoint(n: int, k: nat)
    requires k > 0
    ensures GridIndex(n as real / k as real, k) == n
  {
    DivMulCancel(n as real, k as real);
  }

  /** A value between two grid points rounds to a grid point between them. */
  lemma RoundWithin(x: real, k: nat, lo: int, hi: int)
    requires k > 0 && lo as real / k as real <= x <= hi as real / k as real
    ensures lo <= GridIndex(x, k) <= hi
    ensures lo as real / k as real <= RoundTo(x, k) <= hi as real / k as real
  {
    hide GridIndex;
    GridOrder(lo as real / k as real, x, k);
    GridOrder(x, hi as real / k as real, k);
    GridPoint(lo, k);
    GridPoint(hi, k);
    DivMonotone(lo as real, GridIndex(x, k) as real, k as real);
    DivMonotone(GridIndex(x, k) as real, hi as real, k as real);
  }

  lemma RoundToMonotone(x: real, y: real, k: nat)
    requires k > 0 && x <= y
    ensures RoundTo(x, k) <= RoundTo(y, k)
  {
    hide GridIndex;
    GridOrder(x, y, k);
    DivMonotone(GridIndex(x, k) as real, GridIndex(y, k) as real, k as real);
  }

  /** A grid point rounds to itself. */
  lemma RoundGridPoint(n: int, k: nat)
    requires k > 0
    ensures RoundTo(n as real / k as real, k) == n as real / k as real
  {
    hide GridIndex;
    GridPoint(n, k);
  }

  // ------------------------------------------------------------- macro regime

  datatype Indicators = Indicators(geopolitical: real, inflation: real, interestRate: real)

  datatype Kind = Crisis | Normal | DovishExpansion

  datatype Regime = Regime(score: real, kind: Kind, tier1: real, core: real, alpha: real)

  function Clamp01(x: real): (r: real)
    ensures 0.0 <= r <= 1.0
  {
    if x < 0.0 then 0.0 else if x > 1.0 then 1.0 else x
  }

  function Stress(ind: Indicators): (s: real)
    ensures 0.0 <= s <= 1.0
  {
    0.40 * Clamp01(ind.geopolitical) + 0.35 * Clamp01(ind.inflation) + 0.25 * Clamp01(ind.interestRate)
  }

  function Round4(x: real): real {
    RoundTo(x, 10000)
  }

  /** The unrounded targets for a score. */
  function Targets(score: real): (r: Regime) {
    if score >= 0.65 then
      var t := Min(1.0, (score - 0.65) / 0.35);
      var core, tier1 := 0.55 + 0.05 * t, 0.20 + 0.05 * t;
      Regime(score, Crisis, tier1, core, 1.0 - (core + tier1))
    else if score < 0.35 then
      var core := 0.35 + 0.05 * (score / 0.35);
      Regime(score, DovishExpansion, 0.15, core, 1.0 - (core + 0.15))
    else Regime(score, Normal, 0.15, 0.45, 0.40)
  }

  /** Rounding to four decimals, the residual moved into the alpha tier. */
  function Corrected(raw: Regime): Regime {
    var tier1, core, alpha := Round4(raw.tier1), Round4(raw.core), Round4(raw.alpha);
    raw.(tier1 := tier1, core := core, alpha := alpha + Round4(1.0 - (tier1 + core + alpha)))
  }

  function CalculateRegime(ind: Indicators): Regime {
    Corrected(Targets(RoundTo(Stress(ind), 1000)))
  }

  lemma ScoreInUnit(ind: Indicators)
    ensures 0.0 <= RoundTo(Stress(ind), 1000) <= 1.0
  {
    hide Stress;
    RoundWithin(Stress(ind), 1000, 0, 1000);
  }

  /** The unrounded targets on grid points: the bounds of each regime. */
  lemma TargetBounds(score: real)
    requires 0.0 <= score <= 1.0
    ensures var r := Targets(score);
            && r.tier1 + r.core + r.alpha == 1.0
            && match r.kind {
                 case Crisis => 0.20 <= r.tier1 <= 0.25 && 0.55 <= r.core <= 0.60
                 case Normal => r.tier1 == 0.15 && r.core == 0.45
                 case DovishExpansion => r.tier1 == 0.15 && 0.35 <= r.core <= 0.40
               }
  {
  }

  lemma Round4Within(x: real, lo: int, hi: int)
    requires lo as real / 10000.0 <= x <= hi as real / 10000.0
    ensures lo as real / 10000.0 <= Round4(x) <= hi as real / 10000.0
  {
    hide GridIndex;
    RoundWithin(x, 10000, lo, hi);
  }

  lemma Round4Lands(x: real) returns (n: int)
    ensures Round4(x) == n as real / 10000.0
  {
    n := GridIndex(x, 10000);
  }

  /** The residual correction is exact: whatever alpha rounded to, it ends as one minus the other two. */
  lemma ResidualExact(a: int, b: int, c: int)
    ensures var tier1, core, alpha := a as real / 10000.0, b as real / 10000.0, c as real / 10000.0;
            alpha + Round4(1.0 - (tier1 + core + alpha)) == 1.0 - tier1 - core
  {
    RoundGridPoint(10000 - a - b - c, 10000);
  }

  /** Rounded targets sum to exactly one and lie in the ranges documented for the regime. */
  lemma TargetsExact(ind: Indicators)
    ensures var r := CalculateRegime(ind);
            && 0.0 <= r.score <= 1.0
            && r.tier1 + r.core + r.alpha == 1.0
            && match r.kind {
                 case Crisis => 0.20 <= r.tier1 <= 0.25 && 0.55 <= r.core <= 0.60 && 0.15 <= r.alpha <= 0.25
                 case Normal => r.tier1 == 0.15 && r.core == 0.45 && r.alpha == 0.40
                 case DovishExpansion => r.tier1 == 0.15 && 0.35 <= r.core <= 0.40 && 0.45 <= r.alpha <= 0.50
               }
  {
    ScoreInUnit(ind);
    var raw := Targets(RoundTo(Stress(ind), 1000));
    TargetBounds(RoundTo(Stress(ind), 1000));
    hide Targets, Stress, RoundTo, Corrected;
    match raw.kind {
      case Crisis => CorrectedExact(raw, 2000, 2500, 5500, 6000);
      case Normal => CorrectedExact(raw, 1500, 1500, 4500, 4500);
      case DovishExpansion => CorrectedExact(raw, 1500, 1500, 3500, 4000);
    }
  }

  lemma CorrectedExact(raw: Regime, tierLo: int, tierHi: int, coreLo: int, coreHi: int)
    requires tierLo as real / 10000.0 <= raw.tier1 <= tierHi as real / 10000.0
    requires coreLo as real / 10000.0 <= raw.core <= coreHi as real / 10000.0
    ensures var r := Corrected(raw);
            && tierLo as real / 10000.0 <= r.tier1 <= tierHi as real / 10000.0
            && coreLo as real / 10000.0 <= r.core <= coreHi as real / 10000.0
            && r.tier1 + r.core + r.alpha == 1.0
            && r.score == raw.score && r.kind == raw.kind
  {
    hide Round4;
    Round4Within(raw.tier1, tierLo, tierHi);
    Round4Within(raw.core, coreLo, coreHi);
    var a := Round4Lands(raw.tier1);
    var b := Round4Lands(raw.core);
    var c := Round4Lands(raw.alpha);
    ResidualExact(a, b, c);
  }

  /** Each indicator at least as stressed. */
  predicate AtLeastAsStressed(a: Indicators, b: Indicators) {
    a.geopolitical <= b.geopolitical && a.inflation <= b.inflation && a.interestRate <= b.interestRate
  }

  lemma TargetsMonotone(s: real, t: real)
    requires 0.0 <= s <= t <= 1.0
    ensures Targets(s).tier1 <= Targets(t).tier1 && Targets(s).core <= Targets(t).core
  {
    DivMonotone(s - 0.65, t - 0.65, 0.35);
    DivMonotone(s, t, 0.35);
  }

  /** Flight to safety, end to end: more stress never lowers the cash or core target and never raises alpha. */
  lemma StressShiftsToSafety(a: Indicators, b: Indicators)
    requires AtLeastAsStressed(a, b)
    ensures var calm, tense := CalculateRegime(a), CalculateRegime(b);
            calm.score <= tense.score && calm.tier1 <= tense.tier1 && calm.core <= tense.core
              && calm.alpha >= tense.alpha
  {
    MoreStress(a, b);
    hide RoundTo, Stress, Targets, AtLeastAsStressed;
    TargetsExact(a);
    TargetsExact(b);
    ScoreInUnit(a);
    ScoreInUnit(b);
    RoundToMonotone(Stress(a), Stress(b), 1000);
    var s, t := RoundTo(Stress(a), 1000), RoundTo(Stress(b), 1000);
    TargetsMonotone(s, t);
    RoundToMonotone(Targets(s).tier1, Targets(t).tier1, 10000);
    RoundToMonotone(Targets(s).core, Targets(t).core, 10000);
    TargetsKeepScore(s);
    TargetsKeepScore(t);
  }

  lemma TargetsKeepScore(score: real)
    ensures Targets(score).score == score
  {
  }

  lemma MoreStress(a: Indicators, b: Indicators)
    requires AtLeastAsStressed(a, b)
    ensures Stress(a) <= Stress(b)
  {
  }

  // ------------------------------------------------------------ the allocator

  datatype Book = Book(total: real, tier1Cash: real, tier1Pct: real, corePct: real, alphaPct: real)

  datatype AllocError = NegativeCapital | ExcessiveWithdrawal

  datatype Op = ApplyRegime(ind: Indicators) | Debit(amount: real) | Sweep(amount: real) | Deposit(amount: real)

  const BASELINE: Indicators := Indicators(0.70, 0.55, 0.65)

  function Held(total: real, pct: real): real {
    total * pct
  }

  /** Missing targets come from the baseline regime when all are missing, else from the fixed defaults. */
  function NewBook(total: real, tier1: real, core: real, alpha: real): Book {
    if tier1 <= 0.0 && core <= 0.0 && alpha <= 0.0 then
      var r := CalculateRegime(BASELINE);
      Book(total, Held(total, r.tier1), r.tier1, r.core, r.alpha)
    else
      var t := if tier1 <= 0.0 then 0.15 else tier1;
      Book(total, Held(total, t), t, if core <= 0.0 then 0.45 else core, if alpha <= 0.0 then 0.40 else alpha)
  }

  predicate DebitAccepted(b: Book, amount: real) {
    0.0 < amount <= b.tier1Cash
  }

  function Step(b: Book, op: Op): Book {
    match op
    case ApplyRegime(ind) =>
      var r := CalculateRegime(ind);
      b.(tier1Pct := r.tier1, corePct := r.core, alphaPct := r.alpha)
    case Debit(amount) =>
      if DebitAccepted(b, amount) then b.(tier1Cash := b.tier1Cash - amount, total := Max(0.0, b.total - amount)) else b
    case Sweep(amount) =>
      if amount > 0.0 then b.(tier1Cash := b.tier1Cash + amount, total := b.total + amount) else b
    case Deposit(amount) =>
      if amount > 0.0 then b.(total := b.total + amount, tier1Cash := b.tier1Cash + Held(amount, b.tier1Pct)) else b
  }

  function Run(b: Book, ops: seq<Op>): Book {
    if ops == [] then b else Step(Run(b, ops[..|ops| - 1]), ops[|ops| - 1])
  }

  /** What the accepted operations bring in, less what they take out. */
  function NetInflow(b: Book, ops: seq<Op>): real {
    if ops == [] then 0.0
    else
      var before, op := ops[..|ops| - 1], ops[|ops| - 1];
      NetInflow(b, before) + match op {
        case ApplyRegime(_) => 0.0
        case Debit(amount) => if DebitAccepted(Run(b, before), amount) then -amount else 0.0
        case Sweep(amount) => Max(0.0, amount)
        case Deposit(amount) => Max(0.0, amount)
      }
  }

  class Allocator {
    var totalCapital: real
    var tier1Cash: real
    var tier1TargetPct: real
    var coreTargetPct: real
    var alphaTargetPct: real
    var macroState: Regime

    function View(): Book
      reads this
    {
      Book(totalCapital, tier1Cash, tier1TargetPct, coreTargetPct, alphaTargetPct)
    }

    constructor (total: real, tier1: real, core: real, alpha: real)
      ensures View() == NewBook(total, tier1, core, alpha) && macroState == CalculateRegime(BASELINE)
    {
      hide CalculateRegime;
      var t, c, a := tier1, core, alpha;
      var state := CalculateRegime(BASELINE);
      if tier1 <= 0.0 && core <= 0.0 && alpha <= 0.0 {
        t, c, a := state.tier1, state.core, state.alpha;
      } else {
        if t <= 0.0 {
          t := 0.15;
        }
        if c <= 0.0 {
          c := 0.45;
        }
        if a <= 0.0 {
          a := 0.40;
        }
      }
      macroState := state;
      totalCapital, tier1Cash := total, Held(total, t);
      tier1TargetPct, coreTargetPct, alphaTargetPct := t, c, a;
    }

    method ApplyMacroRegime(ind: Indicators) returns (state: Regime)
      modifies this
      ensures View() == Step(old(View()), ApplyRegime(ind)) && macroState == state == CalculateRegime(ind)
    {
      hide CalculateRegime;
      state := CalculateRegime(ind);
      macroState := state;
      tier1TargetPct, coreTargetPct, alphaTargetPct := state.tier1, state.core, state.alpha;
    }

    method DebitTier1Cash(amount: real) returns (r: Result<(), AllocError>)
      modifies this
      ensures View() == Step(old(View()), Debit(amount))
      ensures r == if amount <= 0.0 then Err(NegativeCapital)
              else if amount > old(tier1Cash) then Err(ExcessiveWithdrawal) else Ok(())
    {
      if amount <= 0.0 {
        return Err(NegativeCapital);
      }
      if amount > tier1Cash {
        return Err(ExcessiveWithdrawal);
      }
      tier1Cash := tier1Cash - amount;
      totalCapital := Max(0.0, totalCapital - amount);
      r := Ok(());
    }

    method SweepProfitToTier1(profit: real)
      modifies this
      ensures View() == Step(old(View()), Sweep(profit)) && macroState == old(macroState)
    {
      if profit > 0.0 {
        tier1Cash := tier1Cash + profit;
        totalCapital := totalCapital + profit;
      }
    }

    method AddCapital(amount: real)
      modifies this
      ensures View() == Step(old(View()), Deposit(amount)) && macroState == old(macroState)
    {
      if amount > 0.0 {
        totalCapital := totalCapital + amount;
        tier1Cash := tier1Cash + Held(amount, tier1TargetPct);
      }
    }
  }

  // --------------------------------------------------------------------- laws

  predicate Covered(b: Book) {
    0.0 <= b.tier1Cash <= b.total && 0.0 <= b.tier1Pct <= 1.0
  }

  lemma HeldWithin(amount: real, pct: real)
    requires amount >= 0.0 && 0.0 <= pct <= 1.0
    ensures 0.0 <= Held(amount, pct) <= amount
  {
    MulMonotone(0.0, pct, amount);
    MulMonotone(pct, 1.0, amount);
  }

  /**
   * A new allocator's cash is covered by its capital exactly when capital is non-negative and the cash target at
   * most all of it.
   */
  lemma NewBookCoveredIff(total: real, tier1: real, core: real, alpha: real)
    ensures Covered(NewBook(total, tier1, core, alpha))
            <==> total >= 0.0 && NewBook(total, tier1, core, alpha).tier1Pct <= 1.0
  {
    TargetsExact(BASELINE);
    hide CalculateRegime;
    var pct := NewBook(total, tier1, core, alpha).tier1Pct;
    if total >= 0.0 && pct <= 1.0 {
      HeldWithin(total, pct);
    }
  }

  lemma StepCovered(b: Book, op: Op)
    requires Covered(b)
    ensures Covered(Step(b, op))
  {
    if op.ApplyRegime? {
      TargetsExact(op.ind);
      hide CalculateRegime;
    } else if op.Deposit? && op.amount > 0.0 {
      HeldWithin(op.amount, b.tier1Pct);
      hide Held;
    }
  }

  /**
   * Over every run of regime updates, deposits, sweeps and withdrawals cash stays covered and capital balances
   * to the cent.
   */
  lemma {:induction false} RunBalances(b: Book, ops: seq<Op>)
    requires Covered(b)
    ensures Covered(Run(b, ops)) && Run(b, ops).total == b.total + NetInflow(b, ops)
    decreases |ops|
  {
    if ops != [] {
      var before := ops[..|ops| - 1];
      RunBalances(b, before);
      StepCovered(Run(b, before), ops[|ops| - 1]);
      hide CalculateRegime, Held;
    }
  }

  ghost predicate AlwaysBalances(b: Book) {
    forall ops :: Run(b, ops).total == b.total + NetInflow(b, ops)
  }

  /**
   * The clamp on capital never fires, over any run of a new allocator, exactly when its cash target is at most
   * all of it.
   */
  lemma BalancesIff(total: real, tier1: real, core: real, alpha: real)
    requires total >= 0.0
    ensures AlwaysBalances(NewBook(total, tier1, core, alpha)) <==> NewBook(total, tier1, core, alpha).tier1Pct <= 1.0
  {
    var b := NewBook(total, tier1, core, alpha);
    TargetsExact(BASELINE);
    hide CalculateRegime;
    if b.tier1Pct <= 1.0 {
      HeldWithin(total, b.tier1Pct);
      forall ops
        ensures Run(b, ops).total == b.total + NetInflow(b, ops)
      {
        RunBalances(b, ops);
      }
    } else {
      OverTargetBreaks(b);
    }
  }

  lemma OverTargetBreaks(b: Book)
    requires b.total >= 0.0 && b.tier1Pct > 1.0 && b.tier1Cash == Held(b.total, b.tier1Pct)
    ensures !AlwaysBalances(b)
  {
    hide CalculateRegime;
    MulMonotone(1.0, b.tier1Pct, b.total);
    var add := Deposit(1.0);
    var funded := Step(b, add);
    assert funded.total == b.total + 1.0 && funded.tier1Cash > funded.total;
    var take := Debit(funded.tier1Cash);
    var ops := [add, take];
    assert ops[..1] == [add] && [add][..0] == [];
    assert Run(b, []) == b && Run(b, [add]) == funded;
    assert NetInflow(b, [add]) == 1.0;
    assert Run(b, ops).total == 0.0;
    assert NetInflow(b, ops) == 1.0 - funded.tier1Cash;
  }

  // ------------------------------------------------------------ in plain terms

  /** Forty parts geopolitics, thirty-five inflation, twenty-five rates, each between nothing and all. */
  lemma StressIs(g: real, i: real, r: real)
    ensures 0.0 <= g <= 1.0 && 0.0 <= i <= 1.0 && 0.0 <= r <= 1.0 ==>
              100.0 * Stress(Indicators(g, i, r)) == 40.0 * g + 35.0 * i + 25.0 * r
    ensures g <= 0.0 ==> Stress(Indicators(g, i, r)) == Stress(Indicators(0.0, i, r))
    ensures g >= 1.0 ==> Stress(Indicators(g, i, r)) == Stress(Indicators(1.0, i, r))
    ensures i <= 0.0 ==> Stress(Indicators(g, i, r)) == Stress(Indicators(g, 0.0, r))
    ensures i >= 1.0 ==> Stress(Indicators(g, i, r)) == Stress(Indicators(g, 1.0, r))
    ensures r <= 0.0 ==> Stress(Indicators(g, i, r)) == Stress(Indicators(g, i, 0.0))
    ensures r >= 1.0 ==> Stress(Indicators(g, i, r)) == Stress(Indicators(g, i, 1.0))
  {
  }

  /** The unrounded targets: fixed in between, and a seventh of the distance to either threshold or end beyond. */
  lemma TargetsAre(score: real)
    requires 0.0 <= score <= 1.0
    ensures var r := Targets(score);
            && r.alpha == 1.0 - r.tier1 - r.core && r.score == score
            && (score >= 0.65 ==> r.kind == Crisis && 7.0 * (r.tier1 - 0.20) == score - 0.65
                                  && 7.0 * (r.core - 0.55) == score - 0.65)
            && (score < 0.35 ==> r.kind == DovishExpansion && r.tier1 == 0.15 && 7.0 * (r.core - 0.35) == score)
            && (0.35 <= score < 0.65 ==> r.kind == Normal && r.tier1 == 0.15 && r.core == 0.45)
  {
  }

  /** Rounding moves each target by at most half a ten-thousandth, and the score by half a thousandth. */
  lemma RegimeIsNear(ind: Indicators)
    ensures var r, raw := CalculateRegime(ind), Targets(CalculateRegime(ind).score);
            && Near(r.score, Stress(ind), 0.0005) && r.kind == raw.kind
            && Near(r.tier1, raw.tier1, 0.00005) && Near(r.core, raw.core, 0.00005)
  {
    var s := RoundTo(Stress(ind), 1000);
    TargetsKeepScore(s);
    hide RoundTo, Stress, Targets;
    RoundToIsNear(Stress(ind), 1000);
    RoundToIsNear(Targets(s).tier1, 10000);
    RoundToIsNear(Targets(s).core, 10000);
    assert 0.5 / 1000 as real == 0.0005 && 0.5 / 10000 as real == 0.00005;
  }

  predicate Near(x: real, y: real, d: real) {
    -d <= x - y <= d
  }

  /** One operation on the book, in money: what enters and leaves cash and capital, and when nothing does. */
  lemma StepIs(b: Book, op: Op)
    ensures var b' := Step(b, op);
            match op {
              case ApplyRegime(_) => b'.total == b.total && b'.tier1Cash == b.tier1Cash
              case Debit(x) =>
                if 0.0 < x <= b.tier1Cash then
                  b'.tier1Cash == b.tier1Cash - x && b'.total == if b.total >= x then b.total - x else 0.0
                else b' == b
              case Sweep(x) =>
                if x > 0.0 then b'.tier1Cash == b.tier1Cash + x && b'.total == b.total + x else b' == b
              case Deposit(x) =>
                if x > 0.0 then b'.tier1Cash - b.tier1Cash == x * b.tier1Pct && b'.total == b.total + x else b' == b
            }
  {
    hide CalculateRegime;
  }
}
