/**
 * The concurrency cap on active signals as interleaved atomic steps. The slot guard reads the
 * store under a mutex, but the mutex is released before the insert.
 */
module SlotGuard {

  /** The guard lists at most this many active signals before comparing with the cap. */
  const LIST_LIMIT: nat := 100

  datatype Evaluator =
    | Idle
    | Judging(sym: string, locked: bool)   // the model call, before the guard
    | Passed(sym: string, locked: bool)    // between the guard and the insert

  datatype State = State(active: multiset<string>, held: set<string>, evaluators: seq<Evaluator>, blind: nat)

  datatype Step =
    | Begin(t: nat, sym: string, lock: bool)
    | Guard(t: nat, listed: bool)          // `listed` is false when the store's listing failed
    | Insert(t: nat)
    | Close(sym: string)

  function Init(n: nat): State {
    State(multiset{}, {}, seq(n, _ => Idle), 0)
  }

  function Unlock(s: State, t: nat): set<string>
    requires t < |s.evaluators| && !s.evaluators[t].Idle?
  {
    if s.evaluators[t].locked then s.held - {s.evaluators[t].sym} else s.held
  }

  predicate Full(s: State, cap: nat) {
    (if |s.active| > LIST_LIMIT then LIST_LIMIT else |s.active|) >= cap
  }

  function Next(s: State, cap: nat, step: Step): State {
    match step
    case Begin(t, sym, lock) =>
      if t < |s.evaluators| && s.evaluators[t].Idle? && (lock ==> sym !in s.held)
      then s.(evaluators := s.evaluators[t := Judging(sym, lock)],
              held := if lock then s.held + {sym} else s.held)
      else s
    case Guard(t, listed) =>
      if t >= |s.evaluators| || !s.evaluators[t].Judging? then s
      else
        var e := s.evaluators[t];
        if e.sym in s.active || (listed && Full(s, cap))
        then s.(evaluators := s.evaluators[t := Idle], held := Unlock(s, t))
        else s.(evaluators := s.evaluators[t := Passed(e.sym, e.locked)], blind := s.blind + if listed then 0 else 1)
    case Insert(t) =>
      if t < |s.evaluators| && s.evaluators[t].Passed?
      then s.(active := s.active + multiset{s.evaluators[t].sym}, evaluators := s.evaluators[t := Idle],
              held := Unlock(s, t))
      else s
    case Close(sym) => s.(active := s.active - multiset{sym})
  }

  function RunFrom(s: State, cap: nat, steps: seq<Step>): State
    decreases |steps|
  {
    if steps == [] then s else RunFrom(Next(s, cap, steps[0]), cap, steps[1..])
  }

  lemma {:induction false} RunConcat(s: State, cap: nat, a: seq<Step>, b: seq<Step>)
    ensures RunFrom(s, cap, a + b) == RunFrom(RunFrom(s, cap, a), cap, b)
    decreases |a|
  {
    if a == [] {
      assert a + b == b;
    } else {
      assert (a + b)[1..] == a[1..] + b;
      RunConcat(Next(s, cap, a[0]), cap, a[1..], b);
    }
  }

  // -------------------------------------------------------------- the bound

  /** Evaluators past the guard that have not inserted yet. */
  function InFlight(es: seq<Evaluator>): (n: nat)
    ensures n <= |es|
    decreases |es|
  {
    if es == [] then 0 else InFlight(es[..|es| - 1]) + if es[|es| - 1].Passed? then 1 else 0
  }

  lemma {:induction false} InFlightUpdate(es: seq<Evaluator>, t: nat, e: Evaluator)
    requires t < |es|
    ensures InFlight(es[t := e]) == InFlight(es) - (if es[t].Passed? then 1 else 0) + (if e.Passed? then 1 else 0)
    ensures !es[t].Passed? ==> InFlight(es) <= |es| - 1
    decreases |es|
  {
    var init := es[..|es| - 1];
    if t == |es| - 1 {
      assert es[t := e][..|es| - 1] == init;
    } else {
      InFlightUpdate(init, t, e);
      assert es[t := e][..|es| - 1] == init[t := e];
    }
  }

  ghost predicate Bounded(s: State, cap: nat) {
    |s.evaluators| >= 1 && |s.active| + InFlight(s.evaluators) <= cap + |s.evaluators| - 1 + s.blind
  }

  lemma NextBounded(s: State, cap: nat, step: Step)
    requires 1 <= cap <= LIST_LIMIT && Bounded(s, cap)
    ensures Bounded(Next(s, cap, step), cap) && |Next(s, cap, step).evaluators| == |s.evaluators|
  {
    if !step.Close? && step.t < |s.evaluators| {
      var e := s.evaluators[step.t];
      match step
      case Begin(t, sym, lock) => InFlightUpdate(s.evaluators, t, Judging(sym, lock));
      case Guard(t, listed) =>
        InFlightUpdate(s.evaluators, t, Idle);
        if e.Judging? { InFlightUpdate(s.evaluators, t, Passed(e.sym, e.locked)); }
      case Insert(t) => InFlightUpdate(s.evaluators, t, Idle);
    }
  }

  lemma {:induction false} RunBounded(s: State, cap: nat, steps: seq<Step>)
    requires 1 <= cap <= LIST_LIMIT && Bounded(s, cap)
    ensures Bounded(RunFrom(s, cap, steps), cap) && |RunFrom(s, cap, steps).evaluators| == |s.evaluators|
    decreases |steps|
  {
    if steps != [] {
      NextBounded(s, cap, steps[0]);
      RunBounded(Next(s, cap, steps[0]), cap, steps[1..]);
    }
  }

  lemma {:induction false} NoneInFlight(n: nat)
    ensures InFlight(seq(n, _ => Idle)) == 0
  {
    if n > 0 {
      var es := seq(n, _ => Idle);
      assert es[..n - 1] == seq(n - 1, _ => Idle);
      NoneInFlight(n - 1);
    }
  }

  /**
   * In every reachable state the active signals, plus those between guard and insert, exceed the
   * cap by at most the number of other evaluators and of failed listings.
   */
  lemma ActiveWithinCap(n: nat, cap: nat, steps: seq<Step>)
    requires n >= 1 && 1 <= cap <= LIST_LIMIT
    ensures var s := RunFrom(Init(n), cap, steps);
            |s.active| + InFlight(s.evaluators) <= cap + n - 1 + s.blind
  {
    NoneInFlight(n);
    RunBounded(Init(n), cap, steps);
  }

  // ------------------------------------------------------- the bound is met

  /** A fresh symbol name for every number. */
  function Name(k: nat): string {
    seq(k, _ => 'A')
  }

  /** Evaluator 0 opens signals `from`, `from + 1`, ... one after the other. */
  function Serial(from: nat, count: nat): seq<Step>
    decreases count
  {
    if count == 0 then []
    else [Begin(0, Name(from), false), Guard(0, true), Insert(0)] + Serial(from + 1, count - 1)
  }

  ghost predicate Quiet(s: State, n: nat, opened_: nat) {
    && s.evaluators == seq(n, _ => Idle) && s.held == {} && s.blind == 0 && |s.active| == opened_
    && forall k | k >= opened_ :: Name(k) !in s.active
  }

  /** One whole evaluation of a fresh symbol while the guard still finds room. */
  lemma OneMore(s: State, n: nat, cap: nat, k: nat)
    requires n >= 1 && Quiet(s, n, k) && !Full(s, cap)
    ensures Quiet(RunFrom(s, cap, [Begin(0, Name(k), false), Guard(0, true), Insert(0)]), n, k + 1)
  {
    var s1 := Next(s, cap, Begin(0, Name(k), false));
    var s2 := Next(s1, cap, Guard(0, true));
    var s3 := Next(s2, cap, Insert(0));
    assert s2.evaluators[0] == Passed(Name(k), false);
    assert s3.evaluators == s.evaluators;
    forall j | j >= k + 1
      ensures Name(j) !in s3.active
    {
      assert |Name(j)| == j && |Name(k)| == k;
    }
    assert [Begin(0, Name(k), false), Guard(0, true), Insert(0)][1..] == [Guard(0, true), Insert(0)];
    assert [Guard(0, true), Insert(0)][1..] == [Insert(0)];
    assert [Insert(0)][1..] == [];
    assert RunFrom(s3, cap, []) == s3;
    assert RunFrom(s2, cap, [Insert(0)]) == s3;
  }

  lemma {:induction false} SerialOpens(s: State, n: nat, cap: nat, k: nat, count: nat)
    requires n >= 1 && Quiet(s, n, k)
    requires k + count <= cap || cap > LIST_LIMIT
    ensures Quiet(RunFrom(s, cap, Serial(k, count)), n, k + count)
    decreases count
  {
    if count > 0 {
      var first := [Begin(0, Name(k), false), Guard(0, true), Insert(0)];
      OneMore(s, n, cap, k);
      SerialOpens(RunFrom(s, cap, first), n, cap, k + 1, count - 1);
      RunConcat(s, cap, first, Serial(k + 1, count - 1));
    }
  }

  /** A cap above the listing limit never binds: one evaluator can open any number of signals. */
  lemma CapAboveListLimitNeverBinds(cap: nat, k: nat)
    requires cap > LIST_LIMIT
    ensures |RunFrom(Init(1), cap, Serial(0, k)).active| == k
  {
    SerialOpens(Init(1), 1, cap, 0, k);
  }

  /** Evaluators 0 to `m - 1` begin and pass the guard on fresh symbols, none inserting. */
  function Crowd(base: nat, m: nat): seq<Step> {
    if m == 0 then [] else Crowd(base, m - 1) + [Begin(m - 1, Name(base + m - 1), false), Guard(m - 1, true)]
  }

  lemma TwoSteps(s: State, cap: nat, a: Step, b: Step)
    ensures RunFrom(s, cap, [a, b]) == Next(Next(s, cap, a), cap, b)
  {
    assert [a, b][1..] == [b] && [b][1..] == [];
    assert RunFrom(Next(Next(s, cap, a), cap, b), cap, []) == Next(Next(s, cap, a), cap, b);
  }

  /** The first `m` evaluators of `r` are past the guard, the rest idle, and nothing has been inserted since `s`. */
  ghost predicate Crowded(r: State, s: State, n: nat, m: nat) {
    && r.active == s.active && r.blind == 0 && |r.evaluators| == n && InFlight(r.evaluators) == m
    && forall t | m <= t < n :: r.evaluators[t].Idle?
  }

  lemma OneMorePasses(r: State, s: State, n: nat, cap: nat, t: nat, sym: string)
    requires t < n && Crowded(r, s, n, t) && !Full(s, cap) && sym !in s.active
    ensures Crowded(RunFrom(r, cap, [Begin(t, sym, false), Guard(t, true)]), s, n, t + 1)
    ensures RunFrom(r, cap, [Begin(t, sym, false), Guard(t, true)]).evaluators == r.evaluators[t := Passed(sym, false)]
  {
    TwoSteps(r, cap, Begin(t, sym, false), Guard(t, true));
    hide RunFrom;
    var r1 := Next(r, cap, Begin(t, sym, false));
    InFlightUpdate(r.evaluators, t, Judging(sym, false));
    InFlightUpdate(r1.evaluators, t, Passed(sym, false));
    assert Next(r1, cap, Guard(t, true)).evaluators == r1.evaluators[t := Passed(sym, false)];
  }

  lemma {:induction false} CrowdPasses(s: State, n: nat, cap: nat, k: nat, m: nat)
    requires m <= n && Quiet(s, n, k) && !Full(s, cap)
    ensures Crowded(RunFrom(s, cap, Crowd(k, m)), s, n, m)
    decreases m
  {
    if m == 0 {
      NoneInFlight(n);
    } else {
      CrowdPasses(s, n, cap, k, m - 1);
      var last := [Begin(m - 1, Name(k + m - 1), false), Guard(m - 1, true)];
      RunConcat(s, cap, Crowd(k, m - 1), last);
      hide RunFrom;
      OneMorePasses(RunFrom(s, cap, Crowd(k, m - 1)), s, n, cap, m - 1, Name(k + m - 1));
    }
  }

  lemma StartsQuiet(n: nat)
    ensures Quiet(Init(n), n, 0)
  {
  }

  lemma QuietHasRoom(s: State, n: nat, k: nat, cap: nat)
    requires Quiet(s, n, k) && k < cap <= LIST_LIMIT
    ensures !Full(s, cap) && |s.active| == k
  {
  }

  ghost predicate Overshot(s: State, n: nat, cap: nat) {
    s.blind == 0 && |s.active| + InFlight(s.evaluators) == cap + n - 1
  }

  lemma CrowdedOvershoots(r: State, s: State, n: nat, cap: nat)
    requires cap >= 1 && Quiet(s, n, cap - 1) && Crowded(r, s, n, n)
    ensures Overshot(r, n, cap)
  {
    hide InFlight;
  }

  /** Room for one more, and everybody passes the guard at once. */
  lemma OvershootReaches(n: nat, cap: nat)
    requires n >= 1 && 1 <= cap <= LIST_LIMIT
    ensures Overshot(RunFrom(Init(n), cap, Serial(0, cap - 1) + Crowd(cap - 1, n)), n, cap)
  {
    hide *;
    var first, rest := Serial(0, cap - 1), Crowd(cap - 1, n);
    var s := RunFrom(Init(n), cap, first);
    StartsQuiet(n);
    SerialOpens(Init(n), n, cap, 0, cap - 1);
    QuietHasRoom(s, n, cap - 1, cap);
    CrowdPasses(s, n, cap, cap - 1, n);
    RunConcat(Init(n), cap, first, rest);
    CrowdedOvershoots(RunFrom(s, cap, rest), s, n, cap);
  }

  /** With `n` evaluators the overshoot is real: `cap + n - 1` is reached. */
  lemma BoundIsReached(n: nat, cap: nat)
    requires n >= 1 && 1 <= cap <= LIST_LIMIT
    ensures exists steps :: Overshot(RunFrom(Init(n), cap, steps), n, cap)
  {
    OvershootReaches(n, cap);
    hide *;
  }

  // ----------------------------------------------------- one signal per symbol

  /** Only the evaluators in `free` ever skip their symbol's lock. */
  ghost predicate Disciplined(steps: seq<Step>, free: set<nat>) {
    forall i | 0 <= i < |steps| && steps[i].Begin? && steps[i].t !in free :: steps[i].lock
  }

  predicate Busy(s: State, t: nat) {
    t < |s.evaluators| && !s.evaluators[t].Idle?
  }

  /** Every evaluator at work holds its symbol's lock. */
  ghost predicate Locked(s: State) {
    forall t: nat | Busy(s, t) :: s.evaluators[t].locked && s.evaluators[t].sym in s.held
  }

  /** No two evaluators work on one symbol. */
  ghost predicate Apart(s: State) {
    forall t: nat, u: nat | Busy(s, t) && Busy(s, u) && t != u :: s.evaluators[t].sym != s.evaluators[u].sym
  }

  /** An insert can only be the symbol's first. */
  ghost predicate Single(s: State) {
    && (forall t: nat | Busy(s, t) && s.evaluators[t].Passed? :: s.evaluators[t].sym !in s.active)
    && (forall x | x in s.active :: s.active[x] == 1)
  }

  ghost predicate Exclusive(s: State) {
    (|s.evaluators| <= 1 || Locked(s)) && Apart(s) && Single(s)
  }

  lemma BeginExclusive(s: State, cap: nat, step: Step)
    requires Exclusive(s) && step.Begin? && (|s.evaluators| <= 1 || step.lock)
    ensures Exclusive(Next(s, cap, step))
  {
    var r := Next(s, cap, step);
    forall t: nat | Busy(r, t) && t != step.t
      ensures Busy(s, t) && r.evaluators[t] == s.evaluators[t]
    {
    }
  }

  lemma GuardExclusive(s: State, cap: nat, step: Step)
    requires Exclusive(s) && step.Guard?
    ensures Exclusive(Next(s, cap, step))
  {
    var r := Next(s, cap, step);
    forall t: nat | Busy(r, t)
      ensures Busy(s, t) && r.evaluators[t].sym == s.evaluators[t].sym
              && r.evaluators[t].locked == s.evaluators[t].locked
              && (t != step.t ==> r.evaluators[t] == s.evaluators[t])
    {
    }
  }

  lemma InsertExclusive(s: State, cap: nat, step: Step)
    requires Exclusive(s) && step.Insert?
    ensures Exclusive(Next(s, cap, step))
  {
    var r := Next(s, cap, step);
    forall t: nat | Busy(r, t)
      ensures Busy(s, t) && r.evaluators[t] == s.evaluators[t]
    {
    }
  }

  lemma NextExclusive(s: State, cap: nat, step: Step)
    requires Exclusive(s) && (step.Begin? ==> |s.evaluators| <= 1 || step.lock)
    ensures Exclusive(Next(s, cap, step)) && |Next(s, cap, step).evaluators| == |s.evaluators|
  {
    match step {
      case Begin(_, _, _) => BeginExclusive(s, cap, step);
      case Guard(_, _) => GuardExclusive(s, cap, step);
      case Insert(_) => InsertExclusive(s, cap, step);
      case Close(_) =>
        hide Unlock, Full;
        assert forall t: nat | Busy(Next(s, cap, step), t) :: Busy(s, t);
    }
    hide Exclusive;
  }

  /** When every evaluator holds its symbol's lock, or there is only one, no symbol ever has a second ACTIVE signal. */
  lemma {:induction false} OneActivePerSymbol(s: State, cap: nat, steps: seq<Step>, sym: string)
    requires Exclusive(s) && (|s.evaluators| <= 1 || Disciplined(steps, {}))
    ensures RunFrom(s, cap, steps).active[sym] <= 1
    decreases |steps|
  {
    if steps != [] {
      NextExclusive(s, cap, steps[0]);
      hide Exclusive, Next;
      OneActivePerSymbol(Next(s, cap, steps[0]), cap, steps[1..], sym);
    }
  }

  /**
   * No symbol ever has two ACTIVE signals, whatever the cap and the interleaving, exactly when every
   * evaluator locks its symbol or there is only one evaluator. One that skips the lock, as the request
   * handlers do, is enough beside any other.
   */
  lemma OneActiveIff(n: nat, cap: nat, free: set<nat>)
    requires forall t | t in free :: t < n
    ensures (forall steps, sym | Disciplined(steps, free) :: RunFrom(Init(n), cap, steps).active[sym] <= 1)
            <==> n <= 1 || free == {}
  {
    if n <= 1 || free == {} {
      forall steps, sym | Disciplined(steps, free)
        ensures RunFrom(Init(n), cap, steps).active[sym] <= 1
      {
        OneActivePerSymbol(Init(n), cap, steps, sym);
      }
    } else {
      var f :| f in free;
      var other := if f == 0 then 1 else 0;
      UnlockedEvaluatorDuplicates(n, cap, free, f, other);
      hide RunFrom;
      assert RunFrom(Init(n), cap, Duplicating(cap, f, other)).active["X"] == 2;
    }
  }

  /** Two evaluators pass the guard for one symbol before either inserts; only `f` skips the lock. */
  function Duplicating(cap: nat, f: nat, other: nat): seq<Step> {
    [Begin(other, "X", true), Guard(other, cap >= 1)] + [Begin(f, "X", false), Guard(f, cap >= 1)]
    + [Insert(other), Insert(f)]
  }

  lemma UnlockedEvaluatorDuplicates(n: nat, cap: nat, free: set<nat>, f: nat, other: nat)
    requires f in free && f < n && other < n && f != other
    ensures Disciplined(Duplicating(cap, f, other), free)
    ensures RunFrom(Init(n), cap, Duplicating(cap, f, other)).active["X"] == 2
  {
    var a, b, c := [Begin(other, "X", true), Guard(other, cap >= 1)], [Begin(f, "X", false), Guard(f, cap >= 1)],
                   [Insert(other), Insert(f)];
    RunConcat(Init(n), cap, a + b, c);
    RunConcat(Init(n), cap, a, b);
    var s1 := RunFrom(Init(n), cap, a);
    var s2 := RunFrom(s1, cap, b);
    PassesUnseen(Init(n), cap, other, "X", true);
    PassesUnseen(s1, cap, f, "X", false);
    TwoSteps(s2, cap, c[0], c[1]);
    hide RunFrom, Full;
  }

  /** With nothing active an evaluator passes the guard, and nothing shows it did. */
  lemma PassesUnseen(s: State, cap: nat, t: nat, sym: string, lock: bool)
    requires t < |s.evaluators| && s.evaluators[t].Idle? && s.active == multiset{} && (lock ==> sym !in s.held)
    ensures var r := RunFrom(s, cap, [Begin(t, sym, lock), Guard(t, cap >= 1)]);
            r.active == multiset{} && r.evaluators == s.evaluators[t := Passed(sym, lock)]
  {
    TwoSteps(s, cap, Begin(t, sym, lock), Guard(t, cap >= 1));
    hide RunFrom;
    var r := Next(s, cap, Begin(t, sym, lock));
    assert Next(r, cap, Guard(t, cap >= 1)).evaluators == r.evaluators[t := Passed(sym, lock)];
  }

  // -------------------------------------------------------------- the guard itself

  /**
   * An evaluator passes the guard exactly when its symbol has no active signal, and the listing failed or
   * shows room: fewer active signals than the cap, or a cap above the hundred that are ever listed.
   */
  lemma GuardIs(s: State, cap: nat, t: nat, listed: bool)
    requires Busy(s, t) && s.evaluators[t].Judging?
    ensures var e, s' := s.evaluators[t], Next(s, cap, Guard(t, listed));
            && (s'.evaluators[t].Passed? <==> e.sym !in s.active && (!listed || |s.active| < cap || cap > 100))
            && (!s'.evaluators[t].Passed? ==> s'.evaluators[t].Idle? && (e.locked ==> e.sym !in s'.held))
            && s'.active == s.active
  {
  }
}
